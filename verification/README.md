# Aspen BFT replica: a verified model

This project models the replica of the Aspen Byzantine-fault-tolerant replicated log
(crates `raspen-consensus`, `raspen-storage`, `raspen-types`) and proves its safety properties,
for every run of a cluster with at most `f` Byzantine members.

`dafny verify dfyconfig.toml` checks everything.

## What is modelled

**One replica.** `Protocol.dfy` states every guard and transition of `fast_path.rs`,
`checkpoint.rs`, `alignment.rs`, `repair_entry.rs` and `repair.rs` as a function on
`ReplicaState`, and the fixed fourteen-handler dispatch of `process_message` and the
three-handler dispatch of `handle_event` as a list of calls (`Dispatch.Program`). As in the
source, every `on_receive_*` re-evaluates its guard on every message, so one delivery can cause
several phase changes. `ReplicaObject.dfy` is the same replica as the source has it, an object
whose guards scan the stored messages and whose methods update fields and the store in place;
`ProcessMessage` and `HandleEvent` are proved to do what the whole call list says and to keep the
object valid.

**The hash set's iteration order.** `can_repair_prepare` takes the first match in a `HashSet`.
`Input.Deliver` carries a `pick`, which names the history found first; theorems hold for every
`pick`.

**The network** (`specs/choreo/choreo.qnt`). `Cluster.dfy` keeps a growing set `sent`. Any sent
message may reach any correct replica, any number of times and in any order; timers fire at any
moment; every effect a replica returns is added to `sent`. A Byzantine node may at any moment add
any message whose `from` is Byzantine, and any message that has no `from` (the two proofs and
SPECULATE). `from` is taken to be authentic and a member of `nodes_ordered`; the code checks
neither. `After(sys, run)` is the state after any sequence of actions, so a lemma over all `run`
is a lemma over all reachable states.

**Parameters.** `n`, `f` and `p` are arbitrary with `n >= 3f + 1`; the design size
`n >= 3f + 2p + 1` implies it, and lemmas about fast quorums say what they need
in addition. `entry_hash` is an arbitrary function; nothing assumes it injective, and the binding
theorem speaks of collisions instead.

**History variables.** A `Trail` is a replica's state with all effects it ever returned, `base`
(how many leading entries the last rebuild or applied history fixed) and `aligned` (rounds in
which it completed an alignment). No transition reads them. A REPAIR-DONE of a correct replica in
`sent` marks that it executed apply-repair for that (view, round, history).

**Storage.** `Storage.dfy` has the in-memory backend, `RocksBackend.dfy` the byte-keyed one with
its cached size. `Storage.TopHashOf` is the `prev_hash` of the top entry, as in the source.

**The specification.** `QuintRepair.dfy` restates the REPAIR listeners and handlers of
`specs/aspen.qnt`, which count senders where the code counts messages.

## How the proofs are built

1. Per handler: what it keeps (`Voting`, `Justification`, `CanonicalLog`), lifted to the call
   list, to any input sequence, and to any run of the cluster (`Cluster.AlwaysInv`).
2. What every guard, handler and whole input does, in messages, fields, keys and bytes
   (`GuardMeaning`, `HandlerMeaning`, `InputMeaning`, `CheckpointRecord`, `Evidence`), and counting
   (`Counting`): when counting messages is counting senders, and quorum intersection.
3. The theorems over all runs (`Agreement`, `ReplyHistory`, `CheckpointSource`, `PrepareChoice`,
   `Refinement`), the bisimulation (`StaleMessages`), the backend equivalence (`RocksBackend`), and
   what the code does not guarantee: the exact conditions (`ConflictCondition`, `CountingGaps`,
   `PrepareChoice`, `AlignmentRuns`) and concrete runs from the initial state (`Schedules`,
   `FirstEntryRuns`, `CountingGaps`, `SplitCommits`, `AlignmentRuns`). `RepairRuns` has a run without
   faults in which repair succeeds.

## Where the code and its documentation differ

The model follows the code.

- `repair.rs:321-324` says `f + 1` REPAIR-DONEs imply that a correct replica left REPAIR. The
  guard counts messages, and one sender may contribute several with different hashes:
  `CountingGaps.OneSenderEndsARound` is a run in which one Byzantine sender ends a correct
  replica's round without a single commit. `CountingGaps.DoneVotesAreSenders` says exactly when
  the counts coincide, `CountingGaps.CatchUpCertainty` when the conclusion is right, and
  `Agreement.LeftRoundsAreCertified` what then holds.
- `checkpoint.rs:138` and `alignment.rs:59` say the sets deduplicate by sender. They deduplicate
  whole messages, and `eta_star` and the checkpoint hash are not matched. One Byzantine sender can
  make a correct replica announce a checkpoint (`FirstEntryRuns.OneSenderFormsACheckpoint`) and
  can make it align and replace its log (`CountingGaps.OneSenderReplacesALog`). The exact conditions
  under which the counts are right are `CountingGaps.MatchingSyncsAreSenders` and
  `CountingGaps.CheckpointVotesAreSenders`; with one hash per sender, a STATE-REQUEST is backed by a
  correct replica (`Agreement.StateRequestIsSound`).
- `repair_entry.rs:23-30` says the conflict guard fires when a checkpoint is provably impossible.
  It can fire while the silent replicas could still complete it, with all SYNCs from different
  senders (`FirstEntryRuns.EarlyConflictByDefault`, the default six-replica configuration) or from one
  sender alone (`FirstEntryRuns.OneSenderProvesAConflict`), and it can stay silent when the checkpoint
  is out of reach (`FirstEntryRuns.OneSenderHidesAConflict`). When exactly it is right, for any
  stored SYNCs, is `ConflictCondition.GuardVersusSpecification`; the specification's own condition,
  which counts senders, is exact (`ConflictCondition.SpecifiedConditionIsExact`).
- `repair.rs:108` speaks of the current view's leader; the proposer is not checked. Hence
  `no_honest_equivocation` (`aspen.qnt:915-923`) fails for REPAIR-PREPARE with a Byzantine
  proposer (`CountingGaps.OneProposerSplitsAVote`). It holds with one proposal in the (view, round)
  (`Agreement.PrepareAgreement`), and a replica in PreparePhase is one delivery away from
  equivocating exactly when it has voted there and another history was proposed there
  (`PrepareChoice.EquivocationNeedsTwoProposals`). `repair_history_agreement` (`aspen.qnt:875-884`)
  fails with it (`SplitCommits.OneProposerSplitsCommits`), but only if `n - 3f` correct replicas
  prepared both histories (`Agreement.CommitPhaseAgreement`). Agreement on applied histories does
  not depend on either (`Agreement.RoundAgreement`).
- `alignment.rs:3-6` says a replica aligns on `f + 1` CHECKPOINTs inconsistent with its own log.
  The guard compares no hashes: in `AlignmentRuns.AgreementLosesEntries` all replicas are correct and
  agree, and one still aligns and loses an entry. `AlignmentRuns.AlignsWithoutDivergence` says exactly
  when that happens; under the conditions of checkpoint agreement the documented condition is never
  met (`AlignmentRuns.DivergenceIsByzantine`).

## Model

| member | source | states |
|---|---|---|
| Agreement.RoundAgreement | raspen/crates/consensus/src/repair.rs:165-301 | In every run, two correct replicas that apply repair in one round apply the same history in the same view, whatever views they went through and whatever the Byzantine nodes send. |
| Agreement.CommitQuorumsAgree | raspen/crates/consensus/src/repair.rs:224-245 | At most one (view, history) gathers `n - f` REPAIR-COMMITs in a round. |
| Agreement.AppliedHistoryIsValid | raspen/crates/consensus/src/repair.rs:101-245 | A history applied by a correct replica was proposed for exactly that (view, round), and at least `n - 2f` correct replicas broadcast REPAIR-PREPARE for it. |
| Agreement.LeftRoundsAreCertified | raspen/crates/consensus/src/repair.rs:224-371 | If no sender issued two REPAIR-DONEs for one (view, round), every round a correct replica has left, by apply or by catch-up, has exactly one (view, hash) with `n - f` distinct REPAIR-COMMIT senders. |
| Agreement.PrepareAgreement | specs/aspen.qnt:875-923 | If one history was proposed in the (view, round), despite Byzantine votes: all correct replicas in PreparePhase or CommitPhase there hold the same hash, and no correct replicas' REPAIR-PREPAREs differ. |
| Agreement.CommitPhaseAgreement | specs/aspen.qnt:872-884 | In every run, whatever was proposed: correct replicas in CommitPhase of one (view, round) hold the same hash, or at least `n - 3f` correct replicas broadcast REPAIR-PREPAREs for both. |
| SplitCommits.OneProposerSplitsCommits | specs/aspen.qnt:875-884 | For every cluster with a Byzantine node: a run in which two correct replicas are in CommitPhase of view 0, round 0 with different hashes. |
| Agreement.FaultFreeProposals | raspen/crates/consensus/src/repair.rs:37-79 | Without faults: per (view, round) one history is proposed, only by the view's leader; every proposed and every applied size lies between `n - f` and `n`. |
| Agreement.FaultFreeAgreement | specs/aspen.qnt:875-911 | Without faults: replicas voting in one (view, round) hold one hash, which the leader proposed, between `n - f` and `n`. |
| Agreement.CommitCertificatePersists | raspen/crates/consensus/src/repair.rs:160-201 | In every reachable state a replica in CommitPhase stores REPAIR-PREPAREs of `n - f` distinct senders for its current view, round and hash. |
| Agreement.TimeoutProofIsSound | raspen/crates/consensus/src/repair_entry.rs:107-192 | A TIMEOUT-PROOF(r, k) a correct replica broadcast is backed by a correct replica that broadcast TIMEOUT(r, k). |
| Agreement.LogsAreCanonical | raspen/crates/consensus/src/repair.rs:255-302 | In every reachable state the store's keys are exactly `0..size`, `kv_size <= size`, and the log is placeholders below a base and chained by `prev_hash = H(previous entry)` above it. |
| InputMeaning.ApplyDelivered | raspen/crates/consensus/src/repair.rs:224-316 | Any delivery to a replica in CommitPhase that leaves it with COMMITs of `n - f` different nodes for its view, round and hash `h` applies `h`: next round, fast path, and for `h > 0` a store with exactly the indices below `h`, entry `k` having operation `k` and 32 `prev_hash` bytes `k` modulo 256; for `h = 0` the store as before; and exactly REPAIR-DONE and COMMITTED-REPLY sent. |
| InputMeaning.NotApplied | raspen/crates/consensus/src/repair.rs:224-386 | With fewer COMMITs it keeps its log and sends nothing of its own; it catches up exactly if it has `f + 1` REPAIR-DONEs and a history for its (view, round). |
| InputMeaning.SyncAfterApply | raspen/crates/consensus/src/checkpoint.rs:31-83 | The SYNC sent next after applying `h > 0` is for index `h - 1` of the new round, with all hash bytes `h - 1` modulo 256. |
| InputMeaning.ProposalDelivered | raspen/crates/consensus/src/repair.rs:37-94 | Any delivery to a replica collecting logs makes it propose iff it leads its view and then stores LOGs of `n - f` nodes for exactly its view and round; what it proposes is their number, and it proposes nothing else. |
| InputMeaning.ReplyDelivered | raspen/crates/consensus/src/alignment.rs:108-158 | A STATE-REPLY to an aligning replica: the complete new state, in keys and bytes, and no effects. |
| InputMeaning.TimerMeans | raspen/crates/consensus/src/replica.rs:159-178 | One timer event in any state: complete new state and effects; a TIMEOUT names the event's own index, a SYNC the top entry and its `prev_hash`, a view change the new view. |
| InputMeaning.DeliveryStores | raspen/crates/consensus/src/replica.rs:74-147 | Any delivery in any state stores the message in the one set of its kind and changes no other set. |
| InputMeaning.EitherProofEnters | raspen/crates/consensus/src/repair_entry.rs:210-242 | A TIMEOUT-PROOF or a CONFLICT-PROOF, for whatever round and index, leaves no replica outside REPAIR in its round. |
| InputMeaning.HistoryVariablesMean | raspen/crates/consensus/src/alignment.rs:125-158 | The history variables: `aligned` grows exactly when a STATE-REPLY is adopted, `base` is set exactly then and by applying repair. |
| GuardMeaning.ConflictGuardMeans | raspen/crates/consensus/src/repair_entry.rs:31-73 | The conflict guard fires iff `n - f` different (sender, hash, eta) have a SYNC for the top index of the round and fewer than `n - p` (sender, eta) one with the own top hash. |
| GuardMeaning.ConflictIgnoresOthers | raspen/crates/consensus/src/repair_entry.rs:46-65 | SYNCs for other indices or rounds make no difference to it. |
| GuardMeaning.NoTopSyncNoConflict | raspen/crates/consensus/src/repair_entry.rs:46-73 | Without a stored SYNC for the top index it is silent. |
| GuardMeaning.CheckpointGuardMeans | raspen/crates/consensus/src/checkpoint.rs:89-114 | The checkpoint guard in the SYNCs themselves: `n - p` different (sender, eta) for round, top index and top hash. |
| GuardMeaning.AlignGuardMeans | raspen/crates/consensus/src/alignment.rs:18-41 | The alignment guard: `f + 1` different (sender, hash) at the own round and checkpoint index. |
| GuardMeaning.TimeoutGuardMeans | raspen/crates/consensus/src/repair_entry.rs:143-168 | The timeout guard: `f + 1` different senders of TIMEOUTs for the round and top index. |
| GuardMeaning.HistoryGuardMeans | raspen/crates/consensus/src/repair.rs:37-63 | The proposal guard: the leader of the view, and the number of nodes with a LOG for (view, round), at least `n - f`. |
| GuardMeaning.CommitGuardMeans | raspen/crates/consensus/src/repair.rs:165-187 | The commit guard: `n - f` different senders of PREPAREs for view, round and hash. |
| GuardMeaning.ApplyGuardMeans | raspen/crates/consensus/src/repair.rs:224-245 | The apply guard: `n - f` different senders of COMMITs for view, round and hash. |
| GuardMeaning.CatchUpGuardMeans | raspen/crates/consensus/src/repair.rs:325-353 | The catch-up guard: a REPAIR phase, `f + 1` different (sender, hash) of REPAIR-DONEs, and a history, all for (view, round). |
| GuardMeaning.LeaderOfTurn | raspen/crates/consensus/src/replica.rs:185-191 | Node `i` of the ordered list leads exactly the views `k * n + i`. |
| GuardMeaning.SyncSendersMean | specs/aspen.qnt:161-179 | Membership in the two sender sets of the specification, said in the SYNCs themselves. |
| HandlerMeaning.ThresholdMeans | raspen/crates/consensus/src/checkpoint.rs:52-83 | After every message: a SYNC for the top entry iff Speculative and the log is non-empty and longer than the checkpoint index. |
| HandlerMeaning.EnterMeans | raspen/crates/consensus/src/repair_entry.rs:216-242 | Both kinds of proof, for any round, make a replica outside REPAIR enter, and its LOG carries the top entry's `prev_hash`. |
| HandlerMeaning.ConflictMeans | raspen/crates/consensus/src/repair_entry.rs:31-97 | State and effects of the conflict check, proof before LOG, with the guard said in the stored SYNCs. |
| Evidence.BroadcastsAreWarranted | raspen/crates/consensus/src/repair.rs:37-245 | In every run, whatever a correct replica broadcast is warranted by messages in existence: a proposal of size `h` by LOGs of `h` distinct nodes for exactly its (view, round) and by leadership, a COMMIT and a REPAIR-DONE by `n - f` distinct voters, proofs and CHECKPOINTs by their quorums for exactly their round and index. |
| RepairRuns.RepairHappens | raspen/crates/consensus/src/repair.rs:37-316 | In every fault-free cluster with `f >= 1` there is a run in which timers lead to a TIMEOUT-PROOF and `n - f` replicas apply the leader's proposal of size `n - f`. |
| RepairRuns.RepairHappensByDefault | raspen/crates/types/src/config.rs:49-52 | The same in the default configuration: five replicas apply size 5. |
| Agreement.PostRepairLogsAgree | raspen/crates/consensus/src/repair.rs:255-302 | Two correct replicas that applied repair in round r, are in round r+1 and have not aligned in it hold logs of which one is a prefix of the other, whatever arrived in between. |
| ReplyHistory.RepliesAgree | raspen/crates/consensus/src/fast_path.rs:36-77 | In every run, SPEC-REPLYs of correct replicas for the same round and index carry the same hash, however long ago they were sent, if the senders started the round at genesis or by applying repair and did not align in it. |
| ReplyHistory.RepliesAreFaithful | raspen/crates/consensus/src/fast_path.rs:36-77 | Over its whole life, every SPEC-REPLY of a correct replica outside alignment rounds is the hash of that index's entry in the log of that round: placeholders below the round's base, chained above it; the base is 0 in round 0 and the applied history after a repair. |
| ReplyHistory.CanonicalEntry | raspen/crates/consensus/src/fast_path.rs:36-69 | The canonical form determines every entry from the base alone. |
| Agreement.CorrectSyncsAreSingle | raspen/crates/consensus/src/checkpoint.rs:52-83 | A correct replica's SYNCs for one (round, index) of a round it does not align in are one and the same message, over its whole life. |
| Agreement.CheckpointAgreement | raspen/crates/consensus/src/checkpoint.rs:89-133 | All CHECKPOINTs correct replicas formed for one (round, index) carry the same hash, provided `n` exceeds `2p` plus the Byzantine nodes and the correct ones that aligned in the round, and Byzantine senders do not repeat a SYNC. |
| Agreement.CheckpointAgreementAtDesignSize | specs/aspen.qnt:7-8 | At `n >= 3f + 2p + 1` that tolerates `2f` aligned correct replicas. |
| Agreement.StateRequestIsSound | raspen/crates/consensus/src/alignment.rs:18-56 | If no sender announced two hashes for one (round, index), every STATE-REQUEST a correct replica broadcast is backed by a correct replica's CHECKPOINT for that index. |
| Agreement.StateRepliesAreSourced | raspen/crates/consensus/src/alignment.rs:92-100 | In every run, a checkpoint a correct replica hands out is the initial one, rests on `n - p` SYNC messages in existence for exactly that index and hash, or was adopted by its own alignment: a STATE-REPLY it received carried the index, and the hash is the placeholder entry's. |
| CheckpointSource.AlwaysSourced | raspen/crates/consensus/src/checkpoint.rs:121-133 | In every run, the checkpoint a replica stores and every one it handed out is the initial one, one it announced, or one whose index a STATE-REPLY delivered to it carried. |
| CheckpointSource.RepliedIndexOrigin | raspen/crates/consensus/src/alignment.rs:92-158 | In every run, the index of every STATE-REPLY goes back, through any number of alignments, to genesis, to `n - p` SYNC messages for it, or to a Byzantine STATE-REPLY. |
| CheckpointSource.CheckpointIndexOrigin | raspen/crates/consensus/src/alignment.rs:125-158 | So does the checkpoint index every correct replica stores. |
| CheckpointSource.CallSources | raspen/crates/consensus/src/alignment.rs:92-158 | Each handler keeps the checkpoint, announces it, or adopts it with the delivered STATE-REPLY's index; a STATE-REPLY carries it as it is. |
| CheckpointRecord.AnnouncedInDelivery | raspen/crates/consensus/src/checkpoint.rs:121-133 | Any delivery but a STATE-REPLY that makes a replica announce a checkpoint leaves it with exactly that index and hash stored. |
| CheckpointRecord.CheckpointIsLastInRun | raspen/crates/consensus/src/checkpoint.rs:121-133 | In every run, the checkpoint a correct replica stores is the one it announced or adopted last. |
| CheckpointRecord.RequestDelivered | raspen/crates/consensus/src/alignment.rs:80-100 | A STATE-REQUEST delivered in any state is answered exactly once, to its sender, with exactly the checkpoint stored afterwards. |
| Cluster.AlwaysInv | specs/choreo/choreo.qnt:73-97 | The cluster invariant (single votes, evidence behind every broadcast, canonical logs, truthful SYNCs and replies, authentic senders) holds after every run. |
| Cluster.HandleNode | raspen/crates/consensus/src/replica.rs:74-178 | One whole `process_message` or `handle_event` call keeps every per-replica invariant, relative to what was sent, and retracts nothing it emitted. |
| Voting.EpochsAdvance | raspen/crates/consensus/src/replica.rs:74-178 | Between any two points of a replica's life (round, phase rank) does not decrease lexicographically and the view does not decrease. |
| Voting.PhasesAgreeAndVotesAreSingle | specs/aspen.qnt:886-890 | Over every input sequence `in_repair` holds iff the phase is one of the three REPAIR phases, and a replica uses each REPAIR-HISTORY, REPAIR-COMMIT and REPAIR-DONE slot of a round, and each LOG slot of a (view, round), at most once. |
| Voting.CommitIsHeld | raspen/crates/consensus/src/repair.rs:193-302 | Whatever arrives, a replica in CommitPhase keeps phase, view and hash until it leaves the round. |
| Voting.CallVotes | raspen/crates/consensus/src/repair_entry.rs:81-242 | Every handler advances the epoch, keeps phase consistency and casts only ballots not cast before. |
| Justification.AdvanceJustified | raspen/crates/consensus/src/repair.rs:70-371 | Each handler call keeps: everything stored exists, every broadcast rests on the quorum its guard demands, the voted history was proposed, the commit certificate is held, and every round left was left for a reason. |
| Justification.CallCertified | raspen/crates/consensus/src/repair.rs:165-213 | No handler loses the prepare certificate of a replica in CommitPhase. |
| Counting.SendersVersusMessages | specs/aspen.qnt:190-236 | There are as many messages as senders iff no sender contributed two, and never fewer. |
| Counting.VotesAreSenders | raspen/crates/consensus/src/repair.rs:172-185 | For any received set, the number of matching PREPAREs, COMMITs or TIMEOUTs is the cardinality of the specification's sender set. |
| Counting.QuorumsMeet | raspen/crates/types/src/config.rs:36-47 | Two member sets that together exceed `n + f` share a correct member. |
| Counting.LeadersRotate | raspen/crates/consensus/src/replica.rs:185-191 | In any `n` consecutive views every member leads exactly once. |
| CountingGaps.DoneVotesAreSenders | raspen/crates/consensus/src/repair.rs:336-348 | The catch-up guard counts senders iff no sender issued two different REPAIR-DONEs for the (view, round). |
| CountingGaps.MatchingSyncsAreSenders | raspen/crates/consensus/src/checkpoint.rs:89-114 | The checkpoint guard counts senders iff no sender varied `eta_star`. |
| CountingGaps.CheckpointVotesAreSenders | raspen/crates/consensus/src/alignment.rs:18-41 | The alignment guard counts senders iff no sender announced two hashes. |
| CountingGaps.CatchUpCertainty | raspen/crates/consensus/src/repair.rs:319-353 | When the catch-up guard fires, a correct replica is among the senders for every faulty set of at most `f` nodes iff the REPAIR-DONEs have `f + 1` senders; if not, some sender issued two. |
| CountingGaps.AlignCertainty | raspen/crates/consensus/src/alignment.rs:12-41 | The same for the CHECKPOINTs that start an alignment. |
| CountingGaps.OneSenderEndsARound | raspen/crates/consensus/src/repair.rs:319-371 | A run in which a single Byzantine sender makes a correct replica leave round 0 although no REPAIR-COMMIT exists. |
| CountingGaps.OneProposerSplitsAVote | specs/aspen.qnt:274-284 | A run in which a single Byzantine proposer makes a correct replica broadcast two different REPAIR-PREPAREs for one (view, round). |
| CountingGaps.OneSenderReplacesALog | raspen/crates/consensus/src/alignment.rs:18-158 | A run in which a single Byzantine sender, announcing `f + 1` different hashes, makes a fresh correct replica align although nobody else announced a checkpoint, and then replaces its log by as many placeholders as it likes. |
| AlignmentRuns.AgreementLosesEntries | raspen/crates/consensus/src/alignment.rs:3-41 | A run without faults (`f <= p`) in which all replicas agree on the log, yet one aligns on `f + 1` CHECKPOINTs that carry the hash of its own checkpoint and loses its second entry. |
| AlignmentRuns.AlignsWithoutDivergence | raspen/crates/consensus/src/alignment.rs:18-41 | A Speculative replica aligns without `f + 1` diverging CHECKPOINTs iff the agreeing ones make up for those missing. |
| AlignmentRuns.DivergenceIsByzantine | raspen/crates/consensus/src/alignment.rs:3-6 | Under the conditions of checkpoint agreement, only Byzantine senders, so at most `f`, announce another hash than a correct replica did for the (round, index). |
| PrepareChoice.DeliveryVotes | raspen/crates/consensus/src/replica.rs:123-131 | A whole dispatch makes a replica that may still vote broadcast REPAIR-PREPAREs for at most one history, stored for its (view, round), and whichever is found first gets one. |
| PrepareChoice.VoteCanChange | raspen/crates/consensus/src/repair.rs:101-157 | A delivery can make a replica in PreparePhase broadcast a REPAIR-PREPARE for another hash than the one it holds iff the histories stored with the delivered message hold such a hash. |
| PrepareChoice.EquivocationNeedsTwoProposals | specs/aspen.qnt:274-284 | In every run, for a correct replica in PreparePhase: some delivery leaves two different REPAIR-PREPAREs of it in its (view, round) iff it has sent one there and another history was proposed there. |
| PrepareChoice.EquivocatorSawTwoProposals | specs/aspen.qnt:913-923 | In every run, a correct replica with two different REPAIR-PREPAREs in one (view, round) was shown proposals for both. |
| FirstEntryRuns.RequestHandled | raspen/crates/consensus/src/replica.rs:74-147 | For any SYNCs heard before the first request, the dispatch of that request ends in exactly the stated state and effects: the CHECKPOINT iff `n - p` messages match, else CONFLICT-PROOF and LOG iff `n - f` messages are stored, else neither. |
| FirstEntryRuns.EarlyConflict | raspen/crates/consensus/src/repair_entry.rs:67-97 | A run in which a replica that heard `n - f` different senders, one of them dissenting, proves a conflict and enters REPAIR although the silent replicas could still complete the checkpoint. |
| FirstEntryRuns.EarlyConflictByDefault | raspen/crates/types/src/config.rs:49-52 | The same in the default configuration n = 6, f = 1, p = 1. |
| FirstEntryRuns.OneSenderProvesAConflict | raspen/crates/consensus/src/repair_entry.rs:46-97 | A run in which one sender's SYNCs with varied `eta_star` alone make a correct replica prove a conflict, although the checkpoint is within reach. |
| FirstEntryRuns.OneSenderHidesAConflict | raspen/crates/consensus/src/repair_entry.rs:46-73 | A run in which more than `p` senders dissent, so the checkpoint is out of reach, but one sender's repeated SYNCs keep the guard silent and even form the checkpoint, however many correct replicas were heard. |
| FirstEntryRuns.OneSenderFormsACheckpoint | raspen/crates/consensus/src/checkpoint.rs:89-153 | A run in which a correct replica broadcasts a CHECKPOINT although a single other sender ever sent a SYNC. |
| ConflictCondition.SpecifiedConditionIsExact | specs/aspen.qnt:161-179 | For any SYNCs heard from members, repeated or not: with m distinct senders, c of them agreeing, `n - m < (n - p) - c` holds iff no SYNCs of the members not yet heard bring the hash to `n - p` distinct senders. |
| ConflictCondition.DissentVersusReach | specs/aspen.qnt:253-256 | The checkpoint is out of reach iff more than `p` of the senders heard never agreed. |
| ConflictCondition.GuardVersusSpecification | raspen/crates/consensus/src/repair_entry.rs:31-73 | For any SYNCs stored: when the code's guard fires, the checkpoint is out of reach iff more than `p` senders dissent; once it is out of reach with `n - f` senders heard, the guard fires iff fewer than `n - p` messages match, and it can stay silent only if matching SYNCs repeat; it fires before `n - f` senders are heard only if SYNCs repeat. |
| QuintRepair.DeliverySimulated | raspen/crates/consensus/src/replica.rs:74-147 | Given one history hash per (view, round) and sender-unique REPAIR-DONEs, a delivery to a replica in a REPAIR phase equals exactly the specification transitions that arise from attempting the five message rules in order, each fired iff the specification lets it; on phase, round, view, start_idx, kv_size, in_repair, proposed hash and emitted REPAIR messages. |
| QuintRepair.TimerSimulated | raspen/crates/consensus/src/replica.rs:159-178 | A timer event fires the view-change rule iff the specification lets it, without assumptions on messages. |
| QuintRepair.MatchLog | specs/aspen.qnt:573-597 | The proposal handler fires the specification's rule iff it may fire. |
| QuintRepair.MatchCommit | specs/aspen.qnt:653-695 | The apply handler fires the specification's rule iff it may fire. |
| QuintRepair.MatchHistory | specs/aspen.qnt:602-619 | The prepare handler fires the specification's rule iff it may fire, for whichever stored history is found first. |
| QuintRepair.MatchDone | specs/aspen.qnt:699-727 | The catch-up handler fires the specification's rule iff it may fire. |
| Refinement.DeliveryRefines | specs/aspen.qnt:573-750 | The simulation at every point of every run of the cluster, with Byzantine nodes: exactly the attempted rules fire, the path is legal, ends in the replica's actual next state and broadcasts what it actually broadcasts. |
| Refinement.TimerRefines | specs/aspen.qnt:730-750 | The same for timers. |
| CanonicalLog.AdvanceLog | raspen/crates/consensus/src/alignment.rs:125-158 | Every handler keeps the canonical form, rebuilds included. |
| CanonicalLog.SameBaseSameEntries | raspen/crates/consensus/src/fast_path.rs:36-69 | Two canonical logs on the same base agree wherever both have an entry. |
| CanonicalLog.PreviousEntryPresent | raspen/crates/consensus/src/fast_path.rs:38-47 | With a canonical log, the `unwrap_or` default for the previous entry's hash is never used. |
| CanonicalLog.FastPathChains | raspen/crates/consensus/src/fast_path.rs:36-69 | A log never rebuilt and without stale entries is chained from genesis. |
| CanonicalLog.TopHashBindsLog | raspen/crates/storage/src/kv_store.rs:120-139 | For every hash function: stores chained from genesis and of equal size agree on every entry strictly below the top iff their `top_hash`es are equal and no two different entries below the top collide, for arbitrary operations and results. |
| CanonicalLog.EqualLinkEqualPrefix | raspen/crates/storage/src/kv_store.rs:42-46 | Equal links at one index mean equal entries everywhere below it, or exhibit a collision. |
| CanonicalLog.TopEntryIsNotBound | raspen/crates/storage/src/kv_store.rs:120-130 | The bound is sharp: every chained store has two chained extensions with equal `top_hash` and without a collision that differ in the top entry. |
| CanonicalLog.AdvanceSyncsSingle | raspen/crates/consensus/src/checkpoint.rs:52-83 | Each handler keeps: outside alignment rounds a replica never SYNCs one (round, index) with two hashes. |
| StaleMessages.StaleMessagesNeverMatter | raspen/crates/consensus/src/replica.rs:74-178 | From any state and over any inputs, a replica that discards all messages of past rounds after each input emits exactly the same effects and ends in exactly the trimmed state. |
| StaleMessages.CallAlike | raspen/crates/consensus/src/repair.rs:44-349 | Handlers cannot tell apart two states that differ only in messages of past rounds. |
| Dispatch.HandleAppends | raspen/crates/consensus/src/replica.rs:74-147 | One input moves the state as the bare call sequence says and appends that sequence's effects. |
| Dispatch.RunEachShift | raspen/crates/consensus/src/replica.rs:75-146 | Effects already collected do not influence later handlers. |
| Storage.MemKvStore.constructor | raspen/crates/storage/src/kv_store.rs:69-74 | A new store is empty. |
| Storage.MemKvStore.Put | raspen/crates/storage/src/kv_store.rs:104-107 | Replaces the one entry at the index. |
| Storage.MemKvStore.Size | raspen/crates/storage/src/kv_store.rs:109-118 | Every index is below the answer, and the one just below it is present. |
| Storage.MemKvStore.TopHash | raspen/crates/storage/src/kv_store.rs:120-130 | `prev_hash` of the entry at the greatest index, or zeros. |
| Storage.MemKvStore.HashAt | raspen/crates/storage/src/kv_store.rs:132-139 | Hash of the entry at the index; an error (none) if there is none. |
| Storage.MemKvStore.RebuildFromEntries | raspen/crates/storage/src/kv_store.rs:141-148 | Exactly the listed entries remain, later ones winning. |
| Storage.FromListKeys | raspen/crates/storage/src/kv_store.rs:141-148 | After a rebuild exactly the listed indices are present. |
| Storage.LastListedWins | raspen/crates/storage/src/kv_store.rs:141-148 | Of several listed entries for one index the last one is kept. |
| Storage.SyntheticListStore | raspen/crates/consensus/src/repair.rs:262-276 | The placeholder list rebuilds to exactly the placeholder store. |
| RocksBackend.BigEndianOrder | raspen/crates/storage/src/kv_store.rs:178-180 | Byte-lexicographic order of big-endian keys is numeric order. |
| RocksBackend.KeyOrder | raspen/crates/storage/src/kv_store.rs:178-180 | The same for eight-byte entry keys, which are also distinct for distinct indices. |
| RocksBackend.LastKeyIsGreatest | raspen/crates/storage/src/kv_store.rs:273-282 | The iterator from the end yields the greatest index. |
| RocksBackend.RebuildHolds | raspen/crates/storage/src/kv_store.rs:291-316 | Range deletion, batch and cached size leave exactly the listed entries, although the range's end is exclusive. |
| RocksBackend.BackendsAgree | raspen/crates/storage/src/kv_store.rs:99-316 | Over every sequence of puts and rebuilds with indices below `u64::MAX`, both backends answer get, size, top_hash and hash_at alike. |
| RocksBackend.RocksKvStore.constructor | raspen/crates/storage/src/kv_store.rs:192-203 | A newly created store holds no entries. |
| RocksBackend.RocksKvStore.Get | raspen/crates/storage/src/kv_store.rs:246-251 | The entry at the index of the log it stands for, or none. |
| RocksBackend.RocksKvStore.Put | raspen/crates/storage/src/kv_store.rs:254-267 | Replaces one entry and keeps the cached size right. |
| RocksBackend.RocksKvStore.Size | raspen/crates/storage/src/kv_store.rs:269-271 | The cached size is greatest index plus one. |
| RocksBackend.RocksKvStore.TopHash | raspen/crates/storage/src/kv_store.rs:273-282 | The last key in byte order gives the in-memory store's `top_hash`. |
| RocksBackend.RocksKvStore.HashAt | raspen/crates/storage/src/kv_store.rs:284-289 | As the in-memory store answers. |
| RocksBackend.RocksKvStore.CollectBatch | raspen/crates/storage/src/kv_store.rs:300-309 | The loop's batch and maximum are those of the whole list. |
| RocksBackend.RocksKvStore.RebuildFromEntries | raspen/crates/storage/src/kv_store.rs:291-316 | Exactly the listed entries remain, later ones winning. |
| ReplicaObject.Replica.constructor | raspen/crates/consensus/src/replica.rs:31-64 | The new object is valid and in the initial state. |
| ReplicaObject.Replica.ProcessMessage | raspen/crates/consensus/src/replica.rs:74-147 | The mutable object's whole dispatch, with guards that scan the stored messages, equals the call list on values and keeps the object valid. In fields: the message is stored in its set only; a commit quorum applies the history, in keys and bytes; an announced checkpoint is the one stored; a STATE-REQUEST is answered with the stored checkpoint. |
| ReplicaObject.Replica.HandleEvent | raspen/crates/consensus/src/replica.rs:159-178 | The exact state and effects of a timer event on the object; only `view` may change. |
| ReplicaObject.SoundKept | raspen/crates/consensus/src/replica.rs:74-178 | Every input keeps phase consistency, density, the size bound and the canonical form. |

## Left out

- `node.rs` and `transport.rs` (channels, actor threads): inputs are processed one at a time, and every returned effect is sent.
- `Effect::Send` reaches the shared `sent` set like a broadcast; this only adds behaviours.
- The sequencer: replicas ignore `eta` and `op_hash` of a request.
- SHA-256, bincode and RocksDB internals, I/O and decoding errors, files and locks: an arbitrary hash function and a map from byte strings to entries.
- `u64` overflow of rounds, views, sizes and indices: natural numbers, except in `RocksBackend`, where indices are below `u64::MAX` so that `idx + 1` does not overflow.
- The message set `ack_msgs`, which no code reads or writes, and the store's checkpoint-metadata accessors, which no handler calls.
- Sharing of the store behind a lock or an `Arc`: each replica object owns its store.
- In `ReplicaObject`, a scan over a hash set visits its messages in an arbitrary order, which the model leaves open.
- Client-side commit on `n - p` SPEC-REPLYs: the repository has no client code.
- Liveness, timer scheduling and message loss: nothing forces a run to continue (and there is no view change from PreparePhase).
- The specification's `checkpoint_agreement` across alignments: alignment adopts any STATE-REPLY and stores `hash_at`, not `top_hash`, so the code does not establish it.
- Agreement.CheckpointAgreement: assumes that not too many correct replicas aligned in the round and that Byzantine senders do not repeat a SYNC, because the code checks neither.
- Agreement.PrepareAgreement: assumes one proposal in the (view, round), because the code does not check the proposer; `CountingGaps.OneProposerSplitsAVote` shows the assumption is needed.
- ReplyHistory.RepliesAgree: does not cover rounds entered by catch-up, whose log starts wherever the replica was, nor rounds in which it aligned.
- Agreement.CommitPhaseAgreement: allows different histories if `n - 3f` correct replicas prepared both; `SplitCommits.OneProposerSplitsCommits` shows that this happens.
- Agreement.LeftRoundsAreCertified: assumes sender-unique REPAIR-DONEs; `CountingGaps.OneSenderEndsARound` shows the assumption is needed.
- QuintRepair.DeliverySimulated: LOG hashes are abstracted, because the specification and the code hash logs differently; the messages the specification sees are those the replica stored and the one delivered; the log's entries are not compared.
- The specification's transitions outside REPAIR (fast path, checkpoints, alignment, entry) have no simulation lemma: there the code and the specification hash logs differently, and the listeners choose freely among steps that the code orders.
