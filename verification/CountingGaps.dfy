/** Where counting stored messages is not counting senders: SYNC, CHECKPOINT and REPAIR-DONE
    guards leave one field free. */
module CountingGaps {
  import opened Types
  import opened Dispatch
  import opened Counting
  import opened Cluster
  import opened Schedules
  import opened PrepareChoice
  import Alignment
  import RepairEntry
  import Repair
  import Storage

  /** No sender issued two REPAIR-DONEs with different hashes for (view, round). */
  ghost predicate SingleDoneHashes(ms: set<Message>, view: nat, round: nat) {
    forall q, g, h :: RepairDone(q, view, round, g) in ms && RepairDone(q, view, round, h) in ms ==> g == h
  }

  /** The catch-up guard counts senders, as the specification does, exactly when no sender
      issued two different REPAIR-DONEs. */
  lemma DoneVotesAreSenders(ms: set<Message>, view: nat, round: nat)
    ensures |DoneVotes(ms, view, round)| == |Senders(DoneVotes(ms, view, round))| <==> SingleDoneHashes(ms, view, round)
  {
    var dones := DoneVotes(ms, view, round);
    SendersVersusMessages(dones);
    if SingleDoneHashes(ms, view, round) {
      forall a, b | a in dones && b in dones && a.from == b.from ensures a == b {
        assert a == RepairDone(a.from, view, round, a.historyHash);
        assert b == RepairDone(a.from, view, round, b.historyHash);
      }
    } else {
      var q, g, h :| RepairDone(q, view, round, g) in ms && RepairDone(q, view, round, h) in ms && g != h;
      assert RepairDone(q, view, round, g) in dones && RepairDone(q, view, round, h) in dones;
    }
  }

  /** No sender repeated a SYNC for (round, idx, hash) with another `etaStar`. */
  ghost predicate SingleEtas(ms: set<Message>, round: nat, idx: nat, hash: Hash) {
    forall q, x, y :: Sync(q, round, idx, hash, x) in ms && Sync(q, round, idx, hash, y) in ms ==> x == y
  }

  /** The checkpoint guard counts senders exactly when no sender varied `etaStar`. */
  lemma MatchingSyncsAreSenders(ms: set<Message>, round: nat, idx: nat, hash: Hash)
    ensures |MatchingSyncs(ms, round, idx, hash)| == |Senders(MatchingSyncs(ms, round, idx, hash))|
            <==> SingleEtas(ms, round, idx, hash)
  {
    var syncs := MatchingSyncs(ms, round, idx, hash);
    SendersVersusMessages(syncs);
    if SingleEtas(ms, round, idx, hash) {
      forall a, b | a in syncs && b in syncs && a.from == b.from ensures a == b {
        assert a == Sync(a.from, round, idx, hash, a.etaStar) && b == Sync(a.from, round, idx, hash, b.etaStar);
      }
    } else {
      var q, x, y :| Sync(q, round, idx, hash, x) in ms && Sync(q, round, idx, hash, y) in ms && x != y;
      assert Sync(q, round, idx, hash, x) in syncs && Sync(q, round, idx, hash, y) in syncs;
    }
  }

  /** No sender announced two checkpoint hashes for (round, idx). */
  ghost predicate SingleCheckpoints(ms: set<Message>, round: nat, idx: nat) {
    forall q, g, h :: Checkpoint(q, round, idx, g) in ms && Checkpoint(q, round, idx, h) in ms ==> g == h
  }

  /** The alignment guard counts senders exactly when no sender announced two hashes. */
  lemma CheckpointVotesAreSenders(ms: set<Message>, round: nat, idx: nat)
    ensures |CheckpointVotes(ms, round, idx)| == |Senders(CheckpointVotes(ms, round, idx))|
            <==> SingleCheckpoints(ms, round, idx)
  {
    var votes := CheckpointVotes(ms, round, idx);
    SendersVersusMessages(votes);
    if SingleCheckpoints(ms, round, idx) {
      forall a, b | a in votes && b in votes && a.from == b.from ensures a == b {
        assert a == Checkpoint(a.from, round, idx, a.logHash) && b == Checkpoint(a.from, round, idx, b.logHash);
      }
    } else {
      var q, g, h :| Checkpoint(q, round, idx, g) in ms && Checkpoint(q, round, idx, h) in ms && g != h;
      assert Checkpoint(q, round, idx, g) in votes && Checkpoint(q, round, idx, h) in votes;
    }
  }

  /** Whether a set of votes includes a correct sender's, whichever up to `f` nodes are faulty. */
  ghost predicate CertainlyCorrect(votes: set<Message>, f: nat) {
    forall faulty: set<NodeId> :: |faulty| <= f ==> exists m :: m in votes && m.Authored() && m.from !in faulty
  }

  /** A guard that waits for `f + 1` of these votes is right to conclude that a correct replica
      sent one exactly if they have `f + 1` senders; it is wrong only by counting repetitions. */
  lemma FPlus1Votes(votes: set<Message>, f: nat)
    requires forall m :: m in votes ==> m.Authored()
    ensures CertainlyCorrect(votes, f) <==> |Senders(votes)| >= f + 1
    ensures |votes| >= f + 1 && !CertainlyCorrect(votes, f) ==> !OnePerSender(votes)
  {
    CorrectForSure(Senders(votes), f);
    SendersVersusMessages(votes);
    if CertainlyCorrect(votes, f) {
      forall faulty: set<NodeId> | |faulty| <= f ensures Senders(votes) - faulty != {} {
        var m :| m in votes && m.Authored() && m.from !in faulty;
        assert m.from in Senders(votes) - faulty;
      }
    }
    if |Senders(votes)| >= f + 1 {
      forall faulty: set<NodeId> | |faulty| <= f ensures exists m :: m in votes && m.Authored() && m.from !in faulty {
        var q :| q in Senders(votes) - faulty;
        var m :| m in votes && m.Authored() && m.from == q;
      }
    }
  }

  /** The catch-up guard: what it counts names a correct replica for certain exactly if it has
      `f + 1` senders. */
  lemma CatchUpCertainty(cfg: Config, st: ReplicaState)
    requires Repair.CanCatchUp(cfg, st)
    ensures var dones := DoneVotes(st.doneMsgs, st.view, st.round);
            && (CertainlyCorrect(dones, cfg.f) <==> |Senders(dones)| >= cfg.FPlus1())
            && (!CertainlyCorrect(dones, cfg.f) ==> !SingleDoneHashes(st.doneMsgs, st.view, st.round))
  {
    FPlus1Votes(DoneVotes(st.doneMsgs, st.view, st.round), cfg.f);
    DoneVotesAreSenders(st.doneMsgs, st.view, st.round);
    SendersVersusMessages(DoneVotes(st.doneMsgs, st.view, st.round));
  }

  /** The alignment guard, likewise. */
  lemma AlignCertainty(cfg: Config, st: ReplicaState)
    requires Alignment.CanEnterAlign(cfg, st).Some?
    ensures var votes := CheckpointVotes(st.chkptMsgs, st.round, st.chkptIdx);
            && (CertainlyCorrect(votes, cfg.f) <==> |Senders(votes)| >= cfg.FPlus1())
            && (!CertainlyCorrect(votes, cfg.f) ==> !SingleCheckpoints(st.chkptMsgs, st.round, st.chkptIdx))
  {
    FPlus1Votes(CheckpointVotes(st.chkptMsgs, st.round, st.chkptIdx), cfg.f);
    CheckpointVotesAreSenders(st.chkptMsgs, st.round, st.chkptIdx);
    SendersVersusMessages(CheckpointVotes(st.chkptMsgs, st.round, st.chkptIdx));
  }

  // One Byzantine sender suffices for the catch-up guard.

  /** The sender's first `k` REPAIR-DONEs. */
  function Dones(byz: NodeId, k: nat): set<Message> {
    if k == 0 then {} else Dones(byz, k - 1) + {RepairDone(byz, 0, 0, k - 1)}
  }

  lemma {:induction false} DonesCount(byz: NodeId, k: nat)
    ensures |Dones(byz, k)| == k && DoneVotes(Dones(byz, k), 0, 0) == Dones(byz, k)
    ensures forall m :: m in Dones(byz, k) ==> m.RepairDone? && m.historyHash < k
  {
    if k > 0 {
      DonesCount(byz, k - 1);
    }
  }

  /** A replica that a proof and a history brought into PreparePhase, and that has stored
      `k` of the sender's REPAIR-DONEs and nothing else. */
  function Waiting(node: NodeId, byz: NodeId, k: nat): ReplicaState {
    InitialState(node).(
      phase := PreparePhase,
      inRepair := true,
      proposed := 1,
      historyMsgs := {RepairHistory(byz, 0, 0, 1)},
      doneMsgs := Dones(byz, k))
  }

  /** In REPAIR, a message of another kind passes the first nine handlers unnoticed. */
  lemma EntryIsSilent(cfg: Config, s: Step, m: Message)
    requires RepairPhase(s.st.phase) && s.st.inRepair && (m.RepairHistory? || m.RepairDone?)
    ensures RunEach(cfg, RunEach(cfg, s, EarlyCalls(m)), MiddleCalls(m)) == s
  {
    SilentCalls(cfg, s, EarlyCalls(m));
    SilentCalls(cfg, s, MiddleCalls(m));
  }

  /** A replica that has entered REPAIR and stored nothing. */
  function Entered(node: NodeId): ReplicaState {
    InitialState(node).(phase := CollectingLogs, inRepair := true)
  }

  /** Either kind of proof for the first round and index. */
  predicate IsProof(m: Message) {
    m == ConflictProof(0, 0) || m == TimeoutProof(0, 0)
  }

  lemma FreshIsSilent(cfg: Config, node: NodeId, m: Message)
    requires IsProof(m)
    ensures RunEach(cfg, Step(InitialState(node), []), EarlyCalls(m)) == Step(InitialState(node), [])
  {
    NothingStored();
    SilentCalls(cfg, Step(InitialState(node), []), EarlyCalls(m));
  }

  lemma ProofEnters(cfg: Config, node: NodeId, m: Message)
    requires IsProof(m)
    ensures var own := [Broadcast(RepairEntry.OwnLog(InitialState(node)))];
            RunEach(cfg, Step(InitialState(node), []), MiddleCalls(m)) == Step(Entered(node), own)
  {
    var s0 := Step(InitialState(node), []);
    Unroll3(cfg, s0, EnteringRepair(m), AnsweringRequest(m), AdoptingState(m));
    assert Then(cfg, s0, EnteringRepair(m)) == Step(Entered(node), [Broadcast(RepairEntry.OwnLog(InitialState(node)))]);
  }

  lemma EnteredIsSilent(cfg: Config, node: NodeId, m: Message, out: seq<Effect>)
    requires cfg.WellFormed() && IsProof(m)
    ensures RunEach(cfg, Step(Entered(node), out), LateCalls(m, 0)) == Step(Entered(node), out)
  {
    NothingStored();
    SilentCalls(cfg, Step(Entered(node), out), LateCalls(m, 0));
  }

  /** The proof makes a fresh replica enter REPAIR. */
  lemma ProofDelivered(cfg: Config, node: NodeId, m: Message)
    requires cfg.WellFormed() && IsProof(m)
    ensures RunEach(cfg, Step(InitialState(node), []), Program(Deliver(m, 0)))
            == Step(Entered(node), [Broadcast(RepairEntry.OwnLog(InitialState(node)))])
  {
    FreshIsSilent(cfg, node, m);
    ProofEnters(cfg, node, m);
    EnteredIsSilent(cfg, node, m, [Broadcast(RepairEntry.OwnLog(InitialState(node)))]);
    ProgramParts(cfg, Step(InitialState(node), []), m, 0);
  }

  /** The history makes it vote, and wait in PreparePhase. */
  lemma HistoryVotes(cfg: Config, node: NodeId, byz: NodeId)
    requires cfg.WellFormed()
    ensures var m := RepairHistory(byz, 0, 0, 1);
            && Run(cfg, Entered(node), ReceivingLog(m)) == Step(Entered(node), [])
            && Run(cfg, Entered(node), ReceivingHistory(m, 1))
               == Step(Waiting(node, byz, 0), [Broadcast(RepairPrepare(node, 0, 0, 1))])
  {
    NothingStored();
    DonesCount(byz, 0);
    assert HistoryHashes({RepairHistory(byz, 0, 0, 1)}, 0, 0) == {1};
  }

  lemma WaitingIsSilent(cfg: Config, node: NodeId, byz: NodeId, k: nat, m: Message)
    requires cfg.WellFormed() && (m.RepairHistory? || m.RepairDone?)
    ensures Run(cfg, Waiting(node, byz, k), ReceivingLog(m)) == Step(Waiting(node, byz, k), [])
    ensures Run(cfg, Waiting(node, byz, k), ReceivingPrepare(m)) == Step(Waiting(node, byz, k), [])
    ensures Run(cfg, Waiting(node, byz, k), ReceivingCommit(m)) == Step(Waiting(node, byz, k), [])
  {
    NothingStored();
  }

  lemma WaitingGoesOn(cfg: Config, node: NodeId, byz: NodeId)
    requires cfg.WellFormed()
    ensures Run(cfg, Waiting(node, byz, 0), ReceivingDone(RepairHistory(byz, 0, 0, 1)))
            == Step(Waiting(node, byz, 0), [])
  {
    DonesCount(byz, 0);
  }

  lemma HistoryDelivered(cfg: Config, node: NodeId, byz: NodeId)
    requires cfg.WellFormed()
    ensures RunEach(cfg, Step(Entered(node), []), Program(Deliver(RepairHistory(byz, 0, 0, 1), 1)))
            == Step(Waiting(node, byz, 0), [Broadcast(RepairPrepare(node, 0, 0, 1))])
  {
    var m := RepairHistory(byz, 0, 0, 1);
    var s0 := Step(Entered(node), []);
    EntryIsSilent(cfg, s0, m);
    ProgramParts(cfg, s0, m, 1);
    HistoryVotes(cfg, node, byz);
    WaitingIsSilent(cfg, node, byz, 0, m);
    WaitingGoesOn(cfg, node, byz);
    Unroll5(cfg, s0, ReceivingLog(m), ReceivingHistory(m, 1), ReceivingPrepare(m), ReceivingCommit(m),
            ReceivingDone(m));
  }

  /** The vote is repeated at every delivery. */
  lemma VoteRepeats(cfg: Config, node: NodeId, byz: NodeId, k: nat)
    ensures Run(cfg, Waiting(node, byz, k), ReceivingHistory(RepairDone(byz, 0, 0, k), 1))
            == Step(Waiting(node, byz, k), [Broadcast(RepairPrepare(node, 0, 0, 1))])
  {
    assert HistoryHashes({RepairHistory(byz, 0, 0, 1)}, 0, 0) == {1};
  }

  /** Each further REPAIR-DONE is stored, and the last one ends the round. */
  lemma DoneCounts(cfg: Config, node: NodeId, byz: NodeId, k: nat)
    requires cfg.WellFormed() && k <= cfg.f
    ensures Run(cfg, Waiting(node, byz, k), ReceivingDone(RepairDone(byz, 0, 0, k)))
            == if k < cfg.f then Step(Waiting(node, byz, k + 1), []) else Repair.CatchUp(Waiting(node, byz, k + 1))
  {
    DonesCount(byz, k + 1);
    var h := RepairHistory(byz, 0, 0, 1);
    assert h in Histories({h}, 0, 0);
  }

  lemma DoneDelivered(cfg: Config, node: NodeId, byz: NodeId, k: nat)
    requires cfg.WellFormed() && k <= cfg.f
    ensures var after := if k < cfg.f then Waiting(node, byz, k + 1) else Repair.CatchUp(Waiting(node, byz, k + 1)).st;
            RunEach(cfg, Step(Waiting(node, byz, k), []), Program(Deliver(RepairDone(byz, 0, 0, k), 1)))
            == Step(after, [Broadcast(RepairPrepare(node, 0, 0, 1))])
  {
    var m := RepairDone(byz, 0, 0, k);
    var s0 := Step(Waiting(node, byz, k), []);
    EntryIsSilent(cfg, s0, m);
    ProgramParts(cfg, s0, m, 1);
    WaitingIsSilent(cfg, node, byz, k, m);
    VoteRepeats(cfg, node, byz, k);
    DoneCounts(cfg, node, byz, k);
    Unroll5(cfg, s0, ReceivingLog(m), ReceivingHistory(m, 1), ReceivingPrepare(m), ReceivingCommit(m),
            ReceivingDone(m));
  }

  // The whole run.

  /** Byzantine `byz` injects a conflict proof, a history and `k` REPAIR-DONEs with different
      hashes, each delivered to `node`. */
  function Schedule(node: NodeId, byz: NodeId, k: nat): seq<Action> {
    if k == 0 then Offer(node, ConflictProof(0, 0), 0) + Offer(node, RepairHistory(byz, 0, 0, 1), 1)
    else Schedule(node, byz, k - 1) + Offer(node, RepairDone(byz, 0, 0, k - 1), 1)
  }

  function NoCommit(): Message -> bool {
    (m: Message) => !m.RepairCommit?
  }

  lemma ProofReaches(sys: System, node: NodeId)
    requires sys.WellFormed() && node in sys.Correct()
    ensures Reached(After(sys, Offer(node, ConflictProof(0, 0), 0)), node, Entered(node), NoCommit())
  {
    ProofDelivered(sys.cfg, node, ConflictProof(0, 0));
    assert Reached(After(sys, []), node, InitialState(node), NoCommit());
    OfferReaches(sys, [], node, ConflictProof(0, 0), 0, InitialState(node),
                 Step(Entered(node), [Broadcast(RepairEntry.OwnLog(InitialState(node)))]), NoCommit());
    assert [] + Offer(node, ConflictProof(0, 0), 0) == Offer(node, ConflictProof(0, 0), 0);
  }

  lemma ScheduleBegins(sys: System, node: NodeId, byz: NodeId)
    requires sys.WellFormed() && node in sys.Correct() && byz in sys.faulty
    ensures Reached(After(sys, Schedule(node, byz, 0)), node, Waiting(node, byz, 0), NoCommit())
    ensures RepairPrepare(node, 0, 0, 1) in After(sys, Schedule(node, byz, 0)).sent
  {
    var vote := [Broadcast(RepairPrepare(node, 0, 0, 1))];
    ProofReaches(sys, node);
    HistoryDelivered(sys.cfg, node, byz);
    OfferReaches(sys, Offer(node, ConflictProof(0, 0), 0), node, RepairHistory(byz, 0, 0, 1), 1, Entered(node),
                 Step(Waiting(node, byz, 0), vote), NoCommit());
    assert vote[0].message in Emitted(vote);
  }

  /** Where the replica stands after `k` REPAIR-DONEs. */
  function Standing(cfg: Config, node: NodeId, byz: NodeId, k: nat): ReplicaState {
    if k <= cfg.f then Waiting(node, byz, k) else Repair.CatchUp(Waiting(node, byz, k)).st
  }

  lemma ScheduleContinues(sys: System, run: seq<Action>, node: NodeId, byz: NodeId, k: nat)
    requires sys.WellFormed() && byz in sys.faulty && k <= sys.cfg.f
    requires Reached(After(sys, run), node, Standing(sys.cfg, node, byz, k), NoCommit())
    ensures Reached(After(sys, run + Offer(node, RepairDone(byz, 0, 0, k), 1)), node,
                    Standing(sys.cfg, node, byz, k + 1), NoCommit())
  {
    DoneDelivered(sys.cfg, node, byz, k);
    OfferReaches(sys, run, node, RepairDone(byz, 0, 0, k), 1, Waiting(node, byz, k),
                 Step(Standing(sys.cfg, node, byz, k + 1), [Broadcast(RepairPrepare(node, 0, 0, 1))]), NoCommit());
  }

  lemma {:induction false} ScheduleProgress(sys: System, node: NodeId, byz: NodeId, k: nat)
    requires sys.WellFormed() && node in sys.Correct() && byz in sys.faulty && k <= sys.cfg.f + 1
    ensures Reached(After(sys, Schedule(node, byz, k)), node, Standing(sys.cfg, node, byz, k), NoCommit())
  {
    if k == 0 {
      ScheduleBegins(sys, node, byz);
    } else {
      var before, after := Schedule(node, byz, k - 1), Schedule(node, byz, k);
      assert after == before + Offer(node, RepairDone(byz, 0, 0, k - 1), 1);
      ScheduleProgress(sys, node, byz, k - 1);
      ScheduleContinues(sys, before, node, byz, k - 1);
    }
  }

  /** A single Byzantine sender makes a correct replica leave round 0 although nobody
      committed anything: the catch-up guard's `f + 1` REPAIR-DONEs prove nothing. */
  lemma OneSenderEndsARound(sys: System, node: NodeId, byz: NodeId)
    requires sys.WellFormed() && node in sys.Correct() && byz in sys.faulty
    ensures var s := After(sys, Schedule(node, byz, sys.cfg.f + 1));
            && node in s.replicas && s.replicas[node].st.round == 1
            && forall view, hash :: CommitVotes(s.sent, view, 0, hash) == {}
  {
    ScheduleProgress(sys, node, byz, sys.cfg.f + 1);
    forall m | m in After(sys, Schedule(node, byz, sys.cfg.f + 1)).sent ensures !m.RepairCommit? {
      assert NoCommit()(m);
    }
  }

  // One Byzantine proposer can make a correct replica vote twice.

  /** A single Byzantine proposer makes a correct replica PREPARE two histories in one view
      and round, which the specification's `no_honest_equivocation` excludes. */
  lemma OneProposerSplitsAVote(sys: System, node: NodeId, byz: NodeId)
    requires sys.WellFormed() && node in sys.Correct() && byz in sys.faulty
    ensures var s := After(sys, Schedule(node, byz, 0) + Offer(node, RepairHistory(byz, 0, 0, 2), 2));
            RepairPrepare(node, 0, 0, 1) in s.sent && RepairPrepare(node, 0, 0, 2) in s.sent
  {
    var run, m := Schedule(node, byz, 0), RepairHistory(byz, 0, 0, 2);
    ScheduleBegins(sys, node, byz);
    DeliveryVotes(sys.cfg, Waiting(node, byz, 0), m, 2);
    assert m in Waiting(node, byz, 0).historyMsgs + {m};
    OfferTaken(sys, run, node, m, 2);
    var s := RunEach(sys.cfg, Step(Waiting(node, byz, 0), []), Program(Deliver(m, 2)));
    EmittedJoins(After(sys, run).replicas[node].out, s.out);
    assert Broadcast(RepairPrepare(node, 0, 0, 2)).message in Emitted(s.out);
  }

  // One Byzantine sender can replace a correct replica's log.

  /** The sender's CHECKPOINTs for index 0. */
  function Announced(byz: NodeId, hashes: set<Hash>): set<Message> {
    set h | h in hashes :: Checkpoint(byz, 0, 0, h)
  }

  lemma {:induction false} AnnouncedCount(byz: NodeId, hashes: set<Hash>)
    ensures |Announced(byz, hashes)| == |hashes|
    ensures CheckpointVotes(Announced(byz, hashes), 0, 0) == Announced(byz, hashes)
  {
    if hashes != {} {
      var h :| h in hashes;
      AnnouncedCount(byz, hashes - {h});
      assert Announced(byz, hashes) == Announced(byz, hashes - {h}) + {Checkpoint(byz, 0, 0, h)};
    }
  }

  /** A replica that stored these CHECKPOINTs and nothing else. */
  function Informed(cfg: Config, node: NodeId, byz: NodeId, hashes: set<Hash>): ReplicaState {
    InitialState(node).(chkptMsgs := Announced(byz, hashes),
                        phase := if |hashes| >= cfg.FPlus1() then Aligning else Speculative)
  }

  function Request(node: NodeId, cfg: Config, heard: nat): seq<Effect> {
    if heard == cfg.f then [Broadcast(StateRequest(node, 0))] else []
  }

  /** One more CHECKPOINT is stored, and the last one starts the alignment. */
  lemma CheckpointCounts(cfg: Config, node: NodeId, byz: NodeId, hashes: set<Hash>, h: Hash)
    requires cfg.WellFormed() && h !in hashes && |hashes| <= cfg.f
    ensures Run(cfg, Informed(cfg, node, byz, hashes), ReceivingCheckpoint(Checkpoint(byz, 0, 0, h)))
            == Step(Informed(cfg, node, byz, hashes + {h}), Request(node, cfg, |hashes|))
  {
    AnnouncedCount(byz, hashes + {h});
    assert Announced(byz, hashes + {h}) == Announced(byz, hashes) + {Checkpoint(byz, 0, 0, h)};
  }

  function BeforeCheckpoint(m: Message): seq<Call> {
    [Speculating(m), SyncThreshold, ReceivingSync(m)]
  }

  /** The other handlers take no notice of a CHECKPOINT. */
  lemma EntryIgnoresCheckpoint(cfg: Config, node: NodeId, byz: NodeId, hashes: set<Hash>, h: Hash, out: seq<Effect>)
    requires cfg.WellFormed()
    ensures var m, s := Checkpoint(byz, 0, 0, h), Step(Informed(cfg, node, byz, hashes), out);
            && RunEach(cfg, s, BeforeCheckpoint(m)) == s
            && RunEach(cfg, s, [CheckingConflict, ReceivingTimeout(m)]) == s
            && RunEach(cfg, s, MiddleCalls(m)) == s
  {
    var m, s := Checkpoint(byz, 0, 0, h), Step(Informed(cfg, node, byz, hashes), out);
    NothingStored();
    SilentCalls(cfg, s, BeforeCheckpoint(m));
    SilentCalls(cfg, s, [CheckingConflict, ReceivingTimeout(m)]);
    SilentCalls(cfg, s, MiddleCalls(m));
  }

  lemma RepairIgnoresCheckpoint(cfg: Config, node: NodeId, byz: NodeId, hashes: set<Hash>, h: Hash, out: seq<Effect>)
    ensures var m, s := Checkpoint(byz, 0, 0, h), Step(Informed(cfg, node, byz, hashes), out);
            RunEach(cfg, s, LateCalls(m, 0)) == s
  {
    NothingStored();
    SilentCalls(cfg, Step(Informed(cfg, node, byz, hashes), out), LateCalls(Checkpoint(byz, 0, 0, h), 0));
  }

  lemma CheckpointParts(cfg: Config, s: Step, m: Message)
    ensures RunEach(cfg, s, EarlyCalls(m))
            == RunEach(cfg, Then(cfg, RunEach(cfg, s, BeforeCheckpoint(m)), ReceivingCheckpoint(m)),
                       [CheckingConflict, ReceivingTimeout(m)])
  {
    RunEachSnoc(cfg, s, BeforeCheckpoint(m), ReceivingCheckpoint(m));
    RunEachConcat(cfg, s, BeforeCheckpoint(m) + [ReceivingCheckpoint(m)], [CheckingConflict, ReceivingTimeout(m)]);
    assert EarlyCalls(m) == BeforeCheckpoint(m) + [ReceivingCheckpoint(m)] + [CheckingConflict, ReceivingTimeout(m)];
  }

  lemma CheckpointDelivered(cfg: Config, node: NodeId, byz: NodeId, hashes: set<Hash>, h: Hash)
    requires cfg.WellFormed() && h !in hashes && |hashes| <= cfg.f
    ensures RunEach(cfg, Step(Informed(cfg, node, byz, hashes), []), Program(Deliver(Checkpoint(byz, 0, 0, h), 0)))
            == Step(Informed(cfg, node, byz, hashes + {h}), Request(node, cfg, |hashes|))
  {
    ProgramParts(cfg, Step(Informed(cfg, node, byz, hashes), []), Checkpoint(byz, 0, 0, h), 0);
    CheckpointParts(cfg, Step(Informed(cfg, node, byz, hashes), []), Checkpoint(byz, 0, 0, h));
    EntryIgnoresCheckpoint(cfg, node, byz, hashes, h, []);
    CheckpointCounts(cfg, node, byz, hashes, h);
    EntryIgnoresCheckpoint(cfg, node, byz, hashes + {h}, h, Request(node, cfg, |hashes|));
    RepairIgnoresCheckpoint(cfg, node, byz, hashes + {h}, h, Request(node, cfg, |hashes|));
    assert [] + Request(node, cfg, |hashes|) == Request(node, cfg, |hashes|);
  }

  /** A STATE-REPLY passes the handlers before its own, and after it has been adopted those
      behind it, unnoticed. */
  lemma ReplyIsSilent(cfg: Config, node: NodeId, byz: NodeId, hashes: set<Hash>, k: nat, h: Hash)
    requires cfg.WellFormed() && |hashes| == cfg.f + 1
    ensures var m, s := StateReply(byz, k, h), Step(Informed(cfg, node, byz, hashes), []);
            RunEach(cfg, s, EarlyCalls(m) + MiddleCalls(m)[..2]) == s
  {
    var m, s := StateReply(byz, k, h), Step(Informed(cfg, node, byz, hashes), []);
    SilentCalls(cfg, s, EarlyCalls(m) + MiddleCalls(m)[..2]);
  }

  lemma AdoptedIsSilent(cfg: Config, node: NodeId, byz: NodeId, hashes: set<Hash>, k: nat, h: Hash)
    ensures var s := Alignment.AdoptState(cfg, Informed(cfg, node, byz, hashes), k);
            RunEach(cfg, s, LateCalls(StateReply(byz, k, h), 0)) == s
  {
    var s := Alignment.AdoptState(cfg, Informed(cfg, node, byz, hashes), k);
    SilentCalls(cfg, s, LateCalls(StateReply(byz, k, h), 0));
  }

  /** The STATE-REPLY then replaces the log. */
  lemma ReplyDelivered(cfg: Config, node: NodeId, byz: NodeId, hashes: set<Hash>, k: nat, h: Hash)
    requires cfg.WellFormed() && |hashes| == cfg.f + 1
    ensures var st := Informed(cfg, node, byz, hashes);
            RunEach(cfg, Step(st, []), Program(Deliver(StateReply(byz, k, h), 0))) == Alignment.AdoptState(cfg, st, k)
  {
    var m, s := StateReply(byz, k, h), Step(Informed(cfg, node, byz, hashes), []);
    var before, after := EarlyCalls(m) + MiddleCalls(m)[..2], LateCalls(m, 0);
    ReplyIsSilent(cfg, node, byz, hashes, k, h);
    RunEachSnoc(cfg, s, before, AdoptingState(m));
    RunEachConcat(cfg, s, before + [AdoptingState(m)], after);
    AdoptedIsSilent(cfg, node, byz, hashes, k, h);
    assert Program(Deliver(m, 0)) == before + [AdoptingState(m)] + after;
    assert Then(cfg, s, AdoptingState(m)) == Alignment.AdoptState(cfg, s.st, k);
  }

  /** `byz` announces the hashes, each delivered to `node`. */
  ghost function Announcing(node: NodeId, byz: NodeId, hashes: set<Hash>): seq<Action> {
    if hashes == {} then []
    else
      var h :| h in hashes;
      Announcing(node, byz, hashes - {h}) + Offer(node, Checkpoint(byz, 0, 0, h), 0)
  }

  /** Nobody but `byz` announced or handed out a checkpoint. */
  function CheckpointsFrom(byz: NodeId): Message -> bool {
    (m: Message) => m.Checkpoint? || m.StateReply? ==> m.from == byz
  }

  lemma {:induction false} AnnouncingInforms(sys: System, node: NodeId, byz: NodeId, hashes: set<Hash>)
    requires sys.WellFormed() && node in sys.Correct() && byz in sys.faulty && |hashes| <= sys.cfg.f + 1
    ensures Reached(After(sys, Announcing(node, byz, hashes)), node, Informed(sys.cfg, node, byz, hashes),
                    CheckpointsFrom(byz))
  {
    if hashes == {} {
      assert Announced(byz, hashes) == {};
    } else {
      var h :| h in hashes && Announcing(node, byz, hashes)
                              == Announcing(node, byz, hashes - {h}) + Offer(node, Checkpoint(byz, 0, 0, h), 0);
      var rest := hashes - {h};
      AnnouncingInforms(sys, node, byz, rest);
      CheckpointDelivered(sys.cfg, node, byz, rest, h);
      assert rest + {h} == hashes;
      OfferReaches(sys, Announcing(node, byz, rest), node, Checkpoint(byz, 0, 0, h), 0,
                   Informed(sys.cfg, node, byz, rest),
                   Step(Informed(sys.cfg, node, byz, hashes), Request(node, sys.cfg, |rest|)), CheckpointsFrom(byz));
    }
  }

  /** A single Byzantine sender, announcing `f + 1` different hashes and then replying with any
      index, makes a correct replica align although no other replica announced or handed out
      a checkpoint, and replaces its log by that many placeholder entries. */
  lemma OneSenderReplacesALog(sys: System, node: NodeId, byz: NodeId, hashes: set<Hash>, k: nat, h: Hash)
    requires sys.WellFormed() && node in sys.Correct() && byz in sys.faulty && |hashes| == sys.cfg.f + 1
    ensures var aligning := After(sys, Announcing(node, byz, hashes));
            && node in aligning.replicas && aligning.replicas[node].st.phase.Aligning?
            && aligning.replicas[node].st.store == map[]
    ensures var s := After(sys, Announcing(node, byz, hashes) + Offer(node, StateReply(byz, k, h), 0));
            && node in s.replicas && s.replicas[node].st.phase.Speculative?
            && s.replicas[node].st.store == Storage.SyntheticStore(k + 1) && s.replicas[node].st.kvSize == k + 1
            && forall m :: m in s.sent && (m.Checkpoint? || m.StateReply?) ==> m.from == byz
  {
    var run, st := Announcing(node, byz, hashes), Informed(sys.cfg, node, byz, hashes);
    AnnouncingInforms(sys, node, byz, hashes);
    ReplyDelivered(sys.cfg, node, byz, hashes, k, h);
    OfferReaches(sys, run, node, StateReply(byz, k, h), 0, st, Alignment.AdoptState(sys.cfg, st, k),
                 CheckpointsFrom(byz));
    var s := After(sys, run + Offer(node, StateReply(byz, k, h), 0));
    forall m | m in s.sent && (m.Checkpoint? || m.StateReply?) ensures m.from == byz {
      assert CheckpointsFrom(byz)(m);
    }
  }
}
