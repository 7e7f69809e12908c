/** Everything a replica stores, emits or concludes is justified by messages that exist:
    `sent` is any set containing what the replica was given and what it emitted. */
module Justification {
  import opened Types
  import opened Dispatch
  import opened Counting
  import Storage

  function Given(call: Call): set<Message> {
    match call
    case Speculating(m) => {m}
    case ReceivingSync(m) => {m}
    case ReceivingCheckpoint(m) => {m}
    case ReceivingTimeout(m) => {m}
    case EnteringRepair(m) => {m}
    case AnsweringRequest(m) => {m}
    case AdoptingState(m) => {m}
    case ReceivingLog(m) => {m}
    case ReceivingHistory(m, _) => {m}
    case ReceivingPrepare(m) => {m}
    case ReceivingCommit(m) => {m}
    case ReceivingDone(m) => {m}
    case _ => {}
  }

  /** All stored messages exist. */
  ghost predicate Heard(st: ReplicaState, sent: set<Message>) {
    && st.syncMsgs <= sent && st.chkptMsgs <= sent && st.timeoutMsgs <= sent && st.logMsgs <= sent
    && st.historyMsgs <= sent && st.prepareMsgs <= sent && st.commitMsgs <= sent && st.doneMsgs <= sent
  }

  /** The evidence each kind of broadcast rests on. */
  ghost predicate Backed(cfg: Config, sent: set<Message>, m: Message) {
    match m
    case Checkpoint(_, round, idx, hash) => |MatchingSyncs(sent, round, idx, hash)| >= cfg.FastQuorum()
    case StateRequest(_, idx) => exists round :: |CheckpointVotes(sent, round, idx)| >= cfg.FPlus1()
    case ConflictProof(round, idx) => |SyncVotes(sent, round, idx)| >= cfg.ByzQuorum()
    case TimeoutProof(round, idx) => |TimeoutVotes(sent, round, idx)| >= cfg.FPlus1()
    case RepairHistory(from, view, round, hash) =>
      IsLeader(cfg, from, view) && cfg.ByzQuorum() <= hash <= |Senders(LogVotes(sent, view, round))|
    case RepairPrepare(_, view, round, hash) => hash in HistoryHashes(sent, view, round)
    case RepairCommit(_, view, round, hash) => |PrepareVotes(sent, view, round, hash)| >= cfg.ByzQuorum()
    case RepairDone(_, view, round, hash) => |CommitVotes(sent, view, round, hash)| >= cfg.ByzQuorum()
    case _ => true
  }

  /** A replica voting on a history holds one that was proposed. */
  ghost predicate Anchored(st: ReplicaState, sent: set<Message>) {
    st.phase.PreparePhase? || st.phase.CommitPhase? ==> st.proposed in HistoryHashes(sent, st.view, st.round)
  }

  /** A replica in CommitPhase still holds the prepare certificate that brought it there. */
  ghost predicate Certified(cfg: Config, st: ReplicaState) {
    st.phase.CommitPhase? ==>
      |PrepareVotes(st.prepareMsgs, st.view, st.round, st.proposed)| >= cfg.ByzQuorum()
  }

  /** Why a round may be left: a commit quorum, or the catch-up rule's `f + 1` REPAIR-DONEs. */
  ghost predicate Leavable(cfg: Config, sent: set<Message>, round: nat) {
    || (exists view, hash :: |CommitVotes(sent, view, round, hash)| >= cfg.ByzQuorum())
    || (exists view :: |DoneVotes(sent, view, round)| >= cfg.FPlus1())
  }

  ghost predicate Justified(cfg: Config, t: Trail, sent: set<Message>) {
    && Heard(t.st, sent) && Anchored(t.st, sent) && Certified(cfg, t.st)
    && Emitted(t.out) <= sent
    && (forall m :: m in Emitted(t.out) ==> Backed(cfg, sent, m) && (m.Authored() ==> m.from == t.st.nodeId))
    && (forall round :: 0 <= round < t.st.round ==> Leavable(cfg, sent, round))
  }

  lemma BackedGrows(cfg: Config, a: set<Message>, b: set<Message>, m: Message)
    requires a <= b && Backed(cfg, a, m)
    ensures Backed(cfg, b, m)
  {
    match m {
      case Checkpoint(_, r, i, h) => SubsetCard(MatchingSyncs(a, r, i, h), MatchingSyncs(b, r, i, h));
      case StateRequest(_, i) =>
        var r :| |CheckpointVotes(a, r, i)| >= cfg.FPlus1();
        SubsetCard(CheckpointVotes(a, r, i), CheckpointVotes(b, r, i));
      case ConflictProof(r, i) => SubsetCard(SyncVotes(a, r, i), SyncVotes(b, r, i));
      case TimeoutProof(r, i) => SubsetCard(TimeoutVotes(a, r, i), TimeoutVotes(b, r, i));
      case RepairHistory(_, v, r, _) => SubsetCard(Senders(LogVotes(a, v, r)), Senders(LogVotes(b, v, r)));
      case RepairCommit(_, v, r, h) => SubsetCard(PrepareVotes(a, v, r, h), PrepareVotes(b, v, r, h));
      case RepairDone(_, v, r, h) => SubsetCard(CommitVotes(a, v, r, h), CommitVotes(b, v, r, h));
      case _ =>
    }
  }

  lemma LeavableGrows(cfg: Config, a: set<Message>, b: set<Message>, round: nat)
    requires a <= b && Leavable(cfg, a, round)
    ensures Leavable(cfg, b, round)
  {
    if v, h :| |CommitVotes(a, v, round, h)| >= cfg.ByzQuorum() {
      SubsetCard(CommitVotes(a, v, round, h), CommitVotes(b, v, round, h));
    } else {
      var v :| |DoneVotes(a, v, round)| >= cfg.FPlus1();
      SubsetCard(DoneVotes(a, v, round), DoneVotes(b, v, round));
    }
  }

  lemma JustifiedGrows(cfg: Config, t: Trail, a: set<Message>, b: set<Message>)
    requires a <= b && Justified(cfg, t, a)
    ensures Justified(cfg, t, b)
  {
    forall m | m in Emitted(t.out) ensures Backed(cfg, b, m) { BackedGrows(cfg, a, b, m); }
    forall r | 0 <= r < t.st.round ensures Leavable(cfg, b, r) { LeavableGrows(cfg, a, b, r); }
  }

  /** What one handler call does to the justification of a replica. */
  ghost predicate StepJustified(cfg: Config, st: ReplicaState, s: Step, sent: set<Message>) {
    && s.st.nodeId == st.nodeId
    && Heard(s.st, sent)
    && (forall e :: e in s.out ==>
          Backed(cfg, sent, e.message) && (e.message.Authored() ==> e.message.from == st.nodeId))
    && (s.st.round == st.round || (s.st.round == st.round + 1 && Leavable(cfg, sent, st.round)))
  }

  lemma FastCallJustified(cfg: Config, st: ReplicaState, call: Call, sent: set<Message>)
    requires Heard(st, sent) && Given(call) <= sent
    requires !call.ReceivingLog? && !call.ReceivingHistory? && !call.ReceivingPrepare? && !call.ReceivingCommit? &&
             !call.ReceivingDone?
    requires !call.ReceivingSync? && !call.ReceivingCheckpoint? && !call.CheckingConflict? && !call.ReceivingTimeout?
    ensures StepJustified(cfg, st, Run(cfg, st, call), sent)
  {
  }

  lemma CheckpointJustified(cfg: Config, st: ReplicaState, call: Call, sent: set<Message>)
    requires Heard(st, sent) && Given(call) <= sent && call.ReceivingSync?
    ensures StepJustified(cfg, st, Run(cfg, st, call), sent)
  {
    var s := Run(cfg, st, call).st;
    if st.kvSize > 0 {
      var top := Storage.TopHashOf(st.store);
      SubsetCard(MatchingSyncs(s.syncMsgs, st.round, st.kvSize - 1, top),
                 MatchingSyncs(sent, st.round, st.kvSize - 1, top));
    }
  }

  lemma AlignJustified(cfg: Config, st: ReplicaState, call: Call, sent: set<Message>)
    requires Heard(st, sent) && Given(call) <= sent && call.ReceivingCheckpoint?
    ensures StepJustified(cfg, st, Run(cfg, st, call), sent)
  {
    var s := Run(cfg, st, call).st;
    SubsetCard(CheckpointVotes(s.chkptMsgs, st.round, st.chkptIdx), CheckpointVotes(sent, st.round, st.chkptIdx));
  }

  lemma ConflictJustified(cfg: Config, st: ReplicaState, call: Call, sent: set<Message>)
    requires Heard(st, sent) && Given(call) <= sent && call.CheckingConflict?
    ensures StepJustified(cfg, st, Run(cfg, st, call), sent)
  {
    var s := Run(cfg, st, call).st;
    if st.kvSize > 0 {
      SubsetCard(SyncVotes(s.syncMsgs, st.round, st.kvSize - 1), SyncVotes(sent, st.round, st.kvSize - 1));
    }
  }

  lemma TimeoutJustified(cfg: Config, st: ReplicaState, call: Call, sent: set<Message>)
    requires Heard(st, sent) && Given(call) <= sent && call.ReceivingTimeout?
    ensures StepJustified(cfg, st, Run(cfg, st, call), sent)
  {
    var s := Run(cfg, st, call).st;
    if st.kvSize > 0 {
      SubsetCard(TimeoutVotes(s.timeoutMsgs, st.round, st.kvSize - 1),
                 TimeoutVotes(sent, st.round, st.kvSize - 1));
    }
  }

  lemma HistoryJustified(cfg: Config, st: ReplicaState, call: Call, sent: set<Message>)
    requires Heard(st, sent) && Given(call) <= sent && call.ReceivingLog?
    ensures StepJustified(cfg, st, Run(cfg, st, call), sent)
  {
    var s := Run(cfg, st, call).st;
    SubsetCard(Senders(LogVotes(s.logMsgs, st.view, st.round)), Senders(LogVotes(sent, st.view, st.round)));
  }

  lemma PrepareJustified(cfg: Config, st: ReplicaState, call: Call, sent: set<Message>)
    requires Heard(st, sent) && Given(call) <= sent && call.ReceivingHistory?
    ensures StepJustified(cfg, st, Run(cfg, st, call), sent)
  {
    var s := Run(cfg, st, call).st;
    assert HistoryHashes(s.historyMsgs, st.view, st.round) <= HistoryHashes(sent, st.view, st.round);
  }

  lemma CommitJustified(cfg: Config, st: ReplicaState, call: Call, sent: set<Message>)
    requires Heard(st, sent) && Given(call) <= sent && call.ReceivingPrepare?
    ensures StepJustified(cfg, st, Run(cfg, st, call), sent)
  {
    var s := Run(cfg, st, call).st;
    SubsetCard(PrepareVotes(s.prepareMsgs, st.view, st.round, st.proposed),
               PrepareVotes(sent, st.view, st.round, st.proposed));
  }

  lemma DoneJustified(cfg: Config, st: ReplicaState, call: Call, sent: set<Message>)
    requires Heard(st, sent) && Given(call) <= sent && call.ReceivingCommit?
    ensures StepJustified(cfg, st, Run(cfg, st, call), sent)
  {
    var s := Run(cfg, st, call).st;
    SubsetCard(CommitVotes(s.commitMsgs, st.view, st.round, st.proposed),
               CommitVotes(sent, st.view, st.round, st.proposed));
  }

  lemma CatchUpJustified(cfg: Config, st: ReplicaState, call: Call, sent: set<Message>)
    requires Heard(st, sent) && Given(call) <= sent && call.ReceivingDone?
    ensures StepJustified(cfg, st, Run(cfg, st, call), sent)
  {
    var s := Run(cfg, st, call).st;
    SubsetCard(DoneVotes(s.doneMsgs, st.view, st.round), DoneVotes(sent, st.view, st.round));
  }

  lemma CallJustified(cfg: Config, st: ReplicaState, call: Call, sent: set<Message>)
    requires Heard(st, sent) && Given(call) <= sent
    ensures StepJustified(cfg, st, Run(cfg, st, call), sent)
  {
    match call {
      case ReceivingSync(_) => CheckpointJustified(cfg, st, call, sent);
      case ReceivingCheckpoint(_) => AlignJustified(cfg, st, call, sent);
      case CheckingConflict => ConflictJustified(cfg, st, call, sent);
      case ReceivingTimeout(_) => TimeoutJustified(cfg, st, call, sent);
      case ReceivingLog(_) => HistoryJustified(cfg, st, call, sent);
      case ReceivingHistory(_, _) => PrepareJustified(cfg, st, call, sent);
      case ReceivingPrepare(_) => CommitJustified(cfg, st, call, sent);
      case ReceivingCommit(_) => DoneJustified(cfg, st, call, sent);
      case ReceivingDone(_) => CatchUpJustified(cfg, st, call, sent);
      case _ => FastCallJustified(cfg, st, call, sent);
    }
  }

  lemma CallAnchored(cfg: Config, st: ReplicaState, call: Call, sent: set<Message>)
    requires Heard(st, sent) && Given(call) <= sent && Anchored(st, sent)
    ensures var s := Run(cfg, st, call); Anchored(s.st, sent + Emitted(s.out))
  {
    var s := Run(cfg, st, call);
    var all := sent + Emitted(s.out);
    if s.st.phase.PreparePhase? || s.st.phase.CommitPhase? {
      if call.ReceivingLog? && s.out != [] {
        assert s.out[0] in s.out;
        assert s.out[0].message in all;
      } else if call.ReceivingHistory? && s.out != [] {
        assert s.st.proposed in HistoryHashes(s.st.historyMsgs, st.view, st.round);
      }
    }
  }

  lemma CallCertified(cfg: Config, st: ReplicaState, call: Call)
    requires Certified(cfg, st) && (st.phase.CommitPhase? ==> st.inRepair)
    ensures Certified(cfg, Run(cfg, st, call).st)
  {
    if call.ReceivingPrepare? {
      var s := Run(cfg, st, call).st;
      SubsetCard(PrepareVotes(st.prepareMsgs, st.view, st.round, st.proposed),
                 PrepareVotes(s.prepareMsgs, st.view, st.round, st.proposed));
    }
  }

  /** New effects join old ones once they are added to what exists. */
  lemma StepExtends(cfg: Config, t: Trail, s: Step, sent: set<Message>)
    requires Justified(cfg, t, sent) && StepJustified(cfg, t.st, s, sent)
    requires Anchored(s.st, sent + Emitted(s.out)) && Certified(cfg, s.st)
    ensures Justified(cfg, Trail(s.st, t.out + s.out, t.base, t.aligned), sent + Emitted(s.out))
  {
    var all := sent + Emitted(s.out);
    JustifiedGrows(cfg, t, sent, all);
    assert Emitted(t.out + s.out) == Emitted(t.out) + Emitted(s.out);
    forall m | m in Emitted(s.out) ensures Backed(cfg, all, m) {
      BackedGrows(cfg, sent, all, m);
    }
    if s.st.round == t.st.round + 1 {
      LeavableGrows(cfg, sent, all, t.st.round);
    }
  }

  lemma AdvanceJustified(cfg: Config, t: Trail, call: Call, sent: set<Message>)
    requires Justified(cfg, t, sent) && Given(call) <= sent
    requires t.st.phase.CommitPhase? ==> t.st.inRepair
    ensures var t' := Advance(cfg, t, call);
            t'.st.nodeId == t.st.nodeId && Justified(cfg, t', sent + Emitted(t'.out))
  {
    var s := Run(cfg, t.st, call);
    CallJustified(cfg, t.st, call, sent);
    CallAnchored(cfg, t.st, call, sent);
    CallCertified(cfg, t.st, call);
    StepExtends(cfg, t, s, sent);
    assert sent + Emitted(t.out + s.out) == sent + Emitted(s.out);
  }
}
