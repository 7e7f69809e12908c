/** The evidence behind everything a correct replica broadcasts, said in the messages that
    exist, in every run. */
module Evidence {
  import opened Types
  import opened Dispatch
  import opened Counting
  import opened Justification
  import opened GuardMeaning
  import opened Cluster

  lemma {:induction false} SomeOf(s: set<NodeId>, k: nat) returns (t: set<NodeId>)
    requires k <= |s|
    ensures t <= s && |t| == k
    decreases k
  {
    t := {};
    if k > 0 {
      var q :| q in s;
      var rest := SomeOf(s - {q}, k - 1);
      t := rest + {q};
    }
  }

  /** Each of the nodes has sent a LOG for the (view, round). */
  ghost predicate SentLogs(sent: set<Message>, view: nat, round: nat, xs: set<NodeId>) {
    forall x :: x in xs ==> exists h :: LogMsg(x, view, round, h) in sent
  }

  /** What must exist for a correct replica to have broadcast `m`. */
  ghost predicate Warranted(cfg: Config, sent: set<Message>, m: Message) {
    match m
    case Checkpoint(_, round, idx, hash) => AtLeast(cfg.n - cfg.p, sent, SameSyncOf(round, idx, hash))
    case StateRequest(_, idx) => exists round :: AtLeast(cfg.f + 1, sent, CheckpointOf(round, idx))
    case ConflictProof(round, idx) => AtLeast(cfg.n - cfg.f, sent, SyncOf(round, idx))
    case TimeoutProof(round, idx) => AtLeast(cfg.f + 1, sent, TimeoutOf(round, idx))
    case RepairHistory(from, view, round, h) =>
      Leads(cfg, from, view) && h >= cfg.n - cfg.f && exists xs :: SentLogs(sent, view, round, xs) && |xs| == h
    case RepairPrepare(_, view, round, h) => exists q :: RepairHistory(q, view, round, h) in sent
    case RepairCommit(_, view, round, h) => AtLeast(cfg.n - cfg.f, sent, PrepareOf(view, round, h))
    case RepairDone(_, view, round, h) => AtLeast(cfg.n - cfg.f, sent, CommitOf(view, round, h))
    case _ => true
  }

  lemma ProposalWarranted(cfg: Config, sent: set<Message>, m: Message)
    requires m.RepairHistory? && Backed(cfg, sent, m)
    ensures Warranted(cfg, sent, m)
  {
    LeadsMeans(cfg, m.from, m.view);
    LogSendersMean(sent, m.view, m.round);
    var xs := SomeOf(Senders(LogVotes(sent, m.view, m.round)), m.historyHash);
    assert SentLogs(sent, m.view, m.round, xs);
  }

  lemma BackedIsWarranted(cfg: Config, sent: set<Message>, m: Message)
    requires Backed(cfg, sent, m)
    ensures Warranted(cfg, sent, m)
  {
    match m {
      case Checkpoint(_, round, idx, hash) => SameSyncsMean(sent, round, idx, hash, cfg.n - cfg.p);
      case StateRequest(_, idx) =>
        var round :| |CheckpointVotes(sent, round, idx)| >= cfg.FPlus1();
        CheckpointsMean(sent, round, idx, cfg.f + 1);
      case ConflictProof(round, idx) => SyncsMean(sent, round, idx, cfg.n - cfg.f);
      case TimeoutProof(round, idx) => TimeoutsMean(sent, round, idx, cfg.f + 1);
      case RepairHistory(_, _, _, _) => ProposalWarranted(cfg, sent, m);
      case RepairPrepare(_, view, round, _) => HistoriesMean(sent, view, round);
      case RepairCommit(_, view, round, h) => PreparesMean(sent, view, round, h, cfg.n - cfg.f);
      case RepairDone(_, view, round, h) => CommitsMean(sent, view, round, h, cfg.n - cfg.f);
      case _ =>
    }
  }

  /** In every run, whatever a correct replica broadcast is warranted by messages in existence:
      quorums of different senders for votes, `h` LOG senders for a proposed size `h`, and so
      on. */
  lemma BroadcastsAreWarranted(sys: System, run: seq<Action>, q: NodeId, m: Message)
    requires sys.WellFormed() && q in After(sys, run).replicas && m in Emitted(After(sys, run).replicas[q].out)
    ensures Warranted(sys.cfg, After(sys, run).sent, m)
  {
    AlwaysInv(sys, run);
    assert Justified(sys.cfg, After(sys, run).replicas[q], After(sys, run).sent);
    BackedIsWarranted(sys.cfg, After(sys, run).sent, m);
  }
}
