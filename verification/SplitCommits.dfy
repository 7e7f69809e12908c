/** A run in which two correct replicas reach CommitPhase of one (view, round) with different
    histories, which the specification's `repair_history_agreement` excludes. */
module SplitCommits {
  import opened Types
  import opened Dispatch
  import opened Counting
  import opened Cluster
  import opened Schedules
  import opened CountingGaps

  // One replica.

  /** A replica that votes for `hash`, holds `histories` and has collected `votes`. */
  function Voting(cfg: Config, q: NodeId, histories: set<Message>, hash: nat, votes: set<Message>): ReplicaState {
    InitialState(q).(
      phase := if |votes| >= cfg.ByzQuorum() then CommitPhase else PreparePhase,
      inRepair := true,
      proposed := hash,
      historyMsgs := histories,
      prepareMsgs := votes)
  }

  function First(byz: NodeId): set<Message> {
    {RepairHistory(byz, 0, 0, 1)}
  }

  function Both(byz: NodeId): set<Message> {
    {RepairHistory(byz, 0, 0, 1), RepairHistory(byz, 0, 0, 2)}
  }

  lemma WaitingVotes(cfg: Config, q: NodeId, byz: NodeId)
    requires cfg.WellFormed()
    ensures Waiting(q, byz, 0) == Voting(cfg, q, First(byz), 1, {})
  {
  }

  /** In PreparePhase the first nine handlers ignore REPAIR messages. */
  lemma EntryIgnores(cfg: Config, q: NodeId, histories: set<Message>, hash: nat, votes: set<Message>, m: Message)
    requires |votes| < cfg.ByzQuorum() && (m.RepairHistory? || m.RepairPrepare?)
    ensures var s := Step(Voting(cfg, q, histories, hash, votes), []);
            RunEach(cfg, RunEach(cfg, s, EarlyCalls(m)), MiddleCalls(m)) == s
  {
    var s := Step(Voting(cfg, q, histories, hash, votes), []);
    SilentCalls(cfg, s, EarlyCalls(m));
    SilentCalls(cfg, s, MiddleCalls(m));
  }

  function Vote(q: NodeId, hash: nat): Effect {
    Broadcast(RepairPrepare(q, 0, 0, hash))
  }

  /** The last two handlers see no votes of their own. */
  lemma ExitIgnores(cfg: Config, q: NodeId, histories: set<Message>, hash: nat, votes: set<Message>, m: Message)
    requires cfg.WellFormed() && (m.RepairHistory? || m.RepairPrepare?)
    ensures var st := Voting(cfg, q, histories, hash, votes);
            Run(cfg, st, ReceivingCommit(m)) == Step(st, []) && Run(cfg, st, ReceivingDone(m)) == Step(st, [])
  {
    assert CommitVotes({}, 0, 0, hash) == {} && DoneVotes({}, 0, 0) == {};
  }

  /** A second proposal, met first by the scan, turns the vote. */
  lemma TurnCalls(cfg: Config, q: NodeId, byz: NodeId)
    requires cfg.WellFormed()
    ensures var m, st := RepairHistory(byz, 0, 0, 2), Voting(cfg, q, First(byz), 1, {});
            var turned := Voting(cfg, q, Both(byz), 2, {});
            && Run(cfg, st, ReceivingLog(m)) == Step(st, [])
            && Run(cfg, st, ReceivingHistory(m, 2)) == Step(turned, [Vote(q, 2)])
            && Run(cfg, turned, ReceivingPrepare(m)) == Step(turned, [])
  {
    assert First(byz) + {RepairHistory(byz, 0, 0, 2)} == Both(byz);
    assert RepairHistory(byz, 0, 0, 2) in Both(byz);
    assert 2 in HistoryHashes(Both(byz), 0, 0);
    assert PrepareVotes({}, 0, 0, 2) == {};
  }

  lemma TurnDelivered(cfg: Config, q: NodeId, byz: NodeId)
    requires cfg.WellFormed()
    ensures RunEach(cfg, Step(Voting(cfg, q, First(byz), 1, {}), []), Program(Deliver(RepairHistory(byz, 0, 0, 2), 2)))
            == Step(Voting(cfg, q, Both(byz), 2, {}), [Vote(q, 2)])
  {
    var m, s0 := RepairHistory(byz, 0, 0, 2), Step(Voting(cfg, q, First(byz), 1, {}), []);
    ProgramParts(cfg, s0, m, 2);
    EntryIgnores(cfg, q, First(byz), 1, {}, m);
    TurnCalls(cfg, q, byz);
    ExitIgnores(cfg, q, Both(byz), 2, {}, m);
    Unroll5(cfg, s0, ReceivingLog(m), ReceivingHistory(m, 2), ReceivingPrepare(m), ReceivingCommit(m),
            ReceivingDone(m));
  }

  /** `votes` are REPAIR-PREPAREs for `hash` in (view 0, round 0). */
  predicate AllVotes(votes: set<Message>, hash: nat) {
    forall m :: m in votes ==> m.RepairPrepare? && m == RepairPrepare(m.from, 0, 0, hash)
  }

  function CommitOut(cfg: Config, q: NodeId, hash: nat, votes: set<Message>): seq<Effect> {
    if |votes| >= cfg.ByzQuorum() then [Broadcast(RepairCommit(q, 0, 0, hash))] else []
  }

  /** One more vote is stored, and the last one of a quorum commits the replica. */
  lemma VoteCalls(cfg: Config, q: NodeId, histories: set<Message>, hash: nat, votes: set<Message>, m: Message)
    requires cfg.WellFormed() && |votes| < cfg.ByzQuorum() && AllVotes(votes + {m}, hash)
    requires hash in HistoryHashes(histories, 0, 0)
    ensures var st, next := Voting(cfg, q, histories, hash, votes), Voting(cfg, q, histories, hash, votes + {m});
            && Run(cfg, st, ReceivingLog(m)) == Step(st, [])
            && Run(cfg, st, ReceivingHistory(m, hash)) == Step(st, [Vote(q, hash)])
            && Run(cfg, st, ReceivingPrepare(m)) == Step(next, CommitOut(cfg, q, hash, votes + {m}))
  {
    assert m in votes + {m};
    assert PrepareVotes(votes + {m}, 0, 0, hash) == votes + {m};
  }

  lemma VoteDelivered(cfg: Config, q: NodeId, histories: set<Message>, hash: nat, votes: set<Message>, m: Message)
    requires cfg.WellFormed() && |votes| < cfg.ByzQuorum() && AllVotes(votes + {m}, hash)
    requires hash in HistoryHashes(histories, 0, 0)
    ensures RunEach(cfg, Step(Voting(cfg, q, histories, hash, votes), []), Program(Deliver(m, hash)))
            == Step(Voting(cfg, q, histories, hash, votes + {m}),
                    [Vote(q, hash)] + CommitOut(cfg, q, hash, votes + {m}))
  {
    var s0 := Step(Voting(cfg, q, histories, hash, votes), []);
    assert m in votes + {m};
    ProgramParts(cfg, s0, m, hash);
    EntryIgnores(cfg, q, histories, hash, votes, m);
    VoteCalls(cfg, q, histories, hash, votes, m);
    ExitIgnores(cfg, q, histories, hash, votes + {m}, m);
    Unroll5(cfg, s0, ReceivingLog(m), ReceivingHistory(m, hash), ReceivingPrepare(m), ReceivingCommit(m),
            ReceivingDone(m));
  }

  // Runs.

  /** A fresh replica is brought to vote for history 1. */
  lemma Enroll(sys: System, run: seq<Action>, q: NodeId, byz: NodeId) returns (next: seq<Action>)
    requires sys.WellFormed() && byz in sys.faulty && At(sys, run, q, InitialState(q))
    ensures Moved(sys, run, next, q, Voting(sys.cfg, q, First(byz), 1, {}))
    ensures RepairPrepare(q, 0, 0, 1) in After(sys, next).sent
  {
    ProofDelivered(sys.cfg, q, ConflictProof(0, 0));
    var own := RunEach(sys.cfg, Step(InitialState(q), []), Program(Deliver(ConflictProof(0, 0), 0)));
    var mid := Move(sys, run, q, ConflictProof(0, 0), 0, InitialState(q), own);
    HistoryDelivered(sys.cfg, q, byz);
    WaitingVotes(sys.cfg, q, byz);
    var vote := Step(Voting(sys.cfg, q, First(byz), 1, {}), [Vote(q, 1)]);
    next := Move(sys, mid, q, RepairHistory(byz, 0, 0, 1), 1, Entered(q), vote);
    assert vote.out[0].message in Emitted(vote.out);
  }

  lemma {:induction false} EnrollAll(sys: System, nodes: set<NodeId>, byz: NodeId) returns (run: seq<Action>)
    requires sys.WellFormed() && byz in sys.faulty && nodes <= sys.Correct()
    ensures forall q :: q in nodes ==> At(sys, run, q, Voting(sys.cfg, q, First(byz), 1, {}))
    ensures forall q :: q in nodes ==> RepairPrepare(q, 0, 0, 1) in After(sys, run).sent
    ensures forall q :: q in sys.Correct() - nodes ==> At(sys, run, q, InitialState(q))
    decreases |nodes|
  {
    if nodes == {} {
      run := [];
    } else {
      var q :| q in nodes;
      var rest := EnrollAll(sys, nodes - {q}, byz);
      run := Enroll(sys, rest, q, byz);
    }
  }

  lemma Turn(sys: System, run: seq<Action>, q: NodeId, byz: NodeId) returns (next: seq<Action>)
    requires sys.WellFormed() && byz in sys.faulty && At(sys, run, q, Voting(sys.cfg, q, First(byz), 1, {}))
    ensures Moved(sys, run, next, q, Voting(sys.cfg, q, Both(byz), 2, {}))
    ensures RepairPrepare(q, 0, 0, 2) in After(sys, next).sent
  {
    TurnDelivered(sys.cfg, q, byz);
    var vote := Step(Voting(sys.cfg, q, Both(byz), 2, {}), [Vote(q, 2)]);
    next := Move(sys, run, q, RepairHistory(byz, 0, 0, 2), 2, Voting(sys.cfg, q, First(byz), 1, {}), vote);
    assert vote.out[0].message in Emitted(vote.out);
  }

  lemma {:induction false} TurnAll(sys: System, run: seq<Action>, nodes: set<NodeId>, byz: NodeId)
      returns (next: seq<Action>)
    requires sys.WellFormed() && byz in sys.faulty
    requires forall q :: q in nodes ==> At(sys, run, q, Voting(sys.cfg, q, First(byz), 1, {}))
    ensures forall q :: q in nodes ==> At(sys, next, q, Voting(sys.cfg, q, Both(byz), 2, {}))
    ensures forall q :: q in nodes ==> RepairPrepare(q, 0, 0, 2) in After(sys, next).sent
    ensures OnlyMoved(sys, run, next, nodes)
    decreases |nodes|
  {
    if nodes == {} {
      next := run;
    } else {
      var q :| q in nodes;
      var rest := TurnAll(sys, run, nodes - {q}, byz);
      assert At(sys, rest, q, Voting(sys.cfg, q, First(byz), 1, {}));
      next := Turn(sys, rest, q, byz);
    }
  }

  /** A voting replica collects up to a quorum of votes that have been sent. */
  lemma {:induction false} Collect(sys: System, run: seq<Action>, q: NodeId, histories: set<Message>, hash: nat,
                                   votes: set<Message>) returns (next: seq<Action>)
    requires sys.WellFormed() && At(sys, run, q, Voting(sys.cfg, q, histories, hash, {}))
    requires hash in HistoryHashes(histories, 0, 0)
    requires AllVotes(votes, hash) && |votes| <= sys.cfg.ByzQuorum() && votes <= After(sys, run).sent
    ensures At(sys, next, q, Voting(sys.cfg, q, histories, hash, votes)) && OnlyMoved(sys, run, next, {q})
    decreases |votes|
  {
    if votes == {} {
      next := run;
    } else {
      var m :| m in votes;
      var rest := votes - {m};
      var mid := Collect(sys, run, q, histories, hash, rest);
      assert rest + {m} == votes;
      VoteDelivered(sys.cfg, q, histories, hash, rest, m);
      var s := Step(Voting(sys.cfg, q, histories, hash, votes), [Vote(q, hash)] + CommitOut(sys.cfg, q, hash, votes));
      next := Move(sys, mid, q, m, hash, Voting(sys.cfg, q, histories, hash, rest), s);
    }
  }

  /** `k` votes of different voters. */
  lemma {:induction false} SomeVotes(voters: set<NodeId>, hash: nat, k: nat) returns (votes: set<Message>)
    requires |voters| >= k
    ensures |votes| == k && AllVotes(votes, hash) && forall m :: m in votes ==> m.from in voters
    decreases k
  {
    votes := {};
    if k > 0 {
      var q :| q in voters;
      var rest := SomeVotes(voters - {q}, hash, k - 1);
      assert RepairPrepare(q, 0, 0, hash) !in rest;
      votes := rest + {RepairPrepare(q, 0, 0, hash)};
    }
  }

  /** The same when a Byzantine node adds one of the votes. */
  lemma CollectWith(sys: System, run: seq<Action>, q: NodeId, histories: set<Message>, hash: nat, votes: set<Message>,
                    byz: NodeId) returns (next: seq<Action>)
    requires sys.WellFormed() && At(sys, run, q, Voting(sys.cfg, q, histories, hash, {})) && byz in sys.faulty
    requires hash in HistoryHashes(histories, 0, 0)
    requires AllVotes(votes, hash) && |votes| <= sys.cfg.ByzQuorum()
    requires votes <= After(sys, run).sent + {RepairPrepare(byz, 0, 0, hash)}
    ensures At(sys, next, q, Voting(sys.cfg, q, histories, hash, votes)) && OnlyMoved(sys, run, next, {q})
  {
    var mid := run + [Inject(RepairPrepare(byz, 0, 0, hash))];
    AfterSnoc(sys, run, Inject(RepairPrepare(byz, 0, 0, hash)));
    next := Collect(sys, mid, q, histories, hash, votes);
  }

  /** One Byzantine proposer, two correct replicas: a run that leaves them in CommitPhase of
      view 0 and round 0 with different histories. */
  lemma OneProposerSplitsCommits(sys: System, x: NodeId, y: NodeId, byz: NodeId) returns (run: seq<Action>)
    requires sys.WellFormed() && byz in sys.faulty && x in sys.Correct() && y in sys.Correct() && x != y
    ensures x in After(sys, run).replicas && y in After(sys, run).replicas
    ensures var a, b := After(sys, run).replicas[x].st, After(sys, run).replicas[y].st;
            && a.phase.CommitPhase? && b.phase.CommitPhase? && a.view == b.view == 0 && a.round == b.round == 0
            && a.proposed == 1 && b.proposed == 2
  {
    var others := sys.Correct() - {x};
    NodeCount(sys.cfg);
    var k := sys.cfg.n - sys.cfg.f;
    run := EnrollAll(sys, sys.Correct(), byz);
    var ones := SomeVotes(sys.Correct(), 1, k);
    run := CollectWith(sys, run, x, First(byz), 1, ones, byz);
    run := TurnAll(sys, run, others, byz);
    var twos := SomeVotes(others + {byz}, 2, k);
    run := CollectWith(sys, run, y, Both(byz), 2, twos, byz);
  }
}
