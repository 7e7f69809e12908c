/** A run without faults from the first timer to an applied repair: timeouts, a TIMEOUT-PROOF,
    logs, a proposal by the leader, votes, and the merged log at `n - f` replicas. */
module RepairRuns {
  import opened Types
  import opened Dispatch
  import opened Counting
  import opened Cluster
  import opened Schedules
  import opened FirstEntryRuns
  import opened CountingGaps
  import opened InputMeaning
  import opened HandlerMeaning
  import opened GuardMeaning
  import AlignmentRuns
  import RepairEntry

  // One replica in REPAIR.

  /** A replica in REPAIR of view 0 and round 0 that has executed nothing. */
  function Repairing(q: NodeId, phase: Phase, hash: nat, logs: set<Message>, histories: set<Message>,
                     prepares: set<Message>, commits: set<Message>): ReplicaState {
    InitialState(q).(
      phase := phase,
      inRepair := true,
      proposed := hash,
      logMsgs := logs,
      historyMsgs := histories,
      prepareMsgs := prepares,
      commitMsgs := commits)
  }

  function OwnLog(q: NodeId): Message {
    LogMsg(q, 0, 0, ZERO_HASH)
  }

  predicate AllLogs(ms: set<Message>) {
    forall m :: m in ms ==> m.LogMsg? && m == OwnLog(m.from)
  }

  predicate AllPrepares(ms: set<Message>, hash: nat) {
    forall m :: m in ms ==> m.RepairPrepare? && m == RepairPrepare(m.from, 0, 0, hash)
  }

  predicate AllCommits(ms: set<Message>, hash: nat) {
    forall m :: m in ms ==> m.RepairCommit? && m == RepairCommit(m.from, 0, 0, hash)
  }

  lemma Nothing(hash: nat)
    ensures Senders(LogVotes({}, 0, 0)) == {} && PrepareVotes({}, 0, 0, hash) == {} && CommitVotes({}, 0, 0, hash) == {}
    ensures DoneVotes({}, 0, 0) == {} && HistoryHashes({}, 0, 0) == {}
  {
  }

  /** The last five handlers, one after the other. */
  ghost function Late(cfg: Config, s: Step, m: Message, pick: nat): Step {
    var proposed := Then(cfg, Then(cfg, s, ReceivingLog(m)), ReceivingHistory(m, pick));
    Then(cfg, Then(cfg, Then(cfg, proposed, ReceivingPrepare(m)), ReceivingCommit(m)), ReceivingDone(m))
  }

  /** The dispatch of a message that only the last five handlers look at. */
  lemma LateOnly(cfg: Config, st: ReplicaState, m: Message, pick: nat)
    requires RepairPhase(st.phase) && st.inRepair
    requires m.LogMsg? || m.RepairHistory? || m.RepairPrepare? || m.RepairCommit?
    ensures RunEach(cfg, Step(st, []), Program(Deliver(m, pick)))
            == Late(cfg, Step(st, []), m, pick)
  {
    EntryInRepair(cfg, st, m, pick);
    assert Heard(st, m) == st && Answer(st, m) == [];
    Unroll5(cfg, Step(st, []), ReceivingLog(m), ReceivingHistory(m, pick), ReceivingPrepare(m), ReceivingCommit(m),
            ReceivingDone(m));
  }

  // The leader collects logs.

  function Proposal(cfg: Config, q: NodeId, logs: set<Message>): seq<Effect> {
    if |logs| >= cfg.n - cfg.f then [Broadcast(RepairHistory(q, 0, 0, |logs|))] else []
  }

  /** The leader with these logs. */
  function Leading(cfg: Config, q: NodeId, logs: set<Message>): ReplicaState {
    if |logs| >= cfg.n - cfg.f then Repairing(q, PreparePhase, |logs|, logs, {}, {}, {})
    else Repairing(q, CollectingLogs, 0, logs, {}, {}, {})
  }

  lemma LogSendersCount(logs: set<Message>)
    requires AllLogs(logs)
    ensures |Senders(LogVotes(logs, 0, 0))| == |logs|
  {
    assert LogVotes(logs, 0, 0) == logs;
    SendersVersusMessages(logs);
  }

  lemma LogCalls(cfg: Config, q: NodeId, logs: set<Message>, m: Message)
    requires cfg.WellFormed() && IsLeader(cfg, q, 0) && AllLogs(logs + {m}) && |logs| < cfg.n - cfg.f
    ensures Run(cfg, Leading(cfg, q, logs), ReceivingLog(m))
            == Step(Leading(cfg, q, logs + {m}), Proposal(cfg, q, logs + {m}))
  {
    assert m in logs + {m};
    LogSendersCount(logs + {m});
  }

  lemma LeadingIgnores(cfg: Config, q: NodeId, logs: set<Message>, m: Message)
    requires cfg.WellFormed() && m.LogMsg?
    ensures var st := Leading(cfg, q, logs);
            && Run(cfg, st, ReceivingHistory(m, 0)) == Step(st, []) && Run(cfg, st, ReceivingPrepare(m)) == Step(st, [])
            && Run(cfg, st, ReceivingCommit(m)) == Step(st, []) && Run(cfg, st, ReceivingDone(m)) == Step(st, [])
  {
    Nothing(0);
    Nothing(|logs|);
  }

  lemma LogDelivered(cfg: Config, q: NodeId, logs: set<Message>, m: Message)
    requires cfg.WellFormed() && IsLeader(cfg, q, 0) && AllLogs(logs + {m}) && |logs| < cfg.n - cfg.f
    ensures RunEach(cfg, Step(Leading(cfg, q, logs), []), Program(Deliver(m, 0)))
            == Step(Leading(cfg, q, logs + {m}), Proposal(cfg, q, logs + {m}))
  {
    assert m in logs + {m};
    LateOnly(cfg, Leading(cfg, q, logs), m, 0);
    LogCalls(cfg, q, logs, m);
    LeadingIgnores(cfg, q, logs + {m}, m);
    var out := Proposal(cfg, q, logs + {m});
    assert [] + out + [] == out;
  }

  // A proposal is voted for.

  function Vote(q: NodeId, hash: nat): Effect {
    Broadcast(RepairPrepare(q, 0, 0, hash))
  }

  /** Ready for the proposal: collecting logs without enough of them, or the leader. */
  predicate Ready(cfg: Config, st: ReplicaState, logs: set<Message>, hash: nat) {
    || (st == Repairing(st.nodeId, CollectingLogs, 0, {}, {}, {}, {}) && logs == {})
    || st == Repairing(st.nodeId, PreparePhase, hash, logs, {}, {}, {})
  }

  lemma ProposalCalls(cfg: Config, st: ReplicaState, logs: set<Message>, m: Message)
    requires cfg.WellFormed() && m.RepairHistory? && m.view == 0 && m.round == 0 && Ready(cfg, st, logs, m.historyHash)
    ensures Run(cfg, st, ReceivingLog(m)) == Step(st, [])
    ensures Run(cfg, st, ReceivingHistory(m, m.historyHash))
            == Step(Repairing(st.nodeId, PreparePhase, m.historyHash, logs, {m}, {}, {}),
                    [Vote(st.nodeId, m.historyHash)])
  {
    Nothing(m.historyHash);
    assert HistoryHashes({m}, 0, 0) == {m.historyHash};
  }

  /** The last three handlers do nothing without votes. */
  lemma VotelessIgnores(cfg: Config, q: NodeId, hash: nat, logs: set<Message>, histories: set<Message>, m: Message)
    requires cfg.WellFormed() && m.RepairHistory?
    ensures var st := Repairing(q, PreparePhase, hash, logs, histories, {}, {});
            && Run(cfg, st, ReceivingPrepare(m)) == Step(st, []) && Run(cfg, st, ReceivingCommit(m)) == Step(st, [])
            && Run(cfg, st, ReceivingDone(m)) == Step(st, [])
  {
    Nothing(hash);
  }

  lemma ProposalTaken(cfg: Config, st: ReplicaState, logs: set<Message>, m: Message)
    requires cfg.WellFormed() && m.RepairHistory? && m.view == 0 && m.round == 0 && Ready(cfg, st, logs, m.historyHash)
    ensures RunEach(cfg, Step(st, []), Program(Deliver(m, m.historyHash)))
            == Step(Repairing(st.nodeId, PreparePhase, m.historyHash, logs, {m}, {}, {}),
                    [Vote(st.nodeId, m.historyHash)])
  {
    LateOnly(cfg, st, m, m.historyHash);
    ProposalCalls(cfg, st, logs, m);
    VotelessIgnores(cfg, st.nodeId, m.historyHash, logs, {m}, m);
  }

  // Votes.

  /** A replica that voted for the leader's `hash` and has these votes. */
  function Preparing(cfg: Config, q: NodeId, hash: nat, logs: set<Message>, leader: NodeId, votes: set<Message>)
      : ReplicaState {
    Repairing(q, if |votes| >= cfg.n - cfg.f then CommitPhase else PreparePhase, hash, logs,
              {RepairHistory(leader, 0, 0, hash)}, votes, {})
  }

  function CommitOut(cfg: Config, q: NodeId, hash: nat, votes: set<Message>): seq<Effect> {
    if |votes| >= cfg.n - cfg.f then [Broadcast(RepairCommit(q, 0, 0, hash))] else []
  }

  lemma PrepareCalls(cfg: Config, q: NodeId, hash: nat, logs: set<Message>, leader: NodeId, votes: set<Message>,
                     m: Message)
    requires cfg.WellFormed() && |votes| < cfg.n - cfg.f && AllPrepares(votes + {m}, hash)
    ensures var st, next := Preparing(cfg, q, hash, logs, leader, votes),
                            Preparing(cfg, q, hash, logs, leader, votes + {m});
            && Run(cfg, st, ReceivingLog(m)) == Step(st, [])
            && Run(cfg, st, ReceivingHistory(m, hash)) == Step(st, [Vote(q, hash)])
            && Run(cfg, st, ReceivingPrepare(m)) == Step(next, CommitOut(cfg, q, hash, votes + {m}))
  {
    assert m in votes + {m};
    assert HistoryHashes({RepairHistory(leader, 0, 0, hash)}, 0, 0) == {hash};
    assert PrepareVotes(votes + {m}, 0, 0, hash) == votes + {m};
  }

  lemma CommitlessIgnores(cfg: Config, q: NodeId, hash: nat, logs: set<Message>, leader: NodeId, votes: set<Message>,
                          m: Message)
    requires cfg.WellFormed() && m.RepairPrepare?
    ensures var st := Preparing(cfg, q, hash, logs, leader, votes);
            Run(cfg, st, ReceivingCommit(m)) == Step(st, []) && Run(cfg, st, ReceivingDone(m)) == Step(st, [])
  {
    Nothing(hash);
  }

  lemma PrepareTaken(cfg: Config, q: NodeId, hash: nat, logs: set<Message>, leader: NodeId, votes: set<Message>,
                     m: Message)
    requires cfg.WellFormed() && |votes| < cfg.n - cfg.f && AllPrepares(votes + {m}, hash)
    ensures RunEach(cfg, Step(Preparing(cfg, q, hash, logs, leader, votes), []), Program(Deliver(m, hash)))
            == Step(Preparing(cfg, q, hash, logs, leader, votes + {m}),
                    [Vote(q, hash)] + CommitOut(cfg, q, hash, votes + {m}))
  {
    assert m in votes + {m};
    LateOnly(cfg, Preparing(cfg, q, hash, logs, leader, votes), m, hash);
    PrepareCalls(cfg, q, hash, logs, leader, votes, m);
    CommitlessIgnores(cfg, q, hash, logs, leader, votes + {m}, m);
  }

  /** A replica that has committed and has these COMMITs, fewer than a quorum. */
  function Committed(q: NodeId, hash: nat, logs: set<Message>, leader: NodeId, prepares: set<Message>,
                     votes: set<Message>): ReplicaState {
    Repairing(q, CommitPhase, hash, logs, {RepairHistory(leader, 0, 0, hash)}, prepares, votes)
  }

  lemma CommitStored(cfg: Config, q: NodeId, hash: nat, logs: set<Message>, leader: NodeId, prepares: set<Message>,
                     votes: set<Message>, m: Message)
    requires cfg.WellFormed() && AllCommits(votes + {m}, hash) && |votes + {m}| < cfg.n - cfg.f
    ensures RunEach(cfg, Step(Committed(q, hash, logs, leader, prepares, votes), []), Program(Deliver(m, 0)))
            == Step(Committed(q, hash, logs, leader, prepares, votes + {m}), [])
  {
    var st, next := Committed(q, hash, logs, leader, prepares, votes),
                    Committed(q, hash, logs, leader, prepares, votes + {m});
    assert m in votes + {m};
    LateOnly(cfg, st, m, 0);
    CommitPhaseStores(cfg, st, m, 0);
    Nothing(hash);
    assert CommitVotes(votes + {m}, 0, 0, hash) == votes + {m};
    assert Run(cfg, st, ReceivingCommit(m)) == Step(next, []) && Run(cfg, next, ReceivingDone(m)) == Step(next, []);
  }

  lemma CommitApplies(cfg: Config, q: NodeId, hash: nat, logs: set<Message>, leader: NodeId, prepares: set<Message>,
                      votes: set<Message>, m: Message)
    requires cfg.WellFormed() && AllCommits(votes + {m}, hash) && |votes + {m}| >= cfg.n - cfg.f
    ensures var st := Committed(q, hash, logs, leader, prepares, votes);
            var s := RunEach(cfg, Step(st, []), Program(Deliver(m, 0)));
            && Applied(st, s.st, hash) && Broadcast(RepairDone(q, 0, 0, hash)) in s.out
  {
    var st := Committed(q, hash, logs, leader, prepares, votes);
    assert m in votes + {m};
    assert CommitVotes(votes + {m}, 0, 0, hash) == votes + {m};
    CommitsMean(votes + {m}, 0, 0, hash, cfg.n - cfg.f);
    ApplyDelivered(cfg, st, m, 0);
    var s := RunEach(cfg, Step(st, []), Program(Deliver(m, 0)));
    assert s.out[0] == Broadcast(RepairDone(q, 0, 0, hash));
  }

  // A timeout proof.

  /** A replica that executed its first request and stored TIMEOUTs for it. */
  function Ticking(cfg: Config, x: NodeId, timeouts: set<Message>): ReplicaState {
    var st := Executed(cfg, x, {}).(timeoutMsgs := timeouts);
    if |timeouts| > cfg.f then st.(phase := CollectingLogs, inRepair := true) else st
  }

  predicate AllTimeouts(ms: set<Message>) {
    forall m :: m in ms ==> m.TimeoutMsg? && m == TimeoutMsg(m.from, 0, 0)
  }

  lemma TimeoutStill(cfg: Config, x: NodeId, timeouts: set<Message>, m: Message)
    requires cfg.WellFormed() && |timeouts| <= cfg.f && m.TimeoutMsg? && cfg.p < cfg.n
    ensures RunEach(cfg, Step(Ticking(cfg, x, timeouts), []), FirstFive(m)).st == Ticking(cfg, x, timeouts)
  {
    NothingStored();
    ExecutedTop(cfg, x, {});
    assert MatchingSyncs({}, 0, 0, ZERO_HASH) == {} && SyncVotes({}, 0, 0) == {};
    StillCalls(cfg, Step(Ticking(cfg, x, timeouts), []), FirstFive(m));
  }

  function FirstFive(m: Message): seq<Call> {
    [Speculating(m), SyncThreshold, ReceivingSync(m), ReceivingCheckpoint(m), CheckingConflict]
  }

  lemma TimeoutCounts(cfg: Config, x: NodeId, timeouts: set<Message>, m: Message)
    requires |timeouts| <= cfg.f && AllTimeouts(timeouts + {m})
    ensures var r := Run(cfg, Ticking(cfg, x, timeouts), ReceivingTimeout(m));
            && r.st == Ticking(cfg, x, timeouts + {m})
            && (|timeouts + {m}| > cfg.f ==> Broadcast(TimeoutProof(0, 0)) in r.out)
  {
    assert m in timeouts + {m};
    assert TimeoutVotes(timeouts + {m}, 0, 0) == timeouts + {m};
    if |timeouts + {m}| > cfg.f {
      assert Run(cfg, Ticking(cfg, x, timeouts), ReceivingTimeout(m)).out[0] == Broadcast(TimeoutProof(0, 0));
    }
  }

  lemma TimeoutRest(cfg: Config, x: NodeId, timeouts: set<Message>, m: Message, out: seq<Effect>)
    requires cfg.WellFormed() && m.TimeoutMsg?
    ensures var r := RunEach(cfg, RunEach(cfg, Step(Ticking(cfg, x, timeouts), out), MiddleCalls(m)), LateCalls(m, 0));
            r.st == Ticking(cfg, x, timeouts) && forall e :: e in out ==> e in r.out
  {
    var s := Step(Ticking(cfg, x, timeouts), out);
    NothingStored();
    StillCalls(cfg, s, MiddleCalls(m));
    StillCalls(cfg, RunEach(cfg, s, MiddleCalls(m)), LateCalls(m, 0));
  }

  /** An executed replica stores TIMEOUTs for its entry; `f + 1` make it broadcast the proof. */
  lemma TimeoutDelivered(cfg: Config, x: NodeId, timeouts: set<Message>, m: Message)
    requires cfg.WellFormed() && cfg.p < cfg.n && |timeouts| <= cfg.f && AllTimeouts(timeouts + {m})
    ensures var r := RunEach(cfg, Step(Ticking(cfg, x, timeouts), []), Program(Deliver(m, 0)));
            && r.st == Ticking(cfg, x, timeouts + {m})
            && (|timeouts + {m}| > cfg.f ==> Broadcast(TimeoutProof(0, 0)) in r.out)
  {
    assert m in timeouts + {m};
    var s := Step(Ticking(cfg, x, timeouts), []);
    ProgramParts(cfg, s, m, 0);
    TimeoutStill(cfg, x, timeouts, m);
    RunEachSnoc(cfg, s, FirstFive(m), ReceivingTimeout(m));
    assert EarlyCalls(m) == FirstFive(m) + [ReceivingTimeout(m)];
    TimeoutCounts(cfg, x, timeouts, m);
    TimeoutRest(cfg, x, timeouts + {m}, m, RunEach(cfg, s, EarlyCalls(m)).out);
  }

  // Runs.

  /** A timer fires at a replica. */
  lemma Tick(sys: System, run: seq<Action>, q: NodeId) returns (next: seq<Action>)
    requires At(sys, run, q, InitialState(q))
    ensures Moved(sys, run, next, q, InitialState(q)) && TimeoutMsg(q, 0, 0) in After(sys, next).sent
  {
    var st, e := InitialState(q), ChkptTimeout(0);
    next := run + [Process(q, Timer(e))];
    AfterSnoc(sys, run, Process(q, Timer(e)));
    HandleAppends(sys.cfg, After(sys, run).replicas[q], Timer(e));
    TopIs(st.store, ZERO_HASH);
    TimerMeans(sys.cfg, st, e, ZERO_HASH);
    var s := RunEach(sys.cfg, Step(st, []), Program(Timer(e)));
    EmittedJoins(After(sys, run).replicas[q].out, s.out);
    assert s.out[0].message in Emitted(s.out);
  }

  lemma {:induction false} TickAll(sys: System, nodes: set<NodeId>) returns (run: seq<Action>)
    requires nodes <= sys.Correct()
    ensures forall q :: q in sys.Correct() ==> At(sys, run, q, InitialState(q))
    ensures forall q :: q in nodes ==> TimeoutMsg(q, 0, 0) in After(sys, run).sent
    decreases |nodes|
  {
    if nodes == {} {
      run := [];
    } else {
      var q :| q in nodes;
      var rest := TickAll(sys, nodes - {q});
      run := Tick(sys, rest, q);
    }
  }

  lemma {:induction false} HearTimeouts(sys: System, run: seq<Action>, x: NodeId, timeouts: set<Message>)
      returns (next: seq<Action>)
    requires sys.WellFormed() && sys.cfg.p < sys.cfg.n && At(sys, run, x, Ticking(sys.cfg, x, {}))
    requires AllTimeouts(timeouts) && timeouts <= After(sys, run).sent && |timeouts| <= sys.cfg.f + 1
    ensures At(sys, next, x, Ticking(sys.cfg, x, timeouts)) && OnlyMoved(sys, run, next, {x})
    ensures |timeouts| > sys.cfg.f ==> TimeoutProof(0, 0) in After(sys, next).sent
    decreases |timeouts|
  {
    if timeouts == {} {
      next := run;
    } else {
      var m :| m in timeouts;
      var rest := timeouts - {m};
      var mid := HearTimeouts(sys, run, x, rest);
      assert rest + {m} == timeouts;
      TimeoutDelivered(sys.cfg, x, rest, m);
      var s := RunEach(sys.cfg, Step(Ticking(sys.cfg, x, rest), []), Program(Deliver(m, 0)));
      next := Move(sys, mid, x, m, 0, Ticking(sys.cfg, x, rest), s);
      if |timeouts| > sys.cfg.f {
        assert Broadcast(TimeoutProof(0, 0)).message in Emitted(s.out);
      }
    }
  }

  /** A node that has entered REPAIR and sent its LOG. */
  ghost predicate Ready0(sys: System, run: seq<Action>, q: NodeId) {
    At(sys, run, q, Repairing(q, CollectingLogs, 0, {}, {}, {}, {})) && OwnLog(q) in After(sys, run).sent
  }

  lemma Enter(sys: System, run: seq<Action>, q: NodeId) returns (next: seq<Action>)
    requires sys.WellFormed() && At(sys, run, q, InitialState(q))
    ensures Ready0(sys, next, q) && OnlyMoved(sys, run, next, {q})
    ensures forall r :: r != q && Ready0(sys, run, r) ==> Ready0(sys, next, r)
  {
    var m := TimeoutProof(0, 0);
    ProofDelivered(sys.cfg, q, m);
    var s := Step(Entered(q), [Broadcast(RepairEntry.OwnLog(InitialState(q)))]);
    next := Move(sys, run, q, m, 0, InitialState(q), s);
    assert s.out[0].message in Emitted(s.out);
  }

  lemma OnlyMovedMore(sys: System, a: seq<Action>, b: seq<Action>, c: seq<Action>, nodes: set<NodeId>, q: NodeId)
    requires OnlyMoved(sys, a, b, nodes - {q}) && OnlyMoved(sys, b, c, {q}) && q in nodes
    ensures OnlyMoved(sys, a, c, nodes)
  {
  }

  lemma {:induction false} EnterAll(sys: System, run: seq<Action>, nodes: set<NodeId>) returns (next: seq<Action>)
    requires sys.WellFormed() && forall q :: q in nodes ==> At(sys, run, q, InitialState(q))
    ensures (forall q :: q in nodes ==> Ready0(sys, next, q)) && OnlyMoved(sys, run, next, nodes)
    decreases |nodes|
  {
    if nodes == {} {
      next := run;
    } else {
      var q :| q in nodes;
      var rest := EnterAll(sys, run, nodes - {q});
      next := Enter(sys, rest, q);
      OnlyMovedMore(sys, run, rest, next, nodes, q);
    }
  }

  /** The leader hears LOGs. */
  lemma {:induction false} HearLogs(sys: System, run: seq<Action>, q: NodeId, logs: set<Message>)
      returns (next: seq<Action>)
    requires sys.WellFormed() && IsLeader(sys.cfg, q, 0) && At(sys, run, q, Leading(sys.cfg, q, {}))
    requires AllLogs(logs) && logs <= After(sys, run).sent && |logs| <= sys.cfg.n - sys.cfg.f
    ensures At(sys, next, q, Leading(sys.cfg, q, logs)) && OnlyMoved(sys, run, next, {q})
    ensures |logs| == sys.cfg.n - sys.cfg.f ==> RepairHistory(q, 0, 0, |logs|) in After(sys, next).sent
    decreases |logs|
  {
    if logs == {} {
      next := run;
    } else {
      var m :| m in logs;
      var rest := logs - {m};
      var mid := HearLogs(sys, run, q, rest);
      assert rest + {m} == logs;
      LogDelivered(sys.cfg, q, rest, m);
      var s := Step(Leading(sys.cfg, q, logs), Proposal(sys.cfg, q, logs));
      next := Move(sys, mid, q, m, 0, Leading(sys.cfg, q, rest), s);
      if |logs| == sys.cfg.n - sys.cfg.f {
        assert s.out[0].message in Emitted(s.out);
      }
    }
  }

  function LogsOf(q: NodeId, leader: NodeId, logs: set<Message>): set<Message> {
    if q == leader then logs else {}
  }

  /** Where the nodes stand once the leader has proposed. */
  function Start(cfg: Config, q: NodeId, leader: NodeId, logs: set<Message>): ReplicaState {
    if q == leader then Leading(cfg, q, logs) else Repairing(q, CollectingLogs, 0, {}, {}, {}, {})
  }

  /** `q` voted for the proposal. */
  ghost predicate Voted(sys: System, run: seq<Action>, q: NodeId, leader: NodeId, logs: set<Message>) {
    && At(sys, run, q, Preparing(sys.cfg, q, |logs|, LogsOf(q, leader, logs), leader, {}))
    && RepairPrepare(q, 0, 0, |logs|) in After(sys, run).sent
  }

  lemma VoteForProposal(sys: System, run: seq<Action>, q: NodeId, leader: NodeId, logs: set<Message>)
      returns (next: seq<Action>)
    requires sys.WellFormed() && |logs| == sys.cfg.n - sys.cfg.f && At(sys, run, q, Start(sys.cfg, q, leader, logs))
    requires RepairHistory(leader, 0, 0, |logs|) in After(sys, run).sent
    ensures Voted(sys, next, q, leader, logs) && OnlyMoved(sys, run, next, {q})
    ensures forall r :: r != q && Voted(sys, run, r, leader, logs) ==> Voted(sys, next, r, leader, logs)
  {
    var m, st := RepairHistory(leader, 0, 0, |logs|), Start(sys.cfg, q, leader, logs);
    ProposalTaken(sys.cfg, st, LogsOf(q, leader, logs), m);
    var s := Step(Preparing(sys.cfg, q, |logs|, LogsOf(q, leader, logs), leader, {}), [Vote(q, |logs|)]);
    next := Move(sys, run, q, m, |logs|, st, s);
    assert s.out[0].message in Emitted(s.out);
  }

  lemma {:induction false} VoteAll(sys: System, run: seq<Action>, nodes: set<NodeId>, leader: NodeId,
                                   logs: set<Message>)
      returns (next: seq<Action>)
    requires sys.WellFormed() && |logs| == sys.cfg.n - sys.cfg.f
    requires forall q :: q in nodes ==> At(sys, run, q, Start(sys.cfg, q, leader, logs))
    requires RepairHistory(leader, 0, 0, |logs|) in After(sys, run).sent
    ensures (forall q :: q in nodes ==> Voted(sys, next, q, leader, logs)) && OnlyMoved(sys, run, next, nodes)
    decreases |nodes|
  {
    if nodes == {} {
      next := run;
    } else {
      var q :| q in nodes;
      var rest := VoteAll(sys, run, nodes - {q}, leader, logs);
      next := VoteForProposal(sys, rest, q, leader, logs);
      OnlyMovedMore(sys, run, rest, next, nodes, q);
    }
  }

  lemma {:induction false} HearPrepares(sys: System, run: seq<Action>, q: NodeId, hash: nat, logs: set<Message>,
                                        leader: NodeId, votes: set<Message>) returns (next: seq<Action>)
    requires sys.WellFormed() && At(sys, run, q, Preparing(sys.cfg, q, hash, logs, leader, {}))
    requires AllPrepares(votes, hash) && votes <= After(sys, run).sent && |votes| <= sys.cfg.n - sys.cfg.f
    ensures At(sys, next, q, Preparing(sys.cfg, q, hash, logs, leader, votes)) && OnlyMoved(sys, run, next, {q})
    ensures |votes| == sys.cfg.n - sys.cfg.f ==> RepairCommit(q, 0, 0, hash) in After(sys, next).sent
    decreases |votes|
  {
    if votes == {} {
      next := run;
    } else {
      var m :| m in votes;
      var rest := votes - {m};
      var mid := HearPrepares(sys, run, q, hash, logs, leader, rest);
      assert rest + {m} == votes;
      PrepareTaken(sys.cfg, q, hash, logs, leader, rest, m);
      var s := Step(Preparing(sys.cfg, q, hash, logs, leader, votes),
                    [Vote(q, hash)] + CommitOut(sys.cfg, q, hash, votes));
      next := Move(sys, mid, q, m, hash, Preparing(sys.cfg, q, hash, logs, leader, rest), s);
      if |votes| == sys.cfg.n - sys.cfg.f {
        assert s.out[1].message in Emitted(s.out);
      }
    }
  }

  /** `q` has committed. */
  ghost predicate HasCommitted(sys: System, run: seq<Action>, q: NodeId, leader: NodeId, logs: set<Message>,
                               votes: set<Message>) {
    && At(sys, run, q, Preparing(sys.cfg, q, |logs|, LogsOf(q, leader, logs), leader, votes))
    && RepairCommit(q, 0, 0, |logs|) in After(sys, run).sent
  }

  lemma {:induction false} CommitAll(sys: System, run: seq<Action>, nodes: set<NodeId>, leader: NodeId,
                                     logs: set<Message>, votes: set<Message>) returns (next: seq<Action>)
    requires sys.WellFormed() && |votes| == sys.cfg.n - sys.cfg.f
    requires AllPrepares(votes, |logs|) && votes <= After(sys, run).sent
    requires forall q :: q in nodes ==> Voted(sys, run, q, leader, logs)
    ensures forall q :: q in nodes ==> HasCommitted(sys, next, q, leader, logs, votes)
    ensures OnlyMoved(sys, run, next, nodes)
    decreases |nodes|
  {
    if nodes == {} {
      next := run;
    } else {
      var q :| q in nodes;
      var rest := CommitAll(sys, run, nodes - {q}, leader, logs, votes);
      assert At(sys, rest, q, Preparing(sys.cfg, q, |logs|, LogsOf(q, leader, logs), leader, {}));
      next := CommitOne(sys, rest, q, leader, logs, votes);
      OnlyMovedMore(sys, run, rest, next, nodes, q);
    }
  }

  lemma CommitOne(sys: System, run: seq<Action>, q: NodeId, leader: NodeId, logs: set<Message>, votes: set<Message>)
      returns (next: seq<Action>)
    requires sys.WellFormed() && |votes| == sys.cfg.n - sys.cfg.f
    requires AllPrepares(votes, |logs|) && votes <= After(sys, run).sent
    requires At(sys, run, q, Preparing(sys.cfg, q, |logs|, LogsOf(q, leader, logs), leader, {}))
    ensures HasCommitted(sys, next, q, leader, logs, votes) && OnlyMoved(sys, run, next, {q})
    ensures forall r :: r != q && HasCommitted(sys, run, r, leader, logs, votes) ==>
                          HasCommitted(sys, next, r, leader, logs, votes)
  {
    next := HearPrepares(sys, run, q, |logs|, LogsOf(q, leader, logs), leader, votes);
  }

  lemma {:induction false} StoreCommits(sys: System, run: seq<Action>, q: NodeId, hash: nat, logs: set<Message>,
                                        leader: NodeId, prepares: set<Message>, votes: set<Message>)
      returns (next: seq<Action>)
    requires sys.WellFormed() && At(sys, run, q, Committed(q, hash, logs, leader, prepares, {}))
    requires AllCommits(votes, hash) && votes <= After(sys, run).sent && |votes| < sys.cfg.n - sys.cfg.f
    ensures At(sys, next, q, Committed(q, hash, logs, leader, prepares, votes)) && OnlyMoved(sys, run, next, {q})
    decreases |votes|
  {
    if votes == {} {
      next := run;
    } else {
      var m :| m in votes;
      var rest := votes - {m};
      var mid := StoreCommits(sys, run, q, hash, logs, leader, prepares, rest);
      assert rest + {m} == votes;
      CommitStored(sys.cfg, q, hash, logs, leader, prepares, rest, m);
      var s := Step(Committed(q, hash, logs, leader, prepares, votes), []);
      next := Move(sys, mid, q, m, 0, Committed(q, hash, logs, leader, prepares, rest), s);
    }
  }

  /** `q` applied history `h` in round 0: it is in round 1, its log is `h` placeholders, and its
      REPAIR-DONE exists. */
  ghost predicate Repaired(sys: System, run: seq<Action>, q: NodeId, h: nat) {
    && q in After(sys, run).replicas && RepairDone(q, 0, 0, h) in After(sys, run).sent
    && var st := After(sys, run).replicas[q].st;
       st.phase.Speculative? && st.round == 1 && st.kvSize == h && Placeholders(st.store, h)
  }

  lemma ApplyOne(sys: System, run: seq<Action>, q: NodeId, leader: NodeId, logs: set<Message>, prepares: set<Message>,
                 votes: set<Message>) returns (next: seq<Action>)
    requires sys.WellFormed() && |prepares| == |votes| == |logs| == sys.cfg.n - sys.cfg.f
    requires At(sys, run, q, Preparing(sys.cfg, q, |logs|, LogsOf(q, leader, logs), leader, prepares))
    requires AllCommits(votes, |logs|) && votes <= After(sys, run).sent
    ensures Repaired(sys, next, q, |logs|) && OnlyMoved(sys, run, next, {q})
    ensures forall r :: r != q && Repaired(sys, run, r, |logs|) ==> Repaired(sys, next, r, |logs|)
  {
    var own := LogsOf(q, leader, logs);
    var m :| m in votes;
    var rest := votes - {m};
    var mid := StoreCommits(sys, run, q, |logs|, own, leader, prepares, rest);
    assert rest + {m} == votes;
    CommitApplies(sys.cfg, q, |logs|, own, leader, prepares, rest, m);
    var st := Committed(q, |logs|, own, leader, prepares, rest);
    var s := RunEach(sys.cfg, Step(st, []), Program(Deliver(m, 0)));
    next := Move(sys, mid, q, m, 0, st, s);
    assert Broadcast(RepairDone(q, 0, 0, |logs|)).message in Emitted(s.out);
  }

  lemma {:induction false} ApplyAll(sys: System, run: seq<Action>, nodes: set<NodeId>, leader: NodeId,
                                    logs: set<Message>, prepares: set<Message>, votes: set<Message>)
      returns (next: seq<Action>)
    requires sys.WellFormed() && |prepares| == |votes| == |logs| == sys.cfg.n - sys.cfg.f
    requires forall q :: q in nodes ==> HasCommitted(sys, run, q, leader, logs, prepares)
    requires AllCommits(votes, |logs|) && votes <= After(sys, run).sent
    ensures (forall q :: q in nodes ==> Repaired(sys, next, q, |logs|)) && OnlyMoved(sys, run, next, nodes)
    decreases |nodes|
  {
    if nodes == {} {
      next := run;
    } else {
      var q :| q in nodes;
      var rest := ApplyAll(sys, run, nodes - {q}, leader, logs, prepares, votes);
      assert At(sys, rest, q, Preparing(sys.cfg, q, |logs|, LogsOf(q, leader, logs), leader, prepares));
      next := ApplyOne(sys, rest, q, leader, logs, prepares, votes);
      OnlyMovedMore(sys, run, rest, next, nodes, q);
    }
  }

  // Putting the run together.

  /** One message of each node. */
  lemma {:induction false} OneEachOf(nodes: set<NodeId>, of: NodeId -> Message) returns (ms: set<Message>)
    requires forall q :: of(q).Authored() && of(q).from == q
    ensures |ms| == |nodes| && forall m :: m in ms ==> m.Authored() && m.from in nodes && m == of(m.from)
    decreases |nodes|
  {
    ms := {};
    if nodes != {} {
      var q :| q in nodes;
      var rest := OneEachOf(nodes - {q}, of);
      assert of(q) !in rest;
      ms := rest + {of(q)};
    }
  }

  lemma AllSent(sent: set<Message>, nodes: set<NodeId>, of: NodeId -> Message, ms: set<Message>)
    requires forall q :: q in nodes ==> of(q) in sent
    requires forall m :: m in ms ==> m.Authored() && m.from in nodes && m == of(m.from)
    ensures ms <= sent
  {
  }

  /** From the proof to the proposal: `nodes` enter REPAIR, their leader hears their LOGs and
      proposes. */
  lemma Propose(sys: System, run: seq<Action>, nodes: set<NodeId>, leader: NodeId)
      returns (next: seq<Action>, logs: set<Message>)
    requires sys.WellFormed() && leader in nodes && IsLeader(sys.cfg, leader, 0) && |nodes| == sys.cfg.n - sys.cfg.f
    requires forall q :: q in nodes ==> At(sys, run, q, InitialState(q))
    ensures |logs| == sys.cfg.n - sys.cfg.f && OnlyMoved(sys, run, next, nodes)
    ensures forall q :: q in nodes ==> At(sys, next, q, Start(sys.cfg, q, leader, logs))
    ensures RepairHistory(leader, 0, 0, |logs|) in After(sys, next).sent
  {
    var entered := EnterAll(sys, run, nodes);
    var of: NodeId -> Message := x => OwnLog(x);
    logs := OneEachOf(nodes, of);
    AllSent(After(sys, entered).sent, nodes, of, logs);
    next := HearLogs(sys, entered, leader, logs);
  }

  /** From the proposal to the applied history. */
  lemma Agree(sys: System, run: seq<Action>, nodes: set<NodeId>, leader: NodeId, logs: set<Message>)
      returns (next: seq<Action>)
    requires sys.WellFormed() && |nodes| == |logs| == sys.cfg.n - sys.cfg.f
    requires forall q :: q in nodes ==> At(sys, run, q, Start(sys.cfg, q, leader, logs))
    requires RepairHistory(leader, 0, 0, |logs|) in After(sys, run).sent
    ensures (forall q :: q in nodes ==> Repaired(sys, next, q, |logs|)) && After(sys, run).sent <= After(sys, next).sent
  {
    var voted := VoteAll(sys, run, nodes, leader, logs);
    var prepares := OneEachOf(nodes, PrepareOf(0, 0, |logs|));
    AllSent(After(sys, voted).sent, nodes, PrepareOf(0, 0, |logs|), prepares);
    var committed := CommitAll(sys, voted, nodes, leader, logs, prepares);
    var commits := OneEachOf(nodes, CommitOf(0, 0, |logs|));
    AllSent(After(sys, committed).sent, nodes, CommitOf(0, 0, |logs|), commits);
    next := ApplyAll(sys, committed, nodes, leader, logs, prepares, commits);
  }

  /** From the timers to the proof: `f + 1` replicas time out, and `x`, which has executed a
      request, proves it. */
  lemma ProveTimeout(sys: System, x: NodeId, slow: set<NodeId>) returns (run: seq<Action>)
    requires sys.WellFormed() && sys.cfg.p < sys.cfg.n && x in sys.Correct()
    requires slow <= sys.Correct() && |slow| == sys.cfg.f + 1
    ensures TimeoutProof(0, 0) in After(sys, run).sent
    ensures forall q :: q in sys.Correct() - {x} ==> At(sys, run, q, InitialState(q))
  {
    var ticked := TickAll(sys, slow);
    var executed := AlignmentRuns.Execute(sys, ticked, x);
    var timeouts := OneEachOf(slow, TimeoutOf(0, 0));
    run := HearTimeouts(sys, executed, x, timeouts);
  }

  /** In every fault-free cluster with `f >= 1`, repair can happen: there is a run in which a
      TIMEOUT-PROOF is broadcast and `n - f` replicas apply the leader's proposal of size
      `n - f`. */
  lemma RepairHappens(sys: System, x: NodeId, slow: set<NodeId>, nodes: set<NodeId>, leader: NodeId)
      returns (run: seq<Action>)
    requires sys.WellFormed() && sys.faulty == {} && sys.cfg.p < sys.cfg.n && x in sys.Correct()
    requires slow <= sys.Correct() && |slow| == sys.cfg.f + 1
    requires nodes <= sys.Correct() - {x} && |nodes| == sys.cfg.n - sys.cfg.f
    requires leader in nodes && IsLeader(sys.cfg, leader, 0)
    ensures TimeoutProof(0, 0) in After(sys, run).sent
    ensures forall q :: q in nodes ==> Repaired(sys, run, q, sys.cfg.n - sys.cfg.f)
  {
    var proved := ProveTimeout(sys, x, slow);
    var proposed, logs := Propose(sys, proved, nodes, leader);
    run := Agree(sys, proposed, nodes, leader, logs);
  }

  /** The default configuration without faults. */
  function SixCorrect(): System {
    SixNodes().(faulty := {})
  }

  lemma SixCorrectNodes()
    ensures var sys, five := SixCorrect(), {"r0", "r1", "r2", "r3", "r4"};
            && sys.WellFormed() && |five| == 5 && |{"r0", "r1"}| == 2
            && five <= sys.Correct() - {"r5"} && "r5" in sys.Correct() && IsLeader(sys.cfg, "r0", 0)
  {
    var nodes := SixNodes().cfg.nodesOrdered;
    assert forall i :: 0 <= i < 6 ==> nodes[i][1] == "012345"[i];
    assert nodes[0] == "r0" && nodes[1] == "r1" && nodes[2] == "r2" && nodes[3] == "r3" && nodes[4] == "r4"
        && nodes[5] == "r5";
    assert {"r0", "r1", "r2", "r3", "r4"} == {nodes[0], nodes[1], nodes[2], nodes[3], nodes[4]};
    assert {"r0", "r1"} == {nodes[0], nodes[1]};
  }

  lemma RepairHappensByDefault() returns (run: seq<Action>)
    ensures TimeoutProof(0, 0) in After(SixCorrect(), run).sent
    ensures forall q :: q in {"r0", "r1", "r2", "r3", "r4"} ==> Repaired(SixCorrect(), run, q, 5)
  {
    SixCorrectNodes();
    run := RepairHappens(SixCorrect(), "r5", {"r0", "r1"}, {"r0", "r1", "r2", "r3", "r4"}, "r0");
  }
}
