/** Runs in which a correct replica hears some SYNCs for the first log entry and then executes
    its first request: what the checkpoint and conflict guards make of them. */
module FirstEntryRuns {
  import opened Types
  import opened Dispatch
  import opened Counting
  import opened Cluster
  import opened Schedules
  import opened ConflictCondition
  import Storage

  // One replica.

  /** A replica that has heard `syncs` and nothing else. */
  function Idle(node: NodeId, syncs: set<Message>): ReplicaState {
    InitialState(node).(syncMsgs := syncs)
  }

  function EarlyRest(m: Message): seq<Call> {
    [ReceivingCheckpoint(m), CheckingConflict, ReceivingTimeout(m)]
  }

  lemma IdleIsSilent(cfg: Config, node: NodeId, syncs: set<Message>, m: Message)
    requires m.Sync?
    ensures RunEach(cfg, Step(Idle(node, syncs), []), [Speculating(m), SyncThreshold]) == Step(Idle(node, syncs), [])
  {
    SilentCalls(cfg, Step(Idle(node, syncs), []), [Speculating(m), SyncThreshold]);
  }

  lemma IdleIgnoresEntry(cfg: Config, node: NodeId, syncs: set<Message>, m: Message)
    requires m.Sync?
    ensures RunEach(cfg, Step(Idle(node, syncs), []), EarlyRest(m)) == Step(Idle(node, syncs), [])
    ensures RunEach(cfg, Step(Idle(node, syncs), []), MiddleCalls(m)) == Step(Idle(node, syncs), [])
  {
    NothingStored();
    SilentCalls(cfg, Step(Idle(node, syncs), []), EarlyRest(m));
    SilentCalls(cfg, Step(Idle(node, syncs), []), MiddleCalls(m));
  }

  lemma IdleIgnoresRepair(cfg: Config, node: NodeId, syncs: set<Message>, m: Message)
    requires m.Sync?
    ensures RunEach(cfg, Step(Idle(node, syncs), []), LateCalls(m, 0)) == Step(Idle(node, syncs), [])
  {
    NothingStored();
    SilentCalls(cfg, Step(Idle(node, syncs), []), LateCalls(m, 0));
  }

  lemma EarlyParts(cfg: Config, s: Step, m: Message)
    ensures RunEach(cfg, s, EarlyCalls(m))
            == RunEach(cfg, Then(cfg, RunEach(cfg, s, [Speculating(m), SyncThreshold]), ReceivingSync(m)), EarlyRest(m))
  {
    var before := [Speculating(m), SyncThreshold];
    RunEachSnoc(cfg, s, before, ReceivingSync(m));
    RunEachConcat(cfg, s, before + [ReceivingSync(m)], EarlyRest(m));
    assert EarlyCalls(m) == before + [ReceivingSync(m)] + EarlyRest(m);
  }

  /** With an empty log a SYNC is stored and nothing else happens. */
  lemma SyncHeard(cfg: Config, node: NodeId, syncs: set<Message>, m: Message)
    requires m.Sync?
    ensures RunEach(cfg, Step(Idle(node, syncs), []), Program(Deliver(m, 0))) == Step(Idle(node, syncs + {m}), [])
  {
    ProgramParts(cfg, Step(Idle(node, syncs), []), m, 0);
    EarlyParts(cfg, Step(Idle(node, syncs), []), m);
    IdleIsSilent(cfg, node, syncs, m);
    IdleIgnoresEntry(cfg, node, syncs + {m}, m);
    IdleIgnoresRepair(cfg, node, syncs + {m}, m);
  }

  function Request(): Message {
    Speculate("", 0, ZERO_HASH, 0)
  }

  /** The replica once it has executed its first request. */
  function Executed(cfg: Config, node: NodeId, syncs: set<Message>): ReplicaState {
    Idle(node, syncs).(store := map[0 := KvEntry(0, [], ZERO_HASH)], kvSize := 1)
  }

  predicate Forms(cfg: Config, syncs: set<Message>, top: Hash) {
    |MatchingSyncs(syncs, 0, 0, top)| >= cfg.FastQuorum()
  }

  predicate Conflicts(cfg: Config, syncs: set<Message>, top: Hash) {
    |SyncVotes(syncs, 0, 0)| >= cfg.ByzQuorum() && !Forms(cfg, syncs, top)
  }

  /** The state and effects in which its first request leaves the replica. */
  function Final(cfg: Config, node: NodeId, syncs: set<Message>): ReplicaState {
    var st := Executed(cfg, node, syncs);
    if Conflicts(cfg, syncs, ZERO_HASH) then st.(phase := CollectingLogs, inRepair := true) else st
  }

  function FastOut(cfg: Config, node: NodeId): seq<Effect> {
    [Broadcast(SpecReply(node, 0, 0, cfg.entryHash(KvEntry(0, [], ZERO_HASH)))),
     Broadcast(Sync(node, 0, 0, ZERO_HASH, 0))]
  }

  function GuardOut(cfg: Config, node: NodeId, syncs: set<Message>): seq<Effect> {
    if Forms(cfg, syncs, ZERO_HASH) then [Broadcast(Checkpoint(node, 0, 0, ZERO_HASH))]
    else if Conflicts(cfg, syncs, ZERO_HASH)
    then [Broadcast(ConflictProof(0, 0)), Broadcast(LogMsg(node, 0, 0, ZERO_HASH))]
    else []
  }

  lemma ExecutedTop(cfg: Config, node: NodeId, syncs: set<Message>)
    ensures Storage.TopHashOf(Executed(cfg, node, syncs).store) == ZERO_HASH
  {
    assert 0 in Executed(cfg, node, syncs).store.Keys;
  }

  /** The fast path appends the entry and announces it. */
  lemma FastPart(cfg: Config, node: NodeId, syncs: set<Message>)
    ensures RunEach(cfg, Step(Idle(node, syncs), []), [Speculating(Request()), SyncThreshold])
            == Step(Executed(cfg, node, syncs), FastOut(cfg, node))
  {
    ExecutedTop(cfg, node, syncs);
    Unroll2(cfg, Step(Idle(node, syncs), []), Speculating(Request()), SyncThreshold);
    assert Run(cfg, Idle(node, syncs), Speculating(Request())).st == Executed(cfg, node, syncs);
    assert [] + FastOut(cfg, node)[..1] + FastOut(cfg, node)[1..] == FastOut(cfg, node);
  }

  lemma CheckpointPart(cfg: Config, node: NodeId, syncs: set<Message>)
    ensures Run(cfg, Executed(cfg, node, syncs), ReceivingSync(Request()))
            == Step(Executed(cfg, node, syncs), if Forms(cfg, syncs, ZERO_HASH) then GuardOut(cfg, node, syncs) else [])
  {
    ExecutedTop(cfg, node, syncs);
  }

  lemma ConflictPart(cfg: Config, node: NodeId, syncs: set<Message>)
    ensures Run(cfg, Executed(cfg, node, syncs), CheckingConflict)
            == Step(Final(cfg, node, syncs),
                    if Conflicts(cfg, syncs, ZERO_HASH) then GuardOut(cfg, node, syncs) else [])
  {
    ExecutedTop(cfg, node, syncs);
    assert [Broadcast(ConflictProof(0, 0))] + [Broadcast(LogMsg(node, 0, 0, ZERO_HASH))]
        == [Broadcast(ConflictProof(0, 0)), Broadcast(LogMsg(node, 0, 0, ZERO_HASH))];
  }

  lemma EntryRestIsSilent(cfg: Config, node: NodeId, syncs: set<Message>, out: seq<Effect>)
    ensures var s := Step(Final(cfg, node, syncs), out);
            Then(cfg, s, ReceivingTimeout(Request())) == s && RunEach(cfg, s, MiddleCalls(Request())) == s
  {
    NothingStored();
    assert out + [] == out;
    SilentCalls(cfg, Step(Final(cfg, node, syncs), out), MiddleCalls(Request()));
  }

  lemma RepairRestIsSilent(cfg: Config, node: NodeId, syncs: set<Message>, out: seq<Effect>)
    requires cfg.WellFormed()
    ensures var s := Step(Final(cfg, node, syncs), out);
            RunEach(cfg, s, LateCalls(Request(), 0)) == s
  {
    NothingStored();
    SilentCalls(cfg, Step(Final(cfg, node, syncs), out), LateCalls(Request(), 0));
  }

  lemma CheckpointsAreSilent(cfg: Config, node: NodeId, syncs: set<Message>)
    ensures Run(cfg, Executed(cfg, node, syncs), ReceivingCheckpoint(Request())) == Step(Executed(cfg, node, syncs), [])
  {
    NothingStored();
  }

  /** The two guards. */
  lemma GuardPart(cfg: Config, node: NodeId, syncs: set<Message>, out: seq<Effect>)
    ensures RunEach(cfg, Step(Executed(cfg, node, syncs), out),
                    [ReceivingSync(Request()), ReceivingCheckpoint(Request()), CheckingConflict])
            == Step(Final(cfg, node, syncs), out + GuardOut(cfg, node, syncs))
  {
    var st, m := Executed(cfg, node, syncs), Request();
    Unroll3(cfg, Step(st, out), ReceivingSync(m), ReceivingCheckpoint(m), CheckingConflict);
    CheckpointPart(cfg, node, syncs);
    CheckpointsAreSilent(cfg, node, syncs);
    ConflictPart(cfg, node, syncs);
    var formed := if Forms(cfg, syncs, ZERO_HASH) then GuardOut(cfg, node, syncs) else [];
    var proved := if Conflicts(cfg, syncs, ZERO_HASH) then GuardOut(cfg, node, syncs) else [];
    assert out + formed + [] + proved == out + GuardOut(cfg, node, syncs);
  }

  lemma RequestParts(cfg: Config, s: Step)
    ensures var fast, guards := [Speculating(Request()), SyncThreshold],
                                [ReceivingSync(Request()), ReceivingCheckpoint(Request()), CheckingConflict];
            RunEach(cfg, s, EarlyCalls(Request()))
            == Then(cfg, RunEach(cfg, RunEach(cfg, s, fast), guards), ReceivingTimeout(Request()))
  {
    var m := Request();
    var fast, guards := [Speculating(m), SyncThreshold], [ReceivingSync(m), ReceivingCheckpoint(m), CheckingConflict];
    RunEachConcat(cfg, s, fast, guards);
    RunEachSnoc(cfg, s, fast + guards, ReceivingTimeout(m));
    assert EarlyCalls(m) == fast + guards + [ReceivingTimeout(m)];
  }

  /** The whole dispatch of the first request. */
  lemma RequestHandled(cfg: Config, node: NodeId, syncs: set<Message>)
    requires cfg.WellFormed()
    ensures RunEach(cfg, Step(Idle(node, syncs), []), Program(Deliver(Request(), 0)))
            == Step(Final(cfg, node, syncs), FastOut(cfg, node) + GuardOut(cfg, node, syncs))
  {
    ProgramParts(cfg, Step(Idle(node, syncs), []), Request(), 0);
    RequestParts(cfg, Step(Idle(node, syncs), []));
    FastPart(cfg, node, syncs);
    GuardPart(cfg, node, syncs, FastOut(cfg, node));
    EntryRestIsSilent(cfg, node, syncs, FastOut(cfg, node) + GuardOut(cfg, node, syncs));
    RepairRestIsSilent(cfg, node, syncs, FastOut(cfg, node) + GuardOut(cfg, node, syncs));
  }

  // Runs.

  ghost function Injecting(ms: set<Message>): seq<Action> {
    if ms == {} then []
    else
      var m :| m in ms;
      Injecting(ms - {m}) + [Inject(m)]
  }

  lemma {:induction false} InjectingSends(sys: System, run: seq<Action>, ms: set<Message>)
    requires forall m :: m in ms && m.Authored() ==> m.from in sys.faulty
    ensures After(sys, run + Injecting(ms)) == After(sys, run).(sent := After(sys, run).sent + ms)
  {
    if ms == {} {
      assert run + [] == run;
    } else {
      var m :| m in ms && Injecting(ms) == Injecting(ms - {m}) + [Inject(m)];
      InjectingSends(sys, run, ms - {m});
      assert run + Injecting(ms) == run + Injecting(ms - {m}) + [Inject(m)];
      AfterSnoc(sys, run + Injecting(ms - {m}), Inject(m));
      assert After(sys, run).sent + (ms - {m}) + {m} == After(sys, run).sent + ms;
    }
  }

  ghost function Hearing(node: NodeId, ms: set<Message>): seq<Action> {
    if ms == {} then []
    else
      var m :| m in ms;
      Hearing(node, ms - {m}) + [Process(node, Deliver(m, 0))]
  }

  /** `node` has done nothing but hear `syncs`. */
  ghost predicate OnlyHeard(s: State, node: NodeId, syncs: set<Message>) {
    node in s.replicas && s.replicas[node].st == Idle(node, syncs) && s.replicas[node].out == []
  }

  lemma HearOne(sys: System, run: seq<Action>, node: NodeId, syncs: set<Message>, m: Message)
    requires OnlyHeard(After(sys, run), node, syncs) && m in After(sys, run).sent && m.Sync?
    ensures var after := After(sys, run + [Process(node, Deliver(m, 0))]);
            OnlyHeard(after, node, syncs + {m}) && after.sent == After(sys, run).sent
  {
    AfterSnoc(sys, run, Process(node, Deliver(m, 0)));
    HandleAppends(sys.cfg, After(sys, run).replicas[node], Deliver(m, 0));
    SyncHeard(sys.cfg, node, syncs, m);
    assert Emitted([]) == {};
  }

  lemma HearingSplits(run: seq<Action>, node: NodeId, ms: set<Message>) returns (m: Message)
    requires ms != {}
    ensures m in ms && ms - {m} + {m} == ms
    ensures run + Hearing(node, ms) == run + Hearing(node, ms - {m}) + [Process(node, Deliver(m, 0))]
  {
    m :| m in ms && Hearing(node, ms) == Hearing(node, ms - {m}) + [Process(node, Deliver(m, 0))];
  }

  lemma {:induction false} HearingStores(sys: System, run: seq<Action>, node: NodeId, ms: set<Message>)
    requires OnlyHeard(After(sys, run), node, {}) && ms <= After(sys, run).sent && forall m :: m in ms ==> m.Sync?
    ensures var after := After(sys, run + Hearing(node, ms));
            OnlyHeard(after, node, ms) && after.sent == After(sys, run).sent
  {
    if ms == {} {
      assert run + [] == run;
    } else {
      var m := HearingSplits(run, node, ms);
      HearingStores(sys, run, node, ms - {m});
      HearOne(sys, run + Hearing(node, ms - {m}), node, ms - {m}, m);
    }
  }

  /** `node`, having heard `syncs`, executes its first request. */
  lemma RequestTaken(sys: System, run: seq<Action>, node: NodeId, syncs: set<Message>)
    requires sys.cfg.WellFormed() && OnlyHeard(After(sys, run), node, syncs)
    ensures var before, after := After(sys, run), After(sys, run + Offer(node, Request(), 0));
            && node in after.replicas && after.replicas[node].st == Final(sys.cfg, node, syncs)
            && (forall q :: q in before.replicas && q != node ==>
                  q in after.replicas && after.replicas[q] == before.replicas[q])
            && after.sent
               == before.sent + {Request()} + Emitted(FastOut(sys.cfg, node) + GuardOut(sys.cfg, node, syncs))
  {
    OfferTaken(sys, run, node, Request(), 0);
    RequestHandled(sys.cfg, node, syncs);
    var out := FastOut(sys.cfg, node) + GuardOut(sys.cfg, node, syncs);
    assert [] + out == out;
  }

  /** Each of `nodes` executes its first request. */
  ghost function Executing(nodes: set<NodeId>): seq<Action> {
    if nodes == {} then []
    else
      var q :| q in nodes;
      Executing(nodes - {q}) + Offer(q, Request(), 0)
  }

  lemma ExecuteOne(sys: System, run: seq<Action>, q: NodeId)
    requires sys.cfg.WellFormed() && OnlyHeard(After(sys, run), q, {})
    ensures var before, after := After(sys, run), After(sys, run + Offer(q, Request(), 0));
            && before.sent + {Sync(q, 0, 0, ZERO_HASH, 0)} <= after.sent
            && forall r, syncs :: r != q && OnlyHeard(before, r, syncs) ==> OnlyHeard(after, r, syncs)
  {
    RequestTaken(sys, run, q, {});
    var out := FastOut(sys.cfg, q) + GuardOut(sys.cfg, q, {});
    assert out[1].message in Emitted(out);
  }

  function OwnSync(q: NodeId): Message {
    Sync(q, 0, 0, ZERO_HASH, 0)
  }

  /** Then their SYNCs exist, and the other replicas have done nothing. */
  lemma {:induction false} ExecutingSyncs(sys: System, nodes: set<NodeId>)
    requires sys.cfg.WellFormed() && nodes <= sys.Correct()
    ensures forall q :: q in nodes ==> OwnSync(q) in After(sys, Executing(nodes)).sent
    ensures forall r :: r in sys.Correct() - nodes ==> OnlyHeard(After(sys, Executing(nodes)), r, {})
  {
    if nodes != {} {
      var q :| q in nodes && Executing(nodes) == Executing(nodes - {q}) + Offer(q, Request(), 0);
      ExecutingSyncs(sys, nodes - {q});
      ExecuteOne(sys, Executing(nodes - {q}), q);
    }
  }

  /** `heard` are SYNCs that the `agreeing` replicas send at their first request, or `extra`. */
  ghost predicate Available(heard: set<Message>, agreeing: set<NodeId>, extra: set<Message>, top: Hash) {
    forall m :: m in heard ==> m in extra || (m.Sync? && m.from in agreeing && m == Sync(m.from, 0, 0, top, 0))
  }

  /** Correct `agreeing` replicas execute their first request, Byzantine nodes add `extra`,
      and `node` hears some of these SYNCs before it executes its own first request. */
  ghost function Scenario(node: NodeId, agreeing: set<NodeId>, extra: set<Message>, heard: set<Message>): seq<Action> {
    Executing(agreeing) + Injecting(extra) + Hearing(node, heard) + Offer(node, Request(), 0)
  }

  lemma ScenarioEnds(sys: System, node: NodeId, agreeing: set<NodeId>, extra: set<Message>, heard: set<Message>)
    requires sys.cfg.WellFormed() && agreeing <= sys.Correct() && node in sys.Correct() - agreeing
    requires forall m :: m in extra ==> m.Sync? && m.from in sys.faulty
    requires Available(heard, agreeing, extra, ZERO_HASH)
    ensures var s := After(sys, Scenario(node, agreeing, extra, heard));
            && node in s.replicas && s.replicas[node].st == Final(sys.cfg, node, heard)
            && Emitted(GuardOut(sys.cfg, node, heard)) <= s.sent
            && (agreeing == {} ==>
                  s.sent == extra + {Request()} + Emitted(FastOut(sys.cfg, node) + GuardOut(sys.cfg, node, heard)))
  {
    var run := Executing(agreeing);
    ExecutingSyncs(sys, agreeing);
    InjectingSends(sys, run, extra);
    run := run + Injecting(extra);
    HearingStores(sys, run, node, heard);
    RequestTaken(sys, run + Hearing(node, heard), node, heard);
    EmittedJoins(FastOut(sys.cfg, node), GuardOut(sys.cfg, node, heard));
    if agreeing == {} {
      assert After(sys, Executing(agreeing)).sent == {};
    }
  }

  /** What the guards make of the SYNCs heard, as seen from outside. */
  ghost predicate Judged(cfg: Config, s: State, node: NodeId, heard: set<Message>) {
    && node in s.replicas && s.replicas[node].st.syncMsgs == heard
    && (s.replicas[node].st.phase == if Conflicts(cfg, heard, ZERO_HASH) then CollectingLogs else Speculative)
    && (Conflicts(cfg, heard, ZERO_HASH) ==> ConflictProof(0, 0) in s.sent)
    && (Forms(cfg, heard, ZERO_HASH) ==> Checkpoint(node, 0, 0, ZERO_HASH) in s.sent)
  }

  lemma ScenarioJudged(sys: System, node: NodeId, agreeing: set<NodeId>, extra: set<Message>, heard: set<Message>)
    requires sys.cfg.WellFormed() && agreeing <= sys.Correct() && node in sys.Correct() - agreeing
    requires forall m :: m in extra ==> m.Sync? && m.from in sys.faulty
    requires Available(heard, agreeing, extra, ZERO_HASH)
    ensures Judged(sys.cfg, After(sys, Scenario(node, agreeing, extra, heard)), node, heard)
  {
    var out := GuardOut(sys.cfg, node, heard);
    ScenarioEnds(sys, node, agreeing, extra, heard);
    assert out != [] ==> out[0].message in Emitted(out);
  }

  // Sets of SYNCs.

  /** SYNCs for the first entry with the given hash. */
  predicate AllFor(ms: set<Message>, hash: Hash) {
    forall m :: m in ms ==> m.Sync? && m.round == 0 && m.logIdx == 0 && m.logHash == hash
  }

  /** One SYNC of each node. */
  lemma {:induction false} OneEach(nodes: set<NodeId>, hash: Hash) returns (ms: set<Message>)
    ensures AllFor(ms, hash) && |ms| == |nodes| && Senders(ms) == nodes
    ensures forall m :: m in ms ==> m.from in nodes && m == Sync(m.from, 0, 0, hash, 0)
    decreases |nodes|
  {
    ms := {};
    if nodes != {} {
      var q :| q in nodes;
      var rest := OneEach(nodes - {q}, hash);
      var m := Sync(q, 0, 0, hash, 0);
      assert m !in rest by {
        assert q !in Senders(rest);
      }
      ms := rest + {m};
      assert Senders(ms) == Senders(rest) + {q};
    }
  }

  /** `k` SYNCs of one sender, differing in `etaStar` only. */
  lemma {:induction false} Varied(sender: NodeId, k: nat, hash: Hash) returns (ms: set<Message>)
    ensures AllFor(ms, hash) && |ms| == k && Senders(ms) == (if k > 0 then {sender} else {})
    ensures forall m :: m in ms ==> m.from == sender && m.etaStar < k
  {
    ms := {};
    if k > 0 {
      var rest := Varied(sender, k - 1, hash);
      ms := rest + {Sync(sender, 0, 0, hash, k - 1)};
      assert Senders(ms) == Senders(rest) + {sender};
    }
  }

  /** SYNCs of two groups without a common sender count separately. */
  lemma JoinSyncs(a: set<Message>, b: set<Message>)
    requires forall m :: m in a + b ==> m.Authored()
    requires Senders(a) !! Senders(b)
    ensures |a + b| == |a| + |b| && Senders(a + b) == Senders(a) + Senders(b)
    ensures |Senders(a + b)| == |Senders(a)| + |Senders(b)|
  {
    forall m | m in a ensures m !in b {
      assert m.from in Senders(a);
    }
    assert |Senders(a) + Senders(b)| == |Senders(a)| + |Senders(b)|;
  }

  lemma SeenVotes(agree: set<Message>, differ: set<Message>, top: Hash, other: Hash)
    requires AllFor(agree, top) && AllFor(differ, other) && top != other
    ensures SyncVotes(agree + differ, 0, 0) == agree + differ
    ensures MatchingSyncs(agree + differ, 0, 0, top) == agree
  {
  }

  /** What the guards see of agreeing and dissenting SYNCs of different senders. */
  lemma SeenSyncs(agree: set<Message>, differ: set<Message>, top: Hash, other: Hash) returns (heard: set<Message>)
    requires AllFor(agree, top) && AllFor(differ, other) && top != other && Senders(agree) !! Senders(differ)
    ensures heard == agree + differ && MatchingSyncs(heard, 0, 0, top) == agree
    ensures SyncVotes(heard, 0, 0) == heard && |heard| == |agree| + |differ|
    ensures SyncSenders(heard, 0, 0) == Senders(agree) + Senders(differ)
    ensures |SyncSenders(heard, 0, 0)| == |Senders(agree)| + |Senders(differ)|
    ensures Dissent(heard, 0, 0, top) == |Senders(differ)|
  {
    heard := agree + differ;
    SeenVotes(agree, differ, top, other);
    JoinSyncs(agree, differ);
  }

  // What goes wrong.

  lemma EarlySyncs(cfg: Config, agreeing: set<NodeId>, byz: NodeId, top: Hash, other: Hash)
      returns (extra: set<Message>, heard: set<Message>)
    requires cfg.WellFormed() && other != top && agreeing <= cfg.Nodes() && byz in cfg.Nodes() && byz !in agreeing
    requires |agreeing| + 1 >= cfg.n - cfg.f && |agreeing| < cfg.n - cfg.p && cfg.p >= 1
    ensures Conflicts(cfg, heard, top) && SyncSenders(heard, 0, 0) == agreeing + {byz} && OnePerSender(heard)
    ensures Completable(cfg, heard, 0, 0, top)
    ensures Available(heard, agreeing, extra, top) && forall m :: m in extra ==> m.Sync? && m.from == byz
  {
    var agree := OneEach(agreeing, top);
    extra := OneEach({byz}, other);
    heard := SeenSyncs(agree, extra, top, other);
    SendersVersusMessages(heard);
    DissentVersusReach(cfg, heard, 0, 0, top);
  }

  /** The conflict guard fires too early: with `n - f` SYNCs of different senders heard, one of
      them dissenting, the replica proves a conflict and enters REPAIR, although the replicas
      not yet heard could still complete the checkpoint. */
  lemma EarlyConflict(sys: System, node: NodeId, agreeing: set<NodeId>, byz: NodeId, other: Hash)
      returns (run: seq<Action>)
    requires other != ZERO_HASH
    requires sys.WellFormed() && agreeing <= sys.Correct() && node in sys.Correct() - agreeing && byz in sys.faulty
    requires |agreeing| + 1 >= sys.cfg.n - sys.cfg.f && |agreeing| < sys.cfg.n - sys.cfg.p && sys.cfg.p >= 1
    ensures var s := After(sys, run);
            && node in s.replicas && s.replicas[node].st.phase.CollectingLogs? && ConflictProof(0, 0) in s.sent
            && SyncSenders(s.replicas[node].st.syncMsgs, 0, 0) == agreeing + {byz}
            && OnePerSender(s.replicas[node].st.syncMsgs)
            && Completable(sys.cfg, s.replicas[node].st.syncMsgs, 0, 0, ZERO_HASH)
  {
    var extra, heard := EarlySyncs(sys.cfg, agreeing, byz, ZERO_HASH, other);
    run := Scenario(node, agreeing, extra, heard);
    ScenarioJudged(sys, node, agreeing, extra, heard);
  }

  /** The default configuration: six replicas, f = 1, p = 1. */
  function SixNodes(): System {
    System(Config(6, 1, 1, ["r0", "r1", "r2", "r3", "r4", "r5"], e => ZERO_HASH), {"r4"})
  }

  lemma SixNodesDistinct()
    ensures SixNodes().WellFormed() && |{"r0", "r1", "r2", "r3"}| == 4
    ensures {"r0", "r1", "r2", "r3"} <= SixNodes().Correct() && "r5" in SixNodes().Correct() - {"r0", "r1", "r2", "r3"}
  {
    var nodes := SixNodes().cfg.nodesOrdered;
    assert forall i :: 0 <= i < 6 ==> nodes[i][1] == "012345"[i];
    assert nodes[0] == "r0" && nodes[1] == "r1" && nodes[2] == "r2" && nodes[3] == "r3" && nodes[4] == "r4"
        && nodes[5] == "r5";
    assert {"r0", "r1", "r2", "r3"} == {nodes[0], nodes[1], nodes[2], nodes[3]};
  }

  lemma EarlyConflictByDefault() returns (run: seq<Action>)
    ensures var s := After(SixNodes(), run);
            && "r5" in s.replicas && s.replicas["r5"].st.phase.CollectingLogs? && ConflictProof(0, 0) in s.sent
            && SyncSenders(s.replicas["r5"].st.syncMsgs, 0, 0) == {"r0", "r1", "r2", "r3"} + {"r4"}
            && OnePerSender(s.replicas["r5"].st.syncMsgs)
            && Completable(SixNodes().cfg, s.replicas["r5"].st.syncMsgs, 0, 0, ZERO_HASH)
  {
    SixNodesDistinct();
    assert FilledHash(1)[0] != ZERO_HASH[0];
    run := EarlyConflict(SixNodes(), "r5", {"r0", "r1", "r2", "r3"}, "r4", FilledHash(1));
  }

  lemma VariedDissent(cfg: Config, byz: NodeId, top: Hash, other: Hash) returns (heard: set<Message>)
    requires other != top && cfg.WellFormed() && byz in cfg.Nodes() && 1 <= cfg.p < cfg.n
    ensures Conflicts(cfg, heard, top) && SyncSenders(heard, 0, 0) == {byz} && |SyncVotes(heard, 0, 0)| == cfg.n - cfg.f
    ensures MatchingSyncs(heard, 0, 0, top) == {} && Completable(cfg, heard, 0, 0, top)
    ensures forall m :: m in heard ==> m.Sync? && m.from == byz
  {
    var differ := Varied(byz, cfg.n - cfg.f, other);
    heard := SeenSyncs({}, differ, top, other);
    DissentVersusReach(cfg, heard, 0, 0, top);
  }

  /** One Byzantine sender alone makes the guard fire, by varying `eta_star`: `n - f` stored
      SYNCs dissent, and the other replicas could still complete the checkpoint. */
  lemma OneSenderProvesAConflict(sys: System, node: NodeId, byz: NodeId, other: Hash) returns (run: seq<Action>)
    requires other != ZERO_HASH
    requires sys.WellFormed() && node in sys.Correct() && byz in sys.faulty && 1 <= sys.cfg.p < sys.cfg.n
    ensures var s := After(sys, run);
            && node in s.replicas && s.replicas[node].st.phase.CollectingLogs? && ConflictProof(0, 0) in s.sent
            && SyncSenders(s.replicas[node].st.syncMsgs, 0, 0) == {byz}
            && |SyncVotes(s.replicas[node].st.syncMsgs, 0, 0)| == sys.cfg.n - sys.cfg.f
            && MatchingSyncs(s.replicas[node].st.syncMsgs, 0, 0, ZERO_HASH) == {}
            && Completable(sys.cfg, s.replicas[node].st.syncMsgs, 0, 0, ZERO_HASH)
  {
    var heard := VariedDissent(sys.cfg, byz, ZERO_HASH, other);
    run := Scenario(node, {}, heard, heard);
    ScenarioJudged(sys, node, {}, heard, heard);
  }

  /** Agreeing and dissenting SYNCs, and a sender whose repeated SYNCs alone meet the fast
      quorum. */
  lemma HidingSyncs(cfg: Config, agreeing: set<NodeId>, dissenters: set<NodeId>, byz: NodeId, top: Hash, other: Hash)
      returns (extra: set<Message>, heard: set<Message>)
    requires other != top && cfg.p < cfg.n && byz !in agreeing + dissenters && agreeing !! dissenters
    ensures Forms(cfg, heard, top) && SyncSenders(heard, 0, 0) == agreeing + {byz} + dissenters
    ensures |SyncSenders(heard, 0, 0)| == |agreeing| + 1 + |dissenters|
    ensures Dissent(heard, 0, 0, top) == |dissenters|
    ensures Available(heard, agreeing, extra, top)
    ensures forall m :: m in extra ==> m.Sync? && (m.from == byz || m.from in dissenters)
  {
    var agree := OneEach(agreeing, top);
    var varied := Varied(byz, cfg.n - cfg.p, top);
    var differ := OneEach(dissenters, other);
    JoinSyncs(agree, varied);
    heard := SeenSyncs(agree + varied, differ, top, other);
    extra := varied + differ;
  }

  /** The guard can also stay silent: `p + 1` dissenting senders put the checkpoint out of
      reach, any number of correct replicas has been heard, but one sender's repeated SYNCs
      hide the conflict, and the replica even announces the checkpoint. */
  lemma OneSenderHidesAConflict(sys: System, node: NodeId, agreeing: set<NodeId>, dissenters: set<NodeId>, byz: NodeId,
                                other: Hash) returns (run: seq<Action>)
    requires other != ZERO_HASH
    requires sys.WellFormed() && agreeing <= sys.Correct() && node in sys.Correct() - agreeing
    requires dissenters <= sys.faulty && byz in sys.faulty - dissenters && |dissenters| == sys.cfg.p + 1
    ensures var s := After(sys, run);
            && node in s.replicas && s.replicas[node].st.phase.Speculative?
            && Checkpoint(node, 0, 0, ZERO_HASH) in s.sent
            && |SyncSenders(s.replicas[node].st.syncMsgs, 0, 0)| == |agreeing| + sys.cfg.p + 2
            && !Completable(sys.cfg, s.replicas[node].st.syncMsgs, 0, 0, ZERO_HASH)
  {
    SubsetCard(dissenters + {byz}, sys.faulty);
    var extra, heard := HidingSyncs(sys.cfg, agreeing, dissenters, byz, ZERO_HASH, other);
    run := Scenario(node, agreeing, extra, heard);
    ScenarioJudged(sys, node, agreeing, extra, heard);
    DissentVersusReach(sys.cfg, heard, 0, 0, ZERO_HASH);
  }

  lemma OwnSyncs(cfg: Config, node: NodeId, heard: set<Message>, m: Message)
    requires m in Emitted(FastOut(cfg, node) + GuardOut(cfg, node, heard)) && m.Sync?
    ensures m.from == node
  {
    assert forall e :: e in GuardOut(cfg, node, heard) ==> !e.message.Sync?;
    assert forall e :: e in FastOut(cfg, node) && e.message.Sync? ==> e.message.from == node;
  }

  /** If no other replica has executed anything, all SYNCs are the added ones and the node's. */
  lemma SyncAuthors(sys: System, node: NodeId, extra: set<Message>, heard: set<Message>, m: Message)
    requires sys.cfg.WellFormed() && node in sys.Correct() && Available(heard, {}, extra, ZERO_HASH)
    requires forall x :: x in extra ==> x.Sync? && x.from in sys.faulty
    requires m in After(sys, Scenario(node, {}, extra, heard)).sent && m.Sync?
    ensures m in extra || m.from == node
  {
    ScenarioEnds(sys, node, {}, extra, heard);
    if m in Emitted(FastOut(sys.cfg, node) + GuardOut(sys.cfg, node, heard)) {
      OwnSyncs(sys.cfg, node, heard, m);
    }
  }

  lemma VariedForms(cfg: Config, byz: NodeId, top: Hash) returns (heard: set<Message>)
    requires cfg.p < cfg.n
    ensures Forms(cfg, heard, top) && Senders(heard) == {byz} && forall m :: m in heard ==> m.Sync? && m.from == byz
  {
    heard := Varied(byz, cfg.n - cfg.p, top);
    assert MatchingSyncs(heard, 0, 0, top) == heard;
  }

  /** One Byzantine sender alone makes a correct replica announce a checkpoint. */
  lemma OneSenderFormsACheckpoint(sys: System, node: NodeId, byz: NodeId) returns (run: seq<Action>)
    requires sys.WellFormed() && node in sys.Correct() && byz in sys.faulty && sys.cfg.p < sys.cfg.n
    ensures var s := After(sys, run);
            && Checkpoint(node, 0, 0, ZERO_HASH) in s.sent
            && node in s.replicas && Senders(s.replicas[node].st.syncMsgs) == {byz}
            && forall m :: m in s.sent && m.Sync? ==> m.from == byz || m.from == node
  {
    var heard := VariedForms(sys.cfg, byz, ZERO_HASH);
    run := Scenario(node, {}, heard, heard);
    forall m | m in After(sys, run).sent && m.Sync? ensures m.from == byz || m.from == node {
      SyncAuthors(sys, node, heard, heard, m);
    }
    ScenarioJudged(sys, node, {}, heard, heard);
  }
}
