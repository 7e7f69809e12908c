/** Alignment against its documented purpose: the guard compares no hashes, so a replica that
    has not diverged aligns as well, and loses the part of its log above the checkpoint. */
module AlignmentRuns {
  import opened Types
  import opened Dispatch
  import opened Counting
  import opened Cluster
  import opened Agreement
  import opened Schedules
  import opened FirstEntryRuns
  import Alignment
  import Storage

  // The exact condition.

  /** Stored CHECKPOINTs at the replica's checkpoint that agree with it, and that do not. */
  function Agreeing(st: ReplicaState): set<Message> {
    set m | m in CheckpointVotes(st.chkptMsgs, st.round, st.chkptIdx) && m.logHash == st.chkptHash
  }

  function Diverging(st: ReplicaState): set<Message> {
    set m | m in CheckpointVotes(st.chkptMsgs, st.round, st.chkptIdx) && m.logHash != st.chkptHash
  }

  /** A Speculative replica aligns without `f + 1` diverging CHECKPOINTs exactly if the agreeing
      ones make up for the missing ones. */
  lemma AlignsWithoutDivergence(cfg: Config, st: ReplicaState)
    requires st.phase.Speculative?
    ensures (Alignment.CanEnterAlign(cfg, st).Some? && |Diverging(st)| < cfg.FPlus1())
            <==> |Diverging(st)| < cfg.FPlus1() <= |Diverging(st)| + |Agreeing(st)|
  {
    assert CheckpointVotes(st.chkptMsgs, st.round, st.chkptIdx) == Agreeing(st) + Diverging(st);
    assert Agreeing(st) !! Diverging(st);
  }

  /** CHECKPOINTs of the round and index with another hash. */
  function OtherCheckpoints(ms: set<Message>, round: nat, idx: nat, hash: Hash): set<Message> {
    set m | m in ms && m.Checkpoint? && m.round == round && m.logIdx == idx && m.logHash != hash
  }

  /** Under the conditions of checkpoint agreement, a correct replica that announced a
      checkpoint can only meet diverging CHECKPOINTs of Byzantine senders: at most `f` of them,
      so the documented condition is never met. */
  lemma DivergenceIsByzantine(sys: System, run: seq<Action>, a: Message)
    requires sys.WellFormed()
    requires a in After(sys, run).sent && a.Checkpoint? && a.from !in sys.faulty
    requires sys.cfg.n > |sys.faulty + AlignedIn(After(sys, run), a.round)| + 2 * sys.cfg.p
    requires SingleByzantineSyncs(sys, After(sys, run).sent, a.round, a.logIdx)
    ensures var others := OtherCheckpoints(After(sys, run).sent, a.round, a.logIdx, a.logHash);
            Senders(others) <= sys.faulty && |Senders(others)| <= sys.cfg.f
  {
    var others := OtherCheckpoints(After(sys, run).sent, a.round, a.logIdx, a.logHash);
    forall m | m in others ensures m.from in sys.faulty {
      if m.from !in sys.faulty { CheckpointAgreement(sys, run, a, m); }
    }
    SubsetCard(Senders(others), sys.faulty);
  }

  // A run without faults.

  function Entry0(): KvEntry {
    KvEntry(0, [], ZERO_HASH)
  }

  function Entry1(cfg: Config): KvEntry {
    KvEntry(1, [], cfg.entryHash(Entry0()))
  }

  function Request2(): Message {
    Speculate("", 0, ZERO_HASH, 1)
  }

  /** CHECKPOINTs for index 0 with the initial checkpoint's hash. */
  predicate AllInitial(ms: set<Message>) {
    forall m :: m in ms ==> m.Checkpoint? && m == Checkpoint(m.from, 0, 0, ZERO_HASH)
  }

  /** A replica that executed two requests and stored `chkpts`. */
  function Twice(cfg: Config, z: NodeId, chkpts: set<Message>): ReplicaState {
    InitialState(z).(
      store := map[0 := Entry0(), 1 := Entry1(cfg)],
      kvSize := 2,
      chkptMsgs := chkpts,
      phase := if |chkpts| >= cfg.FPlus1() then Aligning else Speculative)
  }

  lemma NoSyncs(round: nat, idx: nat, hash: Hash)
    ensures MatchingSyncs({}, round, idx, hash) == {} && SyncVotes({}, round, idx) == {}
  {
  }

  // An executed replica hears SYNCs.

  /** SYNCs of replicas that agree on the first entry. */
  predicate AllOwn(ms: set<Message>) {
    forall m :: m in ms ==> m.Sync? && m == OwnSync(m.from)
  }

  lemma SyncCounts(cfg: Config, q: NodeId, syncs: set<Message>, m: Message)
    requires AllOwn(syncs + {m})
    ensures var r := Run(cfg, Executed(cfg, q, syncs), ReceivingSync(m));
            && r.st == Executed(cfg, q, syncs + {m})
            && (|syncs + {m}| >= cfg.FastQuorum() ==> r.out == [Broadcast(Checkpoint(q, 0, 0, ZERO_HASH))])
  {
    ExecutedTop(cfg, q, syncs);
    assert m in syncs + {m};
    assert MatchingSyncs(syncs + {m}, 0, 0, ZERO_HASH) == syncs + {m};
  }

  /** If `p >= f`, agreeing SYNCs never look like a conflict. */
  lemma AgreementIsNoConflict(cfg: Config, q: NodeId, syncs: set<Message>)
    requires AllOwn(syncs) && cfg.p >= cfg.f
    ensures Run(cfg, Executed(cfg, q, syncs), CheckingConflict).st == Executed(cfg, q, syncs)
  {
    ExecutedTop(cfg, q, syncs);
    assert MatchingSyncs(syncs, 0, 0, ZERO_HASH) == syncs && SyncVotes(syncs, 0, 0) == syncs;
  }

  lemma SyncEarly(cfg: Config, q: NodeId, syncs: set<Message>, m: Message)
    requires cfg.WellFormed() && cfg.p >= cfg.f && AllOwn(syncs + {m})
    ensures var r := RunEach(cfg, Step(Executed(cfg, q, syncs), []), EarlyCalls(m));
            && r.st == Executed(cfg, q, syncs + {m})
            && (|syncs + {m}| >= cfg.FastQuorum() ==> Broadcast(Checkpoint(q, 0, 0, ZERO_HASH)) in r.out)
  {
    var s, before := Step(Executed(cfg, q, syncs), []), [Speculating(m), SyncThreshold];
    assert m in syncs + {m};
    SyncCounts(cfg, q, syncs, m);
    AgreementIsNoConflict(cfg, q, syncs + {m});
    NothingStored();
    OneMoves(cfg, s, before, ReceivingSync(m), EarlyRest(m));
    assert EarlyCalls(m) == before + [ReceivingSync(m)] + EarlyRest(m);
  }

  /** The handlers behind ignore the message. */
  lemma ExecutedRest(cfg: Config, q: NodeId, syncs: set<Message>, m: Message, out: seq<Effect>)
    requires cfg.WellFormed() && m.Sync?
    ensures var r := RunEach(cfg, RunEach(cfg, Step(Executed(cfg, q, syncs), out), MiddleCalls(m)), LateCalls(m, 0));
            r.st == Executed(cfg, q, syncs) && forall e :: e in out ==> e in r.out
  {
    var s := Step(Executed(cfg, q, syncs), out);
    NothingStored();
    StillCalls(cfg, s, MiddleCalls(m));
    StillCalls(cfg, RunEach(cfg, s, MiddleCalls(m)), LateCalls(m, 0));
  }

  /** An executed replica stores an agreeing SYNC, and announces the checkpoint once it has
      `n - p` of them. */
  lemma SyncTaken(cfg: Config, q: NodeId, syncs: set<Message>, m: Message)
    requires cfg.WellFormed() && cfg.p >= cfg.f && AllOwn(syncs + {m})
    ensures var r := RunEach(cfg, Step(Executed(cfg, q, syncs), []), Program(Deliver(m, 0)));
            && r.st == Executed(cfg, q, syncs + {m})
            && (|syncs + {m}| >= cfg.FastQuorum() ==> Broadcast(Checkpoint(q, 0, 0, ZERO_HASH)) in r.out)
  {
    assert m in syncs + {m};
    var s := Step(Executed(cfg, q, syncs), []);
    ProgramParts(cfg, s, m, 0);
    SyncEarly(cfg, q, syncs, m);
    ExecutedRest(cfg, q, syncs + {m}, m, RunEach(cfg, s, EarlyCalls(m)).out);
  }

  // It answers a STATE-REQUEST.

  lemma RequestEarly(cfg: Config, q: NodeId, syncs: set<Message>, m: Message)
    requires cfg.WellFormed() && cfg.p >= cfg.f && AllOwn(syncs) && m.StateRequest?
    ensures RunEach(cfg, Step(Executed(cfg, q, syncs), []), EarlyCalls(m)).st == Executed(cfg, q, syncs)
  {
    ExecutedTop(cfg, q, syncs);
    AgreementIsNoConflict(cfg, q, syncs);
    NothingStored();
    StillCalls(cfg, Step(Executed(cfg, q, syncs), []), EarlyCalls(m));
  }

  lemma RequestRest(cfg: Config, q: NodeId, syncs: set<Message>, m: Message, out: seq<Effect>)
    requires cfg.WellFormed() && m.StateRequest?
    ensures var r := RunEach(cfg, RunEach(cfg, Step(Executed(cfg, q, syncs), out), MiddleCalls(m)), LateCalls(m, 0));
            r.st == Executed(cfg, q, syncs) && Send(m.from, StateReply(q, 0, ZERO_HASH)) in r.out
  {
    var s := Step(Executed(cfg, q, syncs), out);
    NothingStored();
    StillCalls(cfg, s, MiddleCalls(m));
    assert AnsweringRequest(m) in MiddleCalls(m);
    assert Run(cfg, s.st, AnsweringRequest(m)).out[0] == Send(m.from, StateReply(q, 0, ZERO_HASH));
    StillCalls(cfg, RunEach(cfg, s, MiddleCalls(m)), LateCalls(m, 0));
  }

  lemma RequestAnswered(cfg: Config, q: NodeId, syncs: set<Message>, m: Message)
    requires cfg.WellFormed() && cfg.p >= cfg.f && AllOwn(syncs) && m.StateRequest?
    ensures var r := RunEach(cfg, Step(Executed(cfg, q, syncs), []), Program(Deliver(m, 0)));
            r.st == Executed(cfg, q, syncs) && Send(m.from, StateReply(q, 0, ZERO_HASH)) in r.out
  {
    var s := Step(Executed(cfg, q, syncs), []);
    ProgramParts(cfg, s, m, 0);
    RequestEarly(cfg, q, syncs, m);
    RequestRest(cfg, q, syncs, m, RunEach(cfg, s, EarlyCalls(m)).out);
  }

  // The other replica executes a second request, and then hears CHECKPOINTs.

  lemma SecondExecution(cfg: Config, z: NodeId)
    requires cfg.WellFormed()
    ensures Run(cfg, Executed(cfg, z, {}), Speculating(Request2())).st == Twice(cfg, z, {})
  {
    assert map[0 := Entry0()][1 := Entry1(cfg)] == map[0 := Entry0(), 1 := Entry1(cfg)];
  }

  lemma TwiceEarly(cfg: Config, z: NodeId)
    requires cfg.WellFormed() && cfg.p < cfg.n
    ensures RunEach(cfg, Step(Executed(cfg, z, {}), []), EarlyCalls(Request2())).st == Twice(cfg, z, {})
  {
    var m := Request2();
    SecondExecution(cfg, z);
    NothingStored();
    NoSyncs(0, 1, Storage.TopHashOf(Twice(cfg, z, {}).store));
    TimeoutVotesEmpty(0, 1);
    OneMoves(cfg, Step(Executed(cfg, z, {}), []), [], Speculating(m), EarlyCalls(m)[1..]);
    assert EarlyCalls(m) == [] + [Speculating(m)] + EarlyCalls(m)[1..];
  }

  lemma TimeoutVotesEmpty(round: nat, idx: nat)
    ensures TimeoutVotes({}, round, idx) == {}
  {
  }

  lemma TwiceRest(cfg: Config, z: NodeId, chkpts: set<Message>, m: Message, out: seq<Effect>)
    requires cfg.WellFormed() && (m.Speculate? || m.Checkpoint?)
    ensures var r := RunEach(cfg, RunEach(cfg, Step(Twice(cfg, z, chkpts), out), MiddleCalls(m)), LateCalls(m, 0));
            r.st == Twice(cfg, z, chkpts) && forall e :: e in out ==> e in r.out
  {
    var s := Step(Twice(cfg, z, chkpts), out);
    NothingStored();
    StillCalls(cfg, s, MiddleCalls(m));
    StillCalls(cfg, RunEach(cfg, s, MiddleCalls(m)), LateCalls(m, 0));
  }

  lemma SecondRequestTaken(cfg: Config, z: NodeId)
    requires cfg.WellFormed() && cfg.p < cfg.n
    ensures RunEach(cfg, Step(Executed(cfg, z, {}), []), Program(Deliver(Request2(), 0))).st == Twice(cfg, z, {})
  {
    var s := Step(Executed(cfg, z, {}), []);
    ProgramParts(cfg, s, Request2(), 0);
    TwiceEarly(cfg, z);
    TwiceRest(cfg, z, {}, Request2(), RunEach(cfg, s, EarlyCalls(Request2())).out);
  }

  lemma CheckpointCounts(cfg: Config, z: NodeId, chkpts: set<Message>, m: Message)
    requires cfg.WellFormed() && |chkpts| <= cfg.f && AllInitial(chkpts + {m})
    ensures var r := Run(cfg, Twice(cfg, z, chkpts), ReceivingCheckpoint(m));
            && r.st == Twice(cfg, z, chkpts + {m})
            && (|chkpts + {m}| >= cfg.FPlus1() ==> r.out == [Broadcast(StateRequest(z, 0))])
  {
    assert m in chkpts + {m};
    assert CheckpointVotes(chkpts + {m}, 0, 0) == chkpts + {m};
  }

  lemma CheckpointEarly(cfg: Config, z: NodeId, chkpts: set<Message>, m: Message)
    requires cfg.WellFormed() && cfg.p < cfg.n && |chkpts| <= cfg.f && AllInitial(chkpts + {m})
    ensures var r := RunEach(cfg, Step(Twice(cfg, z, chkpts), []), EarlyCalls(m));
            && r.st == Twice(cfg, z, chkpts + {m})
            && (|chkpts + {m}| >= cfg.FPlus1() ==> Broadcast(StateRequest(z, 0)) in r.out)
  {
    var before, after := [Speculating(m), SyncThreshold, ReceivingSync(m)], [CheckingConflict, ReceivingTimeout(m)];
    assert m in chkpts + {m};
    CheckpointCounts(cfg, z, chkpts, m);
    NoSyncs(0, 1, Storage.TopHashOf(Twice(cfg, z, chkpts).store));
    TimeoutVotesEmpty(0, 1);
    OneMoves(cfg, Step(Twice(cfg, z, chkpts), []), before, ReceivingCheckpoint(m), after);
    assert EarlyCalls(m) == before + [ReceivingCheckpoint(m)] + after;
  }

  lemma CheckpointTaken(cfg: Config, z: NodeId, chkpts: set<Message>, m: Message)
    requires cfg.WellFormed() && cfg.p < cfg.n && |chkpts| <= cfg.f && AllInitial(chkpts + {m})
    ensures var r := RunEach(cfg, Step(Twice(cfg, z, chkpts), []), Program(Deliver(m, 0)));
            && r.st == Twice(cfg, z, chkpts + {m})
            && (|chkpts + {m}| >= cfg.FPlus1() ==> Broadcast(StateRequest(z, 0)) in r.out)
  {
    var s := Step(Twice(cfg, z, chkpts), []);
    assert m in chkpts + {m};
    ProgramParts(cfg, s, m, 0);
    CheckpointEarly(cfg, z, chkpts, m);
    TwiceRest(cfg, z, chkpts + {m}, m, RunEach(cfg, s, EarlyCalls(m)).out);
  }

  /** The STATE-REPLY makes it drop the second entry. */
  lemma ReplyTaken(cfg: Config, z: NodeId, chkpts: set<Message>, m: Message)
    requires cfg.WellFormed() && |chkpts| >= cfg.FPlus1() && m.StateReply?
    ensures RunEach(cfg, Step(Twice(cfg, z, chkpts), []), Program(Deliver(m, 0))).st
            == Alignment.AdoptState(cfg, Twice(cfg, z, chkpts), m.chkptIdx).st
  {
    var s := Step(Twice(cfg, z, chkpts), []);
    ProgramParts(cfg, s, m, 0);
    StillCalls(cfg, s, EarlyCalls(m));
    ReplyRest(cfg, z, chkpts, m, RunEach(cfg, s, EarlyCalls(m)).out);
  }

  lemma ReplyRest(cfg: Config, z: NodeId, chkpts: set<Message>, m: Message, out: seq<Effect>)
    requires |chkpts| >= cfg.FPlus1() && m.StateReply?
    ensures RunEach(cfg, RunEach(cfg, Step(Twice(cfg, z, chkpts), out), MiddleCalls(m)), LateCalls(m, 0)).st
            == Alignment.AdoptState(cfg, Twice(cfg, z, chkpts), m.chkptIdx).st
  {
    var s := Step(Twice(cfg, z, chkpts), out);
    OneMoves(cfg, s, MiddleCalls(m)[..2], AdoptingState(m), []);
    assert MiddleCalls(m) == MiddleCalls(m)[..2] + [AdoptingState(m)] + [];
    StillCalls(cfg, RunEach(cfg, s, MiddleCalls(m)), LateCalls(m, 0));
  }

  // Runs.

  lemma Execute(sys: System, run: seq<Action>, q: NodeId) returns (next: seq<Action>)
    requires sys.WellFormed() && sys.cfg.p < sys.cfg.n && At(sys, run, q, Idle(q, {}))
    ensures Moved(sys, run, next, q, Executed(sys.cfg, q, {})) && OwnSync(q) in After(sys, next).sent
  {
    RequestHandled(sys.cfg, q, {});
    NoSyncs(0, 0, ZERO_HASH);
    var s := Step(Executed(sys.cfg, q, {}), FastOut(sys.cfg, q));
    assert FastOut(sys.cfg, q) + GuardOut(sys.cfg, q, {}) == FastOut(sys.cfg, q);
    next := Move(sys, run, q, Request(), 0, Idle(q, {}), s);
    assert s.out[1].message in Emitted(s.out);
  }

  lemma {:induction false} ExecuteAll(sys: System, nodes: set<NodeId>) returns (run: seq<Action>)
    requires sys.WellFormed() && sys.cfg.p < sys.cfg.n && nodes <= sys.Correct()
    ensures forall q :: q in nodes ==> At(sys, run, q, Executed(sys.cfg, q, {}))
    ensures forall q :: q in nodes ==> OwnSync(q) in After(sys, run).sent
    ensures forall q :: q in sys.Correct() - nodes ==> At(sys, run, q, Idle(q, {}))
    decreases |nodes|
  {
    if nodes == {} {
      run := [];
    } else {
      var q :| q in nodes;
      var rest := ExecuteAll(sys, nodes - {q});
      run := Execute(sys, rest, q);
    }
  }

  /** An executed replica hears `syncs`. */
  lemma {:induction false} HearSyncs(sys: System, run: seq<Action>, q: NodeId, syncs: set<Message>)
      returns (next: seq<Action>)
    requires sys.WellFormed() && sys.cfg.p >= sys.cfg.f && At(sys, run, q, Executed(sys.cfg, q, {}))
    requires AllOwn(syncs) && syncs <= After(sys, run).sent
    ensures At(sys, next, q, Executed(sys.cfg, q, syncs)) && OnlyMoved(sys, run, next, {q})
    ensures |syncs| >= sys.cfg.FastQuorum() && syncs != {} ==> Checkpoint(q, 0, 0, ZERO_HASH) in After(sys, next).sent
    decreases |syncs|
  {
    if syncs == {} {
      next := run;
    } else {
      var m :| m in syncs;
      var rest := syncs - {m};
      var mid := HearSyncs(sys, run, q, rest);
      assert rest + {m} == syncs;
      SyncTaken(sys.cfg, q, rest, m);
      var s := RunEach(sys.cfg, Step(Executed(sys.cfg, q, rest), []), Program(Deliver(m, 0)));
      next := Move(sys, mid, q, m, 0, Executed(sys.cfg, q, rest), s);
      if |syncs| >= sys.cfg.FastQuorum() {
        assert Broadcast(Checkpoint(q, 0, 0, ZERO_HASH)).message in Emitted(s.out);
      }
    }
  }

  /** The replica has heard `syncs` and announced the checkpoint. */
  ghost predicate Announced(sys: System, run: seq<Action>, q: NodeId, syncs: set<Message>) {
    At(sys, run, q, Executed(sys.cfg, q, syncs)) && Checkpoint(q, 0, 0, ZERO_HASH) in After(sys, run).sent
  }

  lemma Announce(sys: System, run: seq<Action>, q: NodeId, syncs: set<Message>) returns (next: seq<Action>)
    requires sys.WellFormed() && sys.cfg.p >= sys.cfg.f && At(sys, run, q, Executed(sys.cfg, q, {}))
    requires AllOwn(syncs) && syncs <= After(sys, run).sent && |syncs| >= sys.cfg.FastQuorum() && syncs != {}
    ensures Announced(sys, next, q, syncs) && OnlyMoved(sys, run, next, {q})
    ensures forall r :: r != q && Announced(sys, run, r, syncs) ==> Announced(sys, next, r, syncs)
  {
    next := HearSyncs(sys, run, q, syncs);
  }

  lemma OnlyMovedThen(sys: System, a: seq<Action>, b: seq<Action>, c: seq<Action>, nodes: set<NodeId>, q: NodeId)
    requires OnlyMoved(sys, a, b, nodes - {q}) && OnlyMoved(sys, b, c, {q}) && q in nodes
    ensures OnlyMoved(sys, a, c, nodes)
  {
  }

  /** Each of `nodes` hears `syncs` and announces the checkpoint. */
  lemma {:induction false} AnnounceAll(sys: System, run: seq<Action>, nodes: set<NodeId>, syncs: set<Message>)
      returns (next: seq<Action>)
    requires sys.WellFormed() && sys.cfg.p >= sys.cfg.f
    requires forall q :: q in nodes ==> At(sys, run, q, Executed(sys.cfg, q, {}))
    requires AllOwn(syncs) && syncs <= After(sys, run).sent && |syncs| >= sys.cfg.FastQuorum() && syncs != {}
    ensures forall q :: q in nodes ==> Announced(sys, next, q, syncs)
    ensures OnlyMoved(sys, run, next, nodes)
    decreases |nodes|
  {
    if nodes == {} {
      next := run;
    } else {
      var q :| q in nodes;
      var rest := AnnounceAll(sys, run, nodes - {q}, syncs);
      next := Announce(sys, rest, q, syncs);
      OnlyMovedThen(sys, run, rest, next, nodes, q);
    }
  }

  /** `z` hears CHECKPOINTs. */
  lemma {:induction false} HearCheckpoints(sys: System, run: seq<Action>, z: NodeId, chkpts: set<Message>)
      returns (next: seq<Action>)
    requires sys.WellFormed() && sys.cfg.p < sys.cfg.n && At(sys, run, z, Twice(sys.cfg, z, {}))
    requires AllInitial(chkpts) && chkpts <= After(sys, run).sent && |chkpts| <= sys.cfg.FPlus1()
    ensures At(sys, next, z, Twice(sys.cfg, z, chkpts)) && OnlyMoved(sys, run, next, {z})
    ensures |chkpts| == sys.cfg.FPlus1() ==> StateRequest(z, 0) in After(sys, next).sent
    decreases |chkpts|
  {
    if chkpts == {} {
      next := run;
    } else {
      var m :| m in chkpts;
      var rest := chkpts - {m};
      var mid := HearCheckpoints(sys, run, z, rest);
      assert rest + {m} == chkpts;
      CheckpointTaken(sys.cfg, z, rest, m);
      var s := RunEach(sys.cfg, Step(Twice(sys.cfg, z, rest), []), Program(Deliver(m, 0)));
      next := Move(sys, mid, z, m, 0, Twice(sys.cfg, z, rest), s);
      if |chkpts| == sys.cfg.FPlus1() {
        assert Broadcast(StateRequest(z, 0)).message in Emitted(s.out);
      }
    }
  }

  lemma {:induction false} SomeSyncs(nodes: set<NodeId>, k: nat) returns (syncs: set<Message>)
    requires |nodes| >= k
    ensures |syncs| == k && AllOwn(syncs) && forall m :: m in syncs ==> m.from in nodes
    decreases k
  {
    syncs := {};
    if k > 0 {
      var q :| q in nodes;
      var rest := SomeSyncs(nodes - {q}, k - 1);
      assert OwnSync(q) !in rest;
      syncs := rest + {OwnSync(q)};
    }
  }

  lemma {:induction false} SomeCheckpoints(nodes: set<NodeId>, k: nat) returns (chkpts: set<Message>)
    requires |nodes| >= k
    ensures |chkpts| == k && AllInitial(chkpts) && forall m :: m in chkpts ==> m.from in nodes
    decreases k
  {
    chkpts := {};
    if k > 0 {
      var q :| q in nodes;
      var rest := SomeCheckpoints(nodes - {q}, k - 1);
      assert Checkpoint(q, 0, 0, ZERO_HASH) !in rest;
      chkpts := rest + {Checkpoint(q, 0, 0, ZERO_HASH)};
    }
  }

  /** Everybody executes the same request, and all but `z` form the checkpoint. */
  lemma AllAnnounce(sys: System, z: NodeId) returns (run: seq<Action>, syncs: set<Message>)
    requires sys.WellFormed() && sys.cfg.f <= sys.cfg.p < sys.cfg.n && z in sys.Correct()
    ensures At(sys, run, z, Executed(sys.cfg, z, {})) && AllOwn(syncs)
    ensures forall q :: q in sys.Correct() - {z} ==> Announced(sys, run, q, syncs)
  {
    NodeCount(sys.cfg);
    var first := ExecuteAll(sys, sys.Correct());
    syncs := SomeSyncs(sys.Correct(), sys.cfg.n - sys.cfg.p);
    run := AnnounceAll(sys, first, sys.Correct() - {z}, syncs);
  }

  /** Then `z` executes a second request. */
  lemma ExecuteAgain(sys: System, run: seq<Action>, z: NodeId, syncs: set<Message>) returns (next: seq<Action>)
    requires sys.WellFormed() && sys.cfg.p < sys.cfg.n && At(sys, run, z, Executed(sys.cfg, z, {}))
    ensures At(sys, next, z, Twice(sys.cfg, z, {}))
    ensures forall q :: q != z && Announced(sys, run, q, syncs) ==> Announced(sys, next, q, syncs)
  {
    SecondRequestTaken(sys.cfg, z);
    var s := RunEach(sys.cfg, Step(Executed(sys.cfg, z, {}), []), Program(Deliver(Request2(), 0)));
    next := Move(sys, run, z, Request2(), 0, Executed(sys.cfg, z, {}), s);
  }

  /** `z` aligns. */
  lemma Align(sys: System, run: seq<Action>, z: NodeId, c: NodeId, syncs: set<Message>, chkpts: set<Message>)
      returns (next: seq<Action>)
    requires sys.WellFormed() && sys.cfg.p < sys.cfg.n && At(sys, run, z, Twice(sys.cfg, z, {}))
    requires c != z && Announced(sys, run, c, syncs)
    requires AllInitial(chkpts) && chkpts <= After(sys, run).sent && |chkpts| == sys.cfg.FPlus1()
    ensures At(sys, next, z, Twice(sys.cfg, z, chkpts)) && Announced(sys, next, c, syncs)
    ensures StateRequest(z, 0) in After(sys, next).sent
  {
    next := HearCheckpoints(sys, run, z, chkpts);
  }

  /** `c` answers, and `z` adopts what it says. */
  lemma Adopt(sys: System, run: seq<Action>, z: NodeId, c: NodeId, syncs: set<Message>, chkpts: set<Message>)
      returns (next: seq<Action>)
    requires sys.WellFormed() && sys.cfg.p >= sys.cfg.f && At(sys, run, z, Twice(sys.cfg, z, chkpts))
    requires |chkpts| >= sys.cfg.FPlus1() && c != z && AllOwn(syncs) && Announced(sys, run, c, syncs)
    requires StateRequest(z, 0) in After(sys, run).sent
    ensures At(sys, next, z, Alignment.AdoptState(sys.cfg, Twice(sys.cfg, z, chkpts), 0).st) && run <= next
  {
    var ask, reply := StateRequest(z, 0), StateReply(c, 0, ZERO_HASH);
    RequestAnswered(sys.cfg, c, syncs, ask);
    var answered := RunEach(sys.cfg, Step(Executed(sys.cfg, c, syncs), []), Program(Deliver(ask, 0)));
    var mid := Move(sys, run, c, ask, 0, Executed(sys.cfg, c, syncs), answered);
    assert Send(z, reply).message in Emitted(answered.out);
    ReplyTaken(sys.cfg, z, chkpts, reply);
    var adopted := RunEach(sys.cfg, Step(Twice(sys.cfg, z, chkpts), []), Program(Deliver(reply, 0)));
    next := Move(sys, mid, z, reply, 0, Twice(sys.cfg, z, chkpts), adopted);
  }

  lemma AgreeingAre(cfg: Config, z: NodeId, chkpts: set<Message>)
    requires AllInitial(chkpts)
    ensures Agreeing(Twice(cfg, z, chkpts)) == chkpts && Diverging(Twice(cfg, z, chkpts)) == {}
    ensures |Senders(chkpts)| == |chkpts|
  {
    SendersVersusMessages(chkpts);
  }

  /** What the replica holds when it aligns, and afterwards. */
  lemma EntryLost(cfg: Config, z: NodeId, chkpts: set<Message>)
    requires AllInitial(chkpts) && |chkpts| == cfg.FPlus1()
    ensures var st := Twice(cfg, z, chkpts);
            && st.phase.Aligning? && st.kvSize == 2 && st.store == map[0 := Entry0(), 1 := Entry1(cfg)]
            && Diverging(st) == {} && |Senders(Agreeing(st))| == cfg.FPlus1()
    ensures var st := Alignment.AdoptState(cfg, Twice(cfg, z, chkpts), 0).st;
            st.phase.Speculative? && st.kvSize == 1 && 1 !in st.store
  {
    AgreeingAre(cfg, z, chkpts);
  }

  /** Enough announcements, and one announcer. */
  lemma PickAnnouncements(sys: System, run: seq<Action>, others: set<NodeId>, syncs: set<Message>)
      returns (c: NodeId, chkpts: set<Message>)
    requires forall q :: q in others ==> Announced(sys, run, q, syncs)
    requires |others| >= sys.cfg.FPlus1()
    ensures c in others && Announced(sys, run, c, syncs)
    ensures AllInitial(chkpts) && chkpts <= After(sys, run).sent && |chkpts| == sys.cfg.FPlus1()
  {
    chkpts := SomeCheckpoints(others, sys.cfg.FPlus1());
    c :| c in others;
  }

  lemma OthersCount(sys: System, z: NodeId)
    requires sys.WellFormed() && sys.faulty == {} && z in sys.Correct() && sys.cfg.n >= 2
    ensures |sys.Correct() - {z}| >= sys.cfg.FPlus1()
  {
    NodeCount(sys.cfg);
    assert sys.Correct() == sys.cfg.Nodes();
  }

  lemma ReadyToAlign(sys: System, z: NodeId)
      returns (run: seq<Action>, c: NodeId, syncs: set<Message>, chkpts: set<Message>)
    requires sys.WellFormed() && sys.faulty == {} && sys.cfg.f <= sys.cfg.p < sys.cfg.n && z in sys.Correct()
    requires sys.cfg.n >= 2
    ensures At(sys, run, z, Twice(sys.cfg, z, {})) && AllOwn(syncs) && c != z && Announced(sys, run, c, syncs)
    ensures AllInitial(chkpts) && chkpts <= After(sys, run).sent && |chkpts| == sys.cfg.FPlus1()
  {
    var agreed;
    agreed, syncs := AllAnnounce(sys, z);
    run := ExecuteAgain(sys, agreed, z, syncs);
    OthersCount(sys, z);
    c, chkpts := PickAnnouncements(sys, run, sys.Correct() - {z}, syncs);
  }

  /** A run in which all replicas are correct and agree on the log: after two requests, `z`
      aligns on `f + 1` CHECKPOINTs that all carry the hash of its own checkpoint, and a
      correct replica's STATE-REPLY then makes it drop its second entry. */
  lemma AgreementLosesEntries(sys: System, z: NodeId) returns (aligning: seq<Action>, done: seq<Action>)
    requires sys.WellFormed() && sys.faulty == {} && sys.cfg.f <= sys.cfg.p < sys.cfg.n && z in sys.Correct()
    requires sys.cfg.n >= 2
    ensures z in After(sys, aligning).replicas && z in After(sys, done).replicas && aligning <= done
    ensures var st := After(sys, aligning).replicas[z].st;
            && st.phase.Aligning? && st.kvSize == 2 && st.store == map[0 := Entry0(), 1 := Entry1(sys.cfg)]
            && Diverging(st) == {} && |Senders(Agreeing(st))| == sys.cfg.FPlus1()
    ensures var st := After(sys, done).replicas[z].st;
            st.phase.Speculative? && st.kvSize == 1 && 1 !in st.store
  {
    var run, c, syncs, chkpts := ReadyToAlign(sys, z);
    aligning := Align(sys, run, z, c, syncs, chkpts);
    EntryLost(sys.cfg, z, chkpts);
    done := Adopt(sys, aligning, z, c, syncs, chkpts);
  }
}
