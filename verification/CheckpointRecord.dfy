/** A replica's stored checkpoint is always the one it announced or adopted last, and a
    STATE-REPLY carries exactly that. */
module CheckpointRecord {
  import opened Types
  import opened Dispatch
  import opened HandlerMeaning
  import opened Schedules
  import opened Cluster
  import GuardMeaning
  import Storage

  /** The call makes an aligning replica adopt a STATE-REPLY. */
  predicate Adopts(st: ReplicaState, call: Call) {
    call.AdoptingState? && st.phase.Aligning? && call.msg.StateReply?
  }

  /** The checkpoint that a call announces or adopts, if any. */
  ghost function NewRecord(cfg: Config, st: ReplicaState, call: Call): Option<(nat, Hash)> {
    var s := Run(cfg, st, call);
    if exists e :: e in s.out && e.message.Checkpoint? then
      var e :| e in s.out && e.message.Checkpoint?;
      Some((e.message.logIdx, e.message.logHash))
    else if Adopts(st, call) then
      Some((call.msg.chkptIdx, cfg.entryHash(KvEntry(call.msg.chkptIdx, [], FilledHash(call.msg.chkptIdx)))))
    else None
  }

  /** The last checkpoint announced or adopted in a series of calls. */
  ghost function LastRecord(cfg: Config, t: Trail, calls: seq<Call>): (nat, Hash) {
    if calls == [] then (t.st.chkptIdx, t.st.chkptHash)
    else
      var front, last := calls[..|calls| - 1], calls[|calls| - 1];
      match NewRecord(cfg, RunAll(cfg, t, front).st, last)
      case Some(record) => record
      case None => LastRecord(cfg, t, front)
  }

  /** Whatever a call announces, it records. */
  lemma AnnouncedIsRecorded(cfg: Config, st: ReplicaState, call: Call, e: Effect)
    requires e in Run(cfg, st, call).out && e.message.Checkpoint?
    ensures Run(cfg, st, call).st.chkptIdx == e.message.logIdx && Run(cfg, st, call).st.chkptHash == e.message.logHash
    ensures e.message.from == st.nodeId && e.message.round == st.round
  {
  }

  /** Without an announcement or adoption the checkpoint is kept. */
  lemma SilenceKeepsRecord(cfg: Config, st: ReplicaState, call: Call)
    requires !Adopts(st, call) && forall e :: e in Run(cfg, st, call).out ==> !e.message.Checkpoint?
    ensures Run(cfg, st, call).st.chkptIdx == st.chkptIdx && Run(cfg, st, call).st.chkptHash == st.chkptHash
  {
    if call.ReceivingSync? {
      var top := Storage.TopHashOf(st.store);
      GuardMeaning.TopIs(st.store, top);
      SyncMeans(cfg, st, call.msg, top);
      if st.kvSize > 0 {
        assert Broadcast(Types.Checkpoint(st.nodeId, st.round, st.kvSize - 1, top)).message.Checkpoint?;
      }
    }
  }

  lemma CallRecords(cfg: Config, st: ReplicaState, call: Call)
    ensures var s := Run(cfg, st, call).st;
            match NewRecord(cfg, st, call)
            case Some(record) => s.chkptIdx == record.0 && s.chkptHash == record.1
            case None => s.chkptIdx == st.chkptIdx && s.chkptHash == st.chkptHash
  {
    if e :| e in Run(cfg, st, call).out && e.message.Checkpoint? {
      forall d | d in Run(cfg, st, call).out && d.message.Checkpoint?
        ensures Run(cfg, st, call).st.chkptIdx == d.message.logIdx
        ensures Run(cfg, st, call).st.chkptHash == d.message.logHash
      {
        AnnouncedIsRecorded(cfg, st, call, d);
      }
    } else if Adopts(st, call) {
      AdoptMeans(cfg, st, call.msg);
    } else {
      SilenceKeepsRecord(cfg, st, call);
    }
  }

  /** After any series of calls. */
  lemma {:induction false} RecordIsLast(cfg: Config, t: Trail, calls: seq<Call>)
    ensures var s := RunAll(cfg, t, calls).st; (s.chkptIdx, s.chkptHash) == LastRecord(cfg, t, calls)
  {
    if calls != [] {
      RecordIsLast(cfg, t, calls[..|calls| - 1]);
      CallRecords(cfg, RunAll(cfg, t, calls[..|calls| - 1]).st, calls[|calls| - 1]);
    }
  }

  /** The calls of a whole life. */
  function AllCalls(inputs: seq<Input>): seq<Call> {
    if inputs == [] then [] else AllCalls(inputs[..|inputs| - 1]) + Program(inputs[|inputs| - 1])
  }

  lemma {:induction false} RunAllConcat(cfg: Config, t: Trail, a: seq<Call>, b: seq<Call>)
    ensures RunAll(cfg, t, a + b) == RunAll(cfg, RunAll(cfg, t, a), b)
    decreases |b|
  {
    if b == [] {
      assert a + b == a;
    } else {
      RunAllConcat(cfg, t, a, b[..|b| - 1]);
      assert (a + b)[..|a + b| - 1] == a + b[..|b| - 1];
    }
  }

  lemma {:induction false} LifeIsCalls(cfg: Config, t: Trail, inputs: seq<Input>)
    ensures HandleAll(cfg, t, inputs) == RunAll(cfg, t, AllCalls(inputs))
  {
    if inputs != [] {
      LifeIsCalls(cfg, t, inputs[..|inputs| - 1]);
      RunAllConcat(cfg, t, AllCalls(inputs[..|inputs| - 1]), Program(inputs[|inputs| - 1]));
    }
  }

  /** Over a replica's whole life: its checkpoint is the one it announced or adopted last. */
  lemma StoredCheckpointIsLast(cfg: Config, node: NodeId, inputs: seq<Input>)
    ensures var s := HandleAll(cfg, Initial(node), inputs).st;
            (s.chkptIdx, s.chkptHash) == LastRecord(cfg, Initial(node), AllCalls(inputs))
  {
    LifeIsCalls(cfg, Initial(node), inputs);
    RecordIsLast(cfg, Initial(node), AllCalls(inputs));
  }

  // STATE-REPLYs.

  /** Handlers that touch no checkpoint and send no STATE-REPLY. */
  lemma CallNoReply(cfg: Config, st: ReplicaState, call: Call)
    requires !call.AnsweringRequest?
    ensures forall e :: e in Run(cfg, st, call).out ==> !e.message.StateReply?
    ensures Run(cfg, st, call).st.nodeId == st.nodeId
  {
  }

  lemma CallKeepsCheckpoint(cfg: Config, st: ReplicaState, call: Call)
    requires !call.ReceivingSync? && !call.AdoptingState?
    ensures Run(cfg, st, call).st.chkptIdx == st.chkptIdx && Run(cfg, st, call).st.chkptHash == st.chkptHash
  {
  }

  lemma {:induction false} NoReplies(cfg: Config, s: Step, calls: seq<Call>)
    requires forall c :: c in calls ==> !c.AnsweringRequest?
    ensures forall e :: e in RunEach(cfg, s, calls).out && e.message.StateReply? ==> e in s.out
    ensures forall e :: e in s.out ==> e in RunEach(cfg, s, calls).out
    ensures RunEach(cfg, s, calls).st.nodeId == s.st.nodeId
  {
    if calls != [] {
      NoReplies(cfg, s, calls[..|calls| - 1]);
      CallNoReply(cfg, RunEach(cfg, s, calls[..|calls| - 1]).st, calls[|calls| - 1]);
    }
  }

  lemma {:induction false} KeepCheckpoint(cfg: Config, s: Step, calls: seq<Call>)
    requires forall c :: c in calls ==> !c.ReceivingSync? && !c.AdoptingState?
    ensures RunEach(cfg, s, calls).st.chkptIdx == s.st.chkptIdx && RunEach(cfg, s, calls).st.chkptHash == s.st.chkptHash
  {
    if calls != [] {
      KeepCheckpoint(cfg, s, calls[..|calls| - 1]);
      CallKeepsCheckpoint(cfg, RunEach(cfg, s, calls[..|calls| - 1]).st, calls[|calls| - 1]);
    }
  }

  /** A STATE-REQUEST, delivered in any state, is answered once, to its sender, with exactly
      the checkpoint that the replica then stores. */
  lemma RequestDelivered(cfg: Config, st: ReplicaState, m: Message, pick: nat, e: Effect)
    requires m.StateRequest?
    ensures var s := RunEach(cfg, Step(st, []), Program(Deliver(m, pick)));
            (e in s.out && e.message.StateReply?)
            <==> e == Send(m.from, StateReply(st.nodeId, s.st.chkptIdx, s.st.chkptHash))
  {
    var s0 := Step(st, []);
    ProgramParts(cfg, s0, m, pick);
    NoReplies(cfg, s0, EarlyCalls(m));
    var s1 := RunEach(cfg, s0, EarlyCalls(m));
    Unroll3(cfg, s1, EnteringRepair(m), AnsweringRequest(m), AdoptingState(m));
    var a := Then(cfg, s1, EnteringRepair(m));
    CallNoReply(cfg, s1.st, EnteringRepair(m));
    CallKeepsCheckpoint(cfg, s1.st, EnteringRepair(m));
    RequestMeans(cfg, a.st, m);
    var b := Then(cfg, a, AnsweringRequest(m));
    assert b.out == a.out + [Send(m.from, StateReply(st.nodeId, b.st.chkptIdx, b.st.chkptHash))];
    assert b.out[|a.out|] in b.out;
    AdoptMeans(cfg, b.st, m);
    var c := Then(cfg, b, AdoptingState(m));
    NoReplies(cfg, c, LateCalls(m, pick));
    KeepCheckpoint(cfg, c, LateCalls(m, pick));
  }

  // One delivery.

  lemma CallNoCheckpoint(cfg: Config, st: ReplicaState, call: Call)
    requires !call.ReceivingSync?
    ensures forall e :: e in Run(cfg, st, call).out ==> !e.message.Checkpoint?
  {
  }

  lemma {:induction false} NoCheckpoints(cfg: Config, s: Step, calls: seq<Call>)
    requires forall c :: c in calls ==> !c.ReceivingSync?
    ensures forall e :: e in RunEach(cfg, s, calls).out && e.message.Checkpoint? ==> e in s.out
  {
    if calls != [] {
      NoCheckpoints(cfg, s, calls[..|calls| - 1]);
      CallNoCheckpoint(cfg, RunEach(cfg, s, calls[..|calls| - 1]).st, calls[|calls| - 1]);
    }
  }

  lemma EarlyAround(cfg: Config, s: Step, m: Message)
    ensures RunEach(cfg, s, EarlyCalls(m))
            == RunEach(cfg, Then(cfg, RunEach(cfg, s, [Speculating(m), SyncThreshold]), ReceivingSync(m)),
                       [ReceivingCheckpoint(m), CheckingConflict, ReceivingTimeout(m)])
  {
    var before := [Speculating(m), SyncThreshold];
    var early := [ReceivingCheckpoint(m), CheckingConflict, ReceivingTimeout(m)];
    RunEachSnoc(cfg, s, before, ReceivingSync(m));
    RunEachConcat(cfg, s, before + [ReceivingSync(m)], early);
    assert EarlyCalls(m) == before + [ReceivingSync(m)] + early;
  }

  /** The dispatch around the handler that forms checkpoints. */
  lemma AroundSync(cfg: Config, s: Step, m: Message, pick: nat) returns (rest: seq<Call>)
    ensures RunEach(cfg, s, Program(Deliver(m, pick)))
            == RunEach(cfg, Then(cfg, RunEach(cfg, s, [Speculating(m), SyncThreshold]), ReceivingSync(m)), rest)
    ensures forall c :: c in rest ==> !c.ReceivingSync? && (c.AdoptingState? ==> c.msg == m)
  {
    var before := [Speculating(m), SyncThreshold];
    var early := [ReceivingCheckpoint(m), CheckingConflict, ReceivingTimeout(m)];
    rest := early + MiddleCalls(m) + LateCalls(m, pick);
    ProgramParts(cfg, s, m, pick);
    EarlyAround(cfg, s, m);
    var formed := Then(cfg, RunEach(cfg, s, before), ReceivingSync(m));
    RunEachConcat(cfg, formed, early, MiddleCalls(m));
    RunEachConcat(cfg, formed, early + MiddleCalls(m), LateCalls(m, pick));
  }

  lemma {:induction false} KeepUnlessReply(cfg: Config, s: Step, calls: seq<Call>, m: Message)
    requires !m.StateReply? && forall c :: c in calls ==> !c.ReceivingSync? && (c.AdoptingState? ==> c.msg == m)
    ensures RunEach(cfg, s, calls).st.chkptIdx == s.st.chkptIdx && RunEach(cfg, s, calls).st.chkptHash == s.st.chkptHash
  {
    if calls != [] {
      KeepUnlessReply(cfg, s, calls[..|calls| - 1], m);
      var mid, last := RunEach(cfg, s, calls[..|calls| - 1]).st, calls[|calls| - 1];
      if last.AdoptingState? { AdoptMeans(cfg, mid, m); } else { CallKeepsCheckpoint(cfg, mid, last); }
    }
  }

  /** Any delivery but a STATE-REPLY that makes a replica announce a checkpoint leaves it with
      exactly that checkpoint. */
  lemma AnnouncedInDelivery(cfg: Config, st: ReplicaState, m: Message, pick: nat, e: Effect)
    requires !m.StateReply? && e.message.Checkpoint?
    requires e in RunEach(cfg, Step(st, []), Program(Deliver(m, pick))).out
    ensures var s := RunEach(cfg, Step(st, []), Program(Deliver(m, pick))).st;
            s.chkptIdx == e.message.logIdx && s.chkptHash == e.message.logHash
  {
    var s0 := Step(st, []);
    var rest := AroundSync(cfg, s0, m, pick);
    var a := RunEach(cfg, s0, [Speculating(m), SyncThreshold]);
    NoCheckpoints(cfg, s0, [Speculating(m), SyncThreshold]);
    var b := Then(cfg, a, ReceivingSync(m));
    NoCheckpoints(cfg, b, rest);
    assert e in Run(cfg, a.st, ReceivingSync(m)).out;
    AnnouncedIsRecorded(cfg, a.st, ReceivingSync(m), e);
    KeepUnlessReply(cfg, b, rest, m);
  }

  // Runs of the cluster.

  /** The inputs that a replica handled in a run. */
  ghost function InputsOf(sys: System, run: seq<Action>, q: NodeId): seq<Input> {
    if run == [] then []
    else
      var front, a := run[..|run| - 1], run[|run| - 1];
      InputsOf(sys, front, q) +
      if a.Process? && a.node == q && Enabled(sys, After(sys, front), a) then [a.input] else []
  }

  /** A replica in a run is one that handled its inputs. */
  lemma {:induction false} RunIsLife(sys: System, run: seq<Action>, q: NodeId)
    requires q in sys.Correct()
    ensures q in After(sys, run).replicas
    ensures After(sys, run).replicas[q] == HandleAll(sys.cfg, Initial(q), InputsOf(sys, run, q))
  {
    if run != [] {
      var front, a := run[..|run| - 1], run[|run| - 1];
      RunIsLife(sys, front, q);
      var inputs := InputsOf(sys, run, q);
      if a.Process? && a.node == q && Enabled(sys, After(sys, front), a) {
        assert inputs[..|inputs| - 1] == InputsOf(sys, front, q);
      } else {
        assert inputs == InputsOf(sys, front, q);
      }
    }
  }

  /** In every run, the checkpoint that a correct replica stores is the one it announced or
      adopted last. */
  lemma CheckpointIsLastInRun(sys: System, run: seq<Action>, q: NodeId)
    requires q in sys.Correct()
    ensures q in After(sys, run).replicas
    ensures var st := After(sys, run).replicas[q].st;
            (st.chkptIdx, st.chkptHash) == LastRecord(sys.cfg, Initial(q), AllCalls(InputsOf(sys, run, q)))
  {
    RunIsLife(sys, run, q);
    StoredCheckpointIsLast(sys.cfg, q, InputsOf(sys, run, q));
  }
}
