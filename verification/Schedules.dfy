/** Building concrete runs of the cluster: what single deliveries do to nearly empty replicas,
    and how actions compose. */
module Schedules {
  import opened Types
  import opened Dispatch
  import opened Cluster

  // One dispatch.

  lemma {:induction false} SilentCalls(cfg: Config, s: Step, calls: seq<Call>)
    requires forall c :: c in calls ==> Run(cfg, s.st, c) == Step(s.st, [])
    ensures RunEach(cfg, s, calls) == s
  {
    if calls != [] {
      SilentCalls(cfg, s, calls[..|calls| - 1]);
      assert s.out + [] == s.out;
    }
  }

  /** Calls that may emit effects but leave the state alone. */
  lemma {:induction false} StillCalls(cfg: Config, s: Step, calls: seq<Call>)
    requires forall c :: c in calls ==> Run(cfg, s.st, c).st == s.st
    ensures RunEach(cfg, s, calls).st == s.st
    ensures forall e :: e in s.out ==> e in RunEach(cfg, s, calls).out
    ensures forall c, e :: c in calls && e in Run(cfg, s.st, c).out ==> e in RunEach(cfg, s, calls).out
  {
    if calls != [] {
      StillCalls(cfg, s, calls[..|calls| - 1]);
      assert forall c :: c in calls ==> c in calls[..|calls| - 1] || c == calls[|calls| - 1];
    }
  }

  /** Among still calls, one moves the state. */
  lemma OneMoves(cfg: Config, s: Step, before: seq<Call>, call: Call, after: seq<Call>)
    requires forall c :: c in before ==> Run(cfg, s.st, c).st == s.st
    requires forall c :: c in after ==> Run(cfg, Run(cfg, s.st, call).st, c).st == Run(cfg, s.st, call).st
    ensures var r := RunEach(cfg, s, before + [call] + after);
            && r.st == Run(cfg, s.st, call).st
            && forall e :: e in Run(cfg, s.st, call).out ==> e in r.out
  {
    StillCalls(cfg, s, before);
    RunEachSnoc(cfg, s, before, call);
    RunEachConcat(cfg, s, before + [call], after);
    StillCalls(cfg, Then(cfg, RunEach(cfg, s, before), call), after);
  }

  function EarlyCalls(m: Message): seq<Call> {
    [Speculating(m), SyncThreshold, ReceivingSync(m), ReceivingCheckpoint(m), CheckingConflict, ReceivingTimeout(m)]
  }

  function MiddleCalls(m: Message): seq<Call> {
    [EnteringRepair(m), AnsweringRequest(m), AdoptingState(m)]
  }

  function LateCalls(m: Message, pick: nat): seq<Call> {
    [ReceivingLog(m), ReceivingHistory(m, pick), ReceivingPrepare(m), ReceivingCommit(m), ReceivingDone(m)]
  }

  lemma ProgramParts(cfg: Config, s: Step, m: Message, pick: nat)
    ensures RunEach(cfg, s, Program(Deliver(m, pick)))
            == RunEach(cfg, RunEach(cfg, RunEach(cfg, s, EarlyCalls(m)), MiddleCalls(m)), LateCalls(m, pick))
  {
    RunEachConcat(cfg, s, EarlyCalls(m), MiddleCalls(m));
    RunEachConcat(cfg, s, EarlyCalls(m) + MiddleCalls(m), LateCalls(m, pick));
    assert Program(Deliver(m, pick)) == EarlyCalls(m) + MiddleCalls(m) + LateCalls(m, pick);
  }

  lemma NothingStored()
    ensures CheckpointVotes({}, 0, 0) == {} && TimeoutVotes({}, 0, 0) == {} && Senders(LogVotes({}, 0, 0)) == {}
    ensures HistoryHashes({}, 0, 0) == {} && PrepareVotes({}, 0, 0, 1) == {} && DoneVotes({}, 0, 0) == {}
  {
  }

  // Actions.

  /** Injecting a message and delivering it. */
  function Offer(node: NodeId, m: Message, pick: nat): seq<Action> {
    [Inject(m), Process(node, Deliver(m, pick))]
  }

  lemma AfterSnoc(sys: System, run: seq<Action>, a: Action)
    ensures After(sys, run + [a]) == Apply(sys, After(sys, run), a)
  {
    assert (run + [a])[..|run|] == run;
  }

  /** What an offered message does: the replica handles it, and what it emits is sent. */
  lemma OfferTaken(sys: System, run: seq<Action>, node: NodeId, m: Message, pick: nat)
    requires node in After(sys, run).replicas && (m.Authored() ==> m.from in sys.faulty)
    ensures var before, after := After(sys, run), After(sys, run + Offer(node, m, pick));
            var t := Handle(sys.cfg, before.replicas[node], Deliver(m, pick));
            var s := RunEach(sys.cfg, Step(before.replicas[node].st, []), Program(Deliver(m, pick)));
            && after.replicas == before.replicas[node := t] && after.sent == before.sent + {m} + Emitted(t.out)
            && t.st == s.st && t.out == before.replicas[node].out + s.out
  {
    AfterSnoc(sys, run, Inject(m));
    AfterSnoc(sys, run + [Inject(m)], Process(node, Deliver(m, pick)));
    assert run + Offer(node, m, pick) == run + [Inject(m)] + [Process(node, Deliver(m, pick))];
    HandleAppends(sys.cfg, After(sys, run).replicas[node], Deliver(m, pick));
  }

  lemma EmittedJoins(a: seq<Effect>, b: seq<Effect>)
    ensures Emitted(a + b) == Emitted(a) + Emitted(b)
  {
  }

  /** All messages in existence are `ok`, and `node` has reached the state `st`. */
  ghost predicate Reached(s: State, node: NodeId, st: ReplicaState, ok: Message -> bool) {
    && node in s.replicas && s.replicas[node].st == st && Emitted(s.replicas[node].out) <= s.sent
    && forall m :: m in s.sent ==> ok(m)
  }

  lemma OfferReaches(sys: System, run: seq<Action>, node: NodeId, m: Message, pick: nat, st: ReplicaState, s: Step,
                     ok: Message -> bool)
    requires Reached(After(sys, run), node, st, ok) && (m.Authored() ==> m.from in sys.faulty)
    requires s == RunEach(sys.cfg, Step(st, []), Program(Deliver(m, pick)))
    requires ok(m) && forall e :: e in s.out ==> ok(e.message)
    ensures var after := After(sys, run + Offer(node, m, pick));
            && Reached(after, node, s.st, ok)
            && After(sys, run).sent + Emitted(s.out) <= after.sent
  {
    OfferTaken(sys, run, node, m, pick);
    EmittedJoins(After(sys, run).replicas[node].out, s.out);
  }

  /** From `run` to `next`, only replica `q` has moved, to `st`, and nothing sent is lost. */
  ghost predicate Moved(sys: System, run: seq<Action>, next: seq<Action>, q: NodeId, st: ReplicaState) {
    var before, after := After(sys, run), After(sys, next);
    && q in after.replicas && after.replicas[q].st == st
    && (forall r :: r in before.replicas && r != q ==> r in after.replicas && after.replicas[r] == before.replicas[r])
    && before.sent <= after.sent
  }

  ghost predicate At(sys: System, run: seq<Action>, q: NodeId, st: ReplicaState) {
    q in After(sys, run).replicas && After(sys, run).replicas[q].st == st
  }

  /** Deliver a message that has been sent, or that a Byzantine node sends now. */
  lemma Move(sys: System, run: seq<Action>, q: NodeId, m: Message, pick: nat, st: ReplicaState, s: Step)
      returns (next: seq<Action>)
    requires At(sys, run, q, st) && (m in After(sys, run).sent || !m.Authored() || m.from in sys.faulty)
    requires s == RunEach(sys.cfg, Step(st, []), Program(Deliver(m, pick)))
    ensures Moved(sys, run, next, q, s.st) && Emitted(s.out) <= After(sys, next).sent && run <= next
  {
    var t := After(sys, run).replicas[q];
    if m in After(sys, run).sent {
      next := run + [Process(q, Deliver(m, pick))];
      AfterSnoc(sys, run, Process(q, Deliver(m, pick)));
      HandleAppends(sys.cfg, t, Deliver(m, pick));
    } else {
      next := run + Offer(q, m, pick);
      OfferTaken(sys, run, q, m, pick);
    }
    EmittedJoins(t.out, s.out);
  }

  /** Replicas outside `nodes` have not moved, and nothing sent is lost. */
  ghost predicate OnlyMoved(sys: System, run: seq<Action>, next: seq<Action>, nodes: set<NodeId>) {
    var before, after := After(sys, run), After(sys, next);
    && (forall r :: r in before.replicas && r !in nodes ==>
          r in after.replicas && after.replicas[r] == before.replicas[r])
    && before.sent <= after.sent
  }
}
