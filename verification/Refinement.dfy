/** In every run of the cluster, what a correct replica does in REPAIR is what the formal
    specification allows. */
module Refinement {
  import opened Types
  import opened Dispatch
  import opened Justification
  import opened Cluster
  import opened QuintRepair
  import Counting

  lemma StoredExists(sys: System, s: State, q: NodeId)
    requires Inv(sys, s) && q in s.replicas
    ensures Stored(s.replicas[q].st) <= s.sent
  {
    assert Heard(s.replicas[q].st, s.sent);
  }

  lemma OrderlyShrinks(a: set<Message>, b: set<Message>)
    requires a <= b && Orderly(b)
    ensures Orderly(a)
  {
    forall v, r ensures Counting.OnePerSender(DoneVotes(a, v, r)) {
      assert Counting.OnePerSender(DoneVotes(b, v, r));
      assert DoneVotes(a, v, r) <= DoneVotes(b, v, r);
    }
  }

  /** Any message reaching a correct replica in REPAIR, at any point of any run with single
      proposals and sender-unique REPAIR-DONEs, triggers exactly the specification transitions
      that attempting its rules in order gives; they are legal, end in the replica's new state
      and broadcast what it broadcast. */
  lemma DeliveryRefines(sys: System, run: seq<Action>, q: NodeId, m: Message, pick: nat) returns (path: seq<Firing>)
    requires sys.WellFormed() && q in After(sys, run).replicas && m in After(sys, run).sent
    requires RepairPhase(After(sys, run).replicas[q].st.phase) && Orderly(After(sys, run).sent)
    ensures var t := After(sys, run).replicas[q];
            var s := RunEach(sys.cfg, Step(t.st, []), Program(Deliver(m, pick)));
            && Takes(sys.cfg, View(t.st), Stored(t.st) + {m}, false, path, View(s.st), RepairOutput(s.out))
            && path == Attempts(sys.cfg, View(t.st), Stored(t.st) + {m}, false, MESSAGE_RULES)
            && After(sys, run + [Process(q, Deliver(m, pick))]).replicas[q].st == s.st
            && After(sys, run + [Process(q, Deliver(m, pick))]).replicas[q].out == t.out + s.out
  {
    var state := After(sys, run);
    var t := state.replicas[q];
    AlwaysInv(sys, run);
    StoredExists(sys, state, q);
    OrderlyShrinks(Stored(t.st) + {m}, state.sent);
    path := DeliverySimulated(sys.cfg, t.st, m, pick);
    HandleAppends(sys.cfg, t, Deliver(m, pick));
    HandleAppends(sys.cfg, Trail(t.st, [], 0, {}), Deliver(m, pick));
    assert [] + RunEach(sys.cfg, Step(t.st, []), Program(Deliver(m, pick))).out
        == RunEach(sys.cfg, Step(t.st, []), Program(Deliver(m, pick))).out;
    assert (run + [Process(q, Deliver(m, pick))])[..|run|] == run;
  }

  /** The same for timers, which need no assumption on the messages. */
  lemma TimerRefines(sys: System, run: seq<Action>, q: NodeId, e: Event) returns (path: seq<Firing>)
    requires sys.WellFormed() && q in After(sys, run).replicas
    requires RepairPhase(After(sys, run).replicas[q].st.phase)
    ensures var t := After(sys, run).replicas[q];
            var s := RunEach(sys.cfg, Step(t.st, []), Program(Timer(e)));
            && Takes(sys.cfg, View(t.st), Stored(t.st), e.RepairViewTimeout?, path, View(s.st), RepairOutput(s.out))
            && path == Attempt(sys.cfg, View(t.st), Stored(t.st), e.RepairViewTimeout?, ViewRule)
            && After(sys, run + [Process(q, Timer(e))]).replicas[q].st == s.st
            && After(sys, run + [Process(q, Timer(e))]).replicas[q].out == t.out + s.out
  {
    var t := After(sys, run).replicas[q];
    AlwaysInv(sys, run);
    path := TimerSimulated(sys.cfg, t.st, e);
    HandleAppends(sys.cfg, t, Timer(e));
    HandleAppends(sys.cfg, Trail(t.st, [], 0, {}), Timer(e));
    var s := RunEach(sys.cfg, Step(t.st, []), Program(Timer(e)));
    assert [] + s.out == s.out;
    assert (run + [Process(q, Timer(e))])[..|run|] == run;
  }
}
