/** A cluster of replicas over an authenticated, asynchronous network with Byzantine nodes
    (`specs/choreo/choreo.qnt`): a growing set of messages, any of which may reach any
    replica, any number of times, in any order. */
module Cluster {
  import opened Types
  import opened Dispatch
  import opened Voting
  import opened Justification
  import opened CanonicalLog
  import Storage

  datatype System = System(cfg: Config, faulty: set<NodeId>) {
    ghost predicate WellFormed() {
      cfg.WellFormed() && faulty <= cfg.Nodes() && |faulty| <= cfg.f
    }

    function Correct(): set<NodeId> { cfg.Nodes() - faulty }
  }

  datatype State = State(replicas: map<NodeId, Trail>, sent: set<Message>)

  datatype Action =
    | Process(node: NodeId, input: Input)   // a correct replica handles one message or timer
    | Inject(msg: Message)                  // anything a Byzantine node can author

  ghost predicate Enabled(sys: System, s: State, a: Action) {
    match a
    case Process(node, input) => node in s.replicas && (input.Deliver? ==> input.msg in s.sent)
    case Inject(msg) => msg.Authored() ==> msg.from in sys.faulty
  }

  ghost function Start(sys: System): State {
    State(map q | q in sys.Correct() :: Initial(q), {})
  }

  /** An action that is not enabled changes nothing. */
  ghost function Apply(sys: System, s: State, a: Action): State {
    if !Enabled(sys, s, a) then s
    else
      match a
      case Process(node, input) =>
        var t := Handle(sys.cfg, s.replicas[node], input);
        State(s.replicas[node := t], s.sent + Emitted(t.out))
      case Inject(msg) => s.(sent := s.sent + {msg})
  }

  /** The state after any sequence of actions: every run of the cluster. */
  ghost function After(sys: System, run: seq<Action>): State {
    if run == [] then Start(sys) else Apply(sys, After(sys, run[..|run| - 1]), run[|run| - 1])
  }

  ghost predicate NodeInv(cfg: Config, t: Trail, sent: set<Message>) {
    && VotingInv(t) && Justified(cfg, t, sent)
    && LogInv(cfg, t) && BaseInv(t) && SyncsCurrent(t) && SyncsSingle(t) && RepliesTruthful(cfg, t)
  }

  /** Authored messages come from members, and a correct author really emitted them. */
  ghost predicate Authentic(sys: System, s: State) {
    forall m :: m in s.sent && m.Authored() ==>
      && m.from in sys.cfg.Nodes()
      && (m.from !in sys.faulty ==> m.from in s.replicas && m in Emitted(s.replicas[m.from].out))
  }

  ghost predicate Inv(sys: System, s: State) {
    && s.replicas.Keys == sys.Correct()
    && Authentic(sys, s)
    && forall q :: q in s.replicas ==> s.replicas[q].st.nodeId == q && NodeInv(sys.cfg, s.replicas[q], s.sent)
  }

  lemma AdvanceNode(cfg: Config, t: Trail, call: Call, sent: set<Message>)
    requires NodeInv(cfg, t, sent) && Given(call) <= sent
    ensures var t' := Advance(cfg, t, call);
            && NodeInv(cfg, t', sent + Emitted(t'.out)) && t'.st.nodeId == t.st.nodeId
            && Emitted(t.out) <= Emitted(t'.out)
  {
    AdvanceVotes(cfg, t, call);
    AdvanceJustified(cfg, t, call, sent);
    AdvanceLog(cfg, t, call);
    AdvanceBase(cfg, t, call);
    AdvanceSyncsCurrent(cfg, t, call);
    AdvanceSyncsSingle(cfg, t, call);
    AdvanceReplies(cfg, t, call);
    EmittedConcat(t.out, Run(cfg, t.st, call).out);
  }

  lemma {:induction false} RunAllNode(cfg: Config, t: Trail, calls: seq<Call>, sent: set<Message>)
    requires NodeInv(cfg, t, sent) && forall c :: c in calls ==> Given(c) <= sent
    ensures var t' := RunAll(cfg, t, calls);
            && NodeInv(cfg, t', sent + Emitted(t'.out)) && t'.st.nodeId == t.st.nodeId
            && Emitted(t.out) <= Emitted(t'.out)
  {
    if calls == [] {
      assert sent + Emitted(t.out) == sent;
    } else {
      var front, last := calls[..|calls| - 1], calls[|calls| - 1];
      RunAllNode(cfg, t, front, sent);
      var mid := RunAll(cfg, t, front);
      AdvanceNode(cfg, mid, last, sent + Emitted(mid.out));
      var t' := Advance(cfg, mid, last);
      assert sent + Emitted(mid.out) + Emitted(t'.out) == sent + Emitted(t'.out);
    }
  }

  lemma HandleNode(cfg: Config, t: Trail, input: Input, sent: set<Message>)
    requires NodeInv(cfg, t, sent) && (input.Deliver? ==> input.msg in sent)
    ensures var t' := Handle(cfg, t, input);
            && NodeInv(cfg, t', sent + Emitted(t'.out)) && t'.st.nodeId == t.st.nodeId
            && Emitted(t.out) <= Emitted(t'.out)
  {
    RunAllNode(cfg, t, Program(input), sent);
  }

  lemma StartInv(sys: System)
    requires sys.WellFormed()
    ensures Inv(sys, Start(sys))
  {
    assert Storage.Dense(map[]) by { Storage.SizeIs(map[], 0); }
  }

  lemma NodeInvGrows(cfg: Config, t: Trail, a: set<Message>, b: set<Message>)
    requires a <= b && NodeInv(cfg, t, a)
    ensures NodeInv(cfg, t, b)
  {
    JustifiedGrows(cfg, t, a, b);
  }

  /** What a replica emits while handling an input is authentic, and what it emitted before
      stays so. */
  lemma ProcessAuthentic(sys: System, s: State, node: NodeId, input: Input)
    requires Inv(sys, s) && Enabled(sys, s, Process(node, input))
    ensures Authentic(sys, Apply(sys, s, Process(node, input)))
  {
    var t := Handle(sys.cfg, s.replicas[node], input);
    HandleNode(sys.cfg, s.replicas[node], input, s.sent);
    forall m | m in Emitted(t.out) && m.Authored() ensures m.from == node {
      assert Justified(sys.cfg, t, s.sent + Emitted(t.out));
    }
  }

  lemma ProcessInv(sys: System, s: State, node: NodeId, input: Input)
    requires Inv(sys, s) && Enabled(sys, s, Process(node, input))
    ensures Inv(sys, Apply(sys, s, Process(node, input)))
  {
    var s' := Apply(sys, s, Process(node, input));
    ProcessAuthentic(sys, s, node, input);
    HandleNode(sys.cfg, s.replicas[node], input, s.sent);
    forall q | q in s.replicas && q != node ensures NodeInv(sys.cfg, s'.replicas[q], s'.sent) {
      NodeInvGrows(sys.cfg, s.replicas[q], s.sent, s'.sent);
    }
  }

  lemma InjectInv(sys: System, s: State, msg: Message)
    requires sys.WellFormed() && Inv(sys, s) && Enabled(sys, s, Inject(msg))
    ensures Inv(sys, Apply(sys, s, Inject(msg)))
  {
    forall q | q in s.replicas ensures NodeInv(sys.cfg, s.replicas[q], s.sent + {msg}) {
      NodeInvGrows(sys.cfg, s.replicas[q], s.sent, s.sent + {msg});
    }
  }

  /** The invariant holds throughout every run. */
  lemma {:induction false} AlwaysInv(sys: System, run: seq<Action>)
    requires sys.WellFormed()
    ensures Inv(sys, After(sys, run))
  {
    if run == [] {
      StartInv(sys);
    } else {
      var before, a := After(sys, run[..|run| - 1]), run[|run| - 1];
      AlwaysInv(sys, run[..|run| - 1]);
      if Enabled(sys, before, a) {
        match a {
          case Process(node, input) => ProcessInv(sys, before, node, input);
          case Inject(msg) => InjectInv(sys, before, msg);
        }
      }
    }
  }
}
