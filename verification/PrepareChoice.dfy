/** Which histories a replica can vote to prepare: exactly the stored ones. */
module PrepareChoice {
  import opened Types
  import opened Dispatch
  import opened Voting
  import opened Justification
  import opened Cluster
  import opened Schedules
  import opened Agreement

  /** The history hashes for the replica's (view, round), once `m` is stored. */
  function Choices(st: ReplicaState, m: Message): set<nat> {
    HistoryHashes(if m.RepairHistory? then st.historyMsgs + {m} else st.historyMsgs, st.view, st.round)
  }

  ghost predicate NoPrepare(out: seq<Effect>) {
    forall e :: e in out ==> !e.message.RepairPrepare?
  }

  /** The state still chooses as `st` does. */
  ghost predicate ChoosesAs(st: ReplicaState, s: ReplicaState) {
    && s.nodeId == st.nodeId && s.view == st.view && s.round == st.round && s.historyMsgs == st.historyMsgs
    && s.phase == st.phase && s.inRepair == st.inRepair
  }

  lemma EntryChooses(cfg: Config, st: ReplicaState, call: Call)
    requires RepairPhase(st.phase) && st.inRepair
    requires !call.ReceivingLog? && !call.ReceivingHistory? && !call.ReceivingPrepare? && !call.ReceivingCommit? &&
             !call.ReceivingDone? && !call.ViewEvent?
    ensures ChoosesAs(st, Run(cfg, st, call).st) && NoPrepare(Run(cfg, st, call).out)
  {
  }

  lemma {:induction false} EntryPartChooses(cfg: Config, st: ReplicaState, calls: seq<Call>)
    requires RepairPhase(st.phase) && st.inRepair
    requires forall c :: c in calls ==>
               !c.ReceivingLog? && !c.ReceivingHistory? && !c.ReceivingPrepare? && !c.ReceivingCommit? &&
               !c.ReceivingDone? && !c.ViewEvent?
    ensures var s := RunEach(cfg, Step(st, []), calls);
            ChoosesAs(st, s.st) && NoPrepare(s.out)
  {
    if calls != [] {
      EntryPartChooses(cfg, st, calls[..|calls| - 1]);
      EntryChooses(cfg, RunEach(cfg, Step(st, []), calls[..|calls| - 1]).st, calls[|calls| - 1]);
    }
  }

  /** Handlers after the prepare handler never vote to prepare. */
  lemma ExitNoPrepare(cfg: Config, st: ReplicaState, call: Call)
    requires call.ReceivingPrepare? || call.ReceivingCommit? || call.ReceivingDone?
    ensures NoPrepare(Run(cfg, st, call).out)
  {
  }

  /** The leader may propose first, which leaves the choice open. */
  lemma LogChooses(cfg: Config, st: ReplicaState, m: Message)
    requires st.phase.CollectingLogs? || st.phase.PreparePhase?
    ensures var s := Run(cfg, st, ReceivingLog(m));
            && s.st.nodeId == st.nodeId && s.st.view == st.view && s.st.round == st.round
            && s.st.historyMsgs == st.historyMsgs && (s.st.phase.CollectingLogs? || s.st.phase.PreparePhase?)
            && NoPrepare(s.out)
  {
  }

  lemma HistoryChooses(cfg: Config, st: ReplicaState, m: Message, pick: nat)
    requires st.phase.CollectingLogs? || st.phase.PreparePhase?
    ensures var s := Run(cfg, st, ReceivingHistory(m, pick));
            && (Choices(st, m) == {} ==> s.out == [])
            && (Choices(st, m) != {} ==>
                  exists h :: h in Choices(st, m) &&
                              s.out == [Broadcast(RepairPrepare(st.nodeId, st.view, st.round, h))])
            && (pick in Choices(st, m) ==> s.out == [Broadcast(RepairPrepare(st.nodeId, st.view, st.round, pick))])
  {
  }

  /** At most one history gets REPAIR-PREPAREs. */
  ghost predicate OnePrepare(out: seq<Effect>) {
    forall a, b :: a in out && b in out && a.message.RepairPrepare? && b.message.RepairPrepare? ==> a == b
  }

  /** The prepare votes among the effects of the last five handlers are those of one. */
  lemma LatePartVotes(cfg: Config, s0: Step, m: Message, pick: nat)
    requires (s0.st.phase.CollectingLogs? || s0.st.phase.PreparePhase?) && NoPrepare(s0.out)
    ensures var s := RunEach(cfg, s0, LateCalls(m, pick));
            && (forall e :: e in s.out && e.message.RepairPrepare? ==>
                  exists h :: h in Choices(s0.st, m) &&
                              e == Broadcast(RepairPrepare(s0.st.nodeId, s0.st.view, s0.st.round, h)))
            && OnePrepare(s.out)
            && (pick in Choices(s0.st, m) ==>
                  Broadcast(RepairPrepare(s0.st.nodeId, s0.st.view, s0.st.round, pick)) in s.out)
  {
    Unroll5(cfg, s0, ReceivingLog(m), ReceivingHistory(m, pick), ReceivingPrepare(m), ReceivingCommit(m),
            ReceivingDone(m));
    var s1 := Then(cfg, s0, ReceivingLog(m));
    LogChooses(cfg, s0.st, m);
    var s2 := Then(cfg, s1, ReceivingHistory(m, pick));
    HistoryChooses(cfg, s1.st, m, pick);
    var s3 := Then(cfg, s2, ReceivingPrepare(m));
    ExitNoPrepare(cfg, s2.st, ReceivingPrepare(m));
    var s4 := Then(cfg, s3, ReceivingCommit(m));
    ExitNoPrepare(cfg, s3.st, ReceivingCommit(m));
    ExitNoPrepare(cfg, s4.st, ReceivingDone(m));
    assert Choices(s1.st, m) == Choices(s0.st, m);
    var vote := Run(cfg, s1.st, ReceivingHistory(m, pick)).out;
    assert pick in Choices(s0.st, m) ==> vote[0] in s2.out;
  }

  /** A delivery makes a replica that may still vote broadcast REPAIR-PREPAREs only for one of
      the stored histories: the one that the scan meets first. */
  lemma DeliveryVotes(cfg: Config, st: ReplicaState, m: Message, pick: nat)
    requires (st.phase.CollectingLogs? || st.phase.PreparePhase?) && PhaseConsistent(st)
    ensures var s := RunEach(cfg, Step(st, []), Program(Deliver(m, pick)));
            && (forall e :: e in s.out && e.message.RepairPrepare? ==>
                  exists h :: h in Choices(st, m) && e == Broadcast(RepairPrepare(st.nodeId, st.view, st.round, h)))
            && OnePrepare(s.out)
            && (pick in Choices(st, m) ==>
                  Broadcast(RepairPrepare(st.nodeId, st.view, st.round, pick)) in s.out)
  {
    ProgramParts(cfg, Step(st, []), m, pick);
    RunEachConcat(cfg, Step(st, []), EarlyCalls(m), MiddleCalls(m));
    EntryPartChooses(cfg, st, EarlyCalls(m) + MiddleCalls(m));
    LatePartVotes(cfg, RunEach(cfg, Step(st, []), EarlyCalls(m) + MiddleCalls(m)), m, pick);
  }

  /** Handling `m`, meeting `pick` first, broadcasts a REPAIR-PREPARE for `hash`. */
  ghost predicate VotesFor(cfg: Config, st: ReplicaState, m: Message, pick: nat, hash: nat) {
    Broadcast(RepairPrepare(st.nodeId, st.view, st.round, hash)) in
      RunEach(cfg, Step(st, []), Program(Deliver(m, pick))).out
  }

  /** A replica in PreparePhase can be made to vote for another history than the one it holds
      exactly when, with the delivered message, it stores another one for its (view, round). */
  lemma VoteCanChange(cfg: Config, st: ReplicaState, m: Message)
    requires st.phase.PreparePhase? && PhaseConsistent(st)
    ensures (exists pick, h :: h != st.proposed && VotesFor(cfg, st, m, pick, h))
            <==> exists h :: h in Choices(st, m) && h != st.proposed
  {
    if pick, h :| h != st.proposed && VotesFor(cfg, st, m, pick, h) {
      DeliveryVotes(cfg, st, m, pick);
      assert h in Choices(st, m);
    }
    if h :| h in Choices(st, m) && h != st.proposed {
      DeliveryVotes(cfg, st, m, h);
      assert VotesFor(cfg, st, m, h, h);
    }
  }

  lemma ProposedIsVotable(cfg: Config, st: ReplicaState, sent: set<Message>, h: nat) returns (m: Message)
    requires st.phase.PreparePhase? && PhaseConsistent(st)
    requires h in HistoryHashes(sent, st.view, st.round)
    ensures m in sent && VotesFor(cfg, st, m, h, h)
  {
    m :| m in sent && m.RepairHistory? && m.view == st.view && m.round == st.round && m.historyHash == h;
    assert m in st.historyMsgs + {m};
    DeliveryVotes(cfg, st, m, h);
  }

  // Equivocation: two different votes of one replica in one (view, round).

  ghost predicate Equivocates(sent: set<Message>, q: NodeId, view: nat, round: nat) {
    exists g, h :: g != h && RepairPrepare(q, view, round, g) in sent && RepairPrepare(q, view, round, h) in sent
  }

  /** `q` has voted for a history, and another one was proposed. */
  ghost predicate Tempted(sent: set<Message>, q: NodeId, view: nat, round: nat) {
    exists g, h :: g != h && RepairPrepare(q, view, round, g) in sent && h in HistoryHashes(sent, view, round)
  }

  /** What exists after a delivery: what existed before and what the delivery made `q` emit. */
  lemma DeliverySends(sys: System, run: seq<Action>, q: NodeId, m: Message, pick: nat)
    requires sys.WellFormed() && q in After(sys, run).replicas && m in After(sys, run).sent
    ensures After(sys, run + [Process(q, Deliver(m, pick))]).sent
            == After(sys, run).sent
               + Emitted(RunEach(sys.cfg, Step(After(sys, run).replicas[q].st, []), Program(Deliver(m, pick))).out)
  {
    var t := After(sys, run).replicas[q];
    AlwaysInv(sys, run);
    assert Justified(sys.cfg, t, After(sys, run).sent);
    AfterSnoc(sys, run, Process(q, Deliver(m, pick)));
    HandleAppends(sys.cfg, t, Deliver(m, pick));
    EmittedJoins(t.out, RunEach(sys.cfg, Step(t.st, []), Program(Deliver(m, pick))).out);
  }

  /** A correct replica's vote is for a proposed history. */
  lemma PreparedIsProposed(sys: System, run: seq<Action>, q: NodeId, view: nat, round: nat, h: nat)
    requires sys.WellFormed() && q !in sys.faulty && RepairPrepare(q, view, round, h) in After(sys, run).sent
    ensures h in HistoryHashes(After(sys, run).sent, view, round)
  {
    AlwaysInv(sys, run);
    CorrectAuthor(sys, After(sys, run), RepairPrepare(q, view, round, h));
  }

  /** Two votes after a delivery that were not both there before. */
  lemma NewVoteTempted(cfg: Config, st: ReplicaState, sent: set<Message>, m: Message, pick: nat, g: nat, h: nat)
    requires st.phase.PreparePhase? && PhaseConsistent(st) && st.historyMsgs <= sent && m in sent && g != h
    requires var out := RunEach(cfg, Step(st, []), Program(Deliver(m, pick))).out;
             && RepairPrepare(st.nodeId, st.view, st.round, g) in sent + Emitted(out)
             && RepairPrepare(st.nodeId, st.view, st.round, h) in Emitted(out)
    ensures Tempted(sent, st.nodeId, st.view, st.round)
  {
    var out := RunEach(cfg, Step(st, []), Program(Deliver(m, pick))).out;
    DeliveryVotes(cfg, st, m, pick);
    var e :| e in out && e.message == RepairPrepare(st.nodeId, st.view, st.round, h);
    assert h in Choices(st, m) && Choices(st, m) <= HistoryHashes(sent, st.view, st.round);
    assert forall d :: d in out && d.message.RepairPrepare? ==> d.message.historyHash == h;
    assert RepairPrepare(st.nodeId, st.view, st.round, g) !in Emitted(out);
  }

  lemma EquivocationTempted(sys: System, run: seq<Action>, q: NodeId, m: Message, pick: nat)
    requires sys.WellFormed() && q in After(sys, run).replicas && m in After(sys, run).sent
    requires After(sys, run).replicas[q].st.phase.PreparePhase?
    requires var st := After(sys, run).replicas[q].st;
             Equivocates(After(sys, run + [Process(q, Deliver(m, pick))]).sent, q, st.view, st.round)
    ensures var st := After(sys, run).replicas[q].st; Tempted(After(sys, run).sent, q, st.view, st.round)
  {
    var st, sent := After(sys, run).replicas[q].st, After(sys, run).sent;
    AlwaysInv(sys, run);
    DeliverySends(sys, run, q, m, pick);
    var after := After(sys, run + [Process(q, Deliver(m, pick))]).sent;
    var g, h :| g != h && RepairPrepare(q, st.view, st.round, g) in after &&
                RepairPrepare(q, st.view, st.round, h) in after;
    if RepairPrepare(q, st.view, st.round, g) in sent && RepairPrepare(q, st.view, st.round, h) in sent {
      PreparedIsProposed(sys, run, q, st.view, st.round, h);
    } else if RepairPrepare(q, st.view, st.round, h) in sent {
      NewVoteTempted(sys.cfg, st, sent, m, pick, h, g);
    } else {
      NewVoteTempted(sys.cfg, st, sent, m, pick, g, h);
    }
  }

  lemma TemptedEquivocates(sys: System, run: seq<Action>, q: NodeId) returns (m: Message, pick: nat)
    requires sys.WellFormed() && q in After(sys, run).replicas && After(sys, run).replicas[q].st.phase.PreparePhase?
    requires var st := After(sys, run).replicas[q].st; Tempted(After(sys, run).sent, q, st.view, st.round)
    ensures m in After(sys, run).sent
    ensures var st := After(sys, run).replicas[q].st;
            Equivocates(After(sys, run + [Process(q, Deliver(m, pick))]).sent, q, st.view, st.round)
  {
    var st, sent := After(sys, run).replicas[q].st, After(sys, run).sent;
    AlwaysInv(sys, run);
    var g, h :| g != h && RepairPrepare(q, st.view, st.round, g) in sent && h in HistoryHashes(sent, st.view, st.round);
    m := ProposedIsVotable(sys.cfg, st, sent, h);
    pick := h;
    DeliverySends(sys, run, q, m, h);
    var out := RunEach(sys.cfg, Step(st, []), Program(Deliver(m, h))).out;
    assert Broadcast(RepairPrepare(q, st.view, st.round, h)).message in Emitted(out);
  }

  /** In every run, for a correct replica in PreparePhase: some delivery leaves it with two
      different REPAIR-PREPAREs in its (view, round) exactly when it has sent one there and
      another history was proposed there. */
  lemma EquivocationNeedsTwoProposals(sys: System, run: seq<Action>, q: NodeId)
    requires sys.WellFormed() && q in After(sys, run).replicas && After(sys, run).replicas[q].st.phase.PreparePhase?
    ensures var s, st := After(sys, run), After(sys, run).replicas[q].st;
            (exists m, pick :: m in s.sent &&
                               Equivocates(After(sys, run + [Process(q, Deliver(m, pick))]).sent, q, st.view, st.round))
            <==> Tempted(s.sent, q, st.view, st.round)
  {
    var s, st := After(sys, run), After(sys, run).replicas[q].st;
    if m, pick :| m in s.sent &&
                  Equivocates(After(sys, run + [Process(q, Deliver(m, pick))]).sent, q, st.view, st.round) {
      EquivocationTempted(sys, run, q, m, pick);
    }
    if Tempted(s.sent, q, st.view, st.round) {
      var m, pick := TemptedEquivocates(sys, run, q);
    }
  }

  /** In every run: a correct replica that has equivocated was shown two proposals. */
  lemma EquivocatorSawTwoProposals(sys: System, run: seq<Action>, q: NodeId, view: nat, round: nat)
      returns (g: nat, h: nat)
    requires sys.WellFormed() && q !in sys.faulty && Equivocates(After(sys, run).sent, q, view, round)
    ensures g != h && g in HistoryHashes(After(sys, run).sent, view, round)
    ensures h in HistoryHashes(After(sys, run).sent, view, round)
  {
    g, h :| g != h && RepairPrepare(q, view, round, g) in After(sys, run).sent &&
            RepairPrepare(q, view, round, h) in After(sys, run).sent;
    PreparedIsProposed(sys, run, q, view, round, g);
    PreparedIsProposed(sys, run, q, view, round, h);
  }
}
