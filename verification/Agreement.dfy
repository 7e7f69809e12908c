/** Safety of REPAIR, checkpoints and logs over every run of a cluster with at most `f`
    Byzantine nodes. A correct replica's REPAIR-DONE in `sent` marks that it executed
    apply-repair for that (view, round, history). */
module Agreement {
  import opened Types
  import opened Storage
  import opened Dispatch
  import opened Counting
  import opened Voting
  import opened Justification
  import opened CanonicalLog
  import opened CheckpointSource
  import opened Cluster

  lemma AuthorsAreMembers(sys: System, s: State, ms: set<Message>)
    requires Inv(sys, s) && ms <= s.sent
    ensures Senders(ms) <= sys.cfg.Nodes()
  {
  }

  /** A message a correct node is named as the author of is one it emitted, with evidence. */
  lemma CorrectAuthor(sys: System, s: State, m: Message)
    requires Inv(sys, s) && m in s.sent && m.Authored() && m.from !in sys.faulty
    ensures m.from in s.replicas && m in Emitted(s.replicas[m.from].out) && Backed(sys.cfg, s.sent, m)
  {
  }

  /** A correct replica casts each ballot once, so equal ballots are one message. */
  lemma OneBallotOneMessage(sys: System, s: State, a: Message, b: Message)
    requires Inv(sys, s) && a in s.sent && b in s.sent
    requires a.Authored() && b.Authored() && a.from == b.from && a.from !in sys.faulty
    requires BallotOf(Broadcast(a)) == BallotOf(Broadcast(b)) && !BallotOf(Broadcast(a)).NoBallot?
    ensures a == b
  {
    var out := s.replicas[a.from].out;
    var x :| x in out && x.message == a;
    var y :| y in out && y.message == b;
    var i :| 0 <= i < |out| && out[i] == x;
    var j :| 0 <= j < |out| && out[j] == y;
    assert BallotOf(out[i]) == BallotOf(out[j]);
    assert i == j;
  }

  /** Committers are members, and a correct one commits once a round. */
  ghost predicate CommitsSingle(sys: System, sent: set<Message>) {
    && (forall m :: m in sent && m.RepairCommit? ==> m.from in sys.cfg.Nodes())
    && (forall a, b :: a in sent && b in sent && a.RepairCommit? && b.RepairCommit? && a.from == b.from &&
                       a.from !in sys.faulty && a.round == b.round ==>
                         a == b)
  }

  lemma CommitsAreSingle(sys: System, s: State)
    requires Inv(sys, s)
    ensures CommitsSingle(sys, s.sent)
  {
    forall a, b | a in s.sent && b in s.sent && a.RepairCommit? && b.RepairCommit? && a.from == b.from &&
                  a.from !in sys.faulty && a.round == b.round
      ensures a == b
    {
      OneBallotOneMessage(sys, s, a, b);
    }
  }

  lemma CommitQuorum(sys: System, sent: set<Message>, round: nat, view: nat, hash: nat) returns (voters: set<NodeId>)
    requires CommitsSingle(sys, sent) && |CommitVotes(sent, view, round, hash)| >= sys.cfg.ByzQuorum()
    ensures |voters| >= sys.cfg.ByzQuorum() && voters <= sys.cfg.Nodes()
    ensures forall q :: q in voters ==> RepairCommit(q, view, round, hash) in sent
  {
    voters := Senders(CommitVotes(sent, view, round, hash));
    VotesAreSenders(sent, view, round, hash, 0);
  }

  lemma ByzantineQuorumsMeet(sys: System, a: set<NodeId>, b: set<NodeId>) returns (q: NodeId)
    requires sys.WellFormed() && a <= sys.cfg.Nodes() && b <= sys.cfg.Nodes()
    requires |a| >= sys.cfg.ByzQuorum() && |b| >= sys.cfg.ByzQuorum()
    ensures q in a && q in b && q !in sys.faulty
  {
    NodeCount(sys.cfg);
    q := QuorumsMeet(sys.cfg.Nodes(), sys.faulty, a, b);
  }

  /** At most one (view, history) gathers a commit quorum in a round. */
  lemma CommitQuorumsAgree(sys: System, sent: set<Message>, round: nat, v1: nat, h1: nat, v2: nat, h2: nat)
    requires sys.WellFormed() && CommitsSingle(sys, sent)
    requires |CommitVotes(sent, v1, round, h1)| >= sys.cfg.ByzQuorum()
    requires |CommitVotes(sent, v2, round, h2)| >= sys.cfg.ByzQuorum()
    ensures v1 == v2 && h1 == h2
  {
    var a := CommitQuorum(sys, sent, round, v1, h1);
    var b := CommitQuorum(sys, sent, round, v2, h2);
    var q := ByzantineQuorumsMeet(sys, a, b);
    assert RepairCommit(q, v1, round, h1) == RepairCommit(q, v2, round, h2);
  }

  /** Round agreement across views: correct replicas that apply repair in the same round
      apply the same history, in the same view. */
  lemma RoundAgreement(sys: System, run: seq<Action>, a: Message, b: Message)
    requires sys.WellFormed()
    requires a in After(sys, run).sent && a.RepairDone? && a.from !in sys.faulty
    requires b in After(sys, run).sent && b.RepairDone? && b.from !in sys.faulty
    requires a.round == b.round
    ensures a.view == b.view && a.historyHash == b.historyHash
  {
    var s := After(sys, run);
    AlwaysInv(sys, run);
    CorrectAuthor(sys, s, a);
    CorrectAuthor(sys, s, b);
    CommitsAreSingle(sys, s);
    CommitQuorumsAgree(sys, s.sent, a.round, a.view, a.historyHash, b.view, b.historyHash);
  }

  /** Validity with provenance: an applied history was proposed for its (view, round), and at
      least `n - 2f` correct replicas voted to prepare it. */
  lemma AppliedHistoryIsValid(sys: System, run: seq<Action>, m: Message)
    requires sys.WellFormed()
    requires m in After(sys, run).sent && m.RepairDone? && m.from !in sys.faulty
    ensures m.historyHash in HistoryHashes(After(sys, run).sent, m.view, m.round)
    ensures |Senders(PrepareVotes(After(sys, run).sent, m.view, m.round, m.historyHash)) * sys.Correct()|
            >= sys.cfg.n - 2 * sys.cfg.f
  {
    var s := After(sys, run);
    AlwaysInv(sys, run);
    CorrectAuthor(sys, s, m);
    var commits := CommitVotes(s.sent, m.view, m.round, m.historyHash);
    var prepares := PrepareVotes(s.sent, m.view, m.round, m.historyHash);
    VotesAreSenders(s.sent, m.view, m.round, m.historyHash, 0);
    var q := CorrectMember(sys.faulty, Senders(commits));
    CorrectAuthor(sys, s, RepairCommit(q, m.view, m.round, m.historyHash));
    var voters := Senders(prepares);
    AuthorsAreMembers(sys, s, prepares);
    assert voters - sys.faulty == voters * sys.Correct();
    assert |voters| == |voters - sys.faulty| + |voters * sys.faulty|;
    SubsetCard(voters * sys.faulty, sys.faulty);
    var r := CorrectMember(sys.faulty, voters);
    CorrectAuthor(sys, s, RepairPrepare(r, m.view, m.round, m.historyHash));
  }

  /** `f + 1` REPAIR-DONE senders include a correct one, whose DONE a commit quorum backs. */
  lemma DonesCertify(sys: System, s: State, round: nat, v: nat) returns (view: nat, hash: nat)
    requires Inv(sys, s) && sys.WellFormed()
    requires |Senders(DoneVotes(s.sent, v, round))| >= sys.cfg.FPlus1()
    ensures |CommitVotes(s.sent, view, round, hash)| >= sys.cfg.ByzQuorum()
  {
    var r := CorrectMember(sys.faulty, Senders(DoneVotes(s.sent, v, round)));
    var m :| m in DoneVotes(s.sent, v, round) && m.from == r;
    CorrectAuthor(sys, s, m);
    view, hash := m.view, m.historyHash;
  }

  lemma OneCertificate(sys: System, sent: set<Message>, round: nat, view: nat, hash: nat)
    requires sys.WellFormed() && CommitsSingle(sys, sent)
    requires |CommitVotes(sent, view, round, hash)| >= sys.cfg.ByzQuorum()
    ensures forall v, h :: |Senders(CommitVotes(sent, v, round, h))| >= sys.cfg.ByzQuorum() <==> v == view && h == hash
  {
    forall v, h ensures |Senders(CommitVotes(sent, v, round, h))| >= sys.cfg.ByzQuorum() <==> v == view && h == hash {
      VotesAreSenders(sent, v, round, h, 0);
      if |Senders(CommitVotes(sent, v, round, h))| >= sys.cfg.ByzQuorum() {
        CommitQuorumsAgree(sys, sent, round, v, h, view, hash);
      }
    }
  }

  /** If no sender issued two REPAIR-DONEs for one (view, round), a round that any correct
      replica has left, by applying or by catching up, has exactly one certified history. */
  lemma LeftRoundsAreCertified(sys: System, run: seq<Action>, q: NodeId, round: nat)
      returns (view: nat, hash: nat)
    requires sys.WellFormed() && q in sys.Correct()
    requires forall v :: OnePerSender(DoneVotes(After(sys, run).sent, v, round))
    requires q in After(sys, run).replicas && round < After(sys, run).replicas[q].st.round
    ensures forall v, h :: |Senders(CommitVotes(After(sys, run).sent, v, round, h))| >= sys.cfg.ByzQuorum()
                           <==> v == view && h == hash
  {
    var s := After(sys, run);
    AlwaysInv(sys, run);
    assert Leavable(sys.cfg, s.sent, round);
    if v :| |DoneVotes(s.sent, v, round)| >= sys.cfg.FPlus1() {
      SendersVersusMessages(DoneVotes(s.sent, v, round));
      view, hash := DonesCertify(sys, s, round, v);
    } else {
      view, hash :| |CommitVotes(s.sent, view, round, hash)| >= sys.cfg.ByzQuorum();
    }
    CommitsAreSingle(sys, s);
    OneCertificate(sys, s.sent, round, view, hash);
  }

  /** At most one history hash was ever proposed in the (view, round). */
  ghost predicate SingleProposal(sent: set<Message>, view: nat, round: nat) {
    forall g, h :: g in HistoryHashes(sent, view, round) && h in HistoryHashes(sent, view, round) ==> g == h
  }

  ghost predicate InVote(st: ReplicaState, view: nat, round: nat) {
    (st.phase.PreparePhase? || st.phase.CommitPhase?) && st.view == view && st.round == round
  }

  /** With a single proposal, Byzantine votes cannot split the prepare phase: replicas voting
      in one (view, round) hold one history, and no correct replica prepares two. */
  lemma PrepareAgreement(sys: System, run: seq<Action>, view: nat, round: nat)
    requires sys.WellFormed() && SingleProposal(After(sys, run).sent, view, round)
    ensures var s := After(sys, run);
            && (forall q, r :: q in s.replicas && r in s.replicas && InVote(s.replicas[q].st, view, round) &&
                               InVote(s.replicas[r].st, view, round) ==>
                                 s.replicas[q].st.proposed == s.replicas[r].st.proposed)
            && (forall q, r, g, h :: q !in sys.faulty && r !in sys.faulty &&
                                     RepairPrepare(q, view, round, g) in s.sent &&
                                     RepairPrepare(r, view, round, h) in s.sent ==>
                                       g == h)
  {
    AlwaysInv(sys, run);
    var s := After(sys, run);
    forall q, r, g, h | q !in sys.faulty && r !in sys.faulty && RepairPrepare(q, view, round, g) in s.sent &&
                        RepairPrepare(r, view, round, h) in s.sent
      ensures g == h
    {
      CorrectAuthor(sys, s, RepairPrepare(q, view, round, g));
      CorrectAuthor(sys, s, RepairPrepare(r, view, round, h));
    }
    forall q, r | q in s.replicas && r in s.replicas && InVote(s.replicas[q].st, view, round) &&
                  InVote(s.replicas[r].st, view, round)
      ensures s.replicas[q].st.proposed == s.replicas[r].st.proposed
    {
      assert Anchored(s.replicas[q].st, s.sent) && Anchored(s.replicas[r].st, s.sent);
    }
  }

  /** A correct proposer leads the view, and proposes a size between `n - f` and `n`. */
  lemma CorrectProposal(sys: System, s: State, m: Message)
    requires sys.WellFormed() && Inv(sys, s) && m in s.sent && m.RepairHistory? && m.from !in sys.faulty
    ensures IsLeader(sys.cfg, m.from, m.view) && sys.cfg.n - sys.cfg.f <= m.historyHash <= sys.cfg.n
  {
    NodeCount(sys.cfg);
    CorrectAuthor(sys, s, m);
    AuthorsAreMembers(sys, s, LogVotes(s.sent, m.view, m.round));
    SubsetCard(Senders(LogVotes(s.sent, m.view, m.round)), sys.cfg.Nodes());
  }

  /** Two correct proposals for one (view, round) are one message. */
  lemma CorrectProposalsSingle(sys: System, s: State, a: Message, b: Message)
    requires sys.WellFormed() && Inv(sys, s) && a in s.sent && b in s.sent && a.RepairHistory? && b.RepairHistory?
    requires a.from !in sys.faulty && b.from !in sys.faulty && a.view == b.view && a.round == b.round
    ensures a == b
  {
    CorrectProposal(sys, s, a);
    CorrectProposal(sys, s, b);
    OneBallotOneMessage(sys, s, a, b);
  }

  /** When every replica follows the code, proposals are single, made by the view's leader,
      and both proposed and applied log sizes lie between `n - f` and `n`. */
  lemma FaultFreeProposals(sys: System, run: seq<Action>)
    requires sys.WellFormed() && sys.faulty == {}
    ensures forall view, round :: SingleProposal(After(sys, run).sent, view, round)
    ensures forall m :: m in After(sys, run).sent && m.RepairHistory? ==> IsLeader(sys.cfg, m.from, m.view)
    ensures forall m :: m in After(sys, run).sent && (m.RepairHistory? || m.RepairDone?) ==>
              sys.cfg.n - sys.cfg.f <= m.historyHash <= sys.cfg.n
  {
    var s := After(sys, run);
    AlwaysInv(sys, run);
    forall m | m in s.sent && m.RepairHistory?
      ensures IsLeader(sys.cfg, m.from, m.view) && sys.cfg.n - sys.cfg.f <= m.historyHash <= sys.cfg.n
    {
      CorrectProposal(sys, s, m);
    }
    forall view, round, g, h | g in HistoryHashes(s.sent, view, round) && h in HistoryHashes(s.sent, view, round)
      ensures g == h
    {
      var a :| a in s.sent && a.RepairHistory? && a.view == view && a.round == round && a.historyHash == g;
      var b :| b in s.sent && b.RepairHistory? && b.view == view && b.round == round && b.historyHash == h;
      CorrectProposalsSingle(sys, s, a, b);
    }
    forall m | m in s.sent && m.RepairDone? ensures sys.cfg.n - sys.cfg.f <= m.historyHash <= sys.cfg.n {
      AppliedHistoryIsValid(sys, run, m);
    }
  }

  /** When every replica follows the code, all replicas voting in one (view, round) hold the
      same history, of a size between `n - f` and `n`, which the view's leader proposed. */
  lemma FaultFreeAgreement(sys: System, run: seq<Action>, q: NodeId, r: NodeId, view: nat, round: nat)
    requires sys.WellFormed() && sys.faulty == {}
    requires q in After(sys, run).replicas && InVote(After(sys, run).replicas[q].st, view, round)
    requires r in After(sys, run).replicas && InVote(After(sys, run).replicas[r].st, view, round)
    ensures After(sys, run).replicas[q].st.proposed == After(sys, run).replicas[r].st.proposed
    ensures sys.cfg.n - sys.cfg.f <= After(sys, run).replicas[q].st.proposed <= sys.cfg.n
    ensures exists leader :: IsLeader(sys.cfg, leader, view) &&
              RepairHistory(leader, view, round, After(sys, run).replicas[q].st.proposed) in After(sys, run).sent
  {
    FaultFreeProposals(sys, run);
    PrepareAgreement(sys, run, view, round);
    AlwaysInv(sys, run);
    var st := After(sys, run).replicas[q].st;
    assert Anchored(st, After(sys, run).sent);
    var m :| m in After(sys, run).sent && m.RepairHistory? && m.view == view && m.round == round &&
             m.historyHash == st.proposed;
    assert m == RepairHistory(m.from, view, round, st.proposed);
  }

  /** A correct replica in CommitPhase still stores PREPAREs from `n - f` senders for its
      current view, round and history. */
  lemma CommitCertificatePersists(sys: System, run: seq<Action>, q: NodeId)
    requires sys.WellFormed() && q in After(sys, run).replicas
    requires After(sys, run).replicas[q].st.phase.CommitPhase?
    ensures var st := After(sys, run).replicas[q].st;
            |Senders(PrepareVotes(st.prepareMsgs, st.view, st.round, st.proposed))| >= sys.cfg.ByzQuorum()
  {
    AlwaysInv(sys, run);
    var st := After(sys, run).replicas[q].st;
    assert Certified(sys.cfg, st);
    VotesAreSenders(st.prepareMsgs, st.view, st.round, st.proposed, 0);
  }

  /** No correct replica voted to prepare two histories in the (view, round). */
  ghost predicate PreparesSingle(sys: System, sent: set<Message>, view: nat, round: nat) {
    forall q, g, h :: q !in sys.faulty && RepairPrepare(q, view, round, g) in sent &&
                      RepairPrepare(q, view, round, h) in sent ==>
                        g == h
  }

  /** The prepare certificate of a replica in CommitPhase, as a quorum of members. */
  lemma PrepareQuorum(sys: System, s: State, q: NodeId) returns (voters: set<NodeId>)
    requires Inv(sys, s) && q in s.replicas && s.replicas[q].st.phase.CommitPhase?
    ensures |voters| >= sys.cfg.ByzQuorum() && voters <= sys.cfg.Nodes()
    ensures var st := s.replicas[q].st;
            forall r :: r in voters ==> RepairPrepare(r, st.view, st.round, st.proposed) in s.sent
  {
    var st := s.replicas[q].st;
    assert Certified(sys.cfg, st) && Heard(st, s.sent);
    voters := Senders(PrepareVotes(st.prepareMsgs, st.view, st.round, st.proposed));
    VotesAreSenders(st.prepareMsgs, st.view, st.round, st.proposed, 0);
    AuthorsAreMembers(sys, s, PrepareVotes(st.prepareMsgs, st.view, st.round, st.proposed));
  }

  /** Correct replicas that voted to prepare both histories in the (view, round). */
  ghost function PreparedBoth(sys: System, sent: set<Message>, view: nat, round: nat, g: nat, h: nat): set<NodeId> {
    set q | q in sys.Correct() && RepairPrepare(q, view, round, g) in sent && RepairPrepare(q, view, round, h) in sent
  }

  /** Two quorums share at least `n - 3f` correct members. */
  lemma QuorumOverlap(sys: System, a: set<NodeId>, b: set<NodeId>)
    requires sys.WellFormed() && a <= sys.cfg.Nodes() && b <= sys.cfg.Nodes()
    requires |a| >= sys.cfg.ByzQuorum() && |b| >= sys.cfg.ByzQuorum()
    ensures |a * b * sys.Correct()| >= sys.cfg.n - 3 * sys.cfg.f
  {
    NodeCount(sys.cfg);
    assert |a + b| + |a * b| == |a| + |b|;
    SubsetCard(a + b, sys.cfg.Nodes());
    var both := a * b;
    assert both == both * sys.Correct() + both * sys.faulty;
    SubsetCard(both * sys.faulty, sys.faulty);
  }

  lemma BothQuorumsPrepared(sys: System, sent: set<Message>, a: set<NodeId>, b: set<NodeId>, view: nat, round: nat,
                            g: nat, h: nat)
    requires sys.WellFormed() && a <= sys.cfg.Nodes() && b <= sys.cfg.Nodes()
    requires |a| >= sys.cfg.ByzQuorum() && |b| >= sys.cfg.ByzQuorum()
    requires forall r :: r in a ==> RepairPrepare(r, view, round, g) in sent
    requires forall r :: r in b ==> RepairPrepare(r, view, round, h) in sent
    ensures |PreparedBoth(sys, sent, view, round, g, h)| >= sys.cfg.n - 3 * sys.cfg.f
    ensures PreparesSingle(sys, sent, view, round) ==> g == h
  {
    var both := PreparedBoth(sys, sent, view, round, g, h);
    QuorumOverlap(sys, a, b);
    SubsetCard(a * b * sys.Correct(), both);
    var voter :| voter in both;
  }

  /** Whatever was proposed: correct replicas in CommitPhase of one (view, round) hold the same
      history, or at least `n - 3f` correct replicas voted to prepare both. */
  lemma CommitPhaseAgreement(sys: System, run: seq<Action>, q: NodeId, r: NodeId)
    requires sys.WellFormed() && q in After(sys, run).replicas && r in After(sys, run).replicas
    requires var x, y := After(sys, run).replicas[q].st, After(sys, run).replicas[r].st;
             x.phase.CommitPhase? && y.phase.CommitPhase? && x.view == y.view && x.round == y.round
    ensures var x, y := After(sys, run).replicas[q].st, After(sys, run).replicas[r].st;
            && |PreparedBoth(sys, After(sys, run).sent, x.view, x.round, x.proposed, y.proposed)|
               >= sys.cfg.n - 3 * sys.cfg.f
            && (PreparesSingle(sys, After(sys, run).sent, x.view, x.round) ==> x.proposed == y.proposed)
  {
    var s := After(sys, run);
    var x, y := s.replicas[q].st, s.replicas[r].st;
    AlwaysInv(sys, run);
    var a := PrepareQuorum(sys, s, q);
    var b := PrepareQuorum(sys, s, r);
    BothQuorumsPrepared(sys, s.sent, a, b, x.view, x.round, x.proposed, y.proposed);
  }

  /** Every TIMEOUT-PROOF a correct replica broadcast is backed by a correct replica's
      TIMEOUT for the same round and index. */
  lemma TimeoutProofIsSound(sys: System, run: seq<Action>, q: NodeId, round: nat, idx: nat) returns (voter: NodeId)
    requires sys.WellFormed() && q in After(sys, run).replicas
    requires TimeoutProof(round, idx) in Emitted(After(sys, run).replicas[q].out)
    ensures voter in After(sys, run).replicas
    ensures TimeoutMsg(voter, round, idx) in Emitted(After(sys, run).replicas[voter].out)
  {
    var s := After(sys, run);
    AlwaysInv(sys, run);
    assert Backed(sys.cfg, s.sent, TimeoutProof(round, idx));
    VotesAreSenders(s.sent, 0, round, 0, idx);
    voter := CorrectMember(sys.faulty, Senders(TimeoutVotes(s.sent, round, idx)));
    CorrectAuthor(sys, s, TimeoutMsg(voter, round, idx));
  }

  /** If no sender announced two checkpoint hashes for one (round, index), every STATE-REQUEST
      a correct replica broadcast is backed by a correct replica's CHECKPOINT for its index. */
  lemma StateRequestIsSound(sys: System, run: seq<Action>, q: NodeId, idx: nat)
      returns (announcer: NodeId, round: nat, hash: Hash)
    requires sys.WellFormed() && q in After(sys, run).replicas
    requires StateRequest(q, idx) in Emitted(After(sys, run).replicas[q].out)
    requires forall r :: OnePerSender(CheckpointVotes(After(sys, run).sent, r, idx))
    ensures announcer in After(sys, run).replicas
    ensures Checkpoint(announcer, round, idx, hash) in Emitted(After(sys, run).replicas[announcer].out)
  {
    var s := After(sys, run);
    AlwaysInv(sys, run);
    assert Backed(sys.cfg, s.sent, StateRequest(q, idx));
    round :| |CheckpointVotes(s.sent, round, idx)| >= sys.cfg.FPlus1();
    SendersVersusMessages(CheckpointVotes(s.sent, round, idx));
    announcer := CorrectMember(sys.faulty, Senders(CheckpointVotes(s.sent, round, idx)));
    var m :| m in CheckpointVotes(s.sent, round, idx) && m.from == announcer;
    hash := m.logHash;
    CorrectAuthor(sys, s, m);
  }

  /** In every reachable state the store's keys are `0..size`, the log lies within it, and
      the log is placeholders below some base and hash-chained above it. */
  lemma LogsAreCanonical(sys: System, run: seq<Action>, q: NodeId)
    requires sys.WellFormed() && q in After(sys, run).replicas
    ensures var t := After(sys, run).replicas[q];
            && Dense(t.st.store) && t.st.kvSize <= SizeOf(t.st.store)
            && Canonical(sys.cfg, t.st.store, t.st.kvSize, t.base)
  {
    AlwaysInv(sys, run);
  }

  /** The live part of a replica's log. */
  ghost function LogOf(st: ReplicaState): (log: seq<KvEntry>)
    requires forall k: nat :: k < st.kvSize ==> k in st.store
  {
    seq(st.kvSize, i requires 0 <= i < st.kvSize => st.store[i])
  }

  lemma SameBasePrefix(cfg: Config, x: Trail, y: Trail)
    requires LogInv(cfg, x) && LogInv(cfg, y) && x.base == y.base && x.st.kvSize <= y.st.kvSize
    ensures LogOf(x.st) <= LogOf(y.st)
  {
    forall k | 0 <= k < x.st.kvSize ensures LogOf(x.st)[k] == LogOf(y.st)[k] {
      SameBaseSameEntries(cfg, x.st.store, x.st.kvSize, y.st.store, y.st.kvSize, x.base, k);
    }
  }

  /** The replica applied repair in round `round`, is in the next one and has not aligned
      in it. */
  ghost predicate FreshFromRepair(s: State, q: NodeId, round: nat) {
    && q in s.replicas
    && s.replicas[q].st.round == round + 1 && round + 1 !in s.replicas[q].aligned
    && exists view, hash :: RepairDone(q, view, round, hash) in s.sent
  }

  /** Two correct replicas fresh from the same repair hold logs of which one is a prefix of
      the other, whatever else they received in between. */
  lemma PostRepairLogsAgree(sys: System, run: seq<Action>, q: NodeId, r: NodeId, round: nat)
    requires sys.WellFormed()
    requires FreshFromRepair(After(sys, run), q, round) && FreshFromRepair(After(sys, run), r, round)
    ensures var x, y := After(sys, run).replicas[q].st, After(sys, run).replicas[r].st;
            && (forall k: nat :: (k < x.kvSize ==> k in x.store) && (k < y.kvSize ==> k in y.store))
            && (LogOf(x) <= LogOf(y) || LogOf(y) <= LogOf(x))
  {
    var s := After(sys, run);
    AlwaysInv(sys, run);
    var x, y := s.replicas[q], s.replicas[r];
    assert LogInv(sys.cfg, x) && LogInv(sys.cfg, y);
    var v1, h1 :| RepairDone(q, v1, round, h1) in s.sent;
    var v2, h2 :| RepairDone(r, v2, round, h2) in s.sent;
    RoundAgreement(sys, run, RepairDone(q, v1, round, h1), RepairDone(r, v2, round, h2));
    CorrectAuthor(sys, s, RepairDone(q, v1, round, h1));
    CorrectAuthor(sys, s, RepairDone(r, v2, round, h2));
    assert BaseInv(x) && BaseInv(y);
    if x.st.kvSize <= y.st.kvSize {
      SameBasePrefix(sys.cfg, x, y);
    } else {
      SameBasePrefix(sys.cfg, y, x);
    }
  }

  /** A correct replica SYNCs an index of a round in which it does not align with one
      message only. */
  lemma CorrectSyncsAreSingle(sys: System, s: State, a: Message, b: Message)
    requires Inv(sys, s) && a in s.sent && b in s.sent && a.Sync? && b.Sync?
    requires a.from == b.from && a.from in sys.Correct() && a.round == b.round && a.logIdx == b.logIdx
    requires a.round !in s.replicas[a.from].aligned
    ensures a == b
  {
    CorrectAuthor(sys, s, a);
    CorrectAuthor(sys, s, b);
    assert SyncsCurrent(s.replicas[a.from]);
  }

  /** No Byzantine sender contributes two SYNCs for the same (round, index, hash). */
  ghost predicate SingleByzantineSyncs(sys: System, sent: set<Message>, round: nat, idx: nat) {
    forall a, b :: a in sent && b in sent && a.Sync? && b.Sync? && a.from in sys.faulty && b.from == a.from &&
                   a.round == b.round == round && a.logIdx == b.logIdx == idx && a.logHash == b.logHash ==>
                     a == b
  }

  /** A correct replica's SYNCs for one hash are one message, whether it aligned or not. */
  lemma CorrectSyncPerHash(sys: System, s: State, a: Message, b: Message)
    requires Inv(sys, s) && a in s.sent && b in s.sent && a.Sync? && b.Sync?
    requires a.from == b.from && a.from in sys.Correct()
    requires a.round == b.round && a.logIdx == b.logIdx && a.logHash == b.logHash
    ensures a == b
  {
    CorrectAuthor(sys, s, a);
    CorrectAuthor(sys, s, b);
    assert SyncsCurrent(s.replicas[a.from]);
  }

  /** The SYNCs for one hash are as many as their senders. */
  lemma SyncQuorum(sys: System, s: State, round: nat, idx: nat, hash: Hash) returns (voters: set<NodeId>)
    requires Inv(sys, s) && |MatchingSyncs(s.sent, round, idx, hash)| >= sys.cfg.FastQuorum()
    requires SingleByzantineSyncs(sys, s.sent, round, idx)
    ensures |voters| >= sys.cfg.FastQuorum() && voters <= sys.cfg.Nodes()
    ensures forall q :: q in voters ==> exists m :: m in MatchingSyncs(s.sent, round, idx, hash) && m.from == q
  {
    var syncs := MatchingSyncs(s.sent, round, idx, hash);
    voters := Senders(syncs);
    AuthorsAreMembers(sys, s, syncs);
    forall u, v | u in syncs && v in syncs && u.from == v.from ensures u == v {
      if u.from !in sys.faulty { CorrectSyncPerHash(sys, s, u, v); }
    }
    SendersVersusMessages(syncs);
  }

  /** The correct replicas that completed an alignment in the round. */
  ghost function AlignedIn(s: State, round: nat): set<NodeId> {
    set q | q in s.replicas && round in s.replicas[q].aligned
  }

  /** Checkpoint agreement within a round: unless too many correct replicas aligned in it, all
      CHECKPOINTs that correct replicas formed for one index carry the same hash. */
  lemma CheckpointAgreement(sys: System, run: seq<Action>, a: Message, b: Message)
    requires sys.WellFormed()
    requires a in After(sys, run).sent && a.Checkpoint? && a.from !in sys.faulty
    requires b in After(sys, run).sent && b.Checkpoint? && b.from !in sys.faulty
    requires a.round == b.round && a.logIdx == b.logIdx
    requires sys.cfg.n > |sys.faulty + AlignedIn(After(sys, run), a.round)| + 2 * sys.cfg.p
    requires SingleByzantineSyncs(sys, After(sys, run).sent, a.round, a.logIdx)
    ensures a.logHash == b.logHash
  {
    var s := After(sys, run);
    AlwaysInv(sys, run);
    CorrectAuthor(sys, s, a);
    CorrectAuthor(sys, s, b);
    var x := SyncQuorum(sys, s, a.round, a.logIdx, a.logHash);
    var y := SyncQuorum(sys, s, b.round, b.logIdx, b.logHash);
    NodeCount(sys.cfg);
    var q := QuorumsMeet(sys.cfg.Nodes(), sys.faulty + AlignedIn(s, a.round), x, y);
    var u :| u in MatchingSyncs(s.sent, a.round, a.logIdx, a.logHash) && u.from == q;
    var v :| v in MatchingSyncs(s.sent, b.round, b.logIdx, b.logHash) && v.from == q;
    CorrectSyncsAreSingle(sys, s, u, v);
  }

  /** At the protocol's design size, up to `2f` correct replicas may have aligned. */
  lemma CheckpointAgreementAtDesignSize(sys: System, run: seq<Action>, a: Message, b: Message)
    requires sys.WellFormed() && sys.cfg.n >= 3 * sys.cfg.f + 2 * sys.cfg.p + 1
    requires a in After(sys, run).sent && a.Checkpoint? && a.from !in sys.faulty
    requires b in After(sys, run).sent && b.Checkpoint? && b.from !in sys.faulty
    requires a.round == b.round && a.logIdx == b.logIdx
    requires |AlignedIn(After(sys, run), a.round)| <= 2 * sys.cfg.f
    requires SingleByzantineSyncs(sys, After(sys, run).sent, a.round, a.logIdx)
    ensures a.logHash == b.logHash
  {
    var aligned := AlignedIn(After(sys, run), a.round);
    assert |sys.faulty + aligned| + |sys.faulty * aligned| == |sys.faulty| + |aligned|;
    CheckpointAgreement(sys, run, a, b);
  }

  /** A checkpoint that a correct replica hands out in a STATE-REPLY, unless it is the initial
      one, rests on `n - p` SYNCs for exactly that index and hash, or the replica aligned, a
      STATE-REPLY it received carried the index, and the hash is that of the placeholder entry
      at the index. */
  lemma StateRepliesAreSourced(sys: System, run: seq<Action>, m: Message)
    requires sys.WellFormed() && m in After(sys, run).sent && m.StateReply?
    requires m.from in After(sys, run).replicas
    ensures || (m.chkptIdx == 0 && m.chkptHash == ZERO_HASH)
            || (exists round :: |MatchingSyncs(After(sys, run).sent, round, m.chkptIdx, m.chkptHash)|
                                >= sys.cfg.FastQuorum())
            || ((exists from, h :: StateReply(from, m.chkptIdx, h) in Received(sys, run, m.from)) &&
                After(sys, run).replicas[m.from].aligned != {} &&
                m.chkptHash == sys.cfg.entryHash(Synthetic(m.chkptIdx)))
  {
    var s := After(sys, run);
    AlwaysInv(sys, run);
    CorrectAuthor(sys, s, m);
    AlwaysSourced(sys, run, m.from);
    var t := s.replicas[m.from];
    if round :| Checkpoint(m.from, round, m.chkptIdx, m.chkptHash) in Emitted(t.out) {
      assert Backed(sys.cfg, s.sent, Checkpoint(m.from, round, m.chkptIdx, m.chkptHash));
    }
  }
}
