/** The REPAIR transitions of the formal specification (`specs/aspen.qnt`), and the proof
    that every call on a replica in a REPAIR phase is a sequence of them. */
module QuintRepair {
  import opened Types
  import opened Dispatch
  import opened Counting
  import opened Voting
  import Repair

  /** The specification's local state, on the fields that REPAIR reads and writes. */
  datatype QuintState = QuintState(pid: NodeId, phase: Phase, round: nat, view: nat, startIdx: nat, kvSize: nat,
                                   inRepair: bool, proposed: nat)

  datatype Rule = HistoryRule | PrepareRule | CommitRule | ApplyRule | CatchUpRule | ViewRule

  datatype Firing = Firing(rule: Rule, param: nat)

  /** `fold(0, max)` over the proposed hashes. */
  ghost function FoldMax(s: set<nat>): nat {
    if s == {} then 0
    else
      var x :| x in s;
      var rest := FoldMax(s - {x});
      if x > rest then x else rest
  }

  /** `listen_*`: the parameters with which a rule may fire. */
  ghost function Listen(cfg: Config, q: QuintState, msgs: set<Message>, viewTimeout: bool, rule: Rule): set<nat> {
    match rule
    case HistoryRule =>
      var senders := Senders(LogVotes(msgs, q.view, q.round));
      if q.phase.CollectingLogs? && IsLeader(cfg, q.pid, q.view) && |senders| >= cfg.ByzQuorum()
      then {|senders|} else {}
    case PrepareRule =>
      if (q.phase.CollectingLogs? || q.phase.PreparePhase?) && Histories(msgs, q.view, q.round) != {}
      then {FoldMax(HistoryHashes(msgs, q.view, q.round))} else {}
    case CommitRule =>
      if q.phase.PreparePhase? && |Senders(PrepareVotes(msgs, q.view, q.round, q.proposed))| >= cfg.ByzQuorum()
      then {q.proposed} else {}
    case ApplyRule =>
      if q.phase.CommitPhase? && |Senders(CommitVotes(msgs, q.view, q.round, q.proposed))| >= cfg.ByzQuorum()
      then {q.proposed} else {}
    case CatchUpRule =>
      if RepairPhase(q.phase) && |Senders(DoneVotes(msgs, q.view, q.round))| >= cfg.FPlus1() &&
         Histories(msgs, q.view, q.round) != {}
      then {q.round} else {}
    case ViewRule =>
      if q.phase.CollectingLogs? && viewTimeout then {q.view + 1} else {}
  }

  /** `handle_*`: the post-state of a firing. */
  function Fire(q: QuintState, f: Firing): QuintState {
    match f.rule
    case HistoryRule => q.(phase := PreparePhase, proposed := f.param)
    case PrepareRule => q.(phase := PreparePhase, proposed := f.param)
    case CommitRule => q.(phase := CommitPhase)
    case ApplyRule =>
      q.(phase := Speculative, round := q.round + 1, startIdx := f.param, kvSize := f.param, inRepair := false,
         proposed := 0)
    case CatchUpRule =>
      q.(phase := Speculative, round := q.round + 1, startIdx := q.kvSize, inRepair := false, proposed := 0)
    case ViewRule => q.(view := f.param)
  }

  /** `handle_*`: the broadcasts of a firing. LOG hashes are abstracted away, because the
      specification and the code hash logs differently. */
  function Broadcasts(q: QuintState, f: Firing): seq<Message> {
    match f.rule
    case HistoryRule => [RepairHistory(q.pid, q.view, q.round, f.param)]
    case PrepareRule => [RepairPrepare(q.pid, q.view, q.round, f.param)]
    case CommitRule => [RepairCommit(q.pid, q.view, q.round, f.param)]
    case ApplyRule => [RepairDone(q.pid, q.view, q.round, f.param), CommittedReply(q.pid, q.round, q.kvSize)]
    case CatchUpRule => []
    case ViewRule => [LogMsg(q.pid, f.param, q.round, ZERO_HASH)]
  }

  function Follow(q: QuintState, path: seq<Firing>): QuintState {
    if path == [] then q else Fire(Follow(q, path[..|path| - 1]), path[|path| - 1])
  }

  function AllBroadcasts(q: QuintState, path: seq<Firing>): seq<Message> {
    if path == [] then []
    else
      var front := path[..|path| - 1];
      AllBroadcasts(q, front) + Broadcasts(Follow(q, front), path[|path| - 1])
  }

  ghost predicate Legal(cfg: Config, q: QuintState, msgs: set<Message>, viewTimeout: bool, path: seq<Firing>) {
    path == [] ||
    var front, f := path[..|path| - 1], path[|path| - 1];
    Legal(cfg, q, msgs, viewTimeout, front) && f.param in Listen(cfg, Follow(q, front), msgs, viewTimeout, f.rule)
  }

  /** A rule is fired if it may fire. */
  ghost function Attempt(cfg: Config, q: QuintState, msgs: set<Message>, viewTimeout: bool, rule: Rule): seq<Firing> {
    var params := Listen(cfg, q, msgs, viewTimeout, rule);
    if params == {} then []
    else
      var p :| p in params;
      [Firing(rule, p)]
  }

  /** Rules attempted one after the other. */
  ghost function Attempts(cfg: Config, q: QuintState, msgs: set<Message>, viewTimeout: bool, rules: seq<Rule>)
      : seq<Firing> {
    if rules == [] then []
    else
      var front := Attempts(cfg, q, msgs, viewTimeout, rules[..|rules| - 1]);
      front + Attempt(cfg, Follow(q, front), msgs, viewTimeout, rules[|rules| - 1])
  }

  /** The order in which a delivery attempts them. */
  const MESSAGE_RULES: seq<Rule> := [HistoryRule, PrepareRule, CommitRule, ApplyRule, CatchUpRule]

  /** The specification can take `path` from `q` to `q'`, broadcasting `out`. */
  ghost predicate Takes(cfg: Config, q: QuintState, msgs: set<Message>, viewTimeout: bool, path: seq<Firing>,
                        q': QuintState, out: seq<Message>) {
    Legal(cfg, q, msgs, viewTimeout, path) && Follow(q, path) == q' && AllBroadcasts(q, path) == out
  }

  lemma TakesThen(cfg: Config, q: QuintState, msgs: set<Message>, vt: bool, p1: seq<Firing>, mid: QuintState,
                  o1: seq<Message>, p2: seq<Firing>, end: QuintState, o2: seq<Message>)
    requires |p2| <= 1
    requires Takes(cfg, q, msgs, vt, p1, mid, o1) && Takes(cfg, mid, msgs, vt, p2, end, o2)
    ensures Takes(cfg, q, msgs, vt, p1 + p2, end, o1 + o2)
  {
    if p2 == [] {
      assert p1 + p2 == p1 && o1 + o2 == o1;
    } else {
      assert p2[..0] == [];
      assert AllBroadcasts(mid, p2) == Broadcasts(mid, p2[0]);
      assert (p1 + p2)[..|p1|] == p1;
    }
  }

  // The replica seen through the specification's eyes.

  function View(st: ReplicaState): QuintState {
    QuintState(st.nodeId, st.phase, st.round, st.view, st.startIdx, st.kvSize, st.inRepair, st.proposed)
  }

  predicate RepairKind(m: Message) {
    m.LogMsg? || m.RepairHistory? || m.RepairPrepare? || m.RepairCommit? || m.RepairDone? || m.CommittedReply?
  }

  function Abstract(m: Message): Message {
    if m.LogMsg? then m.(logHash := ZERO_HASH) else m
  }

  function RepairPart(e: Effect): seq<Message> {
    if RepairKind(e.message) then [Abstract(e.message)] else []
  }

  /** The REPAIR messages among some effects, in order. */
  function RepairOutput(out: seq<Effect>): seq<Message> {
    if out == [] then [] else RepairPart(out[0]) + RepairOutput(out[1..])
  }

  lemma RepairOutputOne(e: Effect)
    ensures RepairOutput([e]) == RepairPart(e)
  {
    assert [e][1..] == [];
  }

  lemma ConcatAssociates(a: seq<Message>, b: seq<Message>, c: seq<Message>)
    ensures a + (b + c) == a + b + c
  {
  }

  lemma {:induction false} RepairOutputConcat(a: seq<Effect>, b: seq<Effect>)
    ensures RepairOutput(a + b) == RepairOutput(a) + RepairOutput(b)
  {
    if a == [] {
      assert a + b == b;
    } else {
      RepairOutputConcat(a[1..], b);
      assert (a + b)[1..] == a[1..] + b;
      ConcatAssociates(RepairPart(a[0]), RepairOutput(a[1..]), RepairOutput(b));
    }
  }

  /** The REPAIR messages a replica has stored. */
  function Stored(st: ReplicaState): set<Message> {
    (set m | m in st.logMsgs && m.LogMsg?) + (set m | m in st.historyMsgs && m.RepairHistory?) +
    (set m | m in st.prepareMsgs && m.RepairPrepare?) + (set m | m in st.commitMsgs && m.RepairCommit?) +
    (set m | m in st.doneMsgs && m.RepairDone?)
  }

  /** `msgs` is what is stored together with the message being delivered. */
  ghost predicate Tracks(st: ReplicaState, msgs: set<Message>, msg: Message) {
    forall m: Message ::
      && (m.LogMsg? ==> (m in msgs <==> m in st.logMsgs || m == msg))
      && (m.RepairHistory? ==> (m in msgs <==> m in st.historyMsgs || m == msg))
      && (m.RepairPrepare? ==> (m in msgs <==> m in st.prepareMsgs || m == msg))
      && (m.RepairCommit? ==> (m in msgs <==> m in st.commitMsgs || m == msg))
      && (m.RepairDone? ==> (m in msgs <==> m in st.doneMsgs || m == msg))
  }

  /** What the specification takes for granted: one proposal per (view, round), and no sender
      with two REPAIR-DONEs for one (view, round). */
  ghost predicate Orderly(msgs: set<Message>) {
    && (forall a, b :: a in msgs && b in msgs && a.RepairHistory? && b.RepairHistory? && a.view == b.view &&
                       a.round == b.round ==>
                         a.historyHash == b.historyHash)
    && (forall view, round :: OnePerSender(DoneVotes(msgs, view, round)))
  }

  /** One handler call is matched by the specification's `path`. */
  ghost predicate Matches(cfg: Config, st: ReplicaState, msgs: set<Message>, viewTimeout: bool, path: seq<Firing>,
                          s: Step) {
    |path| <= 1 && Takes(cfg, View(st), msgs, viewTimeout, path, View(s.st), RepairOutput(s.out))
  }

  lemma TakesOne(cfg: Config, q: QuintState, msgs: set<Message>, vt: bool, f: Firing)
    requires f.param in Listen(cfg, q, msgs, vt, f.rule)
    ensures Takes(cfg, q, msgs, vt, [f], Fire(q, f), Broadcasts(q, f))
  {
    assert [f][..0] == [];
    assert AllBroadcasts(q, [f]) == [] + Broadcasts(q, f);
  }

  /** A handler call that does what one firing does. */
  lemma MatchFiring(cfg: Config, st: ReplicaState, msgs: set<Message>, vt: bool, f: Firing, s: Step)
      returns (path: seq<Firing>)
    requires f.param in Listen(cfg, View(st), msgs, vt, f.rule)
    requires View(s.st) == Fire(View(st), f) && RepairOutput(s.out) == Broadcasts(View(st), f)
    requires Listen(cfg, View(st), msgs, vt, f.rule) == {f.param}
    ensures Matches(cfg, st, msgs, vt, path, s) && path == Attempt(cfg, View(st), msgs, vt, f.rule)
  {
    path := [f];
    TakesOne(cfg, View(st), msgs, vt, f);
  }

  lemma FoldMaxSingleton(s: set<nat>, x: nat)
    requires s == {x}
    ensures FoldMax(s) == x
  {
    assert s - {x} == {};
  }

  lemma MatchLog(cfg: Config, st: ReplicaState, m: Message, msgs: set<Message>) returns (path: seq<Firing>)
    requires RepairPhase(st.phase) && Tracks(st, msgs, m)
    ensures Matches(cfg, st, msgs, false, path, Repair.OnReceiveLogMsg(cfg, st, m))
    ensures path == Attempt(cfg, View(st), msgs, false, HistoryRule)
  {
    var s := if m.LogMsg? then st.(logMsgs := st.logMsgs + {m}) else st;
    assert LogVotes(s.logMsgs, st.view, st.round) == LogVotes(msgs, st.view, st.round);
    path := [];
    match Repair.CanBroadcastHistory(cfg, s) {
      case Some(hash) =>
        path := MatchFiring(cfg, st, msgs, false, Firing(HistoryRule, hash), Repair.BroadcastHistory(s, hash));
      case None =>
    }
  }

  /** With a single proposal, the specification's choice is that one. */
  lemma OneProposal(msgs: set<Message>, view: nat, round: nat, hash: nat)
    requires Orderly(msgs) && hash in HistoryHashes(msgs, view, round)
    ensures HistoryHashes(msgs, view, round) == {hash} && FoldMax(HistoryHashes(msgs, view, round)) == hash
    ensures Histories(msgs, view, round) != {}
  {
    var hashes := HistoryHashes(msgs, view, round);
    forall h | h in hashes ensures h == hash {}
    assert hashes == {hash};
    FoldMaxSingleton(hashes, hash);
    var p :| p in msgs && p.RepairHistory? && p.view == view && p.round == round;
    assert p in Histories(msgs, view, round);
  }

  lemma NoProposal(msgs: set<Message>, view: nat, round: nat)
    requires HistoryHashes(msgs, view, round) == {}
    ensures Histories(msgs, view, round) == {}
  {
    assert forall p :: p in Histories(msgs, view, round) ==> p.historyHash in HistoryHashes(msgs, view, round);
  }

  lemma MatchHistory(cfg: Config, st: ReplicaState, m: Message, pick: nat, msgs: set<Message>)
      returns (path: seq<Firing>)
    requires RepairPhase(st.phase) && Tracks(st, msgs, m) && Orderly(msgs)
    ensures Matches(cfg, st, msgs, false, path, Repair.OnReceiveHistory(st, m, pick))
    ensures path == Attempt(cfg, View(st), msgs, false, PrepareRule)
  {
    var s := if m.RepairHistory? then st.(historyMsgs := st.historyMsgs + {m}) else st;
    var hashes := HistoryHashes(msgs, st.view, st.round);
    assert HistoryHashes(s.historyMsgs, st.view, st.round) == hashes;
    path := [];
    match Repair.CanRepairPrepare(s, pick) {
      case Some(hash) =>
        OneProposal(msgs, st.view, st.round, hash);
        RepairOutputOne(Repair.VotePrepare(s, hash).out[0]);
        path := MatchFiring(cfg, st, msgs, false, Firing(PrepareRule, hash), Repair.VotePrepare(s, hash));
      case None =>
        if hashes == {} { NoProposal(msgs, st.view, st.round); }
    }
  }

  lemma MatchPrepare(cfg: Config, st: ReplicaState, m: Message, msgs: set<Message>) returns (path: seq<Firing>)
    requires RepairPhase(st.phase) && Tracks(st, msgs, m)
    ensures Matches(cfg, st, msgs, false, path, Repair.OnReceivePrepare(cfg, st, m))
    ensures path == Attempt(cfg, View(st), msgs, false, CommitRule)
  {
    var s := if m.RepairPrepare? then st.(prepareMsgs := st.prepareMsgs + {m}) else st;
    assert PrepareVotes(s.prepareMsgs, st.view, st.round, st.proposed)
        == PrepareVotes(msgs, st.view, st.round, st.proposed);
    VotesAreSenders(msgs, st.view, st.round, st.proposed, 0);
    path := [];
    match Repair.CanRepairCommit(cfg, s) {
      case Some(hash) =>
        path := MatchFiring(cfg, st, msgs, false, Firing(CommitRule, hash), Repair.VoteCommit(s, hash));
      case None =>
    }
  }

  lemma ApplyOutput(st: ReplicaState, hash: nat)
    ensures RepairOutput(Repair.ApplyRepair(st, hash).out) == Broadcasts(View(st), Firing(ApplyRule, hash))
  {
    var out := Repair.ApplyRepair(st, hash).out;
    assert out == out[..1] + out[1..];
    RepairOutputConcat(out[..1], out[1..]);
  }

  lemma MatchCommit(cfg: Config, st: ReplicaState, m: Message, msgs: set<Message>) returns (path: seq<Firing>)
    requires RepairPhase(st.phase) && Tracks(st, msgs, m)
    ensures Matches(cfg, st, msgs, false, path, Repair.OnReceiveCommit(cfg, st, m))
    ensures path == Attempt(cfg, View(st), msgs, false, ApplyRule)
  {
    var s := if m.RepairCommit? then st.(commitMsgs := st.commitMsgs + {m}) else st;
    assert CommitVotes(s.commitMsgs, st.view, st.round, st.proposed)
        == CommitVotes(msgs, st.view, st.round, st.proposed);
    VotesAreSenders(msgs, st.view, st.round, st.proposed, 0);
    path := [];
    match Repair.CanApplyRepair(cfg, s) {
      case Some(hash) =>
        ApplyOutput(s, hash);
        path := MatchFiring(cfg, st, msgs, false, Firing(ApplyRule, hash), Repair.ApplyRepair(s, hash));
      case None =>
    }
  }

  lemma MatchDone(cfg: Config, st: ReplicaState, m: Message, msgs: set<Message>) returns (path: seq<Firing>)
    requires Tracks(st, msgs, m) && Orderly(msgs) && (m.RepairHistory? ==> m in st.historyMsgs)
    ensures Matches(cfg, st, msgs, false, path, Repair.OnReceiveDone(cfg, st, m))
    ensures path == Attempt(cfg, View(st), msgs, false, CatchUpRule)
  {
    var s := if m.RepairDone? then st.(doneMsgs := st.doneMsgs + {m}) else st;
    assert DoneVotes(s.doneMsgs, st.view, st.round) == DoneVotes(msgs, st.view, st.round);
    assert Histories(st.historyMsgs, st.view, st.round) == Histories(msgs, st.view, st.round);
    SendersVersusMessages(DoneVotes(msgs, st.view, st.round));
    path := [];
    if Repair.CanCatchUp(cfg, s) {
      path := MatchFiring(cfg, st, msgs, false, Firing(CatchUpRule, st.round), Repair.CatchUp(s));
    }
  }

  /** Handlers of the other sub-protocols are silent while the replica is in REPAIR. */
  lemma OtherCallsSilent(cfg: Config, st: ReplicaState, call: Call)
    requires RepairPhase(st.phase) && st.inRepair
    requires !call.ReceivingLog? && !call.ReceivingHistory? && !call.ReceivingPrepare? && !call.ReceivingCommit? &&
             !call.ReceivingDone? && !call.ViewEvent?
    ensures var s := Run(cfg, st, call);
            && View(s.st) == View(st) && RepairOutput(s.out) == []
            && s.st.logMsgs == st.logMsgs && s.st.historyMsgs == st.historyMsgs && s.st.prepareMsgs == st.prepareMsgs
            && s.st.commitMsgs == st.commitMsgs && s.st.doneMsgs == st.doneMsgs
  {
  }

  function Delivered(call: Call): Option<Message> {
    match call
    case ReceivingLog(m) => Some(m)
    case ReceivingHistory(m, _) => Some(m)
    case ReceivingPrepare(m) => Some(m)
    case ReceivingCommit(m) => Some(m)
    case ReceivingDone(m) => Some(m)
    case _ => None
  }

  /** Storing the delivered message keeps the tracked set. */
  lemma CallTracks(cfg: Config, st: ReplicaState, call: Call, msgs: set<Message>, m: Message)
    requires Delivered(call) == Some(m) && Tracks(st, msgs, m)
    ensures Tracks(Run(cfg, st, call).st, msgs, m)
    ensures st.historyMsgs <= Run(cfg, st, call).st.historyMsgs
    ensures call.ReceivingHistory? && m.RepairHistory? ==> m in Run(cfg, st, call).st.historyMsgs
    ensures PhaseConsistent(st) ==> PhaseConsistent(Run(cfg, st, call).st)
    ensures RepairPhase(st.phase) && !call.ReceivingCommit? && !call.ReceivingDone? ==>
              RepairPhase(Run(cfg, st, call).st.phase)
  {
  }

  /** The first `k` handlers of a delivery, started in REPAIR. */
  ghost predicate Progress(cfg: Config, st: ReplicaState, m: Message, pick: nat, msgs: set<Message>, k: nat,
                           path: seq<Firing>, t: Trail)
    requires k <= 14
  {
    && Tracks(t.st, msgs, m) && PhaseConsistent(t.st)
    && (k <= 12 ==> RepairPhase(t.st.phase))
    && (k >= 11 && m.RepairHistory? ==> m in t.st.historyMsgs)
    && Takes(cfg, View(st), msgs, false, path, View(t.st), RepairOutput(t.out))
    && path == Attempts(cfg, View(st), msgs, false, if k <= 9 then [] else MESSAGE_RULES[..k - 9])
  }

  lemma MatchCall(cfg: Config, st: ReplicaState, call: Call, m: Message, msgs: set<Message>) returns (path: seq<Firing>)
    requires Tracks(st, msgs, m) && PhaseConsistent(st) && Orderly(msgs) && !call.ViewEvent?
    requires Delivered(call).Some? ==> Delivered(call) == Some(m)
    requires !call.ReceivingDone? ==> RepairPhase(st.phase)
    requires call.ReceivingDone? && m.RepairHistory? ==> m in st.historyMsgs
    ensures Matches(cfg, st, msgs, false, path, Run(cfg, st, call))
    ensures path == if RuleOf(call) == [] then [] else Attempt(cfg, View(st), msgs, false, RuleOf(call)[0])
  {
    match call {
      case ReceivingLog(_) => path := MatchLog(cfg, st, m, msgs);
      case ReceivingHistory(_, pick) => path := MatchHistory(cfg, st, m, pick, msgs);
      case ReceivingPrepare(_) => path := MatchPrepare(cfg, st, m, msgs);
      case ReceivingCommit(_) => path := MatchCommit(cfg, st, m, msgs);
      case ReceivingDone(_) => path := MatchDone(cfg, st, m, msgs);
      case _ =>
        OtherCallsSilent(cfg, st, call);
        path := [];
    }
  }

  /** Which rule a handler of a delivery attempts. */
  function RuleOf(call: Call): seq<Rule> {
    match call
    case ReceivingLog(_) => [HistoryRule]
    case ReceivingHistory(_, _) => [PrepareRule]
    case ReceivingPrepare(_) => [CommitRule]
    case ReceivingCommit(_) => [ApplyRule]
    case ReceivingDone(_) => [CatchUpRule]
    case _ => []
  }

  /** Where the REPAIR handlers stand in the dispatch order. */
  lemma ProgramOrder(m: Message, pick: nat, k: nat)
    requires k < 14
    ensures var call := Program(Deliver(m, pick))[k];
            && !call.ViewEvent? && (k < 9 <==> Delivered(call).None?) && (k >= 9 ==> Delivered(call) == Some(m))
            && (call.ReceivingHistory? <==> k == 10) && (call.ReceivingCommit? <==> k == 12)
            && (call.ReceivingDone? <==> k == 13)
            && RuleOf(call) == if k < 9 then [] else [MESSAGE_RULES[k - 9]]
  {
  }

  lemma KeepsTracking(cfg: Config, st: ReplicaState, m: Message, pick: nat, msgs: set<Message>, k: nat)
    requires k < 14 && Tracks(st, msgs, m) && PhaseConsistent(st)
    requires k <= 12 ==> RepairPhase(st.phase)
    requires k >= 11 && m.RepairHistory? ==> m in st.historyMsgs
    ensures var s := Run(cfg, st, Program(Deliver(m, pick))[k]).st;
            && Tracks(s, msgs, m) && PhaseConsistent(s)
            && (k < 12 ==> RepairPhase(s.phase)) && (k >= 10 && m.RepairHistory? ==> m in s.historyMsgs)
  {
    var call := Program(Deliver(m, pick))[k];
    ProgramOrder(m, pick, k);
    if k < 9 {
      OtherCallsSilent(cfg, st, call);
      var s := Run(cfg, st, call).st;
      assert View(s).phase == View(st).phase && View(s).inRepair == View(st).inRepair;
    } else {
      CallTracks(cfg, st, call, msgs, m);
    }
  }

  /** One more handler, one more rule attempted. */
  lemma AttemptsGrow(cfg: Config, q: QuintState, msgs: set<Message>, k: nat, before: seq<Firing>, step: seq<Firing>)
    requires k < 14
    requires before == Attempts(cfg, q, msgs, false, if k <= 9 then [] else MESSAGE_RULES[..k - 9])
    requires step == if k < 9 then [] else Attempt(cfg, Follow(q, before), msgs, false, MESSAGE_RULES[k - 9])
    ensures before + step == Attempts(cfg, q, msgs, false, if k + 1 <= 9 then [] else MESSAGE_RULES[..k - 8])
  {
    if k < 9 {
      assert before + step == before;
    } else {
      var rules := MESSAGE_RULES[..k - 8];
      assert rules[..|rules| - 1] == MESSAGE_RULES[..k - 9] && rules[|rules| - 1] == MESSAGE_RULES[k - 9];
    }
  }

  lemma ProgressStep(cfg: Config, st: ReplicaState, m: Message, pick: nat, msgs: set<Message>, k: nat,
                     before: seq<Firing>, t: Trail) returns (path: seq<Firing>)
    requires k < 14 && Orderly(msgs) && Progress(cfg, st, m, pick, msgs, k, before, t)
    ensures Progress(cfg, st, m, pick, msgs, k + 1, path, Advance(cfg, t, Program(Deliver(m, pick))[k]))
  {
    var call := Program(Deliver(m, pick))[k];
    var s := Run(cfg, t.st, call);
    ProgramOrder(m, pick, k);
    var step := MatchCall(cfg, t.st, call, m, msgs);
    TakesThen(cfg, View(st), msgs, false, before, View(t.st), RepairOutput(t.out), step, View(s.st),
              RepairOutput(s.out));
    RepairOutputConcat(t.out, s.out);
    KeepsTracking(cfg, t.st, m, pick, msgs, k);
    path := before + step;
    AttemptsGrow(cfg, View(st), msgs, k, before, step);
  }

  lemma {:induction false} DeliveryProgress(cfg: Config, st: ReplicaState, m: Message, pick: nat, msgs: set<Message>,
                                            k: nat)
      returns (path: seq<Firing>)
    requires k <= 14 && RepairPhase(st.phase) && PhaseConsistent(st) && Tracks(st, msgs, m) && Orderly(msgs)
    ensures Progress(cfg, st, m, pick, msgs, k, path,
                     RunAll(cfg, Trail(st, [], 0, {}), Program(Deliver(m, pick))[..k]))
  {
    var program := Program(Deliver(m, pick));
    if k == 0 {
      path := [];
    } else {
      var before := DeliveryProgress(cfg, st, m, pick, msgs, k - 1);
      assert program[..k][..k - 1] == program[..k - 1];
      path := ProgressStep(cfg, st, m, pick, msgs, k - 1, before, RunAll(cfg, Trail(st, [], 0, {}), program[..k - 1]));
    }
  }

  /** Delivering any message to a replica in REPAIR is a sequence of specification
      transitions, on the REPAIR messages it then holds: exactly those that arise when the five
      message rules are attempted in order, each fired if the specification lets it. */
  lemma DeliverySimulated(cfg: Config, st: ReplicaState, m: Message, pick: nat) returns (path: seq<Firing>)
    requires RepairPhase(st.phase) && PhaseConsistent(st) && Orderly(Stored(st) + {m})
    ensures var t := Handle(cfg, Trail(st, [], 0, {}), Deliver(m, pick));
            Takes(cfg, View(st), Stored(st) + {m}, false, path, View(t.st), RepairOutput(t.out))
    ensures path == Attempts(cfg, View(st), Stored(st) + {m}, false, MESSAGE_RULES)
  {
    assert MESSAGE_RULES[..5] == MESSAGE_RULES;
    path := DeliveryProgress(cfg, st, m, pick, Stored(st) + {m}, 14);
    assert Program(Deliver(m, pick))[..14] == Program(Deliver(m, pick));
  }

  /** In REPAIR only the view-change handler reacts to a timer. */
  lemma RepairTimers(cfg: Config, st: ReplicaState, e: Event)
    requires RepairPhase(st.phase) && st.inRepair
    ensures RunEach(cfg, Step(st, []), Program(Timer(e))) == Then(cfg, Step(st, []), ViewEvent(e))
  {
    var s := Step(st, []);
    Unroll3(cfg, s, SyncEvent(e), ChkptEvent(e), ViewEvent(e));
    assert Run(cfg, st, SyncEvent(e)) == s && Run(cfg, st, ChkptEvent(e)) == s;
    assert s.out + s.out == s.out;
  }

  lemma MatchTimer(cfg: Config, st: ReplicaState, e: Event, msgs: set<Message>) returns (path: seq<Firing>)
    requires RepairPhase(st.phase)
    ensures Matches(cfg, st, msgs, e.RepairViewTimeout?, path, Run(cfg, st, ViewEvent(e)))
    ensures path == Attempt(cfg, View(st), msgs, e.RepairViewTimeout?, ViewRule)
  {
    path := [];
    match Repair.CanViewChange(st, e) {
      case Some(v) =>
        var s := Repair.ViewChange(st, v);
        RepairOutputOne(s.out[0]);
        path := MatchFiring(cfg, st, msgs, true, Firing(ViewRule, v), s);
      case None =>
    }
  }

  /** So is every timer event. */
  lemma TimerSimulated(cfg: Config, st: ReplicaState, e: Event) returns (path: seq<Firing>)
    requires RepairPhase(st.phase) && PhaseConsistent(st)
    ensures var t := Handle(cfg, Trail(st, [], 0, {}), Timer(e));
            Takes(cfg, View(st), Stored(st), e.RepairViewTimeout?, path, View(t.st), RepairOutput(t.out))
    ensures path == Attempt(cfg, View(st), Stored(st), e.RepairViewTimeout?, ViewRule)
  {
    RepairTimers(cfg, st, e);
    RunAllIsRunEach(cfg, Trail(st, [], 0, {}), Program(Timer(e)));
    path := MatchTimer(cfg, st, e, Stored(st));
    assert [] + Run(cfg, st, ViewEvent(e)).out == Run(cfg, st, ViewEvent(e)).out;
  }
}
