/** What a whole `process_message` or `handle_event` call does, in fields, keys and bytes. */
module InputMeaning {
  import opened Types
  import opened Dispatch
  import opened Voting
  import opened GuardMeaning
  import opened HandlerMeaning
  import opened Schedules
  import Storage

  // Timers.

  /** What one timer event does: a SYNC for the top entry, a TIMEOUT for the event's own index,
      or a view change with a LOG. */
  function TimerOutcome(st: ReplicaState, e: Event, top: Hash): Step {
    match e
    case SyncTimeout => Step(st, if st.phase.Speculative? && st.kvSize > 0 then TopSync(st, top) else [])
    case ChkptTimeout(k) =>
      Step(st, if st.phase.Speculative? && !st.inRepair then [Broadcast(TimeoutMsg(st.nodeId, st.round, k))] else [])
    case RepairViewTimeout =>
      if st.phase.CollectingLogs?
      then Step(st.(view := st.view + 1), [Broadcast(LogMsg(st.nodeId, st.view + 1, st.round, top))])
      else Step(st, [])
  }

  lemma SyncEventMeans(cfg: Config, st: ReplicaState, e: Event, top: Hash)
    requires IsTop(st.store, top)
    ensures Run(cfg, st, SyncEvent(e)) == if e.SyncTimeout? then TimerOutcome(st, e, top) else Step(st, [])
  {
    TopIs(st.store, top);
  }

  lemma ChkptEventMeans(cfg: Config, st: ReplicaState, e: Event, top: Hash)
    ensures Run(cfg, st, ChkptEvent(e)) == if e.ChkptTimeout? then TimerOutcome(st, e, top) else Step(st, [])
  {
  }

  lemma ViewEventMeans(cfg: Config, st: ReplicaState, e: Event, top: Hash)
    requires IsTop(st.store, top)
    ensures Run(cfg, st, ViewEvent(e)) == if e.RepairViewTimeout? then TimerOutcome(st, e, top) else Step(st, [])
  {
    TopIs(st.store, top);
  }

  lemma OneOfThree(a: seq<Effect>, b: seq<Effect>, c: seq<Effect>)
    ensures b == [] && c == [] ==> [] + a + b + c == a
    ensures a == [] && c == [] ==> [] + a + b + c == b
    ensures a == [] && b == [] ==> [] + a + b + c == c
  {
  }

  /** One timer event, in every state. */
  lemma TimerMeans(cfg: Config, st: ReplicaState, e: Event, top: Hash)
    requires IsTop(st.store, top)
    ensures RunEach(cfg, Step(st, []), Program(Timer(e))) == TimerOutcome(st, e, top)
  {
    SyncEventMeans(cfg, st, e, top);
    ChkptEventMeans(cfg, st, e, top);
    ViewEventMeans(cfg, st, e, top);
    Unroll3(cfg, Step(st, []), SyncEvent(e), ChkptEvent(e), ViewEvent(e));
    OneOfThree(Run(cfg, st, SyncEvent(e)).out, Run(cfg, st, ChkptEvent(e)).out, Run(cfg, st, ViewEvent(e)).out);
  }

  // A replica in REPAIR.

  function Answer(st: ReplicaState, m: Message): seq<Effect> {
    if m.StateRequest? then [Send(m.from, StateReply(st.nodeId, st.chkptIdx, st.chkptHash))] else []
  }

  /** What the first nine handlers store. */
  function Heard(st: ReplicaState, m: Message): ReplicaState {
    st.(syncMsgs := With(st.syncMsgs, m, m.Sync?),
        chkptMsgs := With(st.chkptMsgs, m, m.Checkpoint?),
        timeoutMsgs := With(st.timeoutMsgs, m, m.TimeoutMsg?))
  }

  lemma EarlyInRepair(cfg: Config, st: ReplicaState, m: Message)
    requires RepairPhase(st.phase) && st.inRepair
    ensures RunEach(cfg, Step(st, []), EarlyCalls(m)) == Step(Heard(st, m), [])
  {
    var s := Step(st, []);
    var five := [Speculating(m), SyncThreshold, ReceivingSync(m), ReceivingCheckpoint(m), CheckingConflict];
    Unroll5(cfg, s, Speculating(m), SyncThreshold, ReceivingSync(m), ReceivingCheckpoint(m), CheckingConflict);
    RunEachSnoc(cfg, s, five, ReceivingTimeout(m));
    assert EarlyCalls(m) == five + [ReceivingTimeout(m)];
    var a := st.(syncMsgs := With(st.syncMsgs, m, m.Sync?));
    var b := a.(chkptMsgs := With(st.chkptMsgs, m, m.Checkpoint?));
    assert Run(cfg, st, ReceivingSync(m)) == Step(a, []);
    assert Run(cfg, a, ReceivingCheckpoint(m)) == Step(b, []);
    assert Run(cfg, b, ReceivingTimeout(m)) == Step(Heard(st, m), []);
  }

  lemma MiddleInRepair(cfg: Config, st: ReplicaState, m: Message)
    requires RepairPhase(st.phase) && st.inRepair
    ensures RunEach(cfg, Step(st, []), MiddleCalls(m)) == Step(st, Answer(st, m))
  {
    Unroll3(cfg, Step(st, []), EnteringRepair(m), AnsweringRequest(m), AdoptingState(m));
    assert [] + Answer(st, m) == Answer(st, m);
  }

  /** The first nine handlers, in REPAIR. */
  lemma EntryInRepair(cfg: Config, st: ReplicaState, m: Message, pick: nat)
    requires RepairPhase(st.phase) && st.inRepair
    ensures RunEach(cfg, Step(st, []), Program(Deliver(m, pick)))
            == RunEach(cfg, Step(Heard(st, m), Answer(st, m)), LateCalls(m, pick))
  {
    ProgramParts(cfg, Step(st, []), m, pick);
    EarlyInRepair(cfg, st, m);
    MiddleInRepair(cfg, Heard(st, m), m);
  }

  // Applying repair.

  /** What is stored when the commit guard is looked at. */
  function AtCommit(st: ReplicaState, m: Message): ReplicaState {
    Heard(st, m).(logMsgs := With(st.logMsgs, m, m.LogMsg?),
                  historyMsgs := With(st.historyMsgs, m, m.RepairHistory?),
                  prepareMsgs := With(st.prepareMsgs, m, m.RepairPrepare?))
  }

  lemma CommitPhaseStores(cfg: Config, st: ReplicaState, m: Message, pick: nat)
    requires st.phase.CommitPhase?
    ensures var a := st.(logMsgs := With(st.logMsgs, m, m.LogMsg?));
            var b := a.(historyMsgs := With(st.historyMsgs, m, m.RepairHistory?));
            var c := b.(prepareMsgs := With(st.prepareMsgs, m, m.RepairPrepare?));
            && Run(cfg, st, ReceivingLog(m)) == Step(a, []) && Run(cfg, a, ReceivingHistory(m, pick)) == Step(b, [])
            && Run(cfg, b, ReceivingPrepare(m)) == Step(c, [])
  {
  }

  lemma LateInCommit(cfg: Config, st: ReplicaState, m: Message, pick: nat)
    requires st.phase.CommitPhase? && st.inRepair
    ensures RunEach(cfg, Step(st, []), Program(Deliver(m, pick)))
            == Then(cfg, Then(cfg, Step(AtCommit(st, m), Answer(st, m)), ReceivingCommit(m)), ReceivingDone(m))
  {
    EntryInRepair(cfg, st, m, pick);
    var s := Step(Heard(st, m), Answer(st, m));
    CommitPhaseStores(cfg, Heard(st, m), m, pick);
    Unroll5(cfg, s, ReceivingLog(m), ReceivingHistory(m, pick), ReceivingPrepare(m), ReceivingCommit(m),
            ReceivingDone(m));
    assert Answer(st, m) + [] == Answer(st, m);
  }

  /** The replica's store and log after applying history `h`. */
  ghost predicate Applied(before: ReplicaState, after: ReplicaState, h: nat) {
    && after.phase.Speculative? && !after.inRepair && after.proposed == 0
    && after.round == before.round + 1 && after.view == before.view
    && after.startIdx == h && after.kvSize == h
    && after.chkptIdx == before.chkptIdx && after.chkptHash == before.chkptHash
    && after.etaStar == before.etaStar && after.nodeId == before.nodeId
    && (if h > 0 then Placeholders(after.store, h) else after.store == before.store)
  }

  /** Delivering anything to a replica in CommitPhase that then stores `n - f` COMMITs of
      different senders for its view, round and history makes it apply that history. */
  lemma ApplyDelivered(cfg: Config, st: ReplicaState, m: Message, pick: nat)
    requires st.phase.CommitPhase? && st.inRepair
    requires AtLeast(cfg.n - cfg.f, With(st.commitMsgs, m, m.RepairCommit?), CommitOf(st.view, st.round, st.proposed))
    ensures var s := RunEach(cfg, Step(st, []), Program(Deliver(m, pick)));
            && Applied(st, s.st, st.proposed)
            && s.out == Answer(st, m) + [Broadcast(RepairDone(st.nodeId, st.view, st.round, st.proposed)),
                                         Broadcast(CommittedReply(st.nodeId, st.round, st.kvSize))]
  {
    LateInCommit(cfg, st, m, pick);
    var a := AtCommit(st, m);
    CommitMeans(cfg, a, m);
    var b := Run(cfg, a, ReceivingCommit(m)).st;
    DoneMeans(cfg, b, m);
    var out := Answer(st, m) + Run(cfg, a, ReceivingCommit(m)).out;
    assert out + [] == out;
  }

  /** With fewer it does not: it keeps its log, and is still in CommitPhase or has caught up. */
  lemma NotApplied(cfg: Config, st: ReplicaState, m: Message, pick: nat)
    requires st.phase.CommitPhase? && st.inRepair
    requires !AtLeast(cfg.n - cfg.f, With(st.commitMsgs, m, m.RepairCommit?), CommitOf(st.view, st.round, st.proposed))
    ensures var s := RunEach(cfg, Step(st, []), Program(Deliver(m, pick)));
            && s.out == Answer(st, m) && s.st.store == st.store && s.st.kvSize == st.kvSize
            && (if AtLeast(cfg.f + 1, With(st.doneMsgs, m, m.RepairDone?), DoneOf(st.view, st.round)) &&
                   exists q, h :: RepairHistory(q, st.view, st.round, h) in With(st.historyMsgs, m, m.RepairHistory?)
                then s.st.phase.Speculative? && s.st.round == st.round + 1 && s.st.startIdx == st.kvSize
                else s.st.phase.CommitPhase? && s.st.round == st.round)
  {
    LateInCommit(cfg, st, m, pick);
    var a := AtCommit(st, m);
    CommitMeans(cfg, a, m);
    var b := a.(commitMsgs := With(st.commitMsgs, m, m.RepairCommit?));
    assert Run(cfg, a, ReceivingCommit(m)) == Step(b, []);
    DoneMeans(cfg, b, m);
    assert Answer(st, m) + [] + [] == Answer(st, m);
  }

  /** The SYNC that a replica sends next after applying history `h > 0` is for index `h - 1`
      of the new round, and every byte of its hash is `h - 1` modulo 256. */
  lemma SyncAfterApply(cfg: Config, before: ReplicaState, st: ReplicaState, h: nat) returns (hash: Hash)
    requires Applied(before, st, h) && h > 0
    ensures AllBytes(hash, h - 1)
    ensures RunEach(cfg, Step(st, []), Program(Timer(SyncTimeout)))
            == Step(st, [Broadcast(Sync(st.nodeId, before.round + 1, h - 1, hash, st.etaStar))])
  {
    hash := Storage.TopHashOf(st.store);
    TopIs(st.store, hash);
    PlaceholderTop(st.store, h, hash);
    TimerMeans(cfg, st, SyncTimeout, hash);
  }

  // Proposing.

  lemma NoProposal(cfg: Config, st: ReplicaState, call: Call)
    requires !call.ReceivingLog?
    ensures forall e :: e in Run(cfg, st, call).out ==> !e.message.RepairHistory?
  {
  }

  /** Delivering anything to a replica collecting logs: it proposes exactly if it leads its
      view and then stores LOGs of `n - f` nodes for its (view, round), and what it proposes is
      their number. */
  lemma ProposalDelivered(cfg: Config, st: ReplicaState, m: Message, pick: nat, senders: set<NodeId>, e: Effect)
    requires st.phase.CollectingLogs? && st.inRepair
    requires AreLogSenders(With(st.logMsgs, m, m.LogMsg?), st.view, st.round, senders)
    ensures (e in RunEach(cfg, Step(st, []), Program(Deliver(m, pick))).out && e.message.RepairHistory?)
            <==> && Leads(cfg, st.nodeId, st.view) && |senders| >= cfg.n - cfg.f
                 && e == Broadcast(RepairHistory(st.nodeId, st.view, st.round, |senders|))
  {
    EntryInRepair(cfg, st, m, pick);
    var s0 := Step(Heard(st, m), Answer(st, m));
    Unroll5(cfg, s0, ReceivingLog(m), ReceivingHistory(m, pick), ReceivingPrepare(m), ReceivingCommit(m),
            ReceivingDone(m));
    LogMeans(cfg, Heard(st, m), m, senders);
    var s1 := Then(cfg, s0, ReceivingLog(m));
    var s2 := Then(cfg, s1, ReceivingHistory(m, pick));
    var s3 := Then(cfg, s2, ReceivingPrepare(m));
    var s4 := Then(cfg, s3, ReceivingCommit(m));
    NoProposal(cfg, s1.st, ReceivingHistory(m, pick));
    NoProposal(cfg, s2.st, ReceivingPrepare(m));
    NoProposal(cfg, s3.st, ReceivingCommit(m));
    NoProposal(cfg, s4.st, ReceivingDone(m));
  }

  // Adopting a checkpoint.

  lemma AligningIsStill(cfg: Config, st: ReplicaState, m: Message)
    requires st.phase.Aligning? && m.StateReply?
    ensures RunEach(cfg, Step(st, []), EarlyCalls(m)) == Step(st, [])
  {
    SilentCalls(cfg, Step(st, []), EarlyCalls(m));
  }

  lemma AdoptedIsStill(cfg: Config, st: ReplicaState, m: Message, pick: nat)
    requires st.phase.Speculative? && m.StateReply?
    ensures RunEach(cfg, Step(st, []), LateCalls(m, pick)) == Step(st, [])
  {
    SilentCalls(cfg, Step(st, []), LateCalls(m, pick));
  }

  /** A STATE-REPLY delivered to an aligning replica: its log becomes the placeholders up to
      the index the reply carries, whatever else the reply says, and nothing is sent. */
  lemma ReplyDelivered(cfg: Config, st: ReplicaState, m: Message, pick: nat)
    requires st.phase.Aligning? && m.StateReply?
    ensures var s := RunEach(cfg, Step(st, []), Program(Deliver(m, pick)));
            && Placeholders(s.st.store, m.chkptIdx + 1) && s.out == []
            && s.st == st.(phase := Speculative, store := s.st.store, kvSize := m.chkptIdx + 1, startIdx := m.chkptIdx,
                           chkptIdx := m.chkptIdx, chkptHash := cfg.entryHash(s.st.store[m.chkptIdx]))
  {
    var s := Step(st, []);
    ProgramParts(cfg, s, m, pick);
    AligningIsStill(cfg, st, m);
    Unroll3(cfg, s, EnteringRepair(m), AnsweringRequest(m), AdoptingState(m));
    AdoptMeans(cfg, st, m);
    AdoptedIsStill(cfg, Run(cfg, st, AdoptingState(m)).st, m, pick);
  }

  // What is stored.

  /** Every message is stored in the set of its kind, if there is one, and nowhere else. */
  ghost predicate StoredAfter(st: ReplicaState, s: ReplicaState, m: Message, k: nat) {
    && s.syncMsgs == With(st.syncMsgs, m, k > 2 && m.Sync?)
    && s.chkptMsgs == With(st.chkptMsgs, m, k > 3 && m.Checkpoint?)
    && s.timeoutMsgs == With(st.timeoutMsgs, m, k > 5 && m.TimeoutMsg?)
    && s.logMsgs == With(st.logMsgs, m, k > 9 && m.LogMsg?)
    && s.historyMsgs == With(st.historyMsgs, m, k > 10 && m.RepairHistory?)
    && s.prepareMsgs == With(st.prepareMsgs, m, k > 11 && m.RepairPrepare?)
    && s.commitMsgs == With(st.commitMsgs, m, k > 12 && m.RepairCommit?)
    && s.doneMsgs == With(st.doneMsgs, m, k > 13 && m.RepairDone?)
  }

  lemma EntryCallStores(cfg: Config, st: ReplicaState, s: ReplicaState, m: Message, pick: nat, k: nat)
    requires k < 9 && StoredAfter(st, s, m, k)
    ensures StoredAfter(st, Run(cfg, s, Program(Deliver(m, pick))[k]).st, m, k + 1)
  {
  }

  lemma RepairCallStores(cfg: Config, st: ReplicaState, s: ReplicaState, m: Message, pick: nat, k: nat)
    requires 9 <= k < 14 && StoredAfter(st, s, m, k)
    ensures StoredAfter(st, Run(cfg, s, Program(Deliver(m, pick))[k]).st, m, k + 1)
  {
  }

  lemma {:induction false} PrefixStores(cfg: Config, st: ReplicaState, m: Message, pick: nat, k: nat)
    requires k <= 14
    ensures StoredAfter(st, RunEach(cfg, Step(st, []), Program(Deliver(m, pick))[..k]).st, m, k)
  {
    if k > 0 {
      var program := Program(Deliver(m, pick));
      PrefixStores(cfg, st, m, pick, k - 1);
      assert program[..k][..k - 1] == program[..k - 1];
      var s := RunEach(cfg, Step(st, []), program[..k - 1]).st;
      if k <= 9 { EntryCallStores(cfg, st, s, m, pick, k - 1); } else { RepairCallStores(cfg, st, s, m, pick, k - 1); }
    }
  }

  /** A delivery, in any state, stores the message in the one set of its kind and changes no
      other set. */
  lemma DeliveryStores(cfg: Config, st: ReplicaState, m: Message, pick: nat)
    ensures StoredAfter(st, RunEach(cfg, Step(st, []), Program(Deliver(m, pick))).st, m, 14)
  {
    PrefixStores(cfg, st, m, pick, 14);
    assert Program(Deliver(m, pick))[..14] == Program(Deliver(m, pick));
  }

  // Entering REPAIR.

  /** The replica is in REPAIR of the round, or past it. */
  ghost predicate EnteredRound(st: ReplicaState, round: nat) {
    PhaseConsistent(st) && (st.round > round || (st.round == round && st.inRepair))
  }

  lemma CallKeepsEntered(cfg: Config, st: ReplicaState, call: Call, round: nat)
    requires EnteredRound(st, round)
    ensures EnteredRound(Run(cfg, st, call).st, round)
  {
    CallVotes(cfg, st, call);
  }

  lemma {:induction false} CallsKeepEntered(cfg: Config, s: Step, calls: seq<Call>, round: nat)
    requires EnteredRound(s.st, round)
    ensures EnteredRound(RunEach(cfg, s, calls).st, round)
  {
    if calls != [] {
      CallsKeepEntered(cfg, s, calls[..|calls| - 1], round);
      CallKeepsEntered(cfg, RunEach(cfg, s, calls[..|calls| - 1]).st, calls[|calls| - 1], round);
    }
  }

  lemma {:induction false} EarlyKeepsRound(cfg: Config, s: Step, calls: seq<Call>)
    requires PhaseConsistent(s.st)
    requires forall c :: c in calls ==> !c.ReceivingCommit? && !c.ReceivingDone?
    ensures RunEach(cfg, s, calls).st.round == s.st.round && PhaseConsistent(RunEach(cfg, s, calls).st)
  {
    if calls != [] {
      EarlyKeepsRound(cfg, s, calls[..|calls| - 1]);
      CallKeepsRound(cfg, RunEach(cfg, s, calls[..|calls| - 1]).st, calls[|calls| - 1]);
    }
  }

  lemma CallKeepsRound(cfg: Config, st: ReplicaState, call: Call)
    requires PhaseConsistent(st) && !call.ReceivingCommit? && !call.ReceivingDone?
    ensures Run(cfg, st, call).st.round == st.round && PhaseConsistent(Run(cfg, st, call).st)
  {
    CallVotes(cfg, st, call);
    RoundOnlyLeft(cfg, st, call);
  }

  lemma RoundOnlyLeft(cfg: Config, st: ReplicaState, call: Call)
    requires !call.ReceivingCommit? && !call.ReceivingDone?
    ensures Run(cfg, st, call).st.round == st.round
  {
  }

  /** Delivering a proof of either kind, for whatever round and index, leaves no replica outside
      REPAIR in its round: it is in REPAIR, or has already left the round through it. */
  lemma EitherProofEnters(cfg: Config, st: ReplicaState, m: Message, pick: nat)
    requires PhaseConsistent(st) && (m.TimeoutProof? || m.ConflictProof?)
    ensures EnteredRound(RunEach(cfg, Step(st, []), Program(Deliver(m, pick))).st, st.round)
  {
    var s := Step(st, []);
    ProgramParts(cfg, s, m, pick);
    EarlyKeepsRound(cfg, s, EarlyCalls(m));
    var a := RunEach(cfg, s, EarlyCalls(m));
    Unroll3(cfg, a, EnteringRepair(m), AnsweringRequest(m), AdoptingState(m));
    TopIs(a.st.store, Storage.TopHashOf(a.st.store));
    EnterMeans(cfg, a.st, m, Storage.TopHashOf(a.st.store));
    var b := Then(cfg, a, EnteringRepair(m));
    CallKeepsEntered(cfg, b.st, AnsweringRequest(m), st.round);
    CallKeepsEntered(cfg, Then(cfg, b, AnsweringRequest(m)).st, AdoptingState(m), st.round);
    CallsKeepEntered(cfg, RunEach(cfg, a, MiddleCalls(m)), LateCalls(m, pick), st.round);
  }

  // The history variables.

  /** `aligned` grows by the round in which a replica adopts a STATE-REPLY, and `base` is set by
      adopting and by applying repair only. */
  lemma HistoryVariablesMean(cfg: Config, t: Trail, call: Call)
    ensures var adopts := call.AdoptingState? && t.st.phase.Aligning? && call.msg.StateReply?;
            var applies := call.ReceivingCommit? && t.st.phase.CommitPhase? &&
                           AtLeast(cfg.n - cfg.f, With(t.st.commitMsgs, call.msg, call.msg.RepairCommit?),
                                   CommitOf(t.st.view, t.st.round, t.st.proposed));
            var after := Advance(cfg, t, call);
            && after.aligned == t.aligned + (if adopts then {t.st.round} else {})
            && after.base == if adopts then call.msg.chkptIdx + 1 else if applies then t.st.proposed else t.base
  {
    if call.ReceivingCommit? {
      CommitMeans(cfg, t.st, call.msg);
    }
    assert t.aligned + {} == t.aligned;
  }
}
