/** Fast path: speculative execution (`consensus/src/fast_path.rs`). */
module FastPath {
  import opened Types
  import opened Storage

  function CanSpeculate(st: ReplicaState, msg: Message): Option<nat> {
    if !msg.Speculate? || !st.phase.Speculative? then None else Some(st.kvSize)
  }

  /** Hash of the entry before `idx`; zero for the first entry or when the lookup fails. */
  function PrevHash(cfg: Config, store: map<nat, KvEntry>, idx: nat): Hash {
    if idx > 0 then
      match HashAtOf(cfg.entryHash, store, idx - 1)
      case Some(h) => h
      case None => ZERO_HASH
    else ZERO_HASH
  }

  function Speculation(cfg: Config, st: ReplicaState, idx: nat): Step {
    var entry := KvEntry(idx, [], PrevHash(cfg, st.store, idx));
    Step(st.(store := st.store[idx := entry], kvSize := st.kvSize + 1),
         [Broadcast(SpecReply(st.nodeId, st.round, idx, cfg.entryHash(entry)))])
  }
}

/** Checkpoint sub-protocol (`consensus/src/checkpoint.rs`). */
module Checkpointing {
  import opened Types
  import opened Storage

  function CanSendSyncOnEvent(st: ReplicaState, event: Event): Option<nat> {
    if !event.SyncTimeout? || !st.phase.Speculative? || st.kvSize == 0 then None
    else Some(st.kvSize - 1)
  }

  function CanSendSyncThreshold(st: ReplicaState): Option<nat> {
    if !st.phase.Speculative? || st.kvSize == 0 || st.kvSize <= st.chkptIdx then None
    else Some(st.kvSize - 1)
  }

  function SendSync(st: ReplicaState, idx: nat): Step {
    Step(st, [Broadcast(Sync(st.nodeId, st.round, idx, TopHashOf(st.store), st.etaStar))])
  }

  function CanFormCheckpoint(cfg: Config, st: ReplicaState): Option<nat> {
    if !st.phase.Speculative? || st.kvSize == 0 then None
    else if |MatchingSyncs(st.syncMsgs, st.round, st.kvSize - 1, TopHashOf(st.store))| >= cfg.FastQuorum()
    then Some(st.kvSize - 1) else None
  }

  function FormCheckpoint(st: ReplicaState, idx: nat): Step {
    var hash := TopHashOf(st.store);
    Step(st.(chkptIdx := idx, chkptHash := hash),
         [Broadcast(Checkpoint(st.nodeId, st.round, idx, hash))])
  }

  function OnReceiveSync(cfg: Config, st: ReplicaState, msg: Message): Step {
    var s := if msg.Sync? then st.(syncMsgs := st.syncMsgs + {msg}) else st;
    match CanFormCheckpoint(cfg, s)
    case Some(idx) => FormCheckpoint(s, idx)
    case None => Step(s, [])
  }
}

/** Alignment sub-protocol (`consensus/src/alignment.rs`). */
module Alignment {
  import opened Types
  import opened Storage

  function CanEnterAlign(cfg: Config, st: ReplicaState): Option<nat> {
    if !st.phase.Speculative? then None
    else if |CheckpointVotes(st.chkptMsgs, st.round, st.chkptIdx)| >= cfg.FPlus1() then Some(st.chkptIdx)
    else None
  }

  function EnterAlign(st: ReplicaState, idx: nat): Step {
    Step(st.(phase := Aligning), [Broadcast(StateRequest(st.nodeId, idx))])
  }

  function OnReceiveCheckpoint(cfg: Config, st: ReplicaState, msg: Message): Step {
    var s := if msg.Checkpoint? then st.(chkptMsgs := st.chkptMsgs + {msg}) else st;
    match CanEnterAlign(cfg, s)
    case Some(idx) => EnterAlign(s, idx)
    case None => Step(s, [])
  }

  function AnswerStateRequest(st: ReplicaState, requester: NodeId): Step {
    Step(st, [Send(requester, StateReply(st.nodeId, st.chkptIdx, st.chkptHash))])
  }

  function CanStateReply(st: ReplicaState, msg: Message): Option<nat> {
    if st.phase.Aligning? && msg.StateReply? then Some(msg.chkptIdx) else None
  }

  /** Rebuild the log from synthetic entries `0..=idx` and resume the fast path. */
  function AdoptState(cfg: Config, st: ReplicaState, idx: nat): Step {
    var store := SyntheticStore(idx + 1);
    Step(st.(store := store,
             phase := Speculative,
             chkptIdx := idx,
             chkptHash := cfg.entryHash(Synthetic(idx)),
             kvSize := idx + 1,
             startIdx := idx),
         [])
  }
}

/** Entering REPAIR (`consensus/src/repair_entry.rs`). */
module RepairEntry {
  import opened Types
  import opened Storage

  function CanConflictProof(cfg: Config, st: ReplicaState): Option<nat> {
    if !st.phase.Speculative? || st.kvSize == 0 || st.inRepair then None
    else
      var idx := st.kvSize - 1;
      var total := |SyncVotes(st.syncMsgs, st.round, idx)|;
      var consist := |MatchingSyncs(st.syncMsgs, st.round, idx, TopHashOf(st.store))|;
      if total >= cfg.ByzQuorum() && consist < cfg.FastQuorum() then Some(idx) else None
  }

  function CanChkptTimeout(st: ReplicaState, event: Event): Option<nat> {
    if st.phase.Speculative? && !st.inRepair && event.ChkptTimeout? then Some(event.logIdx) else None
  }

  function VoteTimeout(st: ReplicaState, idx: nat): Step {
    Step(st, [Broadcast(TimeoutMsg(st.nodeId, st.round, idx))])
  }

  function CanTimeoutProof(cfg: Config, st: ReplicaState): Option<nat> {
    if !st.phase.Speculative? || st.inRepair || st.kvSize == 0 then None
    else if |TimeoutVotes(st.timeoutMsgs, st.round, st.kvSize - 1)| >= cfg.FPlus1() then Some(st.kvSize - 1)
    else None
  }

  function CanEnterRepair(st: ReplicaState, msg: Message): bool {
    !st.inRepair && (msg.TimeoutProof? || msg.ConflictProof?)
  }

  /** The LOG summary sent to the leader of the current view. */
  function OwnLog(st: ReplicaState): Message {
    LogMsg(st.nodeId, st.view, st.round, TopHashOf(st.store))
  }

  /** Enter CollectingLogs, announcing `proofs` first and the own LOG last. */
  function EnterRepair(st: ReplicaState, proofs: seq<Effect>): Step {
    Step(st.(phase := CollectingLogs, inRepair := true), proofs + [Broadcast(OwnLog(st))])
  }

  function CheckConflict(cfg: Config, st: ReplicaState): Step {
    match CanConflictProof(cfg, st)
    case Some(idx) => EnterRepair(st, [Broadcast(ConflictProof(st.round, idx))])
    case None => Step(st, [])
  }

  function OnReceiveTimeout(cfg: Config, st: ReplicaState, msg: Message): Step {
    var s := if msg.TimeoutMsg? then st.(timeoutMsgs := st.timeoutMsgs + {msg}) else st;
    match CanTimeoutProof(cfg, s)
    case Some(idx) => EnterRepair(s, [Broadcast(TimeoutProof(s.round, idx))])
    case None => Step(s, [])
  }
}

/** REPAIR agreement (`consensus/src/repair.rs`). */
module Repair {
  import opened Types
  import opened Storage

  function CanBroadcastHistory(cfg: Config, st: ReplicaState): Option<nat> {
    if !st.phase.CollectingLogs? || !IsLeader(cfg, st.nodeId, st.view) then None
    else
      var senders := Senders(LogVotes(st.logMsgs, st.view, st.round));
      if |senders| >= cfg.ByzQuorum() then Some(|senders|) else None
  }

  function BroadcastHistory(st: ReplicaState, hash: nat): Step {
    Step(st.(phase := PreparePhase, proposed := hash),
         [Broadcast(RepairHistory(st.nodeId, st.view, st.round, hash))])
  }

  function OnReceiveLogMsg(cfg: Config, st: ReplicaState, msg: Message): Step {
    var s := if msg.LogMsg? then st.(logMsgs := st.logMsgs + {msg}) else st;
    match CanBroadcastHistory(cfg, s)
    case Some(hash) => BroadcastHistory(s, hash)
    case None => Step(s, [])
  }

  /** The source takes the first match in hash-set iteration order, which is unspecified:
      `pick` names the history found first. Every stored match is some `pick`'s answer. */
  ghost function CanRepairPrepare(st: ReplicaState, pick: nat): Option<nat> {
    if !st.phase.CollectingLogs? && !st.phase.PreparePhase? then None
    else
      var hashes := HistoryHashes(st.historyMsgs, st.view, st.round);
      if hashes == {} then None
      else if pick in hashes then Some(pick)
      else var h :| h in hashes; Some(h)
  }

  function VotePrepare(st: ReplicaState, hash: nat): Step {
    Step(st.(phase := PreparePhase, proposed := hash),
         [Broadcast(RepairPrepare(st.nodeId, st.view, st.round, hash))])
  }

  ghost function OnReceiveHistory(st: ReplicaState, msg: Message, pick: nat): Step {
    var s := if msg.RepairHistory? then st.(historyMsgs := st.historyMsgs + {msg}) else st;
    match CanRepairPrepare(s, pick)
    case Some(hash) => VotePrepare(s, hash)
    case None => Step(s, [])
  }

  function CanRepairCommit(cfg: Config, st: ReplicaState): Option<nat> {
    if !st.phase.PreparePhase? then None
    else if |PrepareVotes(st.prepareMsgs, st.view, st.round, st.proposed)| >= cfg.ByzQuorum() then Some(st.proposed)
    else None
  }

  function VoteCommit(st: ReplicaState, hash: nat): Step {
    Step(st.(phase := CommitPhase),
         [Broadcast(RepairCommit(st.nodeId, st.view, st.round, hash))])
  }

  function OnReceivePrepare(cfg: Config, st: ReplicaState, msg: Message): Step {
    var s := if msg.RepairPrepare? then st.(prepareMsgs := st.prepareMsgs + {msg}) else st;
    match CanRepairCommit(cfg, s)
    case Some(hash) => VoteCommit(s, hash)
    case None => Step(s, [])
  }

  function CanApplyRepair(cfg: Config, st: ReplicaState): Option<nat> {
    if !st.phase.CommitPhase? then None
    else if |CommitVotes(st.commitMsgs, st.view, st.round, st.proposed)| >= cfg.ByzQuorum() then Some(st.proposed)
    else None
  }

  /** The history hash is the merged log's size. History 0 leaves the store untouched. */
  function ApplyRepair(st: ReplicaState, hash: nat): Step {
    Step(st.(store := if hash > 0 then SyntheticStore(hash) else st.store,
             phase := Speculative,
             round := st.round + 1,
             startIdx := hash,
             kvSize := hash,
             inRepair := false,
             proposed := 0),
         [Broadcast(RepairDone(st.nodeId, st.view, st.round, hash)),
          Broadcast(CommittedReply(st.nodeId, st.round, st.kvSize))])
  }

  function OnReceiveCommit(cfg: Config, st: ReplicaState, msg: Message): Step {
    var s := if msg.RepairCommit? then st.(commitMsgs := st.commitMsgs + {msg}) else st;
    match CanApplyRepair(cfg, s)
    case Some(hash) => ApplyRepair(s, hash)
    case None => Step(s, [])
  }

  function CanCatchUp(cfg: Config, st: ReplicaState): bool {
    && RepairPhase(st.phase)
    && |DoneVotes(st.doneMsgs, st.view, st.round)| >= cfg.FPlus1()
    && Histories(st.historyMsgs, st.view, st.round) != {}
  }

  function CatchUp(st: ReplicaState): Step {
    Step(st.(phase := Speculative,
             round := st.round + 1,
             startIdx := st.kvSize,
             inRepair := false,
             proposed := 0),
         [])
  }

  function OnReceiveDone(cfg: Config, st: ReplicaState, msg: Message): Step {
    var s := if msg.RepairDone? then st.(doneMsgs := st.doneMsgs + {msg}) else st;
    if CanCatchUp(cfg, s) then CatchUp(s) else Step(s, [])
  }

  function CanViewChange(st: ReplicaState, event: Event): Option<nat> {
    if st.phase.CollectingLogs? && event.RepairViewTimeout? then Some(st.view + 1) else None
  }

  function ViewChange(st: ReplicaState, newView: nat): Step {
    Step(st.(view := newView),
         [Broadcast(LogMsg(st.nodeId, newView, st.round, TopHashOf(st.store)))])
  }
}

/** The ordered dispatch of one input (`consensus/src/replica.rs`) as a list of handler
    calls, and what running such a list leaves behind. */
module Dispatch {
  import opened Types
  import FastPath
  import Checkpointing
  import Alignment
  import RepairEntry
  import Repair

  /** One guard/handler pair of the dispatch, together with the input it is given. */
  datatype Call =
    | Speculating(msg: Message)
    | SyncThreshold
    | ReceivingSync(msg: Message)
    | ReceivingCheckpoint(msg: Message)
    | CheckingConflict
    | ReceivingTimeout(msg: Message)
    | EnteringRepair(msg: Message)
    | AnsweringRequest(msg: Message)
    | AdoptingState(msg: Message)
    | ReceivingLog(msg: Message)
    | ReceivingHistory(msg: Message, pick: nat)
    | ReceivingPrepare(msg: Message)
    | ReceivingCommit(msg: Message)
    | ReceivingDone(msg: Message)
    | SyncEvent(event: Event)
    | ChkptEvent(event: Event)
    | ViewEvent(event: Event)

  datatype Input = Deliver(msg: Message, pick: nat) | Timer(event: Event)

  /** The fixed order in which an input is offered to the handlers. */
  function Program(input: Input): seq<Call> {
    match input
    case Deliver(m, pick) => [
      Speculating(m), SyncThreshold, ReceivingSync(m), ReceivingCheckpoint(m), CheckingConflict,
      ReceivingTimeout(m), EnteringRepair(m), AnsweringRequest(m), AdoptingState(m), ReceivingLog(m),
      ReceivingHistory(m, pick), ReceivingPrepare(m), ReceivingCommit(m), ReceivingDone(m)]
    case Timer(e) => [SyncEvent(e), ChkptEvent(e), ViewEvent(e)]
  }

  ghost function Run(cfg: Config, st: ReplicaState, call: Call): Step {
    match call
    case Speculating(m) =>
      (match FastPath.CanSpeculate(st, m)
       case Some(idx) => FastPath.Speculation(cfg, st, idx)
       case None => Step(st, []))
    case SyncThreshold =>
      (match Checkpointing.CanSendSyncThreshold(st)
       case Some(idx) => Checkpointing.SendSync(st, idx)
       case None => Step(st, []))
    case ReceivingSync(m) => Checkpointing.OnReceiveSync(cfg, st, m)
    case ReceivingCheckpoint(m) => Alignment.OnReceiveCheckpoint(cfg, st, m)
    case CheckingConflict => RepairEntry.CheckConflict(cfg, st)
    case ReceivingTimeout(m) => RepairEntry.OnReceiveTimeout(cfg, st, m)
    case EnteringRepair(m) =>
      if RepairEntry.CanEnterRepair(st, m) then RepairEntry.EnterRepair(st, []) else Step(st, [])
    case AnsweringRequest(m) =>
      if m.StateRequest? then Alignment.AnswerStateRequest(st, m.from) else Step(st, [])
    case AdoptingState(m) =>
      (match Alignment.CanStateReply(st, m)
       case Some(idx) => Alignment.AdoptState(cfg, st, idx)
       case None => Step(st, []))
    case ReceivingLog(m) => Repair.OnReceiveLogMsg(cfg, st, m)
    case ReceivingHistory(m, pick) => Repair.OnReceiveHistory(st, m, pick)
    case ReceivingPrepare(m) => Repair.OnReceivePrepare(cfg, st, m)
    case ReceivingCommit(m) => Repair.OnReceiveCommit(cfg, st, m)
    case ReceivingDone(m) => Repair.OnReceiveDone(cfg, st, m)
    case SyncEvent(e) =>
      (match Checkpointing.CanSendSyncOnEvent(st, e)
       case Some(idx) => Checkpointing.SendSync(st, idx)
       case None => Step(st, []))
    case ChkptEvent(e) =>
      (match RepairEntry.CanChkptTimeout(st, e)
       case Some(idx) => RepairEntry.VoteTimeout(st, idx)
       case None => Step(st, []))
    case ViewEvent(e) =>
      (match Repair.CanViewChange(st, e)
       case Some(view) => Repair.ViewChange(st, view)
       case None => Step(st, []))
  }

  /** A replica's state with everything it has emitted so far and two history variables:
      how many leading log entries the last rebuild or applied history fixed (`base`), and
      the rounds in which the replica completed an alignment (`aligned`). */
  datatype Trail = Trail(st: ReplicaState, out: seq<Effect>, base: nat, aligned: set<nat>)

  ghost predicate Rebased(cfg: Config, st: ReplicaState, call: Call) {
    var after := Run(cfg, st, call).st;
    (call.ReceivingCommit? && after.round != st.round) || (call.AdoptingState? && after.phase != st.phase)
  }

  ghost function Advance(cfg: Config, t: Trail, call: Call): Trail {
    var s := Run(cfg, t.st, call);
    Trail(s.st,
          t.out + s.out,
          if Rebased(cfg, t.st, call) then s.st.kvSize else t.base,
          if call.AdoptingState? && Rebased(cfg, t.st, call) then t.aligned + {t.st.round} else t.aligned)
  }

  ghost function RunAll(cfg: Config, t: Trail, calls: seq<Call>): Trail {
    if calls == [] then t
    else Advance(cfg, RunAll(cfg, t, calls[..|calls| - 1]), calls[|calls| - 1])
  }

  /** State and effects alone: the effect vector grows from call to call. */
  ghost function Then(cfg: Config, s: Step, call: Call): Step {
    var r := Run(cfg, s.st, call);
    Step(r.st, s.out + r.out)
  }

  ghost function RunEach(cfg: Config, s: Step, calls: seq<Call>): Step {
    if calls == [] then s else Then(cfg, RunEach(cfg, s, calls[..|calls| - 1]), calls[|calls| - 1])
  }

  lemma RunEachSnoc(cfg: Config, s: Step, calls: seq<Call>, call: Call)
    ensures RunEach(cfg, s, calls + [call]) == Then(cfg, RunEach(cfg, s, calls), call)
  {
    assert (calls + [call])[..|calls|] == calls;
  }

  /** Running one list of calls and then another. */
  lemma {:induction false} RunEachConcat(cfg: Config, s: Step, a: seq<Call>, b: seq<Call>)
    ensures RunEach(cfg, s, a + b) == RunEach(cfg, RunEach(cfg, s, a), b)
    decreases |b|
  {
    if b == [] {
      assert a + b == a;
    } else {
      RunEachConcat(cfg, s, a, b[..|b| - 1]);
      assert (a + b)[..|a + b| - 1] == a + b[..|b| - 1];
    }
  }

  /** Unrolling a list of calls, one after the other. */
  lemma Unroll2(cfg: Config, s: Step, a: Call, b: Call)
    ensures RunEach(cfg, s, [a, b]) == Then(cfg, Then(cfg, s, a), b)
  {
    assert [a, b][..1] == [a] && [a][..0] == [];
    assert RunEach(cfg, s, [a]) == Then(cfg, s, a);
  }

  lemma Unroll3(cfg: Config, s: Step, a: Call, b: Call, c: Call)
    ensures RunEach(cfg, s, [a, b, c]) == Then(cfg, Then(cfg, Then(cfg, s, a), b), c)
  {
    Unroll2(cfg, s, a, b);
    assert [a, b, c][..2] == [a, b];
  }

  lemma Unroll4(cfg: Config, s: Step, a: Call, b: Call, c: Call, d: Call)
    ensures RunEach(cfg, s, [a, b, c, d]) == Then(cfg, Then(cfg, Then(cfg, Then(cfg, s, a), b), c), d)
  {
    Unroll3(cfg, s, a, b, c);
    assert [a, b, c, d][..3] == [a, b, c];
  }

  lemma Unroll5(cfg: Config, s: Step, a: Call, b: Call, c: Call, d: Call, e: Call)
    ensures RunEach(cfg, s, [a, b, c, d, e])
            == Then(cfg, Then(cfg, Then(cfg, Then(cfg, Then(cfg, s, a), b), c), d), e)
  {
    Unroll4(cfg, s, a, b, c, d);
    assert [a, b, c, d, e][..4] == [a, b, c, d];
  }

  lemma ThenShift(cfg: Config, st: ReplicaState, past: seq<Effect>, out: seq<Effect>, call: Call)
    ensures Then(cfg, Step(st, past + out), call).st == Then(cfg, Step(st, out), call).st
    ensures Then(cfg, Step(st, past + out), call).out == past + Then(cfg, Step(st, out), call).out
  {
    var r := Run(cfg, st, call);
    assert past + out + r.out == past + (out + r.out);
  }

  /** Earlier effects do not influence later calls. */
  lemma {:induction false} RunEachShift(cfg: Config, st: ReplicaState, past: seq<Effect>, calls: seq<Call>)
    ensures var s := RunEach(cfg, Step(st, []), calls);
            RunEach(cfg, Step(st, past), calls) == Step(s.st, past + s.out)
  {
    if calls == [] {
      assert past + [] == past;
    } else {
      var front, last := calls[..|calls| - 1], calls[|calls| - 1];
      RunEachShift(cfg, st, past, front);
      var s := RunEach(cfg, Step(st, []), front);
      ThenShift(cfg, s.st, past, s.out, last);
      assert Step(s.st, s.out) == s;
    }
  }

  /** A trail's state and effects are those that the calls produce. */
  lemma {:induction false} RunAllIsRunEach(cfg: Config, t: Trail, calls: seq<Call>)
    ensures RunEach(cfg, Step(t.st, t.out), calls) == Step(RunAll(cfg, t, calls).st, RunAll(cfg, t, calls).out)
  {
    if calls != [] {
      RunAllIsRunEach(cfg, t, calls[..|calls| - 1]);
    }
  }

  /** One `process_message` or `handle_event` call. */
  ghost function Handle(cfg: Config, t: Trail, input: Input): Trail {
    RunAll(cfg, t, Program(input))
  }

  /** Handling an input from a trail: the state moves as the bare call sequence says, and its
      effects are appended. */
  lemma HandleAppends(cfg: Config, t: Trail, input: Input)
    ensures var s := RunEach(cfg, Step(t.st, []), Program(input));
            Handle(cfg, t, input).st == s.st && Handle(cfg, t, input).out == t.out + s.out
  {
    RunAllIsRunEach(cfg, t, Program(input));
    RunEachShift(cfg, t.st, t.out, Program(input));
  }

  /** Any sequence of inputs. */
  ghost function HandleAll(cfg: Config, t: Trail, inputs: seq<Input>): Trail {
    if inputs == [] then t
    else Handle(cfg, HandleAll(cfg, t, inputs[..|inputs| - 1]), inputs[|inputs| - 1])
  }

  function InitialState(node: NodeId): ReplicaState {
    ReplicaState(node, Speculative, 0, 0, 0, 0, map[], 0, ZERO_HASH, 0, false, 0,
                 {}, {}, {}, {}, {}, {}, {}, {})
  }

  function Initial(node: NodeId): Trail {
    Trail(InitialState(node), [], 0, {})
  }

  function Emitted(out: seq<Effect>): set<Message> {
    set e | e in out :: e.message
  }
}
