/** Scans over a message set, as the guards make them. */
module Scans {
  import opened Types

  ghost function Kept(ms: set<Message>, keep: Message -> bool): set<Message> {
    set m | m in ms && keep(m)
  }

  /** `iter().filter(keep).count()`. */
  method CountWhere(ms: set<Message>, keep: Message -> bool) returns (n: nat)
    ensures n == |Kept(ms, keep)|
  {
    n := 0;
    var rest := ms;
    while rest != {}
      invariant rest <= ms && n == |Kept(ms - rest, keep)|
    {
      var m :| m in rest;
      ghost var seen := ms - rest;
      rest := rest - {m};
      assert ms - rest == seen + {m};
      if keep(m) {
        assert Kept(seen + {m}, keep) == Kept(seen, keep) + {m};
        n := n + 1;
      } else {
        assert Kept(seen + {m}, keep) == Kept(seen, keep);
      }
    }
    assert ms - rest == ms;
  }

  /** The distinct senders of LOGs for (view, round). */
  method LogSenders(ms: set<Message>, view: nat, round: nat) returns (senders: set<NodeId>)
    ensures senders == Senders(LogVotes(ms, view, round))
  {
    senders := {};
    var rest := ms;
    while rest != {}
      invariant rest <= ms && senders == Senders(LogVotes(ms - rest, view, round))
    {
      var m :| m in rest;
      ghost var seen := ms - rest;
      rest := rest - {m};
      assert ms - rest == seen + {m};
      if m.LogMsg? && m.view == view && m.round == round {
        assert LogVotes(seen + {m}, view, round) == LogVotes(seen, view, round) + {m};
        senders := senders + {m.from};
      } else {
        assert LogVotes(seen + {m}, view, round) == LogVotes(seen, view, round);
      }
    }
    assert ms - rest == ms;
  }

  /** `iter().find_map(..)`: the first history hash for (view, round) that the scan meets. */
  method FindHistory(ms: set<Message>, view: nat, round: nat) returns (r: Option<nat>)
    ensures r.Some? ==> r.value in HistoryHashes(ms, view, round) && Histories(ms, view, round) != {}
    ensures r.None? ==> Histories(ms, view, round) == {} && HistoryHashes(ms, view, round) == {}
  {
    var rest := ms;
    while rest != {}
      invariant rest <= ms
      invariant Histories(ms - rest, view, round) == {} && HistoryHashes(ms - rest, view, round) == {}
    {
      var m :| m in rest;
      if m.RepairHistory? && m.view == view && m.round == round {
        assert m in Histories(ms, view, round);
        return Some(m.historyHash);
      }
      assert ms - (rest - {m}) == ms - rest + {m};
      rest := rest - {m};
    }
    assert ms - rest == ms;
    r := None;
  }
}

/** The replica as the mutable object of `consensus/src/replica.rs`: every guard scans the
    stored messages, every handler updates fields and store in place, and the whole dispatch is
    proved to do what the call list says and to keep the object valid. */
module ReplicaObject {
  import opened Types
  import opened Storage
  import opened Dispatch
  import opened Voting
  import opened CanonicalLog
  import opened Scans
  import CheckpointRecord
  import GuardMeaning
  import HandlerMeaning
  import InputMeaning
  import FastPath
  import Checkpointing
  import Alignment
  import RepairEntry
  import Repair

  // Consecutive groups of handlers make up the dispatch of a message.

  function FastCalls(msg: Message): seq<Call> {
    [Speculating(msg), SyncThreshold, ReceivingSync(msg), ReceivingCheckpoint(msg), CheckingConflict]
  }

  function EntryCalls(msg: Message): seq<Call> {
    [ReceivingTimeout(msg), EnteringRepair(msg), AnsweringRequest(msg), AdoptingState(msg)]
  }

  function ProposalCalls(msg: Message, pick: nat): seq<Call> {
    [ReceivingLog(msg), ReceivingHistory(msg, pick)]
  }

  function ExitCalls(msg: Message): seq<Call> {
    [ReceivingCommit(msg), ReceivingDone(msg)]
  }

  lemma WholeProgram(cfg: Config, s: Step, msg: Message, pick: nat)
    ensures RunEach(cfg, s, Program(Deliver(msg, pick)))
            == RunEach(cfg, Then(cfg, RunEach(cfg, RunEach(cfg, RunEach(cfg, s, FastCalls(msg)), EntryCalls(msg)),
                                              ProposalCalls(msg, pick)), ReceivingPrepare(msg)), ExitCalls(msg))
  {
    var a, b, c, d := FastCalls(msg), EntryCalls(msg), ProposalCalls(msg, pick), ExitCalls(msg);
    RunEachConcat(cfg, s, a, b);
    RunEachConcat(cfg, s, a + b, c);
    RunEachSnoc(cfg, s, a + b + c, ReceivingPrepare(msg));
    RunEachConcat(cfg, s, a + b + c + [ReceivingPrepare(msg)], d);
    assert Program(Deliver(msg, pick)) == a + b + c + [ReceivingPrepare(msg)] + d;
  }

  /** What holds of every replica between two inputs: the phase agrees with `inRepair`, the
      store is dense and at least as long as the log, and the log is canonical. */
  ghost predicate Sound(cfg: Config, st: ReplicaState) {
    && PhaseConsistent(st)
    && Dense(st.store) && st.kvSize <= SizeOf(st.store)
    && exists base :: Canonical(cfg, st.store, st.kvSize, base)
  }

  lemma {:induction false} RunAllSound(cfg: Config, t: Trail, calls: seq<Call>)
    requires PhaseConsistent(t.st) && LogInv(cfg, t)
    ensures PhaseConsistent(RunAll(cfg, t, calls).st) && LogInv(cfg, RunAll(cfg, t, calls))
  {
    if calls != [] {
      var mid, last := RunAll(cfg, t, calls[..|calls| - 1]), calls[|calls| - 1];
      RunAllSound(cfg, t, calls[..|calls| - 1]);
      CallVotes(cfg, mid.st, last);
      AdvanceLog(cfg, mid, last);
    }
  }

  /** Every input keeps it. */
  lemma SoundKept(cfg: Config, st: ReplicaState, input: Input)
    requires Sound(cfg, st)
    ensures Sound(cfg, RunEach(cfg, Step(st, []), Program(input)).st)
  {
    var base :| Canonical(cfg, st.store, st.kvSize, base);
    var t := Trail(st, [], base, {});
    RunAllSound(cfg, t, Program(input));
    RunAllIsRunEach(cfg, t, Program(input));
    var after := RunAll(cfg, t, Program(input));
    assert Canonical(cfg, after.st.store, after.st.kvSize, after.base);
  }

  /** COMMITs of `n - f` different nodes for what the replica votes on, once `msg` is stored. */
  ghost predicate HasCommitQuorum(cfg: Config, st: ReplicaState, msg: Message) {
    && st.phase.CommitPhase?
    && GuardMeaning.AtLeast(cfg.n - cfg.f, HandlerMeaning.With(st.commitMsgs, msg, msg.RepairCommit?),
                            GuardMeaning.CommitOf(st.view, st.round, st.proposed))
  }

  /** What a dispatch has done, in fields, keys and bytes. */
  ghost predicate Explained(cfg: Config, before: ReplicaState, msg: Message, after: ReplicaState,
                            effects: seq<Effect>) {
    && InputMeaning.StoredAfter(before, after, msg, 14)
    && (HasCommitQuorum(cfg, before, msg) ==> InputMeaning.Applied(before, after, before.proposed))
    && (!msg.StateReply? ==>
          forall e :: e in effects && e.message.Checkpoint? ==>
                        after.chkptIdx == e.message.logIdx && after.chkptHash == e.message.logHash)
    && (msg.StateRequest? ==> Send(msg.from, StateReply(after.nodeId, after.chkptIdx, after.chkptHash)) in effects)
  }

  lemma DeliveryExplained(cfg: Config, st: ReplicaState, msg: Message, pick: nat)
    requires PhaseConsistent(st)
    ensures var s := RunEach(cfg, Step(st, []), Program(Deliver(msg, pick)));
            s.st.nodeId == st.nodeId ==> Explained(cfg, st, msg, s.st, s.out)
  {
    var s := RunEach(cfg, Step(st, []), Program(Deliver(msg, pick)));
    InputMeaning.DeliveryStores(cfg, st, msg, pick);
    if HasCommitQuorum(cfg, st, msg) {
      InputMeaning.ApplyDelivered(cfg, st, msg, pick);
    }
    forall e | !msg.StateReply? && e in s.out && e.message.Checkpoint?
      ensures s.st.chkptIdx == e.message.logIdx && s.st.chkptHash == e.message.logHash
    {
      CheckpointRecord.AnnouncedInDelivery(cfg, st, msg, pick, e);
    }
    if msg.StateRequest? {
      CheckpointRecord.RequestDelivered(cfg, st, msg, pick,
                                        Send(msg.from, StateReply(st.nodeId, s.st.chkptIdx, s.st.chkptHash)));
    }
  }

  class Replica {
    const config: Config
    const nodeId: NodeId
    const kvStore: MemKvStore

    var phase: Phase
    var round: nat
    var view: nat
    var startIdx: nat
    var kvSize: nat
    var chkptIdx: nat
    var chkptHash: Hash
    var etaStar: nat
    var inRepair: bool
    var proposed: nat
    var syncMsgs: set<Message>
    var chkptMsgs: set<Message>
    var timeoutMsgs: set<Message>
    var logMsgs: set<Message>
    var historyMsgs: set<Message>
    var prepareMsgs: set<Message>
    var commitMsgs: set<Message>
    var doneMsgs: set<Message>

    /** The store hashes entries as the configuration says. */
    ghost predicate Linked() {
      kvStore.entryHash == config.entryHash
    }

    ghost predicate Valid()
      reads this, kvStore
    {
      Linked() && Sound(config, State())
    }

    function State(): ReplicaState
      reads this, kvStore
    {
      ReplicaState(nodeId, phase, round, view, startIdx, kvSize, kvStore.entries, chkptIdx, chkptHash, etaStar,
                   inRepair, proposed, syncMsgs, chkptMsgs, timeoutMsgs, logMsgs, historyMsgs, prepareMsgs,
                   commitMsgs, doneMsgs)
    }

    constructor (config: Config, nodeId: NodeId)
      ensures Valid() && State() == InitialState(nodeId)
      ensures this.config == config && fresh(kvStore)
    {
      this.config := config;
      this.nodeId := nodeId;
      kvStore := new MemKvStore(config.entryHash);
      phase, round, view, startIdx, kvSize := Speculative, 0, 0, 0, 0;
      chkptIdx, chkptHash, etaStar, inRepair, proposed := 0, ZERO_HASH, 0, false, 0;
      syncMsgs, chkptMsgs, timeoutMsgs, logMsgs := {}, {}, {}, {};
      historyMsgs, prepareMsgs, commitMsgs, doneMsgs := {}, {}, {}, {};
      SizeIs(map[], 0);
      assert Canonical(config, map[], 0, 0);
    }

    method IsLeaderNow() returns (b: bool)
      ensures b == IsLeader(config, nodeId, view)
    {
      var n := |config.nodesOrdered|;
      if n == 0 {
        return false;
      }
      return config.nodesOrdered[view % n] == nodeId;
    }

    // Guards that scan stored messages.

    method FormCheckpointGuard() returns (r: Option<nat>)
      ensures r == Checkpointing.CanFormCheckpoint(config, State())
    {
      if phase != Speculative || kvSize == 0 {
        return None;
      }
      var idx, now := kvSize - 1, round;
      var top := kvStore.TopHash();
      var keep := (m: Message) => m.Sync? && m.round == now && m.logIdx == idx && m.logHash == top;
      var n := CountWhere(syncMsgs, keep);
      assert Kept(syncMsgs, keep) == MatchingSyncs(syncMsgs, now, idx, top);
      r := if n >= config.FastQuorum() then Some(idx) else None;
    }

    method EnterAlignGuard() returns (r: Option<nat>)
      ensures r == Alignment.CanEnterAlign(config, State())
    {
      if phase != Speculative {
        return None;
      }
      var idx, now := chkptIdx, round;
      var keep := (m: Message) => m.Checkpoint? && m.round == now && m.logIdx == idx;
      var n := CountWhere(chkptMsgs, keep);
      assert Kept(chkptMsgs, keep) == CheckpointVotes(chkptMsgs, now, idx);
      r := if n >= config.FPlus1() then Some(idx) else None;
    }

    method ConflictGuard() returns (r: Option<nat>)
      ensures r == RepairEntry.CanConflictProof(config, State())
    {
      if phase != Speculative || kvSize == 0 || inRepair {
        return None;
      }
      var idx, now := kvSize - 1, round;
      var top := kvStore.TopHash();
      var any := (m: Message) => m.Sync? && m.round == now && m.logIdx == idx;
      var total := CountWhere(syncMsgs, any);
      assert Kept(syncMsgs, any) == SyncVotes(syncMsgs, now, idx);
      var same := (m: Message) => m.Sync? && m.round == now && m.logIdx == idx && m.logHash == top;
      var consist := CountWhere(syncMsgs, same);
      assert Kept(syncMsgs, same) == MatchingSyncs(syncMsgs, now, idx, top);
      r := if total >= config.ByzQuorum() && consist < config.FastQuorum() then Some(idx) else None;
    }

    method TimeoutGuard() returns (r: Option<nat>)
      ensures r == RepairEntry.CanTimeoutProof(config, State())
    {
      if phase != Speculative || inRepair || kvSize == 0 {
        return None;
      }
      var idx, now := kvSize - 1, round;
      var keep := (m: Message) => m.TimeoutMsg? && m.round == now && m.logIdx == idx;
      var n := CountWhere(timeoutMsgs, keep);
      assert Kept(timeoutMsgs, keep) == TimeoutVotes(timeoutMsgs, now, idx);
      r := if n >= config.FPlus1() then Some(idx) else None;
    }

    method HistoryGuard() returns (r: Option<nat>)
      ensures r == Repair.CanBroadcastHistory(config, State())
    {
      if phase != CollectingLogs {
        return None;
      }
      var leader := IsLeaderNow();
      if !leader {
        return None;
      }
      var senders := LogSenders(logMsgs, view, round);
      r := if |senders| >= config.ByzQuorum() then Some(|senders|) else None;
    }

    /** What the scan finds is the specification's answer for that `pick`. */
    method PrepareGuard() returns (r: Option<nat>, ghost pick: nat)
      ensures r == Repair.CanRepairPrepare(State(), pick)
      ensures r.Some? <==>
                (phase.CollectingLogs? || phase.PreparePhase?) && HistoryHashes(historyMsgs, view, round) != {}
      ensures r.Some? ==> r.value in HistoryHashes(historyMsgs, view, round)
    {
      pick := 0;
      if phase != CollectingLogs && phase != PreparePhase {
        return None, 0;
      }
      r := FindHistory(historyMsgs, view, round);
      pick := if r.Some? then r.value else 0;
    }

    method CommitGuard() returns (r: Option<nat>)
      ensures r == Repair.CanRepairCommit(config, State())
    {
      if phase != PreparePhase {
        return None;
      }
      var v, now, hash := view, round, proposed;
      var keep := (m: Message) => m.RepairPrepare? && m.view == v && m.round == now && m.historyHash == hash;
      var n := CountWhere(prepareMsgs, keep);
      assert Kept(prepareMsgs, keep) == PrepareVotes(prepareMsgs, v, now, hash);
      r := if n >= config.ByzQuorum() then Some(hash) else None;
    }

    method ApplyGuard() returns (r: Option<nat>)
      ensures r == Repair.CanApplyRepair(config, State())
    {
      if phase != CommitPhase {
        return None;
      }
      var v, now, hash := view, round, proposed;
      var keep := (m: Message) => m.RepairCommit? && m.view == v && m.round == now && m.historyHash == hash;
      var n := CountWhere(commitMsgs, keep);
      assert Kept(commitMsgs, keep) == CommitVotes(commitMsgs, v, now, hash);
      r := if n >= config.ByzQuorum() then Some(hash) else None;
    }

    method CatchUpGuard() returns (b: bool)
      ensures b == Repair.CanCatchUp(config, State())
    {
      if phase != CollectingLogs && phase != PreparePhase && phase != CommitPhase {
        return false;
      }
      var v, now := view, round;
      var keep := (m: Message) => m.RepairDone? && m.view == v && m.round == now;
      var n := CountWhere(doneMsgs, keep);
      assert Kept(doneMsgs, keep) == DoneVotes(doneMsgs, v, now);
      var found := FindHistory(historyMsgs, v, now);
      b := n >= config.FPlus1() && found.Some?;
    }

    // Fast path.

    method HandleSpeculate(idx: nat) returns (effects: seq<Effect>)
      requires Linked()
      modifies this`kvSize, kvStore
      ensures var s := FastPath.Speculation(config, old(State()), idx); State() == s.st && effects == s.out
    {
      var prevHash := ZERO_HASH;
      if idx > 0 {
        var h := kvStore.HashAt(idx - 1);
        if h.Some? {
          prevHash := h.value;
        }
      }
      var entry := KvEntry(idx, [], prevHash);
      kvStore.Put(idx, entry);
      var newHash := kvStore.HashAt(idx);
      kvSize := kvSize + 1;
      effects := [Broadcast(SpecReply(nodeId, round, idx, newHash.value))];
    }

    // Checkpoints.

    method HandleSendSync(idx: nat) returns (effects: seq<Effect>)
      ensures var s := Checkpointing.SendSync(State(), idx); State() == s.st && effects == s.out
    {
      var logHash := kvStore.TopHash();
      effects := [Broadcast(Sync(nodeId, round, idx, logHash, etaStar))];
    }

    method HandleFormCheckpoint(idx: nat) returns (effects: seq<Effect>)
      modifies this`chkptIdx, this`chkptHash
      ensures var s := Checkpointing.FormCheckpoint(old(State()), idx); State() == s.st && effects == s.out
    {
      var logHash := kvStore.TopHash();
      chkptIdx := idx;
      chkptHash := logHash;
      effects := [Broadcast(Checkpoint(nodeId, round, idx, logHash))];
    }

    method OnReceiveSync(msg: Message) returns (effects: seq<Effect>)
      modifies this`syncMsgs, this`chkptIdx, this`chkptHash
      ensures var s := Checkpointing.OnReceiveSync(config, old(State()), msg); State() == s.st && effects == s.out
    {
      if msg.Sync? {
        syncMsgs := syncMsgs + {msg};
      }
      effects := [];
      var fires := FormCheckpointGuard();
      match fires {
        case Some(idx) => effects := HandleFormCheckpoint(idx);
        case None =>
      }
    }

    // Alignment.

    method OnReceiveCheckpoint(msg: Message) returns (effects: seq<Effect>)
      modifies this`chkptMsgs, this`phase
      ensures var s := Alignment.OnReceiveCheckpoint(config, old(State()), msg); State() == s.st && effects == s.out
    {
      if msg.Checkpoint? {
        chkptMsgs := chkptMsgs + {msg};
      }
      effects := [];
      var fires := EnterAlignGuard();
      match fires {
        case Some(idx) =>
          phase := Aligning;
          effects := [Broadcast(StateRequest(nodeId, idx))];
        case None =>
      }
    }

    /** Replace the log by placeholder entries `0..n`. */
    method RebuildSynthetic(n: nat)
      modifies kvStore
      ensures kvStore.entries == SyntheticStore(n)
    {
      SyntheticListStore(n);
      kvStore.RebuildFromEntries(SyntheticList(n));
    }

    /** Assign the fields that a recovered checkpoint determines. */
    method ResumeAt(idx: nat, hash: Hash)
      modifies this`phase, this`chkptIdx, this`chkptHash, this`kvSize, this`startIdx
      ensures phase == Speculative && chkptIdx == startIdx == idx && chkptHash == hash && kvSize == idx + 1
    {
      phase := Speculative;
      chkptIdx := idx;
      chkptHash := hash;
      kvSize := idx + 1;
      startIdx := idx;
    }

    method HandleStateReply(idx: nat) returns (effects: seq<Effect>)
      requires Linked()
      modifies this, kvStore
      ensures var s := Alignment.AdoptState(config, old(State()), idx); State() == s.st && effects == s.out
    {
      RebuildSynthetic(idx + 1);
      var h := kvStore.HashAt(idx);
      ResumeAt(idx, match h case Some(v) => v case None => ZERO_HASH);
      effects := [];
    }

    // Entering REPAIR.

    method BeginRepair(proofs: seq<Effect>) returns (effects: seq<Effect>)
      modifies this`phase, this`inRepair
      ensures var s := RepairEntry.EnterRepair(old(State()), proofs); State() == s.st && effects == s.out
    {
      phase := CollectingLogs;
      inRepair := true;
      var logHash := kvStore.TopHash();
      effects := proofs + [Broadcast(LogMsg(nodeId, view, round, logHash))];
    }

    method CheckConflict() returns (effects: seq<Effect>)
      modifies this`phase, this`inRepair
      ensures var s := RepairEntry.CheckConflict(config, old(State())); State() == s.st && effects == s.out
    {
      effects := [];
      var fires := ConflictGuard();
      match fires {
        case Some(idx) => effects := BeginRepair([Broadcast(ConflictProof(round, idx))]);
        case None =>
      }
    }

    method OnReceiveTimeout(msg: Message) returns (effects: seq<Effect>)
      modifies this`timeoutMsgs, this`phase, this`inRepair
      ensures var s := RepairEntry.OnReceiveTimeout(config, old(State()), msg); State() == s.st && effects == s.out
    {
      if msg.TimeoutMsg? {
        timeoutMsgs := timeoutMsgs + {msg};
      }
      effects := [];
      var fires := TimeoutGuard();
      match fires {
        case Some(idx) => effects := BeginRepair([Broadcast(TimeoutProof(round, idx))]);
        case None =>
      }
    }

    // REPAIR agreement.

    method OnReceiveLogMsg(msg: Message) returns (effects: seq<Effect>)
      modifies this`logMsgs, this`phase, this`proposed
      ensures var s := Repair.OnReceiveLogMsg(config, old(State()), msg); State() == s.st && effects == s.out
    {
      if msg.LogMsg? {
        logMsgs := logMsgs + {msg};
      }
      effects := [];
      var fires := HistoryGuard();
      match fires {
        case Some(hash) =>
          phase := PreparePhase;
          proposed := hash;
          effects := [Broadcast(RepairHistory(nodeId, view, round, hash))];
        case None =>
      }
    }

    /** `pick` records which stored history the scan of the hash set met first. */
    method OnReceiveHistory(msg: Message) returns (effects: seq<Effect>, ghost pick: nat)
      modifies this`historyMsgs, this`phase, this`proposed
      ensures var s := Repair.OnReceiveHistory(old(State()), msg, pick); State() == s.st && effects == s.out
    {
      if msg.RepairHistory? {
        historyMsgs := historyMsgs + {msg};
      }
      effects := [];
      var fires;
      fires, pick := PrepareGuard();
      match fires {
        case Some(hash) =>
          phase := PreparePhase;
          proposed := hash;
          effects := [Broadcast(RepairPrepare(nodeId, view, round, hash))];
        case None =>
      }
    }

    method OnReceivePrepare(msg: Message) returns (effects: seq<Effect>)
      modifies this`prepareMsgs, this`phase
      ensures var s := Repair.OnReceivePrepare(config, old(State()), msg); State() == s.st && effects == s.out
    {
      if msg.RepairPrepare? {
        prepareMsgs := prepareMsgs + {msg};
      }
      effects := [];
      var fires := CommitGuard();
      match fires {
        case Some(hash) =>
          phase := CommitPhase;
          effects := [Broadcast(RepairCommit(nodeId, view, round, hash))];
        case None =>
      }
    }

    /** Close the current round and return to the fast path. */
    method LeaveRound(newStart: nat, newSize: nat)
      modifies this`phase, this`round, this`startIdx, this`kvSize, this`inRepair, this`proposed
      ensures phase == Speculative && round == old(round) + 1 && startIdx == newStart && kvSize == newSize
      ensures !inRepair && proposed == 0
    {
      phase := Speculative;
      round := round + 1;
      startIdx := newStart;
      kvSize := newSize;
      inRepair := false;
      proposed := 0;
    }

    method HandleApplyRepair(hash: nat) returns (effects: seq<Effect>)
      modifies this, kvStore
      ensures var s := Repair.ApplyRepair(old(State()), hash); State() == s.st && effects == s.out
    {
      var oldRound, oldKvSize := round, kvSize;
      if hash > 0 {
        RebuildSynthetic(hash);
      }
      LeaveRound(hash, hash);
      effects := [Broadcast(RepairDone(nodeId, view, oldRound, hash)),
                  Broadcast(CommittedReply(nodeId, oldRound, oldKvSize))];
    }

    method OnReceiveCommit(msg: Message) returns (effects: seq<Effect>)
      modifies this, kvStore
      ensures var s := Repair.OnReceiveCommit(config, old(State()), msg); State() == s.st && effects == s.out
    {
      if msg.RepairCommit? {
        commitMsgs := commitMsgs + {msg};
      }
      effects := [];
      var fires := ApplyGuard();
      match fires {
        case Some(hash) => effects := HandleApplyRepair(hash);
        case None =>
      }
    }

    method OnReceiveDone(msg: Message) returns (effects: seq<Effect>)
      modifies this
      ensures var s := Repair.OnReceiveDone(config, old(State()), msg); State() == s.st && effects == s.out
    {
      if msg.RepairDone? {
        doneMsgs := doneMsgs + {msg};
      }
      effects := [];
      var fires := CatchUpGuard();
      if fires {
        LeaveRound(kvSize, kvSize);
      }
    }

    // The guard/handler pairs that `process_message` and `handle_event` spell out inline.

    method TrySpeculate(msg: Message) returns (effects: seq<Effect>)
      requires Linked()
      modifies this`kvSize, kvStore
      ensures var s := Run(config, old(State()), Speculating(msg)); State() == s.st && effects == s.out
    {
      effects := [];
      match FastPath.CanSpeculate(State(), msg) {
        case Some(idx) => effects := HandleSpeculate(idx);
        case None =>
      }
    }

    method TrySyncThreshold() returns (effects: seq<Effect>)
      ensures var s := Run(config, State(), SyncThreshold); State() == s.st && effects == s.out
    {
      effects := [];
      match Checkpointing.CanSendSyncThreshold(State()) {
        case Some(idx) => effects := HandleSendSync(idx);
        case None =>
      }
    }

    method TryEnterRepair(msg: Message) returns (effects: seq<Effect>)
      modifies this`phase, this`inRepair
      ensures var s := Run(config, old(State()), EnteringRepair(msg)); State() == s.st && effects == s.out
    {
      effects := [];
      if RepairEntry.CanEnterRepair(State(), msg) {
        effects := BeginRepair([]);
      }
    }

    method TryStateRequest(msg: Message) returns (effects: seq<Effect>)
      ensures var s := Run(config, State(), AnsweringRequest(msg)); State() == s.st && effects == s.out
    {
      effects := [];
      if msg.StateRequest? {
        effects := [Send(msg.from, StateReply(nodeId, chkptIdx, chkptHash))];
      }
    }

    method TryStateReply(msg: Message) returns (effects: seq<Effect>)
      requires Linked()
      modifies this, kvStore
      ensures var s := Run(config, old(State()), AdoptingState(msg)); State() == s.st && effects == s.out
    {
      effects := [];
      match Alignment.CanStateReply(State(), msg) {
        case Some(idx) => effects := HandleStateReply(idx);
        case None =>
      }
    }

    method TrySyncEvent(event: Event) returns (effects: seq<Effect>)
      ensures var s := Run(config, State(), SyncEvent(event)); State() == s.st && effects == s.out
    {
      effects := [];
      match Checkpointing.CanSendSyncOnEvent(State(), event) {
        case Some(idx) => effects := HandleSendSync(idx);
        case None =>
      }
    }

    method TryChkptTimeout(event: Event) returns (effects: seq<Effect>)
      ensures var s := Run(config, State(), ChkptEvent(event)); State() == s.st && effects == s.out
    {
      effects := [];
      match RepairEntry.CanChkptTimeout(State(), event) {
        case Some(idx) => effects := [Broadcast(TimeoutMsg(nodeId, round, idx))];
        case None =>
      }
    }

    method TryViewChange(event: Event) returns (effects: seq<Effect>)
      modifies this`view
      ensures var s := Run(config, old(State()), ViewEvent(event)); State() == s.st && effects == s.out
    {
      effects := [];
      match Repair.CanViewChange(State(), event) {
        case Some(newView) =>
          view := newView;
          var logHash := kvStore.TopHash();
          effects := [Broadcast(LogMsg(nodeId, newView, round, logHash))];
        case None =>
      }
    }

    // `effects` is the caller's vector, which each handler extends.

    /** Offer a message to the fast path, checkpoint and alignment-entry handlers. */
    method FastHandlers(msg: Message, given: seq<Effect>) returns (effects: seq<Effect>)
      requires Linked()
      modifies this, kvStore
      ensures RunEach(config, Step(old(State()), given), FastCalls(msg)) == Step(State(), effects)
    {
      Unroll5(config, Step(State(), given), Speculating(msg), SyncThreshold, ReceivingSync(msg),
              ReceivingCheckpoint(msg), CheckingConflict);
      var e := TrySpeculate(msg);
      effects := given + e;
      e := TrySyncThreshold();
      effects := effects + e;
      e := OnReceiveSync(msg);
      effects := effects + e;
      e := OnReceiveCheckpoint(msg);
      effects := effects + e;
      e := CheckConflict();
      effects := effects + e;
    }

    /** Offer a message to the repair-entry and alignment-exit handlers. */
    method EntryHandlers(msg: Message, given: seq<Effect>) returns (effects: seq<Effect>)
      requires Linked()
      modifies this, kvStore
      ensures RunEach(config, Step(old(State()), given), EntryCalls(msg)) == Step(State(), effects)
    {
      Unroll4(config, Step(State(), given), ReceivingTimeout(msg), EnteringRepair(msg), AnsweringRequest(msg),
              AdoptingState(msg));
      var e := OnReceiveTimeout(msg);
      effects := given + e;
      e := TryEnterRepair(msg);
      effects := effects + e;
      e := TryStateRequest(msg);
      effects := effects + e;
      e := TryStateReply(msg);
      effects := effects + e;
    }

    /** Offer a message to the handlers that propose and first vote on a history. */
    method ProposalHandlers(msg: Message, given: seq<Effect>) returns (effects: seq<Effect>, ghost pick: nat)
      modifies this
      ensures RunEach(config, Step(old(State()), given), ProposalCalls(msg, pick)) == Step(State(), effects)
    {
      ghost var start := State();
      var e := OnReceiveLogMsg(msg);
      effects := given + e;
      e, pick := OnReceiveHistory(msg);
      effects := effects + e;
      Unroll2(config, Step(start, given), ReceivingLog(msg), ReceivingHistory(msg, pick));
    }

    /** Offer a message to the handlers that leave the round. */
    method ExitHandlers(msg: Message, given: seq<Effect>) returns (effects: seq<Effect>)
      modifies this, kvStore
      ensures RunEach(config, Step(old(State()), given), ExitCalls(msg)) == Step(State(), effects)
    {
      Unroll2(config, Step(State(), given), ReceivingCommit(msg), ReceivingDone(msg));
      var e := OnReceiveCommit(msg);
      effects := given + e;
      e := OnReceiveDone(msg);
      effects := effects + e;
    }

    /** Dispatch one message: every guard in order, on the state its predecessors left. */
    method ProcessMessage(msg: Message) returns (effects: seq<Effect>, ghost pick: nat)
      requires Valid()
      modifies this, kvStore
      ensures Valid()
      ensures RunEach(config, Step(old(State()), []), Program(Deliver(msg, pick))) == Step(State(), effects)
      ensures Explained(config, old(State()), msg, State(), effects)
    {
      ghost var start := State();
      effects := FastHandlers(msg, []);
      effects := EntryHandlers(msg, effects);
      effects, pick := ProposalHandlers(msg, effects);
      var e := OnReceivePrepare(msg);
      effects := effects + e;
      effects := ExitHandlers(msg, effects);
      WholeProgram(config, Step(start, []), msg, pick);
      SoundKept(config, start, Deliver(msg, pick));
      DeliveryExplained(config, start, msg, pick);
    }

    /** Handle one timer event. */
    method HandleEvent(event: Event) returns (effects: seq<Effect>)
      requires Valid()
      modifies this`view
      ensures Valid()
      ensures RunEach(config, Step(old(State()), []), Program(Timer(event))) == Step(State(), effects)
      ensures forall top :: GuardMeaning.IsTop(kvStore.entries, top) ==>
                              Step(State(), effects) == InputMeaning.TimerOutcome(old(State()), event, top)
    {
      ghost var start := State();
      SoundKept(config, State(), Timer(event));
      Unroll3(config, Step(State(), []), SyncEvent(event), ChkptEvent(event), ViewEvent(event));
      var e := TrySyncEvent(event);
      effects := [] + e;
      e := TryChkptTimeout(event);
      effects := effects + e;
      e := TryViewChange(event);
      effects := effects + e;
      forall top | GuardMeaning.IsTop(kvStore.entries, top)
        ensures Step(State(), effects) == InputMeaning.TimerOutcome(start, event, top)
      {
        InputMeaning.TimerMeans(config, start, event, top);
      }
    }
  }
}
