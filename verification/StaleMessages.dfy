/** Messages of past rounds never matter: a replica that throws them away behaves like one
    that keeps them. */
module StaleMessages {
  import opened Types
  import opened Dispatch
  import Storage
  import Checkpointing
  import Alignment
  import RepairEntry
  import Repair

  function Recent(ms: set<Message>, round: nat): set<Message> {
    set m | m in ms && (m.StateRequest? || m.StateReply? || m.round >= round)
  }

  /** The state with every stored message of an earlier round discarded. */
  function Trim(st: ReplicaState): ReplicaState {
    st.(syncMsgs := Recent(st.syncMsgs, st.round),
        chkptMsgs := Recent(st.chkptMsgs, st.round),
        timeoutMsgs := Recent(st.timeoutMsgs, st.round),
        logMsgs := Recent(st.logMsgs, st.round),
        historyMsgs := Recent(st.historyMsgs, st.round),
        prepareMsgs := Recent(st.prepareMsgs, st.round),
        commitMsgs := Recent(st.commitMsgs, st.round),
        doneMsgs := Recent(st.doneMsgs, st.round))
  }

  /** The two states differ at most in messages of past rounds. */
  ghost predicate Alike(a: ReplicaState, b: ReplicaState) {
    && a.nodeId == b.nodeId && a.phase == b.phase && a.round == b.round
    && a.view == b.view && a.startIdx == b.startIdx && a.kvSize == b.kvSize
    && a.store == b.store && a.chkptIdx == b.chkptIdx && a.chkptHash == b.chkptHash
    && a.etaStar == b.etaStar && a.inRepair == b.inRepair && a.proposed == b.proposed
    && Recent(a.syncMsgs, a.round) == Recent(b.syncMsgs, a.round)
    && Recent(a.chkptMsgs, a.round) == Recent(b.chkptMsgs, a.round)
    && Recent(a.timeoutMsgs, a.round) == Recent(b.timeoutMsgs, a.round)
    && Recent(a.logMsgs, a.round) == Recent(b.logMsgs, a.round)
    && Recent(a.historyMsgs, a.round) == Recent(b.historyMsgs, a.round)
    && Recent(a.prepareMsgs, a.round) == Recent(b.prepareMsgs, a.round)
    && Recent(a.commitMsgs, a.round) == Recent(b.commitMsgs, a.round)
    && Recent(a.doneMsgs, a.round) == Recent(b.doneMsgs, a.round)
  }

  lemma VotesAlike(a: set<Message>, b: set<Message>, round: nat, view: nat, idx: nat, hash: nat, top: Hash)
    requires Recent(a, round) == Recent(b, round)
    ensures SyncVotes(a, round, idx) == SyncVotes(b, round, idx)
    ensures MatchingSyncs(a, round, idx, top) == MatchingSyncs(b, round, idx, top)
    ensures CheckpointVotes(a, round, idx) == CheckpointVotes(b, round, idx)
    ensures TimeoutVotes(a, round, idx) == TimeoutVotes(b, round, idx)
    ensures LogVotes(a, view, round) == LogVotes(b, view, round)
    ensures Histories(a, view, round) == Histories(b, view, round)
    ensures HistoryHashes(a, view, round) == HistoryHashes(b, view, round)
    ensures PrepareVotes(a, view, round, hash) == PrepareVotes(b, view, round, hash)
    ensures CommitVotes(a, view, round, hash) == CommitVotes(b, view, round, hash)
    ensures DoneVotes(a, view, round) == DoneVotes(b, view, round)
  {
    var r := Recent(a, round);
    assert SyncVotes(a, round, idx) == SyncVotes(r, round, idx) == SyncVotes(b, round, idx);
    assert MatchingSyncs(a, round, idx, top) == MatchingSyncs(r, round, idx, top) == MatchingSyncs(b, round, idx, top);
    assert CheckpointVotes(a, round, idx) == CheckpointVotes(r, round, idx) == CheckpointVotes(b, round, idx);
    assert TimeoutVotes(a, round, idx) == TimeoutVotes(r, round, idx) == TimeoutVotes(b, round, idx);
    assert LogVotes(a, view, round) == LogVotes(r, view, round) == LogVotes(b, view, round);
    assert Histories(a, view, round) == Histories(r, view, round) == Histories(b, view, round);
    assert HistoryHashes(a, view, round) == HistoryHashes(r, view, round) == HistoryHashes(b, view, round);
    assert PrepareVotes(a, view, round, hash) == PrepareVotes(r, view, round, hash)
        == PrepareVotes(b, view, round, hash);
    assert CommitVotes(a, view, round, hash) == CommitVotes(r, view, round, hash) == CommitVotes(b, view, round, hash);
    assert DoneVotes(a, view, round) == DoneVotes(r, view, round) == DoneVotes(b, view, round);
  }

  lemma RecentSteps(a: set<Message>, b: set<Message>, m: Message, round: nat)
    requires Recent(a, round) == Recent(b, round)
    ensures Recent(a + {m}, round) == Recent(b + {m}, round)
    ensures Recent(a, round + 1) == Recent(b, round + 1)
    ensures Recent(a + {m}, round + 1) == Recent(b + {m}, round + 1)
  {
    assert Recent(a + {m}, round) == Recent(a, round) + Recent({m}, round);
    assert Recent(b + {m}, round) == Recent(b, round) + Recent({m}, round);
    assert Recent(a, round + 1) == Recent(Recent(a, round), round + 1);
    assert Recent(b, round + 1) == Recent(Recent(b, round), round + 1);
    assert Recent(a + {m}, round + 1) == Recent(a, round + 1) + Recent({m}, round + 1);
    assert Recent(b + {m}, round + 1) == Recent(b, round + 1) + Recent({m}, round + 1);
  }

  lemma AlikeLater(a: ReplicaState, b: ReplicaState, m: Message)
    requires Alike(a, b)
    ensures Recent(a.syncMsgs, a.round + 1) == Recent(b.syncMsgs, b.round + 1)
    ensures Recent(a.chkptMsgs, a.round + 1) == Recent(b.chkptMsgs, b.round + 1)
    ensures Recent(a.timeoutMsgs, a.round + 1) == Recent(b.timeoutMsgs, b.round + 1)
    ensures Recent(a.logMsgs, a.round + 1) == Recent(b.logMsgs, b.round + 1)
    ensures Recent(a.historyMsgs, a.round + 1) == Recent(b.historyMsgs, b.round + 1)
    ensures Recent(a.prepareMsgs, a.round + 1) == Recent(b.prepareMsgs, b.round + 1)
    ensures Recent(a.commitMsgs, a.round + 1) == Recent(b.commitMsgs, b.round + 1)
    ensures Recent(a.doneMsgs, a.round + 1) == Recent(b.doneMsgs, b.round + 1)
  {
    RecentSteps(a.syncMsgs, b.syncMsgs, m, a.round);
    RecentSteps(a.chkptMsgs, b.chkptMsgs, m, a.round);
    RecentSteps(a.timeoutMsgs, b.timeoutMsgs, m, a.round);
    RecentSteps(a.logMsgs, b.logMsgs, m, a.round);
    RecentSteps(a.historyMsgs, b.historyMsgs, m, a.round);
    RecentSteps(a.prepareMsgs, b.prepareMsgs, m, a.round);
    RecentSteps(a.commitMsgs, b.commitMsgs, m, a.round);
    RecentSteps(a.doneMsgs, b.doneMsgs, m, a.round);
  }

  ghost predicate StepsAlike(a: Step, b: Step) {
    Alike(a.st, b.st) && a.out == b.out
  }

  // One lemma per handler that reads stored messages: equal recent votes, equal guard.

  lemma SyncAlike(cfg: Config, a: ReplicaState, b: ReplicaState, m: Message)
    requires Alike(a, b)
    ensures StepsAlike(Checkpointing.OnReceiveSync(cfg, a, m), Checkpointing.OnReceiveSync(cfg, b, m))
  {
    RecentSteps(a.syncMsgs, b.syncMsgs, m, a.round);
    if a.kvSize > 0 {
      if m.Sync? {
        VotesAlike(a.syncMsgs + {m}, b.syncMsgs + {m}, a.round, 0, a.kvSize - 1, 0, Storage.TopHashOf(a.store));
      } else {
        VotesAlike(a.syncMsgs, b.syncMsgs, a.round, 0, a.kvSize - 1, 0, Storage.TopHashOf(a.store));
      }
    }
  }

  lemma CheckpointAlike(cfg: Config, a: ReplicaState, b: ReplicaState, m: Message)
    requires Alike(a, b)
    ensures StepsAlike(Alignment.OnReceiveCheckpoint(cfg, a, m), Alignment.OnReceiveCheckpoint(cfg, b, m))
  {
    RecentSteps(a.chkptMsgs, b.chkptMsgs, m, a.round);
    if m.Checkpoint? {
      VotesAlike(a.chkptMsgs + {m}, b.chkptMsgs + {m}, a.round, 0, a.chkptIdx, 0, ZERO_HASH);
    } else {
      VotesAlike(a.chkptMsgs, b.chkptMsgs, a.round, 0, a.chkptIdx, 0, ZERO_HASH);
    }
  }

  lemma ConflictAlike(cfg: Config, a: ReplicaState, b: ReplicaState)
    requires Alike(a, b)
    ensures StepsAlike(RepairEntry.CheckConflict(cfg, a), RepairEntry.CheckConflict(cfg, b))
  {
    if a.kvSize > 0 {
      VotesAlike(a.syncMsgs, b.syncMsgs, a.round, 0, a.kvSize - 1, 0, Storage.TopHashOf(a.store));
    }
  }

  lemma TimeoutAlike(cfg: Config, a: ReplicaState, b: ReplicaState, m: Message)
    requires Alike(a, b)
    ensures StepsAlike(RepairEntry.OnReceiveTimeout(cfg, a, m), RepairEntry.OnReceiveTimeout(cfg, b, m))
  {
    RecentSteps(a.timeoutMsgs, b.timeoutMsgs, m, a.round);
    if a.kvSize > 0 {
      if m.TimeoutMsg? {
        VotesAlike(a.timeoutMsgs + {m}, b.timeoutMsgs + {m}, a.round, 0, a.kvSize - 1, 0, ZERO_HASH);
      } else {
        VotesAlike(a.timeoutMsgs, b.timeoutMsgs, a.round, 0, a.kvSize - 1, 0, ZERO_HASH);
      }
    }
  }

  lemma LogAlike(cfg: Config, a: ReplicaState, b: ReplicaState, m: Message)
    requires Alike(a, b)
    ensures StepsAlike(Repair.OnReceiveLogMsg(cfg, a, m), Repair.OnReceiveLogMsg(cfg, b, m))
  {
    RecentSteps(a.logMsgs, b.logMsgs, m, a.round);
    if m.LogMsg? {
      VotesAlike(a.logMsgs + {m}, b.logMsgs + {m}, a.round, a.view, 0, 0, ZERO_HASH);
    } else {
      VotesAlike(a.logMsgs, b.logMsgs, a.round, a.view, 0, 0, ZERO_HASH);
    }
  }

  lemma HistoryAlike(a: ReplicaState, b: ReplicaState, m: Message, pick: nat)
    requires Alike(a, b)
    ensures StepsAlike(Repair.OnReceiveHistory(a, m, pick), Repair.OnReceiveHistory(b, m, pick))
  {
    RecentSteps(a.historyMsgs, b.historyMsgs, m, a.round);
    if m.RepairHistory? {
      VotesAlike(a.historyMsgs + {m}, b.historyMsgs + {m}, a.round, a.view, 0, 0, ZERO_HASH);
    } else {
      VotesAlike(a.historyMsgs, b.historyMsgs, a.round, a.view, 0, 0, ZERO_HASH);
    }
  }

  lemma PrepareAlike(cfg: Config, a: ReplicaState, b: ReplicaState, m: Message)
    requires Alike(a, b)
    ensures StepsAlike(Repair.OnReceivePrepare(cfg, a, m), Repair.OnReceivePrepare(cfg, b, m))
  {
    RecentSteps(a.prepareMsgs, b.prepareMsgs, m, a.round);
    if m.RepairPrepare? {
      VotesAlike(a.prepareMsgs + {m}, b.prepareMsgs + {m}, a.round, a.view, 0, a.proposed, ZERO_HASH);
    } else {
      VotesAlike(a.prepareMsgs, b.prepareMsgs, a.round, a.view, 0, a.proposed, ZERO_HASH);
    }
  }

  lemma CommitAlike(cfg: Config, a: ReplicaState, b: ReplicaState, m: Message)
    requires Alike(a, b)
    ensures StepsAlike(Repair.OnReceiveCommit(cfg, a, m), Repair.OnReceiveCommit(cfg, b, m))
  {
    RecentSteps(a.commitMsgs, b.commitMsgs, m, a.round);
    AlikeLater(a, b, m);
    if m.RepairCommit? {
      VotesAlike(a.commitMsgs + {m}, b.commitMsgs + {m}, a.round, a.view, 0, a.proposed, ZERO_HASH);
    } else {
      VotesAlike(a.commitMsgs, b.commitMsgs, a.round, a.view, 0, a.proposed, ZERO_HASH);
    }
  }

  lemma DoneAlike(cfg: Config, a: ReplicaState, b: ReplicaState, m: Message)
    requires Alike(a, b)
    ensures StepsAlike(Repair.OnReceiveDone(cfg, a, m), Repair.OnReceiveDone(cfg, b, m))
  {
    RecentSteps(a.doneMsgs, b.doneMsgs, m, a.round);
    AlikeLater(a, b, m);
    if m.RepairDone? {
      VotesAlike(a.doneMsgs + {m}, b.doneMsgs + {m}, a.round, a.view, 0, 0, ZERO_HASH);
    } else {
      VotesAlike(a.doneMsgs, b.doneMsgs, a.round, a.view, 0, 0, ZERO_HASH);
    }
    VotesAlike(a.historyMsgs, b.historyMsgs, a.round, a.view, 0, 0, ZERO_HASH);
  }

  /** Handlers that consult no stored message. */
  lemma FastCallAlike(cfg: Config, a: ReplicaState, b: ReplicaState, call: Call)
    requires Alike(a, b)
    requires call.Speculating? || call.SyncThreshold? || call.EnteringRepair? || call.AnsweringRequest? ||
             call.AdoptingState? || call.SyncEvent? || call.ChkptEvent? || call.ViewEvent?
    ensures StepsAlike(Run(cfg, a, call), Run(cfg, b, call))
  {
  }

  lemma CallAlike(cfg: Config, a: ReplicaState, b: ReplicaState, call: Call)
    requires Alike(a, b)
    ensures StepsAlike(Run(cfg, a, call), Run(cfg, b, call))
  {
    match call {
      case ReceivingSync(m) => SyncAlike(cfg, a, b, m);
      case ReceivingCheckpoint(m) => CheckpointAlike(cfg, a, b, m);
      case CheckingConflict => ConflictAlike(cfg, a, b);
      case ReceivingTimeout(m) => TimeoutAlike(cfg, a, b, m);
      case ReceivingLog(m) => LogAlike(cfg, a, b, m);
      case ReceivingHistory(m, pick) => HistoryAlike(a, b, m, pick);
      case ReceivingPrepare(m) => PrepareAlike(cfg, a, b, m);
      case ReceivingCommit(m) => CommitAlike(cfg, a, b, m);
      case ReceivingDone(m) => DoneAlike(cfg, a, b, m);
      case _ => FastCallAlike(cfg, a, b, call);
    }
  }

  lemma {:induction false} RunAllAlike(cfg: Config, s: Trail, t: Trail, calls: seq<Call>)
    requires Alike(s.st, t.st) && s.out == t.out
    ensures Alike(RunAll(cfg, s, calls).st, RunAll(cfg, t, calls).st)
    ensures RunAll(cfg, s, calls).out == RunAll(cfg, t, calls).out
  {
    if calls != [] {
      var front, last := calls[..|calls| - 1], calls[|calls| - 1];
      RunAllAlike(cfg, s, t, front);
      CallAlike(cfg, RunAll(cfg, s, front).st, RunAll(cfg, t, front).st, last);
    }
  }

  /** The replica that discards all stale messages after every input. */
  ghost function HandleAllTrimming(cfg: Config, t: Trail, inputs: seq<Input>): Trail {
    if inputs == [] then t.(st := Trim(t.st))
    else
      var after := Handle(cfg, HandleAllTrimming(cfg, t, inputs[..|inputs| - 1]), inputs[|inputs| - 1]);
      after.(st := Trim(after.st))
  }

  lemma TrimAlike(st: ReplicaState)
    ensures Alike(Trim(st), st)
  {
    assert Recent(Recent(st.syncMsgs, st.round), st.round) == Recent(st.syncMsgs, st.round);
    assert Recent(Recent(st.chkptMsgs, st.round), st.round) == Recent(st.chkptMsgs, st.round);
    assert Recent(Recent(st.timeoutMsgs, st.round), st.round) == Recent(st.timeoutMsgs, st.round);
    assert Recent(Recent(st.logMsgs, st.round), st.round) == Recent(st.logMsgs, st.round);
    assert Recent(Recent(st.historyMsgs, st.round), st.round) == Recent(st.historyMsgs, st.round);
    assert Recent(Recent(st.prepareMsgs, st.round), st.round) == Recent(st.prepareMsgs, st.round);
    assert Recent(Recent(st.commitMsgs, st.round), st.round) == Recent(st.commitMsgs, st.round);
    assert Recent(Recent(st.doneMsgs, st.round), st.round) == Recent(st.doneMsgs, st.round);
  }

  lemma AlikeTrimsEqual(a: ReplicaState, b: ReplicaState)
    requires Alike(a, b)
    ensures Trim(a) == Trim(b)
  {
  }

  /** From any state and over any inputs, with the same history choices, the discarding
      replica emits exactly the same effects and ends in exactly the trimmed state. */
  lemma {:induction false} StaleMessagesNeverMatter(cfg: Config, t: Trail, inputs: seq<Input>)
    ensures HandleAllTrimming(cfg, t, inputs).out == HandleAll(cfg, t, inputs).out
    ensures HandleAllTrimming(cfg, t, inputs).st == Trim(HandleAll(cfg, t, inputs).st)
  {
    if inputs != [] {
      var front, last := inputs[..|inputs| - 1], inputs[|inputs| - 1];
      StaleMessagesNeverMatter(cfg, t, front);
      TrimAlike(HandleAll(cfg, t, front).st);
      RunAllAlike(cfg, HandleAllTrimming(cfg, t, front), HandleAll(cfg, t, front), Program(last));
      AlikeTrimsEqual(Handle(cfg, HandleAllTrimming(cfg, t, front), last).st, HandleAll(cfg, t, inputs).st);
    }
  }
}
