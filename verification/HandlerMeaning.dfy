/** What each handler does to a replica and what it sends, said in fields, keys and bytes. */
module HandlerMeaning {
  import opened Types
  import opened Dispatch
  import opened GuardMeaning
  import Alignment
  import Checkpointing
  import FastPath
  import RepairEntry
  import Repair
  import Storage

  /** A message set after a message of its kind, or of another one, was delivered. */
  function With(ms: set<Message>, m: Message, kind: bool): set<Message> {
    if kind then ms + {m} else ms
  }

  /** All 32 bytes are the low eight bits of `k`. */
  ghost predicate AllBytes(h: Hash, k: nat) {
    forall i :: 0 <= i < 32 ==> h[i] as int == k % 256
  }

  /** The store holds placeholders at exactly the indices below `n`. */
  ghost predicate Placeholders(store: map<nat, KvEntry>, n: nat) {
    && (forall k: nat :: k in store <==> k < n)
    && forall k: nat :: k < n ==> store[k].opHash == k && store[k].result == [] && AllBytes(store[k].prevHash, k)
  }

  lemma SyntheticIs(n: nat)
    ensures Placeholders(Storage.SyntheticStore(n), n)
  {
  }

  /** The top of such a store. */
  lemma PlaceholderTop(store: map<nat, KvEntry>, n: nat, top: Hash)
    requires Placeholders(store, n) && n > 0 && IsTop(store, top)
    ensures AllBytes(top, n - 1)
  {
    assert n - 1 in store;
    var k :| k in store && (forall j :: j in store ==> j <= k) && top == store[k].prevHash;
    assert k == n - 1;
  }

  /** The hash that links an entry at `idx` to the one before. */
  ghost predicate IsLink(cfg: Config, store: map<nat, KvEntry>, idx: nat, prev: Hash) {
    if idx > 0 && idx - 1 in store then prev == cfg.entryHash(store[idx - 1]) else AllBytes(prev, 0)
  }

  lemma LinkIs(cfg: Config, store: map<nat, KvEntry>, idx: nat, prev: Hash)
    requires IsLink(cfg, store, idx, prev)
    ensures prev == FastPath.PrevHash(cfg, store, idx)
  {
    if !(idx > 0 && idx - 1 in store) {
      assert prev == ZERO_HASH;
    }
  }

  // Fast path and SYNC.

  lemma SpeculateMeans(cfg: Config, st: ReplicaState, m: Message, prev: Hash)
    requires IsLink(cfg, st.store, st.kvSize, prev)
    ensures var entry := KvEntry(st.kvSize, [], prev);
            Run(cfg, st, Speculating(m))
            == if m.Speculate? && st.phase.Speculative?
               then Step(st.(store := st.store[st.kvSize := entry], kvSize := st.kvSize + 1),
                         [Broadcast(SpecReply(st.nodeId, st.round, st.kvSize, cfg.entryHash(entry)))])
               else Step(st, [])
  {
    LinkIs(cfg, st.store, st.kvSize, prev);
  }

  /** The SYNC a replica sends for its top entry. */
  function TopSync(st: ReplicaState, top: Hash): seq<Effect>
    requires st.kvSize > 0
  {
    [Broadcast(Sync(st.nodeId, st.round, st.kvSize - 1, top, st.etaStar))]
  }

  /** After every message: a SYNC for the top entry if the log is longer than the checkpoint
      index. */
  lemma ThresholdMeans(cfg: Config, st: ReplicaState, top: Hash)
    requires IsTop(st.store, top)
    ensures Run(cfg, st, SyncThreshold)
            == Step(st, if st.phase.Speculative? && st.kvSize > 0 && st.kvSize > st.chkptIdx
                        then TopSync(st, top) else [])
  {
    TopIs(st.store, top);
  }

  // Checkpoints and alignment.

  /** A formed checkpoint is announced and recorded. */
  lemma SyncMeans(cfg: Config, st: ReplicaState, m: Message, top: Hash)
    requires IsTop(st.store, top)
    ensures var got := With(st.syncMsgs, m, m.Sync?);
            Run(cfg, st, ReceivingSync(m))
            == if st.phase.Speculative? && st.kvSize > 0 &&
                  AtLeast(cfg.n - cfg.p, got, SameSyncOf(st.round, st.kvSize - 1, top))
               then Step(st.(syncMsgs := got, chkptIdx := st.kvSize - 1, chkptHash := top),
                         [Broadcast(Checkpoint(st.nodeId, st.round, st.kvSize - 1, top))])
               else Step(st.(syncMsgs := got), [])
  {
    var s := st.(syncMsgs := With(st.syncMsgs, m, m.Sync?));
    CheckpointGuardMeans(cfg, s, top);
    TopIs(st.store, top);
  }

  lemma CheckpointMeans(cfg: Config, st: ReplicaState, m: Message)
    ensures var got := With(st.chkptMsgs, m, m.Checkpoint?);
            Run(cfg, st, ReceivingCheckpoint(m))
            == if st.phase.Speculative? && AtLeast(cfg.f + 1, got, CheckpointOf(st.round, st.chkptIdx))
               then Step(st.(chkptMsgs := got, phase := Aligning), [Broadcast(StateRequest(st.nodeId, st.chkptIdx))])
               else Step(st.(chkptMsgs := got), [])
  {
    AlignGuardMeans(cfg, st.(chkptMsgs := With(st.chkptMsgs, m, m.Checkpoint?)));
  }

  lemma RequestMeans(cfg: Config, st: ReplicaState, m: Message)
    ensures Run(cfg, st, AnsweringRequest(m))
            == Step(st, if m.StateRequest?
                        then [Send(m.from, StateReply(st.nodeId, st.chkptIdx, st.chkptHash))] else [])
  {
  }

  /** An aligning replica adopts any STATE-REPLY's index, with placeholders up to it. */
  lemma AdoptMeans(cfg: Config, st: ReplicaState, m: Message)
    ensures var s := Run(cfg, st, AdoptingState(m));
            if st.phase.Aligning? && m.StateReply?
            then && Placeholders(s.st.store, m.chkptIdx + 1)
                 && s == Step(st.(phase := Speculative, store := s.st.store, kvSize := m.chkptIdx + 1,
                                  startIdx := m.chkptIdx, chkptIdx := m.chkptIdx,
                                  chkptHash := cfg.entryHash(s.st.store[m.chkptIdx])), [])
            else s == Step(st, [])
  {
  }

  // Entering REPAIR.

  /** The LOG a replica sends for its store. */
  function Log(st: ReplicaState, top: Hash): Effect {
    Broadcast(LogMsg(st.nodeId, st.view, st.round, top))
  }

  lemma ConflictMeans(cfg: Config, st: ReplicaState, top: Hash)
    requires IsTop(st.store, top)
    ensures Run(cfg, st, CheckingConflict)
            == if st.phase.Speculative? && !st.inRepair && st.kvSize > 0 &&
                  AtLeast(cfg.n - cfg.f, st.syncMsgs, SyncOf(st.round, st.kvSize - 1)) &&
                  !AtLeast(cfg.n - cfg.p, st.syncMsgs, SameSyncOf(st.round, st.kvSize - 1, top))
               then Step(st.(phase := CollectingLogs, inRepair := true),
                         [Broadcast(ConflictProof(st.round, st.kvSize - 1)), Log(st, top)])
               else Step(st, [])
  {
    TopIs(st.store, top);
    ConflictGuardMeans(cfg, st, top);
    if st.kvSize > 0 {
      assert [Broadcast(ConflictProof(st.round, st.kvSize - 1))] + [Log(st, top)]
          == [Broadcast(ConflictProof(st.round, st.kvSize - 1)), Log(st, top)];
    }
  }

  lemma TimeoutMeans(cfg: Config, st: ReplicaState, m: Message, top: Hash)
    requires IsTop(st.store, top)
    ensures var got := With(st.timeoutMsgs, m, m.TimeoutMsg?);
            Run(cfg, st, ReceivingTimeout(m))
            == if st.phase.Speculative? && !st.inRepair && st.kvSize > 0 &&
                  AtLeast(cfg.f + 1, got, TimeoutOf(st.round, st.kvSize - 1))
               then Step(st.(timeoutMsgs := got, phase := CollectingLogs, inRepair := true),
                         [Broadcast(TimeoutProof(st.round, st.kvSize - 1)), Log(st, top)])
               else Step(st.(timeoutMsgs := got), [])
  {
    TopIs(st.store, top);
    TimeoutGuardMeans(cfg, st.(timeoutMsgs := With(st.timeoutMsgs, m, m.TimeoutMsg?)));
    if st.kvSize > 0 {
      assert [Broadcast(TimeoutProof(st.round, st.kvSize - 1))] + [Log(st, top)]
          == [Broadcast(TimeoutProof(st.round, st.kvSize - 1)), Log(st, top)];
    }
  }

  /** Either kind of proof, for any round and index, makes a replica outside REPAIR enter. */
  lemma EnterMeans(cfg: Config, st: ReplicaState, m: Message, top: Hash)
    requires IsTop(st.store, top)
    ensures Run(cfg, st, EnteringRepair(m))
            == if !st.inRepair && (m.TimeoutProof? || m.ConflictProof?)
               then Step(st.(phase := CollectingLogs, inRepair := true), [Log(st, top)])
               else Step(st, [])
  {
    TopIs(st.store, top);
    assert [] + [Log(st, top)] == [Log(st, top)];
  }

  // REPAIR agreement.

  lemma LogMeans(cfg: Config, st: ReplicaState, m: Message, senders: set<NodeId>)
    requires AreLogSenders(With(st.logMsgs, m, m.LogMsg?), st.view, st.round, senders)
    ensures var s := st.(logMsgs := With(st.logMsgs, m, m.LogMsg?));
            Run(cfg, st, ReceivingLog(m))
            == if st.phase.CollectingLogs? && Leads(cfg, st.nodeId, st.view) && |senders| >= cfg.n - cfg.f
               then Step(s.(phase := PreparePhase, proposed := |senders|),
                         [Broadcast(RepairHistory(st.nodeId, st.view, st.round, |senders|))])
               else Step(s, [])
  {
    HistoryGuardMeans(cfg, st.(logMsgs := With(st.logMsgs, m, m.LogMsg?)), senders);
  }

  lemma HistoryMeans(cfg: Config, st: ReplicaState, m: Message, pick: nat)
    ensures var s := st.(historyMsgs := With(st.historyMsgs, m, m.RepairHistory?));
            var r := Run(cfg, st, ReceivingHistory(m, pick));
            if (st.phase.CollectingLogs? || st.phase.PreparePhase?) &&
               exists q, h :: RepairHistory(q, st.view, st.round, h) in s.historyMsgs
            then exists q, h :: && RepairHistory(q, st.view, st.round, h) in s.historyMsgs
                                && r == Step(s.(phase := PreparePhase, proposed := h),
                                             [Broadcast(RepairPrepare(st.nodeId, st.view, st.round, h))])
            else r == Step(s, [])
  {
    var s := st.(historyMsgs := With(st.historyMsgs, m, m.RepairHistory?));
    HistoriesMean(s.historyMsgs, st.view, st.round);
    if q, h :| RepairHistory(q, st.view, st.round, h) in s.historyMsgs {
      assert h in HistoryHashes(s.historyMsgs, st.view, st.round);
    }
  }

  lemma PrepareMeans(cfg: Config, st: ReplicaState, m: Message)
    ensures var s := st.(prepareMsgs := With(st.prepareMsgs, m, m.RepairPrepare?));
            Run(cfg, st, ReceivingPrepare(m))
            == if st.phase.PreparePhase? &&
                  AtLeast(cfg.n - cfg.f, s.prepareMsgs, PrepareOf(st.view, st.round, st.proposed))
               then Step(s.(phase := CommitPhase),
                         [Broadcast(RepairCommit(st.nodeId, st.view, st.round, st.proposed))])
               else Step(s, [])
  {
    CommitGuardMeans(cfg, st.(prepareMsgs := With(st.prepareMsgs, m, m.RepairPrepare?)));
  }

  /** Applying history `h`: for `h > 0` the store then holds placeholders at exactly the
      indices below `h`; for 0 it is left as it was. */
  lemma CommitMeans(cfg: Config, st: ReplicaState, m: Message)
    ensures var s := st.(commitMsgs := With(st.commitMsgs, m, m.RepairCommit?));
            var h, r := st.proposed, Run(cfg, st, ReceivingCommit(m));
            if st.phase.CommitPhase? && AtLeast(cfg.n - cfg.f, s.commitMsgs, CommitOf(st.view, st.round, h))
            then && (if h > 0 then Placeholders(r.st.store, h) else r.st.store == st.store)
                 && r == Step(s.(store := r.st.store, phase := Speculative, round := st.round + 1, startIdx := h,
                                 kvSize := h, inRepair := false, proposed := 0),
                              [Broadcast(RepairDone(st.nodeId, st.view, st.round, h)),
                               Broadcast(CommittedReply(st.nodeId, st.round, st.kvSize))])
            else r == Step(s, [])
  {
    ApplyGuardMeans(cfg, st.(commitMsgs := With(st.commitMsgs, m, m.RepairCommit?)));
  }

  /** Catching up leaves the log alone and sends nothing. */
  lemma DoneMeans(cfg: Config, st: ReplicaState, m: Message)
    ensures var s := st.(doneMsgs := With(st.doneMsgs, m, m.RepairDone?));
            Run(cfg, st, ReceivingDone(m))
            == if (st.phase.CollectingLogs? || st.phase.PreparePhase? || st.phase.CommitPhase?) &&
                  AtLeast(cfg.f + 1, s.doneMsgs, DoneOf(st.view, st.round)) &&
                  exists q, h :: RepairHistory(q, st.view, st.round, h) in st.historyMsgs
               then Step(s.(phase := Speculative, round := st.round + 1, startIdx := st.kvSize, inRepair := false,
                            proposed := 0), [])
               else Step(s, [])
  {
    CatchUpGuardMeans(cfg, st.(doneMsgs := With(st.doneMsgs, m, m.RepairDone?)));
  }
}
