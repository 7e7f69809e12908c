/** What the guards of the protocol wait for, said in the messages themselves: how many
    different senders (or sender and field) have a message of a given form among those stored. */
module GuardMeaning {
  import opened Types
  import opened Counting
  import Alignment
  import Checkpointing
  import RepairEntry
  import Repair
  import Storage

  ghost predicate AllIn<T(!new)>(ts: set<T>, ms: set<Message>, of: T -> Message) {
    forall t :: t in ts ==> of(t) in ms
  }

  /** At least `k` instances of the form `of` are among `ms`. */
  ghost predicate AtLeast<T(!new)>(k: int, ms: set<Message>, of: T -> Message) {
    exists ts: set<T> :: AllIn(ts, ms, of) && |ts| >= k
  }

  /** The instances that some messages have. */
  lemma {:induction false} Instances<T(!new)>(votes: set<Message>, of: T -> Message) returns (ts: set<T>)
    requires forall m :: m in votes ==> exists t :: of(t) == m
    ensures |ts| == |votes| && AllIn(ts, votes, of)
    decreases |votes|
  {
    ts := {};
    if votes != {} {
      var m :| m in votes;
      var t :| of(t) == m;
      var rest := Instances(votes - {m}, of);
      ts := rest + {t};
    }
  }

  /** Different instances are different messages. */
  lemma {:induction false} InstanceCount<T(!new)>(ts: set<T>, votes: set<Message>, of: T -> Message)
    requires forall s, t :: of(s) == of(t) ==> s == t
    requires AllIn(ts, votes, of)
    ensures |ts| <= |votes|
    decreases |ts|
  {
    if ts != {} {
      var t :| t in ts;
      InstanceCount(ts - {t}, votes - {of(t)}, of);
    }
  }

  /** If `votes` are exactly the instances of a form among `ms`, counting them is counting
      instances. */
  lemma CountMeans<T(!new)>(ms: set<Message>, votes: set<Message>, of: T -> Message, k: int)
    requires votes <= ms
    requires forall m :: m in votes ==> exists t :: of(t) == m
    requires forall t :: of(t) in ms ==> of(t) in votes
    requires forall s, t :: of(s) == of(t) ==> s == t
    ensures |votes| >= k <==> AtLeast(k, ms, of)
  {
    if |votes| >= k {
      var ts := Instances(votes, of);
    }
    if AtLeast(k, ms, of) {
      var ts: set<T> :| AllIn(ts, ms, of) && |ts| >= k;
      InstanceCount(ts, votes, of);
    }
  }

  // The forms.

  function PrepareOf(view: nat, round: nat, hash: nat): NodeId -> Message {
    x => RepairPrepare(x, view, round, hash)
  }

  function CommitOf(view: nat, round: nat, hash: nat): NodeId -> Message {
    x => RepairCommit(x, view, round, hash)
  }

  function TimeoutOf(round: nat, idx: nat): NodeId -> Message {
    x => TimeoutMsg(x, round, idx)
  }

  function DoneOf(view: nat, round: nat): ((NodeId, nat)) -> Message {
    (p: (NodeId, nat)) => RepairDone(p.0, view, round, p.1)
  }

  function CheckpointOf(round: nat, idx: nat): ((NodeId, Hash)) -> Message {
    (p: (NodeId, Hash)) => Checkpoint(p.0, round, idx, p.1)
  }

  function SyncOf(round: nat, idx: nat): ((NodeId, Hash, nat)) -> Message {
    (p: (NodeId, Hash, nat)) => Sync(p.0, round, idx, p.1, p.2)
  }

  function SameSyncOf(round: nat, idx: nat, hash: Hash): ((NodeId, nat)) -> Message {
    (p: (NodeId, nat)) => Sync(p.0, round, idx, hash, p.1)
  }

  // What the vote sets count.

  lemma PreparesMean(ms: set<Message>, view: nat, round: nat, hash: nat, k: int)
    ensures |PrepareVotes(ms, view, round, hash)| >= k <==> AtLeast(k, ms, PrepareOf(view, round, hash))
  {
    var votes, of := PrepareVotes(ms, view, round, hash), PrepareOf(view, round, hash);
    forall m | m in votes ensures exists t :: of(t) == m {
      assert of(m.from) == m;
    }
    CountMeans(ms, votes, of, k);
  }

  lemma CommitsMean(ms: set<Message>, view: nat, round: nat, hash: nat, k: int)
    ensures |CommitVotes(ms, view, round, hash)| >= k <==> AtLeast(k, ms, CommitOf(view, round, hash))
  {
    var votes, of := CommitVotes(ms, view, round, hash), CommitOf(view, round, hash);
    forall m | m in votes ensures exists t :: of(t) == m {
      assert of(m.from) == m;
    }
    CountMeans(ms, votes, of, k);
  }

  lemma TimeoutsMean(ms: set<Message>, round: nat, idx: nat, k: int)
    ensures |TimeoutVotes(ms, round, idx)| >= k <==> AtLeast(k, ms, TimeoutOf(round, idx))
  {
    var votes, of := TimeoutVotes(ms, round, idx), TimeoutOf(round, idx);
    forall m | m in votes ensures exists t :: of(t) == m {
      assert of(m.from) == m;
    }
    CountMeans(ms, votes, of, k);
  }

  lemma DonesMean(ms: set<Message>, view: nat, round: nat, k: int)
    ensures |DoneVotes(ms, view, round)| >= k <==> AtLeast(k, ms, DoneOf(view, round))
  {
    var votes, of := DoneVotes(ms, view, round), DoneOf(view, round);
    forall m | m in votes ensures exists t :: of(t) == m {
      assert of((m.from, m.historyHash)) == m;
    }
    CountMeans(ms, votes, of, k);
  }

  lemma CheckpointsMean(ms: set<Message>, round: nat, idx: nat, k: int)
    ensures |CheckpointVotes(ms, round, idx)| >= k <==> AtLeast(k, ms, CheckpointOf(round, idx))
  {
    var votes, of := CheckpointVotes(ms, round, idx), CheckpointOf(round, idx);
    forall m | m in votes ensures exists t :: of(t) == m {
      assert of((m.from, m.logHash)) == m;
    }
    CountMeans(ms, votes, of, k);
  }

  lemma SyncsMean(ms: set<Message>, round: nat, idx: nat, k: int)
    ensures |SyncVotes(ms, round, idx)| >= k <==> AtLeast(k, ms, SyncOf(round, idx))
  {
    var votes, of := SyncVotes(ms, round, idx), SyncOf(round, idx);
    forall m | m in votes ensures exists t :: of(t) == m {
      assert of((m.from, m.logHash, m.etaStar)) == m;
    }
    CountMeans(ms, votes, of, k);
  }

  lemma SameSyncsMean(ms: set<Message>, round: nat, idx: nat, hash: Hash, k: int)
    ensures |MatchingSyncs(ms, round, idx, hash)| >= k <==> AtLeast(k, ms, SameSyncOf(round, idx, hash))
  {
    var votes, of := MatchingSyncs(ms, round, idx, hash), SameSyncOf(round, idx, hash);
    forall m | m in votes ensures exists t :: of(t) == m {
      assert of((m.from, m.etaStar)) == m;
    }
    CountMeans(ms, votes, of, k);
  }

  // Senders, in fields.

  /** Who sent a LOG for the (view, round). */
  lemma LogSendersMean(ms: set<Message>, view: nat, round: nat)
    ensures forall q :: q in Senders(LogVotes(ms, view, round)) <==> exists h :: LogMsg(q, view, round, h) in ms
  {
    forall q, h | LogMsg(q, view, round, h) in ms ensures q in Senders(LogVotes(ms, view, round)) {
      assert LogMsg(q, view, round, h) in LogVotes(ms, view, round);
    }
    forall q | q in Senders(LogVotes(ms, view, round)) ensures exists h :: LogMsg(q, view, round, h) in ms {
      var m :| m in LogVotes(ms, view, round) && m.from == q;
      assert m == LogMsg(q, view, round, m.logHash);
    }
  }

  /** Who sent a SYNC for the (round, index), and who one with the hash. */
  lemma SyncSendersMean(ms: set<Message>, round: nat, idx: nat, hash: Hash)
    ensures forall q :: q in Senders(SyncVotes(ms, round, idx)) <==> exists h, e :: Sync(q, round, idx, h, e) in ms
    ensures forall q :: q in Senders(MatchingSyncs(ms, round, idx, hash)) <==>
                          exists e :: Sync(q, round, idx, hash, e) in ms
  {
    forall q, h, e | Sync(q, round, idx, h, e) in ms
      ensures q in Senders(SyncVotes(ms, round, idx))
      ensures h == hash ==> q in Senders(MatchingSyncs(ms, round, idx, hash))
    {
      assert Sync(q, round, idx, h, e) in SyncVotes(ms, round, idx);
      assert h == hash ==> Sync(q, round, idx, h, e) in MatchingSyncs(ms, round, idx, hash);
    }
    forall q | q in Senders(SyncVotes(ms, round, idx)) ensures exists h, e :: Sync(q, round, idx, h, e) in ms {
      var m :| m in SyncVotes(ms, round, idx) && m.from == q;
      assert m == Sync(q, round, idx, m.logHash, m.etaStar);
    }
    forall q | q in Senders(MatchingSyncs(ms, round, idx, hash))
      ensures exists e :: Sync(q, round, idx, hash, e) in ms
    {
      var m :| m in MatchingSyncs(ms, round, idx, hash) && m.from == q;
      assert m == Sync(q, round, idx, hash, m.etaStar);
    }
  }

  /** Which histories were proposed in the (view, round), and whether any was. */
  lemma HistoriesMean(ms: set<Message>, view: nat, round: nat)
    ensures forall h :: h in HistoryHashes(ms, view, round) <==> exists q :: RepairHistory(q, view, round, h) in ms
    ensures Histories(ms, view, round) != {} <==> exists q, h :: RepairHistory(q, view, round, h) in ms
  {
    forall q, h | RepairHistory(q, view, round, h) in ms
      ensures h in HistoryHashes(ms, view, round) && Histories(ms, view, round) != {}
    {
      assert RepairHistory(q, view, round, h) in Histories(ms, view, round);
    }
    forall h | h in HistoryHashes(ms, view, round) ensures exists q :: RepairHistory(q, view, round, h) in ms {
      var m :| m in ms && m.RepairHistory? && m.view == view && m.round == round && m.historyHash == h;
      assert m == RepairHistory(m.from, view, round, h);
    }
    if Histories(ms, view, round) != {} {
      var m :| m in Histories(ms, view, round);
      assert m == RepairHistory(m.from, view, round, m.historyHash);
    }
  }

  // Guards.

  /** `top` is the `prevHash` of the entry at the greatest index, or 32 zero bytes. */
  ghost predicate IsTop(store: map<nat, KvEntry>, top: Hash) {
    if store == map[] then forall i :: 0 <= i < 32 ==> top[i] == 0
    else exists k :: k in store && (forall j :: j in store ==> j <= k) && top == store[k].prevHash
  }

  lemma TopIs(store: map<nat, KvEntry>, top: Hash)
    ensures IsTop(store, top) <==> top == Storage.TopHashOf(store)
  {
    if store != map[] {
      assert Storage.MaxKey(store.Keys) in store;
    } else if forall i :: 0 <= i < 32 ==> top[i] == 0 {
      assert top == ZERO_HASH;
    }
  }

  lemma CheckpointGuardMeans(cfg: Config, st: ReplicaState, top: Hash)
    requires IsTop(st.store, top)
    ensures Checkpointing.CanFormCheckpoint(cfg, st)
            == if st.phase.Speculative? && st.kvSize > 0 &&
                  AtLeast(cfg.n - cfg.p, st.syncMsgs, SameSyncOf(st.round, st.kvSize - 1, top))
               then Some(st.kvSize - 1) else None
  {
    TopIs(st.store, top);
    if st.kvSize > 0 {
      SameSyncsMean(st.syncMsgs, st.round, st.kvSize - 1, top, cfg.n - cfg.p);
    }
  }

  lemma AlignGuardMeans(cfg: Config, st: ReplicaState)
    ensures Alignment.CanEnterAlign(cfg, st)
            == if st.phase.Speculative? && AtLeast(cfg.f + 1, st.chkptMsgs, CheckpointOf(st.round, st.chkptIdx))
               then Some(st.chkptIdx) else None
  {
    CheckpointsMean(st.chkptMsgs, st.round, st.chkptIdx, cfg.f + 1);
  }

  /** The conflict guard: `n - f` SYNCs for the top index of the round, fewer than `n - p` of
      them with the own hash. */
  lemma ConflictGuardMeans(cfg: Config, st: ReplicaState, top: Hash)
    requires IsTop(st.store, top)
    ensures RepairEntry.CanConflictProof(cfg, st)
            == if st.phase.Speculative? && !st.inRepair && st.kvSize > 0 &&
                  AtLeast(cfg.n - cfg.f, st.syncMsgs, SyncOf(st.round, st.kvSize - 1)) &&
                  !AtLeast(cfg.n - cfg.p, st.syncMsgs, SameSyncOf(st.round, st.kvSize - 1, top))
               then Some(st.kvSize - 1) else None
  {
    TopIs(st.store, top);
    if st.kvSize > 0 {
      SyncsMean(st.syncMsgs, st.round, st.kvSize - 1, cfg.n - cfg.f);
      SameSyncsMean(st.syncMsgs, st.round, st.kvSize - 1, top, cfg.n - cfg.p);
    }
  }

  lemma TimeoutGuardMeans(cfg: Config, st: ReplicaState)
    ensures RepairEntry.CanTimeoutProof(cfg, st)
            == if st.phase.Speculative? && !st.inRepair && st.kvSize > 0 &&
                  AtLeast(cfg.f + 1, st.timeoutMsgs, TimeoutOf(st.round, st.kvSize - 1))
               then Some(st.kvSize - 1) else None
  {
    if st.kvSize > 0 {
      TimeoutsMean(st.timeoutMsgs, st.round, st.kvSize - 1, cfg.f + 1);
    }
  }

  /** The nodes with a LOG for the (view, round) among the messages. */
  ghost predicate AreLogSenders(ms: set<Message>, view: nat, round: nat, senders: set<NodeId>) {
    forall q :: q in senders <==> exists h :: LogMsg(q, view, round, h) in ms
  }

  /** View `view` is slot `i` of turn `k`. */
  predicate Turn(n: nat, i: nat, k: nat, view: nat) {
    i < n && view == k * n + i
  }

  /** The leader of a view is the node in the view's slot. */
  ghost predicate Leads(cfg: Config, q: NodeId, view: nat) {
    exists i: nat, k: nat :: Turn(|cfg.nodesOrdered|, i, k, view) && cfg.nodesOrdered[i] == q
  }

  /** Node `i` leads exactly the views `i`, `n + i`, `2n + i` and so on, if names differ. */
  lemma LeaderOfTurn(cfg: Config, i: nat, k: nat, view: nat)
    requires Turn(|cfg.nodesOrdered|, i, k, view)
    ensures forall q :: IsLeader(cfg, q, view) <==> q == cfg.nodesOrdered[i]
  {
    Remainder(|cfg.nodesOrdered|, k, i);
  }

  lemma LeadsMeans(cfg: Config, q: NodeId, view: nat)
    ensures IsLeader(cfg, q, view) <==> Leads(cfg, q, view)
  {
    var n := |cfg.nodesOrdered|;
    if n > 0 {
      assert Turn(n, view % n, view / n, view);
      if i: nat, k: nat :| Turn(n, i, k, view) && cfg.nodesOrdered[i] == q {
        LeaderOfTurn(cfg, i, k, view);
      }
    }
  }

  lemma Remainder(n: nat, k: nat, i: nat)
    requires i < n
    ensures (k * n + i) % n == i
  {
    var slot: int := (k * n + i) % n;
    var turns: int := (k * n + i) / n - k;
    assert n * turns == i - slot;
    MultipleBounds(n, turns);
  }

  /** The history guard: the leader proposes as many entries as there are senders of LOGs for
      its (view, round), once they are `n - f`. */
  lemma HistoryGuardMeans(cfg: Config, st: ReplicaState, senders: set<NodeId>)
    requires AreLogSenders(st.logMsgs, st.view, st.round, senders)
    ensures Repair.CanBroadcastHistory(cfg, st)
            == if st.phase.CollectingLogs? && Leads(cfg, st.nodeId, st.view) && |senders| >= cfg.n - cfg.f
               then Some(|senders|) else None
  {
    LeadsMeans(cfg, st.nodeId, st.view);
    LogSendersMean(st.logMsgs, st.view, st.round);
    assert senders == Senders(LogVotes(st.logMsgs, st.view, st.round));
  }

  lemma CommitGuardMeans(cfg: Config, st: ReplicaState)
    ensures Repair.CanRepairCommit(cfg, st)
            == if st.phase.PreparePhase? &&
                  AtLeast(cfg.n - cfg.f, st.prepareMsgs, PrepareOf(st.view, st.round, st.proposed))
               then Some(st.proposed) else None
  {
    PreparesMean(st.prepareMsgs, st.view, st.round, st.proposed, cfg.n - cfg.f);
  }

  lemma ApplyGuardMeans(cfg: Config, st: ReplicaState)
    ensures Repair.CanApplyRepair(cfg, st)
            == if st.phase.CommitPhase? &&
                  AtLeast(cfg.n - cfg.f, st.commitMsgs, CommitOf(st.view, st.round, st.proposed))
               then Some(st.proposed) else None
  {
    CommitsMean(st.commitMsgs, st.view, st.round, st.proposed, cfg.n - cfg.f);
  }

  lemma CatchUpGuardMeans(cfg: Config, st: ReplicaState)
    ensures Repair.CanCatchUp(cfg, st)
            <==> && (st.phase.CollectingLogs? || st.phase.PreparePhase? || st.phase.CommitPhase?)
                 && AtLeast(cfg.f + 1, st.doneMsgs, DoneOf(st.view, st.round))
                 && exists q, h :: RepairHistory(q, st.view, st.round, h) in st.historyMsgs
  {
    DonesMean(st.doneMsgs, st.view, st.round, cfg.f + 1);
    HistoriesMean(st.historyMsgs, st.view, st.round);
  }

  // The conflict guard looks at the top index of the current round only.

  /** SYNCs for other indices or rounds make no difference to it. */
  lemma ConflictIgnoresOthers(cfg: Config, st: ReplicaState, others: set<Message>)
    requires forall m :: m in others && m.Sync? ==> m.round != st.round || m.logIdx + 1 != st.kvSize
    ensures RepairEntry.CanConflictProof(cfg, st.(syncMsgs := st.syncMsgs + others))
            == RepairEntry.CanConflictProof(cfg, st)
  {
    if st.kvSize > 0 {
      var top := Storage.TopHashOf(st.store);
      assert SyncVotes(st.syncMsgs + others, st.round, st.kvSize - 1)
          == SyncVotes(st.syncMsgs, st.round, st.kvSize - 1);
      assert MatchingSyncs(st.syncMsgs + others, st.round, st.kvSize - 1, top)
          == MatchingSyncs(st.syncMsgs, st.round, st.kvSize - 1, top);
    }
  }

  /** Without a SYNC for the top index there is no conflict. */
  lemma NoTopSyncNoConflict(cfg: Config, st: ReplicaState, idx: nat)
    requires cfg.WellFormed() && st.kvSize == idx + 1
    requires forall q, h, e :: Sync(q, st.round, idx, h, e) !in st.syncMsgs
    ensures RepairEntry.CanConflictProof(cfg, st).None?
  {
    SyncSendersMean(st.syncMsgs, st.round, idx, ZERO_HASH);
    SendersOfNone(SyncVotes(st.syncMsgs, st.round, idx));
  }

  lemma SendersOfNone(ms: set<Message>)
    requires Senders(ms) == {} && forall m :: m in ms ==> m.Authored()
    ensures ms == {}
  {
    assert forall m :: m in ms ==> m.from in Senders(ms);
  }
}
