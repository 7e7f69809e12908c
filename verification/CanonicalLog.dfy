/** The shape of a replica's log in every reachable state, and what one replica's SYNCs say. */
module CanonicalLog {
  import opened Types
  import opened Storage
  import opened Dispatch
  import opened Voting
  import FastPath

  /** The first `size` entries are placeholders below `base` and hash-chained from there on. */
  ghost predicate Canonical(cfg: Config, store: map<nat, KvEntry>, size: nat, base: nat) {
    && base <= size
    && forall k: nat :: k < size ==>
         k in store && store[k] == if k < base then Synthetic(k) else KvEntry(k, [], FastPath.PrevHash(cfg, store, k))
  }

  ghost predicate LogInv(cfg: Config, t: Trail) {
    && Dense(t.st.store)
    && t.st.kvSize <= SizeOf(t.st.store)
    && Canonical(cfg, t.st.store, t.st.kvSize, t.base)
  }

  /** A replica that applied history `h` when leaving the previous round, and has not aligned
      since, builds on exactly `h` placeholder entries. */
  ghost predicate BaseInv(t: Trail) {
    forall m :: m in Emitted(t.out) && m.RepairDone? && m.round + 1 == t.st.round && t.st.round !in t.aligned ==>
                  t.base == m.historyHash
  }

  ghost predicate SyncsCurrent(t: Trail) {
    && t.st.etaStar == 0
    && forall m :: m in Emitted(t.out) && m.Sync? ==>
         && m.round <= t.st.round && m.etaStar == 0
         && (m.round == t.st.round && m.round !in t.aligned ==>
               && m.logIdx < t.st.kvSize
               && (m.logIdx + 1 == t.st.kvSize ==> m.logHash == TopHashOf(t.st.store)))
  }

  /** Outside rounds in which it aligned, a replica never SYNCs one index with two hashes. */
  ghost predicate SyncsSingle(t: Trail) {
    forall a, b :: a in Emitted(t.out) && b in Emitted(t.out) && a.Sync? && b.Sync? &&
                   a.round == b.round && a.logIdx == b.logIdx && a.round !in t.aligned ==>
                     a.logHash == b.logHash
  }

  /** Replies to clients in the current round still describe the log, unless the replica has
      aligned in it. */
  ghost predicate RepliesTruthful(cfg: Config, t: Trail) {
    forall m :: m in Emitted(t.out) && m.SpecReply? ==>
      && m.round <= t.st.round
      && (m.round == t.st.round && m.round !in t.aligned ==>
            && m.logIdx < t.st.kvSize && m.logIdx in t.st.store
            && m.logHash == cfg.entryHash(t.st.store[m.logIdx]))
  }

  /** Handlers that leave round, log and SYNC history alone. */
  predicate Quiet(call: Call) {
    !call.Speculating? && !call.SyncThreshold? && !call.SyncEvent? && !call.AdoptingState? &&
    !call.ReceivingCommit? && !call.ReceivingDone?
  }

  /** Round, log and SYNC state are kept, and nothing is said about them. */
  ghost predicate LeavesLog(st: ReplicaState, s: Step) {
    && s.st.store == st.store && s.st.kvSize == st.kvSize && s.st.round == st.round
    && s.st.etaStar == st.etaStar
    && forall e :: e in s.out ==> !e.message.Sync? && !e.message.RepairDone? && !e.message.SpecReply?
  }

  lemma QuietEntryCalls(cfg: Config, st: ReplicaState, call: Call)
    requires call.ReceivingSync? || call.ReceivingCheckpoint? || call.CheckingConflict? || call.ReceivingTimeout?
    ensures LeavesLog(st, Run(cfg, st, call))
  {
  }

  lemma QuietVoteCalls(cfg: Config, st: ReplicaState, call: Call)
    requires call.ReceivingLog? || call.ReceivingHistory? || call.ReceivingPrepare?
    ensures LeavesLog(st, Run(cfg, st, call))
  {
  }

  lemma QuietCalls(cfg: Config, st: ReplicaState, call: Call)
    requires Quiet(call)
    ensures LeavesLog(st, Run(cfg, st, call))
  {
    match call {
      case ReceivingLog(_) => QuietVoteCalls(cfg, st, call);
      case ReceivingHistory(_, _) => QuietVoteCalls(cfg, st, call);
      case ReceivingPrepare(_) => QuietVoteCalls(cfg, st, call);
      case EnteringRepair(_) =>
      case AnsweringRequest(_) =>
      case ChkptEvent(_) =>
      case ViewEvent(_) =>
      case _ => QuietEntryCalls(cfg, st, call);
    }
  }

  lemma EmittedConcat(a: seq<Effect>, b: seq<Effect>)
    ensures Emitted(a + b) == Emitted(a) + Emitted(b)
  {
  }

  lemma QuietAdvance(cfg: Config, t: Trail, call: Call)
    requires Quiet(call)
    ensures LogInv(cfg, t) ==> LogInv(cfg, Advance(cfg, t, call))
    ensures BaseInv(t) ==> BaseInv(Advance(cfg, t, call))
    ensures SyncsCurrent(t) ==> SyncsCurrent(Advance(cfg, t, call))
    ensures SyncsSingle(t) ==> SyncsSingle(Advance(cfg, t, call))
    ensures RepliesTruthful(cfg, t) ==> RepliesTruthful(cfg, Advance(cfg, t, call))
  {
    QuietCalls(cfg, t.st, call);
    EmittedConcat(t.out, Run(cfg, t.st, call).out);
  }

  /** Writing index `size` extends a canonical log by one chained entry. */
  lemma AppendIsCanonical(cfg: Config, store: map<nat, KvEntry>, size: nat, base: nat)
    requires Canonical(cfg, store, size, base)
    ensures Canonical(cfg, store[size := KvEntry(size, [], FastPath.PrevHash(cfg, store, size))], size + 1, base)
  {
    var after := store[size := KvEntry(size, [], FastPath.PrevHash(cfg, store, size))];
    forall k: nat | k <= size ensures FastPath.PrevHash(cfg, after, k) == FastPath.PrevHash(cfg, store, k) {
      if k > 0 { assert k - 1 in store; }
    }
  }

  lemma SpeculationKeepsLog(cfg: Config, st: ReplicaState, base: nat)
    requires Dense(st.store) && st.kvSize <= SizeOf(st.store) && Canonical(cfg, st.store, st.kvSize, base)
    ensures var s := FastPath.Speculation(cfg, st, st.kvSize).st;
            Dense(s.store) && s.kvSize <= SizeOf(s.store) && Canonical(cfg, s.store, s.kvSize, base)
  {
    AppendIsCanonical(cfg, st.store, st.kvSize, base);
    DensePut(st.store, st.kvSize, KvEntry(st.kvSize, [], FastPath.PrevHash(cfg, st.store, st.kvSize)));
  }

  lemma SyntheticIsCanonical(cfg: Config, n: nat)
    ensures Dense(SyntheticStore(n)) && SizeOf(SyntheticStore(n)) == n
    ensures Canonical(cfg, SyntheticStore(n), n, n)
  {
    SizeIs(SyntheticStore(n), n);
  }

  lemma CommitKeepsLog(cfg: Config, t: Trail, msg: Message)
    requires LogInv(cfg, t)
    ensures LogInv(cfg, Advance(cfg, t, ReceivingCommit(msg)))
  {
    SyntheticIsCanonical(cfg, Run(cfg, t.st, ReceivingCommit(msg)).st.kvSize);
  }

  lemma AdoptionKeepsLog(cfg: Config, t: Trail, msg: Message)
    requires LogInv(cfg, t)
    ensures LogInv(cfg, Advance(cfg, t, AdoptingState(msg)))
  {
    SyntheticIsCanonical(cfg, Run(cfg, t.st, AdoptingState(msg)).st.kvSize);
  }

  lemma AdvanceLog(cfg: Config, t: Trail, call: Call)
    requires LogInv(cfg, t)
    ensures LogInv(cfg, Advance(cfg, t, call))
  {
    match call {
      case Speculating(_) => SpeculationKeepsLog(cfg, t.st, t.base);
      case AdoptingState(m) => AdoptionKeepsLog(cfg, t, m);
      case ReceivingCommit(m) => CommitKeepsLog(cfg, t, m);
      case ReceivingDone(_) =>
      case SyncThreshold =>
      case SyncEvent(_) =>
      case _ => QuietAdvance(cfg, t, call);
    }
  }

  lemma AdvanceBase(cfg: Config, t: Trail, call: Call)
    requires BaseInv(t) && VotingInv(t)
    ensures BaseInv(Advance(cfg, t, call))
  {
    if Quiet(call) {
      QuietAdvance(cfg, t, call);
    } else {
      var s := Run(cfg, t.st, call);
      EmittedConcat(t.out, s.out);
      forall m | m in Emitted(t.out) && m.RepairDone? ensures m.round < t.st.round {
        var e :| e in t.out && e.message == m;
        assert Spent(t.st, BallotOf(e));
      }
    }
  }

  lemma AdvanceSyncsCurrent(cfg: Config, t: Trail, call: Call)
    requires SyncsCurrent(t)
    ensures SyncsCurrent(Advance(cfg, t, call))
  {
    if Quiet(call) {
      QuietAdvance(cfg, t, call);
    } else {
      EmittedConcat(t.out, Run(cfg, t.st, call).out);
    }
  }

  lemma AdvanceSyncsSingle(cfg: Config, t: Trail, call: Call)
    requires SyncsCurrent(t) && SyncsSingle(t)
    ensures SyncsSingle(Advance(cfg, t, call))
  {
    if Quiet(call) {
      QuietAdvance(cfg, t, call);
    } else {
      EmittedConcat(t.out, Run(cfg, t.st, call).out);
    }
  }

  lemma RebuildKeepsReplies(cfg: Config, t: Trail, call: Call)
    requires RepliesTruthful(cfg, t) && (call.AdoptingState? || call.ReceivingCommit? || call.ReceivingDone?)
    ensures RepliesTruthful(cfg, Advance(cfg, t, call))
  {
    EmittedConcat(t.out, Run(cfg, t.st, call).out);
  }

  lemma AdvanceReplies(cfg: Config, t: Trail, call: Call)
    requires RepliesTruthful(cfg, t)
    ensures RepliesTruthful(cfg, Advance(cfg, t, call))
  {
    if Quiet(call) {
      QuietAdvance(cfg, t, call);
    } else if call.AdoptingState? || call.ReceivingCommit? || call.ReceivingDone? {
      RebuildKeepsReplies(cfg, t, call);
    } else {
      EmittedConcat(t.out, Run(cfg, t.st, call).out);
    }
  }

  /** The `unwrap_or` default for the previous entry's hash is never taken. */
  lemma PreviousEntryPresent(cfg: Config, t: Trail, msg: Message)
    requires LogInv(cfg, t)
    ensures match FastPath.CanSpeculate(t.st, msg)
            case Some(idx) => idx > 0 ==> HashAtOf(cfg.entryHash, t.st.store, idx - 1).Some?
            case None => true
  {
  }

  /** Two canonical logs on the same base agree wherever both have an entry. */
  lemma {:induction false} SameBaseSameEntries(cfg: Config, a: map<nat, KvEntry>, m: nat,
                                               b: map<nat, KvEntry>, n: nat, base: nat, k: nat)
    requires Canonical(cfg, a, m, base) && Canonical(cfg, b, n, base)
    requires k < m && k < n
    ensures a[k] == b[k]
  {
    if k > 0 {
      SameBaseSameEntries(cfg, a, m, b, n, base, k - 1);
    }
  }

  // Binding of the hash chain, for arbitrary operations and results.

  /** Entries `0..n` exist and each records the hash of its predecessor, from genesis. */
  ghost predicate Chained(entryHash: KvEntry -> Hash, store: map<nat, KvEntry>, n: nat) {
    && (forall k: nat :: k in store <==> k < n)
    && (n > 0 ==> store[0].prevHash == ZERO_HASH)
    && forall k: nat :: 0 < k < n ==> store[k].prevHash == entryHash(store[k - 1])
  }

  /** Below the top, the stores hold two different entries with one hash at the same index. */
  ghost predicate CollideBelowTop(entryHash: KvEntry -> Hash, a: map<nat, KvEntry>, b: map<nat, KvEntry>, n: nat) {
    exists k: nat :: k + 1 < n && k in a && k in b && a[k] != b[k] && entryHash(a[k]) == entryHash(b[k])
  }

  /** Equal links at one index mean equal entries below it, or a collision of the hash. */
  lemma {:induction false} EqualLinkEqualPrefix(entryHash: KvEntry -> Hash, a: map<nat, KvEntry>,
                                                b: map<nat, KvEntry>, n: nat, top: nat, k: nat)
    requires Chained(entryHash, a, n) && Chained(entryHash, b, n)
    requires k < top < n && a[top].prevHash == b[top].prevHash
    ensures a[k] == b[k] || CollideBelowTop(entryHash, a, b, n)
    decreases top
  {
    if a[top - 1] == b[top - 1] && k < top - 1 {
      EqualLinkEqualPrefix(entryHash, a, b, n, top - 1, k);
    }
  }

  /** A log that was never rebuilt and has no stale entries is chained from genesis. */
  lemma FastPathChains(cfg: Config, t: Trail)
    requires LogInv(cfg, t) && t.base == 0 && t.st.kvSize == SizeOf(t.st.store)
    ensures Chained(cfg.entryHash, t.st.store, t.st.kvSize)
  {
  }

  /** Whatever the hash function: stores chained from genesis and of equal size agree on every
      entry strictly below the top exactly when their top hashes are equal and no collision of
      the hash shows below the top. */
  lemma TopHashBindsLog(entryHash: KvEntry -> Hash, a: map<nat, KvEntry>, b: map<nat, KvEntry>, n: nat)
    requires Chained(entryHash, a, n) && Chained(entryHash, b, n)
    ensures TopHashOf(a) == TopHashOf(b) && !CollideBelowTop(entryHash, a, b, n)
            <==> forall k: nat :: k + 1 < n ==> a[k] == b[k]
  {
    if n > 0 {
      assert n - 1 in a.Keys && n - 1 in b.Keys;
      if TopHashOf(a) == TopHashOf(b) && !CollideBelowTop(entryHash, a, b, n) {
        forall k: nat | k + 1 < n ensures a[k] == b[k] {
          EqualLinkEqualPrefix(entryHash, a, b, n, n - 1, k);
        }
      }
      if n > 1 && forall k: nat :: k + 1 < n ==> a[k] == b[k] {
        var k: nat := n - 2;
        assert a[k] == b[k];
      }
    } else {
      assert forall k: nat :: k !in a && k !in b;
      assert a == map[] && b == map[];
    }
  }

  /** Entry `n - 1` of operation `op` on top of `store`. */
  function Topped(entryHash: KvEntry -> Hash, store: map<nat, KvEntry>, n: nat, op: nat): map<nat, KvEntry> {
    store[n := KvEntry(op, [], if n > 0 && n - 1 in store then entryHash(store[n - 1]) else ZERO_HASH)]
  }

  lemma ToppedIsChained(entryHash: KvEntry -> Hash, store: map<nat, KvEntry>, n: nat, op: nat)
    requires Chained(entryHash, store, n)
    ensures Chained(entryHash, Topped(entryHash, store, n, op), n + 1)
  {
  }

  /** The top entry itself is not bound: any chained store has two chained extensions with
      equal top hashes that differ at the top and show no collision below it. */
  lemma TopEntryIsNotBound(entryHash: KvEntry -> Hash, store: map<nat, KvEntry>, n: nat)
    requires Chained(entryHash, store, n)
    ensures var a, b := Topped(entryHash, store, n, 0), Topped(entryHash, store, n, 1);
            && Chained(entryHash, a, n + 1) && Chained(entryHash, b, n + 1) && a[n] != b[n]
            && TopHashOf(a) == TopHashOf(b) && !CollideBelowTop(entryHash, a, b, n + 1)
  {
    var a, b := Topped(entryHash, store, n, 0), Topped(entryHash, store, n, 1);
    ToppedIsChained(entryHash, store, n, 0);
    ToppedIsChained(entryHash, store, n, 1);
    TopHashBindsLog(entryHash, a, b, n + 1);
  }
}
