/** The RocksDB-style backend (`storage/src/kv_store.rs`, feature `rocksdb-backend`): byte
    keys compared lexicographically and a cached size. It answers as the in-memory one. */
module RocksBackend {
  import opened Types
  import opened Storage

  type Key = seq<Byte>

  const U64_MAX: nat := 0xFFFF_FFFF_FFFF_FFFF

  function Pow256(w: nat): nat {
    if w == 0 then 1 else 256 * Pow256(w - 1)
  }

  /** The `w` bytes of `i`, most significant first. */
  function BigEndian(i: nat, w: nat): (k: Key)
    requires i < Pow256(w)
    ensures |k| == w
    decreases w, i
  {
    if w == 0 then []
    else
      var unit := Pow256(w - 1);
      Digits(i, unit);
      [(i / unit) as Byte] + BigEndian(i % unit, w - 1)
  }

  lemma ScaledOrder(unit: nat, q: nat, r: nat)
    ensures q < r ==> unit * q + unit <= unit * r
    decreases r
  {
    if q + 1 < r {
      ScaledOrder(unit, q, r - 1);
      assert unit * r == unit * (r - 1) + unit;
    } else if q + 1 == r {
      assert unit * r == unit * q + unit;
    }
  }

  lemma Digits(i: nat, unit: nat)
    requires 0 < unit && i < 256 * unit
    ensures 0 <= i / unit < 256 && 0 <= i % unit < unit
  {
    ScaledOrder(unit, 255, i / unit);
  }

  lemma Pow256At8()
    ensures Pow256(8) == U64_MAX + 1
  {
    assert Pow256(2) == 0x1_0000;
    assert Pow256(4) == 0x1_0000_0000;
    assert Pow256(6) == 0x1_0000_0000_0000;
  }

  function EntryKey(idx: nat): Key
    requires idx <= U64_MAX
  {
    Pow256At8();
    BigEndian(idx, 8)
  }

  predicate LexLt(a: Key, b: Key) {
    b != [] && (a == [] || a[0] < b[0] || (a[0] == b[0] && LexLt(a[1..], b[1..])))
  }

  lemma QuotientOrder(i: nat, j: nat, unit: nat)
    requires 0 < unit
    ensures i / unit < j / unit ==> i < j
    ensures i / unit == j / unit ==> (i < j <==> i % unit < j % unit)
  {
    ScaledOrder(unit, i / unit, j / unit);
    assert i == unit * (i / unit) + i % unit;
    assert j == unit * (j / unit) + j % unit;
  }

  /** Byte order of big-endian keys is numeric order. */
  lemma {:induction false} BigEndianOrder(i: nat, j: nat, w: nat)
    requires i < Pow256(w) && j < Pow256(w)
    ensures LexLt(BigEndian(i, w), BigEndian(j, w)) <==> i < j
    decreases w
  {
    if w > 0 {
      var unit := Pow256(w - 1);
      Digits(i, unit);
      Digits(j, unit);
      QuotientOrder(i, j, unit);
      QuotientOrder(j, i, unit);
      BigEndianOrder(i % unit, j % unit, w - 1);
      assert BigEndian(i, w)[1..] == BigEndian(i % unit, w - 1);
      assert BigEndian(j, w)[1..] == BigEndian(j % unit, w - 1);
    }
  }

  lemma KeyOrder(i: nat, j: nat)
    requires i <= U64_MAX && j <= U64_MAX
    ensures LexLt(EntryKey(i), EntryKey(j)) <==> i < j
    ensures EntryKey(i) == EntryKey(j) <==> i == j
  {
    Pow256At8();
    BigEndianOrder(i, j, 8);
    BigEndianOrder(j, i, 8);
    BigEndianOrder(i, i, 8);
  }

  /** Content of the default column family and of the `kv_size` metadata key. */
  datatype Rocks = Rocks(db: map<Key, KvEntry>, size: nat)

  function RocksPut(r: Rocks, idx: nat, e: KvEntry): Rocks
    requires idx < U64_MAX
  {
    Rocks(r.db[EntryKey(idx) := e], if idx + 1 > r.size then idx + 1 else r.size)
  }

  predicate SmallIndices(list: seq<(nat, KvEntry)>) {
    forall i :: 0 <= i < |list| ==> list[i].0 < U64_MAX
  }

  function BatchOf(list: seq<(nat, KvEntry)>): map<Key, KvEntry>
    requires SmallIndices(list)
  {
    if list == [] then map[]
    else BatchOf(list[..|list| - 1])[EntryKey(list[|list| - 1].0) := list[|list| - 1].1]
  }

  function MaxIndex(list: seq<(nat, KvEntry)>): nat {
    if list == [] then 0
    else
      var rest, idx := MaxIndex(list[..|list| - 1]), list[|list| - 1].0;
      if idx + 1 > rest then idx + 1 else rest
  }

  /** Range deletion: the end of the range is exclusive. */
  function DeleteRange(db: map<Key, KvEntry>, lo: Key, hi: Key): map<Key, KvEntry> {
    map k | k in db && (LexLt(k, lo) || !LexLt(k, hi)) :: db[k]
  }

  function RocksRebuild(r: Rocks, list: seq<(nat, KvEntry)>): Rocks
    requires SmallIndices(list)
  {
    Rocks(DeleteRange(r.db, EntryKey(0), EntryKey(U64_MAX)) + BatchOf(list), MaxIndex(list))
  }

  /** The store holds exactly `entries`, all below the last index. */
  ghost predicate Holds(r: Rocks, entries: map<nat, KvEntry>) {
    && (forall i :: i in entries ==> i < U64_MAX && EntryKey(i) in r.db && r.db[EntryKey(i)] == entries[i])
    && (forall k :: k in r.db ==> exists i :: i in entries && k == EntryKey(i))
    && r.size == SizeOf(entries)
  }

  /** The key an iterator from the end yields. */
  predicate IsLastKey(db: map<Key, KvEntry>, k: Key) {
    k in db && forall j | j in db :: j == k || LexLt(j, k)
  }

  lemma LastKeyIsGreatest(r: Rocks, entries: map<nat, KvEntry>)
    requires Holds(r, entries) && r.db != map[]
    ensures entries != map[]
    ensures forall k :: IsLastKey(r.db, k) <==> k == EntryKey(MaxKey(entries.Keys))
  {
    var some :| some in r.db;
    var i :| i in entries && some == EntryKey(i);
    var top := MaxKey(entries.Keys);
    forall j | j in r.db ensures j == EntryKey(top) || LexLt(j, EntryKey(top)) {
      var n :| n in entries && j == EntryKey(n);
      KeyOrder(n, top);
    }
    forall k | IsLastKey(r.db, k) ensures k == EntryKey(top) {
      var n :| n in entries && k == EntryKey(n);
      KeyOrder(top, n);
    }
  }

  // Answers.

  function RocksGet(r: Rocks, idx: nat): Option<KvEntry>
    requires idx <= U64_MAX
  {
    if EntryKey(idx) in r.db then Some(r.db[EntryKey(idx)]) else None
  }

  ghost predicate IsRocksTopHash(r: Rocks, h: Hash) {
    if r.db == map[] then h == ZERO_HASH else exists k :: IsLastKey(r.db, k) && h == r.db[k].prevHash
  }

  /** Both backends give the same answers to get, size, top_hash and hash_at. */
  lemma AnswersAgree(r: Rocks, entries: map<nat, KvEntry>, entryHash: KvEntry -> Hash, idx: nat, h: Hash)
    requires Holds(r, entries) && idx <= U64_MAX
    ensures RocksGet(r, idx) == if idx in entries then Some(entries[idx]) else None
    ensures HashAtOf(entryHash, entries, idx)
            == match RocksGet(r, idx) case Some(e) => Some(entryHash(e)) case None => None
    ensures r.size == SizeOf(entries)
    ensures IsRocksTopHash(r, h) <==> h == TopHashOf(entries)
  {
    if EntryKey(idx) in r.db {
      var i :| i in entries && EntryKey(idx) == EntryKey(i);
      KeyOrder(idx, i);
    }
    if r.db != map[] {
      LastKeyIsGreatest(r, entries);
      assert IsLastKey(r.db, EntryKey(MaxKey(entries.Keys)));
    } else {
      assert forall i :: i !in entries;
      assert entries == map[];
    }
  }

  lemma SizeAfterPut(entries: map<nat, KvEntry>, idx: nat, e: KvEntry)
    ensures SizeOf(entries[idx := e]) == if idx + 1 > SizeOf(entries) then idx + 1 else SizeOf(entries)
  {
    var after := entries[idx := e];
    assert idx in after.Keys;
    if entries != map[] {
      assert MaxKey(entries.Keys) in after.Keys;
      assert MaxKey(after.Keys) == idx || MaxKey(after.Keys) in entries.Keys;
    }
  }

  lemma PutKeys(r: Rocks, entries: map<nat, KvEntry>, idx: nat, e: KvEntry, k: Key)
    requires Holds(r, entries) && idx < U64_MAX && k in RocksPut(r, idx, e).db
    ensures exists i :: i in entries[idx := e] && k == EntryKey(i)
  {
    if k != EntryKey(idx) {
      var i :| i in entries && k == EntryKey(i);
      assert i in entries[idx := e];
    } else {
      assert idx in entries[idx := e];
    }
  }

  lemma PutHolds(r: Rocks, entries: map<nat, KvEntry>, idx: nat, e: KvEntry)
    requires Holds(r, entries) && idx < U64_MAX
    ensures Holds(RocksPut(r, idx, e), entries[idx := e])
  {
    SizeAfterPut(entries, idx, e);
    forall i | i in entries[idx := e] ensures RocksPut(r, idx, e).db[EntryKey(i)] == entries[idx := e][i] {
      KeyOrder(i, idx);
    }
    forall k | k in RocksPut(r, idx, e).db ensures exists i :: i in entries[idx := e] && k == EntryKey(i) {
      PutKeys(r, entries, idx, e, k);
    }
  }

  /** The range deletion empties a store whose indices lie below the last one. */
  lemma DeletionClears(r: Rocks, entries: map<nat, KvEntry>)
    requires Holds(r, entries)
    ensures DeleteRange(r.db, EntryKey(0), EntryKey(U64_MAX)) == map[]
  {
    forall k | k in r.db ensures !LexLt(k, EntryKey(0)) && LexLt(k, EntryKey(U64_MAX)) {
      var i :| i in entries && k == EntryKey(i);
      KeyOrder(i, 0);
      KeyOrder(i, U64_MAX);
    }
  }

  lemma {:induction false} BatchHolds(list: seq<(nat, KvEntry)>)
    requires SmallIndices(list)
    ensures Holds(Rocks(BatchOf(list), MaxIndex(list)), FromList(list))
  {
    if list != [] {
      var front, last := list[..|list| - 1], list[|list| - 1];
      BatchHolds(front);
      PutHolds(Rocks(BatchOf(front), MaxIndex(front)), FromList(front), last.0, last.1);
    }
  }

  lemma RebuildHolds(r: Rocks, entries: map<nat, KvEntry>, list: seq<(nat, KvEntry)>)
    requires Holds(r, entries) && SmallIndices(list)
    ensures Holds(RocksRebuild(r, list), FromList(list))
  {
    DeletionClears(r, entries);
    BatchHolds(list);
    assert map[] + BatchOf(list) == BatchOf(list);
  }

  datatype StoreOp = Put(idx: nat, entry: KvEntry) | Rebuild(list: seq<(nat, KvEntry)>) {
    predicate Small() {
      match this
      case Put(idx, _) => idx < U64_MAX
      case Rebuild(list) => SmallIndices(list)
    }
  }

  predicate AllSmall(ops: seq<StoreOp>) {
    forall op :: op in ops ==> op.Small()
  }

  function MemStep(entries: map<nat, KvEntry>, op: StoreOp): map<nat, KvEntry> {
    match op
    case Put(idx, e) => entries[idx := e]
    case Rebuild(list) => FromList(list)
  }

  function RocksStep(r: Rocks, op: StoreOp): Rocks
    requires op.Small()
  {
    match op
    case Put(idx, e) => RocksPut(r, idx, e)
    case Rebuild(list) => RocksRebuild(r, list)
  }

  function MemRun(ops: seq<StoreOp>): map<nat, KvEntry> {
    if ops == [] then map[] else MemStep(MemRun(ops[..|ops| - 1]), ops[|ops| - 1])
  }

  function RocksRun(ops: seq<StoreOp>): Rocks
    requires AllSmall(ops)
  {
    if ops == [] then Rocks(map[], 0) else RocksStep(RocksRun(ops[..|ops| - 1]), ops[|ops| - 1])
  }

  lemma StepHolds(r: Rocks, entries: map<nat, KvEntry>, op: StoreOp)
    requires Holds(r, entries) && op.Small()
    ensures Holds(RocksStep(r, op), MemStep(entries, op))
  {
    match op {
      case Put(idx, e) => PutHolds(r, entries, idx, e);
      case Rebuild(list) => RebuildHolds(r, entries, list);
    }
  }

  lemma {:induction false} RunHolds(ops: seq<StoreOp>)
    requires AllSmall(ops)
    ensures Holds(RocksRun(ops), MemRun(ops))
  {
    if ops != [] {
      var front, last := ops[..|ops| - 1], ops[|ops| - 1];
      RunHolds(front);
      StepHolds(RocksRun(front), MemRun(front), last);
    }
  }

  /** Over every sequence of puts and rebuilds with indices below `u64::MAX`, the two backends
      answer every query alike. */
  lemma BackendsAgree(ops: seq<StoreOp>, entryHash: KvEntry -> Hash, idx: nat, h: Hash)
    requires AllSmall(ops) && idx <= U64_MAX
    ensures var r, entries := RocksRun(ops), MemRun(ops);
            && RocksGet(r, idx) == (if idx in entries then Some(entries[idx]) else None)
            && (match RocksGet(r, idx) case Some(e) => Some(entryHash(e)) case None => None)
               == HashAtOf(entryHash, entries, idx)
            && r.size == SizeOf(entries)
            && (IsRocksTopHash(r, h) <==> h == TopHashOf(entries))
  {
    RunHolds(ops);
    AnswersAgree(RocksRun(ops), MemRun(ops), entryHash, idx, h);
  }

  /** The backend object. `contents` is the log it holds. */
  class RocksKvStore {
    const entryHash: KvEntry -> Hash
    var db: map<Key, KvEntry>
    var kvSize: nat
    ghost var contents: map<nat, KvEntry>

    ghost predicate Valid()
      reads this
    {
      Holds(Rocks(db, kvSize), contents)
    }

    constructor (entryHash: KvEntry -> Hash)
      ensures Valid() && contents == map[] && this.entryHash == entryHash
    {
      this.entryHash := entryHash;
      db, kvSize, contents := map[], 0, map[];
    }

    method Get(idx: nat) returns (r: Option<KvEntry>)
      requires Valid() && idx <= U64_MAX
      ensures r == if idx in contents then Some(contents[idx]) else None
    {
      AnswersAgree(Rocks(db, kvSize), contents, entryHash, idx, ZERO_HASH);
      r := if EntryKey(idx) in db then Some(db[EntryKey(idx)]) else None;
    }

    method Put(idx: nat, entry: KvEntry)
      requires Valid() && idx < U64_MAX
      modifies this
      ensures Valid() && contents == old(contents)[idx := entry]
    {
      PutHolds(Rocks(db, kvSize), contents, idx, entry);
      var newSize := if idx + 1 > kvSize then idx + 1 else kvSize;
      db := db[EntryKey(idx) := entry];
      if newSize > kvSize {
        kvSize := newSize;
      }
      contents := contents[idx := entry];
    }

    method Size() returns (n: nat)
      requires Valid()
      ensures n == SizeOf(contents)
    {
      n := kvSize;
    }

    method TopHash() returns (h: Hash)
      requires Valid()
      ensures h == TopHashOf(contents)
    {
      AnswersAgree(Rocks(db, kvSize), contents, entryHash, 0, ZERO_HASH);
      h := ZERO_HASH;
      if db != map[] {
        LastKeyIsGreatest(Rocks(db, kvSize), contents);
        assert IsLastKey(db, EntryKey(MaxKey(contents.Keys)));
        var k :| k in db && forall j | j in db :: j == k || LexLt(j, k);
        assert IsLastKey(db, k);
        h := db[k].prevHash;
      }
    }

    method HashAt(idx: nat) returns (r: Option<Hash>)
      requires Valid() && idx <= U64_MAX
      ensures r == HashAtOf(entryHash, contents, idx)
    {
      var e := Get(idx);
      r := match e case Some(entry) => Some(entryHash(entry)) case None => None;
    }

    static method CollectBatch(list: seq<(nat, KvEntry)>) returns (batch: map<Key, KvEntry>, maxIdx: nat)
      requires SmallIndices(list)
      ensures batch == BatchOf(list) && maxIdx == MaxIndex(list)
    {
      batch, maxIdx := map[], 0;
      for i := 0 to |list|
        invariant batch == BatchOf(list[..i]) && maxIdx == MaxIndex(list[..i])
      {
        assert list[..i + 1][..i] == list[..i];
        batch := batch[EntryKey(list[i].0) := list[i].1];
        if list[i].0 + 1 > maxIdx {
          maxIdx := list[i].0 + 1;
        }
      }
      assert list[..|list|] == list;
    }

    method RebuildFromEntries(list: seq<(nat, KvEntry)>)
      requires Valid() && SmallIndices(list)
      modifies this
      ensures Valid() && contents == FromList(list)
    {
      RebuildHolds(Rocks(db, kvSize), contents, list);
      db := DeleteRange(db, EntryKey(0), EntryKey(U64_MAX));
      var batch, maxIdx := CollectBatch(list);
      db := db + batch;
      kvSize := maxIdx;
      contents := FromList(list);
    }
  }
}
