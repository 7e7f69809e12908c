/** The replicated log store (crate `raspen-storage`): what a store answers, as functions of
    its content, and the default in-memory backend proved against them. */
module Storage {
  import opened Types

  predicate IsGreatest(s: set<nat>, k: nat) {
    k in s && forall j | j in s :: j <= k
  }

  lemma GreatestExists(s: set<nat>)
    requires s != {}
    ensures exists k :: IsGreatest(s, k)
  {
    var x :| x in s;
    assert forall j | j in s :: j == x || j in s - {x};
    if s == {x} {
      assert IsGreatest(s, x);
    } else {
      GreatestExists(s - {x});
      var k :| IsGreatest(s - {x}, k);
      assert IsGreatest(s, if x <= k then k else x);
    }
  }

  /** The greatest key, which an ordered map yields first when read from its end. */
  function MaxKey(s: set<nat>): (k: nat)
    requires s != {}
    ensures k in s && forall j | j in s :: j <= k
  {
    GreatestExists(s);
    var k :| k in s && IsGreatest(s, k);
    k
  }

  function SizeOf(entries: map<nat, KvEntry>): nat {
    if entries == map[] then 0 else MaxKey(entries.Keys) + 1
  }

  /** The `prevHash` of the entry at the greatest index (not that entry's own hash). */
  function TopHashOf(entries: map<nat, KvEntry>): Hash {
    if entries == map[] then ZERO_HASH else entries[MaxKey(entries.Keys)].prevHash
  }

  function HashAtOf(entryHash: KvEntry -> Hash, entries: map<nat, KvEntry>, idx: nat): Option<Hash> {
    if idx in entries then Some(entryHash(entries[idx])) else None
  }

  /** The content after inserting a list of entries in order: later ones win. */
  function FromList(list: seq<(nat, KvEntry)>): map<nat, KvEntry> {
    if list == [] then map[]
    else FromList(list[..|list| - 1])[list[|list| - 1].0 := list[|list| - 1].1]
  }

  /** The content has exactly the listed indices. */
  lemma {:induction false} FromListKeys(list: seq<(nat, KvEntry)>, idx: nat)
    ensures idx in FromList(list) <==> exists i :: 0 <= i < |list| && list[i].0 == idx
  {
    if list != [] {
      var front := list[..|list| - 1];
      FromListKeys(front, idx);
      assert forall i :: 0 <= i < |front| ==> front[i] == list[i];
      assert list[|list| - 1].0 == idx ==> idx in FromList(list);
    }
  }

  /** Of several entries for one index the last one wins. */
  lemma {:induction false} LastListedWins(list: seq<(nat, KvEntry)>, i: nat)
    requires i < |list| && forall j :: i < j < |list| ==> list[j].0 != list[i].0
    ensures list[i].0 in FromList(list) && FromList(list)[list[i].0] == list[i].1
  {
    if i < |list| - 1 {
      LastListedWins(list[..|list| - 1], i);
    }
  }

  /** The placeholder entry that repair and alignment write at index `k`. */
  function Synthetic(k: nat): KvEntry {
    KvEntry(k, [], FilledHash(k))
  }

  function SyntheticList(n: nat): seq<(nat, KvEntry)> {
    seq(n, (k: nat) => (k, Synthetic(k)))
  }

  function SyntheticStore(n: nat): map<nat, KvEntry> {
    map k: nat | 0 <= k < n :: Synthetic(k)
  }

  lemma {:induction false} SyntheticListStore(n: nat)
    ensures FromList(SyntheticList(n)) == SyntheticStore(n)
  {
    if n > 0 {
      SyntheticListStore(n - 1);
      assert SyntheticList(n)[..n - 1] == SyntheticList(n - 1);
    }
  }

  /** Keys are exactly `0..SizeOf`. */
  ghost predicate Dense(entries: map<nat, KvEntry>) {
    forall k: nat :: k in entries <==> k < SizeOf(entries)
  }

  lemma SizeIs(entries: map<nat, KvEntry>, n: nat)
    requires forall k: nat :: k in entries <==> k < n
    ensures SizeOf(entries) == n && Dense(entries)
  {
    if n > 0 {
      assert n - 1 in entries.Keys;
    }
  }

  lemma DensePut(entries: map<nat, KvEntry>, idx: nat, e: KvEntry)
    requires Dense(entries) && idx <= SizeOf(entries)
    ensures Dense(entries[idx := e])
    ensures SizeOf(entries[idx := e]) == if idx < SizeOf(entries) then SizeOf(entries) else idx + 1
  {
    var n := if idx < SizeOf(entries) then SizeOf(entries) else idx + 1;
    SizeIs(entries[idx := e], n);
  }

  /** In-memory backend. */
  class MemKvStore {
    const entryHash: KvEntry -> Hash
    var entries: map<nat, KvEntry>

    constructor (entryHash: KvEntry -> Hash)
      ensures entries == map[] && this.entryHash == entryHash
    {
      this.entryHash := entryHash;
      entries := map[];
    }

    method Get(idx: nat) returns (r: Option<KvEntry>)
      ensures r == if idx in entries then Some(entries[idx]) else None
    {
      r := if idx in entries then Some(entries[idx]) else None;
    }

    method Put(idx: nat, entry: KvEntry)
      modifies this
      ensures entries == old(entries)[idx := entry]
    {
      entries := entries[idx := entry];
    }

    method Size() returns (n: nat)
      ensures n == SizeOf(entries)
      ensures (forall k :: k in entries ==> k < n) && (n > 0 ==> n - 1 in entries)
    {
      n := 0;
      if entries != map[] {
        var k := MaxKey(entries.Keys);
        n := k + 1;
      }
    }

    method TopHash() returns (h: Hash)
      ensures h == TopHashOf(entries)
    {
      h := ZERO_HASH;
      if entries != map[] {
        h := entries[MaxKey(entries.Keys)].prevHash;
      }
    }

    method HashAt(idx: nat) returns (r: Option<Hash>)
      ensures r == HashAtOf(entryHash, entries, idx)
    {
      var e := Get(idx);
      r := match e case Some(entry) => Some(entryHash(entry)) case None => None;
    }

    method RebuildFromEntries(list: seq<(nat, KvEntry)>)
      modifies this
      ensures entries == FromList(list)
    {
      entries := map[];
      for i := 0 to |list|
        invariant entries == FromList(list[..i])
      {
        assert list[..i + 1][..i] == list[..i];
        entries := entries[list[i].0 := list[i].1];
      }
      assert list[..|list|] == list;
    }
  }
}
