/** What the stx cache holds, apart from the way its hash table is linked: the
    steps of its operations, and what they do to the map it stands for. */
module CacheModel {
  import opened Wrappers

  type Key(==)

  /** One past the largest size_t. */
  const WORD: nat := 0x1_0000_0000_0000_0000

  /** A sum or difference of two size_t, stored in a size_t. */
  function Word(n: int): int { if n < 0 then n + WORD else if n < WORD then n else n - WORD }

  /** Where a pointer to an entry is stored. */
  datatype Slot = Nowhere | Bucket(i: nat) | NextOf(e: Entry)

  class Entry {
    const key: Key
    const weight: nat
    var next: Entry?
    var pthis: Slot
    var refCount: nat
    var deletePending: bool

    constructor (key: Key, weight: nat)
      ensures this.key == key && this.weight == weight
      ensures next == null && pthis == Nowhere && refCount == 0 && !deletePending
    {
      this.key, this.weight := key, weight;
      next, pthis, refCount, deletePending := null, Nowhere, 0, false;
    }
  }

  datatype Record = Record(key: Key, weight: nat, refs: nat, pending: bool)

  /** `table` are the entries linked in the hash table, `freed` those given back. */
  datatype State = State(table: map<Entry, Record>, lru: seq<Entry>, freed: set<Entry>, maxSize: nat, maxWeight: nat,
                         curSize: int, curWeight: int, hits: nat, lookups: nat, inserts: nat, deletes: nat)

  // ---------- Steps ----------

  function Without(q: seq<Entry>, e: Entry): (r: seq<Entry>)
    ensures (forall x :: x in q ==> (x in r <==> x != e)) && (forall x :: x in r ==> x in q)
  {
    if q == [] then [] else if q[0] == e then Without(q[1..], e) else [q[0]] + Without(q[1..], e)
  }

  /** An unreferenced entry is unlinked and freed. */
  function Drop(s: State, e: Entry): State
    requires e in s.table
  {
    s.(table := s.table - {e}, lru := Without(s.lru, e), freed := s.freed + {e}, curSize := s.curSize - 1,
       curWeight := Word(s.curWeight - s.table[e].weight), deletes := s.deletes + 1)
  }

  function Delete(s: State, e: Entry): State {
    if e !in s.table then s.(freed := s.freed + {e})
    else if s.table[e].refs > 0 then s.(table := s.table[e := s.table[e].(pending := true)])
    else Drop(s, e)
  }

  /** A lookup that finds `e`. */
  function Acquire(s: State, e: Entry): State
    requires e in s.table
  {
    s.(table := s.table[e := s.table[e].(refs := s.table[e].refs + 1)],
       lru := if s.table[e].refs == 0 then Without(s.lru, e) else s.lru, hits := s.hits + 1, lookups := s.lookups + 1)
  }

  function Missed(s: State): State {
    s.(lookups := s.lookups + 1)
  }

  function Release(s: State, e: Entry): State {
    if e !in s.table || s.table[e].refs == 0 then s else
      var x := s.table[e].(refs := s.table[e].refs - 1);
      var t := s.(table := s.table[e := x], lru := if x.refs == 0 then s.lru + [e] else s.lru);
      if x.refs == 0 && x.pending then Drop(t, e) else t
  }

  predicate LruLinked(s: State) {
    forall e :: e in s.lru ==> e in s.table
  }

  /** Evicts the least recently released entries until a weight fits. */
  function MakeRoom(s: State, weight: nat): (r: (State, bool))
    requires LruLinked(s)
    ensures LruLinked(r.0)
    decreases |s.table|
  {
    if Word(s.curWeight + weight) <= s.maxWeight then (s, true)
    else if s.lru == [] then (s, false)
    else assert s.lru[0] in s.lru; MakeRoom(Drop(s, s.lru[0]), weight)
  }

  /** One more entry goes if the cache is full. */
  function MakeSpace(s: State): (r: (State, bool))
    requires LruLinked(s)
    ensures LruLinked(r.0)
  {
    if s.curSize < s.maxSize then (s, true)
    else if s.lru == [] then (s, false)
    else assert s.lru[0] in s.lru; (Drop(s, s.lru[0]), true)
  }

  /** A new entry, referenced once by the caller. */
  function Put(s: State, e: Entry): State {
    s.(table := s.table[e := Record(e.key, e.weight, 1, false)], inserts := s.inserts + 1, curSize := s.curSize + 1,
       curWeight := Word(s.curWeight + e.weight))
  }

  // ---------- The map the cache stands for ----------

  type Table = map<Entry, Record>

  /** `e` is what a lookup of `k` would find. */
  predicate Holds(t: Table, k: Key, e: Entry) {
    e in t && !t[e].pending && t[e].key == k
  }

  ghost function Sum(t: map<Entry, Record>): nat {
    if t == map[] then 0 else
      var e :| e in t;
      t[e].weight + Sum(t - {e})
  }

  lemma {:induction false} SumWithout(t: map<Entry, Record>, e: Entry)
    requires e in t
    ensures Sum(t) == t[e].weight + Sum(t - {e})
    decreases |t|
  {
    var x :| x in t && Sum(t) == t[x].weight + Sum(t - {x});
    if x != e {
      SumWithout(t - {x}, e);
      SumWithout(t - {e}, x);
      assert t - {x} - {e} == t - {e} - {x};
    }
  }

  lemma {:induction false} SumWith(t: map<Entry, Record>, e: Entry, x: Record)
    ensures Sum(t[e := x]) == x.weight + Sum(t - {e})
  {
    SumWithout(t[e := x], e);
    assert t[e := x] - {e} == t - {e};
  }

  // ---------- The invariant ----------

  /** The LRU list is exactly the unreferenced entries; what is to be deleted
      is still referenced. */
  ghost predicate Lists(t: Table, lru: seq<Entry>) {
    && Distinct(lru) && (forall e :: e in lru ==> e in t)
    && (forall e {:trigger t[e]} :: e in t ==> (e in lru <==> t[e].refs == 0))
    && (forall e {:trigger t[e]} :: e in t && t[e].pending ==> t[e].refs > 0)
  }

  ghost predicate OnePerKey(t: Table) {
    forall e, f {:trigger Holds(t, t[e].key, f)} :: e in t && f in t && !t[e].pending && e != f ==> !Holds(t, t[e].key, f)
  }

  /** No entry in the table has been freed. */
  ghost predicate Owned(t: Table, freed: set<Entry>) {
    forall e {:trigger t[e]} :: e in t ==> e !in freed
  }

  ghost predicate Counted(s: State) {
    && s.curSize == |s.table| && s.curWeight == Sum(s.table)
    && s.inserts - s.deletes == s.curSize
    && s.curSize <= s.maxSize && s.curWeight <= s.maxWeight < WORD
  }

  ghost predicate Inv(s: State) {
    Lists(s.table, s.lru) && OnePerKey(s.table) && Owned(s.table, s.freed) && Counted(s)
  }

  lemma {:induction false} DistinctWithout(q: seq<Entry>, e: Entry)
    requires Distinct(q)
    ensures Distinct(Without(q, e))
  {
    if q != [] {
      assert forall i :: 0 <= i < |q[1..]| ==> q[1..][i] == q[i + 1];
      DistinctWithout(q[1..], e);
      var r := Without(q[1..], e);
      assert forall i :: 0 <= i < |r| ==> r[i] in r;
      assert q[0] !in q[1..];
    }
  }

  lemma {:induction false} DropLists(t: Table, lru: seq<Entry>, e: Entry)
    requires Lists(t, lru) && OnePerKey(t) && e in t
    ensures Lists(t - {e}, Without(lru, e)) && OnePerKey(t - {e})
  {
    DistinctWithout(lru, e);
    assert forall d, f :: d in t - {e} && Holds(t - {e}, t[d].key, f) ==> Holds(t, t[d].key, f);
  }

  lemma {:induction false} SizeWithout(t: Table, e: Entry)
    requires e in t
    ensures |t - {e}| == |t| - 1
  {
    assert (t - {e}).Keys == t.Keys - {e};
    assert |t - {e}| == |(t - {e}).Keys| && |t| == |t.Keys|;
  }

  lemma {:induction false} SizeWith(t: Table, e: Entry, x: Record)
    requires e !in t
    ensures |t[e := x]| == |t| + 1
  {
    assert t[e := x].Keys == t.Keys + {e};
    assert |t[e := x]| == |t[e := x].Keys| && |t| == |t.Keys|;
  }

  lemma {:induction false} DropKeeps(s: State, e: Entry)
    requires Inv(s) && e in s.table
    ensures Inv(Drop(s, e)) && Drop(s, e).curWeight == s.curWeight - s.table[e].weight
  {
    DropLists(s.table, s.lru, e);
    SumWithout(s.table, e);
    SizeWithout(s.table, e);
  }

  /** The same entries are linked, with the same keys and weights. */
  lemma {:induction false} SumSame(t: map<Entry, Record>, e: Entry, x: Record)
    requires e in t && x.weight == t[e].weight
    ensures Sum(t[e := x]) == Sum(t) && |t[e := x]| == |t|
  {
    SumWithout(t, e);
    SumWith(t, e, x);
    assert t[e := x].Keys == t.Keys;
    assert |t| == |t.Keys|;
    assert |t[e := x]| == |t[e := x].Keys|;
  }

  /** A record changes, but not its key and weight, and it does not come back to life. */
  lemma {:induction false} ChangeKeeps(s: State, e: Entry, x: Record, lru: seq<Entry>)
    requires Inv(s) && e in s.table && x.key == s.table[e].key && x.weight == s.table[e].weight
    requires (s.table[e].pending ==> x.pending) && (x.pending ==> x.refs > 0)
    requires Distinct(lru) && (forall f :: f in lru ==> f in s.table)
    requires forall f {:trigger f in lru} :: f in s.table ==> (f in lru <==> if f == e then x.refs == 0 else f in s.lru)
    ensures Inv(s.(table := s.table[e := x], lru := lru))
  {
    var t := s.table[e := x];
    SumSame(s.table, e, x);
    assert forall d, f :: d in t && Holds(t, t[d].key, f) ==> Holds(s.table, s.table[d].key, f);
  }

  lemma {:induction false} DeleteKeeps(s: State, e: Entry)
    requires Inv(s)
    ensures Inv(Delete(s, e))
  {
    if e in s.table {
      if s.table[e].refs > 0 { ChangeKeeps(s, e, s.table[e].(pending := true), s.lru); } else { DropKeeps(s, e); }
    }
  }

  lemma {:induction false} AcquireKeeps(s: State, e: Entry)
    requires Inv(s) && e in s.table && !s.table[e].pending
    ensures Inv(Acquire(s, e))
  {
    DistinctWithout(s.lru, e);
    ChangeKeeps(s, e, s.table[e].(refs := s.table[e].refs + 1),
        if s.table[e].refs == 0 then Without(s.lru, e) else s.lru);
  }

  lemma {:induction false} ReleaseKeeps(s: State, e: Entry)
    requires Inv(s)
    ensures Inv(Release(s, e))
  {
    if e in s.table && s.table[e].refs > 0 {
      var x := s.table[e].(refs := s.table[e].refs - 1);
      if x.refs == 0 && x.pending {
        WithoutLast(s.lru, e);
        SumSame(s.table, e, x);
        ReleaseDrops(s, e, x);
      } else {
        ChangeKeeps(s, e, x, if x.refs == 0 then s.lru + [e] else s.lru);
      }
    }
  }

  lemma {:induction false} ReleaseDrops(s: State, e: Entry, x: Record)
    requires Inv(s) && e in s.table && e !in s.lru && x.weight == s.table[e].weight
    ensures Inv(Drop(s.(table := s.table[e := x], lru := s.lru + [e]), e))
  {
    WithoutLast(s.lru, e);
    assert s.table[e := x] - {e} == s.table - {e};
    WithoutOther(s.lru, e);
    DropKeeps(s, e);
  }

  lemma {:induction false} WithoutLast(q: seq<Entry>, e: Entry)
    requires e !in q
    ensures Without(q + [e], e) == q
  {
    if q != [] {
      assert (q + [e])[1..] == q[1..] + [e];
      WithoutLast(q[1..], e);
    }
  }

  lemma {:induction false} WithoutOther(q: seq<Entry>, e: Entry)
    requires e !in q
    ensures Without(q, e) == q
  {
    if q != [] { WithoutOther(q[1..], e); }
  }

  lemma {:induction false} PutKeeps(s: State, e: Entry)
    requires Inv(s) && e !in s.table && e !in s.freed && (forall d :: d in s.table ==> !Holds(s.table, e.key, d))
    requires s.curSize < s.maxSize && s.curWeight + e.weight <= s.maxWeight
    ensures Inv(Put(s, e))
  {
    var x := Record(e.key, e.weight, 1, false);
    PutOnePerKey(s.table, e, x);
    PutLists(s.table, s.lru, e, x);
    PutCounted(s, e);
    hide Counted, Lists, OnePerKey;
  }

  lemma {:induction false} PutCounted(s: State, e: Entry)
    requires Counted(s) && e !in s.table && s.curSize < s.maxSize && s.curWeight + e.weight <= s.maxWeight
    ensures Counted(Put(s, e))
  {
    var x := Record(e.key, e.weight, 1, false);
    SumWith(s.table, e, x);
    assert s.table - {e} == s.table;
    SizeWith(s.table, e, x);
  }

  lemma {:induction false} PutLists(t: Table, lru: seq<Entry>, e: Entry, x: Record)
    requires Lists(t, lru) && e !in t && x.refs > 0
    ensures Lists(t[e := x], lru)
  {
  }

  lemma {:induction false} PutOnePerKey(t: Table, e: Entry, x: Record)
    requires OnePerKey(t) && e !in t && (forall d :: d in t ==> !Holds(t, x.key, d))
    ensures OnePerKey(t[e := x])
  {
    assert forall d, f :: d in t && f in t && Holds(t[e := x], t[d].key, f) ==> Holds(t, t[d].key, f);
    forall d | d in t && !t[d].pending ensures t[d].key != x.key { assert !Holds(t, x.key, d); }
  }

  // ---------- Eviction ----------

  function Referenced(t: Table): Table { map e | e in t && t[e].refs > 0 :: t[e] }

  /** The table without some entries. */
  function TableWithout(t: Table, q: seq<Entry>): Table {
    if q == [] then t else TableWithout(t - {q[0]}, q[1..])
  }

  lemma {:induction false} RestIs(t: Table, q: seq<Entry>)
    ensures TableWithout(t, q).Keys <= t.Keys
    ensures forall e :: e in t ==> (e in TableWithout(t, q) <==> e !in q) && (e in TableWithout(t, q) ==> TableWithout(t, q)[e] == t[e])
  {
    if q != [] { RestIs(t - {q[0]}, q[1..]); }
  }

  /** `t` is left when the `n` least recently released entries have gone. */
  ghost predicate Evicts(s: State, t: State, n: nat) {
    && n <= |s.lru| && t.lru == s.lru[n..] && t.table == TableWithout(s.table, s.lru[..n])
    && t.table.Keys + t.freed == s.table.Keys + s.freed
    && t.maxSize == s.maxSize && t.maxWeight == s.maxWeight && t.inserts == s.inserts
  }

  lemma {:induction false} DropFirst(s: State)
    requires Inv(s) && s.lru != []
    ensures s.lru[0] in s.table && Inv(Drop(s, s.lru[0])) && Drop(s, s.lru[0]).lru == s.lru[1..]
    ensures Drop(s, s.lru[0]).table.Keys + Drop(s, s.lru[0]).freed == s.table.Keys + s.freed
  {
    assert s.lru[0] in s.lru;
    DropKeeps(s, s.lru[0]);
    assert s.lru[0] !in s.lru[1..];
    WithoutOther(s.lru[1..], s.lru[0]);
  }

  lemma {:induction false} EvictsMore(s: State, u: State, t: State, k: nat)
    requires s.lru != [] && s.lru[0] in s.table && u == Drop(s, s.lru[0]) && u.lru == s.lru[1..] && Evicts(u, t, k)
    requires u.table.Keys + u.freed == s.table.Keys + s.freed
    ensures Evicts(s, t, k + 1)
  {
    assert s.lru[..k + 1][1..] == u.lru[..k];
  }

  /** Once the list is empty just the referenced entries are left. */
  lemma {:induction false} EvictsAll(s: State, t: State, n: nat)
    requires Lists(s.table, s.lru) && Evicts(s, t, n)
    ensures Referenced(t.table) == Referenced(s.table)
    ensures t.lru == [] ==> t.table == Referenced(s.table)
  {
    RestIs(s.table, s.lru[..n]);
    assert forall e :: e in s.lru[..n] ==> e in s.lru;
    if t.lru == [] {
      assert s.lru[..n] == s.lru;
      assert t.table.Keys == Referenced(s.table).Keys;
    }
  }

  /** The weight in use once `m` entries have been evicted. */
  ghost function WeightAfter(s: State, m: nat): nat
    requires m <= |s.lru|
  {
    Sum(TableWithout(s.table, s.lru[..m]))
  }

  /** `n` entries were evicted, and each was needed. */
  ghost predicate JustEnough(s: State, weight: nat, t: State, ok: bool, n: nat) {
    && Evicts(s, t, n)
    && (ok <==> Word(t.curWeight + weight) <= s.maxWeight) && (!ok ==> t.lru == [])
    && (forall m {:trigger WeightAfter(s, m)} :: 0 <= m < n ==> Word(WeightAfter(s, m) + weight) > s.maxWeight)
  }

  /** The eviction loop takes entries from the old end of the LRU list, no more
      than it needs, and gives up only when the list is empty. */
  lemma {:induction false} MakeRoomEvicts(s: State, weight: nat) returns (n: nat)
    requires Inv(s)
    ensures Inv(MakeRoom(s, weight).0) && JustEnough(s, weight, MakeRoom(s, weight).0, MakeRoom(s, weight).1, n)
    decreases |s.table|
  {
    if Word(s.curWeight + weight) <= s.maxWeight || s.lru == [] {
      n := 0;
      NoneEvicted(s, weight);
    } else {
      DropFirst(s);
      SizeWithout(s.table, s.lru[0]);
      MakeRoomStep(s, weight);
      hide Inv, JustEnough, MakeRoom, Word;
      var k := MakeRoomEvicts(Drop(s, s.lru[0]), weight);
      OneMoreEvicted(s, weight, MakeRoom(s, weight).0, MakeRoom(s, weight).1, k);
      n := k + 1;
    }
  }

  lemma {:induction false} NoneEvicted(s: State, weight: nat)
    requires LruLinked(s) && (Word(s.curWeight + weight) <= s.maxWeight || s.lru == [])
    ensures JustEnough(s, weight, s, Word(s.curWeight + weight) <= s.maxWeight, 0)
  {
    assert s.lru[..0] == [] && s.lru[0..] == s.lru;
  }

  lemma {:induction false} MakeRoomStep(s: State, weight: nat)
    requires LruLinked(s) && Word(s.curWeight + weight) > s.maxWeight && s.lru != [] && s.lru[0] in s.table
             && LruLinked(Drop(s, s.lru[0]))
    ensures MakeRoom(s, weight) == MakeRoom(Drop(s, s.lru[0]), weight)
  {
  }

  lemma {:induction false} OneMoreEvicted(s: State, weight: nat, t: State, ok: bool, k: nat)
    requires Inv(s) && s.lru != [] && s.lru[0] in s.table && Word(s.curWeight + weight) > s.maxWeight
    requires JustEnough(Drop(s, s.lru[0]), weight, t, ok, k)
    ensures JustEnough(s, weight, t, ok, k + 1)
  {
    DropFirst(s);
    var u := Drop(s, s.lru[0]);
    EvictsMore(s, u, t, k);
    forall m {:trigger WeightAfter(s, m)} | 0 <= m < k + 1 ensures Word(WeightAfter(s, m) + weight) > s.maxWeight {
      if m == 0 { assert s.lru[..0] == []; } else { WeightAfterDrop(s, m - 1); }
    }
  }

  lemma {:induction false} WeightAfterDrop(s: State, m: nat)
    requires m < |s.lru| && s.lru[0] in s.table && Drop(s, s.lru[0]).lru == s.lru[1..]
    ensures WeightAfter(Drop(s, s.lru[0]), m) == WeightAfter(s, m + 1)
  {
    assert s.lru[..m + 1][1..] == s.lru[1..][..m];
  }

  /** What the loop leaves has room for the weight exactly if the first sum it
      looked at did not wrap around. */
  lemma {:induction false} RoomUnlessWrapped(s: State, weight: nat)
    requires Inv(s) && weight < WORD && MakeRoom(s, weight).1
    ensures MakeRoom(s, weight).0.curWeight + weight <= s.maxWeight <==> s.curWeight + weight < WORD
  {
    var n := MakeRoomEvicts(s, weight);
    if s.curWeight + weight < WORD {
      var t := MakeRoom(s, weight).0;
      RestIs(s.table, s.lru[..n]);
      SumSub(s.table, t.table);
    }
  }

  lemma {:induction false} SumSub(t: Table, u: Table)
    requires u.Keys <= t.Keys && forall e :: e in u ==> u[e] == t[e]
    ensures Sum(u) <= Sum(t) && |u| <= |t|
    decreases |t|
  {
    if t != map[] {
      var e :| e in t;
      SumWithout(t, e);
      SizeWithout(t, e);
      if e in u {
        SumWithout(u, e);
        SizeWithout(u, e);
        hide Sum;
        SumSub(t - {e}, u - {e});
      } else {
        hide Sum;
        SumSub(t - {e}, u);
      }
    }
  }

  // ---------- Insertion ----------

  ghost predicate Unheld(t: Table, k: Key) { forall d :: d in t ==> !Holds(t, k, d) }

  /** What an insertion can do: a live entry with the same key is deleted. */
  ghost predicate Inserted(s: State, e: Entry, s': State, ok: bool)
    requires LruLinked(s)
  {
    var (t, roomy) := MakeRoom(s, e.weight);
    if !roomy then !ok && s' == t else
      var (u, space) := MakeSpace(t);
      if !space then !ok && s' == u else ok && Replaced(u, e, s')
  }

  ghost predicate Replaced(u: State, e: Entry, s': State) {
    || (Unheld(u.table, e.key) && s' == Put(u, e))
    || (exists d :: d in u.table && Holds(u.table, e.key, d) && s' == Put(Delete(u, d), e))
  }

  /** An entry the cache has never seen, whose weight can be added to the total. */
  ghost predicate Insertable(s: State, e: Entry) {
    e !in s.table && e !in s.freed && s.curWeight + e.weight < WORD
  }

  lemma {:induction false} RestLast(t: Table, q: seq<Entry>, x: Entry)
    ensures TableWithout(t, q + [x]) == TableWithout(t, q) - {x}
  {
    if q != [] {
      assert (q + [x])[1..] == q[1..] + [x];
      RestLast(t - {q[0]}, q[1..], x);
    } else {
      assert TableWithout(t - {x}, []) == t - {x};
    }
  }

  lemma {:induction false} NextPrefix(q: seq<Entry>, n: nat)
    requires n < |q|
    ensures q[..n + 1] == q[..n] + [q[n]] && q[n] == q[n..][0] && q[n..][1..] == q[n + 1..]
  {
  }

  lemma {:induction false} EvictsLast(s: State, t: State, n: nat)
    requires Evicts(s, t, n) && Inv(t) && t.lru != []
    ensures t.lru[0] in t.table && Evicts(s, Drop(t, t.lru[0]), n + 1)
  {
    DropFirst(t);
    NextPrefix(s.lru, n);
    RestLast(s.table, s.lru[..n], t.lru[0]);
  }

  /** What the two evictions leave when they succeed, and when they do not. */
  lemma {:induction false} SpaceMade(s: State, e: Entry) returns (n: nat)
    requires Inv(s) && Insertable(s, e)
    ensures var (t, roomy) := MakeRoom(s, e.weight); var (u, space) := MakeSpace(t);
            && (!roomy ==> Inv(t) && Evicts(s, t, n) && t.lru == [] && t.curWeight + e.weight > s.maxWeight)
            && (roomy ==> Inv(u) && Evicts(s, u, n) && u.curWeight + e.weight <= s.maxWeight)
            && (roomy && space ==> u.curSize < s.maxSize) && (roomy && !space ==> u.lru == [] && u.curSize >= s.maxSize)
  {
    n := MakeRoomEvicts(s, e.weight);
    var (t, roomy) := MakeRoom(s, e.weight);
    hide MakeRoom;
    if roomy {
      RoomUnlessWrapped(s, e.weight);
      if t.curSize >= t.maxSize && t.lru != [] {
        DropFirst(t);
        DropKeeps(t, t.lru[0]);
        EvictsLast(s, t, n);
        n := n + 1;
      }
    } else {
      RestIs(s.table, s.lru[..n]);
      SumSub(s.table, t.table);
    }
  }

  lemma {:induction false} DeleteHolds(s: State, d: Entry)
    requires Inv(s)
    ensures forall k, x {:trigger Holds(Delete(s, d).table, k, x)} :: x in s.table ==> (Holds(Delete(s, d).table, k, x) <==> Holds(s.table, k, x) && x != d)
    ensures Delete(s, d).table.Keys <= s.table.Keys
  {
  }

  lemma {:induction false} ReplacedKeeps(u: State, e: Entry, s': State)
    requires Inv(u) && Insertable(u, e) && u.curSize < u.maxSize && u.curWeight + e.weight <= u.maxWeight
             && Replaced(u, e, s')
    ensures Inv(s')
    ensures forall k, x {:trigger Holds(s'.table, k, x)} :: x in u.table ==> (Holds(s'.table, k, x) <==> Holds(u.table, k, x) && k != e.key)
    ensures Holds(s'.table, e.key, e) && forall k :: Holds(s'.table, k, e) ==> k == e.key
    ensures forall x :: x in s'.table ==> x in u.table || x == e
  {
    if Unheld(u.table, e.key) && s' == Put(u, e) {
      PutKeeps(u, e);
      PutHolds(u, e);
      hide Inv, Put, Holds, Insertable;
    } else {
      var d :| d in u.table && Holds(u.table, e.key, d) && s' == Put(Delete(u, d), e);
      OnlyOne(u, d);
      DeleteKeeps(u, d);
      DeleteHolds(u, d);
      DeleteLess(u, d);
      DeletedUnheld(u, d, e);
      hide Inv, Delete, Put;
      PutKeeps(Delete(u, d), e);
      PutHolds(Delete(u, d), e);
    }
  }

  lemma {:induction false} DeletedUnheld(u: State, d: Entry, e: Entry)
    requires Inv(u) && d in u.table && Holds(u.table, e.key, d) && Insertable(u, e)
    ensures Unheld(Delete(u, d).table, e.key) && e !in Delete(u, d).table && e !in Delete(u, d).freed
  {
    DeleteHolds(u, d);
    OnlyOne(u, d);
  }

  lemma {:induction false} PutHolds(u: State, e: Entry)
    requires e !in u.table
    ensures forall k, x {:trigger Holds(Put(u, e).table, k, x)} :: x in u.table ==> (Holds(Put(u, e).table, k, x) <==> Holds(u.table, k, x))
    ensures Holds(Put(u, e).table, e.key, e) && forall k :: Holds(Put(u, e).table, k, e) ==> k == e.key
    ensures Put(u, e).table.Keys == u.table.Keys + {e}
  {
  }

  lemma {:induction false} OnlyOne(u: State, d: Entry)
    requires Inv(u) && d in u.table && !u.table[d].pending
    ensures forall x :: x in u.table && x != d ==> !Holds(u.table, u.table[d].key, x)
  {
  }

  lemma {:induction false} DeleteLess(u: State, d: Entry)
    requires Inv(u) && d in u.table
    ensures Delete(u, d).curSize <= u.curSize && Delete(u, d).curWeight <= u.curWeight
            && Delete(u, d).freed <= u.freed + {d}
    ensures Delete(u, d).maxSize == u.maxSize && Delete(u, d).maxWeight == u.maxWeight
  {
    if u.table[d].refs == 0 { DropKeeps(u, d); }
  }

  /** An insertion keeps the invariant, also when it fails. */
  lemma {:induction false} InsertKeeps(s: State, e: Entry, s': State, ok: bool)
    requires Inv(s) && Insertable(s, e) && Inserted(s, e, s', ok)
    ensures Inv(s')
  {
    var n := SpaceMade(s, e);
    if ok {
      var u := MakeSpace(MakeRoom(s, e.weight).0).0;
      RestIs(s.table, s.lru[..n]);
      assert e !in u.freed by { assert e !in s.table.Keys + s.freed; }
      ReplacedKeeps(u, e, s');
    }
  }

  /** A successful insertion replaces what the key stood for. Otherwise only the
      least recently released entries are gone. */
  lemma {:induction false} InsertUpdates(s: State, e: Entry, s': State, ok: bool) returns (n: nat)
    requires Inv(s) && Insertable(s, e) && Inserted(s, e, s', ok)
    ensures n <= |s.lru|
    ensures forall k, x {:trigger Holds(s'.table, k, x)} :: x in s.table ==>
              (Holds(s'.table, k, x) <==> Holds(s.table, k, x) && x !in s.lru[..n] && !(ok && k == e.key))
    ensures ok ==> Holds(s'.table, e.key, e) && forall k :: Holds(s'.table, k, e) ==> k == e.key
    ensures forall x :: x in s'.table ==> x in s.table || (ok && x == e)
    ensures forall x :: x in s.lru[..n] ==> x in s.lru && x !in s'.table
  {
    n := SpaceMade(s, e);
    RestIs(s.table, s.lru[..n]);
    assert forall x :: x in s.lru[..n] ==> x in s.lru;
    if ok {
      var u := MakeSpace(MakeRoom(s, e.weight).0).0;
      assert e !in u.freed by { assert e !in s.table.Keys + s.freed; }
      ReplacedKeeps(u, e, s');
    }
  }

  /** An insertion fails exactly if the entries in use leave no room for it. */
  lemma {:induction false} InsertFails(s: State, e: Entry, s': State, ok: bool)
    requires Inv(s) && Insertable(s, e) && Inserted(s, e, s', ok)
    ensures !ok <==> Sum(Referenced(s.table)) + e.weight > s.maxWeight || |Referenced(s.table)| >= s.maxSize
    ensures !ok ==> s'.lru == [] && s'.table == Referenced(s.table)
  {
    var n := SpaceMade(s, e);
    var (t, roomy) := MakeRoom(s, e.weight);
    var (u, space) := MakeSpace(t);
    if !roomy {
      EvictsAll(s, t, n);
    } else {
      EvictsAll(s, u, n);
      SumSub(u.table, Referenced(u.table));
    }
  }

  // ---------- Weights that wrap around ----------

  /** What stays next to a new entry that needs no room to be made for its
      weight: all but the oldest unreferenced entry, if the cache is full, and
      an unreferenced entry with the same key. */
  ghost function Kept(s: State, e: Entry): Table
    requires LruLinked(s)
  {
    Spared(if s.curSize >= s.maxSize && s.lru != [] then s.table - {s.lru[0]} else s.table, e.key)
  }

  ghost function Spared(t: Table, k: Key): Table { map x | x in t && !(Holds(t, k, x) && t[x].refs == 0) :: t[x] }

  /** A successful insertion keeps the invariant exactly if the new total weight
      did not wrap around, or if what stays leaves room for the weight. */
  lemma {:induction false} InsertKeepsIff(s: State, e: Entry, s': State)
    requires Inv(s) && e !in s.table && e !in s.freed && e.weight < WORD && Inserted(s, e, s', true)
    ensures Inv(s') <==> s.curWeight + e.weight < WORD || Sum(Kept(s, e)) + e.weight <= s.maxWeight
  {
    if s.curWeight + e.weight < WORD {
      InsertKeeps(s, e, s', true);
    } else {
      var v := BeforePut(s, e, s');
      WrappedPut(v, e);
    }
  }

  /** The state a wrapped insertion adds its entry to. */
  lemma {:induction false} BeforePut(s: State, e: Entry, s': State) returns (v: State)
    requires Inv(s) && e !in s.table && e !in s.freed && e.weight < WORD && Inserted(s, e, s', true)
    requires s.curWeight + e.weight >= WORD
    ensures Inv(v) && s' == Put(v, e) && e !in v.table && e !in v.freed && Unheld(v.table, e.key)
    ensures v.curSize < v.maxSize && v.maxWeight == s.maxWeight && Sum(v.table) == Sum(Kept(s, e))
  {
    assert MakeRoom(s, e.weight) == (s, true);
    var u := MakeSpace(s).0;
    if s.curSize >= s.maxSize { DropFirst(s); }
    hide MakeRoom, Inv, Spared, Replaced, Holds;
    v := AfterDelete(u, e, s');
  }

  lemma {:induction false} AfterDelete(u: State, e: Entry, s': State) returns (v: State)
    requires Inv(u) && e !in u.table && e !in u.freed && u.curSize < u.maxSize && Replaced(u, e, s')
    ensures Inv(v) && s' == Put(v, e) && e !in v.table && e !in v.freed && Unheld(v.table, e.key)
    ensures v.curSize < v.maxSize && v.maxWeight == u.maxWeight && Sum(v.table) == Sum(Spared(u.table, e.key))
  {
    if Unheld(u.table, e.key) && s' == Put(u, e) {
      v := u;
      assert Spared(u.table, e.key).Keys == u.table.Keys;
    } else {
      var d :| d in u.table && Holds(u.table, e.key, d) && s' == Put(Delete(u, d), e);
      v := Delete(u, d);
      DeleteKeeps(u, d);
      DeleteLess(u, d);
      DeleteHolds(u, d);
      OnlyOne(u, d);
      DeleteSpares(u, d);
    }
    hide Inv, Put;
    SameWeights(v.table, Spared(u.table, e.key));
  }

  lemma {:induction false} DeleteSpares(u: State, d: Entry)
    requires Inv(u) && d in u.table && !u.table[d].pending
    ensures Delete(u, d).table.Keys == Spared(u.table, u.table[d].key).Keys
    ensures forall x :: x in Delete(u, d).table ==> Delete(u, d).table[x].weight == u.table[x].weight
  {
    OnlyOne(u, d);
    hide Inv;
  }

  lemma {:induction false} SameWeights(t: Table, u: Table)
    requires t.Keys == u.Keys && forall x :: x in t ==> t[x].weight == u[x].weight
    ensures Sum(t) == Sum(u)
    decreases |t|
  {
    if t != map[] {
      var x :| x in t;
      SumWithout(t, x);
      SumWithout(u, x);
      SizeWithout(t, x);
      hide Sum;
      SameWeights(t - {x}, u - {x});
    } else {
      assert u == map[];
    }
  }

  lemma {:induction false} WrappedPut(v: State, e: Entry)
    requires Inv(v) && e !in v.table && e !in v.freed && Unheld(v.table, e.key) && v.curSize < v.maxSize
    ensures Inv(Put(v, e)) <==> Sum(v.table) + e.weight <= v.maxWeight
  {
    SumWith(v.table, e, Record(e.key, e.weight, 1, false));
    assert v.table - {e} == v.table;
    if v.curWeight + e.weight <= v.maxWeight { PutKeeps(v, e); }
  }

  /** Beside an entry in use that weighs all there is room for, one more of
      weight 1 is accepted, and the total is 0. */
  lemma {:induction false} WrappedInsert(d: Entry, e: Entry, freed: set<Entry>)
    requires d != e && d.key != e.key && d.weight == WORD - 1 && e.weight == 1 && d !in freed && e !in freed
    ensures var s := State(map[d := Record(d.key, d.weight, 1, false)], [], freed, 2, WORD - 1, 1, WORD - 1, 0, 0, 1,
            0);
            var s' := Put(s, e);
            Inv(s) && Inserted(s, e, s', true) && s'.curWeight == 0 && !Inv(s')
  {
    var x := Record(d.key, d.weight, 1, false);
    var s := State(map[d := x], [], freed, 2, WORD - 1, 1, WORD - 1, 0, 0, 1, 0);
    var none: Table := map[];
    SumWith(none, d, x);
    assert none[d := x] == s.table && none - {d} == none;
    assert Inv(s);
    assert Unheld(s.table, e.key) && Inserted(s, e, Put(s, e), true);
    WrappedPut(s, e);
  }
}
