/** The stx cache of lrucache.c: hash chains whose entries point back at the
    place they are linked from, and the LRU list. */
module LruCache {
  import opened Wrappers

  import opened CacheModel
  import CacheRuns

  /** A hash table of chains. */
  class HashTable {
    const hash: Key -> nat
    const table: array<Entry?>
    ghost var chains: seq<seq<Entry>>
    ghost var members: set<Entry>

    constructor (size: nat, hash: Key -> nat)
      requires size > 0
      ensures Valid() && fresh(table) && table.Length == size && this.hash == hash && members == {}
    {
      this.hash := hash;
      table := new Entry?[size](_ => null);
      chains := seq(size, _ => []);
      members := {};
    }

    function BucketOf(k: Key): (b: nat)
      requires table.Length > 0
      ensures b < table.Length
    {
      hash(k) % table.Length
    }

    /** What the slot before position `j` of a chain holds, and where that slot is. */
    ghost function At(c: seq<Entry>, j: nat): Entry? { if j < |c| then c[j] else null }

    ghost function SlotOf(b: nat, c: seq<Entry>, j: nat): Slot
      requires j <= |c|
    {
      if j == 0 then Bucket(b) else NextOf(c[j - 1])
    }

    ghost predicate LinkAt(b: nat, c: seq<Entry>, j: nat)
      requires j < |c|
      reads c`next, c`pthis
    {
      c[j].next == At(c, j + 1) && c[j].pthis == SlotOf(b, c, j)
    }

    /** The chain of a bucket: every link, and every link back. */
    ghost predicate Linked(b: nat, c: seq<Entry>)
      requires b < table.Length
      reads table, c`next, c`pthis
    {
      && table[b] == At(c, 0)
      && (forall j {:trigger LinkAt(b, c, j)} :: 0 <= j < |c| ==> LinkAt(b, c, j))
    }

    ghost predicate InBucket(b: nat, c: seq<Entry>)
      requires b < table.Length
    {
      Distinct(c) && forall e :: e in c ==> BucketOf(e.key) == b
    }

    ghost predicate Valid()
      reads this, table, members`next, members`pthis
    {
      && table.Length > 0 && |chains| == table.Length
      && (forall b :: 0 <= b < |chains| ==> InBucket(b, chains[b]))
      && (forall b, e :: 0 <= b < |chains| && e in chains[b] ==> e in members)
      && (forall e :: e in members ==> e in chains[BucketOf(e.key)])
      && (forall b :: 0 <= b < |chains| ==> Linked(b, chains[b]))
    }

    /** `*slot = v` */
    method Store(slot: Slot, v: Entry?)
      requires (slot.Bucket? ==> slot.i < table.Length) && !slot.Nowhere?
      modifies table, Holder(slot)`next
      ensures slot.Bucket?
              ==> table[slot.i] == v && forall b :: 0 <= b < table.Length && b != slot.i ==> table[b] == old(table[b])
      ensures slot.NextOf? ==> slot.e.next == v && table[..] == old(table[..])
    {
      match slot
      case Bucket(i) => table[i] := v;
      case NextOf(e) => e.next := v;
    }

    static ghost function Holder(slot: Slot): set<Entry> { if slot.NextOf? then {slot.e} else {} }

    ghost function Cut(c: seq<Entry>, j: nat): seq<Entry>
      requires j < |c|
    {
      c[..j] + c[j + 1..]
    }

    /** The pointers around position `j` of a chain are moved past it. */
    method Splice(e: Entry, ghost b: nat, ghost c: seq<Entry>, ghost j: nat)
      requires b < table.Length && Linked(b, c) && Distinct(c) && j < |c| && c[j] == e
      modifies table, (set x | x in c)`next, (set x | x in c)`pthis
      ensures Linked(b, Cut(c, j))
      ensures forall i :: 0 <= i < table.Length && i != b ==> table[i] == old(table[i])
      ensures e.next == old(e.next)
    {
      ghost var d := Cut(c, j);
      assert LinkAt(b, c, j) && (j > 0 ==> LinkAt(b, c, j - 1)) && (j + 1 < |c| ==> LinkAt(b, c, j + 1));
      Store(e.pthis, e.next);
      if e.next != null {
        e.next.pthis := e.pthis;
      }
      forall k | 0 <= k < |d| ensures LinkAt(b, d, k) {
        assert old(LinkAt(b, c, if k < j then k else k + 1));
      }
    }

    lemma {:induction false} KnownLinked(e: Entry)
      requires Valid()
      ensures e in members ==> e.pthis != Nowhere
    {
      if e in members {
        var c := chains[BucketOf(e.key)];
        var j :| 0 <= j < |c| && c[j] == e;
        assert Linked(BucketOf(e.key), c);
        assert LinkAt(BucketOf(e.key), c, j);
      }
    }

    /** Takes an entry out of its chain. */
    method Unlink(e: Entry)
      requires Valid() && e in members
      modifies table, members`next, members`pthis, this`chains, this`members
      ensures Valid() && members == old(members) - {e} && e.next == old(e.next)
      ensures chains == old(chains)[BucketOf(e.key) := Without(old(chains[BucketOf(e.key)]), e)]
    {
      ghost var b := BucketOf(e.key);
      ghost var c := chains[b];
      ghost var j :| 0 <= j < |c| && c[j] == e;
      hide Without, LinkAt, Distinct;
      assert forall x :: x in c ==> x in members;
      assert forall i :: 0 <= i < |chains| && i != b ==> forall x :: x in chains[i] ==> BucketOf(x.key) != b;
      Splice(e, b, c, j);
      WithoutIsCut(c, j);
      assert Cut(c, j) == Without(c, e);
      DistinctWithout(c, e);
      chains := chains[b := Without(c, e)];
      members := members - {e};
    }

    /** Puts a new entry at the front of its chain. */
    method Link(e: Entry)
      requires Valid() && e !in members
      modifies table, members`next, members`pthis, this`chains, this`members, e`next, e`pthis
      ensures Valid() && members == old(members) + {e} && e.pthis != Nowhere
    {
      var b := BucketOf(e.key);
      ghost var c := chains[b];
      assert forall x :: x in c ==> x in members;
      assert forall i :: 0 <= i < |chains| && i != b ==> forall x :: x in chains[i] ==> BucketOf(x.key) != b;
      LinkFront(e, b, c);
      chains := chains[b := [e] + c];
      members := members + {e};
    }

    method LinkFront(e: Entry, b: nat, ghost c: seq<Entry>)
      requires b < table.Length && Linked(b, c) && Distinct(c) && e !in c
      modifies table, (set x | x in c)`pthis, e`next, e`pthis
      ensures Linked(b, [e] + c) && e.pthis != Nowhere
      ensures forall i :: 0 <= i < table.Length && i != b ==> table[i] == old(table[i])
    {
      assert |c| > 0 ==> LinkAt(b, c, 0);
      e.next := table[b];
      table[b] := e;
      e.pthis := Bucket(b);
      if e.next != null {
        e.next.pthis := NextOf(e);
      }
      ghost var d := [e] + c;
      forall k | 0 <= k < |d| ensures LinkAt(b, d, k) {
        if k > 0 { assert old(LinkAt(b, c, k - 1)); }
      }
    }

    /** The live entry with a key, if there is one. */
    method Find(k: Key) returns (e: Entry?)
      requires Valid()
      ensures e != null ==> e in members && !e.deletePending && e.key == k
      ensures e == null ==> forall x :: x in members ==> x.deletePending || x.key != k
    {
      ghost var c := chains[BucketOf(k)];
      e := table[BucketOf(k)];
      assert Linked(BucketOf(k), c);
      ghost var j := 0;
      while e != null
        invariant 0 <= j <= |c| && e == At(c, j)
        invariant forall i :: 0 <= i < j ==> c[i].deletePending || c[i].key != k
        decreases |c| - j
      {
        if !e.deletePending && e.key == k {
          return;
        }
        assert LinkAt(BucketOf(k), c, j);
        e := e.next;
        j := j + 1;
      }
    }
  }

  class Cache {
    const ht: HashTable
    const maxSize: nat
    const maxWeight: nat
    var lru: seq<Entry>
    var curSize: int
    var curWeight: int
    var hits: nat
    var lookups: nat
    var inserts: nat
    var deletes: nat
    ghost var freed: set<Entry>

    constructor (maxSize: nat, maxWeight: nat, hashSize: nat, hash: Key -> nat)
      requires hashSize > 0
      ensures ht.Valid() && fresh(ht) && fresh(ht.table)
      ensures View() == State(map[], [], {}, maxSize, maxWeight, 0, 0, 0, 0, 0, 0)
    {
      ht := new HashTable(hashSize, hash);
      this.maxSize, this.maxWeight := maxSize, maxWeight;
      lru, curSize, curWeight, hits, lookups, inserts, deletes, freed := [], 0, 0, 0, 0, 0, 0, {};
    }

    ghost function Linked(): map<Entry, Record>
      reads ht, ht.members`refCount, ht.members`deletePending
    {
      map e | e in ht.members :: Record(e.key, e.weight, e.refCount, e.deletePending)
    }

    ghost function View(): State
      reads this, ht, ht.members`refCount, ht.members`deletePending
    {
      State(Linked(), lru, freed, maxSize, maxWeight, curSize, curWeight, hits, lookups, inserts, deletes)
    }

    /** An entry that is linked, or one that has not been inserted. */
    ghost predicate Known(e: Entry)
      reads ht, e
    {
      e in ht.members || (e.pthis == Nowhere && e.refCount == 0)
    }

    method MarkPending(e: Entry)
      requires ht.Valid()
      modifies e`deletePending
      ensures ht.Valid() && e.deletePending
      ensures e in ht.members
              ==> View() == old(View()).(table := old(Linked())[e := old(Linked())[e].(pending := true)])
      ensures e !in ht.members ==> View() == old(View())
    {
      e.deletePending := true;
      ghost var t := old(Linked());
      assert e in ht.members ==> Linked() == t[e := t[e].(pending := true)];
      assert e !in ht.members ==> Linked() == t;
    }

    method Uncount(e: Entry)
      modifies this`curSize, this`curWeight, this`deletes, this`lru
      ensures curSize == old(curSize) - 1 && curWeight == Word(old(curWeight) - e.weight)
      ensures deletes == old(deletes) + 1 && lru == Without(old(lru), e)
    {
      curSize := curSize - 1;
      curWeight := Word(curWeight - e.weight);
      deletes := deletes + 1;
      lru := Without(lru, e);
    }

    /** Takes an entry out of the table and off the LRU list. */
    method Discard(e: Entry)
      requires ht.Valid() && e in ht.members
      modifies this`curSize, this`curWeight, this`deletes, this`lru
      modifies ht, ht.table, ht.members`next, ht.members`pthis
      ensures ht.Valid() && View() == Drop(old(View()), e).(freed := freed)
      ensures ht.chains == old(ht.chains)[ht.BucketOf(e.key) := Without(old(ht.chains)[ht.BucketOf(e.key)], e)]
      ensures ht.members == old(ht.members) - {e}
    {
      hide ht.Valid;
      ghost var t := Linked();
      ht.Unlink(e);
      assert Linked() == t - {e};
      Uncount(e);
    }

    /** Gives the memory of an entry back. */
    method Free(e: Entry)
      requires ht.Valid() && e !in ht.members
      modifies e`pthis, this`freed
      ensures ht.Valid() && View() == old(View()).(freed := old(freed) + {e})
    {
      e.pthis := Nowhere;
      freed := freed + {e};
      assert Linked() == old(Linked());
    }

    method EntryDelete(e: Entry)
      requires ht.Valid() && Known(e)
      modifies this, ht, ht.table, ht.members, e
      ensures ht.Valid() && View() == Delete(old(View()), e)
      ensures old(e in ht.members && e.refCount == 0) ==>
                ht.chains == old(ht.chains)[ht.BucketOf(e.key) := Without(old(ht.chains)[ht.BucketOf(e.key)], e)]
      ensures old(e in ht.members && e.refCount > 0) ==> ht.chains == old(ht.chains)
      ensures ht.members == if old(e in ht.members && e.refCount == 0) then old(ht.members) - {e} else old(ht.members)
    {
      hide ht.Valid, Without, Word;
      ghost var t := Linked();
      ht.KnownLinked(e);
      MarkPending(e);
      if e.refCount > 0 {
        return;
      }
      if e.pthis != Nowhere {
        Discard(e);
        assert Linked() == t - {e};
      }
      Free(e);
    }

    /** Looks for a live entry and takes a reference to it. */
    method EntryLookup(key: Key) returns (entry: Entry?)
      requires ht.Valid()
      modifies this, ht.members`refCount
      ensures ht.Valid() && ht.members == old(ht.members)
      ensures entry == null ==> Unheld(old(Linked()), key) && View() == Missed(old(View()))
      ensures entry != null ==> Holds(old(Linked()), key, entry) && View() == Acquire(old(View()), entry)
    {
      hide ht.Valid;
      entry := FindLinked(key);
      lookups := lookups + 1;
      hide Holds, Unheld;
      if entry != null {
        TakeReference(entry);
      }
    }

    method SetRefs(e: Entry, n: nat)
      requires ht.Valid() && e in ht.members
      modifies e`refCount
      ensures ht.Valid() && Linked() == old(Linked())[e := old(Linked())[e].(refs := n)]
      ensures e.refCount == n
    {
      hide ht.Valid;
      ghost var t := Linked();
      e.refCount := n;
      assert Linked() == t[e := t[e].(refs := n)];
    }

    method FindLinked(key: Key) returns (entry: Entry?)
      requires ht.Valid()
      ensures entry == null ==> Unheld(Linked(), key)
      ensures entry != null ==> entry in ht.members && Holds(Linked(), key, entry)
    {
      entry := ht.Find(key);
    }

    method TakeReference(e: Entry)
      requires ht.Valid() && e in ht.members
      modifies this`hits, this`lru, e`refCount
      ensures ht.Valid() && View() == Acquire(old(View()), e).(lookups := lookups)
    {
      hide ht.Valid;
      hits := hits + 1;
      if e.refCount == 0 {
        lru := Without(lru, e);
      }
      SetRefs(e, e.refCount + 1);
    }

    method EntryRelease(e: Entry)
      requires ht.Valid() && Known(e)
      modifies this, ht, ht.table, ht.members, e
      ensures ht.Valid() && View() == Release(old(View()), e)
    {
      hide ht.Valid;
      ht.KnownLinked(e);
      if e.refCount == 0 {
        return;
      }
      SetRefs(e, e.refCount - 1);
      if e.refCount == 0 {
        lru := lru + [e];
        if e.deletePending {
          EntryDelete(e);
        }
      }
    }

    method GetLru() returns (e: Entry?)
      ensures e == if lru == [] then null else lru[0]
    {
      if lru == [] {
        return null;
      }
      e := lru[0];
    }

    /** Deletes the least recently released entry. */
    method EvictFirst()
      requires ht.Valid() && Inv(View()) && lru != []
      modifies this, ht, ht.table, ht.members
      ensures ht.Valid() && Inv(View()) && ht.members <= old(ht.members) && |ht.members| < old(|ht.members|)
      ensures old(lru[0] in ht.members) && View() == Drop(old(View()), old(lru[0]))
    {
      hide ht.Valid, Without, Word;
      var first := GetLru();
      DropFirst(View());
      ListedUnused(View());
      Fewer(ht.members, first);
      hide Inv;
      hide Drop;
      EntryDelete(first);
    }

    /** The eviction loop. */
    method EvictWeight(weight: nat) returns (ok: bool)
      requires ht.Valid() && Inv(View())
      modifies this, ht, ht.table, ht.members
      ensures ht.Valid() && Inv(View()) && ht.members <= old(ht.members)
      ensures (View(), ok) == MakeRoom(old(View()), weight)
    {
      hide ht.Valid;
      ghost var s := View();
      InvListed(s);
      hide Inv;
      while Word(curWeight + weight) > maxWeight
        invariant ht.Valid() && Inv(View()) && LruLinked(View()) && ht.members <= old(ht.members)
        invariant MakeRoom(View(), weight) == MakeRoom(s, weight)
        decreases |ht.members|
      {
        if lru == [] {
          return false;
        }
        EvictFirst();
        InvListed(View());
      }
      ok := true;
    }

    /** Links a new entry, referenced by the caller. */
    method Attach(e: Entry)
      requires ht.Valid() && e !in ht.members && e.refCount == 0 && !e.deletePending
      modifies this, ht, ht.table, ht.members, e
      ensures ht.Valid() && View() == Put(old(View()), e)
    {
      hide ht.Valid;
      ghost var t := Linked();
      ht.Link(e);
      e.refCount := e.refCount + 1;
      assert Linked() == t[e := Record(e.key, e.weight, 1, false)];
      inserts := inserts + 1;
      curSize := curSize + 1;
      curWeight := Word(curWeight + e.weight);
    }

    /** One more goes if the cache is full. */
    method EvictSize() returns (ok: bool)
      requires ht.Valid() && Inv(View())
      modifies this, ht, ht.table, ht.members
      ensures ht.Valid() && Inv(View()) && ht.members <= old(ht.members)
      ensures LruLinked(old(View())) && (View(), ok) == MakeSpace(old(View()))
    {
      hide ht.Valid;
      InvListed(View());
      hide Inv;
      if curSize >= maxSize {
        if lru == [] {
          return false;
        }
        EvictFirst();
      }
      ok := true;
    }

    /** Deletes a live entry with the same key and links the new one. */
    method ReplaceWith(e: Entry)
      requires ht.Valid() && e !in ht.members && e.refCount == 0 && !e.deletePending
      modifies this, ht, ht.table, ht.members, e
      ensures ht.Valid() && Replaced(old(View()), e, View())
    {
      hide ht.Valid;
      var dup := FindLinked(e.key);
      if dup != null {
        EntryDelete(dup);
      }
      Attach(e);
    }

    method EntryInsert(e: Entry) returns (ok: bool)
      requires ht.Valid() && Inv(View())
      requires e !in ht.members && e.refCount == 0 && !e.deletePending
      modifies this, ht, ht.table, ht.members, e
      ensures ht.Valid() && LruLinked(old(View())) && Inserted(old(View()), e, View(), ok)
    {
      hide ht.Valid;
      InvListed(View());
      hide Inv;
      ok := EvictWeight(e.weight);
      if !ok {
        return;
      }
      ok := EvictSize();
      if !ok {
        return;
      }
      ReplaceWith(e);
    }

    /** Deletes every entry of a chain, those in use later. `es` grows by the chain. */
    method EmptyChain(i: nat, ghost s: State, ghost before: seq<Entry>) returns (ghost es: seq<Entry>)
      requires ht.Valid() && i < |ht.chains| && View() == CacheRuns.DeleteAll(s, before)
      modifies this, ht, ht.table, ht.members
      ensures ht.Valid() && ht.members <= old(ht.members) && es == before + old(ht.chains[i])
      ensures View() == CacheRuns.DeleteAll(s, es)
      ensures |ht.chains| == |old(ht.chains)|
              && forall b :: 0 <= b < |ht.chains| && b != i ==> ht.chains[b] == old(ht.chains[b])
    {
      hide *;
      es := before;
      ghost var kept, rest := [], ht.chains[i];
      var entry := FirstOnChain(i);
      assert kept + rest == ht.chains[i];
      while entry != null
        invariant ht.Valid() && ht.members <= old(ht.members)
        invariant i < |ht.chains| == |old(ht.chains)|
                  && forall b :: 0 <= b < |ht.chains| && b != i ==> ht.chains[b] == old(ht.chains[b])
        invariant ht.chains[i] == kept + rest && es + rest == before + old(ht.chains[i])
        invariant View() == CacheRuns.DeleteAll(s, es)
        invariant entry == if rest == [] then null else rest[0]
        decreases |rest|
      {
        kept, entry := EmptyOne(entry, i, s, es, kept, rest);
        es, rest := es + [rest[0]], rest[1..];
      }
    }

    method EmptyOne(entry: Entry, ghost i: nat, ghost s: State, ghost es: seq<Entry>, ghost kept: seq<Entry>,
        ghost rest: seq<Entry>)
      returns (ghost kept': seq<Entry>, next: Entry?)
      requires ht.Valid() && i < |ht.chains| && ht.chains[i] == kept + rest && rest != [] && entry == rest[0]
      requires View() == CacheRuns.DeleteAll(s, es)
      modifies this, ht, ht.table, ht.members
      ensures ht.Valid() && ht.members <= old(ht.members) && View() == CacheRuns.DeleteAll(s, es + [entry])
      ensures |ht.chains| == |old(ht.chains)|
              && forall b :: 0 <= b < |ht.chains| && b != i ==> ht.chains[b] == old(ht.chains[b])
      ensures ht.chains[i] == kept' + rest[1..] && next == if |rest| == 1 then null else rest[1]
    {
      hide *;
      next := NextOnChain(entry, i, kept, rest);
      kept' := DeleteOnChain(entry, i, kept, rest);
      DeleteAllMore(s, es, entry);
    }

    method FirstOnChain(i: nat) returns (entry: Entry?)
      requires ht.Valid() && i < |ht.chains|
      ensures entry == if ht.chains[i] == [] then null else ht.chains[i][0]
    {
      entry := ht.table[i];
      assert ht.Linked(i, ht.chains[i]);
    }

    method NextOnChain(entry: Entry, ghost i: nat, ghost kept: seq<Entry>, ghost rest: seq<Entry>)
        returns (next: Entry?)
      requires ht.Valid() && i < |ht.chains| && ht.chains[i] == kept + rest && rest != [] && entry == rest[0]
      ensures next == if |rest| == 1 then null else rest[1]
    {
      assert ht.Linked(i, ht.chains[i]);
      assert ht.LinkAt(i, ht.chains[i], |kept|);
      next := entry.next;
    }

    method DeleteOnChain(entry: Entry, ghost i: nat, ghost kept: seq<Entry>, ghost rest: seq<Entry>)
        returns (ghost kept': seq<Entry>)
      requires ht.Valid() && i < |ht.chains| && ht.chains[i] == kept + rest && rest != [] && entry == rest[0]
      modifies this, ht, ht.table, ht.members
      ensures ht.Valid() && ht.members <= old(ht.members) && View() == Delete(old(View()), entry)
      ensures |ht.chains| == |old(ht.chains)|
              && forall b :: 0 <= b < |ht.chains| && b != i ==> ht.chains[b] == old(ht.chains[b])
      ensures ht.chains[i] == kept' + rest[1..]
    {
      OnChain(ht, i, kept, rest);
      hide ht.Valid, Without, Delete;
      kept' := if entry.refCount > 0 then kept + [entry] else kept;
      EntryDelete(entry);
    }

    /** stx_cache_empty: `es` are the entries it goes through. */
    method Empty() returns (ghost es: seq<Entry>)
      requires ht.Valid()
      modifies this, ht, ht.table, ht.members
      ensures ht.Valid() && CacheRuns.ListsAll(old(View()), es) && View() == CacheRuns.DeleteAll(old(View()), es)
    {
      ghost var s, cs := View(), ht.chains;
      ChainsList(ht);
      es := [];
      for i := 0 to ht.table.Length
        invariant ht.Valid() && ht.members <= old(ht.members)
        invariant |ht.chains| == |cs| && forall b :: i <= b < |cs| ==> ht.chains[b] == cs[b]
        invariant es == Concat(cs[..i]) && View() == CacheRuns.DeleteAll(s, es)
      {
        es := EmptyChain(i, s, es);
        assert cs[..i + 1][..i] == cs[..i];
      }
      assert cs[..|cs|] == cs;
    }
  }

  /** All chains one after the other. */
  ghost function Concat(cs: seq<seq<Entry>>): seq<Entry> {
    if cs == [] then [] else Concat(cs[..|cs| - 1]) + cs[|cs| - 1]
  }

  lemma {:induction false} DeleteAllMore(s: State, es: seq<Entry>, e: Entry)
    ensures CacheRuns.DeleteAll(s, es + [e]) == Delete(CacheRuns.DeleteAll(s, es), e)
    decreases |es|
  {
    if es != [] {
      assert (es + [e])[1..] == es[1..] + [e];
      DeleteAllMore(Delete(s, es[0]), es[1..], e);
    }
  }

  lemma {:induction false} ConcatHas(cs: seq<seq<Entry>>)
    ensures forall b, e :: 0 <= b < |cs| && e in cs[b] ==> e in Concat(cs)
    ensures forall e :: e in Concat(cs) ==> exists b :: 0 <= b < |cs| && e in cs[b]
  {
    if cs != [] {
      var n := |cs| - 1;
      ConcatHas(cs[..n]);
      forall b, e | 0 <= b < |cs| && e in cs[b] ensures e in Concat(cs) {
        if b < n { assert e in cs[..n][b]; }
      }
      forall e | e in Concat(cs) ensures exists b :: 0 <= b < |cs| && e in cs[b] {
        if e !in cs[n] {
          var b :| 0 <= b < n && e in cs[..n][b];
          assert e in cs[b];
        }
      }
    }
  }

  lemma {:induction false} ConcatIs(cs: seq<seq<Entry>>)
    requires forall b :: 0 <= b < |cs| ==> Distinct(cs[b])
    requires forall b, d, e :: 0 <= b < d < |cs| && e in cs[b] ==> e !in cs[d]
    ensures Distinct(Concat(cs))
  {
    if cs != [] {
      var n := |cs| - 1;
      ConcatIs(cs[..n]);
      ConcatHas(cs[..n]);
      var front := Concat(cs[..n]);
      forall e | e in front ensures e !in cs[n] { var b :| 0 <= b < n && e in cs[..n][b]; assert e in cs[b]; }
      DistinctJoin(front, cs[n]);
    }
  }

  lemma {:induction false} DistinctJoin(p: seq<Entry>, q: seq<Entry>)
    requires Distinct(p) && Distinct(q) && forall e :: e in p ==> e !in q
    ensures Distinct(p + q)
  {
    assert forall i :: 0 <= i < |p| ==> p[i] in p;
    assert forall i :: 0 <= i < |q| ==> q[i] in q;
  }

  /** The chains hold each member once. */
  lemma {:induction false} ChainsList(ht: HashTable)
    requires ht.Valid()
    ensures Distinct(Concat(ht.chains))
    ensures (forall e :: e in ht.members ==> e in Concat(ht.chains))
            && (forall e :: e in Concat(ht.chains) ==> e in ht.members)
  {
    assert forall b :: 0 <= b < |ht.chains| ==> ht.InBucket(b, ht.chains[b]);
    ConcatIs(ht.chains);
    ConcatHas(ht.chains);
  }

  /** An entry of a chain, and the chain without it. */
  lemma {:induction false} OnChain(ht: HashTable, i: nat, kept: seq<Entry>, rest: seq<Entry>)
    requires ht.Valid() && i < |ht.chains| && ht.chains[i] == kept + rest && rest != []
    ensures rest[0] in ht.members && ht.BucketOf(rest[0].key) == i
    ensures Without(ht.chains[i], rest[0]) == kept + rest[1..] && kept + rest == kept + [rest[0]] + rest[1..]
  {
    var c := ht.chains[i];
    assert c[|kept|] == rest[0];
    assert rest[0] in c && ht.InBucket(i, c);
    WithoutIsCut(c, |kept|);
    CutIs(kept, rest);
  }

  lemma {:induction false} CutIs(kept: seq<Entry>, rest: seq<Entry>)
    requires rest != []
    ensures var c := kept + rest; c[..|kept|] + c[|kept| + 1..] == kept + rest[1..]
    ensures kept + rest == kept + [rest[0]] + rest[1..]
  {
  }

  lemma {:induction false} InvListed(s: State)
    requires Inv(s)
    ensures LruLinked(s)
  {
  }

  lemma {:induction false} Fewer(s: set<Entry>, e: Entry)
    ensures e in s ==> |s - {e}| < |s|
  {
  }

  lemma {:induction false} ListedUnused(s: State)
    requires Inv(s)
    ensures forall e :: e in s.lru ==> e in s.table && s.table[e].refs == 0
  {
  }

  lemma {:induction false} WithoutIsCut(c: seq<Entry>, j: nat)
    requires j < |c| && Distinct(c)
    ensures Without(c, c[j]) == c[..j] + c[j + 1..]
  {
    if j == 0 {
      assert c[0] !in c[1..];
      WithoutOther(c[1..], c[0]);
    } else {
      WithoutIsCut(c[1..], j - 1);
      assert c[..j] == [c[0]] + c[1..][..j - 1];
    }
  }
}
