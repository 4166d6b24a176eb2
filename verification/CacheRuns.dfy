/** The stx cache over any legal sequence of calls. */
module CacheRuns {
  import opened CacheModel
  import opened Wrappers

  datatype Op = OpLookup(key: Key, found: Option<Entry>) | OpRelease(e: Entry) | OpDelete(e: Entry)
              | OpInsert(e: Entry, ok: bool) | OpEmpty(es: seq<Entry>)

  /** Entries are used only until they are freed; insertions get new ones. */
  ghost predicate Legal(s: State, op: Op) {
    match op
    case OpRelease(e) => e !in s.freed
    case OpDelete(e) => e !in s.freed
    case OpInsert(e, _) => Insertable(s, e)
    case _ => true
  }

  function DeleteAll(s: State, es: seq<Entry>): State
    decreases |es|
  {
    if es == [] then s else DeleteAll(Delete(s, es[0]), es[1..])
  }

  /** Every entry of the table, once. */
  ghost predicate ListsAll(s: State, es: seq<Entry>) {
    Distinct(es) && (forall e :: e in es ==> e in s.table) && (forall e :: e in s.table ==> e in es)
  }

  ghost predicate Next(s: State, op: Op, s': State) {
    match op
    case OpLookup(k, None) => Unheld(s.table, k) && s' == Missed(s)
    case OpLookup(k, Some(e)) => Holds(s.table, k, e) && s' == Acquire(s, e)
    case OpRelease(e) => s' == Release(s, e)
    case OpDelete(e) => s' == Delete(s, e)
    case OpInsert(e, ok) => LruLinked(s) && Inserted(s, e, s', ok)
    case OpEmpty(es) => ListsAll(s, es) && s' == DeleteAll(s, es)
  }

  lemma {:induction false} DeleteAllKeeps(s: State, es: seq<Entry>)
    requires Inv(s) && Distinct(es) && forall e :: e in es ==> e in s.table
    ensures Inv(DeleteAll(s, es))
    decreases |es|
  {
    if es != [] {
      DeleteKeeps(s, es[0]);
      assert forall e :: e in es[1..] ==> e in es && e != es[0];
      DeleteAllKeeps(Delete(s, es[0]), es[1..]);
    }
  }

  /** Every legal call keeps the invariant. */
  lemma {:induction false} NextKeeps(s: State, op: Op, s': State)
    requires Inv(s) && Legal(s, op) && Next(s, op, s')
    ensures Inv(s')
  {
    match op
    case OpLookup(k, None) =>
    case OpLookup(k, Some(e)) => AcquireKeeps(s, e);
    case OpRelease(e) => ReleaseKeeps(s, e);
    case OpDelete(e) => DeleteKeeps(s, e);
    case OpInsert(e, ok) => InsertKeeps(s, e, s', ok);
    case OpEmpty(es) => DeleteAllKeeps(s, es);
  }

  // ---------- What emptying does ----------

  lemma {:induction false} DeleteAllLeaves(s: State, es: seq<Entry>)
    requires Distinct(es) && forall e :: e in es ==> e in s.table
    ensures var r := DeleteAll(s, es);
            && r.table.Keys <= s.table.Keys
            && (forall e :: e in s.table && e !in es ==> e in r.table && r.table[e] == s.table[e])
            && (forall e :: e in es ==> (e in r.table <==> s.table[e].refs > 0))
            && (forall e :: e in r.table && e in es ==> r.table[e] == s.table[e].(pending := true))
    decreases |es|
  {
    if es != [] {
      assert forall e :: e in es[1..] ==> e in es && e != es[0];
      DeleteAllLeaves(Delete(s, es[0]), es[1..]);
    }
  }

  lemma {:induction false} FirstListed(t: Table, lru: seq<Entry>)
    requires Lists(t, lru)
    ensures lru == [] || (lru[0] in t && t[lru[0]].refs == 0)
  {
    assert lru == [] || lru[0] in lru;
  }

  /** Emptying leaves the referenced entries, each to be deleted on its last release. */
  lemma {:induction false} EmptyLeaves(s: State, es: seq<Entry>)
    requires Inv(s) && ListsAll(s, es)
    ensures var r := DeleteAll(s, es);
            && r.lru == [] && r.table.Keys == Referenced(s.table).Keys
            && (forall e :: e in r.table ==> r.table[e] == s.table[e].(pending := true))
            && (forall k :: Unheld(r.table, k))
  {
    DeleteAllLeaves(s, es);
    DeleteAllKeeps(s, es);
    var r := DeleteAll(s, es);
    FirstListed(r.table, r.lru);
  }

  // ---------- The map ----------

  /** What each call does to what a lookup would find. */
  lemma {:induction false} MapStep(s: State, op: Op, s': State, k: Key, x: Entry)
    requires Inv(s) && Legal(s, op) && Next(s, op, s') && (op.OpLookup? || op.OpRelease? || op.OpDelete? || op.OpEmpty?)
    ensures Holds(s'.table, k, x) <==> Holds(s.table, k, x) && op != OpDelete(x) && !op.OpEmpty?
    ensures op.OpLookup?
            ==> (op.found == Some(x) ==> Holds(s.table, op.key, x))
                && (Holds(s.table, op.key, x) ==> op.found == Some(x))
  {
    if op.OpEmpty? {
      EmptyLeaves(s, op.es);
      assert Unheld(s'.table, k);
    } else if op.OpLookup? && op.found.Some? && x != op.found.value && x in s.table {
      assert !Holds(s.table, s.table[op.found.value].key, x);
    } else if op.OpLookup? && op.found.None? {
      assert Unheld(s.table, op.key);
    }
  }

  // ---------- What a call does to one entry ----------

  function Refs(t: Table, x: Entry): nat { if x in t then t[x].refs else 0 }

  predicate Pending(t: Table, x: Entry) { x in t && t[x].pending }

  /** Of `n` references held to `x`, the ones that are left after a call: a new
      entry is referenced by who inserts it, and who looks it up takes one more. */
  function HeldAfter(op: Op, x: Entry, n: nat): nat {
    match op
    case OpInsert(e, ok) => if ok && e == x then 1 else n
    case OpLookup(_, found) => if found == Some(x) then n + 1 else n
    case OpRelease(e) => if e == x && n > 0 then n - 1 else n
    case _ => n
  }

  /** Whether `x` is to be freed on its last release after a call. */
  predicate DoomedAfter(op: Op, x: Entry, doomed: bool) {
    match op
    case OpInsert(e, ok) => if ok && e == x then false else doomed || (ok && e.key == x.key)
    case OpDelete(e) => doomed || e == x
    case OpEmpty(_) => true
    case _ => doomed
  }

  /** What is recorded of `x` agrees with the calls so far. */
  ghost predicate Accounted(t: Table, x: Entry, held: nat, doomed: bool) {
    Refs(t, x) == held && (x in t ==> t[x].pending == doomed && t[x].key == x.key)
  }

  lemma {:induction false} AccountedStep(s: State, op: Op, s': State, x: Entry, held: nat, doomed: bool)
    requires Inv(s) && Legal(s, op) && Next(s, op, s') && Accounted(s.table, x, held, doomed)
    ensures Accounted(s'.table, x, HeldAfter(op, x, held), DoomedAfter(op, x, doomed))
    ensures held > 0 ==> (x in s'.table <==> HeldAfter(op, x, held) > 0 || !doomed)
  {
    if op.OpInsert? {
      InsertRecord(s, op.e, s', op.ok, x);
      hide Inv, Next;
    } else if op.OpEmpty? {
      DeleteAllLeaves(s, op.es);
    }
  }

  lemma {:induction false} InsertRecord(s: State, e: Entry, s': State, ok: bool, x: Entry)
    requires Inv(s) && Insertable(s, e) && Inserted(s, e, s', ok)
    ensures e !in s.table && if ok then e in s'.table && s'.table[e] == Record(e.key, e.weight, 1, false)
                             else e !in s'.table
    ensures x != e && x in s'.table ==>
              x in s.table && s'.table[x] == s.table[x].(pending := s.table[x].pending || (ok && s.table[x].key == e.key))
    ensures Refs(s.table, x) > 0 ==> x in s'.table
  {
    var n := SpaceMade(s, e);
    var (t, roomy) := MakeRoom(s, e.weight);
    var u := if roomy then MakeSpace(t).0 else t;
    EvictsAll(s, u, n);
    RestIs(s.table, s.lru[..n]);
    if x in s.table && s.table[x].refs > 0 { assert Referenced(s.table)[x] == s.table[x] && x in Referenced(u.table); }
    if ok { ReplacedRecord(u, e, s', x); }
  }

  lemma {:induction false} ReplacedRecord(u: State, e: Entry, s': State, x: Entry)
    requires Inv(u) && Replaced(u, e, s') && e !in u.table
    ensures e in s'.table && s'.table[e] == Record(e.key, e.weight, 1, false)
    ensures x != e && x in s'.table ==>
              x in u.table && s'.table[x] == u.table[x].(pending := u.table[x].pending || u.table[x].key == e.key)
    ensures Refs(u.table, x) > 0 ==> x in s'.table
  {
    if !(Unheld(u.table, e.key) && s' == Put(u, e)) {
      var d :| d in u.table && Holds(u.table, e.key, d) && s' == Put(Delete(u, d), e);
      OnlyOne(u, d);
    }
  }

  // ---------- Runs ----------

  ghost predicate IsRun(states: seq<State>, ops: seq<Op>) {
    && |states| == |ops| + 1
    && states[0].table == map[] && states[0].lru == [] && states[0].curSize == 0 && states[0].curWeight == 0
    && states[0].inserts == 0 && states[0].deletes == 0 && states[0].maxWeight < WORD
    && forall i {:trigger Next(states[i], ops[i], states[i + 1])} :: 0 <= i < |ops| ==>
         Legal(states[i], ops[i]) && Next(states[i], ops[i], states[i + 1])
  }

  lemma {:induction false} StepOf(states: seq<State>, ops: seq<Op>, i: nat)
    requires IsRun(states, ops) && i < |ops|
    ensures Legal(states[i], ops[i]) && Next(states[i], ops[i], states[i + 1])
  {
    var taken := Next(states[i], ops[i], states[i + 1]);
    assert taken;
  }

  /** The invariant holds throughout every run. */
  lemma {:induction false} RunKeeps(states: seq<State>, ops: seq<Op>, i: nat)
    requires IsRun(states, ops) && i < |states|
    ensures Inv(states[i])
  {
    if i > 0 {
      RunKeeps(states, ops, i - 1);
      StepOf(states, ops, i - 1);
      NextKeeps(states[i - 1], ops[i - 1], states[i]);
    }
  }

  // ---------- The map over a run ----------

  /** The entry last inserted for a key in the first `n` calls, if it has not
      been deleted, evicted by an insertion, or emptied away since. */
  ghost function LastInserted(states: seq<State>, ops: seq<Op>, n: nat, k: Key): Option<Entry>
    requires n <= |ops| && n < |states|
  {
    if n == 0 then None else
      var x := LastInserted(states, ops, n - 1, k);
      match ops[n - 1]
      case OpInsert(e, ok) =>
        if ok && e.key == k then Some(e)
        else if x.Some? && x.value in states[n - 1].lru && x.value !in states[n].table then None
        else x
      case OpDelete(e) => if x == Some(e) then None else x
      case OpEmpty(_) => None
      case _ => x
  }

  /** What a lookup of `k` would find is told by `x`. */
  ghost predicate Found(t: Table, k: Key, x: Option<Entry>) {
    if x.Some? then Holds(t, k, x.value) && forall y :: y in t && y != x.value ==> !Holds(t, k, y) else Unheld(t, k)
  }

  /** In any run a lookup finds exactly the entry last inserted for its key. */
  lemma {:induction false} LookupFindsLast(states: seq<State>, ops: seq<Op>, n: nat, k: Key)
    requires IsRun(states, ops) && n < |states|
    ensures Found(states[n].table, k, LastInserted(states, ops, n, k))
    ensures n < |ops| && ops[n].OpLookup? && ops[n].key == k ==> ops[n].found == LastInserted(states, ops, n, k)
  {
    if n > 0 {
      LookupFindsLast(states, ops, n - 1, k);
      StepOf(states, ops, n - 1);
      RunKeeps(states, ops, n - 1);
      var s, op, s' := states[n - 1], ops[n - 1], states[n];
      var x := LastInserted(states, ops, n - 1, k);
      hide Inv, Found;
      if op.OpInsert? {
        InsertFound(s, op.e, s', op.ok, k, x);
      } else {
        StepFound(s, op, s', k, x);
      }
    }
    if n < |ops| && ops[n].OpLookup? { LookupIs(states, ops, n, LastInserted(states, ops, n, ops[n].key)); }
  }

  lemma {:induction false} LookupIs(states: seq<State>, ops: seq<Op>, n: nat, x: Option<Entry>)
    requires IsRun(states, ops) && n < |ops| && ops[n].OpLookup?
    ensures Found(states[n].table, ops[n].key, x) ==> ops[n].found == x
  {
    StepOf(states, ops, n);
  }

  lemma {:induction false} InsertFound(s: State, e: Entry, s': State, ok: bool, k: Key, x: Option<Entry>)
    requires Inv(s) && Insertable(s, e) && Inserted(s, e, s', ok) && Found(s.table, k, x)
    ensures Found(s'.table, k, if ok && e.key == k then Some(e)
                               else if x.Some? && x.value in s.lru && x.value !in s'.table then None else x)
  {
    var n := InsertUpdates(s, e, s', ok);
    hide Inv, Insertable, Inserted;
  }

  lemma {:induction false} StepFound(s: State, op: Op, s': State, k: Key, x: Option<Entry>)
    requires Inv(s) && Legal(s, op) && Next(s, op, s') && !op.OpInsert? && Found(s.table, k, x)
    ensures Found(s'.table, k, if op.OpEmpty? || (op.OpDelete? && x == Some(op.e)) then None else x)
  {
    if x.Some? { MapStep(s, op, s', k, x.value); }
    forall y | y in s'.table
        ensures Holds(s'.table, k, y) <==> Holds(s.table, k, y) && op != OpDelete(y) && !op.OpEmpty? {
      MapStep(s, op, s', k, y);
    }
    hide Inv, Legal, Next;
  }

  // ---------- The references clients hold ----------

  /** How many references to `e` are held after `n` calls. */
  ghost function Held(ops: seq<Op>, n: nat, e: Entry): nat
    requires n <= |ops|
  {
    if n == 0 then 0 else HeldAfter(ops[n - 1], e, Held(ops, n - 1, e))
  }

  /** Whether `e`, since its insertion, has been deleted, replaced or emptied away. */
  ghost predicate Doomed(ops: seq<Op>, n: nat, e: Entry)
    requires n <= |ops|
  {
    n > 0 && DoomedAfter(ops[n - 1], e, Doomed(ops, n - 1, e))
  }

  /** In any run the count of an entry is the number of references clients hold
      to it, and an entry to which one is held is in the table. */
  lemma {:induction false} CountIsHeld(states: seq<State>, ops: seq<Op>, n: nat, e: Entry)
    requires IsRun(states, ops) && n <= |ops|
    ensures e in states[n].table ==> states[n].table[e].refs == Held(ops, n, e)
    ensures e in states[n].table ==> states[n].table[e].pending == Doomed(ops, n, e)
    ensures Held(ops, n, e) > 0 ==> e in states[n].table
  {
    AccountedAlways(states, ops, n, e);
  }

  lemma {:induction false} AccountedAlways(states: seq<State>, ops: seq<Op>, n: nat, e: Entry)
    requires IsRun(states, ops) && n <= |ops|
    ensures Accounted(states[n].table, e, Held(ops, n, e), Doomed(ops, n, e))
  {
    if n > 0 {
      AccountedAlways(states, ops, n - 1, e);
      StepOf(states, ops, n - 1);
      RunKeeps(states, ops, n - 1);
      AccountedStep(states[n - 1], ops[n - 1], states[n], e, Held(ops, n - 1, e), Doomed(ops, n - 1, e));
    }
  }

  /** While a client holds a reference to an entry no call frees it, but for the
      release of the last reference after the entry was deleted, replaced or
      emptied away. */
  lemma {:induction false} ReferencedNeverFreed(states: seq<State>, ops: seq<Op>, n: nat, e: Entry)
    requires IsRun(states, ops) && n < |ops| && Held(ops, n, e) > 0
    ensures e in states[n + 1].freed <==> ops[n] == OpRelease(e) && Held(ops, n, e) == 1 && Doomed(ops, n, e)
    ensures e in states[n + 1].table <==> e !in states[n + 1].freed
  {
    AccountedAlways(states, ops, n, e);
    StepOf(states, ops, n);
    RunKeeps(states, ops, n);
    RunKeeps(states, ops, n + 1);
    AccountedStep(states[n], ops[n], states[n + 1], e, Held(ops, n, e), Doomed(ops, n, e));
    FreedOrKept(states[n], ops[n], states[n + 1], e);
    hide Inv, Next, IsRun;
  }

  /** What leaves the table by a release is freed. */
  lemma {:induction false} FreedOrKept(s: State, op: Op, s': State, e: Entry)
    requires Inv(s') && Next(s, op, s') && e in s.table && (e in s'.table || op == OpRelease(e))
    ensures e in s'.table <==> e !in s'.freed
  {
    if e in s'.table {
      hide Next, Lists, OnePerKey, Counted;
    }
  }

  // ---------- The LRU list is in the order of releases ----------

  /** `r` is `q` without some of its entries. */
  ghost predicate SubSeq(r: seq<Entry>, q: seq<Entry>)
    decreases |q|
  {
    r == [] || (q != [] && ((r[0] == q[0] && SubSeq(r[1..], q[1..])) || SubSeq(r, q[1..])))
  }

  lemma {:induction false} SubSelf(q: seq<Entry>)
    ensures SubSeq(q, q)
  {
    if q != [] { SubSelf(q[1..]); }
  }

  lemma {:induction false} SubWithout(q: seq<Entry>, e: Entry)
    ensures SubSeq(Without(q, e), q)
  {
    if q != [] { SubWithout(q[1..], e); }
  }

  lemma {:induction false} SubSuffix(q: seq<Entry>, n: nat)
    requires n <= |q|
    ensures SubSeq(q[n..], q)
  {
    if n == 0 { SubSelf(q); assert q[0..] == q; } else { SubSuffix(q[1..], n - 1); assert q[1..][n - 1..] == q[n..]; }
  }

  lemma {:induction false} SubTrans(p: seq<Entry>, q: seq<Entry>, r: seq<Entry>)
    requires SubSeq(p, q) && SubSeq(q, r)
    ensures SubSeq(p, r)
    decreases |r|
  {
    if p != [] {
      if q[0] == r[0] && SubSeq(q[1..], r[1..]) {
        if p[0] == q[0] && SubSeq(p[1..], q[1..]) { SubTrans(p[1..], q[1..], r[1..]); }
        else { SubTrans(p, q[1..], r[1..]); }
      } else {
        SubTrans(p, q, r[1..]);
      }
    }
  }

  /** The last call so far that took `e` to zero references, counted from one. */
  ghost function LastRelease(states: seq<State>, ops: seq<Op>, n: nat, e: Entry): nat
    requires n <= |ops| && n <= |states|
  {
    if n == 0 then 0
    else if ops[n - 1] == OpRelease(e) && e in states[n - 1].table && states[n - 1].table[e].refs == 1 then n
    else LastRelease(states, ops, n - 1, e)
  }

  /** From the entry released longest ago to the one released last. */
  ghost predicate InOrder(states: seq<State>, ops: seq<Op>, n: nat, q: seq<Entry>)
    requires n <= |ops| && n <= |states|
  {
    forall i, j :: 0 <= i < j < |q| ==> LastRelease(states, ops, n, q[i]) < LastRelease(states, ops, n, q[j])
  }

  lemma {:induction false} SubInOrder(states: seq<State>, ops: seq<Op>, n: nat, r: seq<Entry>, q: seq<Entry>)
    requires n <= |ops| && n <= |states| && SubSeq(r, q) && InOrder(states, ops, n, q)
    ensures InOrder(states, ops, n, r) && forall e :: e in r ==> e in q
    decreases |q|
  {
    if r != [] {
      assert forall i :: 0 <= i < |q[1..]| ==> q[1..][i] == q[i + 1];
      if r[0] == q[0] && SubSeq(r[1..], q[1..]) {
        SubInOrder(states, ops, n, r[1..], q[1..]);
        forall j | 0 < j < |r|
            ensures LastRelease(states, ops, n, r[0]) < LastRelease(states, ops, n, r[j]) { assert r[j] in r[1..]; }
        forall i, j | 0 < i < j < |r| ensures LastRelease(states, ops, n, r[i]) < LastRelease(states, ops, n, r[j]) {
          assert r[i] == r[1..][i - 1] && r[j] == r[1..][j - 1];
        }
        assert r == [r[0]] + r[1..];
      } else {
        SubInOrder(states, ops, n, r, q[1..]);
      }
    }
  }

  lemma {:induction false} DeleteAllSub(s: State, es: seq<Entry>)
    ensures SubSeq(DeleteAll(s, es).lru, s.lru)
    decreases |es|
  {
    SubSelf(s.lru);
    if es != [] {
      SubWithout(s.lru, es[0]);
      DeleteAllSub(Delete(s, es[0]), es[1..]);
      SubTrans(DeleteAll(s, es).lru, Delete(s, es[0]).lru, s.lru);
    }
  }

  lemma {:induction false} InsertSub(s: State, e: Entry, s': State, ok: bool)
    requires Inv(s) && Insertable(s, e) && Inserted(s, e, s', ok)
    ensures SubSeq(s'.lru, s.lru)
  {
    var n := SpaceMade(s, e);
    var (t, roomy) := MakeRoom(s, e.weight);
    var u := if roomy then MakeSpace(t).0 else t;
    SubSuffix(s.lru, n);
    if ok { ReplacedSub(u, e, s'); SubTrans(s'.lru, u.lru, s.lru); }
  }

  lemma {:induction false} ReplacedSub(u: State, e: Entry, s': State)
    requires Replaced(u, e, s')
    ensures SubSeq(s'.lru, u.lru)
  {
    SubSelf(u.lru);
    if !(Unheld(u.table, e.key) && s' == Put(u, e)) {
      var d :| d in u.table && Holds(u.table, e.key, d) && s' == Put(Delete(u, d), e);
      SubWithout(u.lru, d);
    }
  }

  /** A call appends the entry it releases, or leaves the rest of the list in order. */
  lemma {:induction false} LruStep(s: State, op: Op, s': State)
    requires Inv(s) && Legal(s, op) && Next(s, op, s')
    ensures SubSeq(s'.lru, s.lru)
            || (op.OpRelease? && op.e in s.table && s.table[op.e].refs == 1 && op.e !in s.lru
                && s'.lru == s.lru + [op.e])
  {
    SubSelf(s.lru);
    match op
    case OpLookup(k, None) =>
    case OpLookup(k, Some(e)) => SubWithout(s.lru, e);
    case OpRelease(e) => if e in s.table && s.table[e].refs == 1 { WithoutLast(s.lru, e); }
    case OpDelete(e) => SubWithout(s.lru, e);
    case OpInsert(e, ok) => InsertSub(s, e, s', ok);
    case OpEmpty(es) => DeleteAllSub(s, es);
  }

  /** In any run the LRU list goes from the entry released longest ago to the
      one released last, so eviction takes the least recently released. */
  lemma {:induction false} LruInReleaseOrder(states: seq<State>, ops: seq<Op>, n: nat)
    requires IsRun(states, ops) && n < |states|
    ensures InOrder(states, ops, n, states[n].lru)
    ensures forall e :: e in states[n].lru ==> LastRelease(states, ops, n, e) > 0
  {
    if n > 0 {
      LruInReleaseOrder(states, ops, n - 1);
      StepOf(states, ops, n - 1);
      RunKeeps(states, ops, n - 1);
      var s, op, s' := states[n - 1], ops[n - 1], states[n];
      LruStep(s, op, s');
      UnreferencedListed(s);
      hide IsRun, Inv, Next, Legal;
      OrderStep(states, ops, n, s.lru, s'.lru);
    }
  }

  lemma {:induction false} UnreferencedListed(s: State)
    requires Inv(s)
    ensures forall e :: e in s.lru ==> Unreferenced(s.table, e)
  {
  }

  predicate Unreferenced(t: Table, e: Entry) { e in t && t[e].refs == 0 }

  lemma {:induction false} OrderStep(states: seq<State>, ops: seq<Op>, n: nat, was: seq<Entry>, lru: seq<Entry>)
    requires 0 < n <= |ops| && n <= |states| && InOrder(states, ops, n - 1, was)
    requires forall e :: e in was ==> LastRelease(states, ops, n - 1, e) > 0 && Unreferenced(states[n - 1].table, e)
    requires SubSeq(lru, was)
             || (ops[n - 1].OpRelease? && ops[n - 1].e in states[n - 1].table
                 && states[n - 1].table[ops[n - 1].e].refs == 1
                 && ops[n - 1].e !in was && lru == was + [ops[n - 1].e])
    ensures InOrder(states, ops, n, lru) && forall e :: e in lru ==> LastRelease(states, ops, n, e) > 0
  {
    forall e | e in was ensures LastRelease(states, ops, n, e) == LastRelease(states, ops, n - 1, e) < n {
      LastBound(states, ops, n - 1, e);
    }
    assert forall i :: 0 <= i < |was| ==> was[i] in was;
    assert InOrder(states, ops, n, was);
    if SubSeq(lru, was) { SubInOrder(states, ops, n, lru, was); }
  }

  lemma {:induction false} LastBound(states: seq<State>, ops: seq<Op>, n: nat, e: Entry)
    requires n <= |ops| && n <= |states|
    ensures LastRelease(states, ops, n, e) <= n
  {
    if n > 0 { LastBound(states, ops, n - 1, e); }
  }
}
