/** The timeout heap of sched.c: a complete binary tree linked through the
    threads themselves and walked by the binary digits of a position. */
module TimeoutHeap {
  import opened StThreads

  // ---------- Positions and their bits ----------

  function Shr(n: nat, b: nat): nat {
    if b == 0 then n else Shr(n, b - 1) / 2
  }

  /** `n & (1 << b)` is nonzero. */
  predicate Bit(n: nat, b: nat) { Shr(n, b) % 2 == 1 }

  lemma {:induction false} ShrHalf(n: nat, b: nat)
    ensures Shr(n / 2, b) == Shr(n, b + 1)
  {
    if b > 0 { ShrHalf(n, b - 1); }
  }

  lemma {:induction false} ShrBounds(n: nat, b: nat)
    ensures Shr(n, b) <= n
    ensures b > 0 ==> Shr(n, b) <= n / 2
  {
    if b > 0 { ShrBounds(n, b - 1); }
  }

  lemma {:induction false} NextDigit(n: nat, b: nat)
    ensures Shr(n, b) == 2 * Shr(n, b + 1) + (if Bit(n, b) then 1 else 0)
    ensures Shr(n, b) <= n && Shr(n, b + 1) <= n / 2
  {
    ShrBounds(n, b);
    ShrBounds(n, b + 1);
  }

  /** Counts the digits of a position, as the first loop of both heap routines. */
  method BitLength(n: nat) returns (bits: int)
    requires n > 0
    ensures bits >= 1 && Shr(n, bits - 1) == 1
  {
    var s := n;
    bits := 0;
    while s != 0
      invariant bits >= 0 && s == Shr(n, bits)
      invariant s == 0 ==> bits >= 1 && Shr(n, bits - 1) == 1
    {
      s := s / 2;
      bits := bits + 1;
    }
  }

  // ---------- Threads and slots ----------

  /** What a pointer to a pointer into the tree can point at. */
  datatype Slot = Root | Left(of: Thread) | Right(of: Thread)

  // The tree is described by `at`: at[k - 1] is the thread at position k.

  ghost function Members(at: seq<Thread>): set<Thread> { set x | x in at }

  ghost function ChildAt(at: seq<Thread>, k: nat): Thread? {
    if 1 <= k <= |at| then at[k - 1] else null
  }

  /** The slot that holds position `k`. */
  ghost function SlotAt(at: seq<Thread>, k: nat): Slot
    requires 1 <= k && k / 2 <= |at|
  {
    if k == 1 then Root else if k % 2 == 0 then Left(at[k / 2 - 1]) else Right(at[k / 2 - 1])
  }

  lemma {:induction false} ChildSlot(at: seq<Thread>, k: nat)
    requires 1 <= k <= |at|
    ensures SlotAt(at, 2 * k) == Left(at[k - 1]) && SlotAt(at, 2 * k + 1) == Right(at[k - 1])
  {
  }

  ghost predicate Lefts(at: seq<Thread>, hole: nat)
    reads at`left
  {
    forall i {:trigger at[i].left} :: 0 <= i < |at| && i + 1 != hole ==> at[i].left == ChildAt(at, 2 * i + 2)
  }

  ghost predicate Rights(at: seq<Thread>, hole: nat)
    reads at`right
  {
    forall i {:trigger at[i].right} :: 0 <= i < |at| && i + 1 != hole ==> at[i].right == ChildAt(at, 2 * i + 3)
  }

  ghost predicate Indexed(at: seq<Thread>)
    reads at`heapIndex
  {
    forall i {:trigger at[i].heapIndex} :: 0 <= i < |at| ==> at[i].heapIndex == i + 1
  }

  /** Every child link, apart from those of position `hole`, and every index agree with `at`. */
  ghost predicate Linked(at: seq<Thread>, hole: nat)
    reads at`left, at`right, at`heapIndex
  {
    Lefts(at, hole) && Rights(at, hole) && Indexed(at)
  }

  // ---------- Deadlines by position ----------

  /** Position k + 1 is not due before its parent. */
  ghost predicate Edge(at: seq<Thread>, k: nat)
    requires 1 <= k < |at|
    reads at`due
  {
    at[(k + 1) / 2 - 1].due <= at[k].due
  }

  /** No position is due before its parent, except below position `hole`, whose
      children are still not due before its parent. */
  ghost predicate HeapOrdered(at: seq<Thread>, hole: nat)
    reads at`due
  {
    && (forall k {:trigger Edge(at, k)} :: 1 <= k < |at| && (k + 1) / 2 != hole ==> Edge(at, k))
    && (1 < hole ==>
          && (2 * hole - 1 < |at| ==> at[hole / 2 - 1].due <= at[2 * hole - 1].due)
          && (2 * hole < |at| ==> at[hole / 2 - 1].due <= at[2 * hole].due))
  }

  lemma {:induction false} OrderedLower(at: seq<Thread>, i: nat, x: Thread)
    requires HeapOrdered(at, 0) && i < |at| && x.due <= at[i].due
    requires i > 0 ==> at[(i + 1) / 2 - 1].due <= x.due
    ensures HeapOrdered(at[i := x], 0)
  {
    var e := at[i := x];
    forall k | 1 <= k < |e| ensures Edge(e, k) { assert Edge(at, k); }
  }

  lemma {:induction false} OrderedAppend(at: seq<Thread>, x: Thread)
    requires HeapOrdered(at, 0)
    requires |at| > 0 ==> at[(|at| + 1) / 2 - 1].due <= x.due
    ensures HeapOrdered(at + [x], 0)
  {
    var e := at + [x];
    forall k | 1 <= k < |e| ensures Edge(e, k) { if k < |at| { assert Edge(at, k); } }
  }

  lemma {:induction false} OrderedDrop(at: seq<Thread>)
    requires HeapOrdered(at, 0) && at != []
    ensures HeapOrdered(at[..|at| - 1], 0)
  {
    var e := at[..|at| - 1];
    forall k | 1 <= k < |e| ensures Edge(e, k) { assert Edge(at, k); }
  }

  lemma {:induction false} OrderedReplace(at: seq<Thread>, i: nat, x: Thread)
    requires HeapOrdered(at, 0) && i < |at|
    requires i > 0 ==> at[(i + 1) / 2 - 1].due <= x.due
    ensures HeapOrdered(at[i := x], i + 1)
  {
    var e := at[i := x];
    forall k | 1 <= k < |e| && (k + 1) / 2 != i + 1 ensures Edge(e, k) { assert Edge(at, k); }
    if i > 0 { assert Edge(at, i); }
    if 2 * i + 1 < |at| { assert Edge(at, 2 * i + 1); }
    if 2 * i + 2 < |at| { assert Edge(at, 2 * i + 2); }
  }

  /** One swap with the earlier child moves the hole down to that child. */
  lemma {:induction false} OrderedSwap(at: seq<Thread>, k: nat, c: nat)
    requires 1 <= k && HeapOrdered(at, k) && (c == 2 * k || c == 2 * k + 1) && c <= |at|
    requires at[c - 1].due < at[k - 1].due
    requires at[c - 1].due <= at[2 * k - 1].due && (2 * k + 1 <= |at| ==> at[c - 1].due <= at[2 * k].due)
    ensures HeapOrdered(at[k - 1 := at[c - 1]][c - 1 := at[k - 1]], c)
  {
    var e := at[k - 1 := at[c - 1]][c - 1 := at[k - 1]];
    forall j | 1 <= j < |e| && (j + 1) / 2 != c ensures Edge(e, j) {
      if (j + 1) / 2 != k { assert Edge(at, j); }
    }
    if 2 * c - 1 < |at| { assert Edge(at, 2 * c - 1); }
    if 2 * c < |at| { assert Edge(at, 2 * c); }
  }

  lemma {:induction false} OrderedDone(at: seq<Thread>, k: nat)
    requires 1 <= k <= |at| && HeapOrdered(at, k)
    requires (2 * k <= |at| ==> at[k - 1].due <= at[2 * k - 1].due)
             && (2 * k + 1 <= |at| ==> at[k - 1].due <= at[2 * k].due)
    ensures HeapOrdered(at, 0)
  {
    forall j | 1 <= j < |at| ensures Edge(at, j) { if j != 2 * k - 1 && j != 2 * k { assert (j + 1) / 2 != k; } }
  }

  /** The root has the earliest deadline. */
  lemma {:induction false} RootIsEarliest(at: seq<Thread>, i: nat)
    requires HeapOrdered(at, 0) && i < |at|
    ensures at[0].due <= at[i].due
  {
    if i > 0 {
      assert Edge(at, i);
      RootIsEarliest(at, (i + 1) / 2 - 1);
    }
  }

  // ---------- Membership during a descent ----------

  /** With `hand` in hand, the tree has lost it and gained `thread`. */
  ghost predicate Holding(was: seq<Thread>, thread: Thread, at: seq<Thread>, hand: Thread) {
    hand !in at && Members(at) + {hand} == Members(was) + {thread}
  }

  lemma {:induction false} HoldingStep(was: seq<Thread>, thread: Thread, at: seq<Thread>, hand: Thread, i: nat)
    requires Holding(was, thread, at, hand) && i < |at|
    requires forall j :: 0 <= j < |at| && at[j] == at[i] ==> j == i
    ensures Holding(was, thread, at[i := hand], at[i])
  {
    var e := at[i := hand];
    assert e[i] == hand;
    forall x | x in Members(at) + {hand} ensures x in Members(e) + {at[i]} {
      if x in at { var j :| 0 <= j < |at| && at[j] == x; if j != i { assert e[j] == x; } }
    }
  }

  lemma {:induction false} SwapMembers(at: seq<Thread>, i: nat, j: nat)
    requires i < |at| && j < |at|
    ensures Members(at[i := at[j]][j := at[i]]) == Members(at)
  {
    var e := at[i := at[j]][j := at[i]];
    assert e[i] == at[j] && e[j] == at[i];
    forall x | x in at ensures x in e {
      var m :| 0 <= m < |at| && at[m] == x;
      assert m != i && m != j ==> e[m] == x;
    }
  }

  lemma {:induction false} PositionOf(at: seq<Thread>, t: Thread)
    requires Indexed(at) && t in at
    ensures 1 <= t.heapIndex <= |at| && at[t.heapIndex - 1] == t
  {
    var i :| 0 <= i < |at| && at[i] == t;
    assert at[i].heapIndex == i + 1;
  }

  /** What is left of the members once the last one is taken off. */
  lemma {:induction false} LastOut(at: seq<Thread>, pos: nat)
    requires Indexed(at) && 1 <= pos <= |at|
    ensures var n := |at| - 1;
            && at[n] !in at[..n] && Members(at) == Members(at[..n]) + {at[n]}
            && (at[n] != at[pos - 1] ==> pos <= n && at[..n][pos - 1] == at[pos - 1])
  {
    var n := |at| - 1;
    assert at == at[..n] + [at[n]];
    assert forall i :: 0 <= i < n ==> at[i].heapIndex == i + 1 && at[..n][i] == at[i];
    assert at[n].heapIndex == n + 1;
  }

  // ---------- Links after a change of the tree ----------

  /** The links of the tree `was` with only slot `p` overwritten, by `t`. */
  ghost predicate Overwritten(was: seq<Thread>, p: Slot, t: Thread?)
    reads was, if p.Root? then {} else {p.of}
  {
    && (p.Left? ==> p.of.left == t)
    && (p.Right? ==> p.of.right == t)
    && (forall i {:trigger was[i].left} :: 0 <= i < |was| && p != Left(was[i]) ==> was[i].left == ChildAt(was, 2 * i + 2))
    && (forall i {:trigger was[i].right} :: 0 <= i < |was| && p != Right(was[i]) ==> was[i].right == ChildAt(was, 2 * i + 3))
  }

  /** `hand` takes over position `index` together with the links found there. */
  lemma {:induction false} LinksAfterDisplace(was: seq<Thread>, index: nat, hand: Thread, p: Slot)
    requires 1 <= index <= |was| && p == SlotAt(was, index) && hand !in was
    requires Indexed(was) && Overwritten(was, p, hand)
    requires hand.left == ChildAt(was, 2 * index) && hand.right == ChildAt(was, 2 * index + 1)
             && hand.heapIndex == index
    ensures Linked(was[index - 1 := hand], 0)
  {
    var at := was[index - 1 := hand];
    forall i: nat | i < |was| ensures at[i].left == ChildAt(at, 2 * i + 2) && at[i].right == ChildAt(at, 2 * i + 3) {
      SlotOfChild(was, index, i);
      ChildAfterReplace(was, index, hand, 2 * i + 2);
      ChildAfterReplace(was, index, hand, 2 * i + 3);
      hide SlotAt, ChildAt;
    }
  }

  /** `hand` takes position `index` without children. */
  lemma {:induction false} LinksAfterSettle(was: seq<Thread>, index: nat, hand: Thread, p: Slot)
    requires 1 <= index <= |was| + 1 && p == SlotAt(was, index) && hand !in was
    requires Indexed(was) && Overwritten(was, p, hand)
    requires hand.left == null && hand.right == null && hand.heapIndex == index
    ensures index > |was| ==> Linked(was + [hand], 0)
    ensures index <= |was| ==> Linked(was[index - 1 := hand], index)
    ensures index <= |was| ==> was[index - 1].left == ChildAt(was[index - 1 := hand], 2 * index)
    ensures index <= |was| ==> was[index - 1].right == ChildAt(was[index - 1 := hand], 2 * index + 1)
  {
    hide Linked, Indexed, Overwritten;
    if index > |was| { LinksAfterAppend(was, hand, p); } else { LinksAfterReplace(was, index, hand, p); }
  }

  lemma {:induction false} LinksAfterAppend(was: seq<Thread>, hand: Thread, p: Slot)
    requires p == SlotAt(was, |was| + 1) && hand !in was
    requires Indexed(was) && Overwritten(was, p, hand)
    requires hand.left == null && hand.right == null && hand.heapIndex == |was| + 1
    ensures Linked(was + [hand], 0)
  {
    var at := was + [hand];
    forall i: nat | i < |was| ensures at[i].left == ChildAt(at, 2 * i + 2) && at[i].right == ChildAt(at, 2 * i + 3) {
      SlotOfChild(was, |was| + 1, i);
      ChildAfterAppend(was, hand, 2 * i + 2);
      ChildAfterAppend(was, hand, 2 * i + 3);
      hide SlotAt, ChildAt;
    }
  }

  lemma {:induction false} LinksAfterReplace(was: seq<Thread>, index: nat, hand: Thread, p: Slot)
    requires 1 <= index <= |was| && p == SlotAt(was, index) && hand !in was
    requires Indexed(was) && Overwritten(was, p, hand) && hand.heapIndex == index
    ensures Linked(was[index - 1 := hand], index)
    ensures was[index - 1].left == ChildAt(was[index - 1 := hand], 2 * index)
    ensures was[index - 1].right == ChildAt(was[index - 1 := hand], 2 * index + 1)
  {
    var at := was[index - 1 := hand];
    forall i: nat | i < |was| ensures was[i].left == ChildAt(at, 2 * i + 2) && was[i].right == ChildAt(at, 2 * i + 3) {
      SlotOfChild(was, index, i);
      ChildAfterReplace(was, index, hand, 2 * i + 2);
      ChildAfterReplace(was, index, hand, 2 * i + 3);
      hide SlotAt, ChildAt;
    }
    hide SlotAt, ChildAt;
  }

  lemma {:induction false} ChildAfterReplace(was: seq<Thread>, index: nat, hand: Thread, k: nat)
    requires 1 <= index <= |was|
    ensures ChildAt(was[index - 1 := hand], k) == if k == index then hand else ChildAt(was, k)
  {
  }

  lemma {:induction false} ChildAfterAppend(was: seq<Thread>, hand: Thread, k: nat)
    ensures ChildAt(was + [hand], k) == if k == |was| + 1 then hand else ChildAt(was, k)
  {
  }

  /** The slot of position `index` is a link of the thread one level up. */
  lemma {:induction false} SlotOfChild(at: seq<Thread>, index: nat, i: nat)
    requires Indexed(at) && 1 <= index && index / 2 <= |at| && i < |at|
    ensures SlotAt(at, index) == Left(at[i]) <==> index == 2 * i + 2
    ensures SlotAt(at, index) == Right(at[i]) <==> index == 2 * i + 3
  {
    assert at[i].heapIndex == i + 1 && (1 < index ==> at[index / 2 - 1].heapIndex == index / 2);
  }

  /** The last position is cleared. */
  lemma {:induction false} LinksAfterDrop(was: seq<Thread>, p: Slot)
    requires was != [] && p == SlotAt(was, |was|)
    requires Indexed(was) && Overwritten(was, p, null)
    ensures Linked(was[..|was| - 1], 0)
  {
    var at := was[..|was| - 1];
    forall i: nat | i < |at| ensures at[i].left == ChildAt(at, 2 * i + 2) && at[i].right == ChildAt(at, 2 * i + 3) {
      SlotOfChild(was, |was|, i);
      ChildAfterDrop(was, 2 * i + 2);
      ChildAfterDrop(was, 2 * i + 3);
      hide SlotAt, ChildAt;
    }
  }

  lemma {:induction false} ChildAfterDrop(was: seq<Thread>, k: nat)
    requires was != []
    ensures ChildAt(was[..|was| - 1], k) == if k == |was| then null else ChildAt(was, k)
  {
  }

  // Positions `k` and `c`, a child of `k`, exchange their threads.

  lemma {:induction false} IndexedAfterSwap(was: seq<Thread>, k: nat, c: nat, t: Thread, y: Thread)
    requires 1 <= k <= |was| && 1 <= c <= |was| && t == was[k - 1] && y == was[c - 1] && t != y
    requires forall i :: 0 <= i < |was| && was[i] == t ==> i == k - 1
    requires forall i :: 0 <= i < |was| && was[i] == y ==> i == c - 1
    requires t.heapIndex == c && y.heapIndex == k
    requires forall i {:trigger was[i].heapIndex} :: 0 <= i < |was| && was[i] != t && was[i] != y ==> was[i].heapIndex == i + 1
    ensures Indexed(was[k - 1 := y][c - 1 := t])
  {
    var at := was[k - 1 := y][c - 1 := t];
    forall i {:trigger at[i].heapIndex} | 0 <= i < |at| ensures at[i].heapIndex == i + 1 {
      assert i != k - 1 && i != c - 1 ==> was[i].heapIndex == i + 1;
    }
  }

  lemma {:induction false} LeftsAfterSwap(was: seq<Thread>, k: nat, c: nat, p: Slot, t: Thread, y: Thread)
    requires 1 <= k && (c == 2 * k || c == 2 * k + 1) && c <= |was| && p == SlotAt(was, k)
    requires t == was[k - 1] && y == was[c - 1] && Indexed(was[k - 1 := y][c - 1 := t])
    requires p.Left? ==> p.of.left == y
    requires t.left == ChildAt(was, 2 * c)
    requires y.left == (if c == 2 * k then t else ChildAt(was, 2 * k))
    requires forall i {:trigger was[i].left} :: 0 <= i < |was| && p != Left(was[i]) && i != k - 1 && i != c - 1 ==> was[i].left == ChildAt(was, 2 * i + 2)
    ensures Lefts(was[k - 1 := y][c - 1 := t], 0)
  {
    var at := was[k - 1 := y][c - 1 := t];
    forall i {:trigger at[i].left} | 0 <= i < |at| ensures at[i].left == ChildAt(at, 2 * i + 2) {
      assert at[i].heapIndex == i + 1 && (1 < k ==> at[k / 2 - 1].heapIndex == k / 2);
    }
  }

  lemma {:induction false} RightsAfterSwap(was: seq<Thread>, k: nat, c: nat, p: Slot, t: Thread, y: Thread)
    requires 1 <= k && (c == 2 * k || c == 2 * k + 1) && c <= |was| && p == SlotAt(was, k)
    requires t == was[k - 1] && y == was[c - 1] && Indexed(was[k - 1 := y][c - 1 := t])
    requires p.Right? ==> p.of.right == y
    requires t.right == ChildAt(was, 2 * c + 1)
    requires y.right == (if c == 2 * k then ChildAt(was, 2 * k + 1) else t)
    requires forall i {:trigger was[i].right} :: 0 <= i < |was| && p != Right(was[i]) && i != k - 1 && i != c - 1 ==> was[i].right == ChildAt(was, 2 * i + 3)
    ensures Rights(was[k - 1 := y][c - 1 := t], 0)
  {
    var at := was[k - 1 := y][c - 1 := t];
    forall i {:trigger at[i].right} | 0 <= i < |at| ensures at[i].right == ChildAt(at, 2 * i + 3) {
      assert at[i].heapIndex == i + 1 && (1 < k ==> at[k / 2 - 1].heapIndex == k / 2);
    }
  }

  lemma {:induction false} BeforeSwap(at: seq<Thread>, k: nat, c: nat, t: Thread, y: Thread)
    requires Linked(at, 0) && 1 <= k && (c == 2 * k || c == 2 * k + 1) && c <= |at| && t == at[k - 1] && y == at[c - 1]
    ensures t.heapIndex == k && y.heapIndex == c && t != y
    ensures t.left == ChildAt(at, 2 * k) && t.right == ChildAt(at, 2 * k + 1)
    ensures y.left == ChildAt(at, 2 * c) && y.right == ChildAt(at, 2 * c + 1)
    ensures (y == t.left) == (c == 2 * k) && (y == t.left || y == t.right)
    ensures 1 < k ==> at[k / 2 - 1] != t && at[k / 2 - 1] != y
    ensures forall i :: 0 <= i < |at| && at[i] == t ==> i == k - 1
    ensures forall i :: 0 <= i < |at| && at[i] == y ==> i == c - 1
  {
    assert 1 < k ==> at[k / 2 - 1].heapIndex == k / 2;
    assert forall i :: 0 <= i < |at| && at[i] == t ==> at[i].heapIndex == k;
    assert forall i :: 0 <= i < |at| && at[i] == y ==> at[i].heapIndex == c;
  }

  lemma {:induction false} LinksAfterSwap(was: seq<Thread>, k: nat, c: nat, p: Slot, t: Thread, y: Thread)
    requires 1 <= k && (c == 2 * k || c == 2 * k + 1) && c <= |was| && p == SlotAt(was, k)
    requires t == was[k - 1] && y == was[c - 1] && t != y
    requires forall i :: 0 <= i < |was| && was[i] == t ==> i == k - 1
    requires forall i :: 0 <= i < |was| && was[i] == y ==> i == c - 1
    requires (p.Left? ==> p.of.left == y) && (p.Right? ==> p.of.right == y)
    requires t.left == ChildAt(was, 2 * c) && t.right == ChildAt(was, 2 * c + 1)
    requires y.left == (if c == 2 * k then t else ChildAt(was, 2 * k))
    requires y.right == (if c == 2 * k then ChildAt(was, 2 * k + 1) else t)
    requires t.heapIndex == c && y.heapIndex == k
    requires forall i {:trigger was[i].left} :: 0 <= i < |was| && p != Left(was[i]) && was[i] != t && was[i] != y ==> was[i].left == ChildAt(was, 2 * i + 2)
    requires forall i {:trigger was[i].right} :: 0 <= i < |was| && p != Right(was[i]) && was[i] != t && was[i] != y ==> was[i].right == ChildAt(was, 2 * i + 3)
    requires forall i {:trigger was[i].heapIndex} :: 0 <= i < |was| && was[i] != t && was[i] != y ==> was[i].heapIndex == i + 1
    ensures Linked(was[k - 1 := y][c - 1 := t], 0)
  {
    IndexedAfterSwap(was, k, c, t, y);
    LeftsAfterSwap(was, k, c, p, t, y);
    RightsAfterSwap(was, k, c, p, t, y);
  }

  class SleepQueue {
    var root: Thread?
    var size: nat
    var lastClock: nat
    var runq: seq<Thread>
    ghost var at: seq<Thread>
    // every thread of this virtual processor
    ghost var threads: set<Thread>

    constructor ()
      ensures Valid() && at == [] && runq == [] && threads == {} && lastClock == 0
    {
      root, size, lastClock, runq, at, threads := null, 0, 0, [], [], {};
    }

    /** A new thread, which is not asleep. */
    ghost method Enlist(t: Thread)
      requires Valid() && Flagged() && t !in threads && !t.onSleepQ
      modifies this`threads
      ensures Valid() && Flagged() && threads == old(threads) + {t}
    {
      InThreads();
      threads := threads + {t};
    }

    ghost predicate Tree(hole: nat)
      reads this`root, this`at, this`threads, at`left, at`right, at`heapIndex
    {
      root == ChildAt(at, 1) && Linked(at, hole) && forall i :: 0 <= i < |at| ==> at[i] in threads
    }

    ghost predicate Valid()
      reads this`root, this`at, this`threads, this`size, at`left, at`right, at`heapIndex, at`due
    {
      Tree(0) && HeapOrdered(at, 0) && size == |at|
    }

    function Deref(p: Slot): Thread?
      reads this, if p.Root? then {} else {p.of}
    {
      match p
      case Root => root
      case Left(t) => t.left
      case Right(t) => t.right
    }

    method Store(p: Slot, t: Thread?)
      modifies (if p.Root? then {this} else {})`root
      modifies (if p.Left? then {p.of} else {})`left
      modifies (if p.Right? then {p.of} else {})`right
      ensures Deref(p) == t
    {
      match p
      case Root => root := t;
      case Left(u) => u.left := t;
      case Right(u) => u.right := t;
    }

    /** Overwrites one slot of the tree `was`. */
    method Graft(p: Slot, ghost index: nat, t: Thread?, ghost was: seq<Thread>)
      requires Linked(was, 0) && 1 <= index <= |was| + 1 && p == SlotAt(was, index)
      requires t == null || t !in was
      modifies (if p.Root? then {this} else {})`root
      modifies (if p.Left? then {p.of} else {})`left
      modifies (if p.Right? then {p.of} else {})`right
      ensures Indexed(was) && Overwritten(was, p, t)
      ensures p.Root? ==> root == t
    {
      Store(p, t);
    }

    /** Swaps the thread in hand for the later one it meets on its way down. */
    method Displace(p: Slot, index: nat, hand: Thread) returns (t: Thread)
      requires Tree(0) && 1 <= index <= |at| && p == SlotAt(at, index)
      requires hand !in at && hand in threads
      modifies this`root, this`at, threads`left, threads`right, threads`heapIndex
      ensures at == old(at)[index - 1 := hand] && t == old(at)[index - 1]
      ensures Tree(0)
    {
      t := Deref(p);
      assert t == at[index - 1] && t.left == ChildAt(at, 2 * index) && t.right == ChildAt(at, 2 * index + 1);
      hand.left, hand.right, hand.heapIndex := t.left, t.right, index;
      ghost var was := at;
      at := at[index - 1 := hand];
      Graft(p, index, hand, was);
      LinksAfterDisplace(was, index, hand, p);
    }

    /** Compares the thread in hand with the one at `index` and keeps the later one in hand. */
    method Meet(p: Slot, index: nat, hand: Thread, ghost was: seq<Thread>, ghost thread: Thread) returns (next: Thread)
      requires Tree(0) && HeapOrdered(at, 0) && 1 <= index <= |at| && p == SlotAt(at, index)
      requires hand !in at && hand in threads && (index > 1 ==> at[index / 2 - 1].due <= hand.due)
      modifies this`root, this`at, threads`left, threads`right, threads`heapIndex
      requires Holding(was, thread, at, hand)
      ensures Tree(0) && HeapOrdered(at, 0) && |at| == old(|at|) && at[index - 1].due <= next.due
      ensures Holding(was, thread, at, next) && next in threads
      ensures p == SlotAt(at, index) && Deref(p) == at[index - 1]
      ensures if hand.due < old(at)[index - 1].due
              then next == old(at)[index - 1] && at == old(at)[index - 1 := hand]
              else next == hand && at == old(at)
    {
      next := hand;
      assert at[index - 1].heapIndex == index;
      HoldingStep(was, thread, at, hand, index - 1);
      assert Deref(p) == at[index - 1];
      if hand.due < Deref(p).due {
        OrderedLower(at, index - 1, hand);
        next := Displace(p, index, hand);
      }
    }

    /** Ends the descent: the thread in hand takes position `index`, childless. */
    method Settle(p: Slot, index: nat, hand: Thread)
      requires Tree(0) && 1 <= index <= |at| + 1 && p == SlotAt(at, index)
      requires hand !in at && hand in threads
      modifies this`root, this`at, threads`left, threads`right, threads`heapIndex
      ensures at == if index > old(|at|) then old(at) + [hand] else old(at)[index - 1 := hand]
      ensures Tree(if index > old(|at|) then 0 else index)
      ensures hand.left == hand.right == null
      ensures index <= old(|at|) ==> var gone := old(at)[index - 1]; gone.left == ChildAt(at, 2 * index) && gone.right == ChildAt(at, 2 * index + 1)
    {
      hand.left, hand.right, hand.heapIndex := null, null, index;
      ghost var was := at;
      at := if index > |at| then at + [hand] else at[index - 1 := hand];
      Graft(p, index, hand, was);
      LinksAfterSettle(was, index, hand, p);
    }

    /** From position `index` to one of its children. */
    method Turn(p: Slot, index: nat, right: bool) returns (q: Slot, child: nat)
      requires 1 <= index <= |at| && p == SlotAt(at, index) && Deref(p) == at[index - 1]
      ensures child == 2 * index + (if right then 1 else 0) && q == SlotAt(at, child)
    {
      var here := Deref(p);
      ChildSlot(at, index);
      child := 2 * index;
      if right {
        q := Right(here);
        child := child + 1;
      } else {
        q := Left(here);
      }
    }

    /** One level of the descent. */
    method Pass(p: Slot, index: nat, hand: Thread, right: bool, ghost was: seq<Thread>, ghost thread: Thread)
      returns (q: Slot, child: nat, next: Thread)
      requires Tree(0) && HeapOrdered(at, 0) && 1 <= index <= |at| && p == SlotAt(at, index)
      requires hand !in at && hand in threads && (index > 1 ==> at[index / 2 - 1].due <= hand.due)
      requires Holding(was, thread, at, hand)
      modifies this`root, this`at, threads`left, threads`right, threads`heapIndex
      ensures Tree(0) && HeapOrdered(at, 0) && |at| == old(|at|) && Holding(was, thread, at, next) && next in threads
      ensures child == 2 * index + (if right then 1 else 0) && q == SlotAt(at, child) && at[index - 1].due <= next.due
      ensures forall k :: 0 <= k < |at| && k != index - 1 ==> at[k] == old(at)[k]
    {
      next := Meet(p, index, hand, was, thread);
      q, child := Turn(p, index, right);
    }

    /** The descent of an insertion: from the root towards position
        `thread.heapIndex` along its binary digits. */
    method Descend(thread: Thread) returns (p: Slot, hand: Thread)
      requires Tree(0) && HeapOrdered(at, 0)
      requires thread !in at && thread in threads && 1 <= thread.heapIndex <= |at| + 1
      modifies this`root, this`at, threads`left, threads`right, threads`heapIndex
      ensures |at| == old(|at|) && Tree(0) && HeapOrdered(at, 0)
      ensures Holding(old(at), thread, at, hand) && hand in threads
      ensures var target := old(thread.heapIndex);
              && p == SlotAt(at, target)
              && (target > 1 ==> at[target / 2 - 1].due <= hand.due)
              && (target <= |at| ==> at[target - 1] == old(at)[target - 1])
    {
      var target := thread.heapIndex;
      ghost var was := at;
      hand := thread;
      var bits := BitLength(target);
      p := Root;
      var index := 1;
      var bit := bits - 2;
      while bit >= 0
        invariant -1 <= bit <= bits - 2
        invariant index == Shr(target, bit + 1) && 1 <= index <= target
        invariant |at| == |was| && p == SlotAt(at, index)
        invariant Tree(0) && HeapOrdered(at, 0)
        invariant Holding(was, thread, at, hand) && hand in threads
        invariant index > 1 ==> at[index / 2 - 1].due <= hand.due
        invariant target <= |at| ==> at[target - 1] == was[target - 1]
        decreases bit
      {
        NextDigit(target, bit);
        p, index, hand := Pass(p, index, hand, Bit(target, bit), was, thread);
        bit := bit - 1;
      }
    }

    /** Puts `thread` at position `thread.heapIndex`, which is either the next
        free one or that of a thread being replaced. Threads on the way down
        that are due later than the one in hand are displaced by it. */
    method HeapInsert(thread: Thread) returns (p: Slot)
      requires Tree(0) && HeapOrdered(at, 0)
      requires thread !in at && thread in threads && 1 <= thread.heapIndex <= |at| + 1
      modifies this`root, this`at, threads`left, threads`right, threads`heapIndex
      ensures |at| == (if old(thread.heapIndex) > old(|at|) then old(|at|) + 1 else old(|at|))
      ensures p == SlotAt(at, old(thread.heapIndex))
      ensures old(thread.heapIndex) > old(|at|) ==>
                Tree(0) && HeapOrdered(at, 0) && Members(at) == Members(old(at)) + {thread}
      ensures old(thread.heapIndex) <= old(|at|) ==>
                var target, gone := old(thread.heapIndex), old(at[thread.heapIndex - 1]);
                && Tree(target) && HeapOrdered(at, target)
                && Holding(old(at), thread, at, gone)
                && gone.left == ChildAt(at, 2 * target) && gone.right == ChildAt(at, 2 * target + 1)
    {
      var target := thread.heapIndex;
      ghost var was := at;
      var hand;
      p, hand := Descend(thread);
      Place(p, target, hand, was, thread);
    }

    method Place(p: Slot, target: nat, hand: Thread, ghost was: seq<Thread>, ghost thread: Thread)
      requires Tree(0) && HeapOrdered(at, 0) && Holding(was, thread, at, hand) && hand in threads && |at| == |was|
      requires 1 <= target <= |at| + 1 && p == SlotAt(at, target)
      requires target > 1 ==> at[target / 2 - 1].due <= hand.due
      modifies this`root, this`at, threads`left, threads`right, threads`heapIndex
      ensures |at| == (if target > |was| then |was| + 1 else |was|) && p == SlotAt(at, target)
      ensures target > |was| ==>
                Tree(0) && HeapOrdered(at, 0) && Members(at) == Members(was) + {thread}
      ensures target <= |was| ==>
                var gone := old(at[target - 1]);
                && Tree(target) && HeapOrdered(at, target)
                && Holding(was, thread, at, gone)
                && gone.left == ChildAt(at, 2 * target) && gone.right == ChildAt(at, 2 * target + 1)
    {
      if target > |at| {
        OrderedAppend(at, hand);
        assert Members(at + [hand]) == Members(at) + {hand};
      } else {
        assert at[target - 1].heapIndex == target;
        OrderedReplace(at, target - 1, hand);
        HoldingStep(was, thread, at, hand, target - 1);
      }
      Settle(p, target, hand);
    }

    /** The slot of the last position. */
    method FindLast() returns (p: Slot)
      requires Tree(0) && size == |at| > 0
      ensures p == SlotAt(at, |at|) && Deref(p) == at[|at| - 1]
    {
      p := Root;
      var bits := BitLength(size);
      var bit := bits - 2;
      while bit >= 0
        invariant -1 <= bit <= bits - 2
        invariant 1 <= Shr(size, bit + 1) <= size && p == SlotAt(at, Shr(size, bit + 1))
        decreases bit
      {
        NextDigit(size, bit);
        assert Deref(p) == at[Shr(size, bit + 1) - 1];
        p := if Bit(size, bit) then Right(Deref(p)) else Left(Deref(p));
        assert Shr(size, bit) / 2 == Shr(size, bit + 1);
        bit := bit - 1;
      }
    }

    /** Detaches the thread at the last position. */
    method UnlinkLast() returns (t: Thread)
      requires Valid() && size > 0
      modifies this`root, this`at, this`size, threads`left, threads`right
      ensures Valid() && at == old(at)[..|old(at)| - 1] && t == old(at)[|old(at)| - 1] && t in threads
    {
      var p := FindLast();
      t := Deref(p);
      OrderedDrop(at);
      ghost var was := at;
      at := at[..|at| - 1];
      size := size - 1;
      Graft(p, |was|, null, was);
      LinksAfterDrop(was, p);
    }

    /** The pointer surgery that lifts `y` over its parent `t`, which hangs in slot `p`. */
    method Lift(p: Slot, t: Thread, y: Thread) returns (q: Slot)
      requires t != y && (p.Root? || (p.of != t && p.of != y))
      requires y == t.left || y == t.right
      modifies this`root, t`left, t`right, t`heapIndex, y`left, y`right, y`heapIndex
      modifies (if p.Left? then {p.of} else {})`left
      modifies (if p.Right? then {p.of} else {})`right
      ensures Deref(p) == y && (root == if p.Root? then y else old(root))
      ensures t.left == old(y.left) && t.right == old(y.right)
      ensures if y == old(t.left)
              then y.left == t && y.right == old(t.right) && q == Left(y)
              else y.left == old(t.left) && y.right == t && q == Right(y)
      ensures t.heapIndex == old(y.heapIndex) && y.heapIndex == old(t.heapIndex)
    {
      var tl, tr := y.left, y.right;
      Store(p, y);
      if y == t.left {
        y.left := t;
        y.right := t.right;
        q := Left(y);
      } else {
        y.left := t.left;
        y.right := t;
        q := Right(y);
      }
      t.left := tl;
      t.right := tr;
      t.heapIndex, y.heapIndex := y.heapIndex, t.heapIndex;
    }

    /** Exchanges the thread at position `k` with its child `y` at position `c`. */
    method SwapDown(p: Slot, t: Thread, y: Thread, ghost k: nat, ghost c: nat) returns (q: Slot)
      requires Tree(0) && 1 <= k && (c == 2 * k || c == 2 * k + 1) && c <= |at|
      requires p == SlotAt(at, k) && t == at[k - 1] && y == at[c - 1]
      modifies this`root, this`at, threads`left, threads`right, threads`heapIndex
      ensures at == old(at)[k - 1 := y][c - 1 := t] && Tree(0) && q == SlotAt(at, c)
    {
      ghost var was, after := at, at[k - 1 := y][c - 1 := t];
      BeforeSwap(was, k, c, t, y);
      at := after;
      q := Lift(p, t, y);
      LinksAfterSwap(was, k, c, p, t, y);
    }

    /** The same for a child that is due before `t` and not after its sibling. */
    method Sink(p: Slot, t: Thread, y: Thread, ghost k: nat, ghost c: nat) returns (q: Slot)
      requires Tree(0) && HeapOrdered(at, k) && 1 <= k && (c == 2 * k || c == 2 * k + 1) && c <= |at|
      requires p == SlotAt(at, k) && t == at[k - 1] && y == at[c - 1] && y.due < t.due
      requires y.due <= at[2 * k - 1].due && (2 * k + 1 <= |at| ==> y.due <= at[2 * k].due)
      modifies this`root, this`at, threads`left, threads`right, threads`heapIndex
      ensures |at| == old(|at|) && Tree(0) && HeapOrdered(at, c) && Members(at) == Members(old(at))
      ensures q == SlotAt(at, c) && at[c - 1] == t
    {
      OrderedSwap(at, k, c);
      SwapMembers(at, k - 1, c - 1);
      q := SwapDown(p, t, y, k, c);
    }

    /** The child of `t` that is due first, the right one on a tie. */
    method EarlierChild(t: Thread, ghost k: nat) returns (y: Thread?, ghost c: nat)
      requires Tree(0) && 1 <= k <= |at| && t == at[k - 1]
      ensures y == null ==> 2 * k > |at|
      ensures y != null ==>
                && (c == 2 * k || c == 2 * k + 1) && c <= |at| && y == at[c - 1]
                && y.due <= at[2 * k - 1].due && (2 * k + 1 <= |at| ==> y.due <= at[2 * k].due)
    {
      assert t.left == ChildAt(at, 2 * k) && t.right == ChildAt(at, 2 * k + 1);
      if t.left == null {
        y, c := null, 0;
      } else if t.right == null {
        y, c := t.left, 2 * k;
      } else if t.left.due < t.right.due {
        y, c := t.left, 2 * k;
      } else {
        y, c := t.right, 2 * k + 1;
      }
    }

    /** Lets `t` at position `top` sink below every child due before it. */
    method SiftDown(start: Slot, t: Thread, ghost top: nat)
      requires 1 <= top <= |at| && start == SlotAt(at, top) && t == at[top - 1]
      requires Tree(0) && HeapOrdered(at, top)
      modifies this`root, this`at, threads`left, threads`right, threads`heapIndex
      ensures |at| == old(|at|) && Tree(0) && HeapOrdered(at, 0) && Members(at) == Members(old(at))
    {
      var p := start;
      ghost var k := top;
      while true
        invariant 1 <= k <= |at| == old(|at|) && p == SlotAt(at, k) && t == at[k - 1]
        invariant Tree(0) && HeapOrdered(at, k) && Members(at) == Members(old(at))
        decreases |at| - k
      {
        ghost var c;
        var y;
        y, c := EarlierChild(t, k);
        if y == null || t.due <= y.due {
          OrderedDone(at, k);
          break;
        }
        p := Sink(p, t, y, k, c);
        k := c;
      }
    }

    /** The thread now at position `pos` inherits the children of `gone` and sinks. */
    method Inherit(p: Slot, gone: Thread, ghost pos: nat)
      requires Tree(pos) && HeapOrdered(at, pos) && 1 <= pos <= |at| && p == SlotAt(at, pos)
      requires gone.left == ChildAt(at, 2 * pos) && gone.right == ChildAt(at, 2 * pos + 1)
      modifies this`root, this`at, threads`left, threads`right, threads`heapIndex
      ensures |at| == old(|at|) && Tree(0) && HeapOrdered(at, 0) && Members(at) == Members(old(at))
    {
      var t := Adopt(p, gone, pos);
      SiftDown(p, t, pos);
    }

    /** The thread in slot `p` takes over the children of `gone`. */
    method Adopt(p: Slot, gone: Thread, ghost pos: nat) returns (t: Thread)
      requires Tree(pos) && 1 <= pos <= |at| && p == SlotAt(at, pos)
      requires gone.left == ChildAt(at, 2 * pos) && gone.right == ChildAt(at, 2 * pos + 1)
      modifies threads`left, threads`right
      ensures Tree(0) && t == at[pos - 1] && p == SlotAt(at, pos)
    {
      t := Deref(p);
      assert t == at[pos - 1] by {
        assert 1 < pos ==> at[pos / 2 - 1].heapIndex == pos / 2;
      }
      assert t.heapIndex == pos;
      t.left := gone.left;
      t.right := gone.right;
      assert Linked(at, 0);
    }

    method Reindex(t: Thread, index: nat)
      requires Valid() && t !in at
      modifies t`heapIndex
      ensures t.heapIndex == index && Valid()
    {
      t.heapIndex := index;
    }

    method Detach(t: Thread)
      requires Valid() && t !in at
      modifies t`left, t`right
      ensures t.left == t.right == null && Valid()
    {
      t.left, t.right := null, null;
    }

    /** Removes `thread` from the heap, wherever in the tree it is. */
    method HeapDelete(thread: Thread)
      requires Valid() && thread in at && thread in threads
      modifies this`root, this`at, this`size, threads`left, threads`right, threads`heapIndex
      ensures Valid() && Members(at) == Members(old(at)) - {thread} && |at| == old(|at|) - 1
      ensures thread.left == thread.right == null
    {
      PositionOf(at, thread);
      ghost var was, pos := at, thread.heapIndex;
      LastOut(at, pos);
      var t := UnlinkLast();
      if t != thread {
        Replace(thread, t, was, pos);
      }
      Detach(thread);
    }

    /** The detached last thread `t` takes the place of `thread`. */
    method Replace(thread: Thread, t: Thread, ghost was: seq<Thread>, ghost pos: nat)
      requires Valid() && t in threads && t !in at && thread.heapIndex == pos && 1 <= pos <= |at|
               && at[pos - 1] == thread
      requires Members(was) == Members(at) + {t}
      modifies this`root, this`at, threads`left, threads`right, threads`heapIndex
      ensures Valid() && thread !in at && Members(at) == Members(was) - {thread} && |at| == old(|at|)
    {
      Reindex(t, thread.heapIndex);
      var p := HeapInsert(t);
      Inherit(p, thread, pos);
      assert thread !in Members(at);
    }

    // ---------- The sleep queue ----------

    /** The flag of every thread says whether it is in the heap. */
    ghost predicate Flagged()
      reads this`at, this`threads, threads`onSleepQ
    {
      forall t {:trigger t.onSleepQ} :: t in threads ==> (t.onSleepQ <==> t in Members(at))
    }

    /** Puts a thread to sleep until `timeout` after the last clock reading. */
    method AddSleepQ(thread: Thread, timeout: nat)
      requires Valid() && Flagged() && thread in threads && !thread.onSleepQ
      modifies this`root, this`at, this`size, thread`due, thread`onSleepQ, threads`left, threads`right,
          threads`heapIndex
      ensures Valid() && Flagged() && thread.due == lastClock + timeout && thread.onSleepQ
      ensures Members(at) == Members(old(at)) + {thread}
    {
      thread.due := lastClock + timeout;
      thread.onSleepQ := true;
      size := size + 1;
      thread.heapIndex := size;
      var _ := HeapInsert(thread);
    }

    /** Takes a thread off the heap, wherever it is. */
    method DelSleepQ(thread: Thread)
      requires Valid() && Flagged() && thread in threads && thread.onSleepQ
      modifies this`root, this`at, this`size, thread`onSleepQ, threads`left, threads`right, threads`heapIndex
      ensures Valid() && Flagged() && !thread.onSleepQ
      ensures Members(at) == Members(old(at)) - {thread} && |at| == old(|at|) - 1
    {
      HeapDelete(thread);
      thread.onSleepQ := false;
    }

    lemma {:induction false} InThreads()
      requires Valid()
      ensures Members(at) <= threads && (root == null ==> at == [])
    {
      hide HeapOrdered;
    }

    lemma {:induction false} RootEarliest()
      requires Valid() && at != []
      ensures root == at[0] && forall t :: t in Members(at) ==> root.due <= t.due
    {
      forall t | t in Members(at) ensures root.due <= t.due {
        var i :| 0 <= i < |at| && at[i] == t;
        RootIsEarliest(at, i);
      }
    }

    /** The state of affairs after a clock check at `now` has woken `woken`, given
        what was in the heap, the run queue, the states and the marks before it. */
    ghost predicate Woken(woken: seq<Thread>, now: nat, heap: set<Thread>, queue: seq<Thread>,
                          state: map<Thread, State>, marked: set<Thread>)
      reads this`at, this`threads, this`runq, threads`state, threads`timedOut, threads`due
    {
      && runq == queue + woken
      && Members(woken) !! Members(at) && Members(woken) + Members(at) == heap && heap <= threads
      && state.Keys == threads
      && (forall t {:trigger t.state} :: t in threads ==> t.state == (if t in Members(woken) then RUNNABLE else state[t]))
      && (forall t {:trigger t.timedOut} :: t in threads ==>
            (t.timedOut <==> t in marked || (t in Members(woken) && state[t] == COND_WAIT)))
      && InOrder(woken, now, Members(at))
    }

    /** `woken` are due by `now`, in the order of their deadlines and not after any in `rest`. */
    ghost predicate InOrder(woken: seq<Thread>, now: nat, rest: set<Thread>)
      reads this`threads, threads`due
    {
      && Members(woken) <= threads && rest <= threads
      && (forall i :: 0 <= i < |woken| ==> woken[i].due <= now)
      && (forall i, j :: 0 <= i < j < |woken| ==> woken[i] != woken[j] && woken[i].due <= woken[j].due)
      && (forall i, u {:trigger woken[i], u in rest} :: 0 <= i < |woken| && u in rest ==> woken[i].due <= u.due)
    }

    lemma {:induction false} InOrderNext(woken: seq<Thread>, now: nat, rest: set<Thread>, next: Thread)
      requires InOrder(woken, now, rest) && Members(woken) !! rest
      requires next in rest && next.due <= now && forall u :: u in rest ==> next.due <= u.due
      ensures InOrder(woken + [next], now, rest - {next})
      ensures Members(woken + [next]) == Members(woken) + {next}
    {
      var more := woken + [next];
      assert forall i :: 0 <= i < |woken| ==> woken[i] in Members(woken);
      assert Members(more) == Members(woken) + {next};
    }

    /** Takes the first thread off the heap and makes it runnable. */
    method WakeFirst() returns (thread: Thread)
      requires Valid() && Flagged() && root != null
      modifies this`root, this`at, this`size, this`runq, threads`left, threads`right, threads`heapIndex
      modifies root`onSleepQ, root`state, root`timedOut
      ensures Valid() && Flagged()
      ensures thread == old(root) && Members(at) == Members(old(at)) - {thread} && |at| == old(|at|) - 1
      ensures runq == old(runq) + [thread]
      ensures thread.state == RUNNABLE && thread.timedOut == (old(thread.timedOut) || old(thread.state) == COND_WAIT)
    {
      thread := root;
      assert thread in Members(at) && thread.onSleepQ;
      DelSleepQ(thread);
      if thread.state == COND_WAIT {
        thread.timedOut := true;
      }
      thread.state := RUNNABLE;
      runq := runq + [thread];
    }

    method WakeNext(ghost woken: seq<Thread>, ghost now: nat, ghost heap: set<Thread>, ghost queue: seq<Thread>,
                    ghost state: map<Thread, State>, ghost marked: set<Thread>)
      returns (thread: Thread)
      requires Valid() && Flagged() && root != null && root.due <= now
      requires Woken(woken, now, heap, queue, state, marked)
      modifies this`root, this`at, this`size, this`runq
      modifies threads`left, threads`right, threads`heapIndex, threads`onSleepQ, threads`state, threads`timedOut
      ensures Valid() && Flagged() && |at| == old(|at|) - 1
      ensures Woken(woken + [thread], now, heap, queue, state, marked)
    {
      RootEarliest();
      InOrderNext(woken, now, Members(at), root);
      hide InOrder;
      thread := WakeFirst();
    }

    /** Wakes every thread whose deadline has come: they join the tail of the
        run queue in order of their deadlines, those that were waiting on a
        condition variable are marked as timed out, and only later deadlines
        are left in the heap. */
    method CheckClock(now: nat) returns (ghost woken: seq<Thread>)
      requires Valid() && Flagged() && lastClock <= now
      modifies this`root, this`at, this`size, this`lastClock, this`runq
      modifies threads`left, threads`right, threads`heapIndex, threads`onSleepQ, threads`state, threads`timedOut
      ensures Valid() && Flagged() && lastClock == now
      ensures runq == old(runq) + woken
      ensures forall i, j :: 0 <= i < j < |woken| ==> woken[i] != woken[j] && woken[i].due <= woken[j].due
      ensures Members(woken) == set t | t in Members(old(at)) && t.due <= now
      ensures Members(at) == set t | t in Members(old(at)) && t.due > now
      ensures forall t :: t in threads ==>
                && t.state == (if t in Members(woken) then RUNNABLE else old(t.state))
                && t.timedOut == (old(t.timedOut) || (t in Members(woken) && old(t.state) == COND_WAIT))
    {
      InThreads();
      hide Tree, HeapOrdered, Flagged;
      ghost var heap, queue := Members(at), runq;
      ghost var state, marked := map t | t in threads :: t.state, set t | t in threads && t.timedOut;
      lastClock := now;
      woken := [];
      while root != null
        invariant Valid() && Flagged() && lastClock == now
        invariant Woken(woken, now, heap, queue, state, marked)
        decreases |at|
      {
        if root.due > now {
          RootEarliest();
          break;
        }
        var thread := WakeNext(woken, now, heap, queue, state, marked);
        woken := woken + [thread];
      }
      InThreads();
    }
  }
}
