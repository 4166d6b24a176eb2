/** Copying a graph of nodes through events: the walk that counts references,
    the tree of events it leads to, and the graph the builder makes of that. */
module NodeGraph {
  import opened Wrappers

  import opened NodeTree

  type Graph = seq<Record>

  /** A finite graph of defined nodes. */
  ghost predicate WellFormed(g: Graph) {
    forall n :: 0 <= n < |g| ==>
      && (forall j :: 0 <= j < |g[n].kids| ==> g[n].kids[j] < |g|)
      && (g[n].kind.Null? || g[n].kind.Scalar? ==> g[n].kids == [])
      && (g[n].kind.Map? ==> |g[n].kids| % 2 == 0)
  }

  ghost predicate InGraph(g: Graph, ns: seq<nat>) { forall i :: 0 <= i < |ns| ==> ns[i] < |g| }

  // ---------- The walk ----------

  /** The calls made, repeated visits included, and all first visits in order. */
  datatype Walked = Walked(calls: seq<nat>, order: seq<nat>)

  ghost function Unseen(g: Graph, order: seq<nat>): set<nat> { set n: nat | n < |g| && n !in order }

  ghost function Walk(g: Graph, n: nat, order: seq<nat>): (r: Walked)
    requires WellFormed(g) && n < |g|
    ensures order <= r.order && n in r.order
    decreases Unseen(g, order), 1, 0
  {
    if n in order then Walked([n], order) else
      assert n in Unseen(g, order) && n !in Unseen(g, order + [n]);
      var r := WalkAll(g, g[n].kids, order + [n]);
      Walked([n] + r.calls, r.order)
  }

  ghost function WalkAll(g: Graph, ns: seq<nat>, order: seq<nat>): (r: Walked)
    requires WellFormed(g) && InGraph(g, ns)
    ensures order <= r.order
    decreases Unseen(g, order), 2, |ns|
  {
    if ns == [] then Walked([], order) else
      var first := Walk(g, ns[0], order);
      assert Unseen(g, first.order) <= Unseen(g, order);
      var rest := WalkAll(g, ns[1..], first.order);
      Walked(first.calls + rest.calls, rest.order)
  }


  lemma {:induction false} WalkDistinct(g: Graph, n: nat, order: seq<nat>)
    requires WellFormed(g) && n < |g| && Distinct(order) && InGraph(g, order)
    ensures Distinct(Walk(g, n, order).order) && InGraph(g, Walk(g, n, order).order)
    decreases Unseen(g, order), 1, 0
  {
    if n !in order {
      assert n in Unseen(g, order) && n !in Unseen(g, order + [n]);
      WalkAllDistinct(g, g[n].kids, order + [n]);
    }
  }

  lemma {:induction false} WalkAllDistinct(g: Graph, ns: seq<nat>, order: seq<nat>)
    requires WellFormed(g) && InGraph(g, ns) && Distinct(order) && InGraph(g, order)
    ensures Distinct(WalkAll(g, ns, order).order) && InGraph(g, WalkAll(g, ns, order).order)
    decreases Unseen(g, order), 2, |ns|
  {
    if ns != [] {
      WalkDistinct(g, ns[0], order);
      var u := Walk(g, ns[0], order).order;
      assert Unseen(g, u) <= Unseen(g, order);
      WalkAllDistinct(g, ns[1..], u);
    }
  }

  /** A first visit is a call. */
  lemma {:induction false} VisitsAreCalls(g: Graph, n: nat, order: seq<nat>, m: nat)
    requires WellFormed(g) && n < |g| && m in Walk(g, n, order).order && m !in order
    ensures m in Walk(g, n, order).calls
    decreases Unseen(g, order), 1, 0
  {
    if n !in order && m != n {
      assert n in Unseen(g, order) && n !in Unseen(g, order + [n]);
      AllVisitsAreCalls(g, g[n].kids, order + [n], m);
    }
  }

  lemma {:induction false} AllVisitsAreCalls(g: Graph, ns: seq<nat>, order: seq<nat>, m: nat)
    requires WellFormed(g) && InGraph(g, ns) && m in WalkAll(g, ns, order).order && m !in order
    ensures m in WalkAll(g, ns, order).calls
    decreases Unseen(g, order), 2, |ns|
  {
    if ns != [] {
      var u := Walk(g, ns[0], order).order;
      assert Unseen(g, u) <= Unseen(g, order);
      if m in u { VisitsAreCalls(g, ns[0], order, m); } else { AllVisitsAreCalls(g, ns[1..], u, m); }
    }
  }

  // ---------- What has to be aliased ----------

  /** Whatever will be met again, or has been met before, is in `aliased`. */
  ghost predicate Once(calls: seq<nat>, order: seq<nat>, aliased: iset<nat>) {
    forall m {:trigger m in calls} {:trigger m in aliased} :: m in calls && (m in order || multiset(calls)[m] >= 2) ==> m in aliased
  }

  /** The nodes met at least twice. */
  ghost function Repeated(calls: seq<nat>): iset<nat> { iset m: nat | multiset(calls)[m] >= 2 }

  lemma {:induction false} OnceInKids(g: Graph, n: nat, order: seq<nat>, aliased: iset<nat>)
    requires WellFormed(g) && n < |g| && n !in order && Once(Walk(g, n, order).calls, order, aliased)
    ensures Once(WalkAll(g, g[n].kids, order + [n]).calls, order + [n], aliased)
  {
    var kids := WalkAll(g, g[n].kids, order + [n]).calls;
    assert Walk(g, n, order).calls == [n] + kids;
    assert multiset([n] + kids) == multiset([n]) + multiset(kids);
  }

  lemma {:induction false} OnceInRest(g: Graph, ns: seq<nat>, order: seq<nat>, aliased: iset<nat>)
    requires WellFormed(g) && InGraph(g, ns) && ns != [] && Once(WalkAll(g, ns, order).calls, order, aliased)
    ensures var first := Walk(g, ns[0], order);
            Once(first.calls, order, aliased) && Once(WalkAll(g, ns[1..], first.order).calls, first.order, aliased)
  {
    var first := Walk(g, ns[0], order);
    var rest := WalkAll(g, ns[1..], first.order).calls;
    var calls := first.calls + rest;
    assert WalkAll(g, ns, order).calls == calls;
    assert multiset(calls) == multiset(first.calls) + multiset(rest);
    forall m | m in rest && (m in first.order || multiset(rest)[m] >= 2) ensures m in aliased {
      if m in first.order && m !in order { VisitsAreCalls(g, ns[0], order, m); }
      assert m in calls;
    }
  }

  // ---------- The tree of events ----------

  /** The places of the aliased nodes. */
  ghost function Places(order: seq<nat>, aliased: iset<nat>): seq<nat> {
    if order == [] then [] else
      var n := |order| - 1;
      Places(order[..n], aliased) + (if order[n] in aliased then [n] else [])
  }

  /** Where in `places` node `n` is, from 1; 0 if it is not there. */
  ghost function AnchorOf(order: seq<nat>, places: seq<nat>, n: nat): (a: nat)
    ensures a <= |places| && (a > 0 ==> places[a - 1] < |order| && order[places[a - 1]] == n)
    ensures a == 0 ==> forall i :: 0 <= i < |places| ==> !(places[i] < |order| && order[places[i]] == n)
  {
    if places == [] then 0
    else
      var last := places[|places| - 1];
      if last < |order| && order[last] == n then |places| else AnchorOf(order, places[..|places| - 1], n)
  }

  lemma {:induction false} PlacesAre(order: seq<nat>, aliased: iset<nat>)
    ensures var p := Places(order, aliased);
            && Below(p, |order|)
            && (forall i :: 0 <= i < |p| ==> order[p[i]] in aliased)
            && (forall k :: 0 <= k < |order| && order[k] in aliased ==> k in p)
  {
    if order != [] {
      var n := |order| - 1;
      PlacesAre(order[..n], aliased);
      var p, q := Places(order, aliased), Places(order[..n], aliased);
      forall i | 0 <= i < |p| ensures p[i] < |order| && order[p[i]] in aliased {
        if i < |q| { assert p[i] == q[i] && order[..n][q[i]] == order[q[i]]; }
      }
      forall k | 0 <= k < |order| && order[k] in aliased ensures k in p {
        if k < n { assert order[..n][k] == order[k] && k in q; } else { assert p[|q|] == n; }
      }
    }
  }

  ghost function Anchor(order: seq<nat>, aliased: iset<nat>, n: nat): nat {
    AnchorOf(order, Places(order, aliased), n)
  }

  /** A copy of a null loses its tag, and only collections keep a style. */
  ghost function Unfold(g: Graph, aliased: iset<nat>, n: nat, order: seq<nat>): Tree
    requires WellFormed(g) && n < |g|
    decreases Unseen(g, order), 1, 0
  {
    if n in order then Alias(Anchor(order, aliased, n)) else
      assert n in Unseen(g, order) && n !in Unseen(g, order + [n]);
      var x := Image(g[n]);
      Node(x.kind, x.tag, x.style, x.value, if n in aliased then |Places(order, aliased)| + 1 else 0,
           UnfoldAll(g, aliased, g[n].kids, order + [n]))
  }

  ghost function UnfoldAll(g: Graph, aliased: iset<nat>, ns: seq<nat>, order: seq<nat>): (r: seq<Tree>)
    requires WellFormed(g) && InGraph(g, ns)
    ensures |r| == |ns|
    decreases Unseen(g, order), 2, |ns|
  {
    if ns == [] then [] else
      var u := Walk(g, ns[0], order).order;
      assert Unseen(g, u) <= Unseen(g, order);
      [Unfold(g, aliased, ns[0], order)] + UnfoldAll(g, aliased, ns[1..], u)
  }

  function Image(r: Record): Record {
    match r.kind
    case Null => Record(Null, "", Default, "", [])
    case Scalar => Record(Scalar, r.tag, Default, r.value, [])
    case _ => Record(r.kind, r.tag, r.style, "", r.kids)
  }

  // ---------- The copy ----------

  /** Node `r`, made in place `i`, is a copy of the node first visited there;
      its children are the copies of the children. */
  ghost predicate Copies(g: Graph, order: seq<nat>, i: nat, r: Record)
    requires i < |order| && order[i] < |g|
  {
    var x := Image(g[order[i]]);
    && r.kind == x.kind && r.tag == x.tag && r.style == x.style && r.value == x.value && |r.kids| == |g[order[i]].kids|
    && forall j :: 0 <= j < |r.kids| ==> r.kids[j] < |order| && order[r.kids[j]] == g[order[i]].kids[j]
  }

  lemma {:induction false} CopiesLater(g: Graph, order: seq<nat>, more: seq<nat>, i: nat, r: Record)
    requires i < |order| && order <= more && order[i] < |g| && Copies(g, order, i, r)
    ensures Copies(g, more, i, r)
  {
  }

  /** What the tree of a walk from `order` to `end` builds. */
  ghost predicate Builds(g: Graph, aliased: iset<nat>, order: seq<nat>, end: seq<nat>, records: seq<Record>,
      anchors: seq<nat>) {
    && order <= end && InGraph(g, end) && |records| == |end| - |order| && anchors == Places(end, aliased)
    && forall i {:trigger records[i]} :: 0 <= i < |records| ==> Copies(g, end, |order| + i, records[i])
  }

  lemma {:induction false} BuildsJoin(g: Graph, aliased: iset<nat>, order: seq<nat>, mid: seq<nat>, end: seq<nat>,
                                      r1: seq<Record>, a1: seq<nat>, r2: seq<Record>, a2: seq<nat>)
    requires Builds(g, aliased, order, mid, r1, a1) && Builds(g, aliased, mid, end, r2, a2)
    ensures Builds(g, aliased, order, end, r1 + r2, a2)
  {
    forall i | 0 <= i < |r1 + r2| ensures Copies(g, end, |order| + i, (r1 + r2)[i]) {
      if i < |r1| { CopiesLater(g, mid, end, |order| + i, r1[i]); }
    }
  }

  lemma {:induction false} PlacesNext(order: seq<nat>, aliased: iset<nat>, n: nat)
    ensures Places(order + [n], aliased) == Places(order, aliased) + (if n in aliased then [|order|] else [])
  {
    assert (order + [n])[..|order|] == order;
  }

  ghost predicate Named(ids: seq<nat>, end: seq<nat>, ns: seq<nat>) {
    |ids| == |ns| && forall j :: 0 <= j < |ids| ==> ids[j] < |end| && end[ids[j]] == ns[j]
  }

  lemma {:induction false} BuildsNode(g: Graph, aliased: iset<nat>, n: nat, order: seq<nat>, end: seq<nat>,
                                      ids: seq<nat>, records: seq<Record>, anchors: seq<nat>)
    requires WellFormed(g) && n < |g| && Builds(g, aliased, order + [n], end, records, anchors)
             && Named(ids, end, g[n].kids)
    ensures var x := Image(g[n]);
            Builds(g, aliased, order, end, [Record(x.kind, x.tag, x.style, x.value, ids)] + records, anchors)
  {
    var x := Image(g[n]);
    var all := [Record(x.kind, x.tag, x.style, x.value, ids)] + records;
    assert end[|order|] == (order + [n])[|order|] == n;
    forall i | 0 <= i < |all| ensures Copies(g, end, |order| + i, all[i]) {
      if i > 0 { assert all[i] == records[i - 1]; }
    }
  }

  /** The tree is well-formed, its anchors are in order, and its graph is a copy
      of what the walk has found. */
  ghost predicate Faithful(g: Graph, aliased: iset<nat>, n: nat, order: seq<nat>, end: seq<nat>, t: Tree) {
    var p := Places(order, aliased);
    && Shaped(t) && Numbered(t, |p|) == |Places(end, aliased)| && Count(t) == |end| - |order|
    && Named([Id(t, |order|, p)], end, [n])
    && Builds(g, aliased, order, end, Records(t, |order|, p), Anchors(t, |order|, p))
  }

  ghost predicate AllFaithful(g: Graph, aliased: iset<nat>, ns: seq<nat>, order: seq<nat>, end: seq<nat>,
      ts: seq<Tree>) {
    var p := Places(order, aliased);
    && ShapedAll(ts) && NumberedAll(ts, |p|) == |Places(end, aliased)| && CountAll(ts) == |end| - |order|
    && Named(Ids(ts, |order|, p), end, ns)
    && Builds(g, aliased, order, end, RecordsAll(ts, |order|, p), AnchorsAll(ts, |order|, p))
  }

  lemma {:induction false} AliasFaithful(g: Graph, aliased: iset<nat>, n: nat, order: seq<nat>)
    requires InGraph(g, order) && n in order && n in aliased
    ensures Faithful(g, aliased, n, order, order, Alias(Anchor(order, aliased, n)))
  {
    PlacesAre(order, aliased);
    var k :| 0 <= k < |order| && order[k] == n;
    assert k in Places(order, aliased);
  }

  lemma {:induction false} NodeFaithful(g: Graph, aliased: iset<nat>, n: nat, order: seq<nat>, end: seq<nat>,
      ts: seq<Tree>)
    requires WellFormed(g) && n < |g| && |ts| == |g[n].kids| && order + [n] <= end
    requires AllFaithful(g, aliased, g[n].kids, order + [n], end, ts)
    ensures var x := Image(g[n]);
            Faithful(g, aliased, n, order, end,
                     Node(x.kind, x.tag, x.style, x.value, if n in aliased then |Places(order, aliased)| + 1
                         else 0, ts))
  {
    var x, p, q := Image(g[n]), Places(order, aliased), Places(order + [n], aliased);
    PlacesNext(order, aliased, n);
    var anchor := if n in aliased then |p| + 1 else 0;
    assert q == NodeTree.Anchor(p, anchor, |order|);
    assert end[|order|] == (order + [n])[|order|] == n;
    BuildsNode(g, aliased, n, order, end, Ids(ts, |order| + 1, q), RecordsAll(ts, |order| + 1, q),
        AnchorsAll(ts, |order| + 1, q));
  }

  lemma {:induction false} JoinFaithful(g: Graph, aliased: iset<nat>, ns: seq<nat>, order: seq<nat>, mid: seq<nat>,
      end: seq<nat>, t: Tree, ts: seq<Tree>)
    requires ns != [] && Faithful(g, aliased, ns[0], order, mid, t) && AllFaithful(g, aliased, ns[1..], mid, end, ts)
    ensures AllFaithful(g, aliased, ns, order, end, [t] + ts)
  {
    var p, q := Places(order, aliased), Places(mid, aliased);
    assert ([t] + ts)[1..] == ts;
    BuildsJoin(g, aliased, order, mid, end, Records(t, |order|, p), q, RecordsAll(ts, |mid|, q),
        AnchorsAll(ts, |mid|, q));
    NamedJoin(Id(t, |order|, p), Ids(ts, |mid|, q), mid, end, ns);
  }

  lemma {:induction false} NamedJoin(id: nat, ids: seq<nat>, mid: seq<nat>, end: seq<nat>, ns: seq<nat>)
    requires ns != [] && mid <= end && Named([id], mid, [ns[0]]) && Named(ids, end, ns[1..])
    ensures Named([id] + ids, end, ns)
  {
    assert [id][0] == id;
  }

  lemma {:induction false} UnfoldFaithful(g: Graph, aliased: iset<nat>, n: nat, order: seq<nat>)
    requires WellFormed(g) && n < |g| && InGraph(g, order) && Once(Walk(g, n, order).calls, order, aliased)
    ensures Faithful(g, aliased, n, order, Walk(g, n, order).order, Unfold(g, aliased, n, order))
    decreases Unseen(g, order), 1, 0
  {
    if n in order {
      assert n in Walk(g, n, order).calls;
      AliasFaithful(g, aliased, n, order);
    } else {
      assert n in Unseen(g, order) && n !in Unseen(g, order + [n]);
      OnceInKids(g, n, order, aliased);
      UnfoldAllFaithful(g, aliased, g[n].kids, order + [n]);
      NodeFaithful(g, aliased, n, order, Walk(g, n, order).order, UnfoldAll(g, aliased, g[n].kids, order + [n]));
    }
  }

  lemma {:induction false} UnfoldAllFaithful(g: Graph, aliased: iset<nat>, ns: seq<nat>, order: seq<nat>)
    requires WellFormed(g) && InGraph(g, ns) && InGraph(g, order) && Once(WalkAll(g, ns, order).calls, order, aliased)
    ensures AllFaithful(g, aliased, ns, order, WalkAll(g, ns, order).order, UnfoldAll(g, aliased, ns, order))
    decreases Unseen(g, order), 2, |ns|
  {
    if ns != [] {
      OnceInRest(g, ns, order, aliased);
      var u := Walk(g, ns[0], order).order;
      assert Unseen(g, u) <= Unseen(g, order);
      UnfoldFaithful(g, aliased, ns[0], order);
      UnfoldAllFaithful(g, aliased, ns[1..], u);
      JoinFaithful(g, aliased, ns, order, u, WalkAll(g, ns, order).order, Unfold(g, aliased, ns[0], order),
          UnfoldAll(g, aliased, ns[1..], u));
    }
  }
}
