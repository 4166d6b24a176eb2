/** NodeEvents: the recursive counting of references and the recursive sending
    of events, which stops at nodes already sent only if they were counted twice. */
module NodeEvents {
  import opened NodeTree
  import opened NodeGraph
  import SingleDocParser

  function CountOf(counts: map<nat, nat>, n: nat): nat { if n in counts then counts[n] else 0 }

  /** The counts are those of the calls so far. */
  ghost predicate Counted(counts: map<nat, nat>, calls: seq<nat>) {
    forall n: nat {:trigger CountOf(counts, n)} :: CountOf(counts, n) == multiset(calls)[n]
  }

  ghost predicate OnlySeen(counts: map<nat, nat>, order: seq<nat>) {
    forall n: nat {:trigger CountOf(counts, n)} :: CountOf(counts, n) > 0 <==> n in order
  }

  lemma {:induction false} CountOneMore(counts: map<nat, nat>, calls: seq<nat>, order: seq<nat>, n: nat)
    requires Counted(counts, calls) && OnlySeen(counts, order)
    ensures var more := counts[n := CountOf(counts, n) + 1];
            Counted(more, calls + [n]) && (more[n] > 1 <==> n in order)
                && OnlySeen(more, if n in order then order else order + [n])
  {
    var more := counts[n := CountOf(counts, n) + 1];
    assert multiset(calls + [n]) == multiset(calls) + multiset{n};
    forall m: nat ensures CountOf(more, m) == if m == n then CountOf(counts, m) + 1 else CountOf(counts, m) { }
  }

  /** The first of the nodes still to be sent, and the others. */
  lemma {:induction false} RestOfUnfold(g: Graph, aliased: iset<nat>, ns: seq<nat>, i: nat, order: seq<nat>)
    requires WellFormed(g) && InGraph(g, ns) && i < |ns|
    ensures var u := Walk(g, ns[i], order).order;
            && ns[i..][0] == ns[i] && ns[i..][1..] == ns[i + 1..]
            && FlattenAll(UnfoldAll(g, aliased, ns[i..], order))
                == Flatten(Unfold(g, aliased, ns[i], order)) + FlattenAll(UnfoldAll(g, aliased, ns[i + 1..], u))
            && WalkAll(g, ns[i..], order).order == WalkAll(g, ns[i + 1..], u).order
            && WalkAll(g, ns[i..], order).calls == Walk(g, ns[i], order).calls + WalkAll(g, ns[i + 1..], u).calls
  {
    assert ns[i..][1..] == ns[i + 1..];
    assert UnfoldAll(g, aliased, ns[i..], order)[1..]
        == UnfoldAll(g, aliased, ns[i + 1..], Walk(g, ns[i], order).order);
  }

  ghost predicate HasAnchors(anchors: map<nat, nat>, cur: nat, order: seq<nat>, aliased: iset<nat>) {
    && cur == |Places(order, aliased)|
    && (forall n: nat {:trigger n in anchors} :: n in anchors <==> n in order && n in aliased)
    && (forall n: nat {:trigger anchors[n]} :: n in anchors ==> anchors[n] > 0 && anchors[n] == NodeGraph.Anchor(order, aliased, n))
  }

  /** Anchors given already stay. */
  lemma {:induction false} AnchorStays(order: seq<nat>, places: seq<nat>, n: nat, m: nat)
    requires m != n && Below(places, |order|)
    ensures AnchorOf(order + [n], places, m) == AnchorOf(order, places, m)
    ensures AnchorOf(order + [n], places + [|order|], m) == AnchorOf(order, places, m)
  {
    assert (places + [|order|])[..|places|] == places;
    if places != [] { AnchorStays(order, places[..|places| - 1], n, m); }
  }

  /** A node visited for the first time gets the next anchor if it is aliased. */
  lemma {:induction false} NextAnchor(anchors: map<nat, nat>, cur: nat, order: seq<nat>, aliased: iset<nat>, n: nat)
    requires HasAnchors(anchors, cur, order, aliased) && n !in order
    ensures n in aliased ==> HasAnchors(anchors[n := cur + 1], cur + 1, order + [n], aliased)
    ensures n !in aliased ==> HasAnchors(anchors, cur, order + [n], aliased)
  {
    PlacesNext(order, aliased, n);
    OldAnchors(order, aliased, n);
    if n in aliased { OwnAnchor(order, aliased, n); }
    hide Places, NodeGraph.Anchor, AnchorOf;
    AnchorKept(anchors, cur, order, aliased, n);
  }

  lemma {:induction false} AnchorKept(anchors: map<nat, nat>, cur: nat, order: seq<nat>, aliased: iset<nat>, n: nat)
    requires HasAnchors(anchors, cur, order, aliased) && n !in order
    requires Places(order + [n], aliased) == Places(order, aliased) + (if n in aliased then [|order|] else [])
    requires forall m: nat :: m != n ==> NodeGraph.Anchor(order + [n], aliased, m) == NodeGraph.Anchor(order, aliased, m)
    requires n in aliased ==> NodeGraph.Anchor(order + [n], aliased, n) == cur + 1
    ensures n in aliased ==> HasAnchors(anchors[n := cur + 1], cur + 1, order + [n], aliased)
    ensures n !in aliased ==> HasAnchors(anchors, cur, order + [n], aliased)
  {
    hide Places, NodeGraph.Anchor, AnchorOf;
    assert forall m: nat :: m in order + [n] <==> m in order || m == n;
  }

  lemma {:induction false} OldAnchors(order: seq<nat>, aliased: iset<nat>, n: nat)
    ensures forall m: nat :: m != n ==> NodeGraph.Anchor(order + [n], aliased, m) == NodeGraph.Anchor(order, aliased, m)
  {
    forall m: nat | m != n ensures NodeGraph.Anchor(order + [n], aliased, m) == NodeGraph.Anchor(order, aliased, m) {
      OldAnchor(order, aliased, n, m);
    }
  }

  lemma {:induction false} OldAnchor(order: seq<nat>, aliased: iset<nat>, n: nat, m: nat)
    requires m != n
    ensures NodeGraph.Anchor(order + [n], aliased, m) == NodeGraph.Anchor(order, aliased, m)
  {
    PlacesAre(order, aliased);
    var p := Places(order, aliased);
    AnchorStays(order, p, n, m);
    PlacesNext(order, aliased, n);
    assert p + [] == p;
    hide AnchorOf, Places;
    assert NodeGraph.Anchor(order + [n], aliased, m)
        == AnchorOf(order + [n], if n in aliased then p + [|order|] else p, m);
  }

  lemma {:induction false} OwnAnchor(order: seq<nat>, aliased: iset<nat>, n: nat)
    requires n in aliased
    ensures NodeGraph.Anchor(order + [n], aliased, n) == |Places(order, aliased)| + 1
  {
    PlacesNext(order, aliased, n);
    LastPlace(order + [n], Places(order, aliased), n);
    hide AnchorOf, Places;
  }

  lemma {:induction false} LastPlace(order: seq<nat>, places: seq<nat>, n: nat)
    requires order != [] && order[|order| - 1] == n
    ensures AnchorOf(order, places + [|order| - 1], n) == |places| + 1
  {
  }

  lemma {:induction false} Joined(a: seq<Event>, b: seq<Event>, c: seq<Event>)
    ensures a + b + c == a + (b + c)
  {
  }

  lemma {:induction false} Grouped(a: seq<Event>, b: seq<Event>, c: seq<Event>, d: seq<Event>)
    ensures a + b + c + d == a + (b + c + d)
  {
  }

  class AliasManager {
    var anchorByIdentity: map<nat, nat>
    var curAnchor: nat

    constructor ()
      ensures anchorByIdentity == map[] && curAnchor == 0
    {
      anchorByIdentity, curAnchor := map[], 0;
    }

    method RegisterReference(n: nat)
      modifies this
      ensures curAnchor == old(curAnchor) + 1
      ensures anchorByIdentity == if n in old(anchorByIdentity) then old(anchorByIdentity)
              else old(anchorByIdentity)[n := curAnchor]
    {
      curAnchor := curAnchor + 1;
      if n !in anchorByIdentity {
        anchorByIdentity := anchorByIdentity[n := curAnchor];
      }
    }

    function LookupAnchor(n: nat): nat
      reads this
    {
      CountOf(anchorByIdentity, n)
    }

    /** The nodes of `order` in `aliased` have the anchors 1, 2, ... in that order. */
    ghost predicate Holds(order: seq<nat>, aliased: iset<nat>)
      reads this
    {
      HasAnchors(anchorByIdentity, curAnchor, order, aliased)
    }
  }

  class NodeEvents {
    const graph: Graph
    var refCount: map<nat, nat>

    constructor (graph: Graph, root: nat)
      requires WellFormed(graph) && root < |graph|
      ensures this.graph == graph && Counted(refCount, Walk(graph, root, []).calls)
    {
      this.graph := graph;
      refCount := map[];
      new;
      ghost var calls := Setup(root, [], []);
      assert [] + Walk(graph, root, []).calls == Walk(graph, root, []).calls;
    }

    method Setup(n: nat, ghost order: seq<nat>, ghost before: seq<nat>) returns (ghost calls: seq<nat>)
      requires WellFormed(graph) && n < |graph| && Counted(refCount, before) && OnlySeen(refCount, order)
      modifies this
      ensures calls == before + Walk(graph, n, order).calls
      ensures Counted(refCount, calls) && OnlySeen(refCount, Walk(graph, n, order).order)
      decreases Unseen(graph, order), 1, 0
    {
      CountOneMore(refCount, before, order, n);
      refCount := refCount[n := CountOf(refCount, n) + 1];
      calls := before + [n];
      if refCount[n] > 1 {
        return;
      }
      assert n in Unseen(graph, order) && n !in Unseen(graph, order + [n]);
      var kids := graph[n].kids;
      if graph[n].kind == Sequence || graph[n].kind == Map {
        calls := SetupAll(kids, order + [n], calls);
      }
    }

    method SetupAll(ns: seq<nat>, ghost order: seq<nat>, ghost before: seq<nat>) returns (ghost calls: seq<nat>)
      requires WellFormed(graph) && InGraph(graph, ns) && Counted(refCount, before) && OnlySeen(refCount, order)
      modifies this
      ensures calls == before + WalkAll(graph, ns, order).calls
      ensures Counted(refCount, calls) && OnlySeen(refCount, WalkAll(graph, ns, order).order)
      decreases Unseen(graph, order), 2, |ns|
    {
      calls := before;
      ghost var seen := order;
      var i := 0;
      while i < |ns|
        invariant 0 <= i <= |ns| && Counted(refCount, calls) && OnlySeen(refCount, seen) && order <= seen
        invariant calls + WalkAll(graph, ns[i..], seen).calls == before + WalkAll(graph, ns, order).calls
        invariant WalkAll(graph, ns[i..], seen).order == WalkAll(graph, ns, order).order
      {
        assert Unseen(graph, seen) <= Unseen(graph, order);
        assert ns[i..][1..] == ns[i + 1..];
        ghost var w := Walk(graph, ns[i], seen);
        calls := Setup(ns[i], seen, calls);
        seen := w.order;
        i := i + 1;
      }
    }

    /** The nodes met at least twice. */
    ghost function Aliased(): iset<nat>
      reads this
    {
      iset n: nat | CountOf(refCount, n) > 1
    }

    predicate IsAliased(n: nat)
      reads this
    {
      n in refCount && refCount[n] > 1
    }

    /** Looks up or makes the anchor of a node. */
    method Enter(n: nat, am: AliasManager, ghost order: seq<nat>) returns (anchor: nat, again: bool)
      requires am.Holds(order, Aliased()) && (n in order ==> n in Aliased())
      modifies am
      ensures again <==> n in order
      ensures again ==> anchor == NodeGraph.Anchor(order, Aliased(), n) && am.Holds(order, Aliased())
      ensures !again ==> anchor == (if n in Aliased() then |Places(order, Aliased())| + 1 else 0) && am.Holds(order + [n], Aliased())
    {
      if n !in order { NextAnchor(am.anchorByIdentity, am.curAnchor, order, Aliased(), n); }
      anchor, again := 0, false;
      if IsAliased(n) {
        anchor := am.LookupAnchor(n);
        if anchor != 0 {
          again := true;
          return;
        }
        am.RegisterReference(n);
        anchor := am.LookupAnchor(n);
      }
    }

    method Emit(n: nat, handler: SingleDocParser.EventLog, am: AliasManager, ghost order: seq<nat>)
      requires WellFormed(graph) && n < |graph| && am.Holds(order, Aliased())
               && Once(Walk(graph, n, order).calls, order, Aliased())
      modifies handler, am
      ensures am.Holds(Walk(graph, n, order).order, Aliased())
      ensures handler.events == old(handler.events) + Flatten(Unfold(graph, Aliased(), n, order))
      decreases Unseen(graph, order), 1, 0
    {
      assert n in Walk(graph, n, order).calls;
      hide HasAnchors;
      var anchor, again := Enter(n, am, order);
      if again {
        handler.Send(OnAlias(anchor));
        return;
      }
      OnceInKids(graph, n, order, Aliased());
      EmitNew(n, anchor, handler, am, order);
    }

    /** A node that is sent for the first time. */
    method EmitNew(n: nat, anchor: nat, handler: SingleDocParser.EventLog, am: AliasManager, ghost order: seq<nat>)
      requires WellFormed(graph) && n < |graph| && n !in order && am.Holds(order + [n], Aliased())
      requires anchor == if n in Aliased() then |Places(order, Aliased())| + 1 else 0
      requires Once(WalkAll(graph, graph[n].kids, order + [n]).calls, order + [n], Aliased())
      modifies handler, am
      ensures am.Holds(Walk(graph, n, order).order, Aliased())
      ensures handler.events == old(handler.events) + Flatten(Unfold(graph, Aliased(), n, order))
      decreases Unseen(graph, order), 0, 0
    {
      ghost var was, kidEvents := handler.events, FlattenAll(UnfoldAll(graph, Aliased(), graph[n].kids, order + [n]));
      UnfoldEvents(graph, Aliased(), n, order, anchor);
      assert n in Unseen(graph, order) && n !in Unseen(graph, order + [n]);
      hide HasAnchors, Once, WellFormed, Unfold, Flatten, UnfoldAll, FlattenAll, Walk, WalkAll, Places;
      SendStart(graph[n], anchor, handler);
      if graph[n].kind == Sequence || graph[n].kind == Map {
        EmitAll(graph[n].kids, handler, am, order + [n]);
      }
      assert handler.events == was + [Start(graph[n], anchor)] + kidEvents;
      SendEnd(graph[n], handler);
      Grouped(was, [Start(graph[n], anchor)], kidEvents, End(graph[n]));
    }

    static ghost function Start(r: Record, anchor: nat): Event {
      match r.kind
      case Null => OnNull(anchor)
      case Scalar => OnScalar(r.tag, anchor, r.value)
      case Sequence => OnSequenceStart(r.tag, anchor, r.style)
      case Map => OnMapStart(r.tag, anchor, r.style)
    }

    static ghost function End(r: Record): seq<Event> {
      if r.kind == Sequence then [OnSequenceEnd] else if r.kind == Map then [OnMapEnd] else []
    }

    method SendStart(r: Record, anchor: nat, handler: SingleDocParser.EventLog)
      modifies handler
      ensures handler.events == old(handler.events) + [Start(r, anchor)]
    {
      match r.kind
      case Null => handler.Send(OnNull(anchor));
      case Scalar => handler.Send(OnScalar(r.tag, anchor, r.value));
      case Sequence => handler.Send(OnSequenceStart(r.tag, anchor, r.style));
      case Map => handler.Send(OnMapStart(r.tag, anchor, r.style));
    }

    method SendEnd(r: Record, handler: SingleDocParser.EventLog)
      modifies handler
      ensures handler.events == old(handler.events) + End(r)
    {
      if r.kind == Sequence {
        handler.Send(OnSequenceEnd);
      } else if r.kind == Map {
        handler.Send(OnMapEnd);
      }
    }

    static lemma {:induction false} UnfoldEvents(g: Graph, aliased: iset<nat>, n: nat, order: seq<nat>, anchor: nat)
      requires WellFormed(g) && n < |g| && n !in order
               && anchor == if n in aliased then |Places(order, aliased)| + 1 else 0
      ensures Flatten(Unfold(g, aliased, n, order))
              == [Start(g[n], anchor)] + FlattenAll(UnfoldAll(g, aliased, g[n].kids, order + [n])) + End(g[n])
      ensures Walk(g, n, order).order == WalkAll(g, g[n].kids, order + [n]).order
      ensures g[n].kind.Null? || g[n].kind.Scalar? ==> FlattenAll(UnfoldAll(g, aliased, g[n].kids, order + [n])) == []
      ensures g[n].kind.Null? || g[n].kind.Scalar? ==> Walk(g, n, order).order == order + [n]
    {
    }

    method EmitAll(ns: seq<nat>, handler: SingleDocParser.EventLog, am: AliasManager, ghost order: seq<nat>)
      requires WellFormed(graph) && InGraph(graph, ns) && am.Holds(order, Aliased())
               && Once(WalkAll(graph, ns, order).calls, order, Aliased())
      modifies handler, am
      ensures am.Holds(WalkAll(graph, ns, order).order, Aliased())
      ensures handler.events == old(handler.events) + FlattenAll(UnfoldAll(graph, Aliased(), ns, order))
      decreases Unseen(graph, order), 2, |ns|
    {
      ghost var seen := order;
      ghost var goal := handler.events + FlattenAll(UnfoldAll(graph, Aliased(), ns, order));
      var i := 0;
      while i < |ns|
        invariant 0 <= i <= |ns| && order <= seen && am.Holds(seen, Aliased())
        invariant Once(WalkAll(graph, ns[i..], seen).calls, seen, Aliased())
        invariant WalkAll(graph, ns[i..], seen).order == WalkAll(graph, ns, order).order
        invariant handler.events + FlattenAll(UnfoldAll(graph, Aliased(), ns[i..], seen)) == goal
      {
        assert Unseen(graph, seen) <= Unseen(graph, order);
        RestOfUnfold(graph, Aliased(), ns, i, seen);
        OnceInRest(graph, ns[i..], seen, Aliased());
        Joined(handler.events, Flatten(Unfold(graph, Aliased(), ns[i], seen)),
            FlattenAll(UnfoldAll(graph, Aliased(), ns[i + 1..], Walk(graph, ns[i], seen).order)));
        hide Walk, WalkAll, Unfold, UnfoldAll, Once, HasAnchors, Flatten, FlattenAll, Aliased, WellFormed;
        Emit(ns[i], handler, am, seen);
        seen := Walk(graph, ns[i], seen).order;
        i := i + 1;
      }
    }
  }
}
