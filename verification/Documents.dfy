/** Documents as a whole: what is parsed can be built, and a clone is a copy. */
module Documents {
  import opened Wrappers
  import opened NodeTree
  import opened NodeGraph
  import NodeBuilding
  import NodeBuilder
  import NodeEvents
  import DocParsing
  import SingleDocParser

  // ---------- Parsing ----------

  /** Whatever the tokens: if the parser does not fail, its events are those of
      one well-formed node, and the builder takes them in without failing an
      assertion, ending with empty stacks and the node as its root. */
  lemma {:induction false} ParsedIsBuilt(tokens: seq<DocParsing.Token>)
    requires DocParsing.ParseNode(DocParsing.Input(tokens, map[], 0), DocParsing.NoCollection).Ok?
    ensures var t := DocParsing.ParseNode(DocParsing.Input(tokens, map[], 0), DocParsing.NoCollection).value;
            && Shaped(t) && Numbered(t, 0) != -1
            && NodeBuilding.Run(NodeBuilding.Initial, Flatten(t))
               == Some(NodeBuilding.State(Records(t, 0, []), Some(0), [], Anchors(t, 0, []), [], 0))
  {
    var s := DocParsing.Input(tokens, map[], 0);
    DocParsing.NodeFits(s, DocParsing.NoCollection);
    NodeBuilding.BuildsDocument(DocParsing.ParseNode(s, DocParsing.NoCollection).value);
  }

  // ---------- Cloning ----------

  /** The nodes a walk has visited, in the order of first visits. */
  ghost function Visited(g: Graph, root: nat): seq<nat>
    requires WellFormed(g) && root < |g|
  {
    Walk(g, root, []).order
  }

  ghost function CloneTree(g: Graph, root: nat): Tree
    requires WellFormed(g) && root < |g|
  {
    Unfold(g, Repeated(Walk(g, root, []).calls), root, [])
  }

  /** The copy has one node for every node visited, which are all different, the
      root first; each has the kind, tag and value of the original, and its
      children are the copies of the children. Only tags of nulls and styles of
      leaves are lost. */
  ghost predicate IsCopy(g: Graph, root: nat, records: seq<Record>) {
    && WellFormed(g) && root < |g| && Distinct(Visited(g, root)) && Visited(g, root) != []
        && Visited(g, root)[0] == root
    && InGraph(g, Visited(g, root)) && |records| == |Visited(g, root)|
    && forall i {:trigger records[i]} :: 0 <= i < |records| ==> Copies(g, Visited(g, root), i, records[i])
  }

  /** Cloning any finite graph, shared nodes and cycles included: its events have
      the anchors 1 to n in the order of first visits and aliases only behind
      them, and the builder makes a copy of them. */
  lemma {:induction false} CloneIsCopy(g: Graph, root: nat)
    requires WellFormed(g) && root < |g|
    ensures var t := CloneTree(g, root); var aliased := Repeated(Walk(g, root, []).calls);
            && Shaped(t) && Numbered(t, 0) == |Places(Visited(g, root), aliased)|
                && Anchors(t, 0, []) == Places(Visited(g, root), aliased)
            && NodeBuilding.Run(NodeBuilding.Initial, Flatten(t))
               == Some(NodeBuilding.State(Records(t, 0, []), Some(0), [], Anchors(t, 0, []), [], 0))
            && IsCopy(g, root, Records(t, 0, []))
  {
    var aliased := Repeated(Walk(g, root, []).calls);
    UnfoldFaithful(g, aliased, root, []);
    WalkDistinct(g, root, []);
    NodeBuilding.BuildsDocument(CloneTree(g, root));
    RootFirst(g, root);
  }

  lemma {:induction false} RootFirst(g: Graph, root: nat)
    requires WellFormed(g) && root < |g|
    ensures [root] <= Visited(g, root)
  {
    assert [] + [root] == [root];
  }

  /** Every visited node but the root is a child of one visited before. */
  ghost predicate FromEarlier(g: Graph, order: seq<nat>, from: nat, roots: seq<nat>) {
    InGraph(g, order) && forall i :: from <= i < |order| ==> order[i] in roots || exists p :: 0 <= p < i && order[i] in g[order[p]].kids
  }

  lemma {:induction false} VisitsAreChildren(g: Graph, n: nat, order: seq<nat>)
    requires WellFormed(g) && n < |g| && InGraph(g, order)
    ensures FromEarlier(g, Walk(g, n, order).order, |order|, [n])
    decreases Unseen(g, order), 1, 0
  {
    if n !in order {
      assert n in Unseen(g, order) && n !in Unseen(g, order + [n]);
      AllVisitsAreChildren(g, g[n].kids, order + [n]);
      var end := WalkAll(g, g[n].kids, order + [n]).order;
      assert end[|order|] == (order + [n])[|order|] == n;
    }
  }

  lemma {:induction false} AllVisitsAreChildren(g: Graph, ns: seq<nat>, order: seq<nat>)
    requires WellFormed(g) && InGraph(g, ns) && InGraph(g, order)
    ensures FromEarlier(g, WalkAll(g, ns, order).order, |order|, ns)
    decreases Unseen(g, order), 2, |ns|
  {
    if ns != [] {
      var mid := Walk(g, ns[0], order).order;
      assert Unseen(g, mid) <= Unseen(g, order);
      VisitsAreChildren(g, ns[0], order);
      AllVisitsAreChildren(g, ns[1..], mid);
    }
  }

  /** Nothing is copied but what the root leads to. */
  lemma {:induction false} CopiesOnlyReachable(g: Graph, root: nat, i: nat)
    requires WellFormed(g) && root < |g| && 0 < i < |Visited(g, root)|
    ensures InGraph(g, Visited(g, root)) && exists p :: 0 <= p < i && Visited(g, root)[i] in g[Visited(g, root)[p]].kids
  {
    VisitsAreChildren(g, root, []);
    WalkDistinct(g, root, []);
    RootFirst(g, root);
    assert Visited(g, root)[i] != root;
  }

  /** Clone: count, send, build. */
  method Clone(graph: Graph, root: nat) returns (builder: NodeBuilder.Builder)
    requires WellFormed(graph) && root < |graph|
    ensures fresh(builder) && builder.root == Some(0) && builder.stack == [] && builder.keys == []
            && builder.mapDepth == 0
    ensures IsCopy(graph, root, builder.memory)
  {
    var events := new NodeEvents.NodeEvents(graph, root);
    var handler := new SingleDocParser.EventLog();
    var am := new NodeEvents.AliasManager();
    builder := new NodeBuilder.Builder();
    ghost var calls := Walk(graph, root, []).calls;
    AliasedAreRepeated(events, calls);
    events.Emit(root, handler, am, []);
    CloneIsCopy(graph, root);
    builder.Build(CloneTree(graph, root), handler.events);
  }

  lemma {:induction false} AliasedAreRepeated(events: NodeEvents.NodeEvents, calls: seq<nat>)
    requires NodeEvents.Counted(events.refCount, calls)
    ensures events.Aliased() == Repeated(calls) && Once(calls, [], Repeated(calls))
  {
    assert forall m: nat :: NodeEvents.CountOf(events.refCount, m) == multiset(calls)[m];
  }
}
