/** YAML nodes as trees, the events that stand for them, and the graph a
    document means. */
module NodeTree {
  datatype Kind = Null | Scalar | Sequence | Map

  datatype Style = Default | Block | Flow

  /** Anchors are numbered from 1; 0 is no anchor. The children of a map are its
      keys and values in turn. */
  datatype Tree =
    | Alias(a: nat)
    | Node(kind: Kind, tag: string, style: Style, value: string, anchor: nat, kids: seq<Tree>)

  datatype Event =
    | OnNull(anchor: nat) | OnAlias(anchor: nat) | OnScalar(tag: string, anchor: nat, value: string)
    | OnSequenceStart(tag: string, anchor: nat, style: Style) | OnSequenceEnd
    | OnMapStart(tag: string, anchor: nat, style: Style) | OnMapEnd

  function NullNode(anchor: nat): Tree { Node(Null, "", Default, "", anchor, []) }

  /** A node with the children its kind can have, and what its events can tell. */
  predicate Shaped(t: Tree) {
    t.Node? ==>
      && (t.kind.Null? || t.kind.Scalar? ==> t.kids == [] && t.style == Default)
      && (!t.kind.Scalar? ==> t.value == "") && (t.kind.Null? ==> t.tag == "")
      && (t.kind.Map? ==> |t.kids| % 2 == 0)
      && ShapedAll(t.kids)
  }

  predicate ShapedAll(ts: seq<Tree>) {
    ts == [] || (Shaped(ts[0]) && ShapedAll(ts[1..]))
  }

  /** The events of exactly one node. */
  function Flatten(t: Tree): seq<Event> {
    match t
    case Alias(a) => [OnAlias(a)]
    case Node(kind, tag, style, value, anchor, kids) =>
      match kind
      case Null => [OnNull(anchor)]
      case Scalar => [OnScalar(tag, anchor, value)]
      case Sequence => [OnSequenceStart(tag, anchor, style)] + FlattenAll(kids) + [OnSequenceEnd]
      case Map => [OnMapStart(tag, anchor, style)] + FlattenAll(kids) + [OnMapEnd]
  }

  function FlattenAll(ts: seq<Tree>): seq<Event> {
    if ts == [] then [] else Flatten(ts[0]) + FlattenAll(ts[1..])
  }

  /** Anchors come as n + 1, n + 2, ... and no alias comes before its anchor;
      the result is the last anchor used. */
  function Numbered(t: Tree, n: nat): (r: int)
    ensures r == -1 || r >= n
  {
    match t
    case Alias(a) => if 1 <= a <= n then n else -1
    case Node(_, _, _, _, anchor, kids) =>
      if anchor == 0 then NumberedAll(kids, n) else if anchor == n + 1 then NumberedAll(kids, n + 1) else -1
  }

  function NumberedAll(ts: seq<Tree>, n: nat): (r: int)
    ensures r == -1 || r >= n
  {
    if ts == [] then n else
      var m := Numbered(ts[0], n);
      if m == -1 then -1 else NumberedAll(ts[1..], m)
  }

  // ---------- The graph a tree stands for ----------

  datatype Record = Record(kind: Kind, tag: string, style: Style, value: string, kids: seq<nat>)

  /** The new nodes of a tree. */
  function Count(t: Tree): nat {
    if t.Alias? then 0 else 1 + CountAll(t.kids)
  }

  function CountAll(ts: seq<Tree>): nat {
    if ts == [] then 0 else Count(ts[0]) + CountAll(ts[1..])
  }

  /** The node an alias means; node 0 if there is no such anchor. */
  function Anchored(anchors: seq<nat>, a: nat): nat { if 1 <= a <= |anchors| then anchors[a - 1] else 0 }

  function Anchor(anchors: seq<nat>, anchor: nat, id: nat): seq<nat> { if anchor == 0 then anchors else anchors + [id] }

  /** Nodes are numbered in the order in which they start, from `base`. */
  function Id(t: Tree, base: nat, anchors: seq<nat>): nat {
    if t.Alias? then Anchored(anchors, t.a) else base
  }

  /** The anchored nodes once the tree has been read. */
  function Anchors(t: Tree, base: nat, anchors: seq<nat>): seq<nat> {
    if t.Alias? then anchors else AnchorsAll(t.kids, base + 1, Anchor(anchors, t.anchor, base))
  }

  function AnchorsAll(ts: seq<Tree>, base: nat, anchors: seq<nat>): seq<nat> {
    if ts == [] then anchors else AnchorsAll(ts[1..], base + Count(ts[0]), Anchors(ts[0], base, anchors))
  }

  function Ids(ts: seq<Tree>, base: nat, anchors: seq<nat>): (r: seq<nat>)
    ensures |r| == |ts|
  {
    if ts == [] then []
    else [Id(ts[0], base, anchors)] + Ids(ts[1..], base + Count(ts[0]), Anchors(ts[0], base, anchors))
  }

  /** The records of the new nodes. */
  function Records(t: Tree, base: nat, anchors: seq<nat>): (r: seq<Record>)
    ensures |r| == Count(t)
  {
    if t.Alias? then [] else
      var here := Anchor(anchors, t.anchor, base);
      [Record(t.kind, t.tag, t.style, t.value, Ids(t.kids, base + 1, here))] + RecordsAll(t.kids, base + 1, here)
  }

  function RecordsAll(ts: seq<Tree>, base: nat, anchors: seq<nat>): (r: seq<Record>)
    ensures |r| == CountAll(ts)
  {
    if ts == [] then []
    else Records(ts[0], base, anchors) + RecordsAll(ts[1..], base + Count(ts[0]), Anchors(ts[0], base, anchors))
  }

  ghost predicate Below(ids: seq<nat>, n: nat) { forall i :: 0 <= i < |ids| ==> ids[i] < n }

  /** Every anchor gets a node, and every node meant is there. */
  lemma {:induction false} AnchorsNumbered(t: Tree, base: nat, anchors: seq<nat>)
    requires Numbered(t, |anchors|) != -1 && Below(anchors, base)
    ensures |Anchors(t, base, anchors)| == Numbered(t, |anchors|)
    ensures Below(Anchors(t, base, anchors), base + Count(t)) && Id(t, base, anchors) < base + Count(t)
  {
    if t.Node? { AllNumbered(t.kids, base + 1, Anchor(anchors, t.anchor, base)); }
  }

  lemma {:induction false} AllNumbered(ts: seq<Tree>, base: nat, anchors: seq<nat>)
    requires NumberedAll(ts, |anchors|) != -1 && Below(anchors, base)
    ensures |AnchorsAll(ts, base, anchors)| == NumberedAll(ts, |anchors|)
    ensures Below(AnchorsAll(ts, base, anchors), base + CountAll(ts))
            && Below(Ids(ts, base, anchors), base + CountAll(ts))
  {
    if ts != [] {
      AnchorsNumbered(ts[0], base, anchors);
      AllNumbered(ts[1..], base + Count(ts[0]), Anchors(ts[0], base, anchors));
    }
  }
}
