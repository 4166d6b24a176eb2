/** NodeBuilder as a stack machine, and the proof that it builds the graph a
    tree stands for without ever failing an assertion. */
module NodeBuilding {
  import opened NodeTree
  import opened Wrappers

  datatype Key = Key(node: nat, done: bool)

  /** `nodes` are all nodes made so far, `stack` those being built. */
  datatype State = State(nodes: seq<Record>, root: Option<nat>, stack: seq<nat>, anchors: seq<nat>, keys: seq<Key>,
      mapDepth: nat)

  const Initial := State([], None, [], [], [], 0)

  ghost predicate Valid(b: State) {
    && (forall i :: 0 <= i < |b.stack| ==> b.stack[i] < |b.nodes|)
    && (forall i :: 0 <= i < |b.anchors| ==> b.anchors[i] < |b.nodes|)
  }

  function Top(b: State): nat
    requires b.stack != []
  {
    b.stack[|b.stack| - 1]
  }

  // ---------- Steps; None is a failed assertion ----------

  predicate NeedsKey(b: State)
    requires b.stack != [] ==> Top(b) < |b.nodes|
  {
    b.stack != [] && b.nodes[Top(b)].kind.Map? && |b.keys| < b.mapDepth
  }

  function Push(b: State, id: nat): State
    requires b.stack != [] ==> Top(b) < |b.nodes|
  {
    b.(stack := b.stack + [id], keys := if NeedsKey(b) then b.keys + [Key(id, false)] else b.keys)
  }

  function AddKids(b: State, c: nat, ids: seq<nat>): State
    requires c < |b.nodes|
  {
    b.(nodes := b.nodes[c := b.nodes[c].(kids := b.nodes[c].kids + ids)])
  }

  /** The node on top goes into the collection below it, or is the root. */
  function Pop(b: State): Option<State>
    requires |b.stack| >= 2 ==> b.stack[|b.stack| - 2] < |b.nodes|
  {
    if b.stack == [] then None
    else
      var node := Top(b);
      var u := b.(stack := b.stack[..|b.stack| - 1]);
      if u.stack == [] then Some(u.(root := Some(node))) else
        match u.nodes[Top(u)].kind
        case Sequence => Some(AddKids(u, Top(u), [node]))
        case Map =>
          if u.keys == [] then None else
            var last := |u.keys| - 1;
            if u.keys[last].done then Some(AddKids(u, Top(u), [u.keys[last].node, node]).(keys := u.keys[..last]))
            else Some(u.(keys := u.keys[last := Key(u.keys[last].node, true)]))
        case _ => None
  }

  /** A new node, under the next anchor if it has one. */
  function Create(b: State, anchor: nat, r: Record): Option<State>
    requires b.stack != [] ==> Top(b) < |b.nodes|
  {
    if anchor != 0 && anchor != |b.anchors| + 1 then None
    else Some(Push(b.(nodes := b.nodes + [r], anchors := Anchor(b.anchors, anchor, |b.nodes|)), |b.nodes|))
  }

  function Step(b: State, e: Event): Option<State>
    requires Valid(b)
  {
    match e
    case OnNull(anchor) => CreateLeaf(b, anchor, Record(Null, "", Default, "", []))
    case OnScalar(tag, anchor, value) => CreateLeaf(b, anchor, Record(Scalar, tag, Default, value, []))
    case OnAlias(anchor) => if 1 <= anchor <= |b.anchors| then Pop(Push(b, b.anchors[anchor - 1])) else None
    case OnSequenceStart(tag, anchor, style) => Create(b, anchor, Record(Sequence, tag, style, "", []))
    case OnSequenceEnd => Pop(b)
    case OnMapStart(tag, anchor, style) =>
      (match Create(b, anchor, Record(Map, tag, style, "", []))
       case None => None
       case Some(u) => Some(u.(mapDepth := u.mapDepth + 1)))
    case OnMapEnd => if b.mapDepth == 0 then None else Pop(b.(mapDepth := b.mapDepth - 1))
  }

  function CreateLeaf(b: State, anchor: nat, r: Record): Option<State>
    requires Valid(b)
  {
    match Create(b, anchor, r)
    case None => None
    case Some(u) => Pop(u)
  }

  lemma {:induction false} CreateValid(b: State, anchor: nat, r: Record)
    requires Valid(b) && Create(b, anchor, r).Some?
    ensures Valid(Create(b, anchor, r).value)
  {
    assert forall i :: 0 <= i < |b.stack| ==> Create(b, anchor, r).value.stack[i] == b.stack[i];
  }

  lemma {:induction false} PopValid(b: State)
    requires Valid(b) && Pop(b).Some?
    ensures Valid(Pop(b).value)
  {
    assert forall i :: 0 <= i < |b.stack| - 1 ==> Pop(b).value.stack[i] == b.stack[i];
  }

  lemma {:induction false} PushValid(b: State, id: nat)
    requires Valid(b) && id < |b.nodes|
    ensures Valid(Push(b, id))
  {
  }

  lemma {:induction false} LeafValid(b: State, anchor: nat, r: Record)
    requires Valid(b) && CreateLeaf(b, anchor, r).Some?
    ensures Valid(CreateLeaf(b, anchor, r).value)
  {
    CreateValid(b, anchor, r);
    PopValid(Create(b, anchor, r).value);
  }

  lemma {:induction false} StepValid(b: State, e: Event)
    requires Valid(b) && Step(b, e).Some?
    ensures Valid(Step(b, e).value)
  {
    match e
    case OnNull(anchor) => LeafValid(b, anchor, Record(Null, "", Default, "", []));
    case OnScalar(tag, anchor, value) => LeafValid(b, anchor, Record(Scalar, tag, Default, value, []));
    case OnAlias(anchor) => PushValid(b, b.anchors[anchor - 1]); PopValid(Push(b, b.anchors[anchor - 1]));
    case OnSequenceStart(tag, anchor, style) => CreateValid(b, anchor, Record(Sequence, tag, style, "", []));
    case OnSequenceEnd => PopValid(b);
    case OnMapStart(tag, anchor, style) => CreateValid(b, anchor, Record(Map, tag, style, "", []));
    case OnMapEnd => PopValid(b.(mapDepth := b.mapDepth - 1));
  }

  function Run(b: State, es: seq<Event>): Option<State>
    requires Valid(b)
    decreases |es|
  {
    if es == [] then Some(b) else
      match Step(b, es[0])
      case None => None
      case Some(u) => StepValid(b, es[0]); Run(u, es[1..])
  }

  lemma {:induction false} RunJoins(b: State, es: seq<Event>, fs: seq<Event>)
    requires Valid(b) && Run(b, es).Some?
    ensures Valid(Run(b, es).value) && Run(b, es + fs) == Run(Run(b, es).value, fs)
    decreases |es|
  {
    if es == [] {
      assert es + fs == fs;
    } else {
      assert (es + fs)[1..] == es[1..] + fs;
      StepValid(b, es[0]);
      RunJoins(Step(b, es[0]).value, es[1..], fs);
    }
  }

  // ---------- Between nodes ----------

  /** A node can start here: each map above the top waits for the end of a key
      or value, and the top one for the start of one. */
  ghost predicate Ready(b: State) {
    && Valid(b)
    && (b.stack == [] ==> b.keys == [] && b.mapDepth == 0)
    && (b.stack != [] && b.nodes[Top(b)].kind.Sequence? ==> |b.keys| == b.mapDepth)
    && (b.stack != [] && b.nodes[Top(b)].kind.Map? ==>
          |b.keys| + 1 == b.mapDepth || (|b.keys| == b.mapDepth > 0 && b.keys[|b.keys| - 1].done))
    && (b.stack != [] ==> b.nodes[Top(b)].kind.Sequence? || b.nodes[Top(b)].kind.Map?)
  }

  /** What one whole node does to the collection it is in. */
  function Deliver(b: State, id: nat): State
    requires b.stack != [] ==> Top(b) < |b.nodes|
  {
    if b.stack == [] then b.(root := Some(id))
    else if b.nodes[Top(b)].kind.Sequence? then AddKids(b, Top(b), [id])
    else if NeedsKey(b) then b.(keys := b.keys + [Key(id, true)])
    else if b.keys == [] then b
    else AddKids(b, Top(b), [b.keys[|b.keys| - 1].node, id]).(keys := b.keys[..|b.keys| - 1])
  }

  lemma {:induction false} PushPop(b: State, id: nat)
    requires Ready(b)
    ensures Pop(Push(b, id)) == Some(Deliver(b, id))
  {
    var u := Push(b, id);
    assert u.stack[..|u.stack| - 1] == b.stack;
    if NeedsKey(b) { assert u.keys[|b.keys| := Key(id, true)] == b.keys + [Key(id, true)]; }
  }

  lemma {:induction false} DeliverReady(b: State, id: nat)
    requires Ready(b)
    ensures Ready(Deliver(b, id)) && |Deliver(b, id).nodes| == |b.nodes| && Deliver(b, id).anchors == b.anchors
    ensures b.stack != [] ==> Deliver(b, id).nodes[Top(b)].kind == b.nodes[Top(b)].kind
  {
  }

  function DeliverAll(b: State, ids: seq<nat>): State
    requires Ready(b)
    decreases |ids|
  {
    if ids == [] then b else DeliverReady(b, ids[0]); DeliverAll(Deliver(b, ids[0]), ids[1..])
  }

  /** The state with the new nodes of some trees. */
  function Grow(b: State, t: Tree): State {
    b.(nodes := b.nodes + Records(t, |b.nodes|, b.anchors), anchors := Anchors(t, |b.nodes|, b.anchors))
  }

  function GrowAll(b: State, ts: seq<Tree>): State {
    b.(nodes := b.nodes + RecordsAll(ts, |b.nodes|, b.anchors), anchors := AnchorsAll(ts, |b.nodes|, b.anchors))
  }

  lemma {:induction false} GrowReady(b: State, t: Tree)
    requires Ready(b) && Numbered(t, |b.anchors|) != -1
    ensures Ready(Grow(b, t)) && Id(t, |b.nodes|, b.anchors) < |Grow(b, t).nodes|
    ensures |Grow(b, t).anchors| == Numbered(t, |b.anchors|)
  {
    AnchorsNumbered(t, |b.nodes|, b.anchors);
  }

  lemma {:induction false} GrowAllReady(b: State, ts: seq<Tree>)
    requires Ready(b) && NumberedAll(ts, |b.anchors|) != -1
    ensures Ready(GrowAll(b, ts)) && Below(Ids(ts, |b.nodes|, b.anchors), |GrowAll(b, ts).nodes|)
  {
    AllNumbered(ts, |b.nodes|, b.anchors);
  }

  lemma {:induction false} UpdateFirst(s: seq<Record>, r: seq<Record>, c: nat, x: Record)
    requires c < |s|
    ensures (s + r)[c := x] == s[c := x] + r
  {
  }

  /** New nodes go to the end, so they can come before or after the delivery. */
  lemma {:induction false} DeliverGrows(b: State, id: nat, ts: seq<Tree>)
    requires Ready(b) && NumberedAll(ts, |b.anchors|) != -1
    ensures Ready(GrowAll(b, ts)) && Ready(Deliver(b, id))
    ensures GrowAll(Deliver(b, id), ts) == Deliver(GrowAll(b, ts), id)
  {
    GrowAllReady(b, ts);
    DeliverReady(b, id);
    var r := RecordsAll(ts, |b.nodes|, b.anchors);
    if b.stack != [] { UpdateFirst(b.nodes, r, Top(b), Deliver(GrowAll(b, ts), id).nodes[Top(b)]); }
  }

  lemma {:induction false} GrowMore(b: State, ts: seq<Tree>)
    requires ts != []
    ensures GrowAll(Grow(b, ts[0]), ts[1..]) == GrowAll(b, ts)
  {
    var g := Grow(b, ts[0]);
    RecordsFirst(ts, |b.nodes|, b.anchors);
    hide Records, RecordsAll, Anchors;
    Behind(b.nodes, Records(ts[0], |b.nodes|, b.anchors), RecordsAll(ts[1..], |g.nodes|, g.anchors));
  }

  lemma {:induction false} RecordsFirst(ts: seq<Tree>, base: nat, anchors: seq<nat>)
    requires ts != []
    ensures RecordsAll(ts, base, anchors)
            == Records(ts[0], base, anchors) + RecordsAll(ts[1..], base + Count(ts[0]), Anchors(ts[0], base, anchors))
  {
    hide Records, Anchors, Count;
  }

  lemma {:induction false} Behind(a: seq<Record>, b: seq<Record>, c: seq<Record>)
    ensures a + b + c == a + (b + c)
  {
  }

  // ---------- The main result ----------

  /** The events of a tree add its nodes and deliver the first of them, whatever
      is being built around it. */
  lemma {:induction false} RunNode(b: State, t: Tree)
    requires Ready(b) && Shaped(t) && Numbered(t, |b.anchors|) != -1
    ensures Run(b, Flatten(t)) == Some(Deliver(Grow(b, t), Id(t, |b.nodes|, b.anchors)))
    decreases t, 1
  {
    GrowReady(b, t);
    if t.Alias? {
      PushPop(b, b.anchors[t.a - 1]);
      RunOne(b, Flatten(t)[0]);
      assert Grow(b, t) == b;
    } else if t.kids == [] && !t.kind.Sequence? && !t.kind.Map? {
      RunLeaf(b, t);
    } else {
      RunCollection(b, t);
    }
  }

  lemma {:induction false} RunOne(b: State, e: Event)
    requires Valid(b)
    ensures Run(b, [e]) == Step(b, e)
  {
    if Step(b, e).Some? { StepValid(b, e); assert [e][1..] == []; }
  }

  lemma {:induction false} RunLeaf(b: State, t: Tree)
    requires Ready(b) && Shaped(t) && Numbered(t, |b.anchors|) != -1 && t.Node? && (t.kind.Null? || t.kind.Scalar?)
    ensures Run(b, Flatten(t)) == Some(Deliver(Grow(b, t), Id(t, |b.nodes|, b.anchors)))
  {
    GrowReady(b, t);
    RunOne(b, Flatten(t)[0]);
    var r := Record(t.kind, t.tag, t.style, t.value, []);
    assert Records(t, |b.nodes|, b.anchors) == [r];
    assert AnchorsAll([], |b.nodes| + 1, Anchor(b.anchors, t.anchor, |b.nodes|))
        == Anchor(b.anchors, t.anchor, |b.nodes|);
    assert t.kids == [] && Anchors(t, |b.nodes|, b.anchors) == Anchor(b.anchors, t.anchor, |b.nodes|);
    PushPop(Grow(b, t), |b.nodes|);
  }

  lemma {:induction false} RunAll(b: State, ts: seq<Tree>)
    requires Ready(b) && b.stack != [] && ShapedAll(ts) && NumberedAll(ts, |b.anchors|) != -1
    ensures Ready(GrowAll(b, ts))
    ensures Run(b, FlattenAll(ts)) == Some(DeliverAll(GrowAll(b, ts), Ids(ts, |b.nodes|, b.anchors)))
    decreases ts, 0
  {
    GrowAllReady(b, ts);
    if ts == [] {
      assert GrowAll(b, ts) == b;
    } else {
      GrowReady(b, ts[0]);
      RunNode(b, ts[0]);
      RunJoins(b, Flatten(ts[0]), FlattenAll(ts[1..]));
      var id := Id(ts[0], |b.nodes|, b.anchors);
      DeliverReady(Grow(b, ts[0]), id);
      RunAll(Deliver(Grow(b, ts[0]), id), ts[1..]);
      RunRest(b, ts, Grow(b, ts[0]), id);
    }
  }

  /** The first tree has been run and delivered. */
  lemma {:induction false} RunRest(b: State, ts: seq<Tree>, g: State, id: nat)
    requires Ready(b) && ts != [] && Ready(g) && g == Grow(b, ts[0]) && id == Id(ts[0], |b.nodes|, b.anchors)
    requires NumberedAll(ts[1..], |g.anchors|) != -1 && Ready(Deliver(g, id)) && Ready(GrowAll(Deliver(g, id), ts[1..]))
    ensures Ready(GrowAll(b, ts))
    ensures DeliverAll(GrowAll(Deliver(g, id), ts[1..]), Ids(ts[1..], |g.nodes|, g.anchors))
         == DeliverAll(GrowAll(b, ts), Ids(ts, |b.nodes|, b.anchors))
  {
    GrowMore(b, ts);
    IdsFirst(b, ts);
    hide Deliver, GrowAll, Grow, Ready, Ids, Id, DeliverAll;
    DeliverGrows(g, id, ts[1..]);
    DeliverNext(GrowAll(b, ts), id, Ids(ts[1..], |g.nodes|, g.anchors));
  }

  lemma {:induction false} IdsFirst(b: State, ts: seq<Tree>)
    requires ts != []
    ensures var g := Grow(b, ts[0]);
            Ids(ts, |b.nodes|, b.anchors) == [Id(ts[0], |b.nodes|, b.anchors)] + Ids(ts[1..], |g.nodes|, g.anchors)
  {
  }

  lemma {:induction false} DeliverNext(b: State, id: nat, ids: seq<nat>)
    requires Ready(b)
    ensures Ready(Deliver(b, id)) && DeliverAll(b, [id] + ids) == DeliverAll(Deliver(b, id), ids)
  {
    DeliverReady(b, id);
    assert ([id] + ids)[1..] == ids;
  }

  /** A sequence takes in all it gets. */
  lemma {:induction false} SequenceGets(b: State, ids: seq<nat>)
    requires Ready(b) && b.stack != [] && b.nodes[Top(b)].kind.Sequence?
    ensures DeliverAll(b, ids) == AddKids(b, Top(b), ids)
    decreases |ids|
  {
    if ids == [] {
      assert b.nodes[Top(b)].kids + [] == b.nodes[Top(b)].kids;
    } else {
      DeliverReady(b, ids[0]);
      SequenceGets(Deliver(b, ids[0]), ids[1..]);
      AddTwice(b, Top(b), [ids[0]], ids[1..]);
      assert [ids[0]] + ids[1..] == ids;
    }
  }

  lemma {:induction false} AddTwice(b: State, c: nat, x: seq<nat>, y: seq<nat>)
    requires c < |b.nodes|
    ensures AddKids(AddKids(b, c, x), c, y) == AddKids(b, c, x + y)
  {
    assert b.nodes[c].kids + x + y == b.nodes[c].kids + (x + y);
  }

  /** A map that needs a key takes them in by pairs. */
  lemma {:induction false} MapGets(b: State, ids: seq<nat>)
    requires Ready(b) && b.stack != [] && b.nodes[Top(b)].kind.Map? && |b.keys| + 1 == b.mapDepth && |ids| % 2 == 0
    ensures DeliverAll(b, ids) == AddKids(b, Top(b), ids)
    decreases |ids|
  {
    if ids == [] {
      assert b.nodes[Top(b)].kids + [] == b.nodes[Top(b)].kids;
    } else {
      PairDelivered(b, ids[0], ids[1]);
      DeliverReady(b, ids[0]);
      DeliverReady(Deliver(b, ids[0]), ids[1]);
      assert ids[1..][1..] == ids[2..];
      MapGets(Deliver(Deliver(b, ids[0]), ids[1]), ids[2..]);
      AddTwice(b, Top(b), [ids[0], ids[1]], ids[2..]);
      assert [ids[0], ids[1]] + ids[2..] == ids;
    }
  }

  lemma {:induction false} PairDelivered(b: State, k: nat, v: nat)
    requires Ready(b) && b.stack != [] && b.nodes[Top(b)].kind.Map? && |b.keys| + 1 == b.mapDepth
    ensures Ready(Deliver(b, k)) && Deliver(Deliver(b, k), v) == AddKids(b, Top(b), [k, v])
  {
    DeliverReady(b, k);
    assert (b.keys + [Key(k, true)])[..|b.keys|] == b.keys;
  }

  /** The start of a collection. */
  function Opened(b: State, t: Tree): State
    requires Valid(b) && t.Node?
  {
    var u := Push(b.(nodes := b.nodes + [Record(t.kind, t.tag, t.style, "", [])], anchors :=
        Anchor(b.anchors, t.anchor, |b.nodes|)), |b.nodes|);
    if t.kind.Map? then u.(mapDepth := u.mapDepth + 1) else u
  }

  lemma {:induction false} OpenedReady(b: State, t: Tree)
    requires Ready(b) && Shaped(t) && Numbered(t, |b.anchors|) != -1 && t.Node? && (t.kind.Sequence? || t.kind.Map?)
    ensures var u := Opened(b, t);
            && Step(b, Flatten(t)[0]) == Some(u) && Ready(u) && u.stack == b.stack + [|b.nodes|] && Top(u) == |b.nodes|
            && NumberedAll(t.kids, |u.anchors|) != -1 && u.nodes[Top(u)].kind == t.kind
                && (t.kind.Map? ==> |u.keys| + 1 == u.mapDepth)
  {
    assert (b.stack + [|b.nodes|])[..|b.stack|] == b.stack;
  }

  /** All children are in. */
  lemma {:induction false} Filled(b: State, t: Tree)
    requires Ready(b) && Shaped(t) && Numbered(t, |b.anchors|) != -1 && t.Node? && (t.kind.Sequence? || t.kind.Map?)
    requires Ready(Opened(b, t)) && Ready(GrowAll(Opened(b, t), t.kids)) && Top(Opened(b, t)) == |b.nodes|
    ensures var u := Opened(b, t);
            DeliverAll(GrowAll(u, t.kids), Ids(t.kids, |u.nodes|, u.anchors))
            == (if t.kind.Map? then Push(Grow(b, t), |b.nodes|).(mapDepth := b.mapDepth + 1)
                else Push(Grow(b, t), |b.nodes|))
  {
    OpenedReady(b, t);
    var u := Opened(b, t);
    var g, ids := GrowAll(u, t.kids), Ids(t.kids, |u.nodes|, u.anchors);
    if t.kind.Map? { MapGets(g, ids); } else { SequenceGets(g, ids); }
    FilledNodes(b, t, ids);
  }

  lemma {:induction false} FilledNodes(b: State, t: Tree, ids: seq<nat>)
    requires t.Node? && (t.kind.Sequence? || t.kind.Map?) && Shaped(t)
    requires ids == Ids(t.kids, |b.nodes| + 1, Anchor(b.anchors, t.anchor, |b.nodes|))
    ensures var g := GrowAll(b.(nodes := b.nodes + [Record(t.kind, t.tag, t.style, "", [])], anchors :=
            Anchor(b.anchors, t.anchor, |b.nodes|)), t.kids);
            AddKids(g, |b.nodes|, ids).nodes == Grow(b, t).nodes
  {
    var r := Record(t.kind, t.tag, t.style, "", []);
    var rest := RecordsAll(t.kids, |b.nodes| + 1, Anchor(b.anchors, t.anchor, |b.nodes|));
    assert [] + ids == ids;
    UpdateFirst(b.nodes + [r], rest, |b.nodes|, r.(kids := ids));
    assert (b.nodes + [r])[|b.nodes| := r.(kids := ids)] == b.nodes + [r.(kids := ids)];
  }

  lemma {:induction false} RunBetween(b: State, first: Event, u: State, middle: seq<Event>, v: State, last: Event)
    requires Valid(b) && Step(b, first) == Some(u) && Valid(u) && Run(u, middle) == Some(v)
    ensures Valid(v) && Run(b, [first] + middle + [last]) == Step(v, last)
  {
    RunOne(b, first);
    RunJoins(b, [first], middle + [last]);
    assert [first] + middle + [last] == [first] + (middle + [last]);
    RunJoins(u, middle, [last]);
    RunOne(v, last);
  }

  lemma {:induction false} Closed(b: State, t: Tree)
    requires Ready(b) && Numbered(t, |b.anchors|) != -1 && t.Node? && (t.kind.Sequence? || t.kind.Map?)
    ensures Ready(Grow(b, t))
    ensures var u := Push(Grow(b, t), |b.nodes|);
            var v := if t.kind.Map? then u.(mapDepth := b.mapDepth + 1) else u;
            Valid(v) ==> Step(v, if t.kind.Map? then OnMapEnd else OnSequenceEnd) == Some(Deliver(Grow(b, t), |b.nodes|))
  {
    GrowReady(b, t);
    PushPop(Grow(b, t), |b.nodes|);
    var u := Push(Grow(b, t), |b.nodes|);
    assert u.(mapDepth := b.mapDepth) == u;
  }

  lemma {:induction false} RunCollection(b: State, t: Tree)
    requires Ready(b) && Shaped(t) && Numbered(t, |b.anchors|) != -1 && t.Node? && (t.kind.Sequence? || t.kind.Map?)
    ensures Run(b, Flatten(t)) == Some(Deliver(Grow(b, t), Id(t, |b.nodes|, b.anchors)))
    decreases t, 0
  {
    OpenedReady(b, t);
    var u := Opened(b, t);
    assert ShapedAll(t.kids);
    RunAll(u, t.kids);
    Filled(b, t);
    var v := DeliverAll(GrowAll(u, t.kids), Ids(t.kids, |u.nodes|, u.anchors));
    var last := if t.kind.Map? then OnMapEnd else OnSequenceEnd;
    assert Flatten(t) == [Flatten(t)[0]] + FlattenAll(t.kids) + [last];
    assert Valid(b) && Valid(u);
    hide *;
    RunBetween(b, Flatten(t)[0], u, FlattenAll(t.kids), v, last);
    Closed(b, t);
    IdHere(b, t);
  }

  lemma {:induction false} IdHere(b: State, t: Tree)
    requires t.Node?
    ensures Id(t, |b.nodes|, b.anchors) == |b.nodes|
  {
  }

  /** A whole document: the assertions hold, nothing is left on the stacks, and
      the root is the first node. */
  lemma {:induction false} BuildsDocument(t: Tree)
    requires Shaped(t) && Numbered(t, 0) != -1
    ensures Run(Initial, Flatten(t)) == Some(State(Records(t, 0, []), Some(0), [], Anchors(t, 0, []), [], 0))
  {
    RunNode(Initial, t);
    assert t.Node?;
    assert [] + Records(t, 0, []) == Records(t, 0, []);
  }
}
