/** NodeBuilder with its stacks in fields: every event does one step of
    `NodeBuilding`. Its preconditions are the asserts of nodebuilder.cpp: a map
    that ends was begun, what is popped is on the stack and goes into a
    collection, in a map together with a key, and an anchor is the next number. */
module NodeBuilder {
  import opened NodeTree
  import opened Wrappers
  import opened NodeBuilding

  class Builder {
    // every node made so far; nodes are named by their place
    var memory: seq<Record>
    var root: Option<nat>
    var stack: seq<nat>
    var anchors: seq<nat>
    var keys: seq<Key>
    var mapDepth: nat

    constructor ()
      ensures View() == Initial
    {
      memory, root, stack, anchors, keys, mapDepth := [], None, [], [], [], 0;
    }

    function View(): State
      reads this
    {
      State(memory, root, stack, anchors, keys, mapDepth)
    }

    /** Makes a node and pushes it; it is a null until its kind is set. */
    method PushNew(anchor: nat) returns (node: nat)
      requires Valid(View()) && (anchor == 0 || anchor == |anchors| + 1)
      modifies this
      ensures node == |old(memory)|
      ensures Create(old(View()), anchor, NEW) == Some(View())
    {
      node := |memory|;
      memory := memory + [NEW];
      if anchor != 0 {
        anchors := anchors + [node];
      }
      PushNode(node);
    }

    method PushNode(node: nat)
      requires stack != [] ==> Top(View()) < |memory|
      modifies this`stack, this`keys
      ensures View() == Push(old(View()), node)
    {
      var needsKey := stack != [] && memory[stack[|stack| - 1]].kind == Map && |keys| < mapDepth;
      stack := stack + [node];
      if needsKey {
        keys := keys + [Key(node, false)];
      }
    }

    method PopNode()
      requires |stack| >= 2 ==> stack[|stack| - 2] < |memory|
      requires Pop(View()).Some?
      modifies this
      ensures Pop(old(View())) == Some(View())
    {
      if |stack| == 1 {
        root := Some(stack[0]);
        stack := [];
        return;
      }
      var node := stack[|stack| - 1];
      stack := stack[..|stack| - 1];
      var collection := stack[|stack| - 1];
      if memory[collection].kind == Sequence {
        AddTo(collection, [node]);
      } else {
        var key := keys[|keys| - 1];
        if key.done {
          AddTo(collection, [key.node, node]);
          keys := keys[..|keys| - 1];
        } else {
          keys := keys[|keys| - 1 := Key(key.node, true)];
        }
      }
    }

    method AddTo(collection: nat, ids: seq<nat>)
      requires collection < |memory|
      modifies this`memory
      ensures View() == AddKids(old(View()), collection, ids)
    {
      memory := memory[collection := memory[collection].(kids := memory[collection].kids + ids)];
    }

    method OnNull(anchor: nat)
      requires Valid(View()) && Step(View(), Event.OnNull(anchor)).Some?
      modifies this
      ensures Step(old(View()), Event.OnNull(anchor)) == Some(View())
    {
      var _ := PushNew(anchor);
      PopNode();
    }

    method OnAlias(anchor: nat)
      requires Valid(View()) && Step(View(), Event.OnAlias(anchor)).Some?
      modifies this
      ensures Step(old(View()), Event.OnAlias(anchor)) == Some(View())
    {
      PushNode(anchors[anchor - 1]);
      PopNode();
    }

    method OnScalar(tag: string, anchor: nat, value: string)
      requires Valid(View()) && Step(View(), Event.OnScalar(tag, anchor, value)).Some?
      modifies this
      ensures Step(old(View()), Event.OnScalar(tag, anchor, value)) == Some(View())
    {
      ghost var b := View();
      var node := PushNew(anchor);
      memory := memory[node := Record(Scalar, tag, Default, value, [])];
      KindSet(b, anchor, Record(Scalar, tag, Default, value, []));
      PopNode();
    }

    method OnSequenceStart(tag: string, anchor: nat, style: Style)
      requires Valid(View()) && Step(View(), Event.OnSequenceStart(tag, anchor, style)).Some?
      modifies this
      ensures Step(old(View()), Event.OnSequenceStart(tag, anchor, style)) == Some(View())
    {
      ghost var b := View();
      var node := PushNew(anchor);
      memory := memory[node := Record(Sequence, tag, style, "", [])];
      KindSet(b, anchor, Record(Sequence, tag, style, "", []));
    }

    method OnSequenceEnd()
      requires Valid(View()) && Step(View(), Event.OnSequenceEnd).Some?
      modifies this
      ensures Step(old(View()), Event.OnSequenceEnd) == Some(View())
    {
      PopNode();
    }

    method OnMapStart(tag: string, anchor: nat, style: Style)
      requires Valid(View()) && Step(View(), Event.OnMapStart(tag, anchor, style)).Some?
      modifies this
      ensures Step(old(View()), Event.OnMapStart(tag, anchor, style)) == Some(View())
    {
      ghost var b := View();
      var node := PushNew(anchor);
      memory := memory[node := Record(Map, tag, style, "", [])];
      KindSet(b, anchor, Record(Map, tag, style, "", []));
      mapDepth := mapDepth + 1;
    }

    method OnMapEnd()
      requires Valid(View()) && Step(View(), Event.OnMapEnd).Some?
      modifies this
      ensures Step(old(View()), Event.OnMapEnd) == Some(View())
    {
      mapDepth := mapDepth - 1;
      PopNode();
    }

    /** Hands over one event. */
    method Handle(e: Event)
      requires Valid(View()) && Step(View(), e).Some?
      modifies this
      ensures Step(old(View()), e) == Some(View())
    {
      match e
      case OnNull(anchor) => OnNull(anchor);
      case OnAlias(anchor) => OnAlias(anchor);
      case OnScalar(tag, anchor, value) => OnScalar(tag, anchor, value);
      case OnSequenceStart(tag, anchor, style) => OnSequenceStart(tag, anchor, style);
      case OnSequenceEnd => OnSequenceEnd();
      case OnMapStart(tag, anchor, style) => OnMapStart(tag, anchor, style);
      case OnMapEnd => OnMapEnd();
    }

    /** The events of one tree, one after the other. */
    method Build(ghost t: Tree, es: seq<Event>)
      requires View() == Initial && es == Flatten(t) && Shaped(t) && Numbered(t, 0) != -1
      modifies this
      ensures View() == State(Records(t, 0, []), Some(0), [], Anchors(t, 0, []), [], 0)
    {
      BuildsDocument(t);
      var i := 0;
      while i < |es|
        invariant 0 <= i <= |es| && Valid(View())
        invariant Run(View(), es[i..]) == Run(Initial, es) && Run(Initial, es).Some?
      {
        assert es[i..][0] == es[i] && es[i..][1..] == es[i + 1..];
        StepValid(View(), es[i]);
        Handle(es[i]);
        i := i + 1;
      }
    }
  }

  /** A node as it is created. */
  const NEW := Record(Null, "", Default, "", [])

  /** Setting the kind later is as good as creating the node with it. */
  lemma {:induction false} KindSet(b: State, anchor: nat, r: Record)
    requires Valid(b) && Create(b, anchor, NEW).Some?
    ensures Create(b, anchor, r).Some?
    ensures var u := Create(b, anchor, NEW).value; Create(b, anchor, r) == Some(u.(nodes := u.nodes[|b.nodes| := r]))
  {
    assert (b.nodes + [NEW])[|b.nodes| := r] == b.nodes + [r];
  }
}
