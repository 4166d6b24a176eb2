/** SingleDocParser: mutually recursive methods that pop tokens, keep the stack
    of collections and the anchors, and send the events of the tree that
    `DocParsing` makes of the tokens. */
module SingleDocParser {
  import opened NodeTree
  import opened DocParsing

  class EventLog {
    var events: seq<Event>

    constructor ()
      ensures events == []
    {
      events := [];
    }

    method Send(e: Event)
      modifies this
      ensures events == old(events) + [e]
    {
      events := events + [e];
    }
  }

  datatype Status = Done | Failed(e: Error) | Crashed

  /** What a method that handles one node has done. */
  ghost predicate DoneNode(o: Outcome<Tree>, status: Status, input: Input, was: seq<Event>, events: seq<Event>) {
    match o
    case Ok(t, rest) => status == Done && input == rest && events == was + Flatten(t)
    case Err(e) => status == Failed(e)
    case Crash => status == Crashed
  }

  /** The same for a sequence of nodes. */
  ghost predicate DoneAll(o: Outcome<seq<Tree>>, status: Status, input: Input, was: seq<Event>, events: seq<Event>) {
    match o
    case Ok(ts, rest) => status == Done && input == rest && events == was + FlattenAll(ts)
    case Err(e) => status == Failed(e)
    case Crash => status == Crashed
  }

  lemma {:induction false} FlattenJoin(ts: seq<Tree>, us: seq<Tree>)
    ensures FlattenAll(ts + us) == FlattenAll(ts) + FlattenAll(us)
  {
    if ts == [] {
      assert ts + us == us;
    } else {
      assert (ts + us)[1..] == ts[1..] + us;
      FlattenJoin(ts[1..], us);
    }
  }

  lemma {:induction false} FlattenOne(t: Tree)
    ensures FlattenAll([t]) == Flatten(t)
  {
    assert [t][1..] == [];
  }

  lemma {:induction false} ConsTwice(ts: seq<Tree>, us: seq<Tree>, o: Outcome<seq<Tree>>)
    ensures Cons(ts, Cons(us, o)) == Cons(ts + us, o)
  {
    if o.Ok? { assert ts + (us + o.value) == ts + us + o.value; }
  }

  lemma {:induction false} ConsNone(o: Outcome<seq<Tree>>)
    ensures Cons([], o) == o
  {
    if o.Ok? { assert [] + o.value == o.value; }
  }

  class Parser {
    var tokens: seq<Token>
    var collections: seq<Collection>
    var anchors: map<string, nat>
    var curAnchor: nat
    const handler: EventLog

    constructor (tokens: seq<Token>, handler: EventLog)
      ensures View() == Input(tokens, map[], 0) && collections == [] && this.handler == handler
    {
      this.tokens, this.handler := tokens, handler;
      collections, anchors, curAnchor := [], map[], 0;
    }

    function View(): Input
      reads this
    {
      Input(tokens, anchors, curAnchor)
    }

    function Top(): Collection
      reads this`collections
    {
      if collections == [] then NoCollection else collections[|collections| - 1]
    }

    method PopToken()
      requires tokens != []
      modifies this`tokens
      ensures View() == DocParsing.Pop(old(View()))
    {
      tokens := tokens[1..];
    }

    method PushCollection(c: Collection)
      modifies this`collections
      ensures collections == old(collections) + [c]
    {
      collections := collections + [c];
    }

    method PopCollection(c: Collection)
      requires Top() == c && c != NoCollection
      modifies this`collections
      ensures collections == old(collections)[..|old(collections)| - 1]
    {
      collections := collections[..|collections| - 1];
    }

    /** Grabs any tags and anchors. */
    method ParseProperties() returns (result: Outcome<Props>)
      modifies this`tokens, this`anchors, this`curAnchor
      ensures result == Properties(old(View()), "", 0)
      ensures result.Ok? ==> View() == result.rest
    {
      var tag, anchor := "", 0;
      ghost var s := View();
      while tokens != []
        invariant Properties(View(), tag, anchor) == Properties(s, "", 0)
        decreases |tokens|
      {
        if tokens[0].kind == TAG {
          if tag != "" {
            return Err(MULTIPLE_TAGS);
          }
          tag := tokens[0].value;
        } else if tokens[0].kind == ANCHOR {
          if anchor != 0 {
            return Err(MULTIPLE_ANCHORS);
          }
          var name := tokens[0].value;
          if name != "" {
            curAnchor := curAnchor + 1;
            anchors := anchors[name := curAnchor];
            anchor := curAnchor;
          }
        } else {
          break;
        }
        PopToken();
      }
      result := Ok(Props(tag, anchor), View());
    }

    method HandleNode() returns (status: Status)
      modifies this, handler
      ensures DoneNode(ParseNode(old(View()), old(Top())), status, View(), old(handler.events), handler.events)
      ensures status == Done ==> collections == old(collections)
      decreases |tokens|, 1
    {
      if tokens == [] {
        handler.Send(OnNull(0));
        return Done;
      }
      if tokens[0].kind == VALUE {
        handler.Send(OnMapStart("?", 0, Default));
        status := HandleCompactMapWithNoKey();
        if status == Done {
          handler.Send(OnMapEnd);
        }
        return;
      }
      if tokens[0].kind == ALIAS {
        if tokens[0].value !in anchors {
          return Failed(UNKNOWN_ANCHOR);
        }
        handler.Send(OnAlias(anchors[tokens[0].value]));
        PopToken();
        return Done;
      }
      var result := ParseProperties();
      if result.Err? {
        return Failed(result.error);
      }
      PropertiesNeverCrash(old(View()), "", 0);
      var props := result.value;
      if tokens == [] {
        return Crashed;
      }
      status := HandleContent(props.tag, props.anchor);
    }

    method HandleContent(tag: string, anchor: nat) returns (status: Status)
      requires tokens != []
      modifies this, handler
      ensures DoneNode(ParseContent(old(View()), old(Top()), tag, anchor), status, View(), old(handler.events),
              handler.events)
      ensures status == Done ==> collections == old(collections)
      decreases |tokens|, 0
    {
      hide ParseNode, FlowItems, BlockItems, FlowPairs, BlockPairs, AfterKey;
      var token := tokens[0];
      if token.kind == PLAIN_SCALAR && IsNullString(token.value) {
        handler.Send(OnNull(anchor));
        PopToken();
        return Done;
      }
      var tag := if tag != "" then tag else if token.kind == NON_PLAIN_SCALAR then "!" else "?";
      if token.kind == PLAIN_SCALAR || token.kind == NON_PLAIN_SCALAR {
        handler.Send(OnScalar(tag, anchor, token.value));
        PopToken();
        return Done;
      }
      if token.kind == FLOW_SEQ_START || token.kind == BLOCK_SEQ_START {
        status := SendSequence(tag, anchor, if token.kind == FLOW_SEQ_START then Flow else Block);
        return;
      }
      if token.kind == FLOW_MAP_START || token.kind == BLOCK_MAP_START || (token.kind == KEY && Top() == FlowSeq) {
        status := SendMap(tag, anchor, if token.kind == BLOCK_MAP_START then Block else Flow);
        return;
      }
      handler.Send(if tag == "?" then OnNull(anchor) else OnScalar(tag, anchor, ""));
      status := Done;
    }

    /** The children a start token announces. */
    static ghost function Children(s: Input): Outcome<seq<Tree>>
      requires s.tokens != []
    {
      var u := DocParsing.Pop(s);
      if Head(s) == FLOW_SEQ_START then FlowItems(u)
      else if Head(s) == BLOCK_SEQ_START then BlockItems(u)
      else if Head(s) == FLOW_MAP_START then FlowPairs(u)
      else if Head(s) == BLOCK_MAP_START then BlockPairs(u)
      else AfterKey(u, CompactMap)
    }

    /** A whole sequence, with its start and end. */
    method SendSequence(tag: string, anchor: nat, style: Style) returns (status: Status)
      requires tokens != [] && (tokens[0].kind == FLOW_SEQ_START || tokens[0].kind == BLOCK_SEQ_START)
      modifies this, handler
      ensures DoneNode(Collect(Sequence, tag, style, anchor, Children(old(View()))), status, View(),
              old(handler.events), handler.events)
      ensures status == Done ==> collections == old(collections)
      decreases |tokens| - 1, 7
    {
      hide Children, FlattenAll;
      handler.Send(OnSequenceStart(tag, anchor, style));
      status := HandleSequence();
      if status == Done {
        handler.Send(OnSequenceEnd);
      }
    }

    /** Splits by the start token. */
    method HandleSequence() returns (status: Status)
      requires tokens != [] && (tokens[0].kind == FLOW_SEQ_START || tokens[0].kind == BLOCK_SEQ_START)
      modifies this, handler
      ensures DoneAll(Children(old(View())), status, View(), old(handler.events), handler.events)
      ensures status == Done ==> collections == old(collections)
      decreases |tokens| - 1, 6
    {
      hide FlowItems, BlockItems, DoneAll;
      if tokens[0].kind == FLOW_SEQ_START {
        status := HandleFlowSequence();
      } else {
        status := HandleBlockSequence();
      }
    }

    method SendMap(tag: string, anchor: nat, style: Style) returns (status: Status)
      requires tokens != []
               && (tokens[0].kind == FLOW_MAP_START || tokens[0].kind == BLOCK_MAP_START || tokens[0].kind == KEY)
      modifies this, handler
      ensures DoneNode(Collect(Map, tag, style, anchor, Children(old(View()))), status, View(), old(handler.events),
              handler.events)
      ensures status == Done ==> collections == old(collections)
      decreases |tokens| - 1, 7
    {
      hide Children, FlattenAll;
      handler.Send(OnMapStart(tag, anchor, style));
      status := HandleMap();
      if status == Done {
        handler.Send(OnMapEnd);
      }
    }

    method HandleMap() returns (status: Status)
      requires tokens != []
               && (tokens[0].kind == FLOW_MAP_START || tokens[0].kind == BLOCK_MAP_START || tokens[0].kind == KEY)
      modifies this, handler
      ensures DoneAll(Children(old(View())), status, View(), old(handler.events), handler.events)
      ensures status == Done ==> collections == old(collections)
      decreases |tokens| - 1, 6
    {
      hide FlowPairs, BlockPairs, AfterKey, DoneAll;
      if tokens[0].kind == FLOW_MAP_START {
        status := HandleFlowMap();
      } else if tokens[0].kind == BLOCK_MAP_START {
        status := HandleBlockMap();
      } else {
        status := HandleCompactMap();
      }
    }

    method HandleBlockSequence() returns (status: Status)
      requires tokens != []
      modifies this, handler
      ensures DoneAll(BlockItems(DocParsing.Pop(old(View()))), status, View(), old(handler.events), handler.events)
      ensures status == Done ==> collections == old(collections)
      decreases |tokens| - 1, 5
    {
      ghost var n, was, stack := |tokens|, handler.events, collections;
      ghost var goal := BlockItems(DocParsing.Pop(View()));
      PopToken();
      PushCollection(BlockSeq);
      ghost var ts := [];
      ConsNone(goal);
      while true
        invariant |tokens| < n && collections == stack + [BlockSeq]
        invariant Cons(ts, BlockItems(View())) == goal && handler.events == was + FlattenAll(ts)
        decreases |tokens|
      {
        if tokens == [] || (tokens[0].kind != BLOCK_ENTRY && tokens[0].kind != BLOCK_SEQ_END) {
          return Failed(END_OF_SEQ);
        }
        var kind := tokens[0].kind;
        ghost var s := View();
        PopToken();
        if kind == BLOCK_SEQ_END {
          break;
        }
        if tokens != [] && (tokens[0].kind == BLOCK_ENTRY || tokens[0].kind == BLOCK_SEQ_END) {
          handler.Send(OnNull(0));
          OneMore(goal, ts, NullNode(0), BlockItems(View()), was);
          ts := ts + [NullNode(0)];
          continue;
        }
        ghost var o := ParseNode(View(), BlockSeq);
        status := HandleNode();
        if status != Done {
          return;
        }
        OneMore(goal, ts, o.value, BlockItems(View()), was);
        ts := ts + [o.value];
      }
      PopCollection(BlockSeq);
      assert ts + [] == ts;
      status := Done;
    }

    method HandleFlowSequence() returns (status: Status)
      requires tokens != []
      modifies this, handler
      ensures DoneAll(FlowItems(DocParsing.Pop(old(View()))), status, View(), old(handler.events), handler.events)
      ensures status == Done ==> collections == old(collections)
      decreases |tokens| - 1, 5
    {
      ghost var n, was, stack := |tokens|, handler.events, collections;
      ghost var goal := FlowItems(DocParsing.Pop(View()));
      PopToken();
      PushCollection(FlowSeq);
      ghost var ts := [];
      ConsNone(goal);
      while true
        invariant |tokens| < n && collections == stack + [FlowSeq]
        invariant Cons(ts, FlowItems(View())) == goal && handler.events == was + FlattenAll(ts)
        decreases |tokens|, if At(View(), FLOW_SEQ_END) then 0 else 1
      {
        if tokens == [] {
          return Failed(END_OF_SEQ_FLOW);
        }
        if tokens[0].kind == FLOW_SEQ_END {
          PopToken();
          break;
        }
        ghost var s := View();
        ghost var o := ParseNode(s, FlowSeq);
        status := HandleNode();
        if status != Done {
          return;
        }
        if tokens == [] {
          return Failed(END_OF_SEQ_FLOW);
        }
        if tokens[0].kind == FLOW_ENTRY {
          PopToken();
        } else if tokens[0].kind != FLOW_SEQ_END {
          return Failed(END_OF_SEQ_FLOW);
        }
        ItemRead(s, View(), o.value, o.rest);
        OneMore(goal, ts, o.value, FlowItems(View()), was);
        ts := ts + [o.value];
      }
      PopCollection(FlowSeq);
      assert ts + [] == ts;
      status := Done;
    }

    /** A value, if one comes, or a null. */
    method HandleValue() returns (status: Status)
      modifies this, handler
      ensures DoneNode(ParseValue(old(View()), old(Top())), status, View(), old(handler.events), handler.events)
      ensures status == Done ==> collections == old(collections)
      decreases |tokens|, 2
    {
      if tokens != [] && tokens[0].kind == VALUE {
        PopToken();
        status := HandleNode();
      } else {
        handler.Send(OnNull(0));
        status := Done;
      }
    }

    method HandleKeyAndValue() returns (status: Status)
      modifies this, handler
      ensures DoneAll(KeyAndValue(old(View()), old(Top())), status, View(), old(handler.events), handler.events)
      ensures status == Done ==> collections == old(collections)
      decreases |tokens|, 4
    {
      hide ParseNode, KeyAndValue, ParseValue, AfterKey;
      ghost var was, s := handler.events, View();
      ghost var k := if At(s, KEY) then ParseNode(DocParsing.Pop(s), Top()) else Ok(NullNode(0), s);
      KeySplit(s, k, Top());
      if tokens != [] && tokens[0].kind == KEY {
        PopToken();
        status := HandleNode();
      } else {
        handler.Send(OnNull(0));
        status := Done;
      }
      if status != Done {
        return;
      }
      ghost var v := ParseValue(View(), Top());
      status := HandleValue();
      if v.Ok? { PairEvents(k.value, v.value); }
    }

    method HandleBlockMap() returns (status: Status)
      requires tokens != []
      modifies this, handler
      ensures DoneAll(BlockPairs(DocParsing.Pop(old(View()))), status, View(), old(handler.events), handler.events)
      ensures status == Done ==> collections == old(collections)
      decreases |tokens| - 1, 5
    {
      ghost var n, was, stack := |tokens|, handler.events, collections;
      ghost var goal := BlockPairs(DocParsing.Pop(View()));
      hide KeyAndValue, FlattenAll;
      PopToken();
      PushCollection(BlockMap);
      ghost var ts := [];
      ConsNone(goal);
      while true
        invariant |tokens| < n && collections == stack + [BlockMap]
        invariant Cons(ts, BlockPairs(View())) == goal && handler.events == was + FlattenAll(ts)
        decreases |tokens|
      {
        if tokens == [] || (tokens[0].kind != KEY && tokens[0].kind != VALUE && tokens[0].kind != BLOCK_MAP_END) {
          return Failed(END_OF_MAP);
        }
        if tokens[0].kind == BLOCK_MAP_END {
          PopToken();
          break;
        }
        ghost var o := KeyAndValue(View(), BlockMap);
        status := HandleKeyAndValue();
        if status != Done {
          return;
        }
        SomeMore(goal, ts, o.value, BlockPairs(View()), was);
        ts := ts + o.value;
      }
      PopCollection(BlockMap);
      assert ts + [] == ts;
      status := Done;
    }

    method HandleFlowMap() returns (status: Status)
      requires tokens != []
      modifies this, handler
      ensures DoneAll(FlowPairs(DocParsing.Pop(old(View()))), status, View(), old(handler.events), handler.events)
      ensures status == Done ==> collections == old(collections)
      decreases |tokens| - 1, 5
    {
      ghost var n, was, stack := |tokens|, handler.events, collections;
      ghost var goal := FlowPairs(DocParsing.Pop(View()));
      PopToken();
      PushCollection(FlowMap);
      ghost var ts := [];
      ConsNone(goal);
      while true
        invariant |tokens| < n && collections == stack + [FlowMap]
        invariant Cons(ts, FlowPairs(View())) == goal && handler.events == was + FlattenAll(ts)
        decreases |tokens|, if At(View(), FLOW_MAP_END) then 0 else 1
      {
        if tokens == [] {
          return Failed(END_OF_MAP_FLOW);
        }
        if tokens[0].kind == FLOW_MAP_END {
          PopToken();
          break;
        }
        ghost var s := View();
        ghost var o := KeyAndValue(s, FlowMap);
        status := HandleKeyAndValue();
        if status != Done {
          return;
        }
        if tokens == [] {
          return Failed(END_OF_MAP_FLOW);
        }
        if tokens[0].kind == FLOW_ENTRY {
          PopToken();
        } else if tokens[0].kind != FLOW_MAP_END {
          return Failed(END_OF_MAP_FLOW);
        }
        PairRead(s, View(), o.value, o.rest);
        SomeMore(goal, ts, o.value, FlowPairs(View()), was);
        ts := ts + o.value;
      }
      PopCollection(FlowMap);
      assert ts + [] == ts;
      status := Done;
    }

    method HandleCompactMap() returns (status: Status)
      requires tokens != []
      modifies this, handler
      ensures DoneAll(AfterKey(DocParsing.Pop(old(View())), CompactMap), status, View(), old(handler.events),
              handler.events)
      ensures status == Done ==> collections == old(collections)
      decreases |tokens| - 1, 5
    {
      hide ParseNode, ParseValue;
      PushCollection(CompactMap);
      PopToken();
      ghost var k := ParseNode(View(), CompactMap);
      status := HandleNode();
      if status != Done {
        return;
      }
      ghost var v := ParseValue(View(), CompactMap);
      status := HandleValue();
      if status != Done {
        return;
      }
      PairEvents(k.value, v.value);
      PopCollection(CompactMap);
    }

    method HandleCompactMapWithNoKey() returns (status: Status)
      requires tokens != []
      modifies this, handler
      ensures DoneAll(WithKey(NullNode(0), ParseNode(DocParsing.Pop(old(View())), CompactMap)), status, View(),
              old(handler.events), handler.events)
      ensures status == Done ==> collections == old(collections)
      decreases |tokens| - 1, 5
    {
      hide ParseNode;
      PushCollection(CompactMap);
      handler.Send(OnNull(0));
      PopToken();
      ghost var v := ParseNode(View(), CompactMap);
      status := HandleNode();
      if status != Done {
        return;
      }
      PairEvents(NullNode(0), v.value);
      PopCollection(CompactMap);
    }
  }

  lemma {:induction false} PropertiesNeverCrash(s: Input, tag: string, anchor: nat)
    ensures !Properties(s, tag, anchor).Crash?
    decreases |s.tokens|
  {
    if At(s, TAG) {
      PropertiesNeverCrash(Pop(s), s.tokens[0].value, anchor);
    } else if At(s, ANCHOR) {
      var name := s.tokens[0].value;
      PropertiesNeverCrash(Pop(s), tag, 0);
      PropertiesNeverCrash(Pop(s).(anchors := s.anchors[name := s.cur + 1], cur := s.cur + 1), tag, s.cur + 1);
    }
  }

  /** The goal of a loop after one more child. */
  lemma {:induction false} OneMore(goal: Outcome<seq<Tree>>, ts: seq<Tree>, t: Tree, o: Outcome<seq<Tree>>,
      was: seq<Event>)
    ensures Cons(ts, Cons([t], o)) == Cons(ts + [t], o)
    ensures was + FlattenAll(ts) + Flatten(t) == was + FlattenAll(ts + [t])
  {
    FlattenOne(t);
    SomeMore(goal, ts, [t], o, was);
  }

  lemma {:induction false} SomeMore(goal: Outcome<seq<Tree>>, ts: seq<Tree>, us: seq<Tree>, o: Outcome<seq<Tree>>,
      was: seq<Event>)
    ensures Cons(ts, Cons(us, o)) == Cons(ts + us, o)
    ensures was + FlattenAll(ts) + FlattenAll(us) == was + FlattenAll(ts + us)
  {
    ConsTwice(ts, us, o);
    FlattenJoin(ts, us);
    assert was + FlattenAll(ts) + FlattenAll(us) == was + (FlattenAll(ts) + FlattenAll(us));
  }

  /** One pass of the loop over a flow sequence: past the separator, or at the end. */
  lemma {:induction false} ItemRead(s: Input, v: Input, t: Tree, u: Input)
    requires s.tokens != [] && Head(s) != FLOW_SEQ_END && ParseNode(s, FlowSeq) == Ok(t, u)
    requires (At(u, FLOW_ENTRY) && v == Pop(u)) || (At(u, FLOW_SEQ_END) && v == u)
    ensures FlowItems(s) == Cons([t], FlowItems(v))
  {
    assert [t] + [] == [t];
  }

  lemma {:induction false} KeySplit(s: Input, k: Outcome<Tree>, top: Collection)
    requires k == if At(s, KEY) then ParseNode(Pop(s), top) else Ok(NullNode(0), s)
    ensures k.Ok? ==> KeyAndValue(s, top) == WithKey(k.value, ParseValue(k.rest, top))
    ensures k.Err? ==> KeyAndValue(s, top) == Err(k.error)
    ensures k.Crash? ==> KeyAndValue(s, top) == Crash
  {
    if At(s, KEY) { assert KeyAndValue(s, top) == AfterKey(Pop(s), top); }
  }

  lemma {:induction false} PairRead(s: Input, v: Input, kv: seq<Tree>, u: Input)
    requires s.tokens != [] && Head(s) != FLOW_MAP_END && KeyAndValue(s, FlowMap) == Ok(kv, u)
    requires (At(u, FLOW_ENTRY) && v == Pop(u)) || (At(u, FLOW_MAP_END) && v == u)
    ensures FlowPairs(s) == Cons(kv, FlowPairs(v))
  {
    assert kv + [] == kv;
  }

  lemma {:induction false} PairEvents(k: Tree, v: Tree)
    ensures FlattenAll([k, v]) == Flatten(k) + Flatten(v)
  {
    FlattenOne(k);
    FlattenOne(v);
    FlattenJoin([k], [v]);
    assert [k] + [v] == [k, v];
  }
}
