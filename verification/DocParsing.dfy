/** The recursive parser of single documents: which tree a sequence of tokens
    stands for, and what the parser does with any other. */
module DocParsing {
  import opened NodeTree

  datatype Type =
    | DIRECTIVE | DOC_START | DOC_END | BLOCK_SEQ_START | BLOCK_MAP_START | BLOCK_SEQ_END | BLOCK_MAP_END | BLOCK_ENTRY
    | FLOW_SEQ_START | FLOW_MAP_START | FLOW_SEQ_END | FLOW_MAP_END | FLOW_MAP_COMPACT | FLOW_ENTRY | KEY | VALUE
    | ANCHOR | ALIAS | TAG | PLAIN_SCALAR | NON_PLAIN_SCALAR

  /** For a tag, `value` is the translated tag. */
  datatype Token = Token(kind: Type, value: string)

  datatype Error = END_OF_SEQ | END_OF_SEQ_FLOW | END_OF_MAP | END_OF_MAP_FLOW | MULTIPLE_TAGS | MULTIPLE_ANCHORS | UNKNOWN_ANCHOR

  datatype Collection = NoCollection | BlockMap | BlockSeq | FlowMap | FlowSeq | CompactMap

  /** The tokens to come, and the anchors seen. */
  datatype Input = Input(tokens: seq<Token>, anchors: map<string, nat>, cur: nat)

  /** Crash: the parser looks at a token when there is none. */
  datatype Outcome<T> = Ok(value: T, rest: Input) | Err(error: Error) | Crash

  predicate IsNullString(s: string) { s in ["", "~", "null", "Null", "NULL"] }

  function Pop(s: Input): Input
    requires s.tokens != []
  {
    s.(tokens := s.tokens[1..])
  }

  predicate At(s: Input, k: Type) { s.tokens != [] && s.tokens[0].kind == k }

  function Head(s: Input): Type
    requires s.tokens != []
  {
    s.tokens[0].kind
  }

  datatype Props = Props(tag: string, anchor: nat)

  /** ParseProperties */
  function Properties(s: Input, tag: string, anchor: nat): (r: Outcome<Props>)
    ensures r.Ok? ==> |r.rest.tokens| <= |s.tokens|
    decreases |s.tokens|
  {
    if At(s, TAG) then
      if tag != "" then Err(MULTIPLE_TAGS) else Properties(Pop(s), s.tokens[0].value, anchor)
    else if At(s, ANCHOR) then
      if anchor != 0 then Err(MULTIPLE_ANCHORS) else
        var name := s.tokens[0].value;
        if name == "" then Properties(Pop(s), tag, 0)
        else Properties(Pop(s).(anchors := s.anchors[name := s.cur + 1], cur := s.cur + 1), tag, s.cur + 1)
    else Ok(Props(tag, anchor), s)
  }

  /** A collection from its children. */
  function Collect(kind: Kind, tag: string, style: Style, anchor: nat, kids: Outcome<seq<Tree>>): (r: Outcome<Tree>)
    ensures r.Ok? <==> kids.Ok?
    ensures kids.Ok? ==> r == Ok(Node(kind, tag, style, "", anchor, kids.value), kids.rest)
    ensures kids.Crash? <==> r.Crash?
  {
    match kids
    case Ok(ts, rest) => Ok(Node(kind, tag, style, "", anchor, ts), rest)
    case Err(e) => Err(e)
    case Crash => Crash
  }

  function Cons(ts: seq<Tree>, kids: Outcome<seq<Tree>>): (r: Outcome<seq<Tree>>)
    ensures r.Ok? <==> kids.Ok?
    ensures kids.Ok? ==> r == Ok(ts + kids.value, kids.rest)
    ensures kids.Crash? <==> r.Crash?
  {
    match kids
    case Ok(more, rest) => Ok(ts + more, rest)
    case Err(e) => Err(e)
    case Crash => Crash
  }

  /** HandleNode in a collection of type `top`. */
  function ParseNode(s: Input, top: Collection): (r: Outcome<Tree>)
    ensures r.Ok? ==> |r.rest.tokens| <= |s.tokens|
    decreases |s.tokens|, 1
  {
    if s.tokens == [] then Ok(NullNode(0), s)
    else if Head(s) == VALUE then
      Collect(Map, "?", Default, 0, WithKey(NullNode(0), ParseNode(Pop(s), CompactMap)))
    else if Head(s) == ALIAS then
      if s.tokens[0].value in s.anchors then Ok(Alias(s.anchors[s.tokens[0].value]), Pop(s)) else Err(UNKNOWN_ANCHOR)
    else
      match Properties(s, "", 0)
      case Err(e) => Err(e)
      case Crash => Crash
      case Ok(props, u) => if u.tokens == [] then Crash else ParseContent(u, top, props.tag, props.anchor)
  }

  /** The rest of HandleNode, behind the properties. */
  function ParseContent(s: Input, top: Collection, tag: string, anchor: nat): (r: Outcome<Tree>)
    requires s.tokens != []
    ensures r.Ok? ==> |r.rest.tokens| <= |s.tokens|
    decreases |s.tokens|, 0
  {
    var token := s.tokens[0];
    if token.kind == PLAIN_SCALAR && IsNullString(token.value) then Ok(NullNode(anchor), Pop(s)) else
      var tag := if tag != "" then tag else if token.kind == NON_PLAIN_SCALAR then "!" else "?";
      if token.kind == PLAIN_SCALAR
          || token.kind == NON_PLAIN_SCALAR then Ok(Node(Scalar, tag, Default, token.value, anchor, []), Pop(s))
      else if token.kind == FLOW_SEQ_START then Collect(Sequence, tag, Flow, anchor, FlowItems(Pop(s)))
      else if token.kind == BLOCK_SEQ_START then Collect(Sequence, tag, Block, anchor, BlockItems(Pop(s)))
      else if token.kind == FLOW_MAP_START then Collect(Map, tag, Flow, anchor, FlowPairs(Pop(s)))
      else if token.kind == BLOCK_MAP_START then Collect(Map, tag, Block, anchor, BlockPairs(Pop(s)))
      else if token.kind == KEY && top == FlowSeq then Collect(Map, tag, Flow, anchor, AfterKey(Pop(s), CompactMap))
      else if tag == "?" then Ok(NullNode(anchor), s)
      else Ok(Node(Scalar, tag, Default, "", anchor, []), s)
  }

  /** The children of a block sequence behind its start. */
  function BlockItems(s: Input): (r: Outcome<seq<Tree>>)
    ensures r.Ok? ==> |r.rest.tokens| <= |s.tokens|
    decreases |s.tokens|, 2
  {
    if At(s, BLOCK_SEQ_END) then Ok([], Pop(s))
    else if !At(s, BLOCK_ENTRY) then Err(END_OF_SEQ)
    else if At(Pop(s), BLOCK_ENTRY) || At(Pop(s), BLOCK_SEQ_END) then Cons([NullNode(0)], BlockItems(Pop(s)))
    else
      match ParseNode(Pop(s), BlockSeq)
      case Ok(t, u) => Cons([t], BlockItems(u))
      case Err(e) => Err(e)
      case Crash => Crash
  }

  function FlowItems(s: Input): (r: Outcome<seq<Tree>>)
    ensures r.Ok? ==> |r.rest.tokens| <= |s.tokens|
    decreases |s.tokens|, 2
  {
    if s.tokens == [] then Err(END_OF_SEQ_FLOW)
    else if Head(s) == FLOW_SEQ_END then Ok([], Pop(s))
    else
      match ParseNode(s, FlowSeq)
      case Ok(t, u) =>
        if At(u, FLOW_ENTRY) then Cons([t], FlowItems(Pop(u)))
        else if At(u, FLOW_SEQ_END) then Ok([t], Pop(u))
        else Err(END_OF_SEQ_FLOW)
      case Err(e) => Err(e)
      case Crash => Crash
  }

  /** The value of a key, null if there is none. */
  function ParseValue(s: Input, top: Collection): (r: Outcome<Tree>)
    ensures r.Ok? ==> |r.rest.tokens| <= |s.tokens| && (At(s, VALUE) ==> |r.rest.tokens| < |s.tokens|)
    decreases |s.tokens|, 2
  {
    if At(s, VALUE) then ParseNode(Pop(s), top) else Ok(NullNode(0), s)
  }

  /** What follows a key token: the key and its value. */
  function AfterKey(s: Input, top: Collection): (r: Outcome<seq<Tree>>)
    ensures r.Ok? ==> |r.value| == 2 && |r.rest.tokens| <= |s.tokens|
    decreases |s.tokens|, 3
  {
    match ParseNode(s, top)
    case Ok(k, u) => WithKey(k, ParseValue(u, top))
    case Err(e) => Err(e)
    case Crash => Crash
  }

  function WithKey(k: Tree, v: Outcome<Tree>): (r: Outcome<seq<Tree>>)
    ensures r.Ok? <==> v.Ok?
    ensures v.Ok? ==> r == Ok([k, v.value], v.rest)
    ensures v.Crash? <==> r.Crash?
  {
    match v
    case Ok(t, u) => Ok([k, t], u)
    case Err(e) => Err(e)
    case Crash => Crash
  }

  /** A key, null if there is none, and its value. */
  function KeyAndValue(s: Input, top: Collection): (r: Outcome<seq<Tree>>)
    ensures r.Ok? ==> |r.value| == 2 && |r.rest.tokens| <= |s.tokens| && (At(s, KEY) || At(s, VALUE) ==> |r.rest.tokens| < |s.tokens|)
    decreases |s.tokens|, 4
  {
    if At(s, KEY) then AfterKey(Pop(s), top) else WithKey(NullNode(0), ParseValue(s, top))
  }

  function BlockPairs(s: Input): (r: Outcome<seq<Tree>>)
    ensures r.Ok? ==> |r.rest.tokens| <= |s.tokens|
    decreases |s.tokens|, 5
  {
    if At(s, BLOCK_MAP_END) then Ok([], Pop(s))
    else if !At(s, KEY) && !At(s, VALUE) then Err(END_OF_MAP)
    else
      match KeyAndValue(s, BlockMap)
      case Ok(kv, u) => Cons(kv, BlockPairs(u))
      case Err(e) => Err(e)
      case Crash => Crash
  }

  function FlowPairs(s: Input): (r: Outcome<seq<Tree>>)
    ensures r.Ok? ==> |r.rest.tokens| <= |s.tokens|
    decreases |s.tokens|, 5
  {
    if s.tokens == [] then Err(END_OF_MAP_FLOW)
    else if Head(s) == FLOW_MAP_END then Ok([], Pop(s))
    else
      match KeyAndValue(s, FlowMap)
      case Ok(kv, u) =>
        if At(u, FLOW_ENTRY) then Cons(kv, FlowPairs(Pop(u)))
        else if At(u, FLOW_MAP_END) then Ok(kv, Pop(u))
        else Err(END_OF_MAP_FLOW)
      case Err(e) => Err(e)
      case Crash => Crash
  }

  // ---------- Every result is one well-formed tree ----------

  /** Anchors are numbered up to `cur`. */
  ghost predicate AnchorsOk(s: Input) {
    forall name :: name in s.anchors ==> 1 <= s.anchors[name] <= s.cur
  }

  lemma {:induction false} PropertiesOk(s: Input, tag: string, anchor: nat)
    requires AnchorsOk(s) && Properties(s, tag, anchor).Ok?
    ensures var r := Properties(s, tag, anchor);
            && AnchorsOk(r.rest) && (anchor == 0 ==> r.value.anchor == 0 || r.value.anchor == s.cur + 1)
            && (anchor != 0 ==> r.value.anchor == anchor && r.rest.cur == s.cur)
            && r.rest.cur == (if anchor == 0 && r.value.anchor != 0 then s.cur + 1 else s.cur)
    decreases |s.tokens|
  {
    if At(s, TAG) {
      PropertiesOk(Pop(s), s.tokens[0].value, anchor);
    } else if At(s, ANCHOR) {
      var name := s.tokens[0].value;
      if name == "" { PropertiesOk(Pop(s), tag, 0); }
      else { PropertiesOk(Pop(s).(anchors := s.anchors[name := s.cur + 1], cur := s.cur + 1), tag, s.cur + 1); }
    }
  }

  /** A parsed tree has whole pairs in its maps and its anchors in order. */
  ghost predicate Fits(s: Input, t: Tree, rest: Input) {
    Shaped(t) && Numbered(t, s.cur) == rest.cur && AnchorsOk(rest)
  }

  ghost predicate FitsAll(s: Input, ts: seq<Tree>, rest: Input) {
    ShapedAll(ts) && NumberedAll(ts, s.cur) == rest.cur && AnchorsOk(rest)
  }

  lemma {:induction false} NullFits(s: Input, u: Input)
    requires AnchorsOk(s) && u.anchors == s.anchors && u.cur == s.cur
    ensures Fits(s, NullNode(0), u)
  {
  }

  lemma {:induction false} FitsMore(s: Input, t: Tree, u: Input, ts: seq<Tree>, rest: Input)
    requires Fits(s, t, u) && FitsAll(u, ts, rest)
    ensures FitsAll(s, [t] + ts, rest)
  {
    assert ([t] + ts)[1..] == ts;
  }

  lemma {:induction false} FitsNone(s: Input, u: Input)
    requires AnchorsOk(u) && u.cur == s.cur
    ensures FitsAll(s, [], u)
  {
  }

  lemma {:induction false} FitsTwo(s: Input, k: Tree, u: Input, v: Tree, w: Input)
    requires Fits(s, k, u) && Fits(u, v, w)
    ensures FitsAll(s, [k, v], w)
  {
    FitsNone(w, w);
    FitsMore(u, v, w, [], w);
    FitsMore(s, k, u, [v], w);
    assert [v] + [] == [v] && [k] + [v] == [k, v];
  }

  lemma {:induction false} FitsJoin(s: Input, ts: seq<Tree>, u: Input, more: seq<Tree>, rest: Input)
    requires FitsAll(s, ts, u) && FitsAll(u, more, rest)
    ensures FitsAll(s, ts + more, rest)
    decreases |ts|
  {
    if ts == [] {
      assert ts + more == more;
    } else {
      assert (ts + more)[1..] == ts[1..] + more;
      FitsJoin(s.(cur := Numbered(ts[0], s.cur)), ts[1..], u, more, rest);
    }
  }

  /** HandleNode emits exactly one well-formed node, if it does not fail. */
  lemma {:induction false} NodeFits(s: Input, top: Collection)
    requires AnchorsOk(s) && ParseNode(s, top).Ok?
    ensures Fits(s, ParseNode(s, top).value, ParseNode(s, top).rest)
    decreases |s.tokens|, 1
  {
    hide ParseContent, FitsAll, Properties;
    if s.tokens == [] {
      NullFits(s, s);
    } else if Head(s) == VALUE {
      NodeFits(Pop(s), CompactMap);
      var v := ParseNode(Pop(s), CompactMap);
      NullFits(s, Pop(s));
      FitsTwo(s, NullNode(0), Pop(s), v.value, v.rest);
      CollectFits(s, s, Map, "?", Default, 0, WithKey(NullNode(0), v));
    } else if Head(s) == ALIAS {
      assert s.tokens[0].value in s.anchors;
    } else {
      PropertiesOk(s, "", 0);
      var p := Properties(s, "", 0);
      ContentFits(p.rest, top, p.value.tag, p.value.anchor, s);
    }
  }

  lemma {:induction false} ContentFits(s: Input, top: Collection, tag: string, anchor: nat, before: Input)
    requires s.tokens != [] && AnchorsOk(s) && ParseContent(s, top, tag, anchor).Ok?
    requires (anchor == 0 && s.cur == before.cur) || (anchor == s.cur == before.cur + 1)
    ensures Fits(before, ParseContent(s, top, tag, anchor).value, ParseContent(s, top, tag, anchor).rest)
    decreases |s.tokens|, 0
  {
    hide FitsAll, FlowItems, BlockItems, FlowPairs, BlockPairs, AfterKey, ParseNode;
    var k, u := s.tokens[0].kind, Pop(s);
    if k == FLOW_SEQ_START {
      FlowItemsFit(u);
      CollectFits(before, u, Sequence, tag, Flow, anchor, FlowItems(u));
    } else if k == BLOCK_SEQ_START {
      BlockItemsFit(u);
      CollectFits(before, u, Sequence, tag, Block, anchor, BlockItems(u));
    } else if k == FLOW_MAP_START {
      FlowPairsFit(u);
      CollectFits(before, u, Map, tag, Flow, anchor, FlowPairs(u));
    } else if k == BLOCK_MAP_START {
      BlockPairsFit(u);
      CollectFits(before, u, Map, tag, Block, anchor, BlockPairs(u));
    } else if k == KEY && top == FlowSeq {
      AfterKeyFits(u, CompactMap);
      CollectFits(before, u, Map, tag, Flow, anchor, AfterKey(u, CompactMap));
    } else {
      assert ParseContent(s, top, tag, anchor).value.kids == [];
      assert ShapedAll([]) && NumberedAll([], s.cur) == s.cur;
    }
  }

  lemma {:induction false} CollectFits(before: Input, s: Input, kind: Kind, tag: string, style: Style, anchor: nat,
      kids: Outcome<seq<Tree>>)
    requires (anchor == 0 && s.cur == before.cur) || (anchor == s.cur == before.cur + 1)
    requires (kind.Sequence? || kind.Map?)
             && (kids.Ok? ==> FitsAll(s, kids.value, kids.rest) && (kind.Map? ==> |kids.value| % 2 == 0))
    ensures kids.Ok? ==> forall tag :: Fits(before, Collect(kind, tag, style, anchor, kids).value, kids.rest)
  {
  }

  lemma {:induction false} BlockItemsFit(s: Input)
    requires AnchorsOk(s) && BlockItems(s).Ok?
    ensures FitsAll(s, BlockItems(s).value, BlockItems(s).rest)
    decreases |s.tokens|, 2
  {
    if At(s, BLOCK_SEQ_END) {
    } else if At(Pop(s), BLOCK_ENTRY) || At(Pop(s), BLOCK_SEQ_END) {
      BlockItemsFit(Pop(s));
      NullFits(s, Pop(s));
      FitsMore(s, NullNode(0), Pop(s), BlockItems(Pop(s)).value, BlockItems(Pop(s)).rest);
    } else {
      NodeFits(Pop(s), BlockSeq);
      var r := ParseNode(Pop(s), BlockSeq);
      BlockItemsFit(r.rest);
      FitsMore(s, r.value, r.rest, BlockItems(r.rest).value, BlockItems(r.rest).rest);
    }
  }

  lemma {:induction false} FlowItemsFit(s: Input)
    requires AnchorsOk(s) && FlowItems(s).Ok?
    ensures FitsAll(s, FlowItems(s).value, FlowItems(s).rest)
    decreases |s.tokens|, 2
  {
    if Head(s) != FLOW_SEQ_END {
      NodeFits(s, FlowSeq);
      var r := ParseNode(s, FlowSeq);
      var u := Pop(r.rest);
      if At(r.rest, FLOW_ENTRY) {
        FlowItemsFit(u);
        FitsMore(s, r.value, u, FlowItems(u).value, FlowItems(u).rest);
      } else {
        FitsNone(u, u);
        FitsMore(s, r.value, u, [], u);
        assert [r.value] + [] == [r.value];
      }
    }
  }

  lemma {:induction false} ValueFits(s: Input, top: Collection)
    requires AnchorsOk(s) && ParseValue(s, top).Ok?
    ensures Fits(s, ParseValue(s, top).value, ParseValue(s, top).rest)
    decreases |s.tokens|, 2
  {
    if At(s, VALUE) { NodeFits(Pop(s), top); }
  }

  lemma {:induction false} AfterKeyFits(s: Input, top: Collection)
    requires AnchorsOk(s) && AfterKey(s, top).Ok?
    ensures FitsAll(s, AfterKey(s, top).value, AfterKey(s, top).rest)
    ensures |AfterKey(s, top).value| == 2
    decreases |s.tokens|, 3
  {
    NodeFits(s, top);
    var k := ParseNode(s, top);
    ValueFits(k.rest, top);
    var v := ParseValue(k.rest, top);
    FitsTwo(s, k.value, k.rest, v.value, v.rest);
  }

  lemma {:induction false} KeyAndValueFit(s: Input, top: Collection)
    requires AnchorsOk(s) && KeyAndValue(s, top).Ok?
    ensures FitsAll(s, KeyAndValue(s, top).value, KeyAndValue(s, top).rest)
    decreases |s.tokens|, 4
  {
    if At(s, KEY) {
      AfterKeyFits(Pop(s), top);
    } else {
      ValueFits(s, top);
      NullFits(s, s);
      FitsTwo(s, NullNode(0), s, ParseValue(s, top).value, ParseValue(s, top).rest);
    }
  }

  lemma {:induction false} BlockPairsFit(s: Input)
    requires AnchorsOk(s) && BlockPairs(s).Ok?
    ensures FitsAll(s, BlockPairs(s).value, BlockPairs(s).rest) && |BlockPairs(s).value| % 2 == 0
    decreases |s.tokens|, 5
  {
    if !At(s, BLOCK_MAP_END) {
      KeyAndValueFit(s, BlockMap);
      var r := KeyAndValue(s, BlockMap);
      BlockPairsFit(r.rest);
      FitsJoin(s, r.value, r.rest, BlockPairs(r.rest).value, BlockPairs(r.rest).rest);
    }
  }

  lemma {:induction false} FlowPairsFit(s: Input)
    requires AnchorsOk(s) && FlowPairs(s).Ok?
    ensures FitsAll(s, FlowPairs(s).value, FlowPairs(s).rest) && |FlowPairs(s).value| % 2 == 0
    decreases |s.tokens|, 5
  {
    if Head(s) != FLOW_MAP_END {
      hide KeyAndValue;
      KeyAndValueFit(s, FlowMap);
      var r := KeyAndValue(s, FlowMap);
      if At(r.rest, FLOW_ENTRY) {
        FlowPairsFit(Pop(r.rest));
        FitsJoin(s, r.value, Pop(r.rest), FlowPairs(Pop(r.rest)).value, FlowPairs(Pop(r.rest)).rest);
      }
    }
  }
}
