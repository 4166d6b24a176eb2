/** The converse of the grammar: whatever the parser accepts is a node written
    down in one of the ways of the grammar. */
module AcceptedTokens {
  import opened NodeTree
  import opened DocParsing
  import opened TokenGrammar
  import opened Wrappers

  /** Tokens as the scanner makes them: those that structure a node carry no text; tags and anchors do. */
  predicate CleanToken(t: Token) {
    match t.kind
    case DIRECTIVE => true
    case TAG => t.value != ""
    case ANCHOR => t.value != ""
    case ALIAS => true
    case PLAIN_SCALAR => true
    case NON_PLAIN_SCALAR => true
    case _ => t.value == ""
  }

  ghost predicate Clean(ts: seq<Token>) {
    forall i :: 0 <= i < |ts| ==> CleanToken(ts[i])
  }

  lemma {:induction false} CleanFirst(s: Input)
    requires Clean(s.tokens) && s.tokens != []
    ensures CleanToken(s.tokens[0]) && Clean(Pop(s).tokens) && s.tokens == [s.tokens[0]] + Pop(s).tokens
  {
  }

  /** At most one tag and one anchor, in either order. */
  lemma {:induction false} PropertiesWritten(s: Input) returns (tag: string, name: string, tagFirst: bool)
    requires Clean(s.tokens) && Properties(s, "", 0).Ok?
    ensures var r := Properties(s, "", 0).rest;
            && s.tokens == PropertyTokens(tag, name, tagFirst) + r.tokens && Clean(r.tokens)
            && !StartsWith(r.tokens, TAG) && !StartsWith(r.tokens, ANCHOR)
            && (StartsWith(s.tokens, TAG) || StartsWith(s.tokens, ANCHOR) <==> tag != "" || name != "")
  {
    PropertiesStep(s, "", 0);
    hide Properties, Clean, StartsWith;
    if At(s, TAG) {
      CleanFirst(s);
      tag, tagFirst := s.tokens[0].value, true;
      name := OneAnchor(Pop(s), tag);
      Joined([s.tokens[0]], if name == "" then [] else [Token(ANCHOR, name)], Properties(s, "", 0).rest.tokens);
      IsHead(s);
    } else if At(s, ANCHOR) {
      CleanFirst(s);
      name, tagFirst := s.tokens[0].value, false;
      tag := OneTag(Pop(s).(anchors := s.anchors[name := s.cur + 1], cur := s.cur + 1));
      Joined([s.tokens[0]], if tag == "" then [] else [Token(TAG, tag)], Properties(s, "", 0).rest.tokens);
      IsHead(s);
    } else {
      tag, name, tagFirst := "", "", false;
      NotHead(s);
    }
  }

  lemma {:induction false} IsHead(s: Input)
    ensures StartsWith(s.tokens, TAG) == At(s, TAG) && StartsWith(s.tokens, ANCHOR) == At(s, ANCHOR)
  {
  }

  lemma {:induction false} NotHead(s: Input)
    requires !At(s, TAG) && !At(s, ANCHOR)
    ensures !StartsWith(s.tokens, TAG) && !StartsWith(s.tokens, ANCHOR)
    ensures PropertyTokens("", "", false) + s.tokens == s.tokens
  {
  }

  lemma {:induction false} PropertiesStep(s: Input, tag: string, anchor: nat)
    ensures var r := Properties(s, tag, anchor);
            if At(s, TAG) then tag == "" && r.Ok? ==> r == Properties(Pop(s), s.tokens[0].value, anchor)
            else if At(s, ANCHOR) then
              anchor == 0 && s.tokens[0].value != ""
              ==> r == Properties(Pop(s).(anchors := s.anchors[s.tokens[0].value := s.cur + 1], cur := s.cur + 1), tag,
                                  s.cur + 1)
            else r == Ok(Props(tag, anchor), s)
  {
  }

  /** Behind a tag. */
  lemma {:induction false} OneAnchor(s: Input, tag: string) returns (name: string)
    requires Clean(s.tokens) && tag != "" && Properties(s, tag, 0).Ok?
    ensures var r := Properties(s, tag, 0).rest;
            && s.tokens == (if name == "" then [] else [Token(ANCHOR, name)]) + r.tokens && Clean(r.tokens)
            && !StartsWith(r.tokens, TAG) && !StartsWith(r.tokens, ANCHOR)
  {
    if At(s, ANCHOR) {
      CleanFirst(s);
      name := s.tokens[0].value;
      var u := Pop(s).(anchors := s.anchors[name := s.cur + 1], cur := s.cur + 1);
      assert Properties(s, tag, 0) == Properties(u, tag, u.cur);
      assert !At(u, TAG) && !At(u, ANCHOR);
    } else {
      name := "";
      assert s.tokens == [] + s.tokens;
    }
  }

  /** Behind an anchor. */
  lemma {:induction false} OneTag(s: Input) returns (tag: string)
    requires Clean(s.tokens) && s.cur > 0 && Properties(s, "", s.cur).Ok?
    ensures var r := Properties(s, "", s.cur).rest;
            && s.tokens == (if tag == "" then [] else [Token(TAG, tag)]) + r.tokens && Clean(r.tokens)
            && !StartsWith(r.tokens, TAG) && !StartsWith(r.tokens, ANCHOR)
  {
    if At(s, TAG) {
      CleanFirst(s);
      tag := s.tokens[0].value;
      assert Properties(s, "", s.cur) == Properties(Pop(s), tag, s.cur);
      assert !At(Pop(s), TAG) && !At(Pop(s), ANCHOR);
    } else {
      tag := "";
      assert s.tokens == [] + s.tokens;
    }
  }

  /** An accepted node has been written down. */
  lemma {:induction false} NodeWritten(s: Input, top: Collection) returns (f: Form)
    requires Clean(s.tokens) && ParseNode(s, top).Ok?
    ensures var r := ParseNode(s, top).rest;
            s.tokens == Tokens(f) + r.tokens && Spelt(f, top, r.tokens) && Clean(r.tokens)
    decreases |s.tokens|, 3
  {
    if s.tokens == [] {
      f := Full("", "", false, Nothing);
    } else if Head(s) == VALUE {
      CleanFirst(s);
      hide Tokens, Spelt, Clean;
      var v := NodeWritten(Pop(s), CompactMap);
      f := ValueOnly(v);
      ValueOnlyIs(v, top, ParseNode(s, top).rest.tokens);
    } else if Head(s) == ALIAS {
      CleanFirst(s);
      f := AliasTo(s.tokens[0].value);
    } else {
      f := FullWritten(s, top);
    }
  }

  lemma {:induction false} ValueOnlyIs(v: Form, top: Collection, tail: seq<Token>)
    ensures Tokens(ValueOnly(v)) + tail == [Token(VALUE, "")] + (Tokens(v) + tail)
    ensures Spelt(ValueOnly(v), top, tail) == Spelt(v, CompactMap, tail)
  {
    Joined([Token(VALUE, "")], Tokens(v), tail);
  }

  lemma {:induction false} FullWritten(s: Input, top: Collection) returns (f: Form)
    requires Clean(s.tokens) && s.tokens != [] && Head(s) != VALUE && Head(s) != ALIAS && ParseNode(s, top).Ok?
    ensures var r := ParseNode(s, top).rest;
            s.tokens == Tokens(f) + r.tokens && Spelt(f, top, r.tokens) && Clean(r.tokens)
    decreases |s.tokens|, 2
  {
    hide ParseNode, Properties, ParseContent, Tokens, Spelt, ContentTokens, ContentSpelt, PropertyTokens, Clean;
    PropertiesFirst(s, top);
    ParsedHead(s, top);
    var tag, name, tagFirst := PropertiesWritten(s);
    var p := Properties(s, "", 0);
    var headed := tag != "" || name != "";
    if !headed { HeadedTokens(tag, name, tagFirst, p.rest.tokens); }
    var c := ContentWritten(p.rest, top, p.value.tag, p.value.anchor, headed);
    f := Full(tag, name, tagFirst, c);
    var tail := ParseNode(s, top).rest.tokens;
    FullIs(f, top, tail, EnvOf(s));
    Joined(PropertyTokens(tag, name, tagFirst), ContentTokens(c), tail);
  }

  lemma {:induction false} ParsedHead(s: Input, top: Collection)
    requires s.tokens != [] && Head(s) != VALUE && Head(s) != ALIAS && ParseNode(s, top).Ok?
    ensures var p := Properties(s, "", 0); p.Ok? && p.rest.tokens != [] && |p.rest.tokens| <= |s.tokens|
  {
    hide Properties, ParseContent;
  }

  lemma {:induction false} ContentWritten(s: Input, top: Collection, tag: string, anchor: nat, headed: bool)
      returns (c: Content)
    requires Clean(s.tokens) && s.tokens != [] && ParseContent(s, top, tag, anchor).Ok?
    requires Head(s) != TAG && Head(s) != ANCHOR && (Head(s) == VALUE || Head(s) == ALIAS ==> headed)
    ensures var r := ParseContent(s, top, tag, anchor).rest;
            s.tokens == ContentTokens(c) + r.tokens && ContentSpelt(c, top, headed, r.tokens) && Clean(r.tokens)
    decreases |s.tokens|, 1
  {
    CleanFirst(s);
    var k := Head(s);
    hide Clean, FlowItems, BlockItems, FlowPairs, BlockPairs, AfterKey;
    if k == PLAIN_SCALAR {
      c := Plain(s.tokens[0].value);
    } else if k == NON_PLAIN_SCALAR {
      c := NonPlain(s.tokens[0].value);
    } else if k == FLOW_SEQ_START || k == BLOCK_SEQ_START {
      c := ItemsWritten(s, top, tag, anchor, headed);
    } else if k == FLOW_MAP_START || k == BLOCK_MAP_START || (k == KEY && top == FlowSeq) {
      c := MapWritten(s, top, tag, anchor, headed);
    } else {
      c := Nothing;
      assert s.tokens == [] + s.tokens;
    }
  }

  lemma {:induction false} ItemsWritten(s: Input, top: Collection, tag: string, anchor: nat, headed: bool)
      returns (c: Content)
    requires Clean(s.tokens) && (At(s, FLOW_SEQ_START) || At(s, BLOCK_SEQ_START))
    requires ParseContent(s, top, tag, anchor).Ok?
    ensures var r := ParseContent(s, top, tag, anchor).rest;
            s.tokens == ContentTokens(c) + r.tokens && ContentSpelt(c, top, headed, r.tokens) && Clean(r.tokens)
    decreases |s.tokens|, 0
  {
    CleanFirst(s);
    var u := Pop(s);
    hide FlowItems, BlockItems, FlowItemTokens, BlockItemTokens, FlowItemsSpelt, BlockItemsSpelt, Clean;
    if At(s, FLOW_SEQ_START) {
      var fs, comma := FlowItemsWritten(u);
      c := Items(Flow, fs, comma);
      Enclosed(FLOW_SEQ_START, FlowItemTokens(fs, comma), FLOW_SEQ_END, FlowItems(u).rest.tokens);
    } else {
      var fs := BlockItemsWritten(u);
      c := Items(Block, fs, false);
      Enclosed(BLOCK_SEQ_START, BlockItemTokens(fs), BLOCK_SEQ_END, BlockItems(u).rest.tokens);
    }
  }

  lemma {:induction false} MapWritten(s: Input, top: Collection, tag: string, anchor: nat, headed: bool)
      returns (c: Content)
    requires Clean(s.tokens) && (At(s, FLOW_MAP_START) || At(s, BLOCK_MAP_START) || (At(s, KEY) && top == FlowSeq))
    requires ParseContent(s, top, tag, anchor).Ok?
    ensures var r := ParseContent(s, top, tag, anchor).rest;
            s.tokens == ContentTokens(c) + r.tokens && ContentSpelt(c, top, headed, r.tokens) && Clean(r.tokens)
    decreases |s.tokens|, 0
  {
    CleanFirst(s);
    var u := Pop(s);
    hide FlowPairs, BlockPairs, AfterKey, FlowPairTokens, BlockPairTokens, FlowPairsSpelt, BlockPairsSpelt, PairTokens,
        PairSpelt, Clean;
    if At(s, FLOW_MAP_START) {
      var ps, comma := FlowPairsWritten(u);
      c := Pairs(Flow, ps, comma);
      Enclosed(FLOW_MAP_START, FlowPairTokens(ps, comma), FLOW_MAP_END, FlowPairs(u).rest.tokens);
    } else if At(s, BLOCK_MAP_START) {
      var ps := BlockPairsWritten(u);
      c := Pairs(Block, ps, false);
      Enclosed(BLOCK_MAP_START, BlockPairTokens(ps), BLOCK_MAP_END, BlockPairs(u).rest.tokens);
    } else {
      var k, v := AfterKeyWritten(u, CompactMap);
      c := OnePair(Pair(Some(k), v));
      KeyTokens(k, v, AfterKey(u, CompactMap).rest.tokens);
      KeySpelt(k, v, CompactMap, AfterKey(u, CompactMap).rest.tokens);
    }
  }

  lemma {:induction false} Enclosed(first: Type, inner: seq<Token>, last: Type, tail: seq<Token>)
    ensures [Token(first, "")] + (inner + ([Token(last, "")] + tail))
            == [Token(first, "")] + inner + [Token(last, "")] + tail
  {
  }

  lemma {:induction false} BlockItemsWritten(s: Input) returns (fs: seq<Form>)
    requires Clean(s.tokens) && BlockItems(s).Ok?
    ensures var r := BlockItems(s).rest; var end := [Token(BLOCK_SEQ_END, "")] + r.tokens;
            s.tokens == BlockItemTokens(fs) + end && BlockItemsSpelt(fs, end) && Clean(r.tokens)
    decreases |s.tokens|, 4
  {
    CleanFirst(s);
    hide ParseNode, Clean, Tokens, Spelt;
    if At(s, BLOCK_SEQ_END) {
      fs := [];
      assert s.tokens == [] + s.tokens;
    } else {
      BlockItemsStep(s);
      var f := NodeWritten(Pop(s), BlockSeq);
      var u := ParseNode(Pop(s), BlockSeq).rest;
      var more := BlockItemsWritten(u);
      fs := [f] + more;
      assert fs[1..] == more;
      var end := [Token(BLOCK_SEQ_END, "")] + BlockItems(s).rest.tokens;
      Regroup([Token(BLOCK_ENTRY, "")], Tokens(f), BlockItemTokens(more), end);
    }
  }

  lemma {:induction false} FlowItemsWritten(s: Input) returns (fs: seq<Form>, comma: bool)
    requires Clean(s.tokens) && FlowItems(s).Ok?
    ensures var r := FlowItems(s).rest; var end := [Token(FLOW_SEQ_END, "")] + r.tokens;
            s.tokens == FlowItemTokens(fs, comma) + end && FlowItemsSpelt(fs, comma, end) && Clean(r.tokens)
    decreases |s.tokens|, 4
  {
    CleanFirst(s);
    hide ParseNode, Clean, Tokens, Spelt, FlowItems, FlowItemTokens, FlowItemsSpelt;
    FlowItemsShape(s);
    if Head(s) == FLOW_SEQ_END {
      fs, comma := [], false;
      NoItems(comma);
      assert s.tokens == [] + s.tokens;
    } else {
      var f := NodeWritten(s, FlowSeq);
      var u := ParseNode(s, FlowSeq).rest;
      var end := [Token(FLOW_SEQ_END, "")] + FlowItems(s).rest.tokens;
      CleanFirst(u);
      var more: seq<Form> := [];
      comma := false;
      if At(u, FLOW_ENTRY) {
        more, comma := FlowItemsWritten(Pop(u));
        comma := comma || more == [];
      }
      NoItems(comma);
      fs := [f] + more;
      ItemFirst(f, more, comma, end);
      SeparatorIs(|more|, comma, FlowItemTokens(more, comma) + end, u);
      assert !StartsWith(s.tokens, FLOW_SEQ_END);
    }
  }

  lemma {:induction false} FlowItemsShape(s: Input)
    requires FlowItems(s).Ok?
    ensures s.tokens != []
    ensures Head(s) == FLOW_SEQ_END ==> FlowItems(s).rest == Pop(s)
    ensures Head(s) != FLOW_SEQ_END ==>
              && ParseNode(s, FlowSeq).Ok?
              && var u := ParseNode(s, FlowSeq).rest;
                 && u.tokens != []
                 && (At(u, FLOW_ENTRY) ==> FlowItems(Pop(u)).Ok? && FlowItems(s).rest == FlowItems(Pop(u)).rest)
                 && (!At(u, FLOW_ENTRY) ==> At(u, FLOW_SEQ_END) && FlowItems(s).rest == Pop(u))
  {
    hide ParseNode;
  }

  lemma {:induction false} ItemFirst(f: Form, more: seq<Form>, comma: bool, end: seq<Token>)
    ensures var rest := Separator(|more|, comma) + (FlowItemTokens(more, comma) + end);
            && FlowItemTokens([f] + more, comma) + end == Tokens(f) + rest
            && FlowItemsSpelt([f] + more, comma, end)
               == (Spelt(f, FlowSeq, rest) && !StartsWith(Tokens(f) + rest, FLOW_SEQ_END)
                   && FlowItemsSpelt(more, comma, end))
  {
    assert ([f] + more)[1..] == more;
    hide Tokens, Spelt;
    Regroup(Tokens(f), Separator(|more|, comma), FlowItemTokens(more, comma), end);
  }

  /** The separator that has been read. */
  lemma {:induction false} SeparatorIs(more: nat, comma: bool, rest: seq<Token>, u: Input)
    requires u.tokens != [] && CleanToken(u.tokens[0]) && u.tokens == [u.tokens[0]] + Pop(u).tokens
    requires if At(u, FLOW_ENTRY) then rest == Pop(u).tokens && (more > 0 || comma)
             else rest == u.tokens && more == 0 && !comma
    ensures Separator(more, comma) + rest == u.tokens
  {
  }

  lemma {:induction false} NoItems(comma: bool)
    ensures FlowItemTokens([], comma) == [] && FlowPairTokens([], comma) == []
    ensures forall end :: FlowItemsSpelt([], comma, end) && FlowPairsSpelt([], comma, end)
  {
  }

  lemma {:induction false} PairWritten(s: Input, top: Collection) returns (p: Pair)
    requires Clean(s.tokens) && KeyAndValue(s, top).Ok?
    ensures var r := KeyAndValue(s, top).rest;
            s.tokens == PairTokens(p) + r.tokens && PairSpelt(p, top, r.tokens) && Clean(r.tokens)
    ensures p.key.Some? <==> At(s, KEY)
    ensures At(s, KEY) || At(s, VALUE) ==> p != Pair(None, None)
    decreases |s.tokens|, 6
  {
    hide ParseNode, Clean, Tokens, Spelt, ParseValue, PairTokens, PairSpelt, Marked, StartsWith;
    if At(s, KEY) {
      CleanFirst(s);
      var k, v := AfterKeyWritten(Pop(s), top);
      p := Pair(Some(k), v);
      KeyTokens(k, v, KeyAndValue(s, top).rest.tokens);
      KeySpelt(k, v, top, KeyAndValue(s, top).rest.tokens);
    } else {
      var v := ValueWritten(s, top);
      p := Pair(None, v);
      NoKey(s, v, top, KeyAndValue(s, top).rest.tokens);
    }
  }

  lemma {:induction false} NoKey(s: Input, v: Option<Form>, top: Collection, tail: seq<Token>)
    requires !At(s, KEY) && s.tokens == Marked(VALUE, v) + tail
    requires if v.Some? then Spelt(v.value, top, tail) else !StartsWith(tail, VALUE)
    ensures PairTokens(Pair(None, v)) == Marked(VALUE, v) && PairSpelt(Pair(None, v), top, tail)
  {
    hide Tokens, Spelt;
    assert Marked(KEY, None) == [] && [] + Marked(VALUE, v) == Marked(VALUE, v);
    if v.None? { assert s.tokens == tail; }
  }

  /** A key and its value, behind the key token. */
  lemma {:induction false} AfterKeyWritten(s: Input, top: Collection) returns (k: Form, v: Option<Form>)
    requires Clean(s.tokens) && AfterKey(s, top).Ok?
    ensures var r := AfterKey(s, top).rest;
            && s.tokens == Tokens(k) + (Marked(VALUE, v) + r.tokens) && Clean(r.tokens)
            && Spelt(k, top, Marked(VALUE, v) + r.tokens)
            && (if v.Some? then Spelt(v.value, top, r.tokens) else !StartsWith(r.tokens, VALUE))
    decreases |s.tokens|, 5
  {
    hide ParseNode, Clean, Tokens, Spelt, ParseValue, Marked, StartsWith;
    k := NodeWritten(s, top);
    v := ValueWritten(ParseNode(s, top).rest, top);
  }

  lemma {:induction false} KeyTokens(k: Form, v: Option<Form>, tail: seq<Token>)
    ensures PairTokens(Pair(Some(k), v)) + tail == [Token(KEY, "")] + (Tokens(k) + (Marked(VALUE, v) + tail))
  {
    hide Tokens;
    assert Marked(KEY, Some(k)) == [Token(KEY, "")] + Tokens(k);
    Regroup([Token(KEY, "")], Tokens(k), Marked(VALUE, v), tail);
  }

  lemma {:induction false} KeySpelt(k: Form, v: Option<Form>, top: Collection, tail: seq<Token>)
    requires Spelt(k, top, Marked(VALUE, v) + tail)
    requires if v.Some? then Spelt(v.value, top, tail) else !StartsWith(tail, VALUE)
    ensures PairSpelt(Pair(Some(k), v), top, tail)
  {
    hide Spelt, Marked;
  }

  lemma {:induction false} ValueWritten(s: Input, top: Collection) returns (v: Option<Form>)
    requires Clean(s.tokens) && ParseValue(s, top).Ok?
    ensures var r := ParseValue(s, top).rest;
            && s.tokens == Marked(VALUE, v) + r.tokens && Clean(r.tokens)
            && (if v.Some? then Spelt(v.value, top, r.tokens) else !StartsWith(r.tokens, VALUE) && r == s)
    ensures v.Some? <==> At(s, VALUE)
    decreases |s.tokens|, 4
  {
    hide ParseNode, Clean, Tokens, Spelt;
    if At(s, VALUE) {
      CleanFirst(s);
      var f := NodeWritten(Pop(s), top);
      v := Some(f);
      Joined([Token(VALUE, "")], Tokens(f), ParseValue(s, top).rest.tokens);
    } else {
      v := None;
      assert s.tokens == [] + s.tokens;
    }
  }

  lemma {:induction false} BlockPairsWritten(s: Input) returns (ps: seq<Pair>)
    requires Clean(s.tokens) && BlockPairs(s).Ok?
    ensures var r := BlockPairs(s).rest; var end := [Token(BLOCK_MAP_END, "")] + r.tokens;
            s.tokens == BlockPairTokens(ps) + end && BlockPairsSpelt(ps, end) && Clean(r.tokens)
    decreases |s.tokens|, 7
  {
    CleanFirst(s);
    hide KeyAndValue, Clean, PairTokens, PairSpelt;
    if At(s, BLOCK_MAP_END) {
      ps := [];
      assert s.tokens == [] + s.tokens;
    } else {
      var p := PairWritten(s, BlockMap);
      var u := KeyAndValue(s, BlockMap).rest;
      var more := BlockPairsWritten(u);
      ps := [p] + more;
      assert ps[1..] == more;
      Joined(PairTokens(p), BlockPairTokens(more), [Token(BLOCK_MAP_END, "")] + BlockPairs(s).rest.tokens);
    }
  }

  lemma {:induction false} FlowPairsWritten(s: Input) returns (ps: seq<Pair>, comma: bool)
    requires Clean(s.tokens) && FlowPairs(s).Ok?
    ensures var r := FlowPairs(s).rest; var end := [Token(FLOW_MAP_END, "")] + r.tokens;
            s.tokens == FlowPairTokens(ps, comma) + end && FlowPairsSpelt(ps, comma, end) && Clean(r.tokens)
    decreases |s.tokens|, 7
  {
    CleanFirst(s);
    hide KeyAndValue, Clean, PairTokens, PairSpelt, FlowPairs, FlowPairTokens, FlowPairsSpelt;
    FlowPairsShape(s);
    if Head(s) == FLOW_MAP_END {
      ps, comma := [], false;
      NoItems(comma);
      assert s.tokens == [] + s.tokens;
    } else {
      var p := PairWritten(s, FlowMap);
      var u := KeyAndValue(s, FlowMap).rest;
      var end := [Token(FLOW_MAP_END, "")] + FlowPairs(s).rest.tokens;
      CleanFirst(u);
      var more: seq<Pair> := [];
      comma := false;
      if At(u, FLOW_ENTRY) {
        more, comma := FlowPairsWritten(Pop(u));
        comma := comma || more == [];
      }
      NoItems(comma);
      ps := [p] + more;
      PairFirst(p, more, comma, end);
      SeparatorIs(|more|, comma, FlowPairTokens(more, comma) + end, u);
      assert !StartsWith(s.tokens, FLOW_MAP_END);
    }
  }

  lemma {:induction false} FlowPairsShape(s: Input)
    requires FlowPairs(s).Ok?
    ensures s.tokens != []
    ensures Head(s) == FLOW_MAP_END ==> FlowPairs(s).rest == Pop(s)
    ensures Head(s) != FLOW_MAP_END ==>
              && KeyAndValue(s, FlowMap).Ok?
              && var u := KeyAndValue(s, FlowMap).rest;
                 && u.tokens != [] && |u.tokens| <= |s.tokens|
                 && (At(u, FLOW_ENTRY) ==> FlowPairs(Pop(u)).Ok? && FlowPairs(s).rest == FlowPairs(Pop(u)).rest)
                 && (!At(u, FLOW_ENTRY) ==> At(u, FLOW_MAP_END) && FlowPairs(s).rest == Pop(u))
  {
    hide KeyAndValue;
  }

  lemma {:induction false} PairFirst(p: Pair, more: seq<Pair>, comma: bool, end: seq<Token>)
    ensures var rest := Separator(|more|, comma) + (FlowPairTokens(more, comma) + end);
            && FlowPairTokens([p] + more, comma) + end == PairTokens(p) + rest
            && FlowPairsSpelt([p] + more, comma, end)
               == (PairSpelt(p, FlowMap, rest) && !StartsWith(PairTokens(p) + rest, FLOW_MAP_END)
                   && FlowPairsSpelt(more, comma, end))
  {
    assert ([p] + more)[1..] == more;
    hide PairTokens, PairSpelt;
    Regroup(PairTokens(p), Separator(|more|, comma), FlowPairTokens(more, comma), end);
  }

  /** The parser accepts exactly the nodes of the grammar whose aliases have anchors before them. */
  lemma {:induction false} AcceptedIff(s: Input, top: Collection)
    requires Clean(s.tokens)
    ensures ParseNode(s, top).Ok?
            <==> exists f, tail :: s.tokens == Tokens(f) + tail && Spelt(f, top, tail) && Meaning(f, EnvOf(s)).Some?
  {
    if ParseNode(s, top).Ok? {
      var f := NodeWritten(s, top);
      var tail := ParseNode(s, top).rest.tokens;
      hide ParseNode, Tokens, Spelt, Meaning;
      ParsesBack(s, f, top, tail);
      assert s.tokens == Tokens(f) + tail && Spelt(f, top, tail) && Meaning(f, EnvOf(s)).Some?;
    }
    if f, tail :| s.tokens == Tokens(f) + tail && Spelt(f, top, tail) && Meaning(f, EnvOf(s)).Some? {
      ParsesBack(s, f, top, tail);
    }
  }
}
