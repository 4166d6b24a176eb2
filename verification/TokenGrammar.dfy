/** The other direction of the parser: the ways to write nodes down as tokens,
    what each of them means, and that the parser finds that meaning. */
module TokenGrammar {
  import opened NodeTree
  import opened DocParsing
  import opened Wrappers

  /** A node as it is written. Names and tags that are not written are empty. */
  datatype Form =
    | AliasTo(name: string)
    // a value token by itself
    | ValueOnly(value: Form)
    | Full(tag: string, name: string, tagFirst: bool, content: Content)

  /** `comma` says whether a separator follows the last part of a flow collection. */
  datatype Content =
    | Plain(value: string)
    | NonPlain(value: string)
    | Items(style: Style, items: seq<Form>, comma: bool)
    | Pairs(style: Style, pairs: seq<Pair>, comma: bool)
    // a key in a flow sequence
    | OnePair(pair: Pair)
    | Nothing

  datatype Pair = Pair(key: Option<Form>, value: Option<Form>)

  // ---------- The tokens ----------

  function PropertyTokens(tag: string, name: string, tagFirst: bool): seq<Token> {
    var tags := if tag == "" then [] else [Token(TAG, tag)];
    var names := if name == "" then [] else [Token(ANCHOR, name)];
    if tagFirst then tags + names else names + tags
  }

  function Tokens(f: Form): seq<Token> {
    match f
    case AliasTo(name) => [Token(ALIAS, name)]
    case ValueOnly(v) => [Token(VALUE, "")] + Tokens(v)
    case Full(tag, name, tagFirst, content) => PropertyTokens(tag, name, tagFirst) + ContentTokens(content)
  }

  function ContentTokens(c: Content): seq<Token> {
    match c
    case Plain(value) => [Token(PLAIN_SCALAR, value)]
    case NonPlain(value) => [Token(NON_PLAIN_SCALAR, value)]
    case Items(style, items, comma) =>
      if style == Flow then [Token(FLOW_SEQ_START, "")] + FlowItemTokens(items, comma) + [Token(FLOW_SEQ_END, "")]
      else [Token(BLOCK_SEQ_START, "")] + BlockItemTokens(items) + [Token(BLOCK_SEQ_END, "")]
    case Pairs(style, pairs, comma) =>
      if style == Flow then [Token(FLOW_MAP_START, "")] + FlowPairTokens(pairs, comma) + [Token(FLOW_MAP_END, "")]
      else [Token(BLOCK_MAP_START, "")] + BlockPairTokens(pairs) + [Token(BLOCK_MAP_END, "")]
    case OnePair(pair) => PairTokens(pair)
    case Nothing => []
  }

  function BlockItemTokens(fs: seq<Form>): seq<Token> {
    if fs == [] then [] else [Token(BLOCK_ENTRY, "")] + Tokens(fs[0]) + BlockItemTokens(fs[1..])
  }

  /** What stands behind a part of a flow collection, if `more` parts follow. */
  function Separator(more: nat, comma: bool): seq<Token> {
    if more > 0 || comma then [Token(FLOW_ENTRY, "")] else []
  }

  function FlowItemTokens(fs: seq<Form>, comma: bool): seq<Token> {
    if fs == [] then [] else Tokens(fs[0]) + Separator(|fs| - 1, comma) + FlowItemTokens(fs[1..], comma)
  }

  function Marked(kind: Type, o: Option<Form>): seq<Token>
    decreases o
  {
    if o.None? then [] else [Token(kind, "")] + Tokens(o.value)
  }

  function PairTokens(p: Pair): seq<Token> { Marked(KEY, p.key) + Marked(VALUE, p.value) }

  function BlockPairTokens(ps: seq<Pair>): seq<Token> {
    if ps == [] then [] else PairTokens(ps[0]) + BlockPairTokens(ps[1..])
  }

  function FlowPairTokens(ps: seq<Pair>, comma: bool): seq<Token> {
    if ps == [] then [] else PairTokens(ps[0]) + Separator(|ps| - 1, comma) + FlowPairTokens(ps[1..], comma)
  }

  // ---------- Where they can stand ----------

  predicate StartsWith(tail: seq<Token>, k: Type) { tail != [] && tail[0].kind == k }

  /** A node of which nothing is written must not run into what follows. */
  predicate CanBeEmpty(top: Collection, headed: bool, tail: seq<Token>) {
    if tail == [] then !headed else
      && tail[0].kind !in {TAG, ANCHOR, PLAIN_SCALAR, NON_PLAIN_SCALAR, FLOW_SEQ_START, BLOCK_SEQ_START, FLOW_MAP_START,
                           BLOCK_MAP_START}
      && (tail[0].kind == KEY ==> top != FlowSeq)
      && (tail[0].kind in {VALUE, ALIAS} ==> headed)
  }

  /** The node can be written in a collection of type `top`, before `tail`. */
  predicate Spelt(f: Form, top: Collection, tail: seq<Token>) {
    match f
    case AliasTo(_) => true
    case ValueOnly(v) => Spelt(v, CompactMap, tail)
    case Full(tag, name, _, content) => ContentSpelt(content, top, tag != "" || name != "", tail)
  }

  predicate ContentSpelt(c: Content, top: Collection, headed: bool, tail: seq<Token>) {
    match c
    case Plain(_) => true
    case NonPlain(_) => true
    case Items(style, items, comma) =>
      if style == Flow then FlowItemsSpelt(items, comma, [Token(FLOW_SEQ_END, "")] + tail)
      else style == Block && BlockItemsSpelt(items, [Token(BLOCK_SEQ_END, "")] + tail)
    case Pairs(style, pairs, comma) =>
      if style == Flow then FlowPairsSpelt(pairs, comma, [Token(FLOW_MAP_END, "")] + tail)
      else style == Block && BlockPairsSpelt(pairs, [Token(BLOCK_MAP_END, "")] + tail)
    case OnePair(pair) => top == FlowSeq && pair.key.Some? && PairSpelt(pair, CompactMap, tail)
    case Nothing => CanBeEmpty(top, headed, tail)
  }

  predicate BlockItemsSpelt(fs: seq<Form>, end: seq<Token>) {
    fs == [] || (Spelt(fs[0], BlockSeq, BlockItemTokens(fs[1..]) + end) && BlockItemsSpelt(fs[1..], end))
  }

  predicate FlowItemsSpelt(fs: seq<Form>, comma: bool, end: seq<Token>) {
    fs == [] ||
      var more := Separator(|fs| - 1, comma) + (FlowItemTokens(fs[1..], comma) + end);
      Spelt(fs[0], FlowSeq, more) && !StartsWith(Tokens(fs[0]) + more, FLOW_SEQ_END)
      && FlowItemsSpelt(fs[1..], comma, end)
  }

  /** Neither a key nor a value is taken for one that is not written. */
  predicate PairSpelt(p: Pair, top: Collection, tail: seq<Token>) {
    && (p.key.Some? ==> Spelt(p.key.value, top, Marked(VALUE, p.value) + tail))
    && (if p.value.Some? then Spelt(p.value.value, top, tail)
        else !StartsWith(tail, VALUE) && (p.key.None? ==> !StartsWith(tail, KEY)))
  }

  predicate BlockPairsSpelt(ps: seq<Pair>, end: seq<Token>) {
    ps == [] || (PairSpelt(ps[0], BlockMap, BlockPairTokens(ps[1..]) + end) && ps[0] != Pair(None, None)
                 && BlockPairsSpelt(ps[1..], end))
  }

  predicate FlowPairsSpelt(ps: seq<Pair>, comma: bool, end: seq<Token>) {
    ps == [] ||
      var more := Separator(|ps| - 1, comma) + (FlowPairTokens(ps[1..], comma) + end);
      PairSpelt(ps[0], FlowMap, more) && !StartsWith(PairTokens(ps[0]) + more, FLOW_MAP_END)
      && FlowPairsSpelt(ps[1..], comma, end)
  }

  // ---------- What they mean ----------

  /** The anchors seen so far, and how many. */
  datatype Env = Env(anchors: map<string, nat>, cur: nat)

  /** None: an alias without an anchor before it. */
  type Meant<T> = Option<(T, Env)>

  function Registered(env: Env, name: string): Env {
    if name == "" then env else Env(env.anchors[name := env.cur + 1], env.cur + 1)
  }

  function Tagged(tag: string, unwritten: string): string { if tag == "" then unwritten else tag }

  function Meaning(f: Form, env: Env): Meant<Tree> {
    match f
    case AliasTo(name) => if name in env.anchors then Some((Alias(env.anchors[name]), env)) else None
    case ValueOnly(v) =>
      (match Meaning(v, env)
       case None => None
       case Some((t, later)) => Some((Node(Map, "?", Default, "", 0, [NullNode(0), t]), later)))
    case Full(tag, name, _, content) =>
      ContentMeaning(content, tag, if name == "" then 0 else env.cur + 1, Registered(env, name))
  }

  function ContentMeaning(c: Content, tag: string, anchor: nat, env: Env): Meant<Tree> {
    match c
    case Plain(value) =>
      if IsNullString(value) then Some((NullNode(anchor), env))
      else Some((Node(Scalar, Tagged(tag, "?"), Default, value, anchor, []), env))
    case NonPlain(value) => Some((Node(Scalar, Tagged(tag, "!"), Default, value, anchor, []), env))
    case Items(style, items, _) =>
      (match AllMeaning(items, env)
       case None => None
       case Some((ts, later)) => Some((Node(Sequence, Tagged(tag, "?"), style, "", anchor, ts), later)))
    case Pairs(style, pairs, _) => PairNode(PairsMeaning(pairs, env), Tagged(tag, "?"), style, anchor)
    case OnePair(pair) => PairNode(PairMeaning(pair, env), Tagged(tag, "?"), Flow, anchor)
    case Nothing =>
      if Tagged(tag, "?") == "?" then Some((NullNode(anchor), env))
      else Some((Node(Scalar, tag, Default, "", anchor, []), env))
  }

  function PairNode(r: Meant<seq<Tree>>, tag: string, style: Style, anchor: nat): Meant<Tree> {
    match r
    case None => None
    case Some((ts, later)) => Some((Node(Map, tag, style, "", anchor, ts), later))
  }

  function AllMeaning(fs: seq<Form>, env: Env): Meant<seq<Tree>> {
    if fs == [] then Some(([], env)) else
      match Meaning(fs[0], env)
      case None => None
      case Some((t, later)) => Before([t], AllMeaning(fs[1..], later))
  }

  function Before(ts: seq<Tree>, r: Meant<seq<Tree>>): Meant<seq<Tree>> {
    match r
    case None => None
    case Some((more, later)) => Some((ts + more, later))
  }

  /** A node that is not written is null. */
  function PartMeaning(o: Option<Form>, env: Env): Meant<Tree> {
    if o.None? then Some((NullNode(0), env)) else Meaning(o.value, env)
  }

  function PairMeaning(p: Pair, env: Env): Meant<seq<Tree>> {
    match PartMeaning(p.key, env)
    case None => None
    case Some((k, later)) =>
      match PartMeaning(p.value, later)
      case None => None
      case Some((v, last)) => Some(([k, v], last))
  }

  function PairsMeaning(ps: seq<Pair>, env: Env): Meant<seq<Tree>> {
    if ps == [] then Some(([], env)) else
      match PairMeaning(ps[0], env)
      case None => None
      case Some((kv, later)) => Before(kv, PairsMeaning(ps[1..], later))
  }

  // ---------- The parser finds it ----------

  function EnvOf(s: Input): Env { Env(s.anchors, s.cur) }

  function InputAt(tail: seq<Token>, env: Env): Input { Input(tail, env.anchors, env.cur) }

  /** What the parser makes of something that means `r`. */
  function Found<T>(r: Meant<T>, tail: seq<Token>): Outcome<T> {
    match r
    case None => Err(UNKNOWN_ANCHOR)
    case Some((x, env)) => Ok(x, InputAt(tail, env))
  }

  lemma {:induction false} Joined(a: seq<Token>, b: seq<Token>, c: seq<Token>)
    ensures a + b + c == a + (b + c)
  {
  }

  lemma {:induction false} Behind(x: Token, a: seq<Token>, b: seq<Token>, c: seq<Token>)
    ensures ([x] + a + b + c)[0] == x && ([x] + a + b + c)[1..] == a + (b + c)
  {
  }

  lemma {:induction false} Regroup(a: seq<Token>, b: seq<Token>, c: seq<Token>, d: seq<Token>)
    ensures a + b + c + d == a + (b + (c + d))
  {
  }

  /** How the content of a node can start, whatever follows. */
  lemma {:induction false} ContentStart(c: Content, top: Collection, headed: bool, tail: seq<Token>)
    requires ContentSpelt(c, top, headed, tail)
    ensures var ts := ContentTokens(c) + tail;
            && !StartsWith(ts, TAG) && !StartsWith(ts, ANCHOR)
            && (StartsWith(ts, VALUE) || StartsWith(ts, ALIAS) ==> headed)
            && (ts == [] ==> c.Nothing? && tail == [] && !headed)
  {
    hide FlowItemTokens, BlockItemTokens, FlowPairTokens, BlockPairTokens, Tokens, Spelt, FlowItemsSpelt,
        BlockItemsSpelt, FlowPairsSpelt, BlockPairsSpelt, PairSpelt;
    match c
    case Items(Flow, items, comma) =>
      Behind(Token(FLOW_SEQ_START, ""), FlowItemTokens(items, comma), [Token(FLOW_SEQ_END, "")], tail);
    case Items(_, items, _) =>
      Behind(Token(BLOCK_SEQ_START, ""), BlockItemTokens(items), [Token(BLOCK_SEQ_END, "")], tail);
    case Pairs(Flow, pairs, comma) =>
      Behind(Token(FLOW_MAP_START, ""), FlowPairTokens(pairs, comma), [Token(FLOW_MAP_END, "")], tail);
    case Pairs(_, pairs, _) =>
      Behind(Token(BLOCK_MAP_START, ""), BlockPairTokens(pairs), [Token(BLOCK_MAP_END, "")], tail);
    case OnePair(pair) =>
      KeyFirst(pair, tail);
    case _ =>
  }

  lemma {:induction false} PropertiesBack(s: Input, tag: string, name: string, tagFirst: bool, rest: seq<Token>)
    requires s.tokens == PropertyTokens(tag, name, tagFirst) + rest
    requires !StartsWith(rest, TAG) && !StartsWith(rest, ANCHOR)
    ensures Properties(s, "", 0)
            == (if name == "" then Ok(Props(tag, 0), s.(tokens := rest))
                else Ok(Props(tag, s.cur + 1), Input(rest, s.anchors[name := s.cur + 1], s.cur + 1)))
  {
    var tags := if tag == "" then [] else [Token(TAG, tag)];
    if name == "" {
      assert s.tokens == tags + rest;
      TagBack(s, tag, 0, rest);
    } else if tagFirst && tag != "" {
      Joined(tags, [Token(ANCHOR, name)], rest);
      assert Pop(s).tokens == [Token(ANCHOR, name)] + rest;
      NameBack(Pop(s), tag, name, rest);
    } else if tag != "" {
      Joined([Token(ANCHOR, name)], tags, rest);
      var u := Input(tags + rest, s.anchors[name := s.cur + 1], s.cur + 1);
      assert Pop(s).tokens == u.tokens;
      assert Properties(s, "", 0) == Properties(u, "", u.cur);
      TagBack(u, tag, u.cur, rest);
    } else {
      assert s.tokens == [Token(ANCHOR, name)] + rest;
      NameBack(s, "", name, rest);
    }
  }

  lemma {:induction false} TagBack(s: Input, tag: string, anchor: nat, rest: seq<Token>)
    requires s.tokens == (if tag == "" then [] else [Token(TAG, tag)]) + rest
    requires !StartsWith(rest, TAG) && !StartsWith(rest, ANCHOR)
    ensures Properties(s, "", anchor) == Ok(Props(tag, anchor), s.(tokens := rest))
  {
    if tag != "" {
      assert s.tokens[0] == Token(TAG, tag) && Pop(s).tokens == rest;
      assert Properties(s, "", anchor) == Properties(Pop(s), tag, anchor);
    }
  }

  lemma {:induction false} NameBack(s: Input, tag: string, name: string, rest: seq<Token>)
    requires name != "" && s.tokens == [Token(ANCHOR, name)] + rest
    requires !StartsWith(rest, TAG) && !StartsWith(rest, ANCHOR)
    ensures Properties(s, tag, 0) == Ok(Props(tag, s.cur + 1), Input(rest, s.anchors[name := s.cur + 1], s.cur + 1))
  {
    var u := Input(rest, s.anchors[name := s.cur + 1], s.cur + 1);
    assert Pop(s).tokens == rest;
    assert Properties(s, tag, 0) == Properties(u, tag, u.cur);
  }

  /** However a node is written, the parser finds what it means, and goes on behind it. */
  lemma {:induction false} ParsesBack(s: Input, f: Form, top: Collection, tail: seq<Token>)
    requires s.tokens == Tokens(f) + tail && Spelt(f, top, tail)
    ensures ParseNode(s, top) == Found(Meaning(f, EnvOf(s)), tail)
    decreases f, 1
  {
    match f
    case AliasTo(name) =>
      assert s.tokens[1..] == tail;
    case ValueOnly(v) =>
      assert Pop(s).tokens == Tokens(v) + tail;
      hide Tokens, Spelt;
      ParsesBack(Pop(s), v, CompactMap, tail);
    case Full(_, _, _, _) =>
      FullBack(s, f, top, tail);
  }

  lemma {:induction false} FullBack(s: Input, f: Form, top: Collection, tail: seq<Token>)
    requires f.Full? && s.tokens == Tokens(f) + tail && Spelt(f, top, tail)
    ensures ParseNode(s, top) == Found(Meaning(f, EnvOf(s)), tail)
    decreases f, 0
  {
    var rest := ContentTokens(f.content) + tail;
    var headed := f.tag != "" || f.name != "";
    FullIs(f, top, tail, EnvOf(s));
    hide ContentTokens, PropertyTokens, ContentMeaning, ContentSpelt, ParseContent, ParseNode, Meaning, Tokens, Spelt;
    Joined(PropertyTokens(f.tag, f.name, f.tagFirst), ContentTokens(f.content), tail);
    ContentStart(f.content, top, headed, tail);
    HeadBack(s, f.tag, f.name, f.tagFirst, top, rest);
    if rest != [] {
      var anchor := if f.name == "" then 0 else s.cur + 1;
      ContentBack(InputAt(rest, Registered(EnvOf(s), f.name)), f.content, top, f.tag, anchor, headed, tail);
    } else {
      EmptyMeaning(EnvOf(s));
    }
  }

  lemma {:induction false} FullIs(f: Form, top: Collection, tail: seq<Token>, env: Env)
    requires f.Full?
    ensures Tokens(f) == PropertyTokens(f.tag, f.name, f.tagFirst) + ContentTokens(f.content)
    ensures Spelt(f, top, tail) == ContentSpelt(f.content, top, f.tag != "" || f.name != "", tail)
    ensures Meaning(f, env)
            == ContentMeaning(f.content, f.tag, if f.name == "" then 0 else env.cur + 1, Registered(env, f.name))
  {
    hide ContentTokens, PropertyTokens, ContentMeaning, ContentSpelt;
  }

  /** The properties are read, and the content follows. */
  lemma {:induction false} HeadBack(s: Input, tag: string, name: string, tagFirst: bool, top: Collection,
      rest: seq<Token>)
    requires s.tokens == PropertyTokens(tag, name, tagFirst) + rest
    requires !StartsWith(rest, TAG) && !StartsWith(rest, ANCHOR)
    requires StartsWith(rest, VALUE) || StartsWith(rest, ALIAS) ==> tag != "" || name != ""
    requires rest == [] ==> tag == "" && name == ""
    ensures ParseNode(s, top)
            == if rest == [] then Ok(NullNode(0), s)
               else ParseContent(InputAt(rest, Registered(EnvOf(s), name)), top, tag,
                                 if name == "" then 0 else s.cur + 1)
  {
    hide ParseNode, PropertyTokens, Properties, ParseContent;
    HeadedTokens(tag, name, tagFirst, rest);
    PropertiesBack(s, tag, name, tagFirst, rest);
    PropertiesFirst(s, top);
  }

  lemma {:induction false} PropertiesFirst(s: Input, top: Collection)
    requires !At(s, VALUE) && !At(s, ALIAS)
    ensures var r := Properties(s, "", 0);
            if s.tokens == [] then ParseNode(s, top) == Ok(NullNode(0), s)
            else r.Ok? && r.rest.tokens != []
                 ==> ParseNode(s, top) == ParseContent(r.rest, top, r.value.tag, r.value.anchor)
  {
    hide Properties, ParseContent;
  }

  lemma {:induction false} EmptyMeaning(env: Env)
    ensures ContentMeaning(Nothing, "", 0, env) == Some((NullNode(0), env))
  {
  }

  /** Properties come first, if there are any. */
  lemma {:induction false} HeadedTokens(tag: string, name: string, tagFirst: bool, rest: seq<Token>)
    ensures var ts := PropertyTokens(tag, name, tagFirst) + rest;
            if tag != "" || name != "" then StartsWith(ts, TAG) || StartsWith(ts, ANCHOR) else ts == rest
  {
  }

  lemma {:induction false} ContentBack(s: Input, c: Content, top: Collection, tag: string, anchor: nat, headed: bool,
      tail: seq<Token>)
    requires s.tokens == ContentTokens(c) + tail && s.tokens != [] && ContentSpelt(c, top, headed, tail)
    ensures ParseContent(s, top, tag, anchor) == Found(ContentMeaning(c, tag, anchor, EnvOf(s)), tail)
    decreases c, 1
  {
    if c.Items? {
      ItemsBack(s, c, top, tag, anchor, headed, tail);
    } else if c.Pairs? {
      PairsBack(s, c, top, tag, anchor, headed, tail);
    } else if c.OnePair? {
      hide AfterKey, PairTokens, PairSpelt, PairMeaning;
      PairBack(s, c.pair, CompactMap, tail);
      KeyFirst(c.pair, tail);
    } else {
      LeafBack(s, c, top, tag, anchor, headed, tail);
    }
  }

  lemma {:induction false} ItemsBack(s: Input, c: Content, top: Collection, tag: string, anchor: nat, headed: bool,
      tail: seq<Token>)
    requires s.tokens == ContentTokens(c) + tail && c.Items? && ContentSpelt(c, top, headed, tail)
    ensures s.tokens != []
            && ParseContent(s, top, tag, anchor) == Found(ContentMeaning(c, tag, anchor, EnvOf(s)), tail)
    decreases c, 0
  {
    hide FlowItems, BlockItems, FlowItemTokens, BlockItemTokens, FlowItemsSpelt, BlockItemsSpelt, AllMeaning;
    if c.style == Flow {
      Behind(Token(FLOW_SEQ_START, ""), FlowItemTokens(c.items, c.comma), [Token(FLOW_SEQ_END, "")], tail);
      FlowItemsBack(Pop(s), c.items, c.comma, tail);
    } else {
      Behind(Token(BLOCK_SEQ_START, ""), BlockItemTokens(c.items), [Token(BLOCK_SEQ_END, "")], tail);
      BlockItemsBack(Pop(s), c.items, tail);
    }
  }

  lemma {:induction false} PairsBack(s: Input, c: Content, top: Collection, tag: string, anchor: nat, headed: bool,
      tail: seq<Token>)
    requires s.tokens == ContentTokens(c) + tail && c.Pairs? && ContentSpelt(c, top, headed, tail)
    ensures s.tokens != []
            && ParseContent(s, top, tag, anchor) == Found(ContentMeaning(c, tag, anchor, EnvOf(s)), tail)
    decreases c, 0
  {
    hide FlowPairs, BlockPairs, FlowPairTokens, BlockPairTokens, FlowPairsSpelt, BlockPairsSpelt, PairsMeaning;
    if c.style == Flow {
      Behind(Token(FLOW_MAP_START, ""), FlowPairTokens(c.pairs, c.comma), [Token(FLOW_MAP_END, "")], tail);
      FlowPairsBack(Pop(s), c.pairs, c.comma, tail);
    } else {
      Behind(Token(BLOCK_MAP_START, ""), BlockPairTokens(c.pairs), [Token(BLOCK_MAP_END, "")], tail);
      BlockPairsBack(Pop(s), c.pairs, tail);
    }
  }

  lemma {:induction false} LeafBack(s: Input, c: Content, top: Collection, tag: string, anchor: nat, headed: bool,
      tail: seq<Token>)
    requires s.tokens == ContentTokens(c) + tail && s.tokens != [] && ContentSpelt(c, top, headed, tail)
    requires c.Plain? || c.NonPlain? || c.Nothing?
    ensures ParseContent(s, top, tag, anchor) == Found(ContentMeaning(c, tag, anchor, EnvOf(s)), tail)
  {
    hide FlowItems, BlockItems, FlowPairs, BlockPairs, AfterKey;
    if c.Nothing? {
      assert s.tokens == tail;
    } else {
      assert s.tokens[1..] == tail;
    }
  }

  lemma {:induction false} KeyFirst(p: Pair, tail: seq<Token>)
    requires p.key.Some?
    ensures StartsWith(PairTokens(p) + tail, KEY)
  {
    hide Tokens;
    assert Marked(KEY, p.key)[0] == Token(KEY, "");
  }

  /** An item of which nothing is written is no special case. */
  lemma {:induction false} BlockItemsStep(s: Input)
    requires At(s, BLOCK_ENTRY)
    ensures var r := ParseNode(Pop(s), BlockSeq);
            BlockItems(s)
            == if r.Ok? then Cons([r.value], BlockItems(r.rest)) else if r.Err? then Err(r.error) else Crash
  {
    var u := Pop(s);
    if At(u, BLOCK_ENTRY) || At(u, BLOCK_SEQ_END) {
      assert ParseNode(u, BlockSeq) == Ok(NullNode(0), u) by { NothingThere(u, BlockSeq); }
      hide ParseNode;
    }
  }

  lemma {:induction false} BlockItemsEnd(s: Input)
    requires At(s, BLOCK_SEQ_END)
    ensures BlockItems(s) == Ok([], Pop(s))
  {
  }

  lemma {:induction false} NothingThere(s: Input, top: Collection)
    requires At(s, BLOCK_ENTRY) || At(s, BLOCK_SEQ_END)
    ensures ParseNode(s, top) == Ok(NullNode(0), s)
  {
  }

  lemma {:induction false} BlockItemsBack(s: Input, fs: seq<Form>, tail: seq<Token>)
    requires s.tokens == BlockItemTokens(fs) + ([Token(BLOCK_SEQ_END, "")] + tail)
             && BlockItemsSpelt(fs, [Token(BLOCK_SEQ_END, "")] + tail)
    ensures BlockItems(s) == Found(AllMeaning(fs, EnvOf(s)), tail)
    decreases fs, 2
  {
    hide Tokens, Spelt, ParseNode, Meaning, BlockItems;
    if fs == [] {
      BlockItemsEnd(s);
      assert s.tokens[1..] == tail;
    } else {
      var end := [Token(BLOCK_SEQ_END, "")] + tail;
      var more := BlockItemTokens(fs[1..]) + end;
      Behind(Token(BLOCK_ENTRY, ""), Tokens(fs[0]), BlockItemTokens(fs[1..]), end);
      ParsesBack(Pop(s), fs[0], BlockSeq, more);
      BlockItemsStep(s);
      var r := Meaning(fs[0], EnvOf(s));
      if r.Some? { BlockItemsBack(InputAt(more, r.value.1), fs[1..], tail); }
    }
  }

  lemma {:induction false} FlowItemsBack(s: Input, fs: seq<Form>, comma: bool, tail: seq<Token>)
    requires s.tokens == FlowItemTokens(fs, comma) + ([Token(FLOW_SEQ_END, "")] + tail)
             && FlowItemsSpelt(fs, comma, [Token(FLOW_SEQ_END, "")] + tail)
    ensures FlowItems(s) == Found(AllMeaning(fs, EnvOf(s)), tail)
    decreases fs, 2
  {
    hide Tokens, Spelt, ParseNode, Meaning;
    if fs == [] {
      assert s.tokens[1..] == tail;
    } else {
      var end := [Token(FLOW_SEQ_END, "")] + tail;
      var rest := FlowItemTokens(fs[1..], comma) + end;
      var more := Separator(|fs| - 1, comma) + rest;
      Regroup(Tokens(fs[0]), Separator(|fs| - 1, comma), FlowItemTokens(fs[1..], comma), end);
      ParsesBack(s, fs[0], FlowSeq, more);
      var r := Meaning(fs[0], EnvOf(s));
      if r.Some? {
        SeparatorBack(|fs| - 1, comma, rest);
        if |fs| > 1 || comma {
          FlowItemsBack(InputAt(rest, r.value.1), fs[1..], comma, tail);
        } else {
          assert fs[1..] == [] && more == end && end[1..] == tail;
          assert [r.value.0] + [] == [r.value.0];
        }
      }
    }
  }

  lemma {:induction false} SeparatorBack(n: nat, comma: bool, rest: seq<Token>)
    ensures var more := Separator(n, comma) + rest;
            if n > 0 || comma then StartsWith(more, FLOW_ENTRY) && more[1..] == rest else more == rest
  {
  }

  lemma {:induction false} PairBack(s: Input, p: Pair, top: Collection, tail: seq<Token>)
    requires s.tokens == PairTokens(p) + tail && PairSpelt(p, top, tail)
    ensures KeyAndValue(s, top) == Found(PairMeaning(p, EnvOf(s)), tail)
    decreases p, 2
  {
    hide Tokens, Spelt, ParseNode, Meaning;
    var rest := Marked(VALUE, p.value) + tail;
    Joined(Marked(KEY, p.key), Marked(VALUE, p.value), tail);
    if p.key.Some? {
      Joined([Token(KEY, "")], Tokens(p.key.value), rest);
      assert s.tokens[0] == Token(KEY, "") && Pop(s).tokens == Tokens(p.key.value) + rest;
      ParsesBack(Pop(s), p.key.value, top, rest);
      var r := Meaning(p.key.value, EnvOf(s));
      if r.Some? { ValueBack(InputAt(rest, r.value.1), p, top, tail); }
    } else {
      assert s.tokens == rest;
      ValueBack(s, p, top, tail);
    }
  }

  lemma {:induction false} ValueBack(s: Input, p: Pair, top: Collection, tail: seq<Token>)
    requires s.tokens == Marked(VALUE, p.value) + tail && PairSpelt(p, top, tail)
    ensures ParseValue(s, top) == Found(PartMeaning(p.value, EnvOf(s)), tail)
    ensures p.key.None? ==> !At(s, KEY)
    decreases p, 1
  {
    hide Tokens, Spelt, ParseNode, Meaning;
    if p.value.Some? {
      Joined([Token(VALUE, "")], Tokens(p.value.value), tail);
      assert s.tokens[0] == Token(VALUE, "") && Pop(s).tokens == Tokens(p.value.value) + tail;
      ParsesBack(Pop(s), p.value.value, top, tail);
    } else {
      assert s.tokens == tail;
    }
  }

  lemma {:induction false} BlockPairsBack(s: Input, ps: seq<Pair>, tail: seq<Token>)
    requires s.tokens == BlockPairTokens(ps) + ([Token(BLOCK_MAP_END, "")] + tail)
             && BlockPairsSpelt(ps, [Token(BLOCK_MAP_END, "")] + tail)
    ensures BlockPairs(s) == Found(PairsMeaning(ps, EnvOf(s)), tail)
    decreases ps, 3
  {
    hide KeyAndValue, PairMeaning, PairSpelt, Tokens;
    if ps == [] {
      assert s.tokens[1..] == tail;
    } else {
      var end := [Token(BLOCK_MAP_END, "")] + tail;
      var more := BlockPairTokens(ps[1..]) + end;
      Joined(PairTokens(ps[0]), BlockPairTokens(ps[1..]), end);
      PairStart(ps[0], more);
      PairBack(s, ps[0], BlockMap, more);
      var r := PairMeaning(ps[0], EnvOf(s));
      if r.Some? { BlockPairsBack(InputAt(more, r.value.1), ps[1..], tail); }
    }
  }

  lemma {:induction false} PairStart(p: Pair, more: seq<Token>)
    requires p != Pair(None, None)
    ensures StartsWith(PairTokens(p) + more, KEY) || StartsWith(PairTokens(p) + more, VALUE)
  {
  }

  lemma {:induction false} FlowPairsBack(s: Input, ps: seq<Pair>, comma: bool, tail: seq<Token>)
    requires s.tokens == FlowPairTokens(ps, comma) + ([Token(FLOW_MAP_END, "")] + tail)
             && FlowPairsSpelt(ps, comma, [Token(FLOW_MAP_END, "")] + tail)
    ensures FlowPairs(s) == Found(PairsMeaning(ps, EnvOf(s)), tail)
    decreases ps, 3
  {
    hide KeyAndValue, PairMeaning, PairSpelt, PairTokens;
    if ps == [] {
      assert s.tokens[1..] == tail;
    } else {
      var end := [Token(FLOW_MAP_END, "")] + tail;
      var rest := FlowPairTokens(ps[1..], comma) + end;
      var more := Separator(|ps| - 1, comma) + rest;
      Regroup(PairTokens(ps[0]), Separator(|ps| - 1, comma), FlowPairTokens(ps[1..], comma), end);
      PairBack(s, ps[0], FlowMap, more);
      var r := PairMeaning(ps[0], EnvOf(s));
      if r.Some? {
        SeparatorBack(|ps| - 1, comma, rest);
        if |ps| > 1 || comma {
          FlowPairsBack(InputAt(rest, r.value.1), ps[1..], comma, tail);
        } else {
          assert ps[1..] == [] && more == end && end[1..] == tail;
          assert r.value.0 + [] == r.value.0;
        }
      }
    }
  }
}
