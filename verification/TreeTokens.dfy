/** Every tree can be written as tokens, so that the parser gets it back. */
module TreeTokens {
  import opened NodeTree
  import opened DocParsing
  import opened TokenGrammar
  import opened Wrappers

  /** Tags are not empty, and every collection has a style. */
  predicate Printable(t: Tree) {
    t.Node? ==>
      && (t.kind.Null? || t.tag != "")
      && (t.kind.Sequence? || t.kind.Map? ==> t.style != Default)
      && PrintableAll(t.kids)
  }

  predicate PrintableAll(ts: seq<Tree>) { ts == [] || (Printable(ts[0]) && PrintableAll(ts[1..])) }

  /** A name for every anchor. */
  function Name(a: nat): (r: string)
    ensures |r| == a
  {
    if a == 0 then "" else Name(a - 1) + "a"
  }

  /** A scalar that needs neither a tag nor quotes. */
  predicate IsPlain(t: Tree) { t.Node? && t.kind.Scalar? && t.tag == "?" && !IsNullString(t.value) }

  /** The tag of a node, where it is not what is meant without one. */
  function WrittenTag(t: Tree): string
    requires t.Node?
  {
    if t.kind.Null? || IsPlain(t) || (t.tag == if t.kind.Scalar? then "!" else "?") then "" else t.tag
  }

  function Written(t: Tree): Form
    decreases t, 1
  {
    if t.Alias? then AliasTo(Name(t.a)) else Full(WrittenTag(t), Name(t.anchor), false, WrittenContent(t))
  }

  function WrittenContent(t: Tree): Content
    requires t.Node?
    decreases t, 0
  {
    match t.kind
    case Null => Plain("~")
    case Scalar => if IsPlain(t) then Plain(t.value) else NonPlain(t.value)
    case Sequence => Items(t.style, WrittenAll(t.kids), true)
    case Map => Pairs(t.style, WrittenPairs(t.kids), true)
  }

  function WrittenAll(ts: seq<Tree>): seq<Form> {
    if ts == [] then [] else [Written(ts[0])] + WrittenAll(ts[1..])
  }

  function WrittenPairs(ts: seq<Tree>): seq<Pair> {
    if |ts| < 2 then [] else [Pair(Some(Written(ts[0])), Some(Written(ts[1])))] + WrittenPairs(ts[2..])
  }

  /** The names of the anchors so far are known. */
  ghost predicate Named(env: Env) {
    forall a: nat {:trigger Name(a)} :: 1 <= a <= env.cur ==> Name(a) in env.anchors && env.anchors[Name(a)] == a
  }

  lemma {:induction false} NameNext(env: Env)
    requires Named(env)
    ensures Named(Registered(env, Name(env.cur + 1)))
  {
    assert |Name(env.cur + 1)| == env.cur + 1;
    forall a: nat | 1 <= a <= env.cur ensures Name(a) != Name(env.cur + 1) { assert |Name(a)| == a; }
  }

  /** `r` is `x`, and the anchors in it are the next ones, up to `last`. */
  ghost predicate Means<T>(r: Meant<T>, x: T, last: int) {
    r.Some? && r.value.0 == x && r.value.1.cur == last && Named(r.value.1)
  }

  lemma {:induction false} WrittenMeans(t: Tree, env: Env)
    requires Shaped(t) && Printable(t) && Named(env) && Numbered(t, env.cur) != -1
    ensures Means(Meaning(Written(t), env), t, Numbered(t, env.cur))
    decreases t, 1
  {
    if t.Alias? {
      assert Name(t.a) in env.anchors;
    } else {
      var later := Registered(env, Name(t.anchor));
      if t.anchor != 0 { NameNext(env); }
      assert |Name(t.anchor)| == t.anchor;
      hide Named;
      ContentMeans(t, later);
    }
  }

  lemma {:induction false} ContentMeans(t: Tree, env: Env)
    requires t.Node? && Shaped(t) && Printable(t) && Named(env) && NumberedAll(t.kids, env.cur) != -1
    ensures Means(ContentMeaning(WrittenContent(t), WrittenTag(t), t.anchor, env), t, NumberedAll(t.kids, env.cur))
    decreases t, 0
  {
    hide Named, WrittenAll, WrittenPairs, AllMeaning, PairsMeaning;
    if t.kind.Sequence? {
      AllMean(t.kids, env);
    } else if t.kind.Map? {
      PairsMean(t.kids, env);
    }
  }

  lemma {:induction false} AllMean(ts: seq<Tree>, env: Env)
    requires ShapedAll(ts) && PrintableAll(ts) && Named(env) && NumberedAll(ts, env.cur) != -1
    ensures Means(AllMeaning(WrittenAll(ts), env), ts, NumberedAll(ts, env.cur))
    decreases ts, 0
  {
    hide Named, Written, Meaning;
    if ts != [] {
      WrittenMeans(ts[0], env);
      AllMean(ts[1..], Meaning(Written(ts[0]), env).value.1);
      assert WrittenAll(ts)[1..] == WrittenAll(ts[1..]) && [ts[0]] + ts[1..] == ts;
    }
  }

  lemma {:induction false} PairsMean(ts: seq<Tree>, env: Env)
    requires |ts| % 2 == 0 && ShapedAll(ts) && PrintableAll(ts) && Named(env) && NumberedAll(ts, env.cur) != -1
    ensures Means(PairsMeaning(WrittenPairs(ts), env), ts, NumberedAll(ts, env.cur))
    decreases ts, 1
  {
    hide Named, Written, PairMeaning;
    if ts != [] {
      var later := PairMeans(ts, env);
      PairsMean(ts[2..], later);
      assert WrittenPairs(ts)[1..] == WrittenPairs(ts[2..]) && ts[..2] + ts[2..] == ts;
    }
  }

  lemma {:induction false} PairMeans(ts: seq<Tree>, env: Env) returns (later: Env)
    requires |ts| >= 2 && ShapedAll(ts) && PrintableAll(ts) && Named(env) && NumberedAll(ts, env.cur) != -1
    ensures PairMeaning(Pair(Some(Written(ts[0])), Some(Written(ts[1]))), env) == Some((ts[..2], later)) && Named(later)
    ensures ShapedAll(ts[2..]) && PrintableAll(ts[2..]) && NumberedAll(ts, env.cur) == NumberedAll(ts[2..], later.cur)
    decreases ts, 0
  {
    hide Named, Written, Meaning;
    assert ts[1..][0] == ts[1] && ts[1..][1..] == ts[2..] && ts[..2] == [ts[0], ts[1]];
    WrittenMeans(ts[0], env);
    later := Meaning(Written(ts[0]), env).value.1;
    WrittenMeans(ts[1], later);
    later := Meaning(Written(ts[1]), later).value.1;
  }

  /** It can stand anywhere. */
  lemma {:induction false} WrittenSpelt(t: Tree, top: Collection, tail: seq<Token>)
    requires Shaped(t) && Printable(t)
    ensures Spelt(Written(t), top, tail)
    decreases t, 1
  {
    if t.Node? {
      hide WrittenAll, WrittenPairs, FlowItemsSpelt, BlockItemsSpelt, FlowPairsSpelt, BlockPairsSpelt;
      if t.kind.Sequence? {
        AllSpelt(t.kids, [Token(if t.style == Flow then FLOW_SEQ_END else BLOCK_SEQ_END, "")] + tail);
      } else if t.kind.Map? {
        PairsSpelt(t.kids, [Token(if t.style == Flow then FLOW_MAP_END else BLOCK_MAP_END, "")] + tail);
      }
    }
  }

  /** How a tree starts. */
  lemma {:induction false} WrittenStart(t: Tree, tail: seq<Token>)
    ensures !StartsWith(Tokens(Written(t)) + tail, FLOW_SEQ_END)
  {
    if t.Node? {
      Joined(PropertyTokens(WrittenTag(t), Name(t.anchor), false), ContentTokens(WrittenContent(t)), tail);
      HeadedTokens(WrittenTag(t), Name(t.anchor), false, ContentTokens(WrittenContent(t)) + tail);
      hide Tokens, PropertyTokens, FlowItemTokens, BlockItemTokens, FlowPairTokens, BlockPairTokens;
    }
  }

  lemma {:induction false} AllSpelt(ts: seq<Tree>, end: seq<Token>)
    requires ShapedAll(ts) && PrintableAll(ts)
    ensures FlowItemsSpelt(WrittenAll(ts), true, end) && BlockItemsSpelt(WrittenAll(ts), end)
    decreases ts, 0
  {
    hide Written, Tokens, Spelt;
    if ts != [] {
      var fs := WrittenAll(ts);
      assert fs[1..] == WrittenAll(ts[1..]);
      AllSpelt(ts[1..], end);
      var more := Separator(|fs| - 1, true) + (FlowItemTokens(fs[1..], true) + end);
      WrittenStart(ts[0], more);
      WrittenSpelt(ts[0], FlowSeq, more);
      WrittenSpelt(ts[0], BlockSeq, BlockItemTokens(fs[1..]) + end);
    }
  }

  lemma {:induction false} PairsSpelt(ts: seq<Tree>, end: seq<Token>)
    requires ShapedAll(ts) && PrintableAll(ts)
    ensures FlowPairsSpelt(WrittenPairs(ts), true, end) && BlockPairsSpelt(WrittenPairs(ts), end)
    decreases ts, 1
  {
    hide Written, Tokens, Spelt, PairTokens;
    if |ts| >= 2 {
      var ps := WrittenPairs(ts);
      assert ps[1..] == WrittenPairs(ts[2..]);
      assert ts[1..][0] == ts[1] && ts[1..][1..] == ts[2..];
      PairsSpelt(ts[2..], end);
      var more := Separator(|ps| - 1, true) + (FlowPairTokens(ps[1..], true) + end);
      KeyFirst(ps[0], more);
      PairSpeltOf(ts, FlowMap, more);
      PairSpeltOf(ts, BlockMap, BlockPairTokens(ps[1..]) + end);
    }
  }

  lemma {:induction false} PairSpeltOf(ts: seq<Tree>, top: Collection, tail: seq<Token>)
    requires |ts| >= 2 && ShapedAll(ts) && PrintableAll(ts)
    ensures PairSpelt(Pair(Some(Written(ts[0])), Some(Written(ts[1]))), top, tail)
    decreases ts, 0
  {
    hide Written, Spelt;
    assert ts[1..][0] == ts[1];
    WrittenSpelt(ts[0], top, Marked(VALUE, Some(Written(ts[1]))) + tail);
    WrittenSpelt(ts[1], top, tail);
  }

  /** Every tree with its anchors in order has tokens from which the parser gets it back. */
  lemma {:induction false} TreeComesBack(s: Input, t: Tree, top: Collection, tail: seq<Token>)
    requires Shaped(t) && Printable(t) && Named(EnvOf(s)) && Numbered(t, s.cur) != -1
    requires s.tokens == Tokens(Written(t)) + tail
    ensures var r := ParseNode(s, top);
            r.Ok? && r.value == t && r.rest.tokens == tail && r.rest.cur == Numbered(t, s.cur)
  {
    hide ParseNode, Tokens, Written, Meaning, Spelt;
    WrittenSpelt(t, top, tail);
    WrittenMeans(t, EnvOf(s));
    ParsesBack(s, Written(t), top, tail);
  }
}
