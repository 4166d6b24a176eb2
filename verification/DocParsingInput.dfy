/** Where the parser looks for a token that is not there: behind tags and anchors
    that end the input, if a node is asked for where they begin. A stack of
    tasks tells from one pass over the tokens whether it is. */
module DocParsingInput {
  import opened NodeTree
  import opened DocParsing

  predicate IsProperty(k: Type) { k == TAG || k == ANCHOR }

  /** The tags and anchors that end the input. */
  function TrailingRun(tokens: seq<Token>): seq<Token> {
    if tokens == [] || !IsProperty(tokens[|tokens| - 1].kind) then []
    else TrailingRun(tokens[..|tokens| - 1]) + [tokens[|tokens| - 1]]
  }

  /** Only the last tag has a value, and only the last anchor has a name. */
  predicate Single(run: seq<Token>) {
    forall i, j :: 0 <= i < j < |run| && run[i].kind == run[j].kind ==> run[i].value == ""
  }

  // ---------- One pass over the tokens ----------

  /** What is to be read next. `Item` is what follows a block entry, `AfterItem`
      and `AfterPair` what follows a child of a flow collection. */
  datatype Task =
    | Content(top: Collection) | Item | BlockSeqItems | FlowSeqItems | AfterItem
    | ValueOf(top: Collection) | BlockMapPairs | FlowMapPairs | AfterPair

  datatype Stack = Empty | Todo(task: Task, next: Stack)

  /** The tokens to come and the tasks ahead; Stuck where the parser fails. */
  datatype Config = Config(s: Input, k: Stack) | Stuck

  function Weight(k: Stack): nat {
    if k.Empty? then 0 else (if k.task == Item || k.task == FlowSeqItems then 3 else if k.task == FlowMapPairs then 2 else 1) + Weight(k.next)
  }

  /** One task: a token or a node's properties are read, or tasks replaced. */
  function Move(s: Input, task: Task, k: Stack): (c: Config)
    ensures c.Config? ==> |c.s.tokens| < |s.tokens| || (c.s == s && Weight(c.k) < Weight(Todo(task, k)))
  {
    match task
    case Content(top) => MoveNode(s, top, k)
    case Item => Config(s, if At(s, BLOCK_ENTRY)
        || At(s, BLOCK_SEQ_END) then Todo(BlockSeqItems, k) else Todo(Content(BlockSeq), Todo(BlockSeqItems, k)))
    case BlockSeqItems => if At(s, BLOCK_SEQ_END) then Config(Pop(s), k)
        else if At(s, BLOCK_ENTRY) then Config(Pop(s), Todo(Item, k)) else Stuck
    case FlowSeqItems =>
      if s.tokens == [] then Stuck else if Head(s) == FLOW_SEQ_END then Config(Pop(s), k)
      else Config(s, Todo(Content(FlowSeq), Todo(AfterItem, k)))
    case AfterItem => if At(s, FLOW_ENTRY) then Config(Pop(s), Todo(FlowSeqItems, k))
        else if At(s, FLOW_SEQ_END) then Config(Pop(s), k) else Stuck
    case ValueOf(top) => if At(s, VALUE) then Config(Pop(s), Todo(Content(top), k)) else Config(s, k)
    case BlockMapPairs =>
      if At(s, BLOCK_MAP_END) then Config(Pop(s), k)
      else if At(s, KEY) then Config(Pop(s), Todo(Content(BlockMap), Todo(ValueOf(BlockMap), Todo(BlockMapPairs, k))))
      else if At(s, VALUE) then Config(Pop(s), Todo(Content(BlockMap), Todo(BlockMapPairs, k)))
      else Stuck
    case FlowMapPairs =>
      if s.tokens == [] then Stuck
      else if Head(s) == FLOW_MAP_END then Config(Pop(s), k)
      else if Head(s) == KEY then Config(Pop(s), Todo(Content(FlowMap), Todo(ValueOf(FlowMap), Todo(AfterPair, k))))
      else if Head(s) == VALUE then Config(Pop(s), Todo(Content(FlowMap), Todo(AfterPair, k)))
      else Config(s, Todo(AfterPair, k))
    case AfterPair => if At(s, FLOW_ENTRY) then Config(Pop(s), Todo(FlowMapPairs, k))
        else if At(s, FLOW_MAP_END) then Config(Pop(s), k) else Stuck
  }

  /** A node that is asked for. */
  function MoveNode(s: Input, top: Collection, k: Stack): (c: Config)
    ensures c.Config? ==> |c.s.tokens| < |s.tokens| || (c.s == s && c.k == k)
  {
    if s.tokens == [] then Config(s, k)
    else if Head(s) == VALUE then Config(Pop(s), Todo(Content(CompactMap), k))
    else if Head(s) == ALIAS then if s.tokens[0].value in s.anchors then Config(Pop(s), k) else Stuck
    else if !IsProperty(Head(s)) then MoveContent(s, top, k)
    else
      var p := Properties(s, "", 0);
      if !p.Ok? || p.rest.tokens == [] || |p.rest.tokens| == |s.tokens| then Stuck else MoveContent(p.rest, top, k)
  }

  /** A node behind its properties: it may take no token at all. */
  function MoveContent(s: Input, top: Collection, k: Stack): (c: Config)
    requires s.tokens != []
    ensures c.Config? && (c == Config(s, k) || |c.s.tokens| < |s.tokens|)
  {
    var kind, u := Head(s), Pop(s);
    if kind == PLAIN_SCALAR || kind == NON_PLAIN_SCALAR then Config(u, k)
    else if kind == FLOW_SEQ_START then Config(u, Todo(FlowSeqItems, k))
    else if kind == BLOCK_SEQ_START then Config(u, Todo(BlockSeqItems, k))
    else if kind == FLOW_MAP_START then Config(u, Todo(FlowMapPairs, k))
    else if kind == BLOCK_MAP_START then Config(u, Todo(BlockMapPairs, k))
    else if kind == KEY && top == FlowSeq then Config(u, Todo(Content(CompactMap), Todo(ValueOf(CompactMap), k)))
    else Config(s, k)
  }

  /** Whether a node is asked for when exactly `n > 0` tokens are left. */
  predicate Asks(s: Input, k: Stack, n: nat)
    decreases |s.tokens|, Weight(k)
  {
    && n > 0 && k.Todo?
    && ((k.task.Content? && |s.tokens| == n)
        || (Move(s, k.task, k.next).Config? && Asks(Move(s, k.task, k.next).s, Move(s, k.task, k.next).k, n)))
  }

  // ---------- Properties ----------

  /** `run` is the tags and anchors that end the input. */
  predicate Ahead(s: Input, run: seq<Token>) {
    && |run| <= |s.tokens| && s.tokens[|s.tokens| - |run|..] == run
    && (forall i :: 0 <= i < |run| ==> IsProperty(run[i].kind))
    && (|run| < |s.tokens| ==> !IsProperty(s.tokens[|s.tokens| - |run| - 1].kind))
  }

  lemma {:induction false} RunAhead(s: Input)
    ensures Ahead(s, TrailingRun(s.tokens))
    decreases |s.tokens|
  {
    var n := |s.tokens|;
    if n > 0 && IsProperty(s.tokens[n - 1].kind) {
      RunAhead(s.(tokens := s.tokens[..n - 1]));
    }
  }

  lemma {:induction false} PopAhead(s: Input, run: seq<Token>)
    requires Ahead(s, run) && |s.tokens| > |run|
    ensures Ahead(Pop(s), run)
  {
    assert s.tokens[1..][|s.tokens| - 1 - |run|..] == s.tokens[|s.tokens| - |run|..];
  }

  lemma {:induction false} OutsideRun(s: Input, run: seq<Token>)
    requires Ahead(s, run) && s.tokens != [] && !IsProperty(Head(s))
    ensures |s.tokens| > |run|
  {
    assert s.tokens[0..] == s.tokens;
  }

  /** Properties that are followed by anything end before the run. */
  lemma {:induction false} PropertiesAhead(s: Input, tag: string, anchor: nat, run: seq<Token>)
    requires Ahead(s, run) && |s.tokens| > |run|
    ensures var p := Properties(s, tag, anchor);
            && !p.Crash? && (p.Ok? ==> Ahead(p.rest, run) && |p.rest.tokens| > |run| && !IsProperty(Head(p.rest)))
            && (p.Ok? && IsProperty(Head(s)) ==> |p.rest.tokens| < |s.tokens|)
    decreases |s.tokens|
  {
    if IsProperty(Head(s)) {
      assert |s.tokens| > |run| + 1;
      PopAhead(s, run);
      if Head(s) == TAG && tag == "" {
        PropertiesAhead(Pop(s), s.tokens[0].value, anchor, run);
      } else if Head(s) == ANCHOR && anchor == 0 {
        var name := s.tokens[0].value;
        var u := Pop(s).(anchors := s.anchors[name := s.cur + 1], cur := s.cur + 1);
        assert Ahead(u, run);
        hide Ahead;
        PropertiesAhead(Pop(s), tag, 0, run);
        PropertiesAhead(u, tag, s.cur + 1, run);
      }
    }
  }

  predicate Fresh(run: seq<Token>, kind: Type) { forall i :: 0 <= i < |run| ==> run[i].kind != kind }

  /** No tag is followed by another, and no anchor, given those read before. */
  predicate Accepted(run: seq<Token>, tagged: bool, anchored: bool) {
    Single(run) && (tagged ==> Fresh(run, TAG)) && (anchored ==> Fresh(run, ANCHOR))
  }

  lemma {:induction false} AcceptedFirst(run: seq<Token>, tagged: bool, anchored: bool)
    requires run != [] && IsProperty(run[0].kind)
    ensures Accepted(run, tagged, anchored) <==>
            if run[0].kind == TAG then !tagged && Accepted(run[1..], run[0].value != "", anchored)
            else !anchored && Accepted(run[1..], tagged, run[0].value != "")
  {
    SingleFirst(run);
    assert Fresh(run, TAG) <==> run[0].kind != TAG && Fresh(run[1..], TAG);
    assert Fresh(run, ANCHOR) <==> run[0].kind != ANCHOR && Fresh(run[1..], ANCHOR);
    hide Single, Fresh;
  }

  lemma {:induction false} PropertiesOfRun(s: Input, tag: string, anchor: nat)
    requires forall i :: 0 <= i < |s.tokens| ==> IsProperty(s.tokens[i].kind)
    ensures var p := Properties(s, tag, anchor);
            (p.Ok? <==> Accepted(s.tokens, tag != "", anchor != 0)) && (p.Ok? ==> p.rest.tokens == []) && !p.Crash?
    decreases |s.tokens|
  {
    if s.tokens != [] {
      var t := s.tokens[0];
      AcceptedFirst(s.tokens, tag != "", anchor != 0);
      hide Accepted;
      if t.kind == TAG {
        PropertiesOfRun(Pop(s), t.value, anchor);
      } else if t.value == "" {
        PropertiesOfRun(Pop(s), tag, 0);
      } else {
        PropertiesOfRun(Pop(s).(anchors := s.anchors[t.value := s.cur + 1], cur := s.cur + 1), tag, s.cur + 1);
      }
    }
  }

  lemma {:induction false} SingleFirst(run: seq<Token>)
    requires run != []
    ensures Single(run) <==> Single(run[1..]) && (run[0].value == "" || Fresh(run[1..], run[0].kind))
  {
    var rest := run[1..];
    assert forall i :: 0 < i < |run| ==> run[i] == rest[i - 1];
    if Single(run) {
      forall i, j | 0 <= i < j < |rest| && rest[i].kind == rest[j].kind ensures rest[i].value == "" {
        assert run[i + 1].kind == run[j + 1].kind;
      }
      if run[0].value != "" {
        forall i | 0 <= i < |rest| ensures rest[i].kind != run[0].kind { assert run[i + 1] == rest[i]; }
      }
    }
  }

  // ---------- The parser and the pass agree ----------

  /** Whether a step of the parser crashes, fails or goes on is told by what the pass asks for. */
  predicate Agrees<T>(o: Outcome<T>, asks: bool, k: Stack, run: seq<Token>) {
    && (o.Crash? ==> asks && Single(run))
    && (o.Err? ==> !(asks && Single(run)))
    && (o.Ok? ==> Ahead(o.rest, run) && (asks <==> Asks(o.rest, k, |run|)))
  }

  lemma {:induction false} NodeAsks(s: Input, top: Collection, k: Stack, run: seq<Token>)
    requires Ahead(s, run)
    ensures Agrees(ParseNode(s, top), Asks(s, Todo(Content(top), k), |run|), k, run)
    decreases |s.tokens|, 1
  {
    if s.tokens == [] {
    } else if |s.tokens| == |run| {
      assert s.tokens[0..] == s.tokens == run && IsProperty(run[0].kind);
      PropertiesOfRun(s, "", 0);
    } else {
      InnerNodeAsks(s, top, k, run);
    }
  }

  lemma {:induction false} InnerNodeAsks(s: Input, top: Collection, k: Stack, run: seq<Token>)
    requires Ahead(s, run) && |s.tokens| > |run|
    ensures Agrees(ParseNode(s, top), Asks(s, Todo(Content(top), k), |run|), k, run)
    decreases |s.tokens|, 0, 1
  {
    hide Single, Ahead, Asks, Agrees, ParseNode, ParseContent, MoveContent, MoveNode, Properties;
    PopAhead(s, run);
    NodeMove(s, top, k, |run|);
    if Head(s) == VALUE {
      NodeAsks(Pop(s), CompactMap, k, run);
      ValueNodeAgrees(s, top, Asks(Pop(s), Todo(Content(CompactMap), k), |run|), k, run);
    } else if Head(s) == ALIAS {
      AliasAgrees(s, top, k, run);
    } else {
      PropertiesAhead(s, "", 0, run);
      PropertiesMove(s, top, k);
      var p := Properties(s, "", 0);
      if p.Ok? { ContentAsks(p.rest, top, p.value.tag, p.value.anchor, k, run); }
      BehindAgrees(s, top, k, run);
    }
  }

  lemma {:induction false} ValueNodeAgrees(s: Input, top: Collection, asks: bool, k: Stack, run: seq<Token>)
    requires s.tokens != [] && Head(s) == VALUE && Agrees(ParseNode(Pop(s), CompactMap), asks, k, run)
    ensures Agrees(ParseNode(s, top), asks, k, run)
  {
    hide Asks, Ahead, Single;
    var v := ParseNode(Pop(s), CompactMap);
    CollectAgrees(Map, "?", Default, 0, WithKey(NullNode(0), v), asks, k, run);
    assert ParseNode(s, top) == Collect(Map, "?", Default, 0, WithKey(NullNode(0), v));
    hide *;
  }

  lemma {:induction false} AliasAgrees(s: Input, top: Collection, k: Stack, run: seq<Token>)
    requires s.tokens != [] && Head(s) == ALIAS && Ahead(Pop(s), run)
    ensures Agrees(ParseNode(s, top), s.tokens[0].value in s.anchors && Asks(Pop(s), k, |run|), k, run)
  {
    hide Asks, Ahead, Single;
  }

  lemma {:induction false} BehindAgrees(s: Input, top: Collection, k: Stack, run: seq<Token>)
    requires s.tokens != [] && Head(s) != VALUE && Head(s) != ALIAS && !Properties(s, "", 0).Crash?
    requires var p := Properties(s, "", 0);
             p.Ok? ==> p.rest.tokens != []
                       && var c := MoveContent(p.rest, top, k);
                          Agrees(ParseContent(p.rest, top, p.value.tag, p.value.anchor), Asks(c.s, c.k, |run|), k, run)
    ensures var p := Properties(s, "", 0);
            var asks := p.Ok? && var c := MoveContent(p.rest, top, k); Asks(c.s, c.k, |run|);
            Agrees(ParseNode(s, top), asks, k, run)
  {
    var p := Properties(s, "", 0);
    assert p.Ok? ==> ParseNode(s, top) == ParseContent(p.rest, top, p.value.tag, p.value.anchor);
    hide Asks, Ahead, Single, ParseContent, MoveContent;
  }

  lemma {:induction false} NodeMove(s: Input, top: Collection, k: Stack, n: nat)
    requires |s.tokens| > n
    ensures var c := MoveNode(s, top, k);
            Asks(s, Todo(Content(top), k), n) == (c.Config? && Asks(c.s, c.k, n))
    ensures Head(s) == VALUE ==> Asks(s, Todo(Content(top), k), n) == Asks(Pop(s), Todo(Content(CompactMap), k), n)
    ensures Head(s) == ALIAS
            ==> Asks(s, Todo(Content(top), k), n) == (s.tokens[0].value in s.anchors && Asks(Pop(s), k, n))
  {
    hide Properties, MoveContent;
    var c := MoveNode(s, top, k);
    if c.Config? { NothingAsked(c.s, c.k); }
  }

  lemma {:induction false} PropertiesMove(s: Input, top: Collection, k: Stack)
    requires s.tokens != [] && Head(s) != VALUE && Head(s) != ALIAS
    requires var p := Properties(s, "", 0);
             p.Ok? ==> p.rest.tokens != [] && (IsProperty(Head(s)) ==> |p.rest.tokens| < |s.tokens|)
    ensures var p := Properties(s, "", 0);
            MoveNode(s, top, k) == if p.Ok? then MoveContent(p.rest, top, k) else Stuck
  {
    hide MoveContent;
    if !IsProperty(Head(s)) { PropertiesNone(s); }
    hide Properties;
  }

  lemma {:induction false} PropertiesNone(s: Input)
    requires s.tokens != [] && !IsProperty(Head(s))
    ensures Properties(s, "", 0) == Ok(Props("", 0), s)
  {
  }

  lemma {:induction false} ContentAsks(s: Input, top: Collection, tag: string, anchor: nat, k: Stack, run: seq<Token>)
    requires Ahead(s, run) && |s.tokens| > |run| && !IsProperty(Head(s))
    ensures var c := MoveContent(s, top, k);
            Agrees(ParseContent(s, top, tag, anchor), Asks(c.s, c.k, |run|), k, run)
    decreases |s.tokens|, 0, 0
  {
    hide Single, Ahead, Asks, Agrees, Collect, FlowItems, BlockItems, FlowPairs, BlockPairs, AfterKey;
    PopAhead(s, run);
    var kind, u := Head(s), Pop(s);
    var t := if tag != "" then tag else if kind == NON_PLAIN_SCALAR then "!" else "?";
    if kind == FLOW_SEQ_START {
      FlowItemsAsk(u, k, run);
      CollectAgrees(Sequence, t, Flow, anchor, FlowItems(u), Asks(u, Todo(FlowSeqItems, k), |run|), k, run);
    } else if kind == BLOCK_SEQ_START {
      BlockItemsAsk(u, k, run);
      CollectAgrees(Sequence, t, Block, anchor, BlockItems(u), Asks(u, Todo(BlockSeqItems, k), |run|), k, run);
    } else if kind == FLOW_MAP_START {
      FlowPairsAsk(u, k, run);
      CollectAgrees(Map, t, Flow, anchor, FlowPairs(u), Asks(u, Todo(FlowMapPairs, k), |run|), k, run);
    } else if kind == BLOCK_MAP_START {
      BlockPairsAsk(u, k, run);
      CollectAgrees(Map, t, Block, anchor, BlockPairs(u), Asks(u, Todo(BlockMapPairs, k), |run|), k, run);
    } else if kind == KEY && top == FlowSeq {
      AfterKeyAsks(u, CompactMap, k, run);
      CollectAgrees(Map, t, Flow, anchor, AfterKey(u, CompactMap),
          Asks(u, Todo(Content(CompactMap), Todo(ValueOf(CompactMap), k)), |run|), k, run);
    } else {
      LeafAgrees(s, top, tag, anchor, k, run);
    }
  }

  lemma {:induction false} CollectAgrees(kind: Kind, tag: string, style: Style, anchor: nat, kids: Outcome<seq<Tree>>,
      asks: bool, k: Stack, run: seq<Token>)
    requires Agrees(kids, asks, k, run)
    ensures Agrees(Collect(kind, tag, style, anchor, kids), asks, k, run)
  {
    hide Ahead, Asks, Single;
  }

  /** Scalars, and nodes without a token of their own. */
  lemma {:induction false} LeafAgrees(s: Input, top: Collection, tag: string, anchor: nat, k: Stack, run: seq<Token>)
    requires s.tokens != [] && Ahead(s, run) && Ahead(Pop(s), run) && !(Head(s) == KEY && top == FlowSeq)
    requires Head(s) !in {FLOW_SEQ_START, BLOCK_SEQ_START, FLOW_MAP_START, BLOCK_MAP_START}
    ensures Agrees(ParseContent(s, top, tag, anchor), Asks(MoveContent(s, top, k).s, MoveContent(s, top, k).k, |run|),
            k, run)
  {
    hide Ahead, Asks, Single, IsNullString;
  }

  lemma {:induction false} BlockItemsAsk(s: Input, k: Stack, run: seq<Token>)
    requires Ahead(s, run)
    ensures Agrees(BlockItems(s), Asks(s, Todo(BlockSeqItems, k), |run|), k, run)
    decreases |s.tokens|, 2
  {
    hide Single, Ahead, ParseNode, Asks;
    TaskMove(s, BlockSeqItems, k, |run|);
    if At(s, BLOCK_SEQ_END) || At(s, BLOCK_ENTRY) {
      OutsideRun(s, run);
      PopAhead(s, run);
      if At(s, BLOCK_ENTRY) { ItemAsks(Pop(s), k, run); }
    }
  }

  /** What follows a block entry. */
  lemma {:induction false} ItemAsks(s: Input, k: Stack, run: seq<Token>)
    requires Ahead(s, run)
    ensures var empty := At(s, BLOCK_ENTRY) || At(s, BLOCK_SEQ_END);
            var asks := Asks(s, Todo(Item, k), |run|);
            if empty then Agrees(BlockItems(s), asks, k, run) else
              match ParseNode(s, BlockSeq)
              case Ok(_, u) => Agrees(BlockItems(u), asks, k, run)
              case Err(e) => !(asks && Single(run))
              case Crash => asks && Single(run)
    decreases |s.tokens|, 3
  {
    hide Single, Ahead, ParseNode, BlockItems, Asks;
    TaskMove(s, Item, k, |run|);
    if At(s, BLOCK_ENTRY) || At(s, BLOCK_SEQ_END) {
      BlockItemsAsk(s, k, run);
    } else {
      NodeAsks(s, BlockSeq, Todo(BlockSeqItems, k), run);
      if ParseNode(s, BlockSeq).Ok? { BlockItemsAsk(ParseNode(s, BlockSeq).rest, k, run); }
    }
  }

  lemma {:induction false} FlowItemsAsk(s: Input, k: Stack, run: seq<Token>)
    requires Ahead(s, run)
    ensures Agrees(FlowItems(s), Asks(s, Todo(FlowSeqItems, k), |run|), k, run)
    decreases |s.tokens|, 2
  {
    hide Single, Ahead, ParseNode, Asks;
    TaskMove(s, FlowSeqItems, k, |run|);
    if s.tokens != [] {
      if Head(s) == FLOW_SEQ_END {
        OutsideRun(s, run);
        PopAhead(s, run);
      } else {
        NodeAsks(s, FlowSeq, Todo(AfterItem, k), run);
        if ParseNode(s, FlowSeq).Ok? { AfterItemAsks(ParseNode(s, FlowSeq).rest, k, run); }
      }
    }
  }

  lemma {:induction false} AfterItemAsks(s: Input, k: Stack, run: seq<Token>)
    requires Ahead(s, run)
    ensures var asks := Asks(s, Todo(AfterItem, k), |run|);
            if At(s, FLOW_ENTRY) then Agrees(FlowItems(Pop(s)), asks, k, run)
            else if At(s, FLOW_SEQ_END) then Ahead(Pop(s), run) && asks == Asks(Pop(s), k, |run|)
            else !asks
    decreases |s.tokens|, 1
  {
    hide Single, Ahead, FlowItems, Asks;
    TaskMove(s, AfterItem, k, |run|);
    if At(s, FLOW_ENTRY) || At(s, FLOW_SEQ_END) {
      OutsideRun(s, run);
      PopAhead(s, run);
      if At(s, FLOW_ENTRY) { FlowItemsAsk(Pop(s), k, run); }
    }
  }

  lemma {:induction false} ValueAsks(s: Input, top: Collection, k: Stack, run: seq<Token>)
    requires Ahead(s, run)
    ensures Agrees(ParseValue(s, top), Asks(s, Todo(ValueOf(top), k), |run|), k, run)
    decreases |s.tokens|, 2
  {
    hide Single, Ahead, ParseNode, Asks;
    TaskMove(s, ValueOf(top), k, |run|);
    if At(s, VALUE) {
      OutsideRun(s, run);
      PopAhead(s, run);
      NodeAsks(Pop(s), top, k, run);
    }
  }

  lemma {:induction false} AfterKeyAsks(s: Input, top: Collection, k: Stack, run: seq<Token>)
    requires Ahead(s, run)
    ensures Agrees(AfterKey(s, top), Asks(s, Todo(Content(top), Todo(ValueOf(top), k)), |run|), k, run)
    decreases |s.tokens|, 3
  {
    hide Single, Ahead, ParseNode, ParseValue, Asks;
    NodeAsks(s, top, Todo(ValueOf(top), k), run);
    var r := ParseNode(s, top);
    if r.Ok? { ValueAsks(r.rest, top, k, run); }
  }

  lemma {:induction false} BlockPairsAsk(s: Input, k: Stack, run: seq<Token>)
    requires Ahead(s, run)
    ensures Agrees(BlockPairs(s), Asks(s, Todo(BlockMapPairs, k), |run|), k, run)
    decreases |s.tokens|, 5
  {
    hide Single, Ahead, KeyAndValue, Asks;
    TaskMove(s, BlockMapPairs, k, |run|);
    if At(s, BLOCK_MAP_END) {
      OutsideRun(s, run);
      PopAhead(s, run);
    } else if At(s, KEY) || At(s, VALUE) {
      KeyAndValueAsks(s, BlockMap, Todo(BlockMapPairs, k), run);
      if KeyAndValue(s, BlockMap).Ok? { BlockPairsAsk(KeyAndValue(s, BlockMap).rest, k, run); }
    }
  }

  lemma {:induction false} FlowPairsAsk(s: Input, k: Stack, run: seq<Token>)
    requires Ahead(s, run)
    ensures Agrees(FlowPairs(s), Asks(s, Todo(FlowMapPairs, k), |run|), k, run)
    decreases |s.tokens|, 5
  {
    hide Single, Ahead, KeyAndValue, Asks;
    if s.tokens == [] {
      TaskMove(s, FlowMapPairs, k, |run|);
    } else if Head(s) == FLOW_MAP_END {
      TaskMove(s, FlowMapPairs, k, |run|);
      OutsideRun(s, run);
      PopAhead(s, run);
    } else {
      FlowPairsMove(s, k, |run|);
      KeyAndValueAsks(s, FlowMap, Todo(AfterPair, k), run);
      hide PairAsks;
      if KeyAndValue(s, FlowMap).Ok? { AfterPairAsks(KeyAndValue(s, FlowMap).rest, k, run); }
    }
  }

  lemma {:induction false} AfterPairAsks(s: Input, k: Stack, run: seq<Token>)
    requires Ahead(s, run)
    ensures var asks := Asks(s, Todo(AfterPair, k), |run|);
            if At(s, FLOW_ENTRY) then Agrees(FlowPairs(Pop(s)), asks, k, run)
            else if At(s, FLOW_MAP_END) then Ahead(Pop(s), run) && asks == Asks(Pop(s), k, |run|)
            else !asks
    decreases |s.tokens|, 1
  {
    hide Single, Ahead, FlowPairs, Asks;
    TaskMove(s, AfterPair, k, |run|);
    if At(s, FLOW_ENTRY) || At(s, FLOW_MAP_END) {
      OutsideRun(s, run);
      PopAhead(s, run);
      if At(s, FLOW_ENTRY) { FlowPairsAsk(Pop(s), k, run); }
    }
  }

  lemma {:induction false} FlowPairsMove(s: Input, k: Stack, n: nat)
    requires s.tokens != [] && Head(s) != FLOW_MAP_END
    ensures Asks(s, Todo(FlowMapPairs, k), n) == PairAsks(s, FlowMap, Todo(AfterPair, k), n)
  {
    hide Asks;
    TaskMove(s, FlowMapPairs, k, n);
  }

  lemma {:induction false} TaskMove(s: Input, task: Task, k: Stack, n: nat)
    requires !task.Content?
    ensures var c := Move(s, task, k); Asks(s, Todo(task, k), n) == (c.Config? && Asks(c.s, c.k, n))
  {
    hide MoveNode;
    var c := Move(s, task, k);
    if c.Config? { NothingAsked(c.s, c.k); }
  }

  lemma {:induction false} NothingAsked(s: Input, k: Stack)
    ensures !Asks(s, k, 0)
  {
  }

  /** Whether a pair of a map asks, or what follows it. */
  predicate PairAsks(s: Input, top: Collection, k: Stack, n: nat)
    requires s.tokens != []
  {
    if Head(s) == KEY then Asks(Pop(s), Todo(Content(top), Todo(ValueOf(top), k)), n)
    else if Head(s) == VALUE then Asks(Pop(s), Todo(Content(top), k), n)
    else Asks(s, k, n)
  }

  lemma {:induction false} KeyAndValueAsks(s: Input, top: Collection, k: Stack, run: seq<Token>)
    requires Ahead(s, run) && s.tokens != []
    ensures Agrees(KeyAndValue(s, top), PairAsks(s, top, k, |run|), k, run)
    decreases |s.tokens|, 4
  {
    hide Single, Ahead, ParseNode, AfterKey, Asks;
    if Head(s) == KEY || Head(s) == VALUE {
      OutsideRun(s, run);
      PopAhead(s, run);
      if Head(s) == KEY { AfterKeyAsks(Pop(s), top, k, run); } else { NodeAsks(Pop(s), top, k, run); }
    }
  }

  /** The parser crashes exactly if the input ends in tags and anchors, none of
      which is an error as a repetition, where the pass asks for a node. */
  lemma {:induction false} CrashesIff(s: Input, top: Collection)
    ensures var run := TrailingRun(s.tokens);
            ParseNode(s, top).Crash? <==> run != [] && Single(run) && Asks(s, Todo(Content(top), Empty), |run|)
  {
    RunAhead(s);
    NodeAsks(s, top, Empty, TrailingRun(s.tokens));
    hide ParseNode, Single, TrailingRun;
  }

  /** A tag with nothing behind it crashes the parser, but not behind a whole node. */
  lemma {:induction false} LoneTagCrashes(tag: string, text: string)
    ensures ParseNode(Input([Token(TAG, tag)], map[], 0), NoCollection) == Crash
    ensures ParseNode(Input([Token(NON_PLAIN_SCALAR, text), Token(TAG, tag)], map[], 0), NoCollection).Ok?
  {
    TagCrashes(Token(TAG, tag));
    BehindScalar(Token(NON_PLAIN_SCALAR, text), Token(TAG, tag));
  }

  lemma {:induction false} TagCrashes(t: Token)
    requires t.kind == TAG
    ensures ParseNode(Input([t], map[], 0), NoCollection) == Crash
  {
    var s := Input([t], map[], 0);
    LoneRun(t);
    hide ParseNode, TrailingRun, Move;
    CrashesIff(s, NoCollection);
    assert Asks(s, Todo(Content(NoCollection), Empty), 1);
  }

  lemma {:induction false} LoneRun(t: Token)
    requires IsProperty(t.kind)
    ensures TrailingRun([t]) == [t] && Single([t])
  {
    assert [t][..0] == [];
  }

  lemma {:induction false} BehindScalar(scalar: Token, t: Token)
    requires scalar.kind == NON_PLAIN_SCALAR
    ensures ParseNode(Input([scalar, t], map[], 0), NoCollection).Ok?
  {
    var s := Input([scalar, t], map[], 0);
    PropertiesNone(s);
  }
}
