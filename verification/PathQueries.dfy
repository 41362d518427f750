/** Every normalized path is a query that selects the node at that path, section 2.7 of RFC 9535. */
module PathQueries {
  import opened Common
  import opened Text
  import T = Tokens
  import opened Json
  import opened Syntax
  import opened Grammar
  import opened Evaluate
  import opened NormalizedPaths
  import opened Locations
  import opened StringGrammar
  import opened Printing
  import opened LexPrinted
  import opened PrintedChain
  import opened RoundTrip
  import Buffers
  import Layout
  import ParserComplete

  /** A step between its brackets; names are quoted with apostrophes. */
  function StepItem(s: Step): Item {
    match s
    case NameStep(n) => Quotation(n, '\'')
    case IndexStep(i) => IntItem(i)
  }

  function StepsItems(p: Path): seq<Item> {
    if p == [] then [] else [Plain(T.LeftBracket)] + ([StepItem(p[0])] + ([Plain(T.RightBracket)] + StepsItems(p[1..])))
  }

  function PathItems(p: Path): seq<Item> {
    [Plain(T.Dollar)] + StepsItems(p)
  }

  // ---- The text of a path renders its items

  lemma StepItemText(s: Step)
    ensures "[" + ItemText(StepItem(s)) + "]" == StepText(s)
  {
    hide Buffers.Quoted, NatText;
    assert ItemText(StepItem(s)) == StepItem(s).raw;
  }

  lemma {:induction false} StepsRender(p: Path)
    ensures Render(StepsItems(p)) == StepsText(p)
  {
    hide Render, StepText, StepItem, ItemText;
    EmptyItems();
    if p != [] {
      var tail := [Plain(T.RightBracket)] + StepsItems(p[1..]);
      StepItemText(p[0]);
      StepsRender(p[1..]);
      RenderCons(Plain(T.LeftBracket), [StepItem(p[0])] + tail);
      RenderCons(StepItem(p[0]), tail);
      RenderCons(Plain(T.RightBracket), StepsItems(p[1..]));
      PlainText(T.LeftBracket);
      PlainText(T.RightBracket);
      Reassociated(ItemText(StepItem(p[0])), Render(StepsItems(p[1..])));
    }
  }

  lemma Reassociated(a: string, b: string)
    ensures "[" + (a + ("]" + b)) == ("[" + a + "]") + b
  {
  }

  lemma PathRender(p: Path)
    ensures Render(PathItems(p)) == PathText(p)
  {
    hide Render, StepsItems, StepsText, ItemText;
    StepsRender(p);
    RenderCons(Plain(T.Dollar), StepsItems(p));
    PlainText(T.Dollar);
  }

  // ---- The items form a chain

  lemma StepCons(s: Step, xs: seq<Item>)
    requires Loose(xs)
    ensures Tight([StepItem(s)] + xs)
  {
    hide Loose, Tight, IntItem, Quotation, ItemOk;
    match s
    case NameStep(n) =>
      QuotationOk(n, '\'');
      QuotationSymbol(n);
      LooseCons(StepItem(s), xs);
    case IndexStep(i) =>
      IntCons(i, xs);
  }

  lemma QuotationSymbol(n: string)
    ensures Quotation(n, '\'').sym == T.Symbol(T.String, n, false)
  {
  }

  lemma {:induction false} StepsChained(p: Path)
    ensures Loose(StepsItems(p))
  {
    hide Loose, Tight, StepItem;
    if p == [] {
      LooseEmpty();
    } else {
      StepsChained(p[1..]);
      LooseTight(StepsItems(p[1..]));
      SingleCons(T.RightBracket, StepsItems(p[1..]));
      StepCons(p[0], [Plain(T.RightBracket)] + StepsItems(p[1..]));
      SingleCons(T.LeftBracket, [StepItem(p[0])] + ([Plain(T.RightBracket)] + StepsItems(p[1..])));
    }
  }

  /** The text of a path lexes to its items. */
  lemma PathLexes(p: Path)
    ensures Layout.Lexes(PathText(p)) && StreamIs(Layout.StreamOf(PathText(p)), PathItems(p))
  {
    hide Loose, Chained, StepsItems, StreamIs, Layout.Lexes, Layout.StreamOf, PathText;
    StepsChained(p);
    LooseTight(StepsItems(p));
    SingleCons(T.Dollar, StepsItems(p));
    LooseTight(PathItems(p));
    PathRender(p);
    RenderingLexes(PathItems(p));
  }

  // ---- The query of a path prints the same lexemes, up to the quotes

  predicate SameSymbols(xs: seq<Item>, ys: seq<Item>) {
    |xs| == |ys| && forall k | 0 <= k < |xs| :: xs[k].sym == ys[k].sym
  }

  lemma SameSymbolsConcat(a: seq<Item>, b: seq<Item>, c: seq<Item>, d: seq<Item>)
    requires SameSymbols(a, c) && SameSymbols(b, d)
    ensures SameSymbols(a + b, c + d)
  {
  }

  lemma StepSegment(s: Step)
    requires s.IndexStep? ==> s.index <= MAX_JSON_INTEGER
    ensures SameSymbols([Plain(T.LeftBracket)] + ([StepItem(s)] + [Plain(T.RightBracket)]),
                        SegmentItems(Segment([StepSelector(s)], false)))
  {
    hide NatText, SliceItems, OrItems;
    var ss := [StepSelector(s)];
    assert SelectorsItems(ss) == SelectorItems(ss[0]);
    assert [] + ([Plain(T.LeftBracket)] + (SelectorsItems(ss) + [Plain(T.RightBracket)]))
        == [Plain(T.LeftBracket)] + (SelectorItems(ss[0]) + [Plain(T.RightBracket)]);
  }

  lemma {:induction false} StepsSegments(p: Path)
    requires Writable(p)
    ensures SameSymbols(StepsItems(p), SegmentsItems(PathSegments(p)))
  {
    hide StepItem, SegmentItems, SameSymbols, StepSelector;
    if p == [] {
      SameNothing();
    } else {
      var body := [Plain(T.LeftBracket)] + ([StepItem(p[0])] + [Plain(T.RightBracket)]);
      var rest := StepsItems(p[1..]);
      assert StepsItems(p) == body + rest;
      StepSegment(p[0]);
      StepsSegments(p[1..]);
      assert PathSegments(p)[1..] == PathSegments(p[1..]);
      SameSymbolsConcat(body, rest, SegmentItems(PathSegments(p)[0]), SegmentsItems(PathSegments(p[1..])));
    }
  }

  lemma SameNothing()
    ensures SameSymbols([], [])
  {
  }

  lemma PathSymbols(p: Path)
    requires Writable(p)
    ensures SameSymbols(PathItems(p), QueryItems(QueryOfPath(p)))
  {
    hide StepsItems, SegmentsItems, PathSegments;
    StepsSegments(p);
  }

  lemma StepTyped(s: Step, funcs: Registry)
    requires s.IndexStep? ==> s.index <= MAX_JSON_INTEGER
    ensures WellTypedSegment(Segment([StepSelector(s)], false), funcs)
  {
  }

  lemma PathTyped(p: Path, funcs: Registry)
    requires Writable(p)
    ensures WellTypedQuery(QueryOfPath(p), funcs)
  {
    hide WellTypedSegment, StepSelector;
    forall i | 0 <= i < |p|
      ensures WellTypedSegment(PathSegments(p)[i], funcs)
    {
      PathSegmentAt(p, i);
      StepTyped(p[i], funcs);
    }
  }

  lemma {:induction false} PathSegmentAt(p: Path, i: nat)
    requires Writable(p) && i < |p|
    ensures PathSegments(p)[i] == Segment([StepSelector(p[i])], false)
  {
    if i > 0 {
      PathSegmentAt(p[1..], i - 1);
    }
  }

  // ---- Located paths are queries

  lemma {:induction false} StepsTextEnd(p: Path)
    ensures var text := StepsText(p); text != "" ==> text[|text| - 1] == ']'
  {
    if p != [] {
      StepsTextEnd(p[1..]);
      var a, b := StepText(p[0]), StepsText(p[1..]);
      assert a[|a| - 1] == ']';
      assert (a + b)[|a + b| - 1] == if b == "" then a[|a| - 1] else b[|b| - 1];
    }
  }

  lemma PathEdges(p: Path)
    ensures !Layout.BlankEdge(PathText(p))
  {
    hide StepsText;
    StepsTextEnd(p);
    var tail := StepsText(p);
    if tail != "" {
      assert PathText(p)[|PathText(p)| - 1] == tail[|tail| - 1];
    }
  }

  lemma SameStream(ts: Stream, xs: seq<Item>, ys: seq<Item>)
    requires StreamIs(ts, xs) && SameSymbols(xs, ys)
    ensures StreamIs(ts, ys)
  {
    hide T.ValidSymbol;
  }

  /** The text of a path parses to the query that names its steps, whatever functions are registered. */
  lemma PathParses(p: Path, funcs: Registry)
    requires Writable(p)
    ensures Layout.ParseText(PathText(p), funcs) == Ok(QueryOfPath(p))
  {
    hide PathText, PathItems, QueryItems, PathSegments, WellTypedQuery, ParseQuery, Layout.Lexes;
    hide Layout.StreamOf, StreamIs, SameSymbols;
    hide T.AllTokens, Layout.BlankEdge, T.ValidSymbol;
    PathLexes(p);
    PathSymbols(p);
    SameStream(Layout.StreamOf(PathText(p)), PathItems(p), QueryItems(QueryOfPath(p)));
    PathTyped(p, funcs);
    ItemsParse(QueryOfPath(p), Layout.StreamOf(PathText(p)), funcs);
    PathEdges(p);
    Layout.LayoutIndependence(PathText(p), PathText(p), funcs);
  }

  // ---- A path with an index no query can write does not parse

  predicate WritableStep(s: Step) {
    s.IndexStep? ==> s.index <= MAX_JSON_INTEGER
  }

  lemma IndexTooLarge(n: nat, ts: Stream, i: nat)
    requires i < |ts| && ts[i] == IntItem(n).sym && n > MAX_JSON_INTEGER
    ensures ParseInteger(ts, i) == Failed(i)
  {
    hide IntText, T.ValidSymbol, IntValue;
    IntTextValue(n);
  }

  /** The selector of a bracketed step, or the failure at its index. */
  lemma StepParsed(s: Step, ts: Stream, i: nat, funcs: Registry)
    requires i + 1 < |ts| && ts[i] == StepItem(s).sym && ts[i + 1].kind == T.RightBracket
    ensures ParseSelector(ts, i, funcs) == if WritableStep(s) then Done(StepSelector(s), i + 1) else Failed(i)
  {
    hide IntText, ParseInteger, ParseOr, ParseSlice, T.ValidSymbol;
    if s.IndexStep? {
      if WritableStep(s) {
        IntSpelled(s.index, ts, i);
        ParserComplete.IntegerParses(s.index, ts, i);
      } else {
        IndexTooLarge(s.index, ts, i);
      }
    }
  }

  lemma StepInBrackets(s: Step, ts: Stream, i: nat, funcs: Registry)
    requires i + 1 < |ts| && ts[i] == StepItem(s).sym && ts[i + 1].kind == T.RightBracket
    ensures ParseBracketed(ts, i, funcs) == if WritableStep(s) then Done([StepSelector(s)], i + 2) else Failed(i)
  {
    hide ParseSelector, StepItem, StepSelector, WritableStep, T.ValidSymbol;
    StepParsed(s, ts, i, funcs);
  }

  lemma {:induction false} StepsFail(p: Path, ts: Stream, i: nat, funcs: Registry)
    requires Here(ts, i, StepsItems(p)) && !Writable(p)
    ensures ParseSegments(ts, i, funcs).Failed?
    decreases |p|
  {
    hide Here, ParseBracketed, ParseDescendant, ParseDotChild, StepItem, StepSelector, T.ValidSymbol;
    var rest := [Plain(T.RightBracket)] + StepsItems(p[1..]);
    HereCons(ts, i, Plain(T.LeftBracket), [StepItem(p[0])] + rest);
    HereCons(ts, i + 1, StepItem(p[0]), rest);
    HereCons(ts, i + 2, Plain(T.RightBracket), StepsItems(p[1..]));
    StepInBrackets(p[0], ts, i + 1, funcs);
    if WritableStep(p[0]) {
      StepsFail(p[1..], ts, i + 3, funcs);
    }
  }

  lemma UnwritableFails(p: Path, ts: Stream, funcs: Registry)
    requires StreamIs(ts, PathItems(p)) && !Writable(p)
    ensures ParseQuery(ts, funcs).Failed?
  {
    hide StepsItems, ParseSegments, Writable, T.ValidSymbol;
    HereCons(ts, 0, Plain(T.Dollar), StepsItems(p));
    StepsFail(p, ts, 1, funcs);
  }

  /** The text of a path is a query if and only if its indexes are within 2^53 - 1. */
  lemma PathParsesIffWritable(p: Path, funcs: Registry)
    ensures Layout.ParseText(PathText(p), funcs).Ok? <==> Writable(p)
  {
    hide PathText, PathItems, Writable, ParseQuery, Layout.Lexes, Layout.StreamOf, StreamIs, T.AllTokens;
    PathLexes(p);
    if Writable(p) {
      PathParses(p, funcs);
    } else {
      UnwritableFails(p, Layout.StreamOf(PathText(p)), funcs);
    }
  }

  /**
   * For every query and document, the path of every selected node is, as text, a singular query that selects exactly
   * that node from the same document, under any registry and any callbacks; unless an index in it is too large for any
   * query, which takes an array of more than 2^53 elements.
   */
  lemma LocatedPathsAreQueries(q: PathQuery, doc: Json, call: Callbacks, n: Node, funcs: Registry, other: Callbacks)
    requires q.root && n in Select(q, doc, doc, call)
    ensures var r := Layout.ParseText(PathText(n.path), funcs);
            && (r.Ok? <==> Writable(n.path))
            && (r.Ok? ==> r.value.root && Singular(r.value) && Select(r.value, doc, doc, other) == [n])
    ensures ArraysWithin(doc, MAX_ARRAY) ==> Writable(n.path)
  {
    hide Select, PathText, ArraysWithin, Walk, Layout.ParseText, PathSegments, Writable;
    SelectedNodesResolve(q, doc, doc, call);
    PathParsesIffWritable(n.path, funcs);
    if Writable(n.path) {
      PathParses(n.path, funcs);
      QueryOfPathSelects(n.path, doc, other);
    }
    if ArraysWithin(doc, MAX_ARRAY) {
      WalkedPathsWritable(doc, n.path);
    }
  }

  // ---- Paths with the same text are the same path

  lemma {:induction false} SameStepsSymbols(p: Path, q: Path)
    requires SameSymbols(StepsItems(p), StepsItems(q))
    ensures p == q
  {
    hide StepItem;
    if p != [] && q != [] {
      var xs, ys := StepsItems(p), StepsItems(q);
      assert xs[1] == StepItem(p[0]) && ys[1] == StepItem(q[0]);
      SameStepItem(p[0], q[0]);
      assert xs[3..] == StepsItems(p[1..]) && ys[3..] == StepsItems(q[1..]);
      assert forall k | 0 <= k < |xs| - 3 :: xs[3..][k] == xs[k + 3] && ys[3..][k] == ys[k + 3];
      SameStepsSymbols(p[1..], q[1..]);
    }
  }

  lemma SameStepItem(a: Step, b: Step)
    requires StepItem(a).sym == StepItem(b).sym
    ensures a == b
  {
    hide IntText;
    if a.IndexStep? && b.IndexStep? {
      IntTextValue(a.index);
      IntTextValue(b.index);
    }
  }

  /** The normalized path string determines the path. */
  lemma PathTextInjective(p: Path, q: Path)
    requires PathText(p) == PathText(q)
    ensures p == q
  {
    hide PathItems, StreamIs, SameSymbols, PathText, Layout.Lexes, Layout.StreamOf;
    PathLexes(p);
    PathLexes(q);
    SameFromStream(Layout.StreamOf(PathText(p)), p, q);
    SameStepsSymbols(p, q);
  }

  lemma SameFromStream(ts: Stream, p: Path, q: Path)
    requires StreamIs(ts, PathItems(p)) && StreamIs(ts, PathItems(q))
    ensures SameSymbols(StepsItems(p), StepsItems(q))
  {
    hide StepsItems, T.ValidSymbol;
    forall k | 0 <= k < |StepsItems(p)|
      ensures StepsItems(p)[k].sym == StepsItems(q)[k].sym
    {
      assert PathItems(p)[k + 1] == StepsItems(p)[k] && PathItems(q)[k + 1] == StepsItems(q)[k];
    }
  }
}
