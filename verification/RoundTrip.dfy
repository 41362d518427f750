/** Parsing the canonical text of a query gives back the query. */
module RoundTrip {
  import opened Common
  import opened Text
  import opened NumberText
  import T = Tokens
  import opened Syntax
  import opened Grammar
  import opened Printing
  import opened LexPrinted
  import opened PrintedChain
  import opened Spelling
  import opened ParserComplete
  import opened TypeSafety
  import Layout

  // ---- Items in a stream

  /** The lexemes of the items stand at `i`, and at least one lexeme follows them. */
  predicate Here(ts: Stream, i: nat, xs: seq<Item>) {
    i + |xs| < |ts| && forall k | 0 <= k < |xs| :: ts[i + k] == xs[k].sym
  }

  lemma HereSplit(ts: Stream, i: nat, a: seq<Item>, b: seq<Item>)
    requires Here(ts, i, a + b)
    ensures Here(ts, i, a) && Here(ts, i + |a|, b)
  {
    hide T.ValidSymbol;
    forall k | 0 <= k < |a|
      ensures ts[i + k] == a[k].sym
    {
      assert (a + b)[k] == a[k];
    }
    forall k | 0 <= k < |b|
      ensures ts[i + |a| + k] == b[k].sym
    {
      assert (a + b)[|a| + k] == b[k];
    }
  }

  lemma HereCons(ts: Stream, i: nat, x: Item, b: seq<Item>)
    requires Here(ts, i, [x] + b)
    ensures i < |ts| && ts[i] == x.sym && Here(ts, i + 1, b)
  {
    hide T.ValidSymbol;
    HereSplit(ts, i, [x], b);
    HereOne(ts, i, x);
  }

  lemma HereBound(ts: Stream, i: nat, xs: seq<Item>)
    requires Here(ts, i, xs)
    ensures i + |xs| < |ts|
  {
  }

  lemma HereOne(ts: Stream, i: nat, x: Item)
    requires Here(ts, i, [x])
    ensures i + 1 < |ts| && ts[i] == x.sym
  {
    assert ts[i + 0] == [x][0].sym;
  }

  // ---- The items of a construct spell it

  lemma {:induction false} QuerySpelled(q: PathQuery, ts: Stream, i: nat, funcs: Registry)
    requires Here(ts, i, QueryItems(q)) && WellTypedQuery(q, funcs)
    ensures QueryAt(q, ts, i, i + |QueryItems(q)|)
    decreases q, 0
  {
    hide Here, SegmentsItems, SegmentsAt, WellTypedSegments, T.ValidSymbol;
    HereBound(ts, i, QueryItems(q));
    HereCons(ts, i, Plain(if q.root then T.Dollar else T.At_), SegmentsItems(q.segments));
    SegmentsSpelled(q.segments, ts, i + 1, funcs);
  }

  lemma {:induction false} SegmentsSpelled(ss: seq<Segment>, ts: Stream, i: nat, funcs: Registry)
    requires Here(ts, i, SegmentsItems(ss)) && WellTypedSegments(ss, funcs)
    ensures SegmentsAt(ss, ts, i, i + |SegmentsItems(ss)|)
    decreases ss, 0
  {
    hide Here, SegmentItems, SegmentAt, WellTypedSegment, T.ValidSymbol;
    HereBound(ts, i, SegmentsItems(ss));
    if ss != [] {
      var k := i + |SegmentItems(ss[0])|;
      HereSplit(ts, i, SegmentItems(ss[0]), SegmentsItems(ss[1..]));
      SegmentSpelled(ss[0], ts, i, funcs);
      SegmentsSpelled(ss[1..], ts, k, funcs);
    }
  }

  lemma {:induction false} SegmentSpelled(s: Segment, ts: Stream, i: nat, funcs: Registry)
    requires Here(ts, i, SegmentItems(s)) && WellTypedSegment(s, funcs)
    ensures |SegmentItems(s)| > 0 && SegmentAt(s, ts, i, i + |SegmentItems(s)|)
    decreases s, 0
  {
    hide Here, SelectorsItems, SelectorsAt, WellTypedSelectors, T.ValidSymbol;
    var body := SelectorsItems(s.selectors) + [Plain(T.RightBracket)];
    var rest := [Plain(T.LeftBracket)] + body;
    if s.descendant {
      HereCons(ts, i, Plain(T.DotDot), rest);
      BracketedSpelled(s.selectors, ts, i + 1, funcs);
      HereFirst(ts, i + 1, Plain(T.LeftBracket), body);
    } else {
      assert [] + rest == rest;
      BracketedSpelled(s.selectors, ts, i, funcs);
    }
  }

  lemma HereFirst(ts: Stream, i: nat, x: Item, b: seq<Item>)
    requires Here(ts, i, [x] + b)
    ensures i < |ts| && ts[i] == x.sym
  {
    hide Here, T.ValidSymbol;
    HereCons(ts, i, x, b);
  }

  lemma {:induction false} BracketedSpelled(ss: seq<Selector>, ts: Stream, i: nat, funcs: Registry)
    requires ss != [] && WellTypedSelectors(ss, funcs)
    requires Here(ts, i, [Plain(T.LeftBracket)] + (SelectorsItems(ss) + [Plain(T.RightBracket)]))
    ensures BracketedAt(ss, ts, i, i + |SelectorsItems(ss)| + 2)
    decreases ss, 1
  {
    hide Here, SelectorsItems, SelectorsAt, WellTypedSelectors, T.ValidSymbol;
    HereCons(ts, i, Plain(T.LeftBracket), SelectorsItems(ss) + [Plain(T.RightBracket)]);
    HereSplit(ts, i + 1, SelectorsItems(ss), [Plain(T.RightBracket)]);
    HereOne(ts, i + 1 + |SelectorsItems(ss)|, Plain(T.RightBracket));
    SelectorsSpelled(ss, ts, i + 1, funcs);
  }

  lemma {:induction false} SelectorsSpelled(ss: seq<Selector>, ts: Stream, i: nat, funcs: Registry)
    requires ss != [] && WellTypedSelectors(ss, funcs) && Here(ts, i, SelectorsItems(ss))
    ensures SelectorsAt(ss, ts, i, i + |SelectorsItems(ss)|)
    decreases ss, 0
  {
    hide Here, SelectorItems, SelectorAt, WellTypedSelector, T.ValidSymbol;
    HereBound(ts, i, SelectorsItems(ss));
    if |ss| == 1 {
      SelectorSpelled(ss[0], ts, i, funcs);
    } else {
      var k := i + |SelectorItems(ss[0])|;
      HereSplit(ts, i, SelectorItems(ss[0]), [Plain(T.Comma)] + SelectorsItems(ss[1..]));
      HereCons(ts, k, Plain(T.Comma), SelectorsItems(ss[1..]));
      SelectorSpelled(ss[0], ts, i, funcs);
      SelectorsSpelled(ss[1..], ts, k + 1, funcs);
    }
  }

  lemma {:induction false} SelectorSpelled(s: Selector, ts: Stream, i: nat, funcs: Registry)
    requires WellTypedSelector(s, funcs) && Here(ts, i, SelectorItems(s))
    ensures |SelectorItems(s)| > 0 && SelectorAt(s, ts, i, i + |SelectorItems(s)|)
    decreases s, 0
  {
    hide Here, SliceItems, SliceAt, IntAt, OrItems, OrAt, WellTypedOr, IntItem, T.ValidSymbol;
    HereBound(ts, i, SelectorItems(s));
    match s
    case Name(name) => HereOne(ts, i, Quotation(name, '"'));
    case Index(index) =>
      HereOne(ts, i, IntItem(index));
      IntSpelled(index, ts, i);
    case Slice(args) =>
      SliceShape(args);
      SliceSpelled(args, ts, i);
    case Wildcard => HereOne(ts, i, Plain(T.Star));
    case Filter(expr) =>
      HereCons(ts, i, Plain(T.Question), OrItems(expr));
      OrSpelled(expr, ts, i + 1, funcs);
  }

  lemma IntSpelled(n: JsonInteger, ts: Stream, i: nat)
    requires i < |ts| && ts[i] == IntItem(n).sym
    ensures IntAt(n, ts, i)
  {
    hide IntText, T.ValidSymbol, IntValue;
    IntTextValue(n);
  }

  lemma OptionalSpelled(n: Option<JsonInteger>, ts: Stream, i: nat)
    requires Here(ts, i, if n.Some? then [IntItem(n.value)] else [])
    ensures OptionalIntAt(n, ts, i, i + if n.Some? then 1 else 0)
  {
    hide Here, IntItem, IntAt, T.ValidSymbol;
    if n.Some? {
      HereOne(ts, i, IntItem(n.value));
      IntSpelled(n.value, ts, i);
    }
  }

  lemma StepSpelled(n: Option<JsonInteger>, ts: Stream, i: nat)
    requires Here(ts, i, StepItems(n))
    ensures StepAt(n, ts, i, i + |StepItems(n)|)
  {
    hide Here, IntItem, IntAt, T.ValidSymbol;
    HereBound(ts, i, StepItems(n));
    if n.Some? {
      assert StepItems(n) == [Plain(T.Colon)] + [IntItem(n.value)];
      HereCons(ts, i, Plain(T.Colon), [IntItem(n.value)]);
      HereOne(ts, i + 1, IntItem(n.value));
      IntSpelled(n.value, ts, i + 1);
    }
  }

  lemma SliceSpelled(a: SliceArgs, ts: Stream, i: nat)
    requires Here(ts, i, SliceItems(a))
    ensures |SliceItems(a)| > 0 && SliceAt(a, ts, i, i + |SliceItems(a)|)
  {
    hide Here, IntItem, StepItems, SliceItems, OptionalIntAt, StepAt, T.ValidSymbol;
    var start := if a.start.Some? then [IntItem(a.start.value)] else [];
    var end := if a.end.Some? then [IntItem(a.end.value)] else [];
    var tail := end + StepItems(a.step);
    SliceShape(a);
    HereSplit(ts, i, start, [Plain(T.Colon)] + tail);
    var k := i + |start|;
    HereCons(ts, k, Plain(T.Colon), tail);
    HereSplit(ts, k + 1, end, StepItems(a.step));
    OptionalSpelled(a.start, ts, i);
    OptionalSpelled(a.end, ts, k + 1);
    StepSpelled(a.step, ts, k + 1 + |end|);
    HereBound(ts, k + 1 + |end|, StepItems(a.step));
    var m := k + 1 + |end|;
    assert OptionalIntAt(a.start, ts, i, k) && ts[k].kind == T.Colon && OptionalIntAt(a.end, ts, k + 1, m);
  }

  lemma {:induction false} OrSpelled(or: LogicalOr, ts: Stream, i: nat, funcs: Registry)
    requires WellTypedOr(or, funcs) && Here(ts, i, OrItems(or))
    ensures OrAt(or, ts, i, i + |OrItems(or)|)
    decreases or, 0
  {
    hide Here, AndItems, AndAt, WellTypedAnd, T.ValidSymbol;
    HereBound(ts, i, OrItems(or));
    var terms := or[0].terms;
    AndTerms(or[0], funcs);
    if |or| == 1 {
      AndSpelled(terms, ts, i, funcs);
      AndAtBound(terms, ts, i, i + |AndItems(terms)|);
    } else {
      var k := i + |AndItems(terms)|;
      HereSplit(ts, i, AndItems(terms), [Joiner(T.Or)] + OrItems(or[1..]));
      HereCons(ts, k, Joiner(T.Or), OrItems(or[1..]));
      AndSpelled(terms, ts, i, funcs);
      AndAtBound(terms, ts, i, k);
      OrSpelled(or[1..], ts, k + 1, funcs);
    }
  }

  lemma AndAtBound(es: seq<BasicExpr>, ts: Stream, i: nat, j: nat)
    requires AndAt(es, ts, i, j)
    ensures i < j < |ts|
  {
    hide BasicAt;
  }

  lemma {:induction false} AndSpelled(es: seq<BasicExpr>, ts: Stream, i: nat, funcs: Registry)
    requires es != [] && (forall k | 0 <= k < |es| :: WellTypedBasic(es[k], funcs)) && Here(ts, i, AndItems(es))
    ensures AndAt(es, ts, i, i + |AndItems(es)|)
    decreases es, 0
  {
    hide Here, BasicItems, BasicAt, WellTypedBasic, T.ValidSymbol;
    HereBound(ts, i, AndItems(es));
    if |es| == 1 {
      BasicSpelled(es[0], ts, i, funcs);
    } else {
      var k := i + |BasicItems(es[0])|;
      HereSplit(ts, i, BasicItems(es[0]), [Joiner(T.And)] + AndItems(es[1..]));
      HereCons(ts, k, Joiner(T.And), AndItems(es[1..]));
      BasicSpelled(es[0], ts, i, funcs);
      AndSpelled(es[1..], ts, k + 1, funcs);
    }
  }

  lemma {:induction false} GroupSpelled(or: LogicalOr, ts: Stream, i: nat, funcs: Registry)
    requires WellTypedOr(or, funcs) && Here(ts, i, [Plain(T.LeftParen)] + (OrItems(or) + [Plain(T.RightParen)]))
    ensures GroupAt(or, ts, i, i + |OrItems(or)| + 2)
    decreases or, 1
  {
    hide Here, OrItems, OrAt, WellTypedOr, T.ValidSymbol;
    HereCons(ts, i, Plain(T.LeftParen), OrItems(or) + [Plain(T.RightParen)]);
    HereSplit(ts, i + 1, OrItems(or), [Plain(T.RightParen)]);
    HereOne(ts, i + 1 + |OrItems(or)|, Plain(T.RightParen));
    OrSpelled(or, ts, i + 1, funcs);
    OrAtBound(or, ts, i + 1, i + 1 + |OrItems(or)|);
  }

  lemma OrAtBound(or: LogicalOr, ts: Stream, i: nat, j: nat)
    requires OrAt(or, ts, i, j)
    ensures i < j < |ts|
  {
    hide AndAt;
  }

  lemma OpSpelled(op: CompOp)
    ensures IsCompOp(OpKind(op)) && CompOpOf(OpKind(op)) == op
  {
  }

  lemma {:induction false} BasicSpelled(e: BasicExpr, ts: Stream, i: nat, funcs: Registry)
    requires WellTypedBasic(e, funcs) && Here(ts, i, BasicItems(e))
    ensures |BasicItems(e)| > 0 && BasicAt(e, ts, i, i + |BasicItems(e)|)
    decreases e, 1
  {
    hide Here, QueryItems, CallItems, OrItems, ComparandItems, QueryAt, CallAt, GroupAt, ComparandAt, OpKind;
    hide IsCompOp, CompOpOf, T.ValidSymbol;
    hide WellTypedQuery, WellTypedCall, WellTypedOr, WellTypedComparand;
    var j := i + |BasicItems(e)|;
    HereBound(ts, i, BasicItems(e));
    match e
    case Exist(q) =>
      QuerySpelled(q, ts, i, funcs);
      QueryAtBound(q, ts, i, j);
    case NonExist(q) =>
      HereCons(ts, i, Plain(T.Not), QueryItems(q));
      QuerySpelled(q, ts, i + 1, funcs);
    case Paren(or) => GroupSpelled(or, ts, i, funcs);
    case NotParen(or) =>
      HereCons(ts, i, Plain(T.Not), [Plain(T.LeftParen)] + (OrItems(or) + [Plain(T.RightParen)]));
      GroupSpelled(or, ts, i + 1, funcs);
    case Func(f) =>
      CallSpelled(f, ts, i, funcs);
      CallAtBound(f, ts, i, j);
    case NegFunc(f) =>
      HereCons(ts, i, Plain(T.Not), CallItems(f));
      CallSpelled(f, ts, i + 1, funcs);
    case Comp(l, op, r) =>
      CompSpelled(l, op, r, ts, i, funcs);
  }

  lemma CallAtBound(f: FuncExpr, ts: Stream, i: nat, j: nat)
    requires CallAt(f, ts, i, j)
    ensures i < j < |ts|
  {
    hide ArgsAt;
  }

  lemma {:induction false} CompSpelled(l: CompValue, op: CompOp, r: CompValue, ts: Stream, i: nat, funcs: Registry)
    requires WellTypedComparand(l, funcs) && WellTypedComparand(r, funcs) && Here(ts, i, BasicItems(Comp(l, op, r)))
    ensures BasicAt(Comp(l, op, r), ts, i, i + |BasicItems(Comp(l, op, r))|)
    decreases Comp(l, op, r), 0
  {
    hide Here, ComparandItems, ComparandAt, OpKind, IsCompOp, CompOpOf, WellTypedComparand, T.ValidSymbol;
    var k := i + |ComparandItems(l)|;
    HereSplit(ts, i, ComparandItems(l), [Joiner(OpKind(op))] + ComparandItems(r));
    HereCons(ts, k, Joiner(OpKind(op)), ComparandItems(r));
    OpSpelled(op);
    ComparandSpelled(l, ts, i, funcs);
    ComparandSpelled(r, ts, k + 1, funcs);
    ComparandBound(l, ts, i, k);
    ComparandBound(r, ts, k + 1, k + 1 + |ComparandItems(r)|);
    OperatorRead(op, ts, k);
    assert OpAt(op, ts, k);
  }

  lemma LiteralSpelled(l: Literal, ts: Stream, i: nat)
    requires i + 1 < |ts| && ts[i] == LiteralItem(l).sym
    ensures LiteralAt(l, ts, i, i + 1)
  {
    hide ScanNumber, T.ValidSymbol;
  }

  lemma {:induction false} ComparandSpelled(v: CompValue, ts: Stream, i: nat, funcs: Registry)
    requires WellTypedComparand(v, funcs) && Here(ts, i, ComparandItems(v))
    ensures ComparandAt(v, ts, i, i + |ComparandItems(v)|)
    decreases v, 0
  {
    hide Here, QueryItems, CallItems, LiteralItem, QueryAt, CallAt, LiteralAt, Singular, WellTypedQuery;
    hide WellTypedCall, T.ValidSymbol;
    match v
    case LiteralValue(l) =>
      HereOne(ts, i, LiteralItem(l));
      LiteralSpelled(l, ts, i);
    case QueryValue(q) => QuerySpelled(q, ts, i, funcs);
    case FuncValue(f) => CallSpelled(f, ts, i, funcs);
  }

  lemma {:induction false} CallSpelled(f: FuncExpr, ts: Stream, i: nat, funcs: Registry)
    requires WellTypedCall(f, funcs) && Here(ts, i, CallItems(f))
    ensures CallAt(f, ts, i, i + |CallItems(f)|)
    decreases f, 0
  {
    hide Here, ArgsItems, ArgsAt, WellTypedArg, T.ValidSymbol;
    var args := ArgsItems(f.args);
    HereCons(ts, i, Worded(T.Ident, f.name), [Plain(T.LeftParen)] + (args + [Plain(T.RightParen)]));
    HereCons(ts, i + 1, Plain(T.LeftParen), args + [Plain(T.RightParen)]);
    HereSplit(ts, i + 2, args, [Plain(T.RightParen)]);
    HereOne(ts, i + 2 + |args|, Plain(T.RightParen));
    if f.args == [] {
      EmptyItems();
    } else {
      ArgsSpelled(f.args, funcs[f.name].params, ts, i + 2, funcs);
    }
  }

  lemma {:induction false} ArgsSpelled(args: seq<FuncArg>, params: seq<FuncType>, ts: Stream, i: nat, funcs: Registry)
    requires args != [] && |args| == |params| && (forall k | 0 <= k < |args| :: WellTypedArg(args[k], params[k], funcs))
    requires Here(ts, i, ArgsItems(args))
    ensures ArgsAt(args, ts, i, i + |ArgsItems(args)|)
    decreases args, 0
  {
    hide Here, ArgItems, ArgAt, WellTypedArg, T.ValidSymbol;
    HereBound(ts, i, ArgsItems(args));
    var k := i + |ArgItems(args[0])|;
    if |args| == 1 {
      ArgSpelled(args[0], params[0], ts, i, funcs);
      ArgAtBound(args[0], ts, i, k);
    } else {
      HereSplit(ts, i, ArgItems(args[0]), [ArgComma()] + ArgsItems(args[1..]));
      HereCons(ts, k, ArgComma(), ArgsItems(args[1..]));
      ArgSpelled(args[0], params[0], ts, i, funcs);
      ArgAtBound(args[0], ts, i, k);
      ArgsSpelled(args[1..], params[1..], ts, k + 1, funcs);
    }
  }

  lemma ArgAtBound(a: FuncArg, ts: Stream, i: nat, j: nat)
    requires ArgAt(a, ts, i, j)
    ensures i < j < |ts|
  {
    hide SegmentsAt, ArgsAt, AndAt;
  }

  lemma {:induction false} ArgSpelled(a: FuncArg, param: FuncType, ts: Stream, i: nat, funcs: Registry)
    requires WellTypedArg(a, param, funcs) && Here(ts, i, ArgItems(a))
    ensures ArgAt(a, ts, i, i + |ArgItems(a)|)
    decreases a, 0
  {
    hide Here, QueryItems, CallItems, OrItems, LiteralItem, QueryAt, CallAt, OrAt, LiteralAt, T.ValidSymbol;
    hide Singular, WellTypedQuery, WellTypedCall, WellTypedOr;
    match a.source
    case LiteralArg(l) =>
      HereOne(ts, i, LiteralItem(l));
      LiteralSpelled(l, ts, i);
    case QueryArg(q) => QuerySpelled(q, ts, i, funcs);
    case LogicalArg(or) => OrSpelled(or, ts, i, funcs);
    case FunctionArg(f) => CallSpelled(f, ts, i, funcs);
  }

  // ---- The round trip

  /** Layer two: a stream of exactly the lexemes of a root query parses to the query. */
  lemma ItemsParse(q: PathQuery, ts: Stream, funcs: Registry)
    requires q.root && WellTypedQuery(q, funcs) && StreamIs(ts, QueryItems(q))
    ensures ParseQuery(ts, funcs) == Done(q, |QueryItems(q)|)
  {
    hide QueryItems, WellTypedQuery, ParseQuery, QueryAt, T.ValidSymbol;
    QuerySpelled(q, ts, 0, funcs);
    SpelledParses(q, ts, funcs);
  }

  lemma PrintedEdges(q: PathQuery)
    ensures !Layout.BlankEdge(Print(q))
  {
    hide Render, SegmentsItems;
    QueryText(q);
    SegmentsTextEnd(q.segments);
    var tail := Render(SegmentsItems(q.segments));
    if tail != "" {
      assert Print(q)[|Print(q)| - 1] == tail[|tail| - 1];
    }
  }

  /** The text of a segment ends with its bracket. */
  lemma {:induction false} SegmentsTextEnd(ss: seq<Segment>)
    ensures var text := Render(SegmentsItems(ss)); text != "" ==> text[|text| - 1] == ']'
    decreases |ss|
  {
    hide Render, SegmentItems;
    EmptyItems();
    if ss != [] {
      RenderConcat(SegmentItems(ss[0]), SegmentsItems(ss[1..]));
      SegmentEnd(ss[0]);
      SegmentsTextEnd(ss[1..]);
      var a, b := Render(SegmentItems(ss[0])), Render(SegmentsItems(ss[1..]));
      assert (a + b)[|a + b| - 1] == if b == "" then a[|a| - 1] else b[|b| - 1];
    }
  }

  lemma SegmentEnd(s: Segment)
    ensures var text := Render(SegmentItems(s)); text != "" && text[|text| - 1] == ']'
  {
    hide Render, SelectorsItems;
    var front := (if s.descendant then [Plain(T.DotDot)] else [])
      + ([Plain(T.LeftBracket)] + SelectorsItems(s.selectors));
    assert SegmentItems(s) == front + [Plain(T.RightBracket)];
    RenderConcat(front, [Plain(T.RightBracket)]);
    RenderOne(Plain(T.RightBracket));
  }

  /** Any layout of the lexemes of a query reads back to it: blank space between them and spelling do not matter. */
  lemma LaidOutParses(q: PathQuery, xs: seq<Item>, funcs: Registry)
    requires q.root && WellTypedQuery(q, funcs) && Chained(xs) && !Layout.BlankEdge(Render(xs))
    requires |xs| == |QueryItems(q)| && forall k | 0 <= k < |xs| :: xs[k].sym == QueryItems(q)[k].sym
    ensures Layout.ParseText(Render(xs), funcs) == Ok(q)
  {
    hide QueryItems, Render, Chained, WellTypedQuery, ParseQuery, Layout.Lexes, Layout.StreamOf, T.AllTokens;
    PrintedChain.QueryFirst(q);
    RenderingLexes(xs);
    ItemsParse(q, Layout.StreamOf(Render(xs)), funcs);
    Layout.LayoutIndependence(Render(xs), Render(xs), funcs);
  }

  /** Round trip: lexing and parsing the canonical text of a well-typed root query gives back exactly that query. */
  lemma PrintParses(q: PathQuery, funcs: Registry)
    requires q.root && WellTypedQuery(q, funcs) && Named(funcs)
    ensures Layout.ParseText(Print(q), funcs) == Ok(q)
  {
    hide QueryItems, Print, WellTypedQuery, Named, ParseQuery, Layout.Lexes, Layout.StreamOf, StreamIs, T.AllTokens;
    PrintedLexes(q, funcs);
    ItemsParse(q, Layout.StreamOf(Print(q)), funcs);
    PrintedEdges(q);
    Layout.LayoutIndependence(Print(q), Print(q), funcs);
  }

  /** Printing is idempotent through the parser: what any accepted source means survives printing and parsing again. */
  lemma ParsePrintParse(s: string, funcs: Registry)
    requires Named(funcs) && Layout.ParseText(s, funcs).Ok?
    ensures Layout.ParseText(Print(Layout.ParseText(s, funcs).value), funcs) == Layout.ParseText(s, funcs)
  {
    hide Print, WellTypedQuery, Named, ParseQuery, T.AllTokens, Layout.StreamOf;
    ParsedQueriesTyped(Layout.StreamOf(s), funcs);
    PrintParses(Layout.ParseText(s, funcs).value, funcs);
  }

  /** Two queries with the same canonical text are the same query. */
  lemma PrintInjective(p: PathQuery, q: PathQuery, funcs: Registry)
    requires p.root && q.root && WellTypedQuery(p, funcs) && WellTypedQuery(q, funcs) && Named(funcs)
    requires Print(p) == Print(q)
    ensures p == q
  {
    hide Print, WellTypedQuery, Named, Layout.ParseText;
    PrintParses(p, funcs);
    PrintParses(q, funcs);
  }
}
