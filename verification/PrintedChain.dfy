/** The items of every well-typed query form a chain, so its canonical text lexes to exactly its lexemes. */
module PrintedChain {
  import opened Common
  import opened Text
  import opened NumberText
  import T = Tokens
  import opened Syntax
  import opened StringGrammar
  import opened StringRoundTrip
  import opened Printing
  import opened LexPrinted
  import Buffers
  import Layout

  /** The names a parser option or a built-in may register. */
  predicate ValidFunctionName(name: string) {
    && name != "" && name != "true" && name != "false" && name != "null"
    && 'a' <= name[0] <= 'z'
    && forall i | 1 <= i < |name| :: 'a' <= name[i] <= 'z' || '0' <= name[i] <= '9' || name[i] == '_'
  }

  predicate Named(funcs: Registry) {
    forall name | name in funcs :: ValidFunctionName(name)
  }

  /** Function names are identifiers and no keyword. */
  lemma FunctionNameLexes(name: string)
    requires ValidFunctionName(name)
    ensures T.IsName(name) && T.NameKind(name) == T.Ident
  {
  }

  // ---- Joining items

  /** A chain whose first lexeme no blank space cuts off from the text before it. */
  predicate Tight(xs: seq<Item>) {
    Chained(xs) && (xs == [] || !xs[0].sym.gap)
  }

  /** A character that continues no token. */
  predicate Stops(c: char) {
    !T.IsNameChar(c) && c != '.' && c != '='
  }

  /** An item that may follow any item but a dot or a name. */
  predicate Separate(y: Item) {
    y.before != "" || (y.raw != "" && Stops(y.raw[0]))
  }

  predicate Loose(xs: seq<Item>) {
    Tight(xs) && (xs == [] || Separate(xs[0]))
  }

  /** Kinds whose tokens end by themselves. */
  predicate Free(k: T.Kind) {
    !T.HasRawText(k) && k != T.Dot && k != T.DotDot && k != T.Not && k != T.Less && k != T.Greater
  }

  predicate Snug(k: T.Kind) {
    k == T.Dot || k == T.DotDot || k == T.Ident
  }

  lemma ChainCons(x: Item, xs: seq<Item>)
    requires ItemOk(x) && !x.sym.gap && Tight(xs) && (xs != [] ==> Joined(x, xs[0]))
    ensures Tight([x] + xs)
  {
    hide ItemOk, Joined;
    assert ([x] + xs)[1..] == xs;
    assert forall k | 0 < k < |xs| + 1 :: ([x] + xs)[k] == xs[k - 1];
  }

  lemma TightFirst(xs: seq<Item>)
    requires Tight(xs) && xs != []
    ensures ItemOk(xs[0]) && !xs[0].sym.gap
  {
    hide ItemOk, Joined;
  }

  lemma FreeJoined(x: Item, y: Item)
    requires y.raw != "" && !y.sym.gap && !Snug(x.sym.kind) && (x.after != "" || Free(x.sym.kind))
    ensures Joined(x, y)
  {
  }

  lemma LooseJoined(x: Item, y: Item)
    requires Separate(y) && !y.sym.gap && !Snug(x.sym.kind)
    ensures Joined(x, y)
  {
  }

  lemma ItemSpelled(x: Item)
    requires ItemOk(x)
    ensures x.raw != ""
  {
    hide T.TokenAt;
  }

  lemma FreeCons(x: Item, xs: seq<Item>)
    requires ItemOk(x) && !x.sym.gap && !Snug(x.sym.kind) && (x.after != "" || Free(x.sym.kind)) && Tight(xs)
    ensures Tight([x] + xs)
  {
    hide ItemOk, Tight, Joined, Free;
    if xs != [] {
      TightFirst(xs);
      ItemSpelled(xs[0]);
      FreeJoined(x, xs[0]);
    }
    ChainCons(x, xs);
  }

  lemma LooseCons(x: Item, xs: seq<Item>)
    requires ItemOk(x) && !x.sym.gap && !Snug(x.sym.kind) && Loose(xs)
    ensures Tight([x] + xs)
  {
    hide ItemOk, Joined, Separate, Chained;
    if xs != [] {
      LooseJoined(x, xs[0]);
    }
    ChainCons(x, xs);
  }

  // ---- The items of the printer

  /** The one-character tokens. */
  predicate Single(k: T.Kind) {
    || k == T.Dollar || k == T.At_ || k == T.LeftBracket || k == T.RightBracket || k == T.LeftParen
    || k == T.RightParen || k == T.Star || k == T.Question || k == T.Comma || k == T.Colon
  }

  /** The tokens with one spelling. */
  predicate Mark(k: T.Kind) {
    MarkText(k) != ""
  }

  /** A token that one character decides. */
  lemma OneCharacter(s: string)
    requires s != "" && T.SimpleKind(s[0]).Some?
    ensures T.TokenAt(s, 0) == T.Token(T.SimpleKind(s[0]).value, 0, 1, "")
  {
    hide T.SimpleKind;
  }

  /** A token that a second character decides. */
  lemma TwoCharacters(s: string)
    requires s != "" && T.SimpleKind(s[0]).None? && T.DoubleKind(s[0]).Some?
    ensures var (second, both, alone) := T.DoubleKind(s[0]).value;
            T.TokenAt(s, 0) == if |s| > 1 && s[1] == second then T.Token(both, 0, 2, "") else T.Token(alone, 0, 1, "")
  {
    hide T.SimpleKind, T.DoubleKind;
  }

  lemma SingleLexes(k: T.Kind)
    requires Single(k)
    ensures LexesAs(MarkText(k), T.Symbol(k, "", false))
  {
    hide T.TokenAt;
    OneCharacter(MarkText(k));
  }

  lemma DoubleLexes(k: T.Kind)
    requires Mark(k) && !Single(k)
    ensures LexesAs(MarkText(k), T.Symbol(k, "", false))
  {
    hide T.TokenAt;
    TwoCharacters(MarkText(k));
  }

  lemma MarkLexes(k: T.Kind)
    requires Mark(k)
    ensures LexesAs(MarkText(k), T.Symbol(k, "", false))
  {
    hide LexesAs, Mark, Single, MarkText;
    if Single(k) {
      SingleLexes(k);
    } else {
      DoubleLexes(k);
    }
  }

  lemma MarkOk(k: T.Kind)
    requires Mark(k)
    ensures ItemOk(Plain(k)) && ItemOk(Joiner(k))
  {
    hide LexesAs;
    MarkLexes(k);
  }

  lemma SingleFacts(k: T.Kind)
    requires Single(k)
    ensures Mark(k) && Free(k) && !Snug(k) && Separate(Plain(k))
  {
  }

  lemma TightLoose(x: Item, xs: seq<Item>)
    requires Tight([x] + xs) && Separate(x)
    ensures Loose([x] + xs)
  {
    hide Chained, Separate;
  }

  lemma SingleCons(k: T.Kind, xs: seq<Item>)
    requires Single(k) && Tight(xs)
    ensures Loose([Plain(k)] + xs)
  {
    hide Tight, Free, Separate, Single, ItemOk, Loose, Mark;
    SingleFacts(k);
    MarkOk(k);
    FreeCons(Plain(k), xs);
    TightLoose(Plain(k), xs);
  }

  /** An operator between two blanks. */
  lemma JoinerCons(k: T.Kind, xs: seq<Item>)
    requires Mark(k) && !Snug(k) && Tight(xs)
    ensures Loose([Joiner(k)] + xs)
  {
    hide Tight, ItemOk, Loose, Mark, Snug;
    MarkOk(k);
    FreeCons(Joiner(k), xs);
    TightLoose(Joiner(k), xs);
  }

  lemma ArgCommaCons(xs: seq<Item>)
    requires Tight(xs)
    ensures Loose([ArgComma()] + xs)
  {
    hide Tight, LexesAs, Loose;
    MarkLexes(T.Comma);
    FreeCons(ArgComma(), xs);
    TightLoose(ArgComma(), xs);
  }

  /** An item that does not make `!=` of a `!` before it. */
  predicate Negatable(x: Item) {
    x.raw != "" && x.raw[0] != '='
  }

  lemma NotCons(xs: seq<Item>)
    requires Tight(xs) && xs != [] && Negatable(xs[0])
    ensures Tight([Plain(T.Not)] + xs)
  {
    hide Tight, ItemOk;
    TightFirst(xs);
    MarkOk(T.Not);
    ChainCons(Plain(T.Not), xs);
  }

  lemma DescendantCons(xs: seq<Item>)
    requires Tight(xs) && xs != [] && xs[0] == Plain(T.LeftBracket)
    ensures Tight([Plain(T.DotDot)] + xs)
  {
    hide Tight, ItemOk;
    MarkOk(T.DotDot);
    ChainCons(Plain(T.DotDot), xs);
  }

  /** A name on its own is one token of its kind. */
  lemma NameLexes(name: string)
    requires T.IsName(name)
    ensures LexesAs(name, T.Symbol(T.NameKind(name), name, false))
  {
    hide T.TokenAt, T.NameKind, T.IsNameChar, T.IsNameFirst, T.HasRawText, IsMark;
    NameStart(name, 0);
    NameEndUnique(name, 1, |name|);
    Layout.NameKinds(name);
    assert name[0..|name|] == name;
  }

  lemma NameCons(name: string, xs: seq<Item>)
    requires ValidFunctionName(name) && Tight(xs) && xs != [] && xs[0] == Plain(T.LeftParen)
    ensures Tight([Worded(T.Ident, name)] + xs)
  {
    hide Tight, ValidFunctionName, LexesAs, T.IsName, T.NameKind;
    FunctionNameLexes(name);
    NameLexes(name);
    ChainCons(Worded(T.Ident, name), xs);
  }

  /** A number on its own is one token. */
  lemma NumberLexes(text: string)
    requires IsNumberText(text)
    ensures LexesAs(text, T.Symbol(if ScanNumber(text, 0).float then T.Number else T.Int, text, false))
  {
    hide T.TokenAt, ScanNumber, IsMark, IsQuote;
    NumberFirst(text);
    NumberStart(text, 0);
    assert text[0..|text|] == text;
  }

  lemma NumberFirst(text: string)
    requires IsNumberText(text)
    ensures text[0] == '-' || IsDigit(text[0])
  {
    hide ScanFraction;
  }

  lemma IntOk(n: int)
    ensures ItemOk(IntItem(n))
  {
    hide ScanNumber, IntText, IsNumberText, LexesAs;
    IntTextIsNumber(n);
    NumberLexes(IntText(n));
  }

  /** A quoted literal on its own is one string token with its content. */
  lemma QuotationOk(text: string, quote: char)
    requires IsQuote(quote)
    ensures ItemOk(Quotation(text, quote))
  {
    hide T.TokenAt, T.DecodeString, Buffers.Escaped, IsMark, IsQuote, T.IsBlank;
    var raw := Buffers.Quoted(text, quote);
    var body := Buffers.Escaped(text, quote) + [quote];
    assert raw == [quote] + body && raw[1..] == body;
    StringStart(raw, 0);
    EscapedDecodes(raw, 1, text, quote);
  }

  lemma LiteralOk(l: Literal)
    ensures ItemOk(LiteralItem(l)) && !Snug(LiteralItem(l).sym.kind) && !LiteralItem(l).sym.gap
  {
    hide ScanNumber, LexesAs, Quotation;
    match l
    case StringLiteral(s) =>
      QuotationOk(s, '"');
      QuotationKind(s);
    case NumberLiteral(text) => NumberLexes(text);
    case BoolLiteral(_) =>
      KeywordNames();
      NameLexes("true");
      NameLexes("false");
    case NullLiteral =>
      KeywordNames();
      NameLexes("null");
  }

  lemma QuotationKind(s: string)
    ensures Quotation(s, '"').sym.kind == T.String && !Quotation(s, '"').sym.gap
  {
  }

  lemma KeywordNames()
    ensures T.IsName("true") && T.IsName("false") && T.IsName("null")
  {
  }

  // ---- Each construct before a loose chain

  lemma Regroup(a: seq<Item>, b: seq<Item>, c: seq<Item>)
    ensures (a + b) + c == a + (b + c)
  {
  }

  lemma {:induction false} QueryChain(q: PathQuery, rest: seq<Item>, funcs: Registry)
    requires WellTypedQuery(q, funcs) && Named(funcs) && Loose(rest)
    ensures Tight(QueryItems(q) + rest) && QueryItems(q) != [] && Negatable(QueryItems(q)[0])
    decreases q, 0
  {
    hide Loose, Tight, SegmentsItems, WellTypedSegments, Named;
    var k := if q.root then T.Dollar else T.At_;
    SegmentsChain(q.segments, rest, funcs);
    Regroup([Plain(k)], SegmentsItems(q.segments), rest);
    SingleCons(k, SegmentsItems(q.segments) + rest);
    LooseTight([Plain(k)] + (SegmentsItems(q.segments) + rest));
  }

  lemma LooseTight(xs: seq<Item>)
    requires Loose(xs)
    ensures Tight(xs)
  {
  }

  lemma LooseEmpty()
    ensures Loose([])
  {
  }

  lemma {:induction false} SegmentsChain(ss: seq<Segment>, rest: seq<Item>, funcs: Registry)
    requires WellTypedSegments(ss, funcs) && Named(funcs) && Loose(rest)
    ensures Tight(SegmentsItems(ss) + rest)
    decreases ss, 0
  {
    hide Tight, SegmentItems, WellTypedSegment, Named, Stops;
    if ss == [] {
      assert SegmentsItems(ss) + rest == rest;
    } else {
      SegmentsChain(ss[1..], rest, funcs);
      Regroup(SegmentItems(ss[0]), SegmentsItems(ss[1..]), rest);
      SegmentChain(ss[0], SegmentsItems(ss[1..]) + rest, funcs);
    }
  }

  lemma {:induction false} SegmentChain(s: Segment, rest: seq<Item>, funcs: Registry)
    requires WellTypedSegment(s, funcs) && Named(funcs) && Tight(rest)
    ensures Tight(SegmentItems(s) + rest)
    decreases s, 0
  {
    hide Loose, Tight, SelectorsItems, WellTypedSelectors, Named;
    var close := [Plain(T.RightBracket)] + rest;
    var inner := SelectorsItems(s.selectors) + close;
    SingleCons(T.RightBracket, rest);
    SelectorsChain(s.selectors, close, funcs);
    SingleCons(T.LeftBracket, inner);
    LooseTight([Plain(T.LeftBracket)] + inner);
    DescendantCons([Plain(T.LeftBracket)] + inner);
    Regroup(SelectorsItems(s.selectors), [Plain(T.RightBracket)], rest);
    var body := SelectorsItems(s.selectors) + [Plain(T.RightBracket)];
    Regroup([Plain(T.LeftBracket)], body, rest);
    if s.descendant {
      Regroup([Plain(T.DotDot)], [Plain(T.LeftBracket)] + body, rest);
    } else {
      assert [] + ([Plain(T.LeftBracket)] + body) == [Plain(T.LeftBracket)] + body;
    }
  }

  lemma {:induction false} SelectorsChain(ss: seq<Selector>, rest: seq<Item>, funcs: Registry)
    requires ss != [] && WellTypedSelectors(ss, funcs) && Named(funcs) && Loose(rest)
    ensures Tight(SelectorsItems(ss) + rest)
    decreases ss, 0
  {
    hide Loose, Tight, SelectorItems, WellTypedSelector, Named;
    if |ss| == 1 {
      SelectorChain(ss[0], rest, funcs);
    } else {
      var more := SelectorsItems(ss[1..]) + rest;
      SelectorsChain(ss[1..], rest, funcs);
      SingleCons(T.Comma, more);
      SelectorChain(ss[0], [Plain(T.Comma)] + more, funcs);
      Regroup(SelectorItems(ss[0]), [Plain(T.Comma)] + SelectorsItems(ss[1..]), rest);
      Regroup([Plain(T.Comma)], SelectorsItems(ss[1..]), rest);
    }
  }

  lemma {:induction false} SelectorChain(s: Selector, rest: seq<Item>, funcs: Registry)
    requires WellTypedSelector(s, funcs) && Named(funcs) && Loose(rest)
    ensures Tight(SelectorItems(s) + rest)
    decreases s, 0
  {
    hide Loose, Tight, SliceItems, OrItems, WellTypedOr, Named, ItemOk, IntItem;
    match s
    case Name(name) =>
      QuotationOk(name, '"');
      LooseCons(Quotation(name, '"'), rest);
    case Index(index) =>
      IntCons(index, rest);
    case Slice(args) =>
      SliceChain(args, rest);
    case Wildcard =>
      LooseTight(rest);
      SingleCons(T.Star, rest);
      LooseTight([Plain(T.Star)] + rest);
    case Filter(expr) =>
      OrChain(expr, rest, funcs);
      SingleCons(T.Question, OrItems(expr) + rest);
      LooseTight([Plain(T.Question)] + (OrItems(expr) + rest));
      Regroup([Plain(T.Question)], OrItems(expr), rest);
  }

  lemma IntCons(n: int, rest: seq<Item>)
    requires Loose(rest)
    ensures Tight([IntItem(n)] + rest)
  {
    hide Loose, Tight, ItemOk, IntText;
    IntOk(n);
    LooseCons(IntItem(n), rest);
  }

  lemma OptionalIntCons(n: Option<JsonInteger>, rest: seq<Item>)
    requires Loose(rest)
    ensures Tight((if n.Some? then [IntItem(n.value)] else []) + rest)
  {
    hide Loose, Tight, IntItem;
    if n.Some? {
      IntCons(n.value, rest);
    } else {
      assert [] + rest == rest;
      LooseTight(rest);
    }
  }

  function StepItems(n: Option<JsonInteger>): seq<Item> {
    if n.Some? then [Plain(T.Colon), IntItem(n.value)] else []
  }

  lemma StepCons(n: Option<JsonInteger>, rest: seq<Item>)
    requires Loose(rest)
    ensures Loose(StepItems(n) + rest)
  {
    hide Loose, Tight, IntItem;
    if n.Some? {
      IntCons(n.value, rest);
      SingleCons(T.Colon, [IntItem(n.value)] + rest);
      assert StepItems(n) + rest == [Plain(T.Colon)] + ([IntItem(n.value)] + rest);
    } else {
      assert StepItems(n) + rest == rest;
    }
  }

  lemma SliceChain(a: SliceArgs, rest: seq<Item>)
    requires Loose(rest)
    ensures Tight(SliceItems(a) + rest)
  {
    hide Loose, Tight, IntItem, StepItems;
    var step := StepItems(a.step);
    var end := if a.end.Some? then [IntItem(a.end.value)] else [];
    var start := if a.start.Some? then [IntItem(a.start.value)] else [];
    StepCons(a.step, rest);
    OptionalIntCons(a.end, step + rest);
    SingleCons(T.Colon, end + (step + rest));
    OptionalIntCons(a.start, [Plain(T.Colon)] + (end + (step + rest)));
    SliceShape(a);
    Regroup(end, step, rest);
    Regroup([Plain(T.Colon)], end + step, rest);
    Regroup(start, [Plain(T.Colon)] + (end + step), rest);
  }

  lemma SliceShape(a: SliceArgs)
    ensures SliceItems(a)
         == (if a.start.Some? then [IntItem(a.start.value)] else [])
            + ([Plain(T.Colon)] + ((if a.end.Some? then [IntItem(a.end.value)] else []) + StepItems(a.step)))
  {
    hide IntItem;
  }

  lemma {:induction false} OrChain(or: LogicalOr, rest: seq<Item>, funcs: Registry)
    requires WellTypedOr(or, funcs) && Named(funcs) && Loose(rest)
    ensures Tight(OrItems(or) + rest) && OrItems(or) != []
    decreases or, 0
  {
    hide Loose, Tight, AndItems, WellTypedAnd, Named;
    AndTerms(or[0], funcs);
    if |or| == 1 {
      AndChain(or[0].terms, rest, funcs);
    } else {
      var more := OrItems(or[1..]) + rest;
      OrChain(or[1..], rest, funcs);
      JoinerCons(T.Or, more);
      AndChain(or[0].terms, [Joiner(T.Or)] + more, funcs);
      Regroup(AndItems(or[0].terms), [Joiner(T.Or)] + OrItems(or[1..]), rest);
      Regroup([Joiner(T.Or)], OrItems(or[1..]), rest);
    }
  }

  lemma {:induction false} AndChain(es: seq<BasicExpr>, rest: seq<Item>, funcs: Registry)
    requires es != [] && (forall i | 0 <= i < |es| :: WellTypedBasic(es[i], funcs)) && Named(funcs) && Loose(rest)
    ensures Tight(AndItems(es) + rest) && AndItems(es) != []
    decreases es, 0
  {
    hide Loose, Tight, BasicItems, WellTypedBasic, Named;
    if |es| == 1 {
      BasicChain(es[0], rest, funcs);
    } else {
      var more := AndItems(es[1..]) + rest;
      AndChain(es[1..], rest, funcs);
      JoinerCons(T.And, more);
      BasicChain(es[0], [Joiner(T.And)] + more, funcs);
      Regroup(BasicItems(es[0]), [Joiner(T.And)] + AndItems(es[1..]), rest);
      Regroup([Joiner(T.And)], AndItems(es[1..]), rest);
    }
  }

  lemma {:induction false} GroupChain(or: LogicalOr, rest: seq<Item>, funcs: Registry)
    requires WellTypedOr(or, funcs) && Named(funcs) && Loose(rest)
    ensures Tight([Plain(T.LeftParen)] + (OrItems(or) + [Plain(T.RightParen)]) + rest)
    decreases or, 1
  {
    hide Loose, Tight, OrItems, WellTypedOr, Named;
    LooseTight(rest);
    SingleCons(T.RightParen, rest);
    OrChain(or, [Plain(T.RightParen)] + rest, funcs);
    SingleCons(T.LeftParen, OrItems(or) + ([Plain(T.RightParen)] + rest));
    LooseTight([Plain(T.LeftParen)] + (OrItems(or) + ([Plain(T.RightParen)] + rest)));
    Regroup(OrItems(or), [Plain(T.RightParen)], rest);
    Regroup([Plain(T.LeftParen)], OrItems(or) + [Plain(T.RightParen)], rest);
  }

  lemma NegatedChain(xs: seq<Item>, rest: seq<Item>)
    requires Tight(xs + rest) && xs != [] && Negatable(xs[0])
    ensures Tight([Plain(T.Not)] + xs + rest)
  {
    hide Tight, Negatable;
    NotCons(xs + rest);
    Regroup([Plain(T.Not)], xs, rest);
  }

  lemma {:induction false} BasicChain(e: BasicExpr, rest: seq<Item>, funcs: Registry)
    requires WellTypedBasic(e, funcs) && Named(funcs) && Loose(rest)
    ensures Tight(BasicItems(e) + rest) && BasicItems(e) != []
    decreases e, 0
  {
    hide Loose, Tight, QueryItems, CallItems, OrItems, ComparandItems, OpKind, Negatable, Plain;
    hide WellTypedQuery, WellTypedCall, WellTypedOr, WellTypedComparand, Named;
    match e
    case Exist(q) =>
      QueryChain(q, rest, funcs);
    case NonExist(q) =>
      QueryChain(q, rest, funcs);
      NegatedChain(QueryItems(q), rest);
    case Paren(or) =>
      GroupChain(or, rest, funcs);
    case NotParen(or) =>
      GroupChain(or, rest, funcs);
      ParenNegatable();
      NegatedChain([Plain(T.LeftParen)] + (OrItems(or) + [Plain(T.RightParen)]), rest);
    case Func(f) =>
      CallChain(f, rest, funcs);
    case NegFunc(f) =>
      CallChain(f, rest, funcs);
      NegatedChain(CallItems(f), rest);
    case Comp(l, op, r) =>
      ComparandChain(r, rest, funcs);
      var more := ComparandItems(r) + rest;
      OpJoiner(op);
      JoinerCons(OpKind(op), more);
      ComparandChain(l, [Joiner(OpKind(op))] + more, funcs);
      Regroup(ComparandItems(l), [Joiner(OpKind(op))] + ComparandItems(r), rest);
      Regroup([Joiner(OpKind(op))], ComparandItems(r), rest);
  }

  lemma ParenNegatable()
    ensures Negatable(Plain(T.LeftParen))
  {
  }

  lemma OpJoiner(op: CompOp)
    ensures Mark(OpKind(op)) && !Snug(OpKind(op))
  {
  }

  lemma LiteralChain(l: Literal, rest: seq<Item>)
    requires Loose(rest)
    ensures Tight([LiteralItem(l)] + rest)
  {
    hide Loose, Tight, ItemOk, LiteralItem;
    LiteralOk(l);
    LooseCons(LiteralItem(l), rest);
  }

  lemma {:induction false} ComparandChain(v: CompValue, rest: seq<Item>, funcs: Registry)
    requires WellTypedComparand(v, funcs) && Named(funcs) && Loose(rest)
    ensures Tight(ComparandItems(v) + rest) && ComparandItems(v) != []
    decreases v, 0
  {
    hide Loose, Tight, QueryItems, CallItems, LiteralItem, WellTypedQuery, WellTypedCall, Named, Singular, Negatable;
    match v
    case LiteralValue(l) => LiteralChain(l, rest);
    case QueryValue(q) => QueryChain(q, rest, funcs);
    case FuncValue(f) => CallChain(f, rest, funcs);
  }

  lemma NameNegatable(name: string)
    requires ValidFunctionName(name)
    ensures Negatable(Worded(T.Ident, name))
  {
  }

  lemma {:induction false} CallChain(f: FuncExpr, rest: seq<Item>, funcs: Registry)
    requires WellTypedCall(f, funcs) && Named(funcs) && Loose(rest)
    ensures Tight(CallItems(f) + rest) && CallItems(f) != [] && Negatable(CallItems(f)[0])
    decreases f, 0
  {
    hide Loose, Tight, ArgsItems, WellTypedArg, ValidFunctionName;
    var close := [Plain(T.RightParen)] + rest;
    NameNegatable(f.name);
    LooseTight(rest);
    SingleCons(T.RightParen, rest);
    ArgsChain(f.args, funcs[f.name].params, close, funcs);
    SingleCons(T.LeftParen, ArgsItems(f.args) + close);
    LooseTight([Plain(T.LeftParen)] + (ArgsItems(f.args) + close));
    NameCons(f.name, [Plain(T.LeftParen)] + (ArgsItems(f.args) + close));
    Regroup(ArgsItems(f.args), [Plain(T.RightParen)], rest);
    var body := ArgsItems(f.args) + [Plain(T.RightParen)];
    Regroup([Plain(T.LeftParen)], body, rest);
    Regroup([Worded(T.Ident, f.name)], [Plain(T.LeftParen)] + body, rest);
  }

  lemma {:induction false} ArgsChain(args: seq<FuncArg>, params: seq<FuncType>, rest: seq<Item>, funcs: Registry)
    requires |args| == |params| && (forall i | 0 <= i < |args| :: WellTypedArg(args[i], params[i], funcs))
    requires Named(funcs) && Loose(rest)
    ensures Tight(ArgsItems(args) + rest)
    ensures args != [] ==> ArgsItems(args) != []
    decreases args, 0
  {
    hide Loose, Tight, ArgItems, WellTypedArg, Named;
    if args == [] {
      assert ArgsItems(args) + rest == rest;
      LooseTight(rest);
    } else if |args| == 1 {
      ArgChain(args[0], params[0], rest, funcs);
    } else {
      var more := ArgsItems(args[1..]) + rest;
      ArgsChain(args[1..], params[1..], rest, funcs);
      ArgCommaCons(more);
      ArgChain(args[0], params[0], [ArgComma()] + more, funcs);
      Regroup(ArgItems(args[0]), [ArgComma()] + ArgsItems(args[1..]), rest);
      Regroup([ArgComma()], ArgsItems(args[1..]), rest);
    }
  }

  lemma {:induction false} ArgChain(a: FuncArg, param: FuncType, rest: seq<Item>, funcs: Registry)
    requires WellTypedArg(a, param, funcs) && Named(funcs) && Loose(rest)
    ensures Tight(ArgItems(a) + rest) && ArgItems(a) != []
    decreases a, 0
  {
    hide Loose, Tight, QueryItems, CallItems, OrItems, LiteralItem, WellTypedQuery, WellTypedCall;
    hide WellTypedOr, Named, Negatable;
    match a.source
    case LiteralArg(l) => LiteralChain(l, rest);
    case QueryArg(q) => QueryChain(q, rest, funcs);
    case LogicalArg(or) => OrChain(or, rest, funcs);
    case FunctionArg(f) => CallChain(f, rest, funcs);
  }

  /** The canonical text of a well-typed query lexes to exactly the lexemes it prints. */
  lemma PrintedLexes(q: PathQuery, funcs: Registry)
    requires WellTypedQuery(q, funcs) && Named(funcs)
    ensures Layout.Lexes(Print(q)) && StreamIs(Layout.StreamOf(Print(q)), QueryItems(q))
  {
    hide Tight, WellTypedQuery, Named, Negatable, StreamIs, Layout.Lexes, Layout.StreamOf;
    LooseEmpty();
    QueryChain(q, [], funcs);
    assert QueryItems(q) + [] == QueryItems(q);
    QueryFirst(q);
    TightChained(QueryItems(q));
    RenderingLexes(QueryItems(q));
  }

  lemma TightChained(xs: seq<Item>)
    requires Tight(xs)
    ensures Chained(xs)
  {
  }

  lemma QueryFirst(q: PathQuery)
    ensures QueryItems(q)[0] == Plain(if q.root then T.Dollar else T.At_)
  {
    hide SegmentsItems;
  }
}
