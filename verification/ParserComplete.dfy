/** Completeness of the parser: lexemes that spell a well-typed query parse to it, in whatever shorthand. */
module ParserComplete {
  import opened Common
  import opened Text
  import T = Tokens
  import opened Syntax
  import opened Grammar
  import opened Spelling

  // ---- What may follow a construct

  predicate EndsQuery(k: T.Kind) {
    k != T.DotDot && k != T.LeftBracket && k != T.Dot
  }

  predicate EndsSelector(k: T.Kind) {
    k == T.Comma || k == T.RightBracket
  }

  predicate EndsOr(k: T.Kind) {
    k == T.Comma || k == T.RightBracket || k == T.RightParen
  }

  predicate EndsAnd(k: T.Kind) {
    EndsOr(k) || k == T.Or
  }

  predicate EndsArg(k: T.Kind) {
    k == T.Comma || k == T.RightParen
  }

  predicate EndsBasic(k: T.Kind) {
    EndsAnd(k) || k == T.And
  }

  // ---- Queries and segments

  lemma {:induction false} QueryParses(q: PathQuery, ts: Stream, i: nat, j: nat, funcs: Registry)
    requires QueryAt(q, ts, i, j) && WellTypedQuery(q, funcs) && EndsQuery(ts[j].kind)
    ensures ParseFilterQuery(ts, i, funcs) == Done(q, j)
    ensures ts[i].kind == T.Dollar || ts[i].kind == T.At_
    decreases q, 0
  {
    hide SegmentsAt, ParseSegments, WellTypedSegments, T.ValidSymbol;
    SegmentsParse(q.segments, ts, i + 1, j, funcs);
  }

  lemma {:induction false} SegmentsParse(ss: seq<Segment>, ts: Stream, i: nat, j: nat, funcs: Registry)
    requires SegmentsAt(ss, ts, i, j) && WellTypedSegments(ss, funcs) && EndsQuery(ts[j].kind)
    ensures ParseSegments(ts, i, funcs) == Done(ss, j)
    decreases ss, 0
  {
    hide SegmentAt, ParseSegments, WellTypedSegment, T.ValidSymbol;
    if ss == [] {
      SegmentsEnd(ts, i, funcs);
    } else {
      var k :| i < k <= j && SegmentAt(ss[0], ts, i, k) && SegmentsAt(ss[1..], ts, k, j);
      SegmentsParse(ss[1..], ts, k, j, funcs);
      SegmentParses(ss[0], ss[1..], ts, i, k, j, funcs);
      assert [ss[0]] + ss[1..] == ss;
    }
  }

  lemma SegmentsEnd(ts: Stream, i: nat, funcs: Registry)
    requires i < |ts| && EndsQuery(ts[i].kind)
    ensures ParseSegments(ts, i, funcs) == Done([], i)
  {
    hide T.ValidSymbol;
  }

  lemma DescendantSegment(s: Segment, rest: seq<Segment>, ts: Stream, i: nat, k: nat, j: nat, funcs: Registry)
    requires i + 1 < |ts| && ts[i].kind == T.DotDot && ParseDescendant(ts, i + 1, funcs) == Done(s, k)
    requires ParseSegments(ts, k, funcs) == Done(rest, j)
    ensures ParseSegments(ts, i, funcs) == Done([s] + rest, j)
  {
    hide ParseDescendant, T.ValidSymbol;
  }

  lemma BracketedSegment(ss: seq<Selector>, rest: seq<Segment>, ts: Stream, i: nat, k: nat, j: nat, funcs: Registry)
    requires i + 1 < |ts| && ts[i].kind == T.LeftBracket && ParseBracketed(ts, i + 1, funcs) == Done(ss, k)
    requires ParseSegments(ts, k, funcs) == Done(rest, j)
    ensures ParseSegments(ts, i, funcs) == Done([Segment(ss, false)] + rest, j)
  {
    hide ParseBracketed, T.ValidSymbol;
  }

  lemma DotSegment(s: Selector, rest: seq<Segment>, ts: Stream, i: nat, k: nat, j: nat, funcs: Registry)
    requires i + 1 < |ts| && ts[i].kind == T.Dot && ParseDotChild(ts, i + 1) == Done(s, k)
    requires ParseSegments(ts, k, funcs) == Done(rest, j)
    ensures ParseSegments(ts, i, funcs) == Done([Segment([s], false)] + rest, j)
  {
    hide ParseDotChild, T.ValidSymbol;
  }

  lemma ShorthandParses(ss: seq<Selector>, ts: Stream, i: nat, j: nat, funcs: Registry)
    requires ShorthandAt(ss, ts, i, j) && !ts[i].gap
    ensures ParseDotChild(ts, i) == Done(ss[0], j) && ParseDescendant(ts, i, funcs) == Done(Segment(ss, true), j)
  {
    hide ParseBracketed, T.ValidSymbol;
    assert [ss[0]] == ss;
  }

  lemma DescendantBrackets(ss: seq<Selector>, ts: Stream, i: nat, j: nat, funcs: Registry)
    requires i + 1 < |ts| && ts[i].kind == T.LeftBracket && !ts[i].gap
             && ParseBracketed(ts, i + 1, funcs) == Done(ss, j)
    ensures ParseDescendant(ts, i, funcs) == Done(Segment(ss, true), j)
  {
    hide ParseBracketed, T.ValidSymbol;
  }

  /** A spelled segment before segments that parse. */
  lemma {:induction false} SegmentParses(s: Segment, rest: seq<Segment>, ts: Stream, i: nat, k: nat, j: nat,
      funcs: Registry)
    requires SegmentAt(s, ts, i, k) && WellTypedSegment(s, funcs) && ParseSegments(ts, k, funcs) == Done(rest, j)
    ensures ParseSegments(ts, i, funcs) == Done([s] + rest, j)
    decreases s, 1
  {
    hide BracketedAt, ShorthandAt, ParseSegments, ParseDescendant, ParseBracketed, ParseDotChild;
    hide WellTypedSelectors, T.ValidSymbol;
    var ss := s.selectors;
    if s.descendant {
      if BracketedAt(ss, ts, i + 1, k) {
        BracketedParses(ss, ts, i + 1, k, funcs);
        DescendantBrackets(ss, ts, i + 1, k, funcs);
      } else {
        ShorthandParses(ss, ts, i + 1, k, funcs);
      }
      DescendantSegment(s, rest, ts, i, k, j, funcs);
    } else if BracketedAt(ss, ts, i, k) {
      BracketedParses(ss, ts, i, k, funcs);
      BracketedSegment(ss, rest, ts, i, k, j, funcs);
    } else {
      ShorthandParses(ss, ts, i + 1, k, funcs);
      OneShorthand(ss, ts, i + 1, k);
      DotSegment(ss[0], rest, ts, i, k, j, funcs);
    }
  }

  lemma OneShorthand(ss: seq<Selector>, ts: Stream, i: nat, j: nat)
    requires ShorthandAt(ss, ts, i, j)
    ensures |ss| == 1 && ss == [ss[0]]
  {
  }

  // ---- Selectors

  lemma {:induction false} BracketedParses(ss: seq<Selector>, ts: Stream, i: nat, j: nat, funcs: Registry)
    requires BracketedAt(ss, ts, i, j) && WellTypedSelectors(ss, funcs)
    ensures ts[i].kind == T.LeftBracket && i + 1 < |ts| && ParseBracketed(ts, i + 1, funcs) == Done(ss, j)
    decreases ss, 1
  {
    hide SelectorsAt, ParseSelectors, WellTypedSelectors, T.ValidSymbol;
    SelectorsParse(ss, ts, i + 1, j - 1, funcs);
  }

  lemma LastSelector(s: Selector, ts: Stream, i: nat, j: nat, funcs: Registry)
    requires i < |ts| && j < |ts| && ParseSelector(ts, i, funcs) == Done(s, j) && ts[j].kind != T.Comma
    ensures ParseSelectors(ts, i, funcs) == Done([s], j)
  {
    hide ParseSelector, T.ValidSymbol;
  }

  lemma MoreSelectors(s: Selector, rest: seq<Selector>, ts: Stream, i: nat, k: nat, j: nat, funcs: Registry)
    requires i < |ts| && k + 1 < |ts| && ParseSelector(ts, i, funcs) == Done(s, k) && ts[k].kind == T.Comma
    requires ParseSelectors(ts, k + 1, funcs) == Done(rest, j)
    ensures ParseSelectors(ts, i, funcs) == Done([s] + rest, j)
  {
    hide ParseSelector, T.ValidSymbol;
  }

  lemma {:induction false} SelectorsParse(ss: seq<Selector>, ts: Stream, i: nat, j: nat, funcs: Registry)
    requires SelectorsAt(ss, ts, i, j) && WellTypedSelectors(ss, funcs) && ts[j].kind == T.RightBracket
    ensures ParseSelectors(ts, i, funcs) == Done(ss, j)
    decreases ss, 0
  {
    hide SelectorAt, ParseSelector, ParseSelectors, WellTypedSelector, T.ValidSymbol;
    if |ss| == 1 {
      SelectorParses(ss[0], ts, i, j, funcs);
      LastSelector(ss[0], ts, i, j, funcs);
      assert [ss[0]] == ss;
    } else {
      var k :| i < k < j && SelectorAt(ss[0], ts, i, k) && ts[k].kind == T.Comma && SelectorsAt(ss[1..], ts, k + 1, j);
      SelectorParses(ss[0], ts, i, k, funcs);
      SelectorsParse(ss[1..], ts, k + 1, j, funcs);
      MoreSelectors(ss[0], ss[1..], ts, i, k, j, funcs);
      assert [ss[0]] + ss[1..] == ss;
    }
  }

  lemma {:induction false} SelectorParses(s: Selector, ts: Stream, i: nat, j: nat, funcs: Registry)
    requires SelectorAt(s, ts, i, j) && WellTypedSelector(s, funcs) && EndsSelector(ts[j].kind)
    ensures ParseSelector(ts, i, funcs) == Done(s, j)
    decreases s, 0
  {
    hide SliceAt, IntAt, OrAt, ParseOr, ParseIndexOrSlice, ParseSlice, WellTypedOr, T.ValidSymbol;
    match s
    case Name(_) =>
    case Wildcard =>
    case Index(n) => IndexParses(n, ts, i);
    case Slice(a) => SliceParses(a, ts, i, j, funcs);
    case Filter(or) => OrParses(or, ts, i + 1, j, funcs);
  }

  lemma IntegerParses(n: JsonInteger, ts: Stream, i: nat)
    requires IntAt(n, ts, i)
    ensures i < |ts| && ts[i].kind == T.Int && ParseInteger(ts, i) == Done(n, i + 1)
  {
    hide T.ValidSymbol, IntValue;
  }

  lemma IndexParses(n: JsonInteger, ts: Stream, i: nat)
    requires IntAt(n, ts, i) && ts[i + 1].kind != T.Colon
    ensures ts[i].kind == T.Int && ParseIndexOrSlice(ts, i) == Done(Index(n), i + 1)
  {
    hide IntAt, ParseInteger, T.ValidSymbol;
    IntegerParses(n, ts, i);
  }

  lemma StepParses(n: Option<JsonInteger>, ts: Stream, i: nat, j: nat, start: Option<JsonInteger>,
      end: Option<JsonInteger>)
    requires StepAt(n, ts, i, j) && EndsSelector(ts[j].kind)
    ensures ParseStep(ts, i, start, end) == Done(Slice(SliceArgs(start, end, n)), j) && ts[i].kind != T.Int
  {
    hide IntAt, ParseInteger, T.ValidSymbol;
    if n.Some? {
      IntegerParses(n.value, ts, i + 1);
    }
  }

  lemma SliceEndParses(a: SliceArgs, ts: Stream, i: nat, m: nat, j: nat)
    requires i < |ts| && OptionalIntAt(a.end, ts, i, m) && StepAt(a.step, ts, m, j) && EndsSelector(ts[j].kind)
    ensures ParseSlice(ts, i, a.start) == Done(Slice(a), j)
  {
    hide IntAt, StepAt, ParseInteger, ParseStep, T.ValidSymbol;
    StepParses(a.step, ts, m, j, a.start, a.end);
    if a.end.Some? {
      IntegerParses(a.end.value, ts, i);
    }
  }

  lemma SliceParses(a: SliceArgs, ts: Stream, i: nat, j: nat, funcs: Registry)
    requires i < |ts| && SliceAt(a, ts, i, j) && EndsSelector(ts[j].kind)
    ensures ParseSelector(ts, i, funcs) == Done(Slice(a), j)
  {
    hide IntAt, StepAt, ParseInteger, ParseSlice, ParseOr, T.ValidSymbol;
    var k, m :| i <= k < m <= j < |ts| &&
      OptionalIntAt(a.start, ts, i, k) && ts[k].kind == T.Colon && OptionalIntAt(a.end, ts, k + 1, m)
        && StepAt(a.step, ts, m, j);
    SliceEndParses(a, ts, k + 1, m, j);
    if a.start.Some? {
      IntegerParses(a.start.value, ts, i);
    }
  }

  // ---- Logical expressions

  lemma OrLast(terms: seq<BasicExpr>, ts: Stream, i: nat, j: nat, funcs: Registry)
    requires i < |ts| && j < |ts| && ParseAnd(ts, i, funcs) == Done(terms, j) && ts[j].kind != T.Or
    ensures ParseOr(ts, i, funcs) == Done([LogicalAnd(terms)], j)
  {
    hide ParseAnd, T.ValidSymbol;
  }

  lemma OrMore(terms: seq<BasicExpr>, rest: LogicalOr, ts: Stream, i: nat, j: nat, k: nat, funcs: Registry)
    requires i < |ts| && j + 1 < |ts| && ParseAnd(ts, i, funcs) == Done(terms, j) && ts[j].kind == T.Or
    requires ParseOr(ts, j + 1, funcs) == Done(rest, k)
    ensures ParseOr(ts, i, funcs) == Done([LogicalAnd(terms)] + rest, k)
  {
    hide ParseAnd, T.ValidSymbol;
  }

  lemma {:induction false} OrParses(or: LogicalOr, ts: Stream, i: nat, j: nat, funcs: Registry)
    requires OrAt(or, ts, i, j) && WellTypedOr(or, funcs) && EndsOr(ts[j].kind)
    ensures ParseOr(ts, i, funcs) == Done(or, j)
    decreases or, 0
  {
    hide AndAt, ParseAnd, ParseOr, WellTypedAnd, T.ValidSymbol;
    var terms := or[0].terms;
    AndTerms(or[0], funcs);
    if |or| == 1 {
      AndParses(terms, ts, i, j, funcs);
      OrLast(terms, ts, i, j, funcs);
      assert [or[0]] == or;
    } else {
      var k :| i < k < j && AndAt(terms, ts, i, k) && ts[k].kind == T.Or && OrAt(or[1..], ts, k + 1, j);
      AndParses(terms, ts, i, k, funcs);
      OrParses(or[1..], ts, k + 1, j, funcs);
      OrMore(terms, or[1..], ts, i, k, j, funcs);
      assert [or[0]] + or[1..] == or;
    }
  }

  lemma AndLast(e: BasicExpr, ts: Stream, i: nat, j: nat, funcs: Registry)
    requires i < |ts| && j < |ts| && ParseBasic(ts, i, funcs) == Done(e, j) && ts[j].kind != T.And
    ensures ParseAnd(ts, i, funcs) == Done([e], j)
  {
    hide ParseBasic, T.ValidSymbol;
  }

  lemma AndMore(e: BasicExpr, rest: seq<BasicExpr>, ts: Stream, i: nat, j: nat, k: nat, funcs: Registry)
    requires i < |ts| && j + 1 < |ts| && ParseBasic(ts, i, funcs) == Done(e, j) && ts[j].kind == T.And
    requires ParseAnd(ts, j + 1, funcs) == Done(rest, k)
    ensures ParseAnd(ts, i, funcs) == Done([e] + rest, k)
  {
    hide ParseBasic, T.ValidSymbol;
  }

  lemma {:induction false} AndParses(es: seq<BasicExpr>, ts: Stream, i: nat, j: nat, funcs: Registry)
    requires AndAt(es, ts, i, j) && (forall k | 0 <= k < |es| :: WellTypedBasic(es[k], funcs)) && EndsAnd(ts[j].kind)
    ensures ParseAnd(ts, i, funcs) == Done(es, j)
    decreases es, 0
  {
    hide BasicAt, ParseBasic, ParseAnd, WellTypedBasic, T.ValidSymbol;
    if |es| == 1 {
      BasicParses(es[0], ts, i, j, funcs);
      AndLast(es[0], ts, i, j, funcs);
      assert [es[0]] == es;
    } else {
      var k :| i < k < j && BasicAt(es[0], ts, i, k) && ts[k].kind == T.And && AndAt(es[1..], ts, k + 1, j);
      BasicParses(es[0], ts, i, k, funcs);
      AndParses(es[1..], ts, k + 1, j, funcs);
      AndMore(es[0], es[1..], ts, i, k, j, funcs);
      assert [es[0]] + es[1..] == es;
    }
  }

  lemma {:induction false} GroupParses(or: LogicalOr, ts: Stream, i: nat, j: nat, funcs: Registry)
    requires GroupAt(or, ts, i, j) && WellTypedOr(or, funcs)
    ensures ts[i].kind == T.LeftParen && ParseGroup(ts, i + 1, funcs) == Done(or, j)
    decreases or, 1
  {
    hide OrAt, ParseOr, WellTypedOr, T.ValidSymbol;
    OrParses(or, ts, i + 1, j - 1, funcs);
  }

  lemma QueryAsBasic(q: PathQuery, ts: Stream, i: nat, j: nat, funcs: Registry)
    requires i < |ts| && j < |ts| && ParseFilterQuery(ts, i, funcs) == Done(q, j) && !IsCompOp(ts[j].kind)
    requires ts[i].kind == T.Dollar || ts[i].kind == T.At_
    ensures ParseBasic(ts, i, funcs) == Done(Exist(q), j)
  {
    hide ParseNegation, ParseGroup, ParseCall, ParseFilterQuery, ParseComparison, ParseLiteral, T.ValidSymbol;
  }

  lemma CallAsBasic(f: FuncExpr, ts: Stream, i: nat, j: nat, funcs: Registry)
    requires i < |ts| && j < |ts| && ts[i].kind == T.Ident && ParseCall(ts, i, funcs) == Done(f, j)
    requires f.result != ValueType && !IsCompOp(ts[j].kind)
    ensures ParseBasic(ts, i, funcs) == Done(Func(f), j)
  {
    hide ParseNegation, ParseGroup, ParseCall, ParseFilterQuery, ParseComparison, ParseLiteral, T.ValidSymbol;
  }

  lemma GroupAsBasic(or: LogicalOr, ts: Stream, i: nat, j: nat, funcs: Registry)
    requires i + 1 < |ts| && ts[i].kind == T.LeftParen && ParseGroup(ts, i + 1, funcs) == Done(or, j)
    ensures ParseBasic(ts, i, funcs) == Done(Paren(or), j)
  {
    hide ParseNegation, ParseGroup, ParseCall, ParseFilterQuery, ParseComparison, ParseLiteral, T.ValidSymbol;
  }

  lemma NegationAsBasic(ts: Stream, i: nat, funcs: Registry)
    requires i + 1 < |ts| && ts[i].kind == T.Not
    ensures ParseBasic(ts, i, funcs) == ParseNegation(ts, i + 1, funcs)
  {
    hide ParseNegation, ParseGroup, ParseCall, ParseFilterQuery, ParseComparison, ParseLiteral, T.ValidSymbol;
  }

  lemma BasicEnd(k: T.Kind)
    requires EndsBasic(k)
    ensures EndsQuery(k) && !IsCompOp(k)
  {
  }

  lemma {:induction false} BasicParses(e: BasicExpr, ts: Stream, i: nat, j: nat, funcs: Registry)
    requires BasicAt(e, ts, i, j) && WellTypedBasic(e, funcs) && EndsBasic(ts[j].kind)
    ensures ParseBasic(ts, i, funcs) == Done(e, j)
    decreases e, 1
  {
    hide QueryAt, CallAt, GroupAt, ComparandAt, EndsBasic, EndsQuery, IsCompOp, T.ValidSymbol;
    hide WellTypedQuery, WellTypedCall, WellTypedOr, WellTypedComparand;
    hide ParseBasic, ParseNegation, ParseGroup, ParseCall, ParseFilterQuery;
    BasicEnd(ts[j].kind);
    match e
    case Exist(q) =>
      QueryParses(q, ts, i, j, funcs);
      QueryAsBasic(q, ts, i, j, funcs);
    case NonExist(q) =>
      NegationAsBasic(ts, i, funcs);
      NegatedQueryParses(q, ts, i + 1, j, funcs);
    case Paren(or) =>
      GroupParses(or, ts, i, j, funcs);
      GroupAsBasic(or, ts, i, j, funcs);
    case NotParen(or) =>
      NegationAsBasic(ts, i, funcs);
      NegatedGroupParses(or, ts, i + 1, j, funcs);
    case Func(f) =>
      CallParses(f, ts, i, j, funcs);
      CallAsBasic(f, ts, i, j, funcs);
    case NegFunc(f) =>
      NegationAsBasic(ts, i, funcs);
      NegatedCallParses(f, ts, i + 1, j, funcs);
    case Comp(l, op, r) =>
      CompParses(l, op, r, ts, i, j, funcs);
  }

  lemma {:induction false} NegatedQueryParses(q: PathQuery, ts: Stream, i: nat, j: nat, funcs: Registry)
    requires QueryAt(q, ts, i, j) && WellTypedQuery(q, funcs) && EndsQuery(ts[j].kind)
    ensures ParseNegation(ts, i, funcs) == Done(NonExist(q), j)
    decreases q, 1
  {
    hide QueryAt, WellTypedQuery, ParseGroup, ParseCall, ParseFilterQuery, T.ValidSymbol;
    QueryParses(q, ts, i, j, funcs);
    QueryAtBound(q, ts, i, j);
  }

  lemma QueryAtBound(q: PathQuery, ts: Stream, i: nat, j: nat)
    requires QueryAt(q, ts, i, j)
    ensures i < j < |ts|
  {
    hide SegmentsAt;
  }

  lemma {:induction false} NegatedGroupParses(or: LogicalOr, ts: Stream, i: nat, j: nat, funcs: Registry)
    requires GroupAt(or, ts, i, j) && WellTypedOr(or, funcs)
    ensures i < |ts| && ParseNegation(ts, i, funcs) == Done(NotParen(or), j)
    decreases or, 2
  {
    hide OrAt, WellTypedOr, ParseGroup, ParseCall, ParseFilterQuery, T.ValidSymbol;
    GroupParses(or, ts, i, j, funcs);
  }

  lemma {:induction false} NegatedCallParses(f: FuncExpr, ts: Stream, i: nat, j: nat, funcs: Registry)
    requires CallAt(f, ts, i, j) && WellTypedCall(f, funcs) && f.result != ValueType
    ensures i < |ts| && ParseNegation(ts, i, funcs) == Done(NegFunc(f), j)
    decreases f, 1
  {
    hide ArgsAt, WellTypedCall, ParseGroup, ParseCall, ParseFilterQuery, T.ValidSymbol;
    CallParses(f, ts, i, j, funcs);
  }

  lemma OpEndsQuery(k: T.Kind)
    requires IsCompOp(k)
    ensures EndsQuery(k)
  {
  }

  lemma ComparandBound(v: CompValue, ts: Stream, i: nat, j: nat)
    requires ComparandAt(v, ts, i, j)
    ensures i < j < |ts|
  {
    hide SegmentsAt, ArgsAt;
  }

  lemma {:induction false} CompParses(l: CompValue, op: CompOp, r: CompValue, ts: Stream, i: nat, j: nat,
      funcs: Registry)
    requires BasicAt(Comp(l, op, r), ts, i, j) && WellTypedComparand(l, funcs) && WellTypedComparand(r, funcs)
             && EndsBasic(ts[j].kind)
    ensures ParseBasic(ts, i, funcs) == Done(Comp(l, op, r), j)
    decreases Comp(l, op, r), 0
  {
    hide ComparandAt, IsCompOp, CompOpOf, WellTypedComparand, ParseBasic, ParseCompValue, EndsBasic, EndsQuery;
    hide T.ValidSymbol;
    var k :| i < k < j && ComparandAt(l, ts, i, k) && OpAt(op, ts, k) && ComparandAt(r, ts, k + 1, j);
    OperatorRead(op, ts, k);
    OpEndsQuery(ts[k].kind);
    BasicEnd(ts[j].kind);
    LeftParses(l, ts, i, k, funcs);
    ComparandBound(r, ts, k + 1, j);
    ComparandParses(r, ts, k + 1, j, funcs);
  }

  lemma LiteralAsLeft(l: Literal, ts: Stream, i: nat, funcs: Registry)
    requires i + 1 < |ts| && ParseLiteral(ts, i) == Done(l, i + 1) && IsLiteral(ts[i].kind) && IsCompOp(ts[i + 1].kind)
    ensures ParseBasic(ts, i, funcs) == ParseComparison(ts, i + 1, LiteralValue(l), funcs)
  {
    hide ParseNegation, ParseGroup, ParseCall, ParseFilterQuery, ParseComparison, ParseLiteral, T.ValidSymbol;
  }

  lemma QueryAsLeft(q: PathQuery, ts: Stream, i: nat, j: nat, funcs: Registry)
    requires i < |ts| && j < |ts| && ParseFilterQuery(ts, i, funcs) == Done(q, j) && Singular(q)
    requires (ts[i].kind == T.Dollar || ts[i].kind == T.At_) && IsCompOp(ts[j].kind)
    ensures ParseBasic(ts, i, funcs) == ParseComparison(ts, j, QueryValue(q), funcs)
  {
    hide ParseNegation, ParseGroup, ParseCall, ParseFilterQuery, ParseComparison, ParseLiteral, Singular, T.ValidSymbol;
  }

  lemma CallAsLeft(f: FuncExpr, ts: Stream, i: nat, j: nat, funcs: Registry)
    requires i < |ts| && j < |ts| && ts[i].kind == T.Ident && ParseCall(ts, i, funcs) == Done(f, j)
    requires f.result == ValueType && IsCompOp(ts[j].kind)
    ensures ParseBasic(ts, i, funcs) == ParseComparison(ts, j, FuncValue(f), funcs)
  {
    hide ParseNegation, ParseGroup, ParseCall, ParseFilterQuery, ParseComparison, ParseLiteral, T.ValidSymbol;
  }

  lemma LiteralParses(l: Literal, ts: Stream, i: nat, j: nat)
    requires LiteralAt(l, ts, i, j)
    ensures j == i + 1 && ParseLiteral(ts, i) == Done(l, j) && IsLiteral(ts[i].kind)
  {
    hide T.ValidSymbol;
  }

  /** A spelled comparand before an operator is taken as the left operand. */
  lemma {:induction false} LeftParses(v: CompValue, ts: Stream, i: nat, j: nat, funcs: Registry)
    requires i < j < |ts| && ComparandAt(v, ts, i, j) && WellTypedComparand(v, funcs) && IsCompOp(ts[j].kind)
    ensures ParseBasic(ts, i, funcs) == ParseComparison(ts, j, v, funcs)
    decreases v, 0
  {
    hide QueryAt, CallAt, LiteralAt, Singular, WellTypedQuery, WellTypedCall, T.ValidSymbol;
    hide ParseBasic, ParseCall, ParseFilterQuery, ParseComparison, ParseLiteral;
    match v
    case LiteralValue(l) =>
      LiteralParses(l, ts, i, j);
      LiteralAsLeft(l, ts, i, funcs);
    case QueryValue(q) =>
      QueryParses(q, ts, i, j, funcs);
      QueryAsLeft(q, ts, i, j, funcs);
    case FuncValue(f) =>
      CallParses(f, ts, i, j, funcs);
      CallAsLeft(f, ts, i, j, funcs);
  }

  lemma {:induction false} ComparandParses(v: CompValue, ts: Stream, i: nat, j: nat, funcs: Registry)
    requires i < j < |ts| && ComparandAt(v, ts, i, j) && WellTypedComparand(v, funcs) && EndsQuery(ts[j].kind)
    ensures ParseCompValue(ts, i, funcs) == Done(v, j)
    decreases v, 0
  {
    hide QueryAt, CallAt, LiteralAt, Singular, WellTypedQuery, WellTypedCall, T.ValidSymbol;
    hide ParseCall, ParseFilterQuery, ParseLiteral;
    match v
    case LiteralValue(l) => LiteralParses(l, ts, i, j);
    case QueryValue(q) => QueryParses(q, ts, i, j, funcs);
    case FuncValue(f) => CallParses(f, ts, i, j, funcs);
  }

  // ---- Function calls

  /** What the parser first makes of an argument. */
  function RawOf(a: FuncArg): RawArg {
    match a.source
    case LiteralArg(l) => RawLiteral(l)
    case QueryArg(q) => RawQuery(q)
    case LogicalArg(or) => RawLogical(or)
    case FunctionArg(f) => RawCall(f)
  }

  function RawsOf(args: seq<FuncArg>): seq<RawArg> {
    if args == [] then [] else [RawOf(args[0])] + RawsOf(args[1..])
  }

  lemma {:induction false} CompiledBack(args: seq<FuncArg>, params: seq<FuncType>, funcs: Registry)
    requires |args| == |params| && forall k | 0 <= k < |args| :: WellTypedArg(args[k], params[k], funcs)
    ensures CompileArgs(params, RawsOf(args)) == Some(args)
    decreases |args|
  {
    hide WellTypedArg, CompileArg, RawOf;
    if args != [] {
      CompiledArgBack(args[0], params[0], funcs);
      CompiledBack(args[1..], params[1..], funcs);
      assert [args[0]] + args[1..] == args;
    }
  }

  lemma CompiledArgBack(a: FuncArg, param: FuncType, funcs: Registry)
    requires WellTypedArg(a, param, funcs)
    ensures CompileArg(param, RawOf(a)) == Some(a)
  {
    hide WellTypedQuery, WellTypedOr, WellTypedCall, Singular;
  }

  lemma CallFromArgs(f: FuncExpr, ts: Stream, i: nat, j: nat, raws: seq<RawArg>, funcs: Registry)
    requires i + 2 < j < |ts| && ts[i].kind == T.Ident && ts[i].text == f.name && !ts[i + 1].gap
             && ts[i + 1].kind == T.LeftParen
    requires f.name in funcs && f.result == funcs[f.name].result
             && CompileArgs(funcs[f.name].params, raws) == Some(f.args)
    requires ts[j - 1].kind == T.RightParen
    requires if raws == [] then j == i + 3
             else
               && ts[i + 2].kind != T.RightParen
               && ParseArgs(ts, i + 2, funcs[f.name].params, 0, i, funcs) == Done(raws, j - 1)
    ensures ParseCall(ts, i, funcs) == Done(f, j)
  {
    hide ParseArgs, CompileArgs, T.ValidSymbol;
  }

  lemma {:induction false} CallParses(f: FuncExpr, ts: Stream, i: nat, j: nat, funcs: Registry)
    requires CallAt(f, ts, i, j) && WellTypedCall(f, funcs)
    ensures ts[i].kind == T.Ident && ParseCall(ts, i, funcs) == Done(f, j)
    decreases f, 0
  {
    hide ArgsAt, ParseCall, ParseArgs, CompileArgs, RawsOf, WellTypedArg, T.ValidSymbol;
    var params := funcs[f.name].params;
    CompiledBack(f.args, params, funcs);
    NoArgs(f.args);
    if f.args != [] {
      ArgsParse(f.args, params, 0, i, ts, i + 2, j - 1, funcs);
    }
    CallFromArgs(f, ts, i, j, RawsOf(f.args), funcs);
  }

  lemma NoArgs(args: seq<FuncArg>)
    ensures RawsOf(args) == [] <==> args == []
  {
  }

  lemma LastArg(arg: RawArg, params: seq<FuncType>, n: nat, name: nat, ts: Stream, i: nat, j: nat, funcs: Registry)
    requires name < i < |ts| && j < |ts| && n < |params| && ParseArg(ts, i, params[n], funcs) == Done(arg, j)
             && ts[j].kind != T.Comma
    ensures ParseArgs(ts, i, params, n, name, funcs) == Done([arg], j)
  {
    hide ParseArg, T.ValidSymbol;
  }

  lemma MoreArgs(arg: RawArg, rest: seq<RawArg>, params: seq<FuncType>, n: nat, name: nat, ts: Stream, i: nat,
          k: nat, j: nat, funcs: Registry)
    requires name < i < |ts| && name <= k && k + 1 < |ts| && n < |params|
    requires ParseArg(ts, i, params[n], funcs) == Done(arg, k) && ts[k].kind == T.Comma
    requires ParseArgs(ts, k + 1, params, n + 1, name, funcs) == Done(rest, j)
    ensures ParseArgs(ts, i, params, n, name, funcs) == Done([arg] + rest, j)
  {
    hide ParseArg, T.ValidSymbol;
  }

  lemma {:induction false} ArgsParse(args: seq<FuncArg>, params: seq<FuncType>, n: nat, name: nat, ts: Stream,
          i: nat, j: nat, funcs: Registry)
    requires ArgsAt(args, ts, i, j) && n + |args| == |params| && name < i && ts[j].kind == T.RightParen
    requires forall k | 0 <= k < |args| :: WellTypedArg(args[k], params[n + k], funcs)
    ensures ts[i].kind != T.RightParen && ParseArgs(ts, i, params, n, name, funcs) == Done(RawsOf(args), j)
    decreases args, 0
  {
    hide ArgAt, ParseArg, ParseArgs, RawOf, WellTypedArg, T.ValidSymbol;
    assert WellTypedArg(args[0], params[n + 0], funcs);
    if |args| == 1 {
      ArgParses(args[0], params[n], ts, i, j, funcs);
      LastArg(RawOf(args[0]), params, n, name, ts, i, j, funcs);
      assert [RawOf(args[0])] + [] == [RawOf(args[0])];
    } else {
      var k :| i < k < j && ArgAt(args[0], ts, i, k) && ts[k].kind == T.Comma && ArgsAt(args[1..], ts, k + 1, j);
      ArgParses(args[0], params[n], ts, i, k, funcs);
      forall x | 0 <= x < |args[1..]|
        ensures WellTypedArg(args[1..][x], params[n + 1 + x], funcs)
      {
        assert WellTypedArg(args[x + 1], params[n + (x + 1)], funcs);
      }
      ArgsParse(args[1..], params, n + 1, name, ts, k + 1, j, funcs);
      MoreArgs(RawOf(args[0]), RawsOf(args[1..]), params, n, name, ts, i, k, j, funcs);
    }
  }

  /** Where a spelled logical expression starts, an argument for a Logical parameter is parsed as one. */
  predicate StartsLogical(ts: Stream, i: nat)
    requires i < |ts|
  {
    StartsExplicitLogical(ts, i) || ts[i].kind == T.At_ || ts[i].kind == T.Dollar || ts[i].kind == T.Ident
  }

  lemma LiteralAsArg(l: Literal, ts: Stream, i: nat, param: FuncType, funcs: Registry)
    requires i + 1 < |ts| && ParseLiteral(ts, i) == Done(l, i + 1) && IsLiteral(ts[i].kind) && EndsArg(ts[i + 1].kind)
    ensures ParseArg(ts, i, param, funcs) == Done(RawLiteral(l), i + 1)
  {
    hide ParseLogicalArg, ParseLiteral, ParseFilterQuery, ParseCall, T.ValidSymbol;
  }

  lemma QueryAsArg(q: PathQuery, ts: Stream, i: nat, j: nat, param: FuncType, funcs: Registry)
    requires i < |ts| && j < |ts| && ParseFilterQuery(ts, i, funcs) == Done(q, j) && param != LogicalType
    requires (ts[i].kind == T.Dollar || ts[i].kind == T.At_) && EndsArg(ts[j].kind)
    ensures ParseArg(ts, i, param, funcs) == Done(RawQuery(q), j)
  {
    hide ParseLogicalArg, ParseLiteral, ParseFilterQuery, ParseCall, T.ValidSymbol;
  }

  lemma CallAsArg(f: FuncExpr, ts: Stream, i: nat, j: nat, param: FuncType, funcs: Registry)
    requires i < |ts| && j < |ts| && ts[i].kind == T.Ident && param != LogicalType
    requires ParseCall(ts, i, funcs) == Done(f, j) && EndsArg(ts[j].kind)
    ensures ParseArg(ts, i, param, funcs) == Done(RawCall(f), j)
  {
    hide ParseLogicalArg, ParseLiteral, ParseFilterQuery, ParseCall, T.ValidSymbol;
  }

  lemma LogicalAsArg(or: LogicalOr, ts: Stream, i: nat, j: nat, funcs: Registry)
    requires i < |ts| && StartsLogical(ts, i) && ParseOr(ts, i, funcs) == Done(or, j)
    ensures ParseArg(ts, i, LogicalType, funcs) == Done(RawLogical(or), j) && ts[i].kind != T.RightParen
  {
    hide ParseOr, ParseLiteral, ParseFilterQuery, ParseCall, T.ValidSymbol;
  }

  lemma {:induction false} ArgParses(a: FuncArg, param: FuncType, ts: Stream, i: nat, j: nat, funcs: Registry)
    requires i < j < |ts| && ArgAt(a, ts, i, j) && WellTypedArg(a, param, funcs) && EndsArg(ts[j].kind)
    ensures ts[i].kind != T.RightParen && ParseArg(ts, i, param, funcs) == Done(RawOf(a), j)
    decreases a, 0
  {
    hide QueryAt, CallAt, OrAt, LiteralAt, Singular, WellTypedQuery, WellTypedCall, WellTypedOr, T.ValidSymbol;
    hide ParseArg, StartsLogical, ParseOr, ParseCall, ParseFilterQuery, ParseLiteral;
    match a.source
    case LiteralArg(l) =>
      LiteralParses(l, ts, i, j);
      LiteralAsArg(l, ts, i, param, funcs);
    case QueryArg(q) =>
      QueryParses(q, ts, i, j, funcs);
      QueryAsArg(q, ts, i, j, param, funcs);
    case LogicalArg(or) =>
      OrParses(or, ts, i, j, funcs);
      OrStarts(or, ts, i, j);
      LogicalAsArg(or, ts, i, j, funcs);
    case FunctionArg(f) =>
      CallParses(f, ts, i, j, funcs);
      CallAsArg(f, ts, i, j, param, funcs);
  }

  lemma OrStarts(or: LogicalOr, ts: Stream, i: nat, j: nat)
    requires OrAt(or, ts, i, j)
    ensures StartsLogical(ts, i)
  {
    hide AndAt, StartsLogical, T.ValidSymbol;
    if |or| == 1 {
      AndStarts(or[0].terms, ts, i, j);
    } else {
      var k :| i < k < j && AndAt(or[0].terms, ts, i, k) && ts[k].kind == T.Or && OrAt(or[1..], ts, k + 1, j);
      AndStarts(or[0].terms, ts, i, k);
    }
  }

  lemma AndStarts(es: seq<BasicExpr>, ts: Stream, i: nat, j: nat)
    requires AndAt(es, ts, i, j)
    ensures StartsLogical(ts, i)
  {
    hide BasicAt, StartsLogical, T.ValidSymbol;
    if |es| == 1 {
      BasicStarts(es[0], ts, i, j);
    } else {
      var k :| i < k < j && BasicAt(es[0], ts, i, k) && ts[k].kind == T.And && AndAt(es[1..], ts, k + 1, j);
      BasicStarts(es[0], ts, i, k);
    }
  }

  lemma BasicStarts(e: BasicExpr, ts: Stream, i: nat, j: nat)
    requires BasicAt(e, ts, i, j)
    ensures StartsLogical(ts, i)
  {
    hide SegmentsAt, ArgsAt, OrAt, ComparandAt, IsCompOp, T.ValidSymbol;
    if e.Comp? {
      var k :| i < k < j && ComparandAt(e.left, ts, i, k) && OpAt(e.op, ts, k) && ComparandAt(e.right, ts, k + 1, j);
      OperatorRead(e.op, ts, k);
      ComparandStarts(e.left, ts, i, k);
    }
  }

  lemma ComparandStarts(v: CompValue, ts: Stream, i: nat, j: nat)
    requires i < j < |ts| && ComparandAt(v, ts, i, j) && IsCompOp(ts[j].kind)
    ensures StartsLogical(ts, i)
  {
    hide SegmentsAt, ArgsAt, IsCompOp, T.ValidSymbol;
  }

  /** Lexemes that spell a well-typed query parse to it. */
  lemma SpelledParses(q: PathQuery, ts: Stream, funcs: Registry)
    requires Spells(q, ts) && WellTypedQuery(q, funcs)
    ensures ParseQuery(ts, funcs) == Done(q, |ts| - 1)
  {
    hide QueryAt, WellTypedQuery, ParseFilterQuery, T.ValidSymbol;
    QueryParses(q, ts, 0, |ts| - 1, funcs);
    QueryAtBound(q, ts, 0, |ts| - 1);
    QueryFirst(q, ts);
  }

  lemma QueryFirst(q: PathQuery, ts: Stream)
    requires Spells(q, ts)
    ensures ts[0].kind == T.Dollar
  {
    hide SegmentsAt;
  }
}
