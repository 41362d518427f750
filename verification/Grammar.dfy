/**
 * The parser as a function from lexemes to syntax trees. A failure names the lexeme it is reported at.
 * Layout reaches the parser only through the gap flags of lexemes.
 */
module Grammar {
  import opened Common
  import opened Text
  import opened NumberText
  import T = Tokens
  import opened Syntax

  type Lexeme = T.Lexeme

  /** Lexemes ending with the one and only EOF. */
  type Stream = ts: seq<Lexeme> |
    ts != [] && ts[|ts| - 1].kind == T.EOF && forall k | 0 <= k < |ts| - 1 :: ts[k].kind != T.EOF
    witness [T.Symbol(T.EOF, "", false)]

  datatype Parsed<+A> = Done(value: A, next: nat) | Failed(at: nat)
  {
    predicate IsFailure() {
      Failed?
    }

    function PropagateFailure<B>(): Parsed<B>
      requires Failed?
    {
      Failed(at)
    }

    function Extract(): (A, nat)
      requires Done?
    {
      (value, next)
    }
  }

  /** A successful parse consumed at least one lexeme and never the EOF; a failure is reported inside the stream. */
  predicate Advances<A>(r: Parsed<A>, i: nat, ts: Stream) {
    match r
    case Done(_, next) => i < next < |ts|
    case Failed(at) => at < |ts|
  }

  predicate IsCompOp(k: T.Kind) {
    k == T.Equal || k == T.NotEqual || k == T.Less || k == T.LessEqual || k == T.Greater || k == T.GreaterEqual
  }

  function CompOpOf(k: T.Kind): CompOp {
    match k
    case NotEqual => NotEqual
    case Less => Less
    case LessEqual => LessEqual
    case Greater => Greater
    case GreaterEqual => GreaterEqual
    case _ => Equal
  }

  predicate IsMemberName(k: T.Kind) {
    k == T.Ident || k == T.True || k == T.False || k == T.Null
  }

  predicate IsLiteral(k: T.Kind) {
    k == T.String || k == T.Int || k == T.Number || k == T.True || k == T.False || k == T.Null
  }

  predicate ContinuesLogical(k: T.Kind) {
    IsCompOp(k) || k == T.And || k == T.Or
  }

  // ---- Queries

  function ParseFilterQuery(ts: Stream, i: nat, funcs: Registry): (r: Parsed<PathQuery>)
    requires i < |ts|
    ensures Advances(r, i, ts)
    decreases |ts| - i, 1
  {
    if ts[i].kind == T.Dollar || ts[i].kind == T.At_ then
      var (segments, j) :- ParseSegments(ts, i + 1, funcs);
      Done(PathQuery(ts[i].kind == T.Dollar, segments), j)
    else Failed(i)
  }

  /** Zero or more segments. */
  function ParseSegments(ts: Stream, i: nat, funcs: Registry): (r: Parsed<seq<Segment>>)
    requires i < |ts|
    ensures match r case Done(_, next) => i <= next < |ts| case Failed(at) => at < |ts|
    decreases |ts| - i, 0
  {
    match ts[i].kind
    case DotDot =>
      var (s, j) :- ParseDescendant(ts, i + 1, funcs);
      var (rest, k) :- ParseSegments(ts, j, funcs);
      Done([s] + rest, k)
    case LeftBracket =>
      var (ss, j) :- ParseBracketed(ts, i + 1, funcs);
      var (rest, k) :- ParseSegments(ts, j, funcs);
      Done([Segment(ss, false)] + rest, k)
    case Dot =>
      var (s, j) :- ParseDotChild(ts, i + 1);
      var (rest, k) :- ParseSegments(ts, j, funcs);
      Done([Segment([s], false)] + rest, k)
    case _ => Done([], i)
  }

  /** What follows `..`. */
  function ParseDescendant(ts: Stream, i: nat, funcs: Registry): (r: Parsed<Segment>)
    requires i < |ts|
    ensures Advances(r, i, ts)
    decreases |ts| - i, 9
  {
    if ts[i].gap then Failed(i)
    else if ts[i].kind == T.LeftBracket then
      var (ss, j) :- ParseBracketed(ts, i + 1, funcs);
      Done(Segment(ss, true), j)
    else if ts[i].kind == T.Star then Done(Segment([Wildcard], true), i + 1)
    else if IsMemberName(ts[i].kind) then Done(Segment([Name(ts[i].text)], true), i + 1)
    else Failed(i)
  }

  /** What follows `.`. */
  function ParseDotChild(ts: Stream, i: nat): (r: Parsed<Selector>)
    requires i < |ts|
    ensures Advances(r, i, ts)
  {
    if ts[i].gap then Failed(i)
    else if ts[i].kind == T.Star then Done(Wildcard, i + 1)
    else if IsMemberName(ts[i].kind) then Done(Name(ts[i].text), i + 1)
    else Failed(i)
  }

  /** What follows `[`, up to and including `]`. */
  function ParseBracketed(ts: Stream, i: nat, funcs: Registry): (r: Parsed<seq<Selector>>)
    requires i < |ts|
    ensures Advances(r, i, ts) && (r.Done? ==> r.value != [])
    decreases |ts| - i, 8
  {
    var (ss, j) :- ParseSelectors(ts, i, funcs);
    if ts[j].kind == T.RightBracket then Done(ss, j + 1) else Failed(j)
  }

  /** One or more selectors separated by commas. */
  function ParseSelectors(ts: Stream, i: nat, funcs: Registry): (r: Parsed<seq<Selector>>)
    requires i < |ts|
    ensures Advances(r, i, ts) && (r.Done? ==> r.value != [])
    decreases |ts| - i, 7
  {
    var (s, j) :- ParseSelector(ts, i, funcs);
    if ts[j].kind == T.Comma then
      var (rest, k) :- ParseSelectors(ts, j + 1, funcs);
      Done([s] + rest, k)
    else Done([s], j)
  }

  function ParseSelector(ts: Stream, i: nat, funcs: Registry): (r: Parsed<Selector>)
    requires i < |ts|
    ensures Advances(r, i, ts)
    decreases |ts| - i, 6
  {
    match ts[i].kind
    case Star => Done(Wildcard, i + 1)
    case Question =>
      var (or, j) :- ParseOr(ts, i + 1, funcs);
      Done(Filter(or), j)
    case String => Done(Name(ts[i].text), i + 1)
    case Int => ParseIndexOrSlice(ts, i)
    case Colon => ParseSlice(ts, i + 1, None)
    case _ => Failed(i)
  }

  /** An integer the query may use as an index or slice bound: no `-0`, within 2^53 - 1. */
  function ParseInteger(ts: Stream, i: nat): (r: Parsed<JsonInteger>)
    requires i < |ts| && ts[i].kind == T.Int
    ensures Advances(r, i, ts) && (r.Done? ==> r.next == i + 1)
  {
    var n := IntValue(ts[i].text);
    if (n == 0 && ts[i].text[0] == '-') || n < -MAX_JSON_INTEGER || n > MAX_JSON_INTEGER then Failed(i)
    else Done(n, i + 1)
  }

  function ParseIndexOrSlice(ts: Stream, i: nat): (r: Parsed<Selector>)
    requires i < |ts| && ts[i].kind == T.Int
    ensures Advances(r, i, ts)
  {
    var (n, j) :- ParseInteger(ts, i);
    if ts[j].kind == T.Colon then ParseSlice(ts, j + 1, Some(n)) else Done(Index(n), j)
  }

  /** What follows the first colon of a slice. */
  function ParseSlice(ts: Stream, i: nat, start: Option<JsonInteger>): (r: Parsed<Selector>)
    requires i < |ts|
    ensures match r case Done(_, next) => i <= next < |ts| case Failed(at) => at < |ts|
  {
    if ts[i].kind == T.Int then
      var (end, j) :- ParseInteger(ts, i);
      ParseStep(ts, j, start, Some(end))
    else ParseStep(ts, i, start, None)
  }

  function ParseStep(ts: Stream, i: nat, start: Option<JsonInteger>, end: Option<JsonInteger>): (r: Parsed<Selector>)
    requires i < |ts|
    ensures match r case Done(_, next) => i <= next < |ts| case Failed(at) => at < |ts|
  {
    if ts[i].kind != T.Colon then Done(Slice(SliceArgs(start, end, None)), i)
    else if ts[i + 1].kind != T.Int then Done(Slice(SliceArgs(start, end, None)), i + 1)
    else
      var (step, j) :- ParseInteger(ts, i + 1);
      Done(Slice(SliceArgs(start, end, Some(step))), j)
  }

  // ---- The first lexeme that keeps a query from being singular

  /** From the start of the segments; it never looks inside a filter, whose `?` already is such a lexeme. */
  function FirstNonSingular(ts: Stream, i: nat): (k: Option<nat>)
    requires i < |ts|
    ensures k.Some? ==> i <= k.value < |ts|
    decreases |ts| - i
  {
    match ts[i].kind
    case DotDot => Some(i)
    case LeftBracket =>
      var k := MarkInBrackets(ts, i + 1);
      if k.Some? then k
      else if i + 3 < |ts| && ts[i + 2].kind == T.RightBracket then FirstNonSingular(ts, i + 3)
      else None
    case Dot =>
      if DotChildMark(ts, i + 1).Some? then DotChildMark(ts, i + 1)
      else if IsMemberName(ts[i + 1].kind) then FirstNonSingular(ts, i + 2)
      else None
    case _ => None
  }

  /** From the lexeme after `.`. */
  function DotChildMark(ts: Stream, i: nat): (k: Option<nat>)
    requires i < |ts|
    ensures k.Some? ==> k.value == i
  {
    if ts[i].kind == T.Star then Some(i) else None
  }

  /** In the selector at `i`. */
  function SelectorMark(ts: Stream, i: nat): (k: Option<nat>)
    requires i < |ts|
    ensures k.Some? ==> i <= k.value < |ts|
  {
    match ts[i].kind
    case Star => Some(i)
    case Question => Some(i)
    case Colon => Some(i)
    case Int => if ts[i + 1].kind == T.Colon then Some(i + 1) else None
    case _ => None
  }

  /** From the lexeme after `[`: in the first selector, or the comma after it. */
  function MarkInBrackets(ts: Stream, i: nat): (k: Option<nat>)
    requires i < |ts|
    ensures k.Some? ==> i <= k.value < |ts|
  {
    if SelectorMark(ts, i).Some? then SelectorMark(ts, i)
    else if (ts[i].kind == T.String || ts[i].kind == T.Int) && ts[i + 1].kind == T.Comma then Some(i + 1)
    else None
  }

  // ---- Filter expressions

  function ParseOr(ts: Stream, i: nat, funcs: Registry): (r: Parsed<LogicalOr>)
    requires i < |ts|
    ensures Advances(r, i, ts) && (r.Done? ==> r.value != [])
    decreases |ts| - i, 5
  {
    var (and, j) :- ParseAnd(ts, i, funcs);
    if ts[j].kind == T.Or then
      var (rest, k) :- ParseOr(ts, j + 1, funcs);
      Done([LogicalAnd(and)] + rest, k)
    else Done([LogicalAnd(and)], j)
  }

  function ParseAnd(ts: Stream, i: nat, funcs: Registry): (r: Parsed<seq<BasicExpr>>)
    requires i < |ts|
    ensures Advances(r, i, ts) && (r.Done? ==> r.value != [])
    decreases |ts| - i, 4
  {
    var (e, j) :- ParseBasic(ts, i, funcs);
    if ts[j].kind == T.And then
      var (rest, k) :- ParseAnd(ts, j + 1, funcs);
      Done([e] + rest, k)
    else Done([e], j)
  }

  function ParseBasic(ts: Stream, i: nat, funcs: Registry): (r: Parsed<BasicExpr>)
    requires i < |ts|
    ensures Advances(r, i, ts)
    decreases |ts| - i, 3
  {
    var k := ts[i].kind;
    if k == T.Not then ParseNegation(ts, i + 1, funcs)
    else if k == T.LeftParen then
      var (or, j) :- ParseGroup(ts, i + 1, funcs);
      Done(Paren(or), j)
    else if k == T.Ident then
      var (f, j) :- ParseCall(ts, i, funcs);
      if IsCompOp(ts[j].kind) then
        if f.result != ValueType then Failed(j) else ParseComparison(ts, j, FuncValue(f), funcs)
      else if f.result == ValueType then Failed(j)
      else Done(Func(f), j)
    else if k == T.At_ || k == T.Dollar then
      var (q, j) :- ParseFilterQuery(ts, i, funcs);
      if IsCompOp(ts[j].kind) then
        if Singular(q) then ParseComparison(ts, j, QueryValue(q), funcs) else Failed(NonSingularAt(ts, i + 1, j))
      else Done(Exist(q), j)
    else if IsLiteral(k) then
      var (l, j) :- ParseLiteral(ts, i);
      if IsCompOp(ts[j].kind) then ParseComparison(ts, j, LiteralValue(l), funcs) else Failed(j)
    else Failed(i)
  }

  /** Where a query that is not singular is reported: at its first offending lexeme. */
  function NonSingularAt(ts: Stream, i: nat, otherwise: nat): (at: nat)
    requires i < |ts| && otherwise < |ts|
    ensures at < |ts|
  {
    match FirstNonSingular(ts, i)
    case Some(k) => k
    case None => otherwise
  }

  /** What follows `!`. */
  function ParseNegation(ts: Stream, i: nat, funcs: Registry): (r: Parsed<BasicExpr>)
    requires i < |ts|
    ensures Advances(r, i, ts)
    decreases |ts| - i, 3
  {
    if ts[i].kind == T.LeftParen then
      var (or, j) :- ParseGroup(ts, i + 1, funcs);
      Done(NotParen(or), j)
    else if ts[i].kind == T.Ident then
      var (f, j) :- ParseCall(ts, i, funcs);
      if f.result == ValueType then Failed(j) else Done(NegFunc(f), j)
    else
      var (q, j) :- ParseFilterQuery(ts, i, funcs);
      Done(NonExist(q), j)
  }

  /** What follows `(`, up to and including `)`. */
  function ParseGroup(ts: Stream, i: nat, funcs: Registry): (r: Parsed<LogicalOr>)
    requires i < |ts|
    ensures Advances(r, i, ts) && (r.Done? ==> r.value != [])
    decreases |ts| - i, 6
  {
    var (or, j) :- ParseOr(ts, i, funcs);
    if ts[j].kind == T.RightParen then Done(or, j + 1) else Failed(j)
  }

  /** The operator at `i` and the right operand. */
  function ParseComparison(ts: Stream, i: nat, left: CompValue, funcs: Registry): (r: Parsed<BasicExpr>)
    requires i < |ts| && IsCompOp(ts[i].kind)
    ensures Advances(r, i, ts)
    decreases |ts| - i, 3
  {
    var (right, j) :- ParseCompValue(ts, i + 1, funcs);
    Done(Comp(left, CompOpOf(ts[i].kind), right), j)
  }

  function ParseCompValue(ts: Stream, i: nat, funcs: Registry): (r: Parsed<CompValue>)
    requires i < |ts|
    ensures Advances(r, i, ts)
    decreases |ts| - i, 3
  {
    var k := ts[i].kind;
    if k == T.Ident then
      var (f, j) :- ParseCall(ts, i, funcs);
      if f.result != ValueType then Failed(j) else Done(FuncValue(f), j)
    else if k == T.At_ || k == T.Dollar then
      var (q, j) :- ParseFilterQuery(ts, i, funcs);
      if Singular(q) then Done(QueryValue(q), j) else Failed(NonSingularAt(ts, i + 1, j))
    else
      var (l, j) :- ParseLiteral(ts, i);
      Done(LiteralValue(l), j)
  }

  function ParseLiteral(ts: Stream, i: nat): (r: Parsed<Literal>)
    requires i < |ts|
    ensures Advances(r, i, ts) && (r.Done? ==> r.next == i + 1)
  {
    match ts[i].kind
    case String => Done(StringLiteral(ts[i].text), i + 1)
    case Int => Done(NumberLiteral(ts[i].text), i + 1)
    case Number => Done(NumberLiteral(ts[i].text), i + 1)
    case True => Done(BoolLiteral(true), i + 1)
    case False => Done(BoolLiteral(false), i + 1)
    case Null => Done(NullLiteral, i + 1)
    case _ => Failed(i)
  }

  // ---- Function calls

  /** An argument before it is checked against its parameter. */
  datatype RawArg = RawLiteral(literal: Literal) | RawQuery(query: PathQuery) | RawLogical(expr: LogicalOr)
    | RawCall(call: FuncExpr)

  /** The call whose name is at `i`. */
  function ParseCall(ts: Stream, i: nat, funcs: Registry): (r: Parsed<FuncExpr>)
    requires i < |ts| && ts[i].kind == T.Ident
    ensures Advances(r, i, ts)
    decreases |ts| - i, 1
  {
    if ts[i + 1].gap || ts[i + 1].kind != T.LeftParen then Failed(i + 1)
    else if ts[i].text !in funcs then Failed(i)
    else
      var sig := funcs[ts[i].text];
      var (raws, j) :-
        if ts[i + 2].kind == T.RightParen then Done([], i + 2) else ParseArgs(ts, i + 2, sig.params, 0, i, funcs);
      if ts[j].kind != T.RightParen then Failed(j)
      else match CompileArgs(sig.params, raws)
        case None => Failed(i)
        case Some(args) => Done(FuncExpr(ts[i].text, sig.result, args), j + 1)
  }

  /** One or more arguments; `n` is the position of the next one and `name` the lexeme that errors of count point at. */
  function ParseArgs(ts: Stream, i: nat, params: seq<FuncType>, n: nat, name: nat,
      funcs: Registry): (r: Parsed<seq<RawArg>>)
    requires i < |ts| && name < i
    ensures Advances(r, i, ts)
    decreases |ts| - i, 8
  {
    if n >= |params| then Failed(name)
    else
      var (arg, j) :- ParseArg(ts, i, params[n], funcs);
      if ts[j].kind == T.Comma then
        var (rest, k) :- ParseArgs(ts, j + 1, params, n + 1, name, funcs);
        Done([arg] + rest, k)
      else Done([arg], j)
  }

  predicate StartsExplicitLogical(ts: Stream, i: nat)
    requires i < |ts|
  {
    ts[i].kind == T.Not || ts[i].kind == T.LeftParen || (IsLiteral(ts[i].kind) && IsCompOp(ts[i + 1].kind))
  }

  function ParseLogicalArg(ts: Stream, i: nat, funcs: Registry): (r: Parsed<RawArg>)
    requires i < |ts|
    ensures Advances(r, i, ts)
    decreases |ts| - i, 6
  {
    var (or, j) :- ParseOr(ts, i, funcs);
    Done(RawLogical(or), j)
  }

  /** An argument; a query or call that turns out to begin a logical expression is parsed again as one. */
  function ParseArg(ts: Stream, i: nat, target: FuncType, funcs: Registry): (r: Parsed<RawArg>)
    requires i < |ts|
    ensures Advances(r, i, ts)
    decreases |ts| - i, 7
  {
    var k := ts[i].kind;
    if StartsExplicitLogical(ts, i) then ParseLogicalArg(ts, i, funcs)
    else if k == T.At_ || k == T.Dollar then
      if target == LogicalType then ParseLogicalArg(ts, i, funcs)
      else
        var (q, j) :- ParseFilterQuery(ts, i, funcs);
        if ContinuesLogical(ts[j].kind) then ParseLogicalArg(ts, i, funcs) else Done(RawQuery(q), j)
    else if k == T.Ident then
      if target == LogicalType then ParseLogicalArg(ts, i, funcs)
      else
        var (f, j) :- ParseCall(ts, i, funcs);
        if ContinuesLogical(ts[j].kind) then ParseLogicalArg(ts, i, funcs) else Done(RawCall(f), j)
    else
      var (l, j) :- ParseLiteral(ts, i);
      Done(RawLiteral(l), j)
  }

  /** A query or call that an operator follows is part of a logical argument, whatever the parameter wants. */
  lemma OperatorContinues(ts: Stream, i: nat, target: FuncType, funcs: Registry)
    requires i < |ts| && !StartsExplicitLogical(ts, i)
    ensures ts[i].kind in {T.At_, T.Dollar} && ParseFilterQuery(ts, i, funcs).Done? ==>
              var j := ParseFilterQuery(ts, i, funcs).next;
              ParseArg(ts, i, target, funcs)
              == if target == LogicalType || Operator(ts[j].kind) then ParseLogicalArg(ts, i, funcs)
                 else Done(RawQuery(ParseFilterQuery(ts, i, funcs).value), j)
    ensures ts[i].kind == T.Ident && ParseCall(ts, i, funcs).Done? ==>
              var j := ParseCall(ts, i, funcs).next;
              ParseArg(ts, i, target, funcs)
              == if target == LogicalType || Operator(ts[j].kind) then ParseLogicalArg(ts, i, funcs)
                 else Done(RawCall(ParseCall(ts, i, funcs).value), j)
  {
    hide ParseFilterQuery, ParseCall, ParseLogicalArg, StartsExplicitLogical, T.ValidSymbol;
  }

  predicate Operator(k: T.Kind) {
    k in {T.And, T.Or, T.Equal, T.NotEqual, T.Less, T.LessEqual, T.Greater, T.GreaterEqual}
  }

  /** An argument checked against the type of its parameter. */
  function CompileArg(kind: FuncType, raw: RawArg): Option<FuncArg> {
    match raw
    case RawQuery(q) =>
      if kind != NodesType && (kind != ValueType || !Singular(q)) then None else Some(FuncArg(kind, QueryArg(q)))
    case RawCall(f) => if f.result != kind then None else Some(FuncArg(kind, FunctionArg(f)))
    case RawLogical(or) => if kind != LogicalType then None else Some(FuncArg(kind, LogicalArg(or)))
    case RawLiteral(l) => if kind != ValueType then None else Some(FuncArg(kind, LiteralArg(l)))
  }

  /** All arguments, or None if their number or one of their types is wrong. */
  function CompileArgs(params: seq<FuncType>, raws: seq<RawArg>): Option<seq<FuncArg>> {
    if params == [] || raws == [] then (if params == [] && raws == [] then Some([]) else None)
    else match (CompileArg(params[0], raws[0]), CompileArgs(params[1..], raws[1..]))
      case (Some(a), Some(rest)) => Some([a] + rest)
      case (_, _) => None
  }

  /** An offending lexeme exists exactly when the segments parsed are not all singular. */
  lemma {:induction false} FirstNonSingularExists(ts: Stream, i: nat, funcs: Registry)
    requires i < |ts| && ParseSegments(ts, i, funcs).Done?
    ensures FirstNonSingular(ts, i).None? <==> SingularSegments(ParseSegments(ts, i, funcs).value)
    decreases |ts| - i
  {
    hide ParseBracketed, ParseDotChild, ParseDescendant, MarkInBrackets, DotChildMark, SingularSegments,
      SingularSegment;
    NoneSingular();
    match ts[i].kind
    case DotDot =>
      var (s, j) := ParseDescendant(ts, i + 1, funcs).Extract();
      DescendantNotSingular(ts, i + 1, funcs);
      ConsSingular(s, ParseSegments(ts, j, funcs).value);
    case LeftBracket =>
      var (ss, j) := ParseBracketed(ts, i + 1, funcs).Extract();
      FirstNonSingularExists(ts, j, funcs);
      MarkInBracketsExists(ts, i + 1, funcs);
      ConsSingular(Segment(ss, false), ParseSegments(ts, j, funcs).value);
    case Dot =>
      var (s, j) := ParseDotChild(ts, i + 1).Extract();
      FirstNonSingularExists(ts, j, funcs);
      DotChildMarkExists(ts, i + 1);
      ConsSingular(Segment([s], false), ParseSegments(ts, j, funcs).value);
    case _ =>
  }

  lemma ConsSingular(s: Segment, rest: seq<Segment>)
    ensures SingularSegments([s] + rest) <==> SingularSegment(s) && SingularSegments(rest)
  {
    assert ([s] + rest)[0] == s;
    assert forall i | 0 <= i < |rest| :: ([s] + rest)[i + 1] == rest[i];
  }

  lemma NoneSingular()
    ensures SingularSegments([])
  {
  }

  lemma DescendantNotSingular(ts: Stream, i: nat, funcs: Registry)
    requires i < |ts|
    ensures ParseDescendant(ts, i, funcs).Done? ==> !SingularSegment(ParseDescendant(ts, i, funcs).value)
  {
    hide ParseBracketed;
  }

  lemma DotChildMarkExists(ts: Stream, i: nat)
    requires i < |ts| && ParseDotChild(ts, i).Done?
    ensures DotChildMark(ts, i).None? <==> SingularSegment(Segment([ParseDotChild(ts, i).value], false))
    ensures DotChildMark(ts, i).None? ==> IsMemberName(ts[i].kind) && ParseDotChild(ts, i).next == i + 1
  {
  }

  lemma SelectorMarkExists(ts: Stream, i: nat, funcs: Registry)
    requires i < |ts| && ParseSelector(ts, i, funcs).Done?
    ensures SelectorMark(ts, i).None? <==> SingularSelector(ParseSelector(ts, i, funcs).value)
    ensures SelectorMark(ts, i).None?
            ==> (ts[i].kind == T.String || ts[i].kind == T.Int) && ParseSelector(ts, i, funcs).next == i + 1
  {
    hide ParseOr;
  }

  lemma MarkInBracketsExists(ts: Stream, i: nat, funcs: Registry)
    requires i < |ts| && ParseBracketed(ts, i, funcs).Done?
    ensures MarkInBrackets(ts, i).None? <==> SingularSegment(Segment(ParseBracketed(ts, i, funcs).value, false))
    ensures MarkInBrackets(ts, i).None?
            ==> ParseBracketed(ts, i, funcs).next == i + 2 && ts[i + 1].kind == T.RightBracket
  {
    hide ParseSelector, SelectorMark;
    SelectorMarkExists(ts, i, funcs);
  }

  // ---- A whole source

  /** A root query and then the end. */
  function ParseQuery(ts: Stream, funcs: Registry): (r: Parsed<PathQuery>)
    ensures r.Failed? ==> r.at < |ts|
  {
    if ts[0].kind != T.Dollar then Failed(0)
    else
      var (q, j) :- ParseFilterQuery(ts, 0, funcs);
      if ts[j].kind != T.EOF then Failed(j) else Done(q, j)
  }
}
