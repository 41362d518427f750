/**
 * The grammar of section 2 of RFC 9535 as a relation: which lexemes spell which query. It says nothing about how
 * to find the query, and leaves the typing rules of section 2.4.3 to the well-typedness predicates of Syntax.
 */
module Spelling {
  import opened Common
  import opened Text
  import T = Tokens
  import opened Syntax
  import opened Grammar

  // ---- Queries and segments

  ghost predicate QueryAt(q: PathQuery, ts: Stream, i: nat, j: nat)
    decreases q, 0
  {
    i < j < |ts| && ts[i].kind == (if q.root then T.Dollar else T.At_) && SegmentsAt(q.segments, ts, i + 1, j)
  }

  ghost predicate SegmentsAt(ss: seq<Segment>, ts: Stream, i: nat, j: nat)
    decreases ss, 0
  {
    i <= j < |ts| && if ss == [] then i == j
      else exists k | i < k <= j :: SegmentAt(ss[0], ts, i, k) && SegmentsAt(ss[1..], ts, k, j)
  }

  /** A child segment in brackets or in its dot shorthand, or a descendant segment. */
  ghost predicate SegmentAt(s: Segment, ts: Stream, i: nat, j: nat)
    decreases s, 0
  {
    i + 1 < j < |ts|
    && if s.descendant then
         ts[i].kind == T.DotDot && !ts[i + 1].gap
           && (BracketedAt(s.selectors, ts, i + 1, j) || ShorthandAt(s.selectors, ts, i + 1, j))
       else
         || BracketedAt(s.selectors, ts, i, j)
         || (ts[i].kind == T.Dot && !ts[i + 1].gap && ShorthandAt(s.selectors, ts, i + 1, j))
  }

  /** `*` or a member name. */
  predicate ShorthandAt(ss: seq<Selector>, ts: Stream, i: nat, j: nat) {
    i + 1 == j < |ts| && |ss| == 1 &&
    match ss[0]
    case Wildcard => ts[i].kind == T.Star
    case Name(n) => ts[i].kind in {T.Ident, T.True, T.False, T.Null} && ts[i].text == n
    case _ => false
  }

  ghost predicate BracketedAt(ss: seq<Selector>, ts: Stream, i: nat, j: nat)
    decreases ss, 2
  {
    i + 1 < j < |ts| && ts[i].kind == T.LeftBracket && SelectorsAt(ss, ts, i + 1, j - 1)
      && ts[j - 1].kind == T.RightBracket
  }

  /** One or more selectors separated by commas. */
  ghost predicate SelectorsAt(ss: seq<Selector>, ts: Stream, i: nat, j: nat)
    decreases ss, 1
  {
    i < j < |ts| && ss != []
    && if |ss| == 1 then SelectorAt(ss[0], ts, i, j)
       else exists k | i < k < j ::
         SelectorAt(ss[0], ts, i, k) && ts[k].kind == T.Comma && SelectorsAt(ss[1..], ts, k + 1, j)
  }

  /** An integer without leading zeros, not written `-0`. */
  predicate IntAt(n: JsonInteger, ts: Stream, i: nat) {
    i < |ts| && ts[i].kind == T.Int && IntValue(ts[i].text) == n && !(n == 0 && ts[i].text[0] == '-')
  }

  predicate OptionalIntAt(n: Option<JsonInteger>, ts: Stream, i: nat, j: nat) {
    match n
    case None => i == j
    case Some(x) => i + 1 == j && IntAt(x, ts, i)
  }

  /** Nothing, a colon, or a colon and a step. */
  predicate StepAt(n: Option<JsonInteger>, ts: Stream, i: nat, j: nat) {
    i <= j < |ts| &&
    match n
    case None => i == j || (i + 1 == j && ts[i].kind == T.Colon)
    case Some(x) => i + 2 == j && ts[i].kind == T.Colon && IntAt(x, ts, i + 1)
  }

  ghost predicate SliceAt(a: SliceArgs, ts: Stream, i: nat, j: nat) {
    exists k, m | i <= k < m <= j < |ts| ::
      OptionalIntAt(a.start, ts, i, k) && ts[k].kind == T.Colon && OptionalIntAt(a.end, ts, k + 1, m)
        && StepAt(a.step, ts, m, j)
  }

  ghost predicate SelectorAt(s: Selector, ts: Stream, i: nat, j: nat)
    decreases s, 0
  {
    i < j < |ts| &&
    match s
    case Name(n) => i + 1 == j && ts[i].kind == T.String && ts[i].text == n
    case Wildcard => i + 1 == j && ts[i].kind == T.Star
    case Index(n) => i + 1 == j && IntAt(n, ts, i)
    case Slice(a) => SliceAt(a, ts, i, j)
    case Filter(or) => ts[i].kind == T.Question && OrAt(or, ts, i + 1, j)
  }

  // ---- Logical expressions

  ghost predicate OrAt(or: LogicalOr, ts: Stream, i: nat, j: nat)
    decreases or, 0
  {
    i < j < |ts| && or != []
    && if |or| == 1 then AndAt(or[0].terms, ts, i, j)
       else exists k | i < k < j :: AndAt(or[0].terms, ts, i, k) && ts[k].kind == T.Or && OrAt(or[1..], ts, k + 1, j)
  }

  ghost predicate AndAt(es: seq<BasicExpr>, ts: Stream, i: nat, j: nat)
    decreases es, 0
  {
    i < j < |ts| && es != []
    && if |es| == 1 then BasicAt(es[0], ts, i, j)
       else exists k | i < k < j :: BasicAt(es[0], ts, i, k) && ts[k].kind == T.And && AndAt(es[1..], ts, k + 1, j)
  }

  ghost predicate GroupAt(or: LogicalOr, ts: Stream, i: nat, j: nat)
    decreases or, 1
  {
    i + 1 < j < |ts| && ts[i].kind == T.LeftParen && OrAt(or, ts, i + 1, j - 1) && ts[j - 1].kind == T.RightParen
  }

  predicate OpAt(op: CompOp, ts: Stream, k: nat) {
    k < |ts| && ts[k].kind == match op
                              case Equal => T.Equal
                              case NotEqual => T.NotEqual
                              case Less => T.Less
                              case LessEqual => T.LessEqual
                              case Greater => T.Greater
                              case GreaterEqual => T.GreaterEqual
  }

  /** The parser takes the operators that the grammar has, and each for itself. */
  lemma OperatorRead(op: CompOp, ts: Stream, k: nat)
    requires k < |ts|
    ensures OpAt(op, ts, k) <==> IsCompOp(ts[k].kind) && CompOpOf(ts[k].kind) == op
  {
    hide T.ValidSymbol;
  }

  ghost predicate BasicAt(e: BasicExpr, ts: Stream, i: nat, j: nat)
    decreases e, 0
  {
    i < j < |ts| &&
    match e
    case Exist(q) => QueryAt(q, ts, i, j)
    case NonExist(q) => ts[i].kind == T.Not && QueryAt(q, ts, i + 1, j)
    case Paren(or) => GroupAt(or, ts, i, j)
    case NotParen(or) => ts[i].kind == T.Not && GroupAt(or, ts, i + 1, j)
    case Func(f) => CallAt(f, ts, i, j)
    case NegFunc(f) => ts[i].kind == T.Not && CallAt(f, ts, i + 1, j)
    case Comp(l, op, r) =>
      exists k | i < k < j :: ComparandAt(l, ts, i, k) && OpAt(op, ts, k) && ComparandAt(r, ts, k + 1, j)
  }

  predicate LiteralAt(l: Literal, ts: Stream, i: nat, j: nat) {
    i + 1 == j < |ts| &&
    match l
    case StringLiteral(s) => ts[i].kind == T.String && ts[i].text == s
    case NumberLiteral(text) => (ts[i].kind == T.Int || ts[i].kind == T.Number) && ts[i].text == text
    case BoolLiteral(b) => ts[i].kind == if b then T.True else T.False
    case NullLiteral => ts[i].kind == T.Null
  }

  ghost predicate ComparandAt(v: CompValue, ts: Stream, i: nat, j: nat)
    decreases v, 0
  {
    match v
    case LiteralValue(l) => LiteralAt(l, ts, i, j)
    case QueryValue(q) => QueryAt(q, ts, i, j)
    case FuncValue(f) => CallAt(f, ts, i, j)
  }

  // ---- Function calls

  ghost predicate CallAt(f: FuncExpr, ts: Stream, i: nat, j: nat)
    decreases f, 0
  {
    && i + 2 < j < |ts| && ts[i].kind == T.Ident && ts[i].text == f.name
    && !ts[i + 1].gap && ts[i + 1].kind == T.LeftParen
    && (if f.args == [] then i + 3 == j else ArgsAt(f.args, ts, i + 2, j - 1))
    && ts[j - 1].kind == T.RightParen
  }

  ghost predicate ArgsAt(args: seq<FuncArg>, ts: Stream, i: nat, j: nat)
    decreases args, 0
  {
    i < j < |ts| && args != []
    && if |args| == 1 then ArgAt(args[0], ts, i, j)
       else exists k | i < k < j :: ArgAt(args[0], ts, i, k) && ts[k].kind == T.Comma && ArgsAt(args[1..], ts, k + 1, j)
  }

  ghost predicate ArgAt(a: FuncArg, ts: Stream, i: nat, j: nat)
    decreases a, 0
  {
    match a.source
    case LiteralArg(l) => LiteralAt(l, ts, i, j)
    case QueryArg(q) => QueryAt(q, ts, i, j)
    case LogicalArg(or) => OrAt(or, ts, i, j)
    case FunctionArg(f) => CallAt(f, ts, i, j)
  }

  /** The whole source spells a root query. */
  ghost predicate Spells(q: PathQuery, ts: Stream) {
    q.root && QueryAt(q, ts, 0, |ts| - 1)
  }
}
