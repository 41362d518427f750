/** The abstract syntax of a compiled query. */
module Syntax {
  import opened Common
  import opened NumberText

  /** The largest integer a query may write: 2^53 - 1. */
  const MAX_JSON_INTEGER: int := 0x1F_FFFF_FFFF_FFFF

  type JsonInteger = x: int | -MAX_JSON_INTEGER <= x <= MAX_JSON_INTEGER

  /** The text of a number literal, kept as written. */
  type NumberLexeme = s: string | IsNumberText(s) witness "0"

  datatype FuncType = LogicalType | ValueType | NodesType

  datatype PathQuery = PathQuery(root: bool, segments: seq<Segment>)

  datatype Segment = Segment(selectors: seq<Selector>, descendant: bool)

  datatype SliceArgs = SliceArgs(start: Option<JsonInteger>, end: Option<JsonInteger>, step: Option<JsonInteger>)

  datatype Selector =
    | Name(name: string)
    | Index(index: JsonInteger)
    | Slice(args: SliceArgs)
    | Wildcard
    | Filter(expr: LogicalOr)

  /** Basic expressions joined by `&&`. */
  datatype LogicalAnd = LogicalAnd(terms: seq<BasicExpr>)

  /** Conjunctions joined by `||`. */
  type LogicalOr = seq<LogicalAnd>

  datatype CompOp = Equal | NotEqual | Less | LessEqual | Greater | GreaterEqual

  datatype BasicExpr =
    | Exist(query: PathQuery)
    | NonExist(query: PathQuery)
    | Paren(expr: LogicalOr)
    | NotParen(expr: LogicalOr)
    | Func(call: FuncExpr)
    | NegFunc(call: FuncExpr)
    | Comp(left: CompValue, op: CompOp, right: CompValue)

  datatype CompValue =
    | LiteralValue(literal: Literal)
    | QueryValue(query: PathQuery)
    | FuncValue(call: FuncExpr)

  datatype Literal = StringLiteral(s: string) | NumberLiteral(text: NumberLexeme) | BoolLiteral(b: bool) | NullLiteral

  /** A call compiled against its declaration: result type and argument kinds are fixed at parse time. */
  datatype FuncExpr = FuncExpr(name: string, result: FuncType, args: seq<FuncArg>)

  datatype FuncArg = FuncArg(kind: FuncType, source: ArgSource)

  datatype ArgSource =
    | LiteralArg(literal: Literal)
    | QueryArg(query: PathQuery)
    | LogicalArg(expr: LogicalOr)
    | FunctionArg(call: FuncExpr)

  /** The declaration of a function: what it returns and what it takes. */
  datatype Signature = Signature(result: FuncType, params: seq<FuncType>)

  type Registry = map<string, Signature>

  predicate SingularSelector(s: Selector) {
    s.Name? || s.Index?
  }

  predicate SingularSegment(s: Segment) {
    !s.descendant && |s.selectors| == 1 && SingularSelector(s.selectors[0])
  }

  predicate SingularSegments(ss: seq<Segment>) {
    forall i | 0 <= i < |ss| :: SingularSegment(ss[i])
  }

  /** Every segment is a child segment with one name or index selector. */
  predicate Singular(q: PathQuery) {
    SingularSegments(q.segments)
  }

  // ---- Well-typed queries, section 2.4.3 of RFC 9535

  predicate WellTypedQuery(q: PathQuery, funcs: Registry)
    decreases q, 0
  {
    WellTypedSegments(q.segments, funcs)
  }

  predicate WellTypedSegments(ss: seq<Segment>, funcs: Registry)
    decreases ss, 0
  {
    forall i | 0 <= i < |ss| :: WellTypedSegment(ss[i], funcs)
  }

  predicate WellTypedSegment(s: Segment, funcs: Registry)
    decreases s, 0
  {
    s.selectors != [] && WellTypedSelectors(s.selectors, funcs)
  }

  predicate WellTypedSelectors(ss: seq<Selector>, funcs: Registry)
    decreases ss, 0
  {
    forall i | 0 <= i < |ss| :: WellTypedSelector(ss[i], funcs)
  }

  predicate WellTypedSelector(s: Selector, funcs: Registry)
    decreases s, 0
  {
    s.Filter? ==> WellTypedOr(s.expr, funcs)
  }

  predicate WellTypedOr(or: LogicalOr, funcs: Registry)
    decreases or, 0
  {
    or != [] && forall i | 0 <= i < |or| :: WellTypedAnd(or[i], funcs)
  }

  predicate WellTypedAnd(and: LogicalAnd, funcs: Registry)
    decreases and, 0
  {
    and.terms != [] && forall i | 0 <= i < |and.terms| :: WellTypedBasic(and.terms[i], funcs)
  }

  /** A test is a query, a Logical function or a Nodes function; a Value function only occurs in a comparison. */
  predicate WellTypedBasic(e: BasicExpr, funcs: Registry)
    decreases e, 0
  {
    match e
    case Exist(q) => WellTypedQuery(q, funcs)
    case NonExist(q) => WellTypedQuery(q, funcs)
    case Paren(or) => WellTypedOr(or, funcs)
    case NotParen(or) => WellTypedOr(or, funcs)
    case Func(f) => WellTypedCall(f, funcs) && f.result != ValueType
    case NegFunc(f) => WellTypedCall(f, funcs) && f.result != ValueType
    case Comp(l, _, r) => WellTypedComparand(l, funcs) && WellTypedComparand(r, funcs)
  }

  /** A comparand is a literal, a singular query or a Value function. */
  predicate WellTypedComparand(v: CompValue, funcs: Registry)
    decreases v, 0
  {
    match v
    case LiteralValue(_) => true
    case QueryValue(q) => Singular(q) && WellTypedQuery(q, funcs)
    case FuncValue(f) => WellTypedCall(f, funcs) && f.result == ValueType
  }

  predicate WellTypedCall(f: FuncExpr, funcs: Registry)
    decreases f, 0
  {
    && f.name in funcs
    && f.result == funcs[f.name].result
    && |f.args| == |funcs[f.name].params|
    && forall i | 0 <= i < |f.args| :: WellTypedArg(f.args[i], funcs[f.name].params[i], funcs)
  }

  predicate WellTypedArg(a: FuncArg, param: FuncType, funcs: Registry)
    decreases a, 0
  {
    && a.kind == param
    && match a.source
       case LiteralArg(_) => param == ValueType
       case QueryArg(q) => WellTypedQuery(q, funcs) && (param == NodesType || (param == ValueType && Singular(q)))
       case LogicalArg(or) => param == LogicalType && WellTypedOr(or, funcs)
       case FunctionArg(f) => param != LogicalType && f.result == param && WellTypedCall(f, funcs)
  }

  lemma AndTerms(and: LogicalAnd, funcs: Registry)
    requires WellTypedAnd(and, funcs)
    ensures and.terms != [] && forall i | 0 <= i < |and.terms| :: WellTypedBasic(and.terms[i], funcs)
  {
    hide WellTypedBasic;
  }
}
