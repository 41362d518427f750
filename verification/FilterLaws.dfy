/** What filter selectors pick, stated by walking paths in the document and by what their parts pick. */
module FilterLaws {
  import opened Common
  import opened Json
  import opened Numbers
  import opened Syntax
  import opened Compare
  import opened Evaluate
  import opened Locations

  /** The value of a singular query: what its path leads to, or Nothing. */
  function Found(v: Option<Json>): RuntimeValue {
    match v
    case None => Nothing
    case Some(j) => JsonValue(j)
  }

  /** The children that a filter on one basic expression picks. */
  function Filtered(e: BasicExpr, j: Json, root: Json, call: Callbacks): seq<Child> {
    Pick(Filter([LogicalAnd([e])]), j, root, call)
  }

  /** The query below the current node, or below the root, that follows a path. */
  function Following(root: bool, p: Path): PathQuery
    requires Writable(p)
  {
    PathQuery(root, PathSegments(p))
  }

  // ---- Filters in general

  lemma {:induction false} PassingPicks(or: LogicalOr, cs: seq<Child>, root: Json, call: Callbacks, c: Child)
    ensures c in Passing(or, cs, root, call) <==> c in cs && EvalOr(or, c.value, root, call)
  {
    hide EvalOr;
    if cs != [] {
      PassingPicks(or, cs[1..], root, call, c);
      assert cs == [cs[0]] + cs[1..];
    }
  }

  lemma FilterPicks(or: LogicalOr, j: Json, root: Json, call: Callbacks, c: Child)
    ensures c in Pick(Filter(or), j, root, call) <==> c in Children(j) && EvalOr(or, c.value, root, call)
  {
    hide EvalOr, Children, Passing;
    PassingPicks(or, Children(j), root, call, c);
  }

  lemma FilteredPicks(e: BasicExpr, j: Json, root: Json, call: Callbacks, c: Child)
    ensures c in Filtered(e, j, root, call) <==> c in Children(j) && EvalBasic(e, c.value, root, call)
  {
    hide EvalOr, EvalBasic, Children, Pick;
    var or := [LogicalAnd([e])];
    FilterPicks(or, j, root, call, c);
    OneTerm(e, c.value, root, call);
  }

  lemma OneTerm(e: BasicExpr, current: Json, root: Json, call: Callbacks)
    ensures EvalOr([LogicalAnd([e])], current, root, call) <==> EvalBasic(e, current, root, call)
  {
    hide EvalBasic;
    var or := [LogicalAnd([e])];
    assert or[0].terms[0] == e;
    if EvalBasic(e, current, root, call) {
      assert EvalAnd(or[0], current, root, call);
    }
  }

  // ---- Logical connectives

  /** `||` picks the union of what its parts pick. */
  lemma OrPicksUnion(a: LogicalOr, b: LogicalOr, j: Json, root: Json, call: Callbacks, c: Child)
    ensures c in Pick(Filter(a + b), j, root, call)
            <==> c in Pick(Filter(a), j, root, call) || c in Pick(Filter(b), j, root, call)
  {
    hide EvalAnd, Children, Pick;
    FilterPicks(a + b, j, root, call, c);
    FilterPicks(a, j, root, call, c);
    FilterPicks(b, j, root, call, c);
    EvalOrConcat(a, b, c.value, root, call);
  }

  lemma EvalOrConcat(a: LogicalOr, b: LogicalOr, current: Json, root: Json, call: Callbacks)
    ensures EvalOr(a + b, current, root, call) <==> EvalOr(a, current, root, call) || EvalOr(b, current, root, call)
  {
    hide EvalAnd;
    if EvalOr(a, current, root, call) {
      var i :| 0 <= i < |a| && EvalAnd(a[i], current, root, call);
      assert (a + b)[i] == a[i];
    }
    if EvalOr(b, current, root, call) {
      var i :| 0 <= i < |b| && EvalAnd(b[i], current, root, call);
      assert (a + b)[|a| + i] == b[i];
    }
  }

  /** `&&` picks the intersection. */
  lemma AndPicksIntersection(x: seq<BasicExpr>, y: seq<BasicExpr>, j: Json, root: Json, call: Callbacks, c: Child)
    ensures c in Pick(Filter([LogicalAnd(x + y)]), j, root, call)
            <==> c in Pick(Filter([LogicalAnd(x)]), j, root, call) && c in Pick(Filter([LogicalAnd(y)]), j, root, call)
  {
    hide EvalOr, EvalAnd, Children, Pick;
    FilterPicks([LogicalAnd(x + y)], j, root, call, c);
    FilterPicks([LogicalAnd(x)], j, root, call, c);
    FilterPicks([LogicalAnd(y)], j, root, call, c);
    OneConjunction(x + y, c.value, root, call);
    OneConjunction(x, c.value, root, call);
    OneConjunction(y, c.value, root, call);
    EvalAndConcat(x, y, c.value, root, call);
  }

  lemma OneConjunction(x: seq<BasicExpr>, current: Json, root: Json, call: Callbacks)
    ensures EvalOr([LogicalAnd(x)], current, root, call) <==> EvalAnd(LogicalAnd(x), current, root, call)
  {
    hide EvalAnd;
    var or := [LogicalAnd(x)];
    if EvalAnd(LogicalAnd(x), current, root, call) {
      assert EvalAnd(or[0], current, root, call);
    }
  }

  lemma EvalAndConcat(x: seq<BasicExpr>, y: seq<BasicExpr>, current: Json, root: Json, call: Callbacks)
    ensures EvalAnd(LogicalAnd(x + y), current, root, call)
            <==> EvalAnd(LogicalAnd(x), current, root, call) && EvalAnd(LogicalAnd(y), current, root, call)
  {
    hide EvalBasic;
    var z := LogicalAnd(x + y);
    if EvalAnd(z, current, root, call) {
      forall i | 0 <= i < |x|
        ensures EvalBasic(x[i], current, root, call)
      {
        assert z.terms[i] == x[i];
      }
      forall i | 0 <= i < |y|
        ensures EvalBasic(y[i], current, root, call)
      {
        assert z.terms[|x| + i] == y[i];
      }
    }
  }

  /** Parentheses change nothing. */
  lemma ParenPicksSame(or: LogicalOr, j: Json, root: Json, call: Callbacks, c: Child)
    ensures c in Filtered(Paren(or), j, root, call) <==> c in Pick(Filter(or), j, root, call)
  {
    hide EvalOr, Children, Pick, Filtered;
    FilteredPicks(Paren(or), j, root, call, c);
    FilterPicks(or, j, root, call, c);
  }

  /** `!` picks exactly the children that its operand leaves out. */
  lemma NotPicksComplement(e: BasicExpr, not: BasicExpr, j: Json, root: Json, call: Callbacks, c: Child)
    requires (e.Exist? && not == NonExist(e.query)) || (e.Paren? && not == NotParen(e.expr))
             || (e.Func? && not == NegFunc(e.call))
    ensures c in Filtered(not, j, root, call) <==> c in Children(j) && c !in Filtered(e, j, root, call)
  {
    hide EvalOr, EvalTest, Select, Children, Filtered;
    FilteredPicks(e, j, root, call, c);
    FilteredPicks(not, j, root, call, c);
  }

  // ---- Tests and comparisons, by walking

  lemma PathSelects(fromRoot: bool, p: Path, current: Json, root: Json, call: Callbacks)
    requires Writable(p)
    ensures Select(Following(fromRoot, p), current, root, call)
         == match Walk(if fromRoot then root else current, p) case None => [] case Some(v) => [Node(p, v)]
  {
    hide SelectFrom, PathSegments, Walk;
    var start := if fromRoot then root else current;
    PathSegmentsSelect(p, Node([], start), root, call);
    assert [] + p == p;
  }

  /** An existence test on a path holds of the children in which the path leads somewhere. */
  lemma ExistPicks(p: Path, j: Json, root: Json, call: Callbacks, c: Child)
    requires Writable(p)
    ensures c in Filtered(Exist(Following(false, p)), j, root, call) <==> c in Children(j) && Walk(c.value, p).Some?
    ensures c in Filtered(NonExist(Following(false, p)), j, root, call) <==> c in Children(j) && Walk(c.value, p).None?
    ensures c in Filtered(Exist(Following(true, p)), j, root, call) <==> c in Children(j) && Walk(root, p).Some?
    ensures c in Filtered(NonExist(Following(true, p)), j, root, call) <==> c in Children(j) && Walk(root, p).None?
  {
    hide Select, PathSegments, Children, Filtered, Walk;
    TestWalks(false, p, c.value, root, call);
    TestWalks(true, p, c.value, root, call);
    FilteredPicks(Exist(Following(false, p)), j, root, call, c);
    FilteredPicks(NonExist(Following(false, p)), j, root, call, c);
    FilteredPicks(Exist(Following(true, p)), j, root, call, c);
    FilteredPicks(NonExist(Following(true, p)), j, root, call, c);
  }

  lemma TestWalks(fromRoot: bool, p: Path, current: Json, root: Json, call: Callbacks)
    requires Writable(p)
    ensures var v := Walk(if fromRoot then root else current, p);
            && (EvalBasic(Exist(Following(fromRoot, p)), current, root, call) <==> v.Some?)
            && (EvalBasic(NonExist(Following(fromRoot, p)), current, root, call) <==> v.None?)
  {
    hide Select, PathSegments;
    PathSelects(fromRoot, p, current, root, call);
  }

  /** An existence test on any query holds if the query selects something. */
  lemma ExistMeansSelects(q: PathQuery, j: Json, root: Json, call: Callbacks, c: Child)
    ensures c in Filtered(Exist(q), j, root, call)
            <==> c in Children(j) && Select(q, c.value, root, call) != []
  {
    hide Children, Filtered;
    FilteredPicks(Exist(q), j, root, call, c);
  }

  /** A comparison compares what its operands evaluate to, the left one first. */
  lemma ComparisonPicks(l: CompValue, op: CompOp, r: CompValue, j: Json, root: Json, call: Callbacks, c: Child)
    ensures c in Filtered(Comp(l, op, r), j, root, call)
            <==> c in Children(j)
                 && Holds(op, EvalComparand(l, c.value, root, call), EvalComparand(r, c.value, root, call))
  {
    hide EvalComparand, Holds, Children, Filtered;
    FilteredPicks(Comp(l, op, r), j, root, call, c);
  }

  /** A path below the current node compared with a path below the root. */
  lemma PathComparisonPicks(p: Path, op: CompOp, r: Path, j: Json, root: Json, call: Callbacks, c: Child)
    requires Writable(p) && Writable(r)
    ensures c in Filtered(Comp(QueryValue(Following(false, p)), op, QueryValue(Following(true, r))), j, root, call)
            <==> c in Children(j) && Holds(op, Found(Walk(c.value, p)), Found(Walk(root, r)))
  {
    hide EvalComparand, Holds, Children, Filtered, Walk, PathSegments;
    ComparisonPicks(QueryValue(Following(false, p)), op, QueryValue(Following(true, r)), j, root, call, c);
    QueryOperand(false, p, c.value, root, call);
    QueryOperand(true, r, c.value, root, call);
  }

  /** A path compared with a literal, on either side. */
  lemma LiteralComparisonPicks(p: Path, op: CompOp, l: Literal, v: Json, j: Json, root: Json, call: Callbacks, c: Child)
    requires Writable(p) && Denotes(l, v)
    ensures c in Filtered(Comp(QueryValue(Following(false, p)), op, LiteralValue(l)), j, root, call)
            <==> c in Children(j) && Holds(op, Found(Walk(c.value, p)), JsonValue(v))
    ensures c in Filtered(Comp(LiteralValue(l), op, QueryValue(Following(false, p))), j, root, call)
            <==> c in Children(j) && Holds(op, JsonValue(v), Found(Walk(c.value, p)))
  {
    hide Holds, Children, Filtered, Walk, PathSegments, Select;
    ComparisonPicks(QueryValue(Following(false, p)), op, LiteralValue(l), j, root, call, c);
    ComparisonPicks(LiteralValue(l), op, QueryValue(Following(false, p)), j, root, call, c);
    QueryOperand(false, p, c.value, root, call);
    LiteralOperand(l, v, c.value, root, call);
  }

  // ---- Operands

  /** The JSON value that a literal is written for. */
  predicate Denotes(l: Literal, v: Json) {
    match v
    case Str(s) => l == StringLiteral(s)
    case Num(Lexeme(text)) => l.NumberLiteral? && l.text == text
    case Bool(b) => l == BoolLiteral(b)
    case Null => l == NullLiteral
    case _ => false
  }

  lemma LiteralOperand(l: Literal, v: Json, current: Json, root: Json, call: Callbacks)
    ensures EvalComparand(LiteralValue(l), current, root, call) == JsonValue(v) <==> Denotes(l, v)
  {
  }

  lemma QueryOperand(fromRoot: bool, p: Path, current: Json, root: Json, call: Callbacks)
    requires Writable(p)
    ensures EvalComparand(QueryValue(Following(fromRoot, p)), current, root, call)
         == Found(Walk(if fromRoot then root else current, p))
  {
    hide Select, PathSegments;
    PathSelects(fromRoot, p, current, root, call);
  }

  /** A call in a comparison: the value that the callback returns for the arguments in their order. */
  lemma CallOperand(f: FuncExpr, args: seq<FunctionValue>, current: Json, root: Json, call: Callbacks)
    requires |args| == |f.args| && forall i | 0 <= i < |args| :: args[i] == EvalArg(f.args[i], current, root, call)
    ensures match call(f.name, args)
            case TypedValue(v) => EvalComparand(FuncValue(f), current, root, call) == Found(v)
            case TypedLogical(b) => EvalComparand(FuncValue(f), current, root, call) == LogicalValue(b)
            case TypedNodes(ns) => EvalComparand(FuncValue(f), current, root, call) == NodesValue(ns)
  {
    hide EvalArg;
    ArgsInOrder(f.args, args, current, root, call);
  }

  lemma {:induction false} ArgsInOrder(args: seq<FuncArg>, vs: seq<FunctionValue>, current: Json, root: Json,
      call: Callbacks)
    requires |vs| == |args| && forall i | 0 <= i < |args| :: vs[i] == EvalArg(args[i], current, root, call)
    ensures EvalArgs(args, current, root, call) == vs
  {
    hide EvalArg;
    if args != [] {
      ArgsInOrder(args[1..], vs[1..], current, root, call);
      assert vs == [vs[0]] + vs[1..];
    }
  }

  /** A call as a test: true itself, or at least one node, in the kind the function declares. */
  lemma CallPicks(f: FuncExpr, args: seq<FunctionValue>, j: Json, root: Json, call: Callbacks, c: Child)
    requires |args| == |f.args| && forall i | 0 <= i < |args| :: args[i] == EvalArg(f.args[i], c.value, root, call)
    ensures c in Filtered(Func(f), j, root, call) <==> c in Children(j) && Succeeds(call(f.name, args), f.result)
  {
    hide EvalArg, EvalTest, Succeeds, Children, Filtered;
    CallTest(f, args, c.value, root, call);
    FilteredPicks(Func(f), j, root, call, c);
  }

  /** The result makes a test of this type succeed. */
  predicate Succeeds(v: FunctionValue, result: FuncType) {
    match v
    case TypedLogical(b) => result == LogicalType && b
    case TypedNodes(ns) => result == NodesType && ns != []
    case TypedValue(_) => false
  }

  lemma CallTest(f: FuncExpr, args: seq<FunctionValue>, current: Json, root: Json, call: Callbacks)
    requires |args| == |f.args| && forall i | 0 <= i < |args| :: args[i] == EvalArg(f.args[i], current, root, call)
    ensures EvalTest(f, current, root, call) <==> Succeeds(call(f.name, args), f.result)
  {
    hide EvalArg, EvalArgs;
    ArgsInOrder(f.args, args, current, root, call);
  }

  /** What a literal, a Nodes query and a logical expression hand to the callback. */
  lemma LiteralArgument(kind: FuncType, l: Literal, v: Json, current: Json, root: Json, call: Callbacks)
    ensures EvalArg(FuncArg(kind, LiteralArg(l)), current, root, call) == TypedValue(Some(v)) <==> Denotes(l, v)
  {
  }

  lemma NodesArgument(q: PathQuery, current: Json, root: Json, call: Callbacks)
    ensures EvalArg(FuncArg(NodesType, QueryArg(q)), current, root, call)
         == TypedNodes(Values(Select(q, current, root, call)))
  {
  }

  lemma LogicalArgument(kind: FuncType, or: LogicalOr, j: Json, root: Json, call: Callbacks, c: Child)
    requires c in Children(j)
    ensures EvalArg(FuncArg(kind, LogicalArg(or)), c.value, root, call)
         == TypedLogical(c in Pick(Filter(or), j, root, call))
  {
    hide EvalOr, Pick, Children;
    FilterPicks(or, j, root, call, c);
  }

  /** A call as an argument hands over what its own callback returns. */
  lemma CallArgument(kind: FuncType, f: FuncExpr, args: seq<FunctionValue>, current: Json, root: Json, call: Callbacks)
    requires |args| == |f.args| && forall i | 0 <= i < |args| :: args[i] == EvalArg(f.args[i], current, root, call)
    ensures EvalArg(FuncArg(kind, FunctionArg(f)), current, root, call) == call(f.name, args)
  {
    hide EvalArgs;
    ArgsInOrder(f.args, args, current, root, call);
  }

  /** A singular query as a Value argument hands over what its path leads to. */
  lemma PathArgument(fromRoot: bool, p: Path, current: Json, root: Json, call: Callbacks)
    requires Writable(p)
    ensures EvalArg(FuncArg(ValueType, QueryArg(Following(fromRoot, p))), current, root, call)
         == TypedValue(Walk(if fromRoot then root else current, p))
  {
    hide Select, PathSegments, Walk;
    PathSelects(fromRoot, p, current, root, call);
  }
}
