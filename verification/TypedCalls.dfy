/**
 * Type soundness at run time: while a well-typed query is evaluated with callbacks that honour their result types,
 * every call receives arguments of the declared parameter types.
 */
module TypedCalls {
  import opened Common
  import opened Json
  import opened Syntax
  import opened Compare
  import opened Evaluate
  import Layout
  import TypeSafety

  predicate HasType(v: FunctionValue, t: FuncType) {
    match t
    case ValueType => v.TypedValue?
    case LogicalType => v.TypedLogical?
    case NodesType => v.TypedNodes?
  }

  predicate Fit(args: seq<FunctionValue>, params: seq<FuncType>) {
    |args| == |params| && forall i | 0 <= i < |args| :: HasType(args[i], params[i])
  }

  /** On arguments of the declared types, a callback returns a value of its declared result type. */
  ghost predicate Honest(call: Callbacks, funcs: Registry) {
    forall name, args | name in funcs && Fit(args, funcs[name].params) :: HasType(call(name, args), funcs[name].result)
  }

  /** The two sets of callbacks can only be told apart by arguments of the wrong types. */
  ghost predicate AgreeWhenTyped(c: Callbacks, d: Callbacks, funcs: Registry) {
    forall name, args | name in funcs && Fit(args, funcs[name].params) :: c(name, args) == d(name, args)
  }

  // ---- One call

  lemma {:induction false} ArgHasType(a: FuncArg, param: FuncType, current: Json, root: Json, call: Callbacks,
          funcs: Registry)
    requires WellTypedArg(a, param, funcs) && Honest(call, funcs)
    ensures HasType(EvalArg(a, current, root, call), param)
    decreases a, 0
  {
    hide Honest, WellTypedQuery, WellTypedOr, WellTypedCall, Singular, Select, EvalOr, EvalCall;
    if a.source.FunctionArg? {
      CallHasType(a.source.call, current, root, call, funcs);
    }
  }

  lemma {:induction false} ArgsHaveTypes(args: seq<FuncArg>, params: seq<FuncType>, current: Json, root: Json,
          call: Callbacks, funcs: Registry)
    requires |args| == |params| && (forall i | 0 <= i < |args| :: WellTypedArg(args[i], params[i], funcs))
             && Honest(call, funcs)
    ensures Fit(EvalArgs(args, current, root, call), params)
    decreases args, 0
  {
    hide Honest, WellTypedArg, EvalArg, HasType;
    if args != [] {
      ArgHasType(args[0], params[0], current, root, call, funcs);
      ArgsHaveTypes(args[1..], params[1..], current, root, call, funcs);
    }
  }

  /** A well-typed call receives what it declares and so returns what it declares. */
  lemma {:induction false} CallHasType(f: FuncExpr, current: Json, root: Json, call: Callbacks, funcs: Registry)
    requires WellTypedCall(f, funcs) && Honest(call, funcs)
    ensures Fit(EvalArgs(f.args, current, root, call), funcs[f.name].params)
    ensures HasType(EvalCall(f, current, root, call), f.result)
    decreases f, 0
  {
    hide WellTypedArg, EvalArgs, HasType, Fit;
    ArgsHaveTypes(f.args, funcs[f.name].params, current, root, call, funcs);
  }

  /** A comparand is a JSON value or Nothing, never a node list or a truth value. */
  lemma ComparandIsValue(v: CompValue, current: Json, root: Json, call: Callbacks, funcs: Registry)
    requires WellTypedComparand(v, funcs) && Honest(call, funcs)
    ensures var r := EvalComparand(v, current, root, call); r.Nothing? || r.JsonValue?
  {
    hide Honest, WellTypedQuery, WellTypedCall, Singular, Select, EvalCall;
    if v.FuncValue? {
      CallHasType(v.call, current, root, call, funcs);
    }
  }

  /** A test never meets a result of the wrong kind: it is the truth value itself, or whether there are nodes. */
  lemma TestIsResult(f: FuncExpr, current: Json, root: Json, call: Callbacks, funcs: Registry)
    requires WellTypedBasic(Func(f), funcs) && Honest(call, funcs)
    ensures match EvalCall(f, current, root, call)
            case TypedLogical(b) => f.result == LogicalType && EvalTest(f, current, root, call) == b
            case TypedNodes(ns) => f.result == NodesType && EvalTest(f, current, root, call) == (ns != [])
            case TypedValue(_) => false
  {
    hide Honest, WellTypedCall, EvalCall;
    CallHasType(f, current, root, call, funcs);
  }

  // ---- Whole queries: behaviour on ill-typed arguments makes no difference

  lemma {:induction false} SelectAgrees(q: PathQuery, current: Json, root: Json, c: Callbacks, d: Callbacks,
      funcs: Registry)
    requires WellTypedQuery(q, funcs) && Honest(c, funcs) && AgreeWhenTyped(c, d, funcs)
    ensures Select(q, current, root, c) == Select(q, current, root, d)
    decreases q, 0
  {
    hide Honest, AgreeWhenTyped, SelectFrom, WellTypedSegments;
    SelectFromAgrees(q.segments, [Node([], if q.root then root else current)], root, c, d, funcs);
  }

  lemma {:induction false} SelectFromAgrees(ss: seq<Segment>, ns: seq<Node>, root: Json, c: Callbacks,
          d: Callbacks, funcs: Registry)
    requires WellTypedSegments(ss, funcs) && Honest(c, funcs) && AgreeWhenTyped(c, d, funcs)
    ensures SelectFrom(ss, ns, root, c) == SelectFrom(ss, ns, root, d)
    decreases ss, 0
  {
    hide Honest, AgreeWhenTyped, ApplySelectorsAll, WellTypedSelectors, VisitAll;
    if ss != [] {
      var visited := Visited(ss[0], ns);
      assert WellTypedSegment(ss[0], funcs);
      ApplySelectorsAllAgrees(ss[0].selectors, visited, root, c, d, funcs);
      SelectFromAgrees(ss[1..], ApplySelectorsAll(ss[0].selectors, visited, root, c), root, c, d, funcs);
    }
  }

  lemma {:induction false} ApplySelectorsAllAgrees(ss: seq<Selector>, ns: seq<Node>, root: Json, c: Callbacks,
          d: Callbacks, funcs: Registry)
    requires WellTypedSelectors(ss, funcs) && Honest(c, funcs) && AgreeWhenTyped(c, d, funcs)
    ensures ApplySelectorsAll(ss, ns, root, c) == ApplySelectorsAll(ss, ns, root, d)
    decreases ss, 1, |ns|
  {
    hide Honest, AgreeWhenTyped, ApplySelectors, WellTypedSelectors;
    if ns != [] {
      ApplySelectorsAgrees(ss, ns[0], root, c, d, funcs);
      ApplySelectorsAllAgrees(ss, ns[1..], root, c, d, funcs);
    }
  }

  lemma {:induction false} ApplySelectorsAgrees(ss: seq<Selector>, n: Node, root: Json, c: Callbacks,
          d: Callbacks, funcs: Registry)
    requires WellTypedSelectors(ss, funcs) && Honest(c, funcs) && AgreeWhenTyped(c, d, funcs)
    ensures ApplySelectors(ss, n, root, c) == ApplySelectors(ss, n, root, d)
    decreases ss, 0
  {
    hide Honest, AgreeWhenTyped, Pick, WellTypedSelector, Below;
    if ss != [] {
      PickAgrees(ss[0], n.value, root, c, d, funcs);
      ApplySelectorsAgrees(ss[1..], n, root, c, d, funcs);
    }
  }

  lemma {:induction false} PickAgrees(s: Selector, j: Json, root: Json, c: Callbacks, d: Callbacks, funcs: Registry)
    requires WellTypedSelector(s, funcs) && Honest(c, funcs) && AgreeWhenTyped(c, d, funcs)
    ensures Pick(s, j, root, c) == Pick(s, j, root, d)
    decreases s, 0
  {
    hide Honest, AgreeWhenTyped, Children, Passing, WellTypedOr;
    if s.Filter? {
      PassingAgrees(s.expr, Children(j), root, c, d, funcs);
    }
  }

  lemma {:induction false} PassingAgrees(or: LogicalOr, cs: seq<Child>, root: Json, c: Callbacks, d: Callbacks,
          funcs: Registry)
    requires WellTypedOr(or, funcs) && Honest(c, funcs) && AgreeWhenTyped(c, d, funcs)
    ensures Passing(or, cs, root, c) == Passing(or, cs, root, d)
    decreases or, 1, |cs|
  {
    hide Honest, AgreeWhenTyped, EvalOr, WellTypedOr;
    if cs != [] {
      OrAgrees(or, cs[0].value, root, c, d, funcs);
      PassingAgrees(or, cs[1..], root, c, d, funcs);
    }
  }

  lemma {:induction false} OrAgrees(or: LogicalOr, current: Json, root: Json, c: Callbacks, d: Callbacks,
      funcs: Registry)
    requires WellTypedOr(or, funcs) && Honest(c, funcs) && AgreeWhenTyped(c, d, funcs)
    ensures EvalOr(or, current, root, c) == EvalOr(or, current, root, d)
    decreases or, 0
  {
    hide Honest, AgreeWhenTyped, EvalAnd, WellTypedAnd;
    forall i | 0 <= i < |or|
      ensures EvalAnd(or[i], current, root, c) == EvalAnd(or[i], current, root, d)
    {
      AndAgrees(or[i], current, root, c, d, funcs);
    }
  }

  lemma {:induction false} AndAgrees(and: LogicalAnd, current: Json, root: Json, c: Callbacks, d: Callbacks,
      funcs: Registry)
    requires WellTypedAnd(and, funcs) && Honest(c, funcs) && AgreeWhenTyped(c, d, funcs)
    ensures EvalAnd(and, current, root, c) == EvalAnd(and, current, root, d)
    decreases and, 0
  {
    hide Honest, AgreeWhenTyped, EvalBasic, WellTypedBasic;
    forall i | 0 <= i < |and.terms|
      ensures EvalBasic(and.terms[i], current, root, c) == EvalBasic(and.terms[i], current, root, d)
    {
      BasicAgrees(and.terms[i], current, root, c, d, funcs);
    }
  }

  lemma {:induction false} BasicAgrees(e: BasicExpr, current: Json, root: Json, c: Callbacks, d: Callbacks,
      funcs: Registry)
    requires WellTypedBasic(e, funcs) && Honest(c, funcs) && AgreeWhenTyped(c, d, funcs)
    ensures EvalBasic(e, current, root, c) == EvalBasic(e, current, root, d)
    decreases e, 0
  {
    hide Honest, AgreeWhenTyped, Select, EvalOr, EvalCall, EvalComparand, Holds;
    hide WellTypedQuery, WellTypedOr, WellTypedCall, WellTypedComparand;
    match e
    case Exist(q) => SelectAgrees(q, current, root, c, d, funcs);
    case NonExist(q) => SelectAgrees(q, current, root, c, d, funcs);
    case Paren(or) => OrAgrees(or, current, root, c, d, funcs);
    case NotParen(or) => OrAgrees(or, current, root, c, d, funcs);
    case Func(f) => CallAgrees(f, current, root, c, d, funcs);
    case NegFunc(f) => CallAgrees(f, current, root, c, d, funcs);
    case Comp(l, _, r) =>
      ComparandAgrees(l, current, root, c, d, funcs);
      ComparandAgrees(r, current, root, c, d, funcs);
  }

  lemma {:induction false} ComparandAgrees(v: CompValue, current: Json, root: Json, c: Callbacks, d: Callbacks,
          funcs: Registry)
    requires WellTypedComparand(v, funcs) && Honest(c, funcs) && AgreeWhenTyped(c, d, funcs)
    ensures EvalComparand(v, current, root, c) == EvalComparand(v, current, root, d)
    decreases v, 0
  {
    hide Honest, AgreeWhenTyped, Select, EvalCall, WellTypedQuery, WellTypedCall, Singular;
    match v
    case LiteralValue(_) =>
    case QueryValue(q) => SelectAgrees(q, current, root, c, d, funcs);
    case FuncValue(f) => CallAgrees(f, current, root, c, d, funcs);
  }

  lemma {:induction false} CallAgrees(f: FuncExpr, current: Json, root: Json, c: Callbacks, d: Callbacks,
      funcs: Registry)
    requires WellTypedCall(f, funcs) && Honest(c, funcs) && AgreeWhenTyped(c, d, funcs)
    ensures EvalCall(f, current, root, c) == EvalCall(f, current, root, d)
    decreases f, 0
  {
    hide Honest, EvalArgs, Fit, WellTypedArg;
    ArgsAgree(f.args, funcs[f.name].params, current, root, c, d, funcs);
    CallHasType(f, current, root, c, funcs);
  }

  lemma {:induction false} ArgsAgree(args: seq<FuncArg>, params: seq<FuncType>, current: Json, root: Json,
          c: Callbacks, d: Callbacks, funcs: Registry)
    requires |args| == |params| && forall i | 0 <= i < |args| :: WellTypedArg(args[i], params[i], funcs)
    requires Honest(c, funcs) && AgreeWhenTyped(c, d, funcs)
    ensures EvalArgs(args, current, root, c) == EvalArgs(args, current, root, d)
    decreases args, 0
  {
    hide Honest, AgreeWhenTyped, EvalArg, WellTypedArg;
    if args != [] {
      ArgAgrees(args[0], params[0], current, root, c, d, funcs);
      ArgsAgree(args[1..], params[1..], current, root, c, d, funcs);
    }
  }

  lemma {:induction false} ArgAgrees(a: FuncArg, param: FuncType, current: Json, root: Json, c: Callbacks,
          d: Callbacks, funcs: Registry)
    requires WellTypedArg(a, param, funcs) && Honest(c, funcs) && AgreeWhenTyped(c, d, funcs)
    ensures EvalArg(a, current, root, c) == EvalArg(a, current, root, d)
    decreases a, 0
  {
    hide Honest, AgreeWhenTyped, Select, EvalOr, EvalCall, WellTypedQuery, WellTypedOr, WellTypedCall, Singular;
    match a.source
    case LiteralArg(_) =>
    case QueryArg(q) => SelectAgrees(q, current, root, c, d, funcs);
    case LogicalArg(or) => OrAgrees(or, current, root, c, d, funcs);
    case FunctionArg(f) => CallAgrees(f, current, root, c, d, funcs);
  }

  /**
   * What any accepted source selects depends on the callbacks only through calls with arguments of the declared types:
   * no call anywhere in its evaluation receives anything else.
   */
  lemma ParsedQueriesCallTyped(s: string, doc: Json, c: Callbacks, d: Callbacks, funcs: Registry)
    requires Layout.ParseText(s, funcs).Ok? && Honest(c, funcs) && AgreeWhenTyped(c, d, funcs)
    ensures var q := Layout.ParseText(s, funcs).value; Select(q, doc, doc, c) == Select(q, doc, doc, d)
  {
    hide Honest, AgreeWhenTyped, Select, WellTypedQuery;
    TypeSafety.ParsedQueriesTyped(Layout.StreamOf(s), funcs);
    SelectAgrees(Layout.ParseText(s, funcs).value, doc, doc, c, d, funcs);
  }
}
