/**
 * What a query selects, as a specification: nodes carry the path that leads to them from the start of the query,
 * and a descendant segment visits nodes in recursive pre-order (section 2.5.2.2 of RFC 9535).
 */
module Evaluate {
  import opened Common
  import opened Json
  import Numbers
  import opened Syntax
  import opened Slices
  import opened Compare

  type Path = seq<Step>

  /** A selected value and where it is. */
  datatype Node = Node(path: Path, value: Json)

  /** The arguments and results of functions. */
  datatype FunctionValue = TypedValue(value: Option<Json>) | TypedLogical(b: bool) | TypedNodes(nodes: seq<Json>)

  /** Function callbacks by name. */
  type Callbacks = (string, seq<FunctionValue>) -> FunctionValue

  function Values(ns: seq<Node>): (vs: seq<Json>)
    ensures |vs| == |ns| && forall i | 0 <= i < |ns| :: vs[i] == ns[i].value
  {
    seq(|ns|, i requires 0 <= i < |ns| => ns[i].value)
  }

  function Below(path: Path, cs: seq<Child>): (ns: seq<Node>)
    ensures |ns| == |cs| && forall i | 0 <= i < |cs| :: ns[i] == Node(path + [cs[i].step], cs[i].value)
  {
    seq(|cs|, i requires 0 <= i < |cs| => Node(path + [cs[i].step], cs[i].value))
  }

  // ---- Pre-order

  /** A node and all its descendants: the node itself, then each child with its own descendants, in order. */
  function Visit(n: Node): seq<Node>
    decreases n.value, 1
  {
    var cs := Children(n.value);
    [n] + VisitChildren(n.path, n.value, cs)
  }

  function VisitChildren(path: Path, ghost parent: Json, cs: seq<Child>): seq<Node>
    requires forall i | 0 <= i < |cs| :: cs[i].value < parent
    decreases parent, 0, |cs|
  {
    if cs == [] then []
    else Visit(Node(path + [cs[0].step], cs[0].value)) + VisitChildren(path, parent, cs[1..])
  }

  function VisitAll(ns: seq<Node>): seq<Node> {
    if ns == [] then [] else Visit(ns[0]) + VisitAll(ns[1..])
  }

  // ---- Selection

  /** The nodes a segment applies its selectors to. */
  function Visited(s: Segment, ns: seq<Node>): seq<Node> {
    if s.descendant then VisitAll(ns) else ns
  }

  function Select(q: PathQuery, current: Json, root: Json, call: Callbacks): seq<Node>
    decreases q, 0
  {
    SelectFrom(q.segments, [Node([], if q.root then root else current)], root, call)
  }

  function SelectFrom(ss: seq<Segment>, ns: seq<Node>, root: Json, call: Callbacks): seq<Node>
    decreases ss, 0
  {
    if ss == [] then ns
    else SelectFrom(ss[1..], ApplySelectorsAll(ss[0].selectors, Visited(ss[0], ns), root, call), root, call)
  }

  function ApplySelectorsAll(ss: seq<Selector>, ns: seq<Node>, root: Json, call: Callbacks): seq<Node>
    decreases ss, 1, |ns|
  {
    if ns == [] then []
    else ApplySelectors(ss, ns[0], root, call) + ApplySelectorsAll(ss, ns[1..], root, call)
  }

  function ApplySelectors(ss: seq<Selector>, n: Node, root: Json, call: Callbacks): seq<Node>
    decreases ss, 0
  {
    if ss == [] then [] else Below(n.path, Pick(ss[0], n.value, root, call)) + ApplySelectors(ss[1..], n, root, call)
  }

  /** The children of a value that one selector picks, in order (section 2.3 of RFC 9535). */
  function Pick(s: Selector, j: Json, root: Json, call: Callbacks): seq<Child>
    decreases s, 0
  {
    match s
    case Name(name) => if j.Obj? && name in j.members then [Child(NameStep(name), j.members[name])] else []
    case Index(index) =>
      if j.Arr? && 0 <= Normalize(index, |j.elems|) < |j.elems| then
        [ChildAt(j, [], Normalize(index, |j.elems|))]
      else []
    case Slice(args) =>
      if j.Arr? then
        var ks := Selected(args, |j.elems|);
        seq(|ks|, i requires 0 <= i < |ks| => ChildAt(j, [], ks[i]))
      else []
    case Wildcard => Children(j)
    case Filter(expr) => Passing(expr, Children(j), root, call)
  }

  /** The children for which the filter expression holds. */
  function Passing(expr: LogicalOr, cs: seq<Child>, root: Json, call: Callbacks): (r: seq<Child>)
    decreases expr, 1, |cs|
  {
    if cs == [] then []
    else
      var rest := Passing(expr, cs[1..], root, call);
      if EvalOr(expr, cs[0].value, root, call) then [cs[0]] + rest else rest
  }

  // ---- Filter expressions

  predicate EvalOr(or: LogicalOr, current: Json, root: Json, call: Callbacks)
    decreases or, 0
  {
    exists i | 0 <= i < |or| :: EvalAnd(or[i], current, root, call)
  }

  predicate EvalAnd(and: LogicalAnd, current: Json, root: Json, call: Callbacks)
    decreases and, 0
  {
    forall i | 0 <= i < |and.terms| :: EvalBasic(and.terms[i], current, root, call)
  }

  predicate EvalBasic(e: BasicExpr, current: Json, root: Json, call: Callbacks)
    decreases e, 0
  {
    match e
    case Exist(q) => q.segments == [] || Select(q, current, root, call) != []
    case NonExist(q) => !(q.segments == [] || Select(q, current, root, call) != [])
    case Paren(or) => EvalOr(or, current, root, call)
    case NotParen(or) => !EvalOr(or, current, root, call)
    case Func(f) => EvalTest(f, current, root, call)
    case NegFunc(f) => !EvalTest(f, current, root, call)
    case Comp(l, op, r) => Holds(op, EvalComparand(l, current, root, call), EvalComparand(r, current, root, call))
  }

  function LiteralJson(l: Literal): Json {
    match l
    case StringLiteral(s) => Str(s)
    case NumberLiteral(text) => Num(Numbers.Lexeme(text))
    case BoolLiteral(b) => Bool(b)
    case NullLiteral => Null
  }

  function EvalComparand(v: CompValue, current: Json, root: Json, call: Callbacks): RuntimeValue
    decreases v, 0
  {
    match v
    case LiteralValue(l) => JsonValue(LiteralJson(l))
    case QueryValue(q) =>
      var ns := Select(q, current, root, call);
      if |ns| != 1 then Nothing else JsonValue(ns[0].value)
    case FuncValue(f) => FromFunction(EvalCall(f, current, root, call))
  }

  function FromFunction(v: FunctionValue): RuntimeValue {
    match v
    case TypedValue(None) => Nothing
    case TypedValue(Some(j)) => JsonValue(j)
    case TypedLogical(b) => LogicalValue(b)
    case TypedNodes(ns) => NodesValue(ns)
  }

  /** A function used as a test; a result of the wrong kind counts as false. */
  predicate EvalTest(f: FuncExpr, current: Json, root: Json, call: Callbacks)
    decreases f, 1
  {
    var v := FromFunction(EvalCall(f, current, root, call));
    match f.result
    case LogicalType => v.LogicalValue? && v.b
    case NodesType => v.NodesValue? && v.nodes != []
    case ValueType => false
  }

  function EvalCall(f: FuncExpr, current: Json, root: Json, call: Callbacks): FunctionValue
    decreases f, 0
  {
    call(f.name, EvalArgs(f.args, current, root, call))
  }

  function EvalArgs(args: seq<FuncArg>, current: Json, root: Json, call: Callbacks): (vs: seq<FunctionValue>)
    ensures |vs| == |args|
    decreases args, 0
  {
    if args == [] then [] else [EvalArg(args[0], current, root, call)] + EvalArgs(args[1..], current, root, call)
  }

  function EvalArg(a: FuncArg, current: Json, root: Json, call: Callbacks): FunctionValue
    decreases a, 0
  {
    match a.source
    case LiteralArg(l) => TypedValue(Some(LiteralJson(l)))
    case QueryArg(q) =>
      var ns := Select(q, current, root, call);
      if a.kind == NodesType then TypedNodes(Values(ns))
      else if |ns| == 1 then TypedValue(Some(ns[0].value))
      else TypedValue(None)
    case LogicalArg(or) => TypedLogical(EvalOr(or, current, root, call))
    case FunctionArg(f) => EvalCall(f, current, root, call)
  }
}
