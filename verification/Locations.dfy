/** Where selected nodes are: paths resolve, pre-order is path order, and when no location is selected twice. */
module Locations {
  import opened Common
  import opened Text
  import opened Json
  import opened Syntax
  import opened Slices
  import opened Evaluate
  import opened Traversal
  import opened NormalizedPaths

  /** The value a path leads to, one step at a time. */
  function Walk(j: Json, p: Path): Option<Json> {
    if p == [] then Some(j)
    else match Lookup(j, p[0])
      case None => None
      case Some(c) => Walk(c, p[1..])
  }

  lemma {:induction false} WalkSnoc(j: Json, p: Path, s: Step)
    ensures Walk(j, p + [s]) == match Walk(j, p) case None => None case Some(c) => Lookup(c, s)
  {
    if p == [] {
      assert (p + [s])[1..] == [];
    } else {
      assert (p + [s])[1..] == p[1..] + [s];
      if Lookup(j, p[0]).Some? {
        WalkSnoc(Lookup(j, p[0]).value, p[1..], s);
      }
    }
  }

  // ---- Every node is where its path says

  predicate Resolves(start: Json, n: Node) {
    Walk(start, n.path) == Some(n.value)
  }

  ghost predicate AllResolve(start: Json, ns: seq<Node>) {
    forall i | 0 <= i < |ns| :: Resolves(start, ns[i])
  }

  lemma BelowResolves(start: Json, n: Node, cs: seq<Child>)
    requires Resolves(start, n)
    requires forall c | c in cs :: Lookup(n.value, c.step) == Some(c.value)
    ensures AllResolve(start, Below(n.path, cs))
  {
    forall i | 0 <= i < |cs|
      ensures Resolves(start, Below(n.path, cs)[i])
    {
      assert cs[i] in cs;
      WalkSnoc(start, n.path, cs[i].step);
    }
  }

  lemma {:induction false} VisitResolves(start: Json, n: Node)
    requires Resolves(start, n)
    ensures AllResolve(start, Visit(n))
    decreases n.value, 1
  {
    hide Children, Resolves;
    VisitChildrenResolves(start, n, Children(n.value));
  }

  lemma {:induction false} VisitChildrenResolves(start: Json, n: Node, cs: seq<Child>)
    requires Resolves(start, n)
    requires forall i | 0 <= i < |cs| :: cs[i].value < n.value && Lookup(n.value, cs[i].step) == Some(cs[i].value)
    ensures AllResolve(start, VisitChildren(n.path, n.value, cs))
    decreases n.value, 0, |cs|
  {
    hide Children, Visit;
    if cs != [] {
      WalkSnoc(start, n.path, cs[0].step);
      VisitResolves(start, Node(n.path + [cs[0].step], cs[0].value));
      VisitChildrenResolves(start, n, cs[1..]);
    }
  }

  lemma {:induction false} VisitAllResolves(start: Json, ns: seq<Node>)
    requires AllResolve(start, ns)
    ensures AllResolve(start, VisitAll(ns))
  {
    hide Visit, Resolves;
    if ns != [] {
      VisitResolves(start, ns[0]);
      VisitAllResolves(start, ns[1..]);
    }
  }

  lemma {:induction false} ApplySelectorsResolves(start: Json, ss: seq<Selector>, n: Node, root: Json, call: Callbacks)
    requires Resolves(start, n)
    ensures AllResolve(start, ApplySelectors(ss, n, root, call))
  {
    hide Pick, Resolves;
    if ss != [] {
      PickLookup(ss[0], n.value, root, call);
      BelowResolves(start, n, Pick(ss[0], n.value, root, call));
      ApplySelectorsResolves(start, ss[1..], n, root, call);
    }
  }

  lemma {:induction false} ApplySelectorsAllResolves(start: Json, ss: seq<Selector>, ns: seq<Node>, root: Json,
          call: Callbacks)
    requires AllResolve(start, ns)
    ensures AllResolve(start, ApplySelectorsAll(ss, ns, root, call))
  {
    hide ApplySelectors, Resolves;
    if ns != [] {
      ApplySelectorsResolves(start, ss, ns[0], root, call);
      ApplySelectorsAllResolves(start, ss, ns[1..], root, call);
    }
  }

  lemma {:induction false} SelectFromResolves(start: Json, ss: seq<Segment>, ns: seq<Node>, root: Json, call: Callbacks)
    requires AllResolve(start, ns)
    ensures AllResolve(start, SelectFrom(ss, ns, root, call))
  {
    hide ApplySelectorsAll, Resolves, VisitAll;
    if ss != [] {
      VisitAllResolves(start, ns);
      ApplySelectorsAllResolves(start, ss[0].selectors, Visited(ss[0], ns), root, call);
      SelectFromResolves(start, ss[1..], ApplySelectorsAll(ss[0].selectors, Visited(ss[0], ns), root, call), root,
        call);
    }
  }

  /** Walking the path of a selected node from the start of the query reaches exactly its value. */
  lemma SelectedNodesResolve(q: PathQuery, current: Json, root: Json, call: Callbacks)
    ensures AllResolve(if q.root then root else current, Select(q, current, root, call))
  {
    var start := if q.root then root else current;
    SelectFromResolves(start, q.segments, [Node([], start)], root, call);
  }

  // ---- Pre-order is path order

  ghost predicate Ascending(ns: seq<Node>) {
    forall i, k | 0 <= i < k < |ns| :: ComparePaths(ns[i].path, ns[k].path) < 0
  }

  lemma {:induction false} CompareExtensions(p: Path, a: Path, b: Path)
    ensures ComparePaths(p + a, p + b) == ComparePaths(a, b)
  {
    if p == [] {
      assert p + a == a && p + b == b;
    } else {
      CompareStepsEqual(p[0], p[0]);
      assert (p + a)[1..] == p[1..] + a && (p + b)[1..] == p[1..] + b;
      CompareExtensions(p[1..], a, b);
    }
  }

  lemma SiblingOrder(p: Path, s: Step, t: Step, x: Path, y: Path)
    requires p + [s] <= x && p + [t] <= y && CompareSteps(s, t) < 0
    ensures ComparePaths(x, y) < 0
  {
    var a, b := x[|p|..], y[|p|..];
    assert x == p + a && y == p + b;
    CompareExtensions(p, a, b);
    assert a[0] == s && b[0] == t;
  }

  lemma ParentFirst(p: Path, x: Path)
    requires p < x
    ensures ComparePaths(p, x) < 0
  {
    CompareExtensions(p, [], x[|p|..]);
    assert p + [] == p && p + x[|p|..] == x;
  }

  lemma ChildrenAscend(j: Json)
    ensures forall i, k | 0 <= i < k < |Children(j)| :: CompareSteps(Children(j)[i].step, Children(j)[k].step) < 0
  {
  }

  ghost predicate AllUnder(p: Path, ns: seq<Node>) {
    forall i | 0 <= i < |ns| :: p <= ns[i].path
  }

  lemma {:induction false} VisitUnder(n: Node)
    ensures AllUnder(n.path, Visit(n))
    decreases n.value, 1
  {
    hide Children;
    VisitChildrenUnder(n.path, n.value, Children(n.value));
  }

  lemma {:induction false} VisitChildrenUnder(path: Path, parent: Json, cs: seq<Child>)
    requires forall i | 0 <= i < |cs| :: cs[i].value < parent
    ensures AllUnder(path, VisitChildren(path, parent, cs))
    ensures forall n | n in VisitChildren(path, parent, cs) :: exists i | 0 <= i < |cs| :: path + [cs[i].step] <= n.path
    decreases parent, 0, |cs|
  {
    hide Children, Visit;
    if cs != [] {
      var first := Node(path + [cs[0].step], cs[0].value);
      VisitUnder(first);
      VisitChildrenUnder(path, parent, cs[1..]);
      forall n | n in VisitChildren(path, parent, cs)
        ensures exists i | 0 <= i < |cs| :: path + [cs[i].step] <= n.path
      {
        if n in Visit(first) {
          assert path + [cs[0].step] <= n.path;
        } else {
          var i :| 0 <= i < |cs[1..]| && path + [cs[1..][i].step] <= n.path;
          assert path + [cs[i + 1].step] <= n.path;
        }
      }
    }
  }

  /** Visiting yields the nodes in strictly ascending order of their normalized paths, so each one once. */
  lemma {:induction false} VisitAscends(n: Node)
    ensures Ascending(Visit(n))
    decreases n.value, 1
  {
    hide Children, CompareSteps, ComparePaths;
    var cs := Children(n.value);
    ChildrenAscend(n.value);
    VisitChildrenAscend(n.path, n.value, cs);
    VisitChildrenUnder(n.path, n.value, cs);
    var below := VisitChildren(n.path, n.value, cs);
    forall k | 0 <= k < |below|
      ensures ComparePaths(n.path, below[k].path) < 0
    {
      assert below[k] in below;
      var i :| 0 <= i < |cs| && n.path + [cs[i].step] <= below[k].path;
      ParentFirst(n.path, below[k].path);
    }
    assert Visit(n) == [n] + below;
  }

  lemma {:induction false} VisitChildrenAscend(path: Path, parent: Json, cs: seq<Child>)
    requires forall i | 0 <= i < |cs| :: cs[i].value < parent
    requires forall i, k | 0 <= i < k < |cs| :: CompareSteps(cs[i].step, cs[k].step) < 0
    ensures Ascending(VisitChildren(path, parent, cs))
    decreases parent, 0, |cs|
  {
    hide Children, CompareSteps, ComparePaths, Visit;
    if cs != [] {
      var first := Node(path + [cs[0].step], cs[0].value);
      var a, b := Visit(first), VisitChildren(path, parent, cs[1..]);
      VisitAscends(first);
      VisitUnder(first);
      VisitChildrenAscend(path, parent, cs[1..]);
      VisitChildrenUnder(path, parent, cs[1..]);
      forall i, k | 0 <= i < |a| && 0 <= k < |b|
        ensures ComparePaths(a[i].path, b[k].path) < 0
      {
        assert b[k] in b;
        var m :| 0 <= m < |cs[1..]| && path + [cs[1..][m].step] <= b[k].path;
        SiblingOrder(path, cs[0].step, cs[m + 1].step, a[i].path, b[k].path);
      }
      AscendingConcat(a, b);
    }
  }

  lemma AscendingConcat(a: seq<Node>, b: seq<Node>)
    requires Ascending(a) && Ascending(b)
    requires forall i, k | 0 <= i < |a| && 0 <= k < |b| :: ComparePaths(a[i].path, b[k].path) < 0
    ensures Ascending(a + b)
  {
  }

  /** Visiting leaves nothing out: whatever a path leads to below a node is among the visited nodes. */
  lemma {:induction false} VisitComplete(n: Node, p: Path)
    requires Walk(n.value, p).Some?
    ensures Node(n.path + p, Walk(n.value, p).value) in Visit(n)
    decreases n.value, 1
  {
    hide Children;
    if p == [] {
      assert n.path + p == n.path;
    } else {
      var c := Child(p[0], Lookup(n.value, p[0]).value);
      ChildrenComplete(n.value, p[0]);
      var cs := Children(n.value);
      var i :| 0 <= i < |cs| && cs[i] == c;
      VisitChildrenComplete(n.path, n.value, cs, i, p[1..]);
      assert n.path + [p[0]] + p[1..] == n.path + p;
    }
  }

  lemma {:induction false} VisitChildrenComplete(path: Path, parent: Json, cs: seq<Child>, i: nat, p: Path)
    requires forall k | 0 <= k < |cs| :: cs[k].value < parent
    requires i < |cs| && Walk(cs[i].value, p).Some?
    ensures Node(path + [cs[i].step] + p, Walk(cs[i].value, p).value) in VisitChildren(path, parent, cs)
    decreases parent, 0, |cs|
  {
    hide Children, Visit, Walk;
    if i == 0 {
      VisitComplete(Node(path + [cs[0].step], cs[0].value), p);
    } else {
      VisitChildrenComplete(path, parent, cs[1..], i - 1, p);
    }
  }

  // ---- Singular queries

  /** A singular query selects at most one node. */
  lemma SingularSelectsAtMostOne(q: PathQuery, current: Json, root: Json, call: Callbacks)
    requires Singular(q)
    ensures |Select(q, current, root, call)| <= 1
  {
    SingularFrom(q.segments, [Node([], if q.root then root else current)], root, call);
  }

  lemma {:induction false} SingularFrom(ss: seq<Segment>, ns: seq<Node>, root: Json, call: Callbacks)
    requires SingularSegments(ss) && |ns| <= 1
    ensures |SelectFrom(ss, ns, root, call)| <= 1
  {
    if ss != [] {
      SingularStep(ss[0], ns, root, call);
      SingularFrom(ss[1..], ApplySelectorsAll(ss[0].selectors, Visited(ss[0], ns), root, call), root, call);
    }
  }

  lemma SingularStep(s: Segment, ns: seq<Node>, root: Json, call: Callbacks)
    requires SingularSegment(s) && |ns| <= 1
    ensures |ApplySelectorsAll(s.selectors, Visited(s, ns), root, call)| <= 1
  {
    hide Children, EvalOr;
    if ns != [] {
      OnePick(s.selectors, ns[0], root, call);
      ApplySelectorsAllCons(s.selectors, ns[0], [], root, call);
      assert [ns[0]] + [] == ns;
      OnePickAtMost(s.selectors[0], ns[0].value, root, call);
      assert Visited(s, ns) == ns;
      assert ApplySelectorsAll(s.selectors, [], root, call) == [];
    }
  }

  lemma OnePickAtMost(s: Selector, j: Json, root: Json, call: Callbacks)
    requires SingularSelector(s)
    ensures |Pick(s, j, root, call)| <= 1
  {
  }

  // ---- No location twice

  ghost predicate Distinct(ns: seq<Node>) {
    forall i, k | 0 <= i < k < |ns| :: ns[i].path != ns[k].path
  }

  ghost predicate SameDepth(ns: seq<Node>, depth: nat) {
    forall i | 0 <= i < |ns| :: |ns[i].path| == depth
  }

  ghost predicate DistinctSteps(cs: seq<Child>) {
    forall i, k | 0 <= i < k < |cs| :: cs[i].step != cs[k].step
  }

  lemma {:induction false} PassingDistinct(expr: LogicalOr, cs: seq<Child>, root: Json, call: Callbacks)
    requires DistinctSteps(cs)
    ensures DistinctSteps(Passing(expr, cs, root, call))
    ensures forall c | c in Passing(expr, cs, root, call) :: c in cs
  {
    hide EvalOr;
    if cs != [] {
      var rest := Passing(expr, cs[1..], root, call);
      PassingDistinct(expr, cs[1..], root, call);
      forall k | 0 <= k < |rest|
        ensures rest[k].step != cs[0].step
      {
        assert rest[k] in cs[1..];
        var i :| 0 <= i < |cs[1..]| && cs[1..][i] == rest[k];
        assert cs[i + 1] == rest[k];
      }
    }
  }

  lemma PickDistinct(s: Selector, j: Json, root: Json, call: Callbacks)
    ensures DistinctSteps(Pick(s, j, root, call))
  {
    match s
    case Slice(args) =>
      if j.Arr? {
        SelectedDistinct(args, |j.elems|);
      }
    case Wildcard => ChildrenDistinct(j);
    case Filter(expr) =>
      ChildrenDistinct(j);
      PassingDistinct(expr, Children(j), root, call);
    case _ =>
  }

  /** One selector keeps distinct nodes distinct, and takes them all one level down. */
  lemma {:induction false} OneSelectorDistinct(ss: seq<Selector>, ns: seq<Node>, root: Json, call: Callbacks)
    requires |ss| == 1 && Distinct(ns)
    ensures var r := ApplySelectorsAll(ss, ns, root, call);
            && Distinct(r)
            && forall m | m in r :: |m.path| > 0 && exists i | 0 <= i < |ns| :: ns[i].path == m.path[..|m.path| - 1]
  {
    hide ApplySelectors, Pick, Children;
    if ns != [] {
      var picked := Below(ns[0].path, Pick(ss[0], ns[0].value, root, call));
      var rest := ApplySelectorsAll(ss, ns[1..], root, call);
      OnePick(ss, ns[0], root, call);
      PickDistinct(ss[0], ns[0].value, root, call);
      OneSelectorDistinct(ss, ns[1..], root, call);
      forall m | m in picked
        ensures |m.path| > 0 && ns[0].path == m.path[..|m.path| - 1]
      {
        var k :| 0 <= k < |picked| && picked[k] == m;
        assert m.path == ns[0].path + [Pick(ss[0], ns[0].value, root, call)[k].step];
      }
      forall i, k | 0 <= i < |picked| && 0 <= k < |rest|
        ensures picked[i].path != rest[k].path
      {
        assert picked[i] in picked && rest[k] in rest;
        var m :| 0 <= m < |ns[1..]| && ns[1..][m].path == rest[k].path[..|rest[k].path| - 1];
        assert ns[1..][m] == ns[m + 1];
      }
      BelowDistinct(ns[0].path, Pick(ss[0], ns[0].value, root, call));
      DistinctConcat(picked, rest);
      forall m | m in rest
        ensures exists i | 0 <= i < |ns| :: ns[i].path == m.path[..|m.path| - 1]
      {
        var i :| 0 <= i < |ns[1..]| && ns[1..][i].path == m.path[..|m.path| - 1];
        assert ns[i + 1].path == m.path[..|m.path| - 1];
      }
    }
  }

  lemma BelowDistinct(path: Path, cs: seq<Child>)
    requires DistinctSteps(cs)
    ensures Distinct(Below(path, cs))
  {
    forall i, k | 0 <= i < k < |cs|
      ensures Below(path, cs)[i].path != Below(path, cs)[k].path
    {
      assert (path + [cs[i].step])[|path|] != (path + [cs[k].step])[|path|];
    }
  }

  lemma DistinctConcat(a: seq<Node>, b: seq<Node>)
    requires Distinct(a) && Distinct(b)
    requires forall i, k | 0 <= i < |a| && 0 <= k < |b| :: a[i].path != b[k].path
    ensures Distinct(a + b)
  {
  }

  lemma AscendingDistinct(ns: seq<Node>)
    requires Ascending(ns)
    ensures Distinct(ns)
  {
    forall i, k | 0 <= i < k < |ns|
      ensures ns[i].path != ns[k].path
    {
      ComparePathsEqual(ns[i].path, ns[k].path);
    }
  }

  /** The subtrees of distinct nodes at one depth do not overlap. */
  lemma {:induction false} VisitAllDistinct(ns: seq<Node>, depth: nat)
    requires Distinct(ns) && SameDepth(ns, depth)
    ensures Distinct(VisitAll(ns))
    ensures forall m | m in VisitAll(ns) :: exists i | 0 <= i < |ns| :: ns[i].path <= m.path
  {
    hide Visit, ComparePaths;
    if ns != [] {
      var a, b := Visit(ns[0]), VisitAll(ns[1..]);
      VisitAscends(ns[0]);
      AscendingDistinct(a);
      VisitUnder(ns[0]);
      VisitAllDistinct(ns[1..], depth);
      forall i, k | 0 <= i < |a| && 0 <= k < |b|
        ensures a[i].path != b[k].path
      {
        assert b[k] in b;
        var m :| 0 <= m < |ns[1..]| && ns[1..][m].path <= b[k].path;
        assert ns[m + 1].path <= b[k].path && ns[0].path <= a[i].path;
      }
      DistinctConcat(a, b);
      forall m | m in VisitAll(ns)
        ensures exists i | 0 <= i < |ns| :: ns[i].path <= m.path
      {
        if m in a {
          assert ns[0].path <= m.path;
        } else {
          var i :| 0 <= i < |ns[1..]| && ns[1..][i].path <= m.path;
          assert ns[i + 1].path <= m.path;
        }
      }
    }
  }

  predicate OneSelectorEach(ss: seq<Segment>) {
    forall i | 0 <= i < |ss| :: |ss[i].selectors| == 1
  }

  predicate AtMostOneDescendant(ss: seq<Segment>) {
    forall i, k | 0 <= i < k < |ss| :: !(ss[i].descendant && ss[k].descendant)
  }

  predicate NoDescendant(ss: seq<Segment>) {
    forall i | 0 <= i < |ss| :: !ss[i].descendant
  }

  lemma {:induction false} DistinctFrom(ss: seq<Segment>, ns: seq<Node>, depth: nat, root: Json, call: Callbacks)
    requires OneSelectorEach(ss) && AtMostOneDescendant(ss) && Distinct(ns)
    requires NoDescendant(ss) || SameDepth(ns, depth)
    ensures Distinct(SelectFrom(ss, ns, root, call))
  {
    hide ApplySelectorsAll, VisitAll;
    if ss != [] {
      var s := ss[0];
      var visited := Visited(s, ns);
      if s.descendant {
        VisitAllDistinct(ns, depth);
      }
      var next := ApplySelectorsAll(s.selectors, visited, root, call);
      OneSelectorDistinct(s.selectors, visited, root, call);
      if !s.descendant && SameDepth(ns, depth) {
        forall i | 0 <= i < |next|
          ensures |next[i].path| == depth + 1
        {
          assert next[i] in next;
          var k :| 0 <= k < |ns| && ns[k].path == next[i].path[..|next[i].path| - 1];
        }
      }
      DistinctFrom(ss[1..], next, depth + 1, root, call);
    }
  }

  /** With one selector per segment and at most one descendant segment, no location is selected twice. */
  lemma NoDuplicateLocations(q: PathQuery, current: Json, root: Json, call: Callbacks)
    requires OneSelectorEach(q.segments) && AtMostOneDescendant(q.segments)
    ensures Distinct(Select(q, current, root, call))
  {
    DistinctFrom(q.segments, [Node([], if q.root then root else current)], 0, root, call);
  }

  // ---- The query a normalized path stands for

  function StepSelector(s: Step): Selector
    requires s.IndexStep? ==> s.index <= MAX_JSON_INTEGER
  {
    match s
    case NameStep(n) => Name(n)
    case IndexStep(i) => Index(i)
  }

  predicate Writable(p: Path) {
    forall i | 0 <= i < |p| :: p[i].IndexStep? ==> p[i].index <= MAX_JSON_INTEGER
  }

  function PathSegments(p: Path): (ss: seq<Segment>)
    requires Writable(p)
    ensures |ss| == |p| && SingularSegments(ss)
  {
    if p == [] then [] else [Segment([StepSelector(p[0])], false)] + PathSegments(p[1..])
  }

  function QueryOfPath(p: Path): (q: PathQuery)
    requires Writable(p)
    ensures Singular(q)
  {
    PathQuery(true, PathSegments(p))
  }

  lemma StepPicks(s: Step, n: Node, root: Json, call: Callbacks)
    requires s.IndexStep? ==> s.index <= MAX_JSON_INTEGER
    ensures ApplySelectors([StepSelector(s)], n, root, call)
         == match Lookup(n.value, s) case None => [] case Some(c) => [Node(n.path + [s], c)]
  {
    hide Children, EvalOr;
    OnePick([StepSelector(s)], n, root, call);
  }

  lemma SelectFromOne(p: Path, n: Node, root: Json, call: Callbacks)
    requires Writable(p) && p != []
    ensures SelectFrom(PathSegments(p), [n], root, call)
         == SelectFrom(PathSegments(p[1..]), ApplySelectors([StepSelector(p[0])], n, root, call), root, call)
  {
    hide Children, Pick, ApplySelectors, StepSelector;
    var s := PathSegments(p)[0];
    assert PathSegments(p)[1..] == PathSegments(p[1..]);
    ApplySelectorsAllCons(s.selectors, n, [], root, call);
    assert [n] + [] == [n];
    var picked := ApplySelectors(s.selectors, n, root, call);
    assert ApplySelectorsAll(s.selectors, [], root, call) == [];
    assert picked + [] == picked;
  }

  lemma {:induction false} PathSegmentsSelect(p: Path, n: Node, root: Json, call: Callbacks)
    requires Writable(p)
    ensures SelectFrom(PathSegments(p), [n], root, call)
         == match Walk(n.value, p) case None => [] case Some(v) => [Node(n.path + p, v)]
  {
    hide ApplySelectors, PathSegments, Lookup, SelectFrom;
    if p == [] {
      assert n.path + p == n.path;
      SelectFromNoSegments([n], root, call);
    } else {
      SelectFromOne(p, n, root, call);
      StepPicks(p[0], n, root, call);
      match Lookup(n.value, p[0])
      case None =>
        SelectFromNothing(PathSegments(p[1..]), root, call);
      case Some(c) =>
        var next := Node(n.path + [p[0]], c);
        PathSegmentsSelect(p[1..], next, root, call);
        assert next.path + p[1..] == n.path + p;
    }
  }

  lemma SelectFromNoSegments(ns: seq<Node>, root: Json, call: Callbacks)
    ensures SelectFrom(PathSegments([]), ns, root, call) == ns
  {
  }

  lemma {:induction false} SelectFromNothing(ss: seq<Segment>, root: Json, call: Callbacks)
    ensures SelectFrom(ss, [], root, call) == []
  {
    if ss != [] {
      SelectFromNothing(ss[1..], root, call);
    }
  }

  /** The query of a path selects exactly the node the path leads to, or nothing. */
  lemma QueryOfPathSelects(p: Path, root: Json, call: Callbacks)
    requires Writable(p)
    ensures Select(QueryOfPath(p), root, root, call)
         == match Walk(root, p) case None => [] case Some(v) => [Node(p, v)]
  {
    PathSegmentsSelect(p, Node([], root), root, call);
    assert [] + p == p;
  }

  /** The array at a path, if there is one, has at most this many elements. */
  predicate ArrayAtWithin(j: Json, p: Path, length: int) {
    match Walk(j, p)
    case Some(Arr(es)) => |es| <= length
    case _ => true
  }

  lemma {:induction false} ArraysWithinWalked(j: Json, p: Path, length: int)
    requires ArraysWithin(j, length)
    ensures ArrayAtWithin(j, p, length)
  {
    if p != [] && Lookup(j, p[0]).Some? {
      LookupWithin(j, p[0], length);
      ArraysWithinWalked(Lookup(j, p[0]).value, p[1..], length);
    }
  }

  lemma {:induction false} WalkedArraysWithin(j: Json, length: int)
    requires forall p :: ArrayAtWithin(j, p, length)
    ensures ArraysWithin(j, length)
  {
    hide ArraysWithin, Lookup;
    assert ArrayAtWithin(j, [], length);
    forall s | Lookup(j, s).Some?
      ensures ArraysWithin(Lookup(j, s).value, length)
    {
      LookupSmaller(j, s);
      forall p
        ensures ArrayAtWithin(Lookup(j, s).value, p, length)
      {
        assert ArrayAtWithin(j, [s] + p, length) && ([s] + p)[1..] == p;
      }
      WalkedArraysWithin(Lookup(j, s).value, length);
    }
    WithinByChildren(j, length);
  }

  lemma LookupSmaller(j: Json, s: Step)
    requires Lookup(j, s).Some?
    ensures Lookup(j, s).value < j
  {
  }

  lemma WithinByChildren(j: Json, length: int)
    requires j.Arr? ==> |j.elems| <= length
    requires forall s | Lookup(j, s).Some? :: ArraysWithin(Lookup(j, s).value, length)
    ensures ArraysWithin(j, length)
  {
    if j.Arr? {
      forall i | 0 <= i < |j.elems|
        ensures ArraysWithin(j.elems[i], length)
      {
        assert Lookup(j, IndexStep(i)) == Some(j.elems[i]);
      }
    } else if j.Obj? {
      forall k | k in j.members
        ensures ArraysWithin(j.members[k], length)
      {
        assert Lookup(j, NameStep(k)) == Some(j.members[k]);
      }
    }
  }

  /** Storable documents are those in which no path leads to an array of more than 2^63 - 2^53 elements. */
  lemma StorableIffWalked(j: Json)
    ensures Storable(j) <==> forall p :: ArrayAtWithin(j, p, 0x7FE0_0000_0000_0000)
  {
    hide ArraysWithin, ArrayAtWithin;
    if Storable(j) {
      forall p
        ensures ArrayAtWithin(j, p, 0x7FE0_0000_0000_0000)
      {
        ArraysWithinWalked(j, p, MAX_LENGTH);
      }
    }
    if forall p :: ArrayAtWithin(j, p, 0x7FE0_0000_0000_0000) {
      WalkedArraysWithin(j, MAX_LENGTH);
    }
  }

  /** Paths in a document with arrays of at most 2^53 elements have indexes a query can write. */
  lemma {:induction false} WalkedPathsWritable(j: Json, p: Path)
    requires ArraysWithin(j, MAX_ARRAY) && Walk(j, p).Some?
    ensures Writable(p)
  {
    if p != [] {
      LookupWithin(j, p[0], MAX_ARRAY);
      WalkedPathsWritable(Lookup(j, p[0]).value, p[1..]);
      assert p == [p[0]] + p[1..];
    }
  }
}
