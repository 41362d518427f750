/** The value evaluator: loops and an explicit stack, refining the specification in Evaluate. */
module PlainSelect {
  import opened Common
  import opened Json
  import opened Syntax
  import opened Slices
  import opened Evaluate
  import opened Traversal

  method Select(q: PathQuery, current: Json, root: Json, call: Callbacks) returns (result: seq<Json>)
    requires Storable(current) && Storable(root)
    ensures result == Values(Evaluate.Select(q, current, root, call))
  {
    var start := root;
    if !q.root {
      start := current;
    }
    ghost var ns := [Node([], start)];
    result := [start];
    var i := 0;
    assert q.segments[0..] == q.segments;
    while i < |q.segments|
      invariant 0 <= i <= |q.segments|
      invariant result == Values(ns) && AllStorable(result)
      invariant SelectFrom(q.segments[i..], ns, root, call) == Evaluate.Select(q, current, root, call)
    {
      assert q.segments[i..][1..] == q.segments[i + 1..];
      result := Apply(q.segments[i], result, root, call, ns);
      ns := ApplySelectorsAll(q.segments[i].selectors, Visited(q.segments[i], ns), root, call);
      i := i + 1;
    }
  }

  /** Apply one segment to a list of nodes. */
  method Apply(s: Segment, nodes: seq<Json>, root: Json, call: Callbacks, ghost ns: seq<Node>)
    returns (result: seq<Json>)
    requires nodes == Values(ns) && AllStorable(nodes) && Storable(root)
    ensures result == Values(ApplySelectorsAll(s.selectors, Visited(s, ns), root, call))
    ensures AllStorable(result)
  {
    hide ApplySelectors, VisitAll;
    if nodes == [] {
      NothingVisited();
      return [];
    }
    if s.descendant {
      result := ApplyToDescendants(s.selectors, nodes, root, call, ns);
    } else {
      result := ApplyToNodes(s.selectors, nodes, root, call, ns);
    }
  }

  lemma NothingVisited()
    ensures VisitAll([]) == []
  {
  }

  lemma VisitAllStep(ns: seq<Node>, i: nat)
    requires i < |ns|
    ensures VisitAll(ns[..i + 1]) == VisitAll(ns[..i]) + Visit(ns[i])
  {
    hide Visit;
    VisitAllConcat(ns[..i], [ns[i]]);
    assert ns[..i + 1] == ns[..i] + [ns[i]];
    assert VisitAll([ns[i]]) == Visit(ns[i]);
  }

  method ApplyToDescendants(selectors: seq<Selector>, nodes: seq<Json>, root: Json, call: Callbacks,
      ghost ns: seq<Node>)
    returns (result: seq<Json>)
    requires nodes == Values(ns) && AllStorable(nodes)
    ensures result == Values(ApplySelectorsAll(selectors, VisitAll(ns), root, call))
    ensures AllStorable(result)
  {
    hide ApplySelectors, Visit, VisitAll;
    NothingVisited();
    result := [];
    var i := 0;
    ghost var done: seq<Node> := [];
    assert ns[..0] == [];
    while i < |nodes|
      invariant 0 <= i <= |nodes| && AllStorable(result)
      invariant done == VisitAll(ns[..i])
      invariant result == Values(ApplySelectorsAll(selectors, done, root, call))
    {
      VisitAllStep(ns, i);
      ApplySelectorsAllConcat(selectors, done, Visit(ns[i]), root, call);
      result := AppendDescendant(result, selectors, nodes[i], root, call, ns[i].path);
      done := done + Visit(ns[i]);
      i := i + 1;
    }
    assert ns[..i] == ns;
  }

  lemma ApplyStep(ss: seq<Selector>, ns: seq<Node>, i: nat, root: Json, call: Callbacks)
    requires i < |ns|
    ensures ApplySelectorsAll(ss, ns[..i + 1], root, call)
         == ApplySelectorsAll(ss, ns[..i], root, call) + ApplySelectors(ss, ns[i], root, call)
  {
    hide ApplySelectors;
    assert ns[..i + 1] == ns[..i] + [ns[i]];
    ApplySelectorsAllConcat(ss, ns[..i], [ns[i]], root, call);
    ApplySelectorsAllCons(ss, ns[i], [], root, call);
    assert [ns[i]] + [] == [ns[i]];
    assert ApplySelectors(ss, ns[i], root, call) + [] == ApplySelectors(ss, ns[i], root, call);
  }

  lemma NothingApplied(ss: seq<Selector>, root: Json, call: Callbacks)
    ensures ApplySelectorsAll(ss, [], root, call) == []
  {
  }

  method ApplyToNodes(selectors: seq<Selector>, nodes: seq<Json>, root: Json, call: Callbacks, ghost ns: seq<Node>)
    returns (result: seq<Json>)
    requires nodes == Values(ns) && AllStorable(nodes)
    ensures result == Values(ApplySelectorsAll(selectors, ns, root, call))
    ensures AllStorable(result)
  {
    hide ApplySelectors, ApplySelectorsAll;
    NothingApplied(selectors, root, call);
    result := [];
    var i := 0;
    assert ns[..0] == [];
    while i < |nodes|
      invariant 0 <= i <= |nodes| && AllStorable(result)
      invariant result == Values(ApplySelectorsAll(selectors, ns[..i], root, call))
    {
      ApplyStep(selectors, ns, i, root, call);
      ValuesConcat(ApplySelectorsAll(selectors, ns[..i], root, call), ApplySelectors(selectors, ns[i], root, call));
      result := AppendSelectors(result, selectors, nodes[i], root, call, ns[i].path);
      i := i + 1;
    }
    assert ns[..i] == ns;
  }

  lemma NothingPicked(n: Node, root: Json, call: Callbacks)
    ensures ApplySelectors([], n, root, call) == []
  {
  }

  lemma SelectorRound(ss: seq<Selector>, i: nat, n: Node, root: Json, call: Callbacks)
    requires i < |ss|
    ensures Values(ApplySelectors(ss[i..], n, root, call))
         == ChildValues(Pick(ss[i], n.value, root, call)) + Values(ApplySelectors(ss[i + 1..], n, root, call))
  {
    hide ApplySelectors, Pick;
    var picked := Pick(ss[i], n.value, root, call);
    ApplySelectorsStep(ss, i, n, root, call);
    ValuesConcat(Below(n.path, picked), ApplySelectors(ss[i + 1..], n, root, call));
    ValuesBelow(n.path, picked);
  }

  /** Apply the selectors to one node and append what they pick. */
  method AppendSelectors(out: seq<Json>, selectors: seq<Selector>, node: Json, root: Json, call: Callbacks,
      ghost path: Path)
    returns (r: seq<Json>)
    requires Storable(node)
    ensures r == out + Values(ApplySelectors(selectors, Node(path, node), root, call))
    ensures AllStorable(out) ==> AllStorable(r)
  {
    hide ApplySelectors, Pick;
    NothingPicked(Node(path, node), root, call);
    ghost var n := Node(path, node);
    r := out;
    var i := 0;
    assert selectors[0..] == selectors;
    while i < |selectors|
      invariant 0 <= i <= |selectors|
      invariant r + Values(ApplySelectors(selectors[i..], n, root, call))
                == out + Values(ApplySelectors(selectors, n, root, call))
      invariant AllStorable(out) ==> AllStorable(r)
    {
      SelectorRound(selectors, i, n, root, call);
      r := AppendSelector(r, selectors[i], node, root, call);
      i := i + 1;
    }
    assert selectors[i..] == [];
    assert r + Values([]) == r;
  }

  /** Apply one selector to one node and append what it picks. */
  method AppendSelector(out: seq<Json>, s: Selector, node: Json, root: Json, call: Callbacks) returns (r: seq<Json>)
    requires Storable(node)
    ensures r == out + ChildValues(Pick(s, node, root, call))
    ensures AllStorable(out) ==> AllStorable(r)
  {
    r := out;
    match s {
      case Name(name) =>
        if node.Obj? && name in node.members {
          r := r + [node.members[name]];
        }
      case Index(index) =>
        if node.Arr? {
          var i := NormalizeIndex(index, |node.elems| as int64);
          if i.Some? {
            r := r + [node.elems[i.value]];
          }
        }
      case Slice(args) =>
        if node.Arr? {
          r := AppendSlice(out, node, args, root, call);
        }
      case Wildcard =>
        r := AppendChildren(out, node);
      case Filter(expr) =>
        r := AppendPassing(out, expr, node, root, call);
    }
    PickStorable(s, node, root, call);
  }

  lemma PickStorable(s: Selector, node: Json, root: Json, call: Callbacks)
    requires Storable(node)
    ensures AllStorable(ChildValues(Pick(s, node, root, call)))
  {
    var cs := Pick(s, node, root, call);
    PickLookup(s, node, root, call);
    forall i | 0 <= i < |cs|
      ensures Storable(cs[i].value)
    {
      assert cs[i] in cs;
      LookupWithin(node, cs[i].step, MAX_LENGTH);
    }
  }

  method AppendChildren(out: seq<Json>, node: Json) returns (r: seq<Json>)
    ensures r == out + ChildValues(Children(node))
  {
    hide Children;
    var kids := ForEachChild(node);
    r := out;
    var i := 0;
    while i < |kids|
      invariant 0 <= i <= |kids|
      invariant r == out + ChildValues(kids[..i])
    {
      assert ChildValues(kids[..i + 1]) == ChildValues(kids[..i]) + [kids[i].value];
      r := r + [kids[i].value];
      i := i + 1;
    }
    assert kids[..i] == kids;
  }

  method AppendPassing(out: seq<Json>, expr: LogicalOr, node: Json, root: Json, call: Callbacks) returns (r: seq<Json>)
    ensures r == out + ChildValues(Passing(expr, Children(node), root, call))
  {
    hide Children, EvalOr;
    var kids := ForEachChild(node);
    r := out;
    var i := 0;
    assert kids[0..] == kids;
    while i < |kids|
      invariant 0 <= i <= |kids|
      invariant r + ChildValues(Passing(expr, kids[i..], root, call))
                == out + ChildValues(Passing(expr, kids, root, call))
    {
      PassingStep(expr, kids, i, root, call);
      if EvalOr(expr, kids[i].value, root, call) {
        assert ChildValues([kids[i]] + Passing(expr, kids[i + 1..], root, call))
            == [kids[i].value] + ChildValues(Passing(expr, kids[i + 1..], root, call));
        r := r + [kids[i].value];
      } else {
        assert [] + Passing(expr, kids[i + 1..], root, call) == Passing(expr, kids[i + 1..], root, call);
      }
      i := i + 1;
    }
  }

  method AppendSlice(out: seq<Json>, node: Json, args: SliceArgs, root: Json, call: Callbacks) returns (r: seq<Json>)
    requires node.Arr? && Storable(node)
    ensures r == out + ChildValues(Pick(Slice(args), node, root, call))
  {
    ghost var picked := ChildValues(Pick(Slice(args), node, root, call));
    ghost var all := Selected(args, |node.elems|);
    assert |picked| == |all| && forall k | 0 <= k < |all| :: picked[k] == node.elems[all[k]];
    var length := |node.elems| as int64;
    var bounds := ResolveSliceBounds(args, length);
    if bounds.None? {
      return out;
    }
    var n := Count(bounds.value, length);
    if n == 0 {
      return out;
    }
    var indexes := SliceIndexes(bounds.value, length);
    r := out;
    var i := 0;
    while i < |indexes|
      invariant 0 <= i <= |indexes|
      invariant r == out + picked[..i]
    {
      r := r + [node.elems[indexes[i]]];
      i := i + 1;
    }
  }

  /** What one round of the descendant loop leaves to do. */
  lemma PopRound(r: seq<Json>, ss: seq<Selector>, rest: seq<Node>, top: Node, root: Json, call: Callbacks)
    ensures var next := rest + Reverse(Below(top.path, Children(top.value)));
            && r + Values(Remaining(ss, rest + [top], root, call))
               == (r + Values(ApplySelectors(ss, top, root, call))) + Values(Remaining(ss, next, root, call))
            && StackSize(rest + [top]) == 1 + StackSize(next)
            && Values(next) == Values(rest) + ChildValues(Reverse(Children(top.value)))
  {
    hide ApplySelectors, Children, Remaining, StackSize, Reverse;
    var next := rest + Reverse(Below(top.path, Children(top.value)));
    StackStep(ss, rest, top, root, call);
    ValuesConcat(ApplySelectors(ss, top, root, call), Remaining(ss, next, root, call));
    PushedValues(rest, top);
  }

  /** Apply the selectors to a node and all its descendants, with a stack of nodes still to visit. */
  method AppendDescendant(out: seq<Json>, selectors: seq<Selector>, node: Json, root: Json, call: Callbacks,
          ghost path: Path)
    returns (r: seq<Json>)
    requires Storable(node)
    ensures r == out + Values(ApplySelectorsAll(selectors, Visit(Node(path, node)), root, call))
    ensures AllStorable(out) ==> AllStorable(r)
  {
    hide ApplySelectorsAll, ApplySelectors, Children, Visit, Remaining, StackSize, Reverse;
    var stack := [node];
    ghost var pending := [Node(path, node)];
    r := out;
    StackStart(selectors, Node(path, node), root, call);
    while |stack| > 0
      invariant stack == Values(pending) && AllStorable(stack)
      invariant r + Values(Remaining(selectors, pending, root, call))
             == out + Values(ApplySelectorsAll(selectors, Visit(Node(path, node)), root, call))
      invariant AllStorable(out) ==> AllStorable(r)
      decreases StackSize(pending)
    {
      var current := stack[|stack| - 1];
      ghost var top, rest := pending[|pending| - 1], pending[..|pending| - 1];
      assert pending == rest + [top];
      PopRound(r, selectors, rest, top, root, call);
      pending := rest + Reverse(Below(top.path, Children(current)));
      StorableChildren(current);
      stack := stack[..|stack| - 1];
      assert stack == Values(rest);
      r := AppendSelectors(r, selectors, current, root, call, top.path);
      stack := PushChildren(stack, current);
    }
  }

  /** Push the children of a node, last one first. */
  method PushChildren(stack0: seq<Json>, node: Json) returns (stack: seq<Json>)
    ensures stack == stack0 + ChildValues(Reverse(Children(node)))
  {
    hide Children;
    var kids := ForEachChildReverse(node);
    stack := stack0;
    var i := 0;
    while i < |kids|
      invariant 0 <= i <= |kids|
      invariant stack == stack0 + ChildValues(kids[..i])
    {
      assert ChildValues(kids[..i + 1]) == ChildValues(kids[..i]) + [kids[i].value];
      stack := stack + [kids[i].value];
      i := i + 1;
    }
    assert kids[..i] == kids;
  }
}
