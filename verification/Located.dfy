/** The located evaluator: the separately written loops that build normalized paths. */
module LocatedSelect {
  import opened Common
  import opened Json
  import opened Syntax
  import opened Slices
  import opened Evaluate
  import opened Traversal

  ghost predicate AllStorableNodes(ns: seq<Node>) {
    forall i | 0 <= i < |ns| :: Storable(ns[i].value)
  }

  method SelectLocated(q: PathQuery, input: Json, call: Callbacks) returns (res: seq<Node>)
    requires Storable(input)
    ensures res == Evaluate.Select(q, input, input, call)
  {
    res := [Node([], input)];
    var i := 0;
    assert q.segments[0..] == q.segments;
    while i < |q.segments|
      invariant 0 <= i <= |q.segments|
      invariant AllStorableNodes(res)
      invariant SelectFrom(q.segments[i..], res, input, call) == Evaluate.Select(q, input, input, call)
    {
      assert q.segments[i..][1..] == q.segments[i + 1..];
      res := ApplySegmentLocated(q.segments[i], res, input, call);
      i := i + 1;
    }
  }

  method ApplySegmentLocated(s: Segment, nodes: seq<Node>, root: Json, call: Callbacks) returns (out: seq<Node>)
    requires AllStorableNodes(nodes) && Storable(root)
    ensures out == ApplySelectorsAll(s.selectors, Visited(s, nodes), root, call)
    ensures AllStorableNodes(out)
  {
    hide ApplySelectors, Children, Visit, Pick;
    if nodes == [] {
      return nodes;
    }
    out := [];
    var i := 0;
    ghost var done: seq<Node> := [];
    assert nodes[..0] == [];
    if s.descendant {
      while i < |nodes|
        invariant 0 <= i <= |nodes| && AllStorableNodes(out)
        invariant done == VisitAll(nodes[..i])
        invariant out == ApplySelectorsAll(s.selectors, done, root, call)
      {
        VisitAllConcat(nodes[..i], [nodes[i]]);
        assert nodes[..i + 1] == nodes[..i] + [nodes[i]];
        OneVisit(nodes[i]);
        ApplySelectorsAllConcat(s.selectors, done, Visit(nodes[i]), root, call);
        out := AppendDescendantLocated(out, s.selectors, nodes[i].value, nodes[i].path, root, call);
        done := done + Visit(nodes[i]);
        i := i + 1;
      }
      assert nodes[..i] == nodes;
      return;
    }
    while i < |nodes|
      invariant 0 <= i <= |nodes| && AllStorableNodes(out)
      invariant out == ApplySelectorsAll(s.selectors, nodes[..i], root, call)
    {
      assert nodes[..i + 1] == nodes[..i] + [nodes[i]];
      ApplySelectorsAllConcat(s.selectors, nodes[..i], [nodes[i]], root, call);
      ApplySelectorsAllCons(s.selectors, nodes[i], [], root, call);
      assert [nodes[i]] + [] == [nodes[i]];
      if |s.selectors| == 1 {
        OnePick(s.selectors, nodes[i], root, call);
        out := AppendSelectorLocated(out, s.selectors[0], nodes[i].value, nodes[i].path, root, call);
      } else {
        out := AppendSelectorsLocated(out, s.selectors, nodes[i].value, nodes[i].path, root, call);
      }
      i := i + 1;
    }
    assert nodes[..i] == nodes;
  }

  method AppendSelectorsLocated(out: seq<Node>, selectors: seq<Selector>, node: Json, path: Path, root: Json,
          call: Callbacks)
    returns (r: seq<Node>)
    requires Storable(node)
    ensures r == out + ApplySelectors(selectors, Node(path, node), root, call)
    ensures AllStorableNodes(out) ==> AllStorableNodes(r)
  {
    hide Children, Pick, EvalOr;
    ghost var n := Node(path, node);
    r := out;
    var i := 0;
    assert selectors[0..] == selectors;
    while i < |selectors|
      invariant 0 <= i <= |selectors|
      invariant r + ApplySelectors(selectors[i..], n, root, call) == out + ApplySelectors(selectors, n, root, call)
      invariant AllStorableNodes(out) ==> AllStorableNodes(r)
    {
      ApplySelectorsStep(selectors, i, n, root, call);
      r := AppendSelectorLocated(r, selectors[i], node, path, root, call);
      i := i + 1;
    }
  }

  method AppendSelectorLocated(out: seq<Node>, s: Selector, node: Json, path: Path, root: Json, call: Callbacks)
    returns (r: seq<Node>)
    requires Storable(node)
    ensures r == out + Below(path, Pick(s, node, root, call))
    ensures AllStorableNodes(out) ==> AllStorableNodes(r)
  {
    r := out;
    match s {
      case Name(name) =>
        if node.Obj? && name in node.members {
          r := r + [Node(path + [NameStep(name)], node.members[name])];
        }
      case Index(index) =>
        if node.Arr? {
          var i := NormalizeIndex(index, |node.elems| as int64);
          if i.Some? {
            r := r + [Node(path + [IndexStep(i.value)], node.elems[i.value])];
          }
        }
      case Slice(args) =>
        if node.Arr? {
          r := AppendSliceLocated(out, node, path, args, root, call);
        }
      case Wildcard =>
        r := AppendChildrenLocated(out, node, path);
      case Filter(expr) =>
        r := AppendPassingLocated(out, expr, node, path, root, call);
    }
    PickStorableNodes(s, node, path, root, call);
  }

  lemma PickStorableNodes(s: Selector, node: Json, path: Path, root: Json, call: Callbacks)
    requires Storable(node)
    ensures AllStorableNodes(Below(path, Pick(s, node, root, call)))
  {
    var cs := Pick(s, node, root, call);
    PickLookup(s, node, root, call);
    forall i | 0 <= i < |cs|
      ensures Storable(cs[i].value)
    {
      assert cs[i] in cs;
      LookupWithin(node, cs[i].step, MAX_LENGTH);
    }
  }

  method AppendChildrenLocated(out: seq<Node>, node: Json, path: Path) returns (r: seq<Node>)
    ensures r == out + Below(path, Children(node))
  {
    hide Children;
    var kids := ForEachChild(node);
    r := out;
    var i := 0;
    while i < |kids|
      invariant 0 <= i <= |kids|
      invariant r == out + Below(path, kids[..i])
    {
      assert Below(path, kids[..i + 1]) == Below(path, kids[..i]) + [Node(path + [kids[i].step], kids[i].value)];
      r := r + [Node(path + [kids[i].step], kids[i].value)];
      i := i + 1;
    }
    assert kids[..i] == kids;
  }

  method AppendPassingLocated(out: seq<Node>, expr: LogicalOr, node: Json, path: Path, root: Json, call: Callbacks)
    returns (r: seq<Node>)
    ensures r == out + Below(path, Passing(expr, Children(node), root, call))
  {
    hide Children, EvalOr;
    var kids := ForEachChild(node);
    r := out;
    var i := 0;
    assert kids[0..] == kids;
    while i < |kids|
      invariant 0 <= i <= |kids|
      invariant r + Below(path, Passing(expr, kids[i..], root, call))
                == out + Below(path, Passing(expr, kids, root, call))
    {
      PassingStep(expr, kids, i, root, call);
      ghost var later := Passing(expr, kids[i + 1..], root, call);
      if EvalOr(expr, kids[i].value, root, call) {
        assert Below(path, [kids[i]] + later) == [Node(path + [kids[i].step], kids[i].value)] + Below(path, later);
        r := r + [Node(path + [kids[i].step], kids[i].value)];
      } else {
        assert [] + later == later;
      }
      i := i + 1;
    }
  }

  method AppendSliceLocated(out: seq<Node>, node: Json, path: Path, args: SliceArgs, root: Json, call: Callbacks)
    returns (r: seq<Node>)
    requires node.Arr? && Storable(node)
    ensures r == out + Below(path, Pick(Slice(args), node, root, call))
  {
    ghost var picked := Below(path, Pick(Slice(args), node, root, call));
    ghost var all := Selected(args, |node.elems|);
    assert |picked| == |all| && forall k | 0 <= k < |all| ::
           picked[k] == Node(path + [IndexStep(all[k])], node.elems[all[k]]);
    var length := |node.elems| as int64;
    var bounds := ResolveSliceBounds(args, length);
    if bounds.None? {
      return out;
    }
    var n := Count(bounds.value, length);
    if n == 0 {
      return out;
    }
    var indexes := SliceIndexes(bounds.value, length);
    r := out;
    var i := 0;
    while i < |indexes|
      invariant 0 <= i <= |indexes|
      invariant r == out + picked[..i]
    {
      r := r + [Node(path + [IndexStep(indexes[i])], node.elems[indexes[i]])];
      i := i + 1;
    }
  }

  lemma PushedStorable(rest: seq<Node>, frame: Node)
    requires AllStorableNodes(rest) && Storable(frame.value)
    ensures AllStorableNodes(rest + Below(frame.path, Reverse(Children(frame.value))))
  {
    hide Children;
    StorableChildren(frame.value);
    var vs := ChildValues(Reverse(Children(frame.value)));
    forall i | 0 <= i < |vs|
      ensures Storable(Below(frame.path, Reverse(Children(frame.value)))[i].value)
    {
      assert Storable(vs[i]);
    }
  }

  /** Pre-order with a stack of located frames. */
  method AppendDescendantLocated(out: seq<Node>, selectors: seq<Selector>, node: Json, path: Path, root: Json,
          call: Callbacks)
    returns (r: seq<Node>)
    requires Storable(node)
    ensures r == out + ApplySelectorsAll(selectors, Visit(Node(path, node)), root, call)
    ensures AllStorableNodes(out) ==> AllStorableNodes(r)
  {
    hide ApplySelectorsAll, ApplySelectors, Children, Visit, Remaining, StackSize, Reverse;
    var stack := [Node(path, node)];
    r := out;
    StackStart(selectors, Node(path, node), root, call);
    while |stack| > 0
      invariant AllStorableNodes(stack)
      invariant r + Remaining(selectors, stack, root, call)
             == out + ApplySelectorsAll(selectors, Visit(Node(path, node)), root, call)
      invariant AllStorableNodes(out) ==> AllStorableNodes(r)
      decreases StackSize(stack)
    {
      var frame := stack[|stack| - 1];
      var rest := stack[..|stack| - 1];
      assert stack == rest + [frame];
      StackStep(selectors, rest, frame, root, call);
      ReversedBelow(frame.path, Children(frame.value));
      PushedStorable(rest, frame);
      r := AppendSelectorsLocated(r, selectors, frame.value, frame.path, root, call);
      stack := PushChildrenLocated(rest, frame);
    }
  }

  method PushChildrenLocated(stack0: seq<Node>, frame: Node) returns (stack: seq<Node>)
    ensures stack == stack0 + Below(frame.path, Reverse(Children(frame.value)))
  {
    hide Children;
    var kids := ForEachChildReverse(frame.value);
    stack := stack0;
    var i := 0;
    while i < |kids|
      invariant 0 <= i <= |kids|
      invariant stack == stack0 + Below(frame.path, kids[..i])
    {
      var next := Node(frame.path + [kids[i].step], kids[i].value);
      assert Below(frame.path, kids[..i + 1]) == Below(frame.path, kids[..i]) + [next];
      stack := stack + [next];
      i := i + 1;
    }
    assert kids[..i] == kids;
  }
}
