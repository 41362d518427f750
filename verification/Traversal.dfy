/** Facts about pre-order and about selection that both evaluators use. */
module Traversal {
  import opened Common
  import opened Json
  import opened Syntax
  import opened Evaluate

  lemma {:induction false} ReverseConcat<T>(a: seq<T>, b: seq<T>)
    ensures Reverse(a + b) == Reverse(b) + Reverse(a)
  {
    if a == [] {
      assert a + b == b;
    } else {
      assert (a + b)[1..] == a[1..] + b;
      ReverseConcat(a[1..], b);
    }
  }

  lemma {:induction false} ReverseReverse<T>(s: seq<T>)
    ensures Reverse(Reverse(s)) == s
  {
    if s != [] {
      ReverseReverse(s[1..]);
      ReverseConcat(Reverse(s[1..]), [s[0]]);
      assert Reverse([s[0]]) == [s[0]];
    }
  }

  lemma {:induction false} ReverseAt<T>(s: seq<T>, i: nat)
    requires i < |s|
    ensures |Reverse(s)| == |s| && Reverse(s)[i] == s[|s| - 1 - i]
  {
    if |s| > 1 {
      ReverseAt(s[1..], if i < |s| - 1 then i else 0);
    }
  }

  lemma ReverseLength<T>(s: seq<T>)
    ensures |Reverse(s)| == |s|
  {
    if s != [] {
      ReverseAt(s, 0);
    }
  }

  lemma {:induction false} VisitAllConcat(a: seq<Node>, b: seq<Node>)
    ensures VisitAll(a + b) == VisitAll(a) + VisitAll(b)
  {
    if a == [] {
      assert a + b == b;
    } else {
      assert (a + b)[1..] == a[1..] + b;
      VisitAllConcat(a[1..], b);
    }
  }

  lemma {:induction false} VisitChildrenAll(path: Path, parent: Json, cs: seq<Child>)
    requires forall i | 0 <= i < |cs| :: cs[i].value < parent
    ensures VisitChildren(path, parent, cs) == VisitAll(Below(path, cs))
  {
    if cs != [] {
      VisitChildrenAll(path, parent, cs[1..]);
      assert Below(path, cs)[1..] == Below(path, cs[1..]);
    }
  }

  /** Popping the top of the stack and pushing its children in reverse visits the top and leaves its pre-order tail. */
  lemma PopPush(stack: seq<Node>, top: Node)
    ensures VisitAll(Reverse(stack + [top]))
         == [top] + VisitAll(Reverse(stack + Reverse(Below(top.path, Children(top.value)))))
  {
    var kids := Below(top.path, Children(top.value));
    ReverseConcat(stack, [top]);
    assert Reverse([top]) == [top];
    assert ([top] + Reverse(stack))[1..] == Reverse(stack);
    VisitChildrenAll(top.path, top.value, Children(top.value));
    ReverseConcat(stack, Reverse(kids));
    ReverseReverse(kids);
    VisitAllConcat(kids, Reverse(stack));
  }

  lemma OneVisit(n: Node)
    ensures Reverse([n]) == [n] && VisitAll([n]) == Visit(n)
  {
    hide Visit;
  }

  function ChildValues(cs: seq<Child>): (vs: seq<Json>)
    ensures |vs| == |cs| && forall i | 0 <= i < |cs| :: vs[i] == cs[i].value
  {
    seq(|cs|, i requires 0 <= i < |cs| => cs[i].value)
  }

  lemma ReversedBelow(path: Path, cs: seq<Child>)
    ensures Reverse(Below(path, cs)) == Below(path, Reverse(cs))
  {
    var ns := Below(path, cs);
    ReverseLength(ns);
    ReverseLength(cs);
    forall i | 0 <= i < |cs|
      ensures Reverse(ns)[i] == Below(path, Reverse(cs))[i]
    {
      ReverseAt(ns, i);
      ReverseAt(cs, i);
    }
  }

  lemma ValuesBelow(path: Path, cs: seq<Child>)
    ensures Values(Below(path, cs)) == ChildValues(cs)
  {
  }

  /** The values pushed for the children of a node are those of the nodes pushed. */
  lemma PushedValues(rest: seq<Node>, top: Node)
    ensures Values(rest + Reverse(Below(top.path, Children(top.value))))
         == Values(rest) + ChildValues(Reverse(Children(top.value)))
  {
    hide Children;
    ReversedBelow(top.path, Children(top.value));
  }

  lemma ValuesConcat(a: seq<Node>, b: seq<Node>)
    ensures Values(a + b) == Values(a) + Values(b)
  {
  }

  ghost predicate AllStorable(vs: seq<Json>) {
    forall i | 0 <= i < |vs| :: Storable(vs[i])
  }

  /** The children pushed on the stack are storable, in either order. */
  lemma StorableChildren(j: Json)
    requires Storable(j)
    ensures AllStorable(ChildValues(Children(j)))
    ensures AllStorable(ChildValues(Reverse(Children(j))))
  {
    var cs := Children(j);
    ReverseLength(cs);
    forall i | 0 <= i < |cs|
      ensures Storable(cs[i].value) && Storable(Reverse(cs)[i].value)
    {
      StorableChild(j, i);
      StorableChild(j, |cs| - 1 - i);
      ReverseAt(cs, i);
    }
  }

  lemma ApplySelectorsStep(ss: seq<Selector>, i: nat, n: Node, root: Json, call: Callbacks)
    requires i < |ss|
    ensures ApplySelectors(ss[i..], n, root, call)
         == Below(n.path, Pick(ss[i], n.value, root, call)) + ApplySelectors(ss[i + 1..], n, root, call)
  {
    hide Pick;
    assert ss[i..][1..] == ss[i + 1..];
  }

  lemma {:induction false} ApplySelectorsAllConcat(ss: seq<Selector>, a: seq<Node>, b: seq<Node>, root: Json,
          call: Callbacks)
    ensures ApplySelectorsAll(ss, a + b, root, call)
         == ApplySelectorsAll(ss, a, root, call) + ApplySelectorsAll(ss, b, root, call)
  {
    hide ApplySelectors, Children;
    if a == [] {
      assert a + b == b;
    } else {
      ApplySelectorsAllCons(ss, a[0], a[1..] + b, root, call);
      assert a + b == [a[0]] + (a[1..] + b);
      ApplySelectorsAllConcat(ss, a[1..], b, root, call);
    }
  }

  lemma ApplySelectorsAllCons(ss: seq<Selector>, n: Node, ns: seq<Node>, root: Json, call: Callbacks)
    ensures ApplySelectorsAll(ss, [n] + ns, root, call)
         == ApplySelectors(ss, n, root, call) + ApplySelectorsAll(ss, ns, root, call)
  {
    hide ApplySelectors, Children;
    assert ([n] + ns)[1..] == ns;
  }

  // ---- The stack of nodes still to visit, top at the end

  /** What the selectors will pick from everything still reachable from the stack. */
  ghost function Remaining(ss: seq<Selector>, stack: seq<Node>, root: Json, call: Callbacks): seq<Node> {
    ApplySelectorsAll(ss, VisitAll(Reverse(stack)), root, call)
  }

  /** The number of nodes still to visit. */
  ghost function StackSize(stack: seq<Node>): nat {
    |VisitAll(Reverse(stack))|
  }

  lemma StackStart(ss: seq<Selector>, n: Node, root: Json, call: Callbacks)
    ensures Remaining(ss, [n], root, call) == ApplySelectorsAll(ss, Visit(n), root, call)
    ensures Remaining(ss, [], root, call) == []
  {
    hide ApplySelectors;
    OneVisit(n);
  }

  /** One round of the loop: apply the selectors to the top, then replace it by its children. */
  lemma StackStep(ss: seq<Selector>, rest: seq<Node>, top: Node, root: Json, call: Callbacks)
    ensures var next := rest + Reverse(Below(top.path, Children(top.value)));
            && Remaining(ss, rest + [top], root, call)
               == ApplySelectors(ss, top, root, call) + Remaining(ss, next, root, call)
            && StackSize(rest + [top]) == 1 + StackSize(next)
  {
    hide ApplySelectors, Children;
    PopPush(rest, top);
    ApplySelectorsAllCons(ss, top, VisitAll(Reverse(rest + Reverse(Below(top.path, Children(top.value))))), root, call);
  }

  lemma OnePick(ss: seq<Selector>, n: Node, root: Json, call: Callbacks)
    requires |ss| == 1
    ensures ApplySelectors(ss, n, root, call) == Below(n.path, Pick(ss[0], n.value, root, call))
  {
    hide Children, Pick;
    assert ApplySelectors(ss[1..], n, root, call) == [];
  }

  lemma PassingStep(expr: LogicalOr, cs: seq<Child>, i: nat, root: Json, call: Callbacks)
    requires i < |cs|
    ensures Passing(expr, cs[i..], root, call)
         == (if EvalOr(expr, cs[i].value, root, call) then [cs[i]] else []) + Passing(expr, cs[i + 1..], root, call)
  {
    assert cs[i..][1..] == cs[i + 1..];
  }

  /** Whatever a selector picks is a child of the value, under its own step. */
  lemma {:induction false} PassingChildren(expr: LogicalOr, cs: seq<Child>, root: Json, call: Callbacks)
    ensures forall c | c in Passing(expr, cs, root, call) :: c in cs
  {
    if cs != [] {
      PassingChildren(expr, cs[1..], root, call);
    }
  }

  lemma PickLookup(s: Selector, j: Json, root: Json, call: Callbacks)
    ensures forall c | c in Pick(s, j, root, call) :: Lookup(j, c.step) == Some(c.value)
  {
    if s.Filter? {
      PassingChildren(s.expr, Children(j), root, call);
    }
  }

  lemma LookupWithin(j: Json, s: Step, length: int)
    requires ArraysWithin(j, length) && Lookup(j, s).Some?
    ensures ArraysWithin(Lookup(j, s).value, length)
  {
  }

  /** Nodes below a storable value are storable. */
  lemma {:induction false} StorableVisit(n: Node)
    requires Storable(n.value)
    ensures AllStorable(Values(Visit(n)))
    decreases n.value, 1
  {
    StorableVisitChildren(n.path, n.value, Children(n.value));
    StorableChildren(n.value);
  }

  lemma {:induction false} StorableVisitChildren(path: Path, parent: Json, cs: seq<Child>)
    requires forall i | 0 <= i < |cs| :: cs[i].value < parent
    requires AllStorable(ChildValues(cs))
    ensures AllStorable(Values(VisitChildren(path, parent, cs)))
    decreases parent, 0, |cs|
  {
    if cs != [] {
      assert Storable(ChildValues(cs)[0]);
      StorableVisit(Node(path + [cs[0].step], cs[0].value));
      assert ChildValues(cs)[1..] == ChildValues(cs[1..]);
      StorableVisitChildren(path, parent, cs[1..]);
    }
  }
}
