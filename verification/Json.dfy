/** Decoded JSON documents and the canonical order of the children of a node. */
module Json {
  import opened Common
  import opened Text
  import opened Numbers
  import opened Slices

  datatype Json =
    | Null
    | Bool(b: bool)
    | Num(n: Number)
    | Str(s: string)
    | Arr(elems: seq<Json>)
    | Obj(members: map<string, Json>)

  /** One step of a normalized path. */
  datatype Step = NameStep(name: string) | IndexStep(index: nat)

  /** A direct child of an array or object, with the step that leads to it. */
  datatype Child = Child(step: Step, value: Json)

  /** The longest array whose indexes a query can write: 2^53 elements. */
  const MAX_ARRAY: int := 0x20_0000_0000_0000

  /** No array in the document is longer than this. */
  predicate ArraysWithin(j: Json, length: int) {
    match j
    case Arr(es) => |es| <= length && forall i | 0 <= i < |es| :: ArraysWithin(es[i], length)
    case Obj(m) => forall k | k in m :: ArraysWithin(m[k], length)
    case _ => true
  }

  /** Every array is short enough for slice arithmetic to stay within 64 bits. */
  predicate Storable(j: Json) {
    ArraysWithin(j, MAX_LENGTH)
  }

  // ---- Sorted names

  predicate SortedNames(s: seq<string>) {
    forall i, j | 0 <= i < j < |s| :: CompareText(s[i], s[j]) < 0
  }

  predicate IsLeast(k: string, ks: set<string>) {
    k in ks && forall x | x in ks :: CompareText(k, x) <= 0
  }

  lemma {:induction false} LeastNameExists(ks: set<string>)
    requires ks != {}
    ensures exists k :: IsLeast(k, ks)
  {
    var y :| y in ks;
    var rest := ks - {y};
    CompareTextEqual(y, y);
    if rest == {} {
      assert ks == {y};
      assert IsLeast(y, ks);
    } else {
      LeastNameExists(rest);
      var k :| IsLeast(k, rest);
      CompareTextAntisymmetric(k, y);
      if CompareText(y, k) < 0 {
        forall x | x in ks
          ensures CompareText(y, x) <= 0
        {
          if x != y {
            CompareTextTransitive(y, k, x);
          }
        }
        assert IsLeast(y, ks);
      } else {
        assert IsLeast(k, ks);
      }
    }
  }

  lemma LeastNameUnique(ks: set<string>)
    ensures forall a, b | IsLeast(a, ks) && IsLeast(b, ks) :: a == b
  {
    forall a, b | IsLeast(a, ks) && IsLeast(b, ks)
      ensures a == b
    {
      CompareTextAntisymmetric(a, b);
      CompareTextEqual(a, b);
    }
  }

  /** The names of an object in ascending order, as slices.Sorted(maps.Keys(m)) returns them. */
  function Sorted(ks: set<string>): (r: seq<string>)
    ensures forall x :: x in r <==> x in ks
    ensures SortedNames(r)
  {
    if ks == {} then []
    else
      LeastNameExists(ks);
      LeastNameUnique(ks);
      var k :| IsLeast(k, ks);
      var rest := Sorted(ks - {k});
      LeastFirst(k, ks, rest);
      [k] + rest
  }

  lemma LeastFirst(k: string, ks: set<string>, rest: seq<string>)
    requires IsLeast(k, ks) && SortedNames(rest) && forall x :: x in rest <==> x in ks - {k}
    ensures SortedNames([k] + rest)
    ensures forall x :: x in [k] + rest <==> x in ks
  {
    forall i | 0 <= i < |rest|
      ensures CompareText(k, rest[i]) < 0
    {
      assert rest[i] in rest;
      CompareTextEqual(k, rest[i]);
    }
  }

  lemma SortedDistinct(s: seq<string>)
    requires SortedNames(s)
    ensures forall i, j | 0 <= i < j < |s| :: s[i] != s[j]
  {
    forall i, j | 0 <= i < j < |s|
      ensures s[i] != s[j]
    {
      CompareTextEqual(s[i], s[j]);
    }
  }

  lemma FirstIsIn(s: seq<string>)
    ensures s == [] || s[0] in s
  {
  }

  /** The sorted sequence of a set of names is unique: any order-respecting listing is the canonical one. */
  lemma {:induction false} SortedUnique(s: seq<string>, ks: set<string>)
    requires SortedNames(s) && forall x :: x in s <==> x in ks
    ensures s == Sorted(ks)
  {
    var r := Sorted(ks);
    if ks == {} {
      FirstIsIn(s);
    } else {
      SameLeast(s, r);
      var k := r[0];
      SortedDistinct(s);
      SortedDistinct(r);
      forall x
        ensures x in s[1..] <==> x in ks - {k}
      {
        assert s == [s[0]] + s[1..];
      }
      SortedUnique(s[1..], ks - {k});
      forall x
        ensures x in r[1..] <==> x in ks - {k}
      {
        assert r == [r[0]] + r[1..];
      }
      SortedUnique(r[1..], ks - {k});
      assert s == [k] + s[1..] && r == [k] + r[1..];
    }
  }

  lemma SameLeast(s: seq<string>, r: seq<string>)
    requires SortedNames(s) && SortedNames(r) && r != [] && forall x :: x in s <==> x in r
    ensures s != [] && s[0] == r[0]
  {
    assert r[0] in s;
    assert s[0] in r;
    CompareTextAntisymmetric(s[0], r[0]);
  }

  // ---- Children

  function ChildAt(j: Json, names: seq<string>, i: nat): (c: Child)
    requires (j.Arr? && i < |j.elems|) || (j.Obj? && i < |names| && names[i] in j.members)
    ensures c.value < j
  {
    match j
    case Arr(es) => Child(IndexStep(i), es[i])
    case Obj(m) => Child(NameStep(names[i]), m[names[i]])
  }

  lemma SortedNamesIn(m: map<string, Json>)
    ensures forall i | 0 <= i < |Sorted(m.Keys)| :: Sorted(m.Keys)[i] in m
  {
    hide Sorted;
    forall i | 0 <= i < |Sorted(m.Keys)|
      ensures Sorted(m.Keys)[i] in m
    {
      assert Sorted(m.Keys)[i] in Sorted(m.Keys);
    }
  }

  /** The children of a node: array elements by index, object members by ascending name, none for a primitive. */
  function Children(j: Json): (cs: seq<Child>)
    ensures forall i | 0 <= i < |cs| :: cs[i].value < j
    ensures forall i | 0 <= i < |cs| :: Lookup(j, cs[i].step) == Some(cs[i].value)
  {
    match j
    case Arr(es) => seq(|es|, i requires 0 <= i < |es| => ChildAt(j, [], i))
    case Obj(m) =>
      var names := Sorted(m.Keys);
      SortedNamesIn(m);
      seq(|names|, i requires 0 <= i < |names| => ChildAt(j, names, i))
    case _ => []
  }

  /** The child one step below a node, if there is one. */
  function Lookup(j: Json, s: Step): Option<Json> {
    match (j, s)
    case (Arr(es), IndexStep(i)) => if i < |es| then Some(es[i]) else None
    case (Obj(m), NameStep(n)) => if n in m then Some(m[n]) else None
    case (_, _) => None
  }

  /** No two children of a node are reached by the same step. */
  lemma ChildrenDistinct(j: Json)
    ensures forall i, k | 0 <= i < k < |Children(j)| :: Children(j)[i].step != Children(j)[k].step
  {
    if j.Obj? {
      SortedDistinct(Sorted(j.members.Keys));
    }
  }

  /** Every step that leads somewhere leads to one of the children. */
  lemma ChildrenComplete(j: Json, s: Step)
    requires Lookup(j, s).Some?
    ensures Child(s, Lookup(j, s).value) in Children(j)
  {
    hide Sorted, Children;
    ChildrenListed(j);
    if j.Arr? {
      assert Children(j)[s.index] == Child(s, j.elems[s.index]);
    } else {
      var names := Sorted(j.members.Keys);
      assert s.name in names;
      var i :| 0 <= i < |names| && names[i] == s.name;
      assert Children(j)[i] == Child(s, j.members[s.name]);
    }
  }

  lemma StorableChild(j: Json, i: nat)
    requires Storable(j) && i < |Children(j)|
    ensures Storable(Children(j)[i].value)
  {
  }

  function Reverse<T>(s: seq<T>): seq<T> {
    if s == [] then [] else Reverse(s[1..]) + [s[0]]
  }

  lemma ChildrenListed(j: Json)
    ensures j.Arr? ==> |Children(j)| == |j.elems| && forall i | 0 <= i < |j.elems| ::
            Children(j)[i] == ChildAt(j, [], i)
    ensures j.Obj? ==>
              var names := Sorted(j.members.Keys);
              && |Children(j)| == |names| && (forall i | 0 <= i < |names| :: names[i] in j.members)
              && forall i | 0 <= i < |names| :: Children(j)[i] == ChildAt(j, names, i)
    ensures !j.Arr? && !j.Obj? ==> Children(j) == []
  {
    hide Sorted, ChildAt;
    if j.Obj? {
      SortedNamesIn(j.members);
    }
  }

  /** The children in the order a wildcard or filter visits them. */
  method ForEachChild(j: Json) returns (cs: seq<Child>)
    ensures cs == Children(j)
  {
    hide Children, Sorted, SortedNames, ChildAt;
    cs := [];
    ghost var all := Children(j);
    ChildrenListed(j);
    match j {
      case Obj(m) =>
        var names := Sorted(m.Keys);
        var i := 0;
        while i < |names|
          invariant 0 <= i <= |names| == |all|
          invariant cs == all[..i]
        {
          var c := ChildAt(j, names, i);
          assert all[..i + 1] == all[..i] + [c];
          cs := cs + [c];
          i := i + 1;
        }
      case Arr(es) =>
        var i := 0;
        while i < |es|
          invariant 0 <= i <= |es| == |all|
          invariant cs == all[..i]
        {
          var c := ChildAt(j, [], i);
          assert all[..i + 1] == all[..i] + [c];
          cs := cs + [c];
          i := i + 1;
        }
      case _ =>
    }
  }

  /** The children in the order they are pushed on a stack: last one first. */
  method ForEachChildReverse(j: Json) returns (cs: seq<Child>)
    ensures cs == Reverse(Children(j))
  {
    hide Children, Sorted, SortedNames, ChildAt;
    cs := [];
    ghost var all := Children(j);
    ChildrenListed(j);
    assert all[|all|..] == [];
    match j {
      case Obj(m) =>
        var names := Sorted(m.Keys);
        var i := |names| - 1;
        while i >= 0
          invariant -1 <= i < |names| == |all|
          invariant cs == Reverse(all[i + 1..])
        {
          assert all[i..][1..] == all[i + 1..];
          cs := cs + [ChildAt(j, names, i)];
          i := i - 1;
        }
      case Arr(es) =>
        var i := |es| - 1;
        while i >= 0
          invariant -1 <= i < |es| == |all|
          invariant cs == Reverse(all[i + 1..])
        {
          assert all[i..][1..] == all[i + 1..];
          cs := cs + [ChildAt(j, [], i)];
          i := i - 1;
        }
      case _ =>
    }
    assert all[0..] == all;
  }
}
