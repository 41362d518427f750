/** Comparison as equality and order of what documents stand for. */
module CompareMeaning {
  import opened Common
  import opened Text
  import opened Numbers
  import opened NumberOrder
  import NumberMeaning
  import opened Json
  import opened Syntax
  import opened Compare

  /** What a document stands for, with its numbers as exact reals. */
  datatype Meaning =
    | Empty
    | Truth(b: bool)
    | Quantity(x: real)
    | Words(s: string)
    | List(elems: seq<Meaning>)
    | Record(members: map<string, Meaning>)

  /** Every number in `j` stands for the real at its place in `m`, and the rest is the same. */
  ghost predicate Means(j: Json, m: Meaning) {
    match (j, m)
    case (Null, Empty) => true
    case (Bool(b), Truth(c)) => b == c
    case (Num(n), Quantity(x)) => NumberMeaning.StandsFor(n, x)
    case (Str(s), Words(t)) => s == t
    case (Arr(es), List(ms)) => |es| == |ms| && forall i | 0 <= i < |es| :: Means(es[i], ms[i])
    case (Obj(o), Record(ms)) => o.Keys == ms.Keys && forall k | k in o :: Means(o[k], ms[k])
    case (_, _) => false
  }

  /** Every number in the document stands for something. */
  ghost predicate AllStand(j: Json) {
    match j
    case Num(n) => exists x :: NumberMeaning.StandsFor(n, x)
    case Arr(es) => forall i | 0 <= i < |es| :: AllStand(es[i])
    case Obj(o) => forall k | k in o :: AllStand(o[k])
    case _ => true
  }

  /** What a document stands for, if all its numbers stand for something. */
  ghost function MeaningOf(j: Json): (m: Meaning)
    requires AllStand(j)
    ensures Means(j, m)
  {
    match j
    case Null => Empty
    case Bool(b) => Truth(b)
    case Num(n) => var x :| NumberMeaning.StandsFor(n, x); Quantity(x)
    case Str(s) => Words(s)
    case Arr(es) => List(seq(|es|, i requires 0 <= i < |es| => MeaningOf(es[i])))
    case Obj(o) => Record(map k | k in o :: MeaningOf(o[k]))
  }

  /** Deep equality is equality of what the documents stand for. */
  lemma {:induction false} JsonEqualIsSameMeaning(a: Json, b: Json, m: Meaning, k: Meaning)
    requires Means(a, m) && Means(b, k)
    ensures JsonEqual(a, b) <==> m == k
    decreases a
  {
    hide CompareNumbers;
    match (a, b)
    case (Num(x), Num(y)) => NumberMeaning.CompareStandsFor(x, y, m.x, k.x);
    case (Arr(xs), Arr(ys)) =>
      if |xs| == |ys| {
        forall i | 0 <= i < |xs|
          ensures JsonEqual(xs[i], ys[i]) <==> m.elems[i] == k.elems[i]
        {
          JsonEqualIsSameMeaning(xs[i], ys[i], m.elems[i], k.elems[i]);
        }
      }
    case (Obj(o), Obj(p)) =>
      if o.Keys == p.Keys {
        forall n | n in o
          ensures JsonEqual(o[n], p[n]) <==> m.members[n] == k.members[n]
        {
          JsonEqualIsSameMeaning(o[n], p[n], m.members[n], k.members[n]);
        }
      }
    case (_, _) =>
  }

  predicate NumberFree(j: Json) {
    match j
    case Num(_) => false
    case Arr(es) => forall i | 0 <= i < |es| :: NumberFree(es[i])
    case Obj(m) => forall k | k in m :: NumberFree(m[k])
    case _ => true
  }

  /** Without numbers, deep equality is equality. */
  lemma {:induction false} JsonEqualIsEquality(a: Json, b: Json)
    requires NumberFree(a) && NumberFree(b)
    ensures JsonEqual(a, b) <==> a == b
    decreases a
  {
    match (a, b)
    case (Arr(xs), Arr(ys)) =>
      if |xs| == |ys| {
        forall i | 0 <= i < |xs|
          ensures JsonEqual(xs[i], ys[i]) <==> xs[i] == ys[i]
        {
          JsonEqualIsEquality(xs[i], ys[i]);
        }
      }
    case (Obj(m), Obj(n)) =>
      if m.Keys == n.Keys {
        forall k | k in m
          ensures JsonEqual(m[k], n[k]) <==> m[k] == n[k]
        {
          JsonEqualIsEquality(m[k], n[k]);
        }
      }
    case (_, _) =>
  }

  // ---- The operators of section 2.3.5.2.2 of RFC 9535

  /** `==` holds of two missing operands and of two equal values, never of a truth value or node list. */
  lemma EqualHolds(a: RuntimeValue, b: RuntimeValue)
    ensures Holds(Equal, a, b)
            <==> (a == Nothing && b == Nothing) || (a.JsonValue? && b.JsonValue? && JsonEqual(a.v, b.v))
  {
    hide JsonEqual;
  }

  /** `!=` is the negation of `==`, for all operands. */
  lemma NotEqualNegates(a: RuntimeValue, b: RuntimeValue)
    ensures Holds(NotEqual, a, b) <==> !Holds(Equal, a, b)
  {
    hide EqualTo;
  }

  predicate InOrder(order: Option<int>) {
    order.Some? && order.value < 0
  }

  /** `<` holds of two numbers in order and of two strings in order, and of nothing else. */
  lemma LessHolds(a: RuntimeValue, b: RuntimeValue)
    ensures Holds(Less, a, b) <==>
              && a.JsonValue? && b.JsonValue?
              && ((a.v.Num? && b.v.Num? && InOrder(CompareNumbers(a.v.n, b.v.n)))
                  || (a.v.Str? && b.v.Str? && CompareText(a.v.s, b.v.s) < 0))
  {
    hide CompareNumbers, CompareText, IsNumeric;
    if a.JsonValue? && b.JsonValue? && a.v.Num? && b.v.Num? {
      Comparability(a.v.n, b.v.n);
    }
  }

  /** `>` is `<` with its operands swapped, and `>=` is `<=` with its operands swapped. */
  lemma GreaterIsLessSwapped(a: RuntimeValue, b: RuntimeValue)
    ensures Holds(Greater, a, b) <==> Holds(Less, b, a)
    ensures Holds(GreaterEqual, a, b) <==> Holds(LessEqual, b, a)
  {
    hide JsonEqual, LessThan;
    if a.JsonValue? && b.JsonValue? {
      JsonEqualSymmetric(a.v, b.v);
    }
  }

  /** On numbers that stand for reals the six operators are those of the reals. */
  lemma NumbersCompareAsReals(op: CompOp, a: Number, b: Number, x: real, y: real)
    requires NumberMeaning.StandsFor(a, x) && NumberMeaning.StandsFor(b, y)
    ensures Holds(op, JsonValue(Num(a)), JsonValue(Num(b)))
            <==> match op
                 case Equal => x == y
                 case NotEqual => x != y
                 case Less => x < y
                 case LessEqual => x <= y
                 case Greater => x > y
                 case GreaterEqual => x >= y
  {
    hide CompareNumbers, IsNumeric, NumberMeaning.StandsFor;
    NumberMeaning.CompareStandsFor(a, b, x, y);
    NumberMeaning.CompareStandsFor(b, a, y, x);
    Comparability(a, b);
  }
}
