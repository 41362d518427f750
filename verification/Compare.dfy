/** Comparison of runtime values in filter expressions: deep equality and order. */
module Compare {
  import opened Common
  import opened Text
  import opened Numbers
  import opened NumberOrder
  import opened Json
  import opened Syntax

  /** What an operand of a comparison evaluates to. */
  datatype RuntimeValue = Nothing | JsonValue(v: Json) | LogicalValue(b: bool) | NodesValue(nodes: seq<Json>)

  /** Deep equality: arrays by position, objects by member, numbers by exact value. */
  predicate JsonEqual(a: Json, b: Json)
    decreases a
  {
    match (a, b)
    case (Num(x), Num(y)) => CompareNumbers(x, y) == Some(0)
    case (Arr(xs), Arr(ys)) => |xs| == |ys| && forall i | 0 <= i < |xs| :: JsonEqual(xs[i], ys[i])
    case (Obj(m), Obj(n)) => m.Keys == n.Keys && forall k | k in m :: JsonEqual(m[k], n[k])
    case (Null, Null) => true
    case (Bool(x), Bool(y)) => x == y
    case (Str(x), Str(y)) => x == y
    case (_, _) => false
  }

  predicate EqualTo(a: RuntimeValue, b: RuntimeValue) {
    if a.Nothing? || b.Nothing? then a.Nothing? && b.Nothing?
    else a.JsonValue? && b.JsonValue? && JsonEqual(a.v, b.v)
  }

  predicate Numeric(j: Json) {
    j.Num? && IsNumeric(j.n)
  }

  predicate SameType(a: RuntimeValue, b: RuntimeValue) {
    && a.JsonValue? && b.JsonValue?
    && if a.v.Null? || b.v.Null? then a.v.Null? && b.v.Null?
       else (Numeric(a.v) && Numeric(b.v)) || (a.v.Str? && b.v.Str?) || (a.v.Bool? && b.v.Bool?)
  }

  predicate LessThan(a: RuntimeValue, b: RuntimeValue) {
    && a.JsonValue? && b.JsonValue?
    && match (a.v, b.v)
       case (Num(x), Num(y)) => var order := CompareNumbers(x, y); order.Some? && order.value < 0
       case (Str(s), Str(t)) => CompareText(s, t) < 0
       case (_, _) => false
  }

  predicate Holds(op: CompOp, a: RuntimeValue, b: RuntimeValue) {
    match op
    case Equal => EqualTo(a, b)
    case NotEqual => !EqualTo(a, b)
    case Less => SameType(a, b) && LessThan(a, b)
    case LessEqual => SameType(a, b) && (LessThan(a, b) || EqualTo(a, b))
    case Greater => SameType(a, b) && LessThan(b, a)
    case GreaterEqual => SameType(a, b) && (LessThan(b, a) || EqualTo(a, b))
  }

  // ---- Laws

  /** Every number in the value is comparable: no NaN, infinity or malformed lexeme. */
  predicate AllNumeric(j: Json) {
    match j
    case Num(n) => IsNumeric(n)
    case Arr(es) => forall i | 0 <= i < |es| :: AllNumeric(es[i])
    case Obj(m) => forall k | k in m :: AllNumeric(m[k])
    case _ => true
  }

  /** The magnitudes that floats in the value report are a function of their absolute values. */
  ghost predicate AllRendered(j: Json, magnitude: real -> int) {
    match j
    case Num(n) => Rendered(n, magnitude)
    case Arr(es) => forall i | 0 <= i < |es| :: AllRendered(es[i], magnitude)
    case Obj(m) => forall k | k in m :: AllRendered(m[k], magnitude)
    case _ => true
  }

  /** A value equals itself if and only if every number in it is comparable. */
  lemma {:induction false} JsonEqualReflexive(a: Json)
    ensures JsonEqual(a, a) <==> AllNumeric(a)
  {
    hide CompareNumbers, IsNumeric;
    match a
    case Num(n) => CompareNumbersReflexive(n);
    case Arr(es) =>
      forall i | 0 <= i < |es|
        ensures JsonEqual(es[i], es[i]) <==> AllNumeric(es[i])
      {
        JsonEqualReflexive(es[i]);
      }
    case Obj(m) =>
      forall k | k in m
        ensures JsonEqual(m[k], m[k]) <==> AllNumeric(m[k])
      {
        JsonEqualReflexive(m[k]);
      }
    case _ =>
  }

  lemma {:induction false} JsonEqualSymmetric(a: Json, b: Json)
    ensures JsonEqual(a, b) <==> JsonEqual(b, a)
    decreases a
  {
    hide CompareNumbers;
    match (a, b)
    case (Num(x), Num(y)) => CompareNumbersAntisymmetric(x, y);
    case (Arr(xs), Arr(ys)) =>
      if |xs| == |ys| {
        forall i | 0 <= i < |xs|
          ensures JsonEqual(xs[i], ys[i]) <==> JsonEqual(ys[i], xs[i])
        {
          JsonEqualSymmetric(xs[i], ys[i]);
        }
      }
    case (Obj(m), Obj(n)) =>
      if m.Keys == n.Keys {
        forall k | k in m
          ensures JsonEqual(m[k], n[k]) <==> JsonEqual(n[k], m[k])
        {
          JsonEqualSymmetric(m[k], n[k]);
        }
      }
    case (_, _) =>
  }

  lemma {:induction false} JsonEqualTransitive(a: Json, b: Json, c: Json, magnitude: real -> int)
    requires JsonEqual(a, b) && JsonEqual(b, c)
    requires AllRendered(a, magnitude) && AllRendered(b, magnitude) && AllRendered(c, magnitude)
    ensures JsonEqual(a, c)
    decreases a
  {
    hide CompareNumbers, Rendered;
    match (a, b)
    case (Num(x), Num(y)) => EqualNumbersTransitive(x, y, c.n, magnitude);
    case (Arr(xs), Arr(ys)) =>
      forall i | 0 <= i < |xs|
        ensures JsonEqual(xs[i], c.elems[i])
      {
        JsonEqualTransitive(xs[i], ys[i], c.elems[i], magnitude);
      }
    case (Obj(m), Obj(n)) =>
      forall k | k in m
        ensures JsonEqual(m[k], c.members[k])
      {
        JsonEqualTransitive(m[k], n[k], c.members[k], magnitude);
      }
    case (_, _) =>
  }

  /** The comparisons of two numbers come down to the sign of their order, if they have one. */
  lemma NumbersHold(x: Number, y: Number)
    ensures var order := CompareNumbers(x, y);
            && (Holds(Less, JsonValue(Num(x)), JsonValue(Num(y))) <==> order.Some? && order.value < 0)
            && (Holds(Equal, JsonValue(Num(x)), JsonValue(Num(y))) <==> order.Some? && order.value == 0)
            && (Holds(Greater, JsonValue(Num(x)), JsonValue(Num(y))) <==> order.Some? && order.value > 0)
  {
    hide CompareNumbers, IsNumeric;
    CompareNumbersAntisymmetric(x, y);
  }

  lemma TextsHold(x: string, y: string)
    ensures Holds(Less, JsonValue(Str(x)), JsonValue(Str(y))) <==> CompareText(x, y) < 0
    ensures Holds(Equal, JsonValue(Str(x)), JsonValue(Str(y))) <==> x == y
    ensures Holds(Greater, JsonValue(Str(x)), JsonValue(Str(y))) <==> CompareText(y, x) < 0
  {
    hide CompareText;
  }

  predicate ExactlyOne(p: bool, q: bool, r: bool) {
    (p || q || r) && !(p && q) && !(p && r) && !(q && r)
  }

  /** On strings, and on two numbers if and only if both are comparable, exactly one of `<`, `==` and `>` holds. */
  lemma Trichotomy(a: RuntimeValue, b: RuntimeValue)
    requires a.JsonValue? && b.JsonValue?
    requires (a.v.Num? && b.v.Num?) || (a.v.Str? && b.v.Str?)
    ensures ExactlyOne(Holds(Less, a, b), Holds(Equal, a, b), Holds(Greater, a, b))
            <==> AllNumeric(a.v) && AllNumeric(b.v)
  {
    hide Holds, CompareNumbers, CompareText, IsNumeric;
    if a.v.Num? {
      NumbersHold(a.v.n, b.v.n);
      Comparability(a.v.n, b.v.n);
    } else {
      TextsHold(a.v.s, b.v.s);
      CompareTextAntisymmetric(a.v.s, b.v.s);
      CompareTextEqual(a.v.s, b.v.s);
    }
  }

  /** Section 2.3.5.2.2 of RFC 9535 defines `<=` as the union of `<` and `==`. */
  predicate UnionOfLessAndEqual(a: RuntimeValue, b: RuntimeValue) {
    Holds(Less, a, b) || Holds(Equal, a, b)
  }

  /** Both operands are missing, both are arrays or both are objects. */
  predicate Structured(a: RuntimeValue, b: RuntimeValue) {
    (a.Nothing? && b.Nothing?)
    || (a.JsonValue? && b.JsonValue? && ((a.v.Arr? && b.v.Arr?) || (a.v.Obj? && b.v.Obj?)))
  }

  /** The program's `<=` and `>=` are the RFC's unions except on equal operands that have no order at all. */
  lemma LessEqualIsUnion(a: RuntimeValue, b: RuntimeValue)
    ensures Holds(LessEqual, a, b) == UnionOfLessAndEqual(a, b) <==> !(Structured(a, b) && EqualTo(a, b))
    ensures Holds(GreaterEqual, a, b) == (Holds(Greater, a, b) || Holds(Equal, a, b))
            <==> !(Structured(a, b) && EqualTo(a, b))
  {
  }

  /** A missing operand against a missing operand: equal, yet not `<=`. */
  lemma NothingIsNotLessEqual()
    ensures Holds(Equal, Nothing, Nothing) && !Holds(LessEqual, Nothing, Nothing)
  {
  }
}
