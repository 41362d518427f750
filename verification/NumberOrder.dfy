/**
 * The laws of comparison on all comparable numbers, floats with a misreported magnitude included: comparison is the
 * lexicographic order of magnitude and value, so it is a total order whenever larger floats report no smaller
 * magnitude.
 */
module NumberOrder {
  import opened Common
  import opened Decimals
  import opened Numbers

  /** The magnitude comparison goes by: the reported one of a float, the true one of any other number. */
  function ReportedMagnitude(n: Number): int
    requires IsNumeric(n)
  {
    if n.Floating? then n.f.magnitude else Magnitude(DecimalOf(n))
  }

  /** Of two floats the one that is no larger reports no larger a magnitude. */
  ghost predicate Monotone(f: Float, g: Float)
    requires f.Finite? && g.Finite?
  {
    FloatValue(f) != 0.0 && FloatValue(g) != 0.0 && Abs(FloatValue(f)) <= Abs(FloatValue(g))
    ==> f.magnitude <= g.magnitude
  }

  /** If both numbers are floats, their reported magnitudes are in the order of their values. */
  ghost predicate Agree(a: Number, b: Number)
    requires IsNumeric(a) && IsNumeric(b)
  {
    a.Floating? && b.Floating? ==> Monotone(a.f, b.f) && Monotone(b.f, a.f)
  }

  /** Signs first, then reported magnitudes, then values. */
  ghost function KeyOrder(m: int, x: real, k: int, y: real): int {
    if x > 0.0 && y > 0.0 && m != k then CompareInt(m, k)
    else if x < 0.0 && y < 0.0 && m != k then CompareInt(k, m)
    else CompareReal(x, y)
  }

  lemma DecimalDecade(d: Decimal)
    requires IsNormal(d)
    ensures Value(d) == 0.0 <==> d.digits == ""
    ensures Value(d) < 0.0 <==> d.digits != "" && d.negative
    ensures d.digits != "" ==> Abs(Value(d)) == AbsValue(d.digits, d.exponent)
    ensures d.digits != "" ==> Powers.Pow10(Magnitude(d) - 1) <= Abs(Value(d)) < Powers.Pow10(Magnitude(d))
  {
    hide Powers.Pow10, AbsValue, IsNormal;
    NormalSign(d);
    if d.digits != "" {
      AbsValueRange(d);
    } else {
      NormalZero(d);
    }
  }

  lemma NormalZero(d: Decimal)
    requires IsNormal(d) && d.digits == ""
    ensures !d.negative
  {
  }

  /** Between decimals the magnitude decides what the value would. */
  lemma DecimalKeys(c: Decimal, d: Decimal)
    requires IsNormal(c) && IsNormal(d)
    ensures CompareDecimals(c, d) == KeyOrder(Magnitude(c), Value(c), Magnitude(d), Value(d))
  {
    hide Powers.Pow10, Value, CompareDecimals, Magnitude;
    CompareDecimalsExact(c, d);
    DecimalDecade(c);
    DecimalDecade(d);
    var m, k := Magnitude(c), Magnitude(d);
    if c.digits != "" && d.digits != "" {
      if m < k {
        DecadesApart(m, k, Abs(Value(c)), Abs(Value(d)));
      } else if k < m {
        DecadesApart(k, m, Abs(Value(d)), Abs(Value(c)));
      }
    }
  }

  lemma MixedKeys(d: Decimal, f: Float)
    requires IsNormal(d) && f.Finite?
    ensures CompareDecimalToFloat(d, f) == KeyOrder(Magnitude(d), Value(d), f.magnitude, FloatValue(f))
  {
    hide Powers.Pow10, AbsValue, Value, FloatValue, IsNormal, Magnitude;
    DecimalDecade(d);
  }

  lemma FloatKeys(f: Float, g: Float)
    requires f.Finite? && g.Finite? && Monotone(f, g) && Monotone(g, f)
    ensures CompareReal(FloatValue(f), FloatValue(g))
            == KeyOrder(f.magnitude, FloatValue(f), g.magnitude, FloatValue(g))
  {
    hide FloatValue;
  }

  lemma KeyOrderFlips(m: int, x: real, k: int, y: real)
    ensures KeyOrder(k, y, m, x) == -KeyOrder(m, x, k, y)
  {
  }

  lemma KeyOrderTransitive(m: int, x: real, k: int, y: real, l: int, z: real)
    requires KeyOrder(m, x, k, y) <= 0 && KeyOrder(k, y, l, z) <= 0
    ensures KeyOrder(m, x, l, z) <= 0
    ensures KeyOrder(m, x, l, z) == 0 <==> KeyOrder(m, x, k, y) == 0 == KeyOrder(k, y, l, z)
  {
  }

  /** Every comparison of numbers is the order of their keys. */
  lemma CompareNumbersKeys(a: Number, b: Number)
    requires IsNumeric(a) && IsNumeric(b) && Agree(a, b)
    ensures CompareNumbers(a, b)
         == Some(KeyOrder(ReportedMagnitude(a), NumberValue(a), ReportedMagnitude(b), NumberValue(b)))
  {
    hide CompareNumbers, DecimalOf, NumberValue, IsNumeric, KeyOrder, IsNormal, Magnitude, FloatValue;
    ComparisonForms(a, b);
    if a.Floating? && b.Floating? {
      FloatKeys(a.f, b.f);
    } else if a.Floating? {
      DecimalOfValue(b);
      MixedKeys(DecimalOf(b), a.f);
      KeyOrderFlips(Magnitude(DecimalOf(b)), NumberValue(b), a.f.magnitude, NumberValue(a));
    } else if b.Floating? {
      DecimalOfValue(a);
      MixedKeys(DecimalOf(a), b.f);
    } else {
      DecimalOfValue(a);
      DecimalOfValue(b);
      DecimalKeys(DecimalOf(a), DecimalOf(b));
    }
  }

  /** Floats among themselves, a float against a decimal, and everything else as decimals. */
  lemma ComparisonForms(a: Number, b: Number)
    requires IsNumeric(a) && IsNumeric(b)
    ensures a.Floating? ==> a.f.Finite? && NumberValue(a) == FloatValue(a.f)
    ensures b.Floating? ==> b.f.Finite? && NumberValue(b) == FloatValue(b.f)
    ensures CompareNumbers(a, b)
         == Some(if a.Floating? && b.Floating? then CompareReal(FloatValue(a.f), FloatValue(b.f))
                 else if a.Floating? then -CompareDecimalToFloat(DecimalOf(b), a.f)
                 else if b.Floating? then CompareDecimalToFloat(DecimalOf(a), b.f)
                 else CompareDecimals(DecimalOf(a), DecimalOf(b)))
  {
    hide DecimalOf, CompareDecimals, CompareDecimalToFloat, FloatValue;
    if !a.Floating? && !b.Floating? {
      DecimalOfValue(a);
      DecimalOfValue(b);
      CompareNumbersExact(a, b);
      CompareDecimalsExact(DecimalOf(a), DecimalOf(b));
    }
  }

  /** Two numbers are comparable in one order if and only if they are in the other, with the opposite sign. */
  lemma CompareNumbersAntisymmetric(a: Number, b: Number)
    ensures CompareNumbers(b, a) == match CompareNumbers(a, b) case None => None case Some(order) => Some(-order)
    ensures CompareNumbers(a, b).Some? <==> IsNumeric(a) && IsNumeric(b)
  {
    hide CompareNumbers, CompareDecimals, CompareDecimalToFloat, FloatValue, IsNumeric, DecimalOf;
    Comparability(a, b);
    Comparability(b, a);
    if IsNumeric(a) && IsNumeric(b) {
      ComparisonForms(a, b);
      ComparisonForms(b, a);
      if !a.Floating? && !b.Floating? {
        CompareDecimalsExact(DecimalOf(a), DecimalOf(b));
        CompareDecimalsExact(DecimalOf(b), DecimalOf(a));
      }
    }
  }

  lemma Comparability(a: Number, b: Number)
    ensures CompareNumbers(a, b).Some? <==> IsNumeric(a) && IsNumeric(b)
  {
    hide IsNumeric, CompareDecimals, CompareDecimalToFloat, DecimalOf, FloatValue;
  }

  /** A number equals itself if and only if it is comparable at all. */
  lemma CompareNumbersReflexive(n: Number)
    ensures CompareNumbers(n, n) == Some(0) <==> IsNumeric(n)
  {
    hide CompareNumbers, IsNumeric;
    CompareNumbersAntisymmetric(n, n);
  }

  /**
   * Numbers of all kinds are totally ordered by comparison, whether or not a float's magnitude is reported truly, as
   * long as larger floats report no smaller magnitudes.
   */
  lemma CompareNumbersTransitive(a: Number, b: Number, c: Number)
    requires IsNumeric(a) && IsNumeric(b) && IsNumeric(c) && Agree(a, b) && Agree(b, c) && Agree(a, c)
    requires CompareNumbers(a, b).value <= 0 && CompareNumbers(b, c).value <= 0
    ensures CompareNumbers(a, c).value <= 0
    ensures CompareNumbers(a, c).value == 0 <==> CompareNumbers(a, b).value == 0 == CompareNumbers(b, c).value
  {
    hide CompareNumbers, NumberValue, ReportedMagnitude, KeyOrder, IsNumeric, Agree;
    CompareNumbersKeys(a, b);
    CompareNumbersKeys(b, c);
    CompareNumbersKeys(a, c);
    KeyOrderTransitive(ReportedMagnitude(a), NumberValue(a), ReportedMagnitude(b), NumberValue(b), ReportedMagnitude(c),
      NumberValue(c));
  }

  /** True magnitudes are in the order of the values. */
  lemma TrueMagnitudesAgree(a: Number, b: Number)
    requires IsExact(a) && IsExact(b)
    ensures Agree(a, b)
  {
    hide Powers.Pow10, FloatValue;
    if a.Floating? && b.Floating? {
      TrueMagnitudesMonotone(a.f, b.f);
      TrueMagnitudesMonotone(b.f, a.f);
    }
  }

  lemma TrueMagnitudesMonotone(f: Float, g: Float)
    requires TrueMagnitude(f) && TrueMagnitude(g)
    ensures Monotone(f, g)
  {
    hide Powers.Pow10, FloatValue;
    if FloatValue(f) != 0.0 && FloatValue(g) != 0.0 && g.magnitude < f.magnitude {
      DecadesApart(g.magnitude, f.magnitude, Abs(FloatValue(g)), Abs(FloatValue(f)));
    }
  }

  // ---- Equality

  /** The magnitude a float reports depends on nothing but its absolute value. */
  ghost predicate Rendered(n: Number, magnitude: real -> int) {
    n.Floating? && n.f.Finite? && FloatValue(n.f) != 0.0 ==> n.f.magnitude == magnitude(Abs(FloatValue(n.f)))
  }

  lemma KeyOrderEqual(m: int, x: real, k: int, y: real)
    ensures KeyOrder(m, x, k, y) == 0 <==> x == y && (x == 0.0 || m == k)
  {
  }

  /** Numbers of one kind are equal by value; a float and another number also need the same magnitude, unless zero. */
  lemma EqualNumbers(a: Number, b: Number)
    requires IsNumeric(a) && IsNumeric(b)
    ensures CompareNumbers(a, b) == Some(0)
       <==> && NumberValue(a) == NumberValue(b)
            && (NumberValue(a) == 0.0 || a.Floating? == b.Floating? || ReportedMagnitude(a) == ReportedMagnitude(b))
  {
    hide CompareNumbers, CompareDecimals, CompareDecimalToFloat, NumberValue, DecimalOf, FloatValue, Magnitude,
      KeyOrder, Value;
    ComparisonForms(a, b);
    if a.Floating? && !b.Floating? {
      DecimalOfValue(b);
      MixedKeys(DecimalOf(b), a.f);
      KeyOrderEqual(Magnitude(DecimalOf(b)), NumberValue(b), a.f.magnitude, FloatValue(a.f));
    } else if !a.Floating? && b.Floating? {
      DecimalOfValue(a);
      MixedKeys(DecimalOf(a), b.f);
      KeyOrderEqual(Magnitude(DecimalOf(a)), NumberValue(a), b.f.magnitude, FloatValue(b.f));
    } else if !a.Floating? && !b.Floating? {
      DecimalOfValue(a);
      DecimalOfValue(b);
      CompareDecimalsExact(DecimalOf(a), DecimalOf(b));
    }
  }

  /** Numbers of the same value report the same magnitude, two floats because rendering is a function. */
  lemma SameKindSameMagnitude(a: Number, b: Number, magnitude: real -> int)
    requires IsNumeric(a) && IsNumeric(b) && a.Floating? == b.Floating?
    requires NumberValue(a) == NumberValue(b) != 0.0 && Rendered(a, magnitude) && Rendered(b, magnitude)
    ensures ReportedMagnitude(a) == ReportedMagnitude(b)
  {
    hide FloatValue, Magnitude, Value;
    if !a.Floating? {
      DecimalOfValue(a);
      DecimalOfValue(b);
      NormalFormUnique(DecimalOf(a), DecimalOf(b));
    }
  }

  /** Equality of numbers is transitive, given only that rendering a float is a function of its value. */
  lemma EqualNumbersTransitive(a: Number, b: Number, c: Number, magnitude: real -> int)
    requires CompareNumbers(a, b) == Some(0) && CompareNumbers(b, c) == Some(0)
    requires Rendered(a, magnitude) && Rendered(b, magnitude) && Rendered(c, magnitude)
    ensures CompareNumbers(a, c) == Some(0)
  {
    hide CompareNumbers, NumberValue, ReportedMagnitude, IsNumeric, Rendered;
    Comparability(a, b);
    Comparability(b, c);
    EqualNumbers(a, b);
    EqualNumbers(b, c);
    EqualNumbers(a, c);
    if NumberValue(a) != 0.0 {
      if a.Floating? == b.Floating? {
        SameKindSameMagnitude(a, b, magnitude);
      } else if b.Floating? == c.Floating? {
        SameKindSameMagnitude(b, c, magnitude);
      }
    }
  }
}
