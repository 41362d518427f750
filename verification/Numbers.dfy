/** The four kinds of JSON number a document can hold, and their exact comparison. */
module Numbers {
  import opened Common
  import opened Text
  import opened NumberText
  import opened Powers
  import opened Decimals

  const TWO_TO_THE_63: int := 0x8000_0000_0000_0000
  const TWO_TO_THE_64: int := 0x1_0000_0000_0000_0000

  type Int64 = x: int | -TWO_TO_THE_63 <= x < TWO_TO_THE_63
  type Uint64 = x: int | 0 <= x < TWO_TO_THE_64

  /**
   * A floating-point value: NaN or an infinity, or `mantissa` times two to `exponent` together with the
   * decimal magnitude that its shortest rendering reports.
   */
  datatype Float = NotFinite | Finite(mantissa: int, exponent: int, magnitude: int)

  /** A number as it sits in a decoded document: a Go integer, a Go float, or a number lexeme. */
  datatype Number = SignedInt(i: Int64) | UnsignedInt(u: Uint64) | Floating(f: Float) | Lexeme(text: string)

  /** Two to a power of either sign. */
  function Pow2(e: int): (r: real)
    ensures r > 0.0
    decreases if e < 0 then -e else e
  {
    if e == 0 then 1.0 else if e > 0 then 2.0 * Pow2(e - 1) else Pow2(e + 1) / 2.0
  }

  /** `mantissa` times two to `exponent`. */
  function Scaled(mantissa: int, exponent: int): real {
    mantissa as real * Pow2(exponent)
  }

  function FloatValue(f: Float): real
    requires f.Finite?
  {
    Scaled(f.mantissa, f.exponent)
  }

  function Abs(x: real): real {
    if x < 0.0 then -x else x
  }

  function AbsInt(x: int): nat {
    if x < 0 then -x else x
  }

  /** The reported magnitude is the true one: 10^(m-1) <= |f| < 10^m for a nonzero float. */
  ghost predicate TrueMagnitude(f: Float) {
    f.Finite? && (FloatValue(f) != 0.0 ==> Pow10(f.magnitude - 1) <= Abs(FloatValue(f)) < Pow10(f.magnitude))
  }

  /** The value takes part in comparisons: a valid lexeme, an integer or a finite float. */
  predicate IsNumeric(n: Number) {
    match n
    case SignedInt(_) => true
    case UnsignedInt(_) => true
    case Floating(f) => f.Finite?
    case Lexeme(text) => IsNumberText(text)
  }

  /** Numeric, and any float reports its true magnitude. */
  ghost predicate IsExact(n: Number) {
    IsNumeric(n) && (n.Floating? ==> TrueMagnitude(n.f))
  }

  function DecimalOf(n: Number): (d: Decimal)
    requires IsNumeric(n) && !n.Floating?
    ensures IsNormal(d)
  {
    match n
    case SignedInt(i) => NormalForm(i < 0, NatText(AbsInt(i)), 0)
    case UnsignedInt(u) => NormalForm(false, NatText(u), 0)
    case Lexeme(text) => LexemeDecimal(text)
  }

  /** The number denoted, as an exact real. */
  ghost function NumberValue(n: Number): real
    requires IsNumeric(n)
  {
    match n
    case SignedInt(i) => i as real
    case UnsignedInt(u) => u as real
    case Floating(f) => FloatValue(f)
    case Lexeme(text) =>
      WholeNumber(text);
      PartsValue(Split(text, 0))
  }

  /** The magnitudes are compared first; only equal magnitudes are compared as rationals. */
  function CompareDecimalToFloat(d: Decimal, f: Float): int
    requires IsNormal(d) && f.Finite?
  {
    var x := FloatValue(f);
    if d.digits == "" then (if x < 0.0 then 1 else if x > 0.0 then -1 else 0)
    else if x == 0.0 then (if d.negative then -1 else 1)
    else if d.negative != (x < 0.0) then (if d.negative then -1 else 1)
    else
      var byMagnitude := CompareInt(Magnitude(d), f.magnitude);
      var order := if byMagnitude != 0 then byMagnitude else CompareReal(AbsValue(d.digits, d.exponent), Abs(x));
      if d.negative then -order else order
  }

  function CompareNumbers(a: Number, b: Number): Option<int> {
    if !IsNumeric(a) || !IsNumeric(b) then None
    else match (a, b)
      case (SignedInt(x), SignedInt(y)) => Some(CompareInt(x, y))
      case (UnsignedInt(x), UnsignedInt(y)) => Some(CompareInt(x, y))
      case (Floating(x), Floating(y)) => Some(CompareReal(FloatValue(x), FloatValue(y)))
      case (SignedInt(x), UnsignedInt(y)) => if x < 0 then Some(-1) else Some(CompareInt(x, y))
      case (UnsignedInt(x), SignedInt(y)) => if y < 0 then Some(1) else Some(CompareInt(x, y))
      case (Floating(x), _) => Some(-CompareDecimalToFloat(DecimalOf(b), x))
      case (_, Floating(y)) => Some(CompareDecimalToFloat(DecimalOf(a), y))
      case (_, _) => Some(CompareDecimals(DecimalOf(a), DecimalOf(b)))
  }

  lemma IntegerDecimal(negative: bool, n: nat)
    ensures Value(NormalForm(negative, NatText(n), 0)) == if negative then -(n as real) else n as real
  {
    hide Pow10, NatValue, NatText, NormalForm, Value, IsNormal;
    NormalFormValue(negative, NatText(n), 0);
    Pow10Zero();
    assert NatValue(NatText(n)) == n;
    assert n as real * 1.0 == n as real;
  }

  lemma DecimalOfValue(n: Number)
    requires IsNumeric(n) && !n.Floating?
    ensures Value(DecimalOf(n)) == NumberValue(n)
  {
    match n
    case SignedInt(i) =>
      IntegerDecimal(i < 0, AbsInt(i));
    case UnsignedInt(u) =>
      IntegerDecimal(false, u);
    case Lexeme(text) =>
      WholeNumber(text);
      PartsDecimalValue(Split(text, 0));
  }

  lemma DecadesApart(m: int, k: int, x: real, y: real)
    requires m < k && x < Pow10(m) && Pow10(k - 1) <= y
    ensures x < y
  {
    Pow10Ordered(m, k - 1);
  }

  /** With the true magnitude the two-step comparison is exact. */
  lemma CompareDecimalToFloatExact(d: Decimal, f: Float)
    requires IsNormal(d) && TrueMagnitude(f)
    ensures CompareDecimalToFloat(d, f) == CompareReal(Value(d), FloatValue(f))
  {
    hide Pow10, AbsValue, FloatValue;
    NormalSign(d);
    if d.digits != "" && FloatValue(f) != 0.0 {
      AbsValueRange(d);
      var x, y := AbsValue(d.digits, d.exponent), Abs(FloatValue(f));
      if Magnitude(d) < f.magnitude {
        DecadesApart(Magnitude(d), f.magnitude, x, y);
      } else if f.magnitude < Magnitude(d) {
        DecadesApart(f.magnitude, Magnitude(d), y, x);
      }
    }
  }

  /** Comparison returns the sign of the exact difference, for every pair of kinds. */
  lemma CompareNumbersExact(a: Number, b: Number)
    requires IsExact(a) && IsExact(b)
    ensures CompareNumbers(a, b) == Some(CompareReal(NumberValue(a), NumberValue(b)))
  {
    hide DecimalOf, Value, IsNormal, FloatValue, IsNumberText, PartsValue, CompareDecimals, CompareDecimalToFloat;
    if !a.Floating? {
      DecimalOfValue(a);
    }
    if !b.Floating? {
      DecimalOfValue(b);
    }
    if a.Floating? && !b.Floating? {
      CompareDecimalToFloatExact(DecimalOf(b), a.f);
    } else if !a.Floating? && b.Floating? {
      CompareDecimalToFloatExact(DecimalOf(a), b.f);
    } else if !a.Floating? && !b.Floating? {
      CompareDecimalsExact(DecimalOf(a), DecimalOf(b));
    }
  }

  // ---- Where the magnitude shortcut fails

  function NatPow(base: nat, n: nat): nat {
    if n == 0 then 1 else base * NatPow(base, n - 1)
  }

  lemma {:induction false} PowersOfTwo(n: nat)
    ensures NatPow(2, n) as real == Pow2(n)
    ensures NatPow(5, n) as real * Pow10(0 - n) == Pow2(0 - n)
  {
    hide Pow10, Pow2, NatPow;
    if n == 0 {
      ZeroPowers();
    } else {
      PowersOfTwo(n - 1);
      Pow10Step(0 - n);
      Pow2Step(0 - n);
      Pow2Step(n - 1);
      NatPowStep(5, n);
      NatPowStep(2, n);
      HalfStep(NatPow(5, n - 1) as real, NatPow(5, n) as real, Pow10(0 - n), Pow10(1 - n), Pow2(0 - n), Pow2(1 - n));
    }
  }

  lemma ZeroPowers()
    ensures NatPow(2, 0) == NatPow(5, 0) == 1 && Pow2(0) == 1.0 && Pow10(0) == 1.0
  {
  }

  lemma NatPowStep(base: nat, n: nat)
    requires n > 0
    ensures NatPow(base, n) as real == base as real * NatPow(base, n - 1) as real
  {
  }

  lemma Pow2Step(e: int)
    ensures Pow2(e + 1) == 2.0 * Pow2(e)
  {
  }

  lemma HalfStep(f: real, f1: real, t1: real, t: real, h1: real, h: real)
    requires f1 == 5.0 * f && t == 10.0 * t1 && h == 2.0 * h1 && f * t == h
    ensures f1 * t1 == h1
  {
    assert f * (10.0 * t1) == 2.0 * ((5.0 * f) * t1);
  }

  /** A finite float written out in decimal: every power of two is a finite decimal. */
  function FloatDecimal(f: Float): (d: Decimal)
    requires f.Finite?
    ensures IsNormal(d)
  {
    var m, e := AbsInt(f.mantissa), f.exponent;
    if e >= 0 then NormalForm(f.mantissa < 0, NatText(m * NatPow(2, e)), 0)
    else NormalForm(f.mantissa < 0, NatText(m * NatPow(5, -e)), e)
  }

  lemma FloatDecimalValue(f: Float)
    requires f.Finite?
    ensures Value(FloatDecimal(f)) == FloatValue(f)
  {
    hide Value, NormalForm, Scaled, NatText, NatPow, IsNormal;
    SignedScaled(f.mantissa, f.exponent);
    if f.exponent >= 0 {
      WholeFloat(f.mantissa < 0, AbsInt(f.mantissa), f.exponent);
    } else {
      BinaryFraction(f.mantissa < 0, AbsInt(f.mantissa), -f.exponent);
    }
  }

  lemma WholeFloat(negative: bool, m: nat, e: nat)
    ensures Value(NormalForm(negative, NatText(m * NatPow(2, e)), 0)) == Signed(negative, Scaled(m, e))
  {
    hide Pow10, Pow2, NatValue, NatText, NormalForm, NatPow, Value, IsNormal;
    IntegerDecimal(negative, m * NatPow(2, e));
    PowersOfTwo(e);
    CastProduct(m, NatPow(2, e));
  }

  lemma BinaryFraction(negative: bool, m: nat, e: nat)
    ensures Value(NormalForm(negative, NatText(m * NatPow(5, e)), 0 - e)) == Signed(negative, Scaled(m, 0 - e))
  {
    hide Pow10, Pow2, NatValue, NatText, NormalForm, NatPow, Value, IsNormal;
    var digits := NatText(m * NatPow(5, e));
    NormalFormValue(negative, digits, 0 - e);
    PowersOfTwo(e);
    CastProduct(m, NatPow(5, e));
    MulAssociates(m as real, NatPow(5, e) as real, Pow10(0 - e));
  }

  lemma SignedScaled(m: int, e: int)
    ensures Scaled(m, e) == Signed(m < 0, Scaled(AbsInt(m), e))
  {
    hide Pow2;
  }

  lemma CastProduct(m: nat, n: nat)
    ensures (m * n) as real == m as real * n as real
  {
  }

  lemma MulAssociates(x: real, y: real, z: real)
    ensures (x * y) * z == x * (y * z)
  {
  }

  /** The float compares as equal to its own decimal expansion. */
  ghost predicate MeetsItself(f: Float)
    requires f.Finite?
  {
    CompareDecimalToFloat(FloatDecimal(f), f) == 0
  }

  /**
   * A float is compared exactly with every decimal if and only if its shortest rendering reports its true
   * magnitude. When it does not, the float is not even equal to its own decimal expansion.
   */
  lemma ExactIffTrueMagnitude(f: Float)
    requires f.Finite?
    ensures TrueMagnitude(f)
            <==> forall d | IsNormal(d) :: CompareDecimalToFloat(d, f) == CompareReal(Value(d), FloatValue(f))
    ensures !TrueMagnitude(f) ==> !MeetsItself(f)
  {
    if TrueMagnitude(f) {
      forall d | IsNormal(d)
        ensures CompareDecimalToFloat(d, f) == CompareReal(Value(d), FloatValue(f))
      {
        CompareDecimalToFloatExact(d, f);
      }
    } else {
      OwnMagnitude(f);
      FloatDecimalValue(f);
    }
  }

  lemma OwnMagnitude(f: Float)
    requires f.Finite? && !TrueMagnitude(f)
    ensures CompareDecimalToFloat(FloatDecimal(f), f) != 0
  {
    hide Pow10, AbsValue, FloatValue, FloatDecimal;
    var d := FloatDecimal(f);
    FloatDecimalValue(f);
    NormalSign(d);
    if d.digits != "" {
      AbsValueRange(d);
    }
  }

  /** The double nearest to 10^23, whose shortest rendering 1e+23 reports magnitude 24. */
  const NEAR_TEN_TO_THE_23 := Finite(5960464477539062, 24, 24)

  /** It lies below ten to the 23, so its magnitude is 23: it differs from the decimal that denotes the same number. */
  lemma TenToThe23Falls()
    ensures var f := NEAR_TEN_TO_THE_23;
            !TrueMagnitude(f) && Value(FloatDecimal(f)) == FloatValue(f)
              && CompareDecimalToFloat(FloatDecimal(f), f) != 0
  {
    hide Value, FloatDecimal, CompareDecimalToFloat;
    BelowTenToThe23();
    FloatDecimalValue(NEAR_TEN_TO_THE_23);
    OwnMagnitude(NEAR_TEN_TO_THE_23);
  }

  lemma BelowTenToThe23()
    ensures !TrueMagnitude(NEAR_TEN_TO_THE_23)
  {
    assert Pow2(24) == 16777216.0 by {
      assert Pow2(8) == 256.0;
      assert Pow2(16) == 65536.0;
    }
    assert Pow10(23) == 100000000000000000000000.0 by {
      assert Pow10(8) == 100000000.0;
      assert Pow10(16) == 10000000000000000.0;
    }
  }
}
