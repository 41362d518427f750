/** Powers of ten over the reals, and decimal digit strings read as integers and as fractions. */
module Powers {
  import opened Text

  /** Ten to a power of either sign. */
  function Pow10(e: int): (r: real)
    ensures r > 0.0
    decreases if e < 0 then -e else e
  {
    if e == 0 then 1.0 else if e > 0 then 10.0 * Pow10(e - 1) else Pow10(e + 1) / 10.0
  }

  lemma Pow10Step(e: int)
    ensures Pow10(e + 1) == 10.0 * Pow10(e)
  {
  }

  lemma Pow10Zero()
    ensures Pow10(0) == 1.0
  {
  }

  /** If the step from `y` to `y1` and from `z` to `z1` is times ten, then `z == x * y` moves along it. */
  lemma TenTimes(x: real, y: real, y1: real, z: real, z1: real)
    requires y1 == 10.0 * y && z1 == 10.0 * z
    ensures z == x * y <==> z1 == x * y1
  {
    assert 10.0 * (x * y) == x * (10.0 * y);
  }

  lemma {:induction false} Pow10Add(a: int, b: int)
    ensures Pow10(a + b) == Pow10(a) * Pow10(b)
    decreases if b < 0 then -b else b
  {
    hide Pow10;
    if b > 0 {
      Pow10Add(a, b - 1);
      Pow10Step(a + b - 1);
      Pow10Step(b - 1);
      TenTimes(Pow10(a), Pow10(b - 1), Pow10(b), Pow10(a + b - 1), Pow10(a + b));
    } else if b < 0 {
      Pow10Add(a, b + 1);
      Pow10Step(a + b);
      Pow10Step(b);
      TenTimes(Pow10(a), Pow10(b), Pow10(b + 1), Pow10(a + b), Pow10(a + b + 1));
    } else {
      Pow10Zero();
    }
  }

  lemma {:induction false} Pow10Increases(a: int, b: int)
    requires a < b
    ensures Pow10(a) < Pow10(b)
    decreases b - a
  {
    Pow10Step(a);
    if a + 1 < b {
      Pow10Increases(a + 1, b);
    }
  }

  lemma MulLess(a: real, b: real, c: real)
    requires c > 0.0
    ensures a < b <==> a * c < b * c
    ensures a == b <==> a * c == b * c
  {
  }

  /** The value of digits written after a decimal point. */
  function Fraction(s: string): (r: real)
    requires AllDigits(s)
    ensures 0.0 <= r < 1.0
  {
    if s == "" then 0.0 else (DigitValue(s[0]) as real + Fraction(s[1..])) / 10.0
  }

  lemma NatValueSnoc(s: string, c: char)
    requires AllDigits(s) && IsDigit(c)
    ensures NatValue(s + [c]) as real == NatValue(s) as real * 10.0 + DigitValue(c) as real
  {
    assert (s + [c])[..|s|] == s;
  }

  /** The number two digit strings denote one after the other. */
  function Joined(a: string, b: string): real
    requires AllDigits(a) && AllDigits(b)
  {
    NatValue(a) as real * Pow10(|b|) + NatValue(b) as real
  }

  lemma SnocStep(x: real, p: real, p1: real, y: real, d: real)
    requires p1 == 10.0 * p
    ensures x * p1 + (y * 10.0 + d) == (x * p + y) * 10.0 + d
  {
    TenTimes(x, p, p1, x * p, x * p * 10.0);
  }

  lemma JoinedSnoc(a: string, b: string, d: char)
    requires AllDigits(a) && AllDigits(b) && IsDigit(d)
    ensures Joined(a, b + [d]) == Joined(a, b) * 10.0 + DigitValue(d) as real
  {
    hide Pow10, NatValue;
    NatValueSnoc(b, d);
    Pow10Step(|b|);
    SnocStep(NatValue(a) as real, Pow10(|b|), Pow10(|b| + 1), NatValue(b) as real, DigitValue(d) as real);
  }

  lemma JoinedEmpty(a: string)
    requires AllDigits(a)
    ensures Joined(a, "") == NatValue(a) as real
  {
    hide Pow10;
    Pow10Zero();
  }

  lemma {:induction false} NatValueConcat(a: string, b: string)
    requires AllDigits(a) && AllDigits(b)
    ensures NatValue(a + b) as real == Joined(a, b)
  {
    hide NatValue, Joined, Pow10;
    if b == "" {
      assert a + b == a;
      JoinedEmpty(a);
    } else {
      var c, d := b[..|b| - 1], b[|b| - 1];
      NatValueConcat(a, c);
      assert a + b == (a + c) + [d] && b == c + [d];
      NatValueSnoc(a + c, d);
      JoinedSnoc(a, c, d);
    }
  }

  lemma FractionStep(s: string)
    requires AllDigits(s) && s != ""
    ensures Fraction(s) == (DigitValue(s[0]) as real + Fraction(s[1..])) / 10.0
  {
  }

  lemma NatValueEmpty()
    ensures NatValue("") == 0 && Fraction("") == 0.0
  {
  }

  lemma NatValueDigit(c: char)
    requires IsDigit(c)
    ensures NatValue([c]) == DigitValue(c)
  {
    assert [c][..0] == "";
  }

  lemma ConsStep(n: real, f: real, d: real, g: real, p: real, p1: real)
    requires p1 == 10.0 * p && f == (d + g) / 10.0 && n == d * p + g * p
    ensures n == f * p1
  {
    TenTimes(f, p, p1, f * p, f * p * 10.0);
    assert f * p1 == 10.0 * (f * p) == (10.0 * f) * p;
  }

  lemma FractionCons(s: string)
    requires AllDigits(s) && s != "" && NatValue(s[1..]) as real == Fraction(s[1..]) * Pow10(|s| - 1)
    ensures NatValue(s) as real == Fraction(s) * Pow10(|s|)
  {
    hide Pow10, Fraction, NatValue;
    var tail := s[1..];
    assert s == [s[0]] + tail;
    NatValueConcat([s[0]], tail);
    NatValueDigit(s[0]);
    Pow10Step(|tail|);
    FractionStep(s);
    ConsStep(NatValue(s) as real, Fraction(s), DigitValue(s[0]) as real, Fraction(tail), Pow10(|tail|), Pow10(|s|));
  }

  lemma {:induction false} NatValueIsFraction(s: string)
    requires AllDigits(s)
    ensures NatValue(s) as real == Fraction(s) * Pow10(|s|)
  {
    hide Pow10, Fraction, NatValue;
    if s == "" {
      NatValueEmpty();
    } else {
      NatValueIsFraction(s[1..]);
      FractionCons(s);
    }
  }
}
