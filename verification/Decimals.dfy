/** Decimal numbers with unbounded digits and exponents: normal form, parsing and exact order. */
module Decimals {
  import opened Common
  import opened Text
  import opened NumberText
  import opened Powers

  /** `digits` times ten to `exponent`, with a sign. */
  datatype Decimal = Decimal(negative: bool, digits: string, exponent: int)

  /** No zero at either end of the digits, and one form only for zero. */
  predicate IsNormal(d: Decimal) {
    && AllDigits(d.digits)
    && (d.digits == "" ==> !d.negative && d.exponent == 0)
    && (d.digits != "" ==> d.digits[0] != '0' && d.digits[|d.digits| - 1] != '0')
  }

  function AbsValue(digits: string, exponent: int): real
    requires AllDigits(digits)
  {
    NatValue(digits) as real * Pow10(exponent)
  }

  function Signed(negative: bool, x: real): real {
    if negative then -x else x
  }

  /** The number a decimal denotes. */
  function Value(d: Decimal): real
    requires AllDigits(d.digits)
  {
    Signed(d.negative, AbsValue(d.digits, d.exponent))
  }

  function CompareReal(x: real, y: real): int {
    if x < y then -1 else if x > y then 1 else 0
  }

  // ---- Normal form

  function TrimLeft(s: string): (t: string)
    requires AllDigits(s)
    ensures AllDigits(t) && (t != "" ==> t[0] != '0') && |t| <= |s|
  {
    if s != "" && s[0] == '0' then TrimLeft(s[1..]) else s
  }

  function TrimRight(s: string): (t: string)
    requires AllDigits(s)
    ensures t <= s && AllDigits(t) && (t != "" ==> t[|t| - 1] != '0')
  {
    if s != "" && s[|s| - 1] == '0' then TrimRight(s[..|s| - 1]) else s
  }

  function NormalForm(negative: bool, digits: string, exponent: int): (d: Decimal)
    requires AllDigits(digits)
    ensures IsNormal(d)
  {
    var all := TrimLeft(digits);
    var kept := TrimRight(all);
    if all == "" then Decimal(false, "", 0)
    else
      NonzeroKept(all);
      Decimal(negative, kept, exponent + |all| - |kept|)
  }

  lemma {:induction false} NonzeroKept(s: string)
    requires AllDigits(s) && s != "" && s[0] != '0'
    ensures TrimRight(s) != "" && TrimRight(s)[0] == s[0]
  {
    if s[|s| - 1] == '0' {
      NonzeroKept(s[..|s| - 1]);
    }
  }

  lemma {:induction false} TrimLeftValue(s: string)
    requires AllDigits(s)
    ensures NatValue(TrimLeft(s)) == NatValue(s)
  {
    if s != "" && s[0] == '0' {
      TrimLeftValue(s[1..]);
      LeadingZero(s);
    }
  }

  lemma LeadingZero(s: string)
    requires AllDigits(s) && s != "" && s[0] == '0'
    ensures NatValue(s[1..]) == NatValue(s)
  {
    hide NatValue, Pow10;
    assert s == [s[0]] + s[1..];
    NatValueConcat([s[0]], s[1..]);
    NatValueDigit(s[0]);
    assert 0.0 * Pow10(|s| - 1) == 0.0;
  }

  lemma {:induction false} TrimRightValue(s: string, exponent: int)
    requires AllDigits(s)
    ensures AbsValue(TrimRight(s), exponent + |s| - |TrimRight(s)|) == AbsValue(s, exponent)
  {
    hide AbsValue;
    if s != "" && s[|s| - 1] == '0' {
      TrimRightValue(s[..|s| - 1], exponent + 1);
      TrailingZero(s, exponent);
    }
  }

  lemma TenfoldValue(s: string)
    requires AllDigits(s) && s != "" && s[|s| - 1] == '0'
    ensures NatValue(s) == NatValue(s[..|s| - 1]) * 10
  {
  }

  lemma TrailingZero(s: string, exponent: int)
    requires AllDigits(s) && s != "" && s[|s| - 1] == '0'
    ensures AbsValue(s[..|s| - 1], exponent + 1) == AbsValue(s, exponent)
  {
    hide Pow10, NatValue;
    Pow10Step(exponent);
    TenfoldValue(s);
    Regroup(NatValue(s[..|s| - 1]) as real, Pow10(exponent), Pow10(exponent + 1), NatValue(s) as real);
  }

  lemma Regroup(n: real, p: real, p1: real, m: real)
    requires p1 == 10.0 * p && m == n * 10.0
    ensures n * p1 == m * p
  {
    TenTimes(n, p, p1, n * p, n * p * 10.0);
    assert m * p == (n * 10.0) * p == 10.0 * (n * p);
  }

  lemma TrimLeftAbs(s: string, exponent: int)
    requires AllDigits(s)
    ensures AbsValue(TrimLeft(s), exponent) == AbsValue(s, exponent)
  {
    hide Pow10, NatValue, TrimLeft;
    TrimLeftValue(s);
  }

  lemma NothingIsZero(exponent: int)
    ensures AbsValue("", exponent) == 0.0
  {
    hide Pow10;
    assert 0.0 * Pow10(exponent) == 0.0;
  }

  /** Normalizing keeps the number: trimmed zeros on the right go to the exponent. */
  lemma NormalFormValue(negative: bool, digits: string, exponent: int)
    requires AllDigits(digits)
    ensures Value(NormalForm(negative, digits, exponent)) == Signed(negative, AbsValue(digits, exponent))
  {
    hide AbsValue, TrimLeft, TrimRight;
    TrimLeftAbs(digits, exponent);
    TrimRightValue(TrimLeft(digits), exponent);
    NothingIsZero(exponent);
    NothingIsZero(0);
  }

  lemma LeftStep(s: string, i: nat)
    requires AllDigits(s) && i <= |s|
    ensures i < |s| && s[i] == '0' ==> TrimLeft(s[i..]) == TrimLeft(s[i + 1..])
    ensures !(i < |s| && s[i] == '0') ==> TrimLeft(s[i..]) == s[i..]
  {
    if i < |s| {
      assert s[i..][1..] == s[i + 1..];
    }
  }

  lemma RightStep(s: string, end: nat)
    requires AllDigits(s) && end <= |s|
    ensures end > 0 && s[end - 1] == '0' ==> TrimRight(s[..end]) == TrimRight(s[..end - 1])
    ensures !(end > 0 && s[end - 1] == '0') ==> TrimRight(s[..end]) == s[..end]
  {
    if end > 0 {
      assert s[..end][..end - 1] == s[..end - 1];
    }
  }

  /** The loop that drops zeros at both ends. */
  method NormalizeDecimal(negative: bool, digits: string, exponent: int) returns (d: Decimal)
    requires AllDigits(digits)
    ensures d == NormalForm(negative, digits, exponent)
  {
    hide TrimLeft, TrimRight;
    var start := 0;
    assert digits[0..] == digits;
    LeftStep(digits, 0);
    while start < |digits| && digits[start] == '0'
      invariant start <= |digits|
      invariant TrimLeft(digits[start..]) == TrimLeft(digits)
    {
      LeftStep(digits, start);
      start := start + 1;
    }
    LeftStep(digits, start);
    var all := digits[start..];
    if all == "" {
      return Decimal(false, "", 0);
    }
    NonzeroKept(all);
    var end: nat := |all|;
    assert all[..end] == all;
    while end > 0 && all[end - 1] == '0'
      invariant end <= |all|
      invariant TrimRight(all[..end]) == TrimRight(all)
    {
      RightStep(all, end);
      end := end - 1;
    }
    RightStep(all, end);
    d := Decimal(negative, all[..end], exponent + |all| - end);
  }

  // ---- Parsing a number lexeme

  /** The exponent written after the marker. */
  function ExponentValue(p: Parts): int
    requires ValidParts(p)
  {
    if p.exponent.None? then 0
    else if p.exponent.value.sign == "-" then -(NatValue(p.exponent.value.digits) as int)
    else NatValue(p.exponent.value.digits)
  }

  function FractionDigits(p: Parts): string {
    if p.fraction.Some? then p.fraction.value else ""
  }

  /** The number a lexeme denotes: integer part plus decimal fraction, times ten to the exponent. */
  ghost function PartsValue(p: Parts): real
    requires ValidParts(p)
  {
    Signed(p.negative, (NatValue(p.integer) as real + Fraction(FractionDigits(p))) * Pow10(ExponentValue(p)))
  }

  function PartsDecimal(p: Parts): (d: Decimal)
    requires ValidParts(p)
    ensures IsNormal(d)
  {
    NormalForm(p.negative, p.integer + FractionDigits(p), ExponentValue(p) - |FractionDigits(p)|)
  }

  lemma Distribute(n: real, f: real, g: real, x: real, y: real, z: real)
    requires g == f * x && z == x * y
    ensures (n * x + g) * y == (n + f) * z
  {
    assert (n * x + f * x) * y == ((n + f) * x) * y == (n + f) * (x * y);
  }

  /** Digits with a point in them, times a power of ten, are the digits without it times a smaller power. */
  lemma PointRemoved(a: string, f: string, e: int)
    requires AllDigits(a) && AllDigits(f)
    ensures Joined(a, f) * Pow10(e - |f|) == (NatValue(a) as real + Fraction(f)) * Pow10(e)
  {
    hide Pow10, NatValue, Fraction;
    NatValueIsFraction(f);
    Pow10Add(|f|, e - |f|);
    Distribute(NatValue(a) as real, Fraction(f), NatValue(f) as real, Pow10(|f|), Pow10(e - |f|), Pow10(e));
  }

  /** Removing the point and lowering the exponent denotes the same number. */
  lemma PartsDecimalValue(p: Parts)
    requires ValidParts(p)
    ensures Value(PartsDecimal(p)) == PartsValue(p)
  {
    hide Pow10, NatValue, Fraction, Joined, Value, NormalForm, ExponentValue;
    var f := FractionDigits(p);
    var e := ExponentValue(p);
    NormalFormValue(p.negative, p.integer + f, e - |f|);
    NatValueConcat(p.integer, f);
    PointRemoved(p.integer, f, e);
  }

  /** The decimal a valid number lexeme is read as. */
  function LexemeDecimal(s: string): (d: Decimal)
    requires IsNumberText(s)
    ensures IsNormal(d)
  {
    WholeNumber(s);
    PartsDecimal(Split(s, 0))
  }

  /** Index of the first character that is `c` or `d`, or -1. */
  method IndexOf(s: string, c: char, d: char) returns (i: int)
    ensures -1 <= i < |s|
    ensures i == -1 ==> forall k | 0 <= k < |s| :: s[k] != c && s[k] != d
    ensures i >= 0 ==> (s[i] == c || s[i] == d) && forall k | 0 <= k < i :: s[k] != c && s[k] != d
  {
    i := 0;
    while i < |s|
      invariant 0 <= i <= |s|
      invariant forall k | 0 <= k < i :: s[k] != c && s[k] != d
    {
      if s[i] == c || s[i] == d {
        return;
      }
      i := i + 1;
    }
    i := -1;
  }

  /** big.Int.SetString on an exponent: an optional sign and digits. */
  function SignedDigits(s: string): int
    requires s != "" && AllDigits(if s[0] == '-' || s[0] == '+' then s[1..] else s)
  {
    if s[0] == '-' then -(NatValue(s[1..]) as int) else if s[0] == '+' then NatValue(s[1..]) else NatValue(s)
  }

  lemma SignCut(text: string)
    requires IsNumberText(text)
    ensures var p := Split(text, 0);
            && ValidParts(p) && p.negative == (text[0] == '-')
            && (if p.negative then text[1..] else text) == p.integer + FractionText(p) + ExponentText(p)
  {
    hide ValidParts, FractionText, ExponentText, ScanNumber, IntegerStart, IntegerEnd, FractionEnd, SplitExponent;
    var p := Split(text, 0);
    WholeNumber(text);
    Sign(text, p.negative, p.integer, FractionText(p), ExponentText(p));
  }

  lemma Sign(text: string, negative: bool, a: string, b: string, c: string)
    requires text == (if negative then "-" else "") + a + b + c
    ensures (if negative then text[1..] else text) == a + b + c
  {
  }

  lemma PointCut(p: Parts)
    requires ValidParts(p)
    ensures AllDigits(p.integer + FractionDigits(p))
    ensures FractionText(p) == "" ==> FractionDigits(p) == ""
    ensures FractionText(p) != "" ==> FractionText(p)[0] == '.' && FractionText(p)[1..] == FractionDigits(p)
  {
  }

  lemma MarkerCut(p: Parts)
    requires ValidParts(p)
    ensures ExponentText(p) == "" ==> ExponentValue(p) == 0
    ensures ExponentText(p) != "" ==>
              && (ExponentText(p)[0] == 'e' || ExponentText(p)[0] == 'E')
              && var t := ExponentText(p)[1..];
              && t != "" && AllDigits(if t[0] == '-' || t[0] == '+' then t[1..] else t)
              && SignedDigits(t) == ExponentValue(p)
  {
    if p.exponent.Some? {
      var x := p.exponent.value;
      var t := x.sign + x.digits;
      assert ExponentText(p)[1..] == t;
      assert t[|x.sign|..] == x.digits;
    }
  }

  /** Cut the sign, the exponent and the point out of a number lexeme. */
  method CutLexeme(text: string) returns (negative: bool, digits: string, exponent: int)
    requires IsNumberText(text)
    ensures var p := Split(text, 0);
            && ValidParts(p) && negative == p.negative
            && digits == p.integer + FractionDigits(p)
            && exponent == ExponentValue(p) - |FractionDigits(p)|
  {
    hide ValidParts, FractionText, ExponentText, FractionDigits, ExponentValue, SignedDigits, NatValue;
    hide ScanNumber, Split;
    ghost var p := Split(text, 0);
    SignCut(text);
    NoMarks(p);
    PointCut(p);
    MarkerCut(p);
    digits := text;
    negative := digits[0] == '-';
    if negative {
      digits := digits[1..];
    }
    exponent := 0;
    var i := IndexOf(digits, 'e', 'E');
    FirstMark(digits, p.integer + FractionText(p), ExponentText(p), 'e', 'E', i);
    if i >= 0 {
      exponent := SignedDigits(digits[i + 1..]);
      digits := digits[..i];
    }
    assert digits == p.integer + FractionText(p) && exponent == ExponentValue(p);
    i := IndexOf(digits, '.', '.');
    FirstMark(digits, p.integer, FractionText(p), '.', '.', i);
    if i >= 0 {
      assert digits[i + 1..] == FractionDigits(p);
      exponent := exponent - (|digits| - i - 1);
      digits := digits[..i] + digits[i + 1..];
    }
  }

  method ParseDecimalNumber(text: string) returns (d: Option<Decimal>)
    ensures d == if IsNumberText(text) then Some(LexemeDecimal(text)) else None
  {
    hide ScanNumber, Split, NormalForm, FractionDigits, ExponentValue, FractionText, ValidParts;
    if !IsNumberText(text) {
      return None;
    }
    var negative, digits, exponent := CutLexeme(text);
    PointCut(Split(text, 0));
    assert LexemeDecimal(text) == NormalForm(negative, digits, exponent);
    var n := NormalizeDecimal(negative, digits, exponent);
    d := Some(n);
  }

  /** The first of two marks in `head + rest` is where `rest` begins, if it starts with one and `head` holds neither. */
  lemma FirstMark(s: string, head: string, rest: string, c: char, d: char, i: int)
    requires s == head + rest && c !in head && d !in head
    requires rest != "" ==> rest[0] == c || rest[0] == d
    requires -1 <= i < |s|
    requires i == -1 ==> forall k | 0 <= k < |s| :: s[k] != c && s[k] != d
    requires i >= 0 ==> (s[i] == c || s[i] == d) && forall k | 0 <= k < i :: s[k] != c && s[k] != d
    ensures i == (if rest == "" then -1 else |head|)
    ensures i >= 0 ==> s[..i] == head && s[i + 1..] == rest[1..]
  {
    forall k | 0 <= k < |head|
      ensures s[k] != c && s[k] != d
    {
      assert s[k] == head[k];
    }
    if rest != "" {
      assert s[|head|] == rest[0];
    }
  }

  lemma NoMarks(p: Parts)
    requires ValidParts(p)
    ensures '.' !in p.integer
    ensures 'e' !in p.integer + FractionText(p) && 'E' !in p.integer + FractionText(p)
  {
    var f := FractionText(p);
    forall c | c in p.integer + f
      ensures c == '.' || IsDigit(c)
    {
      if c in f {
        var k :| 0 <= k < |f| && f[k] == c;
        assert k > 0 ==> f[k] == p.fraction.value[k - 1];
      }
    }
  }

  // ---- Order

  function Magnitude(d: Decimal): int {
    d.exponent + |d.digits|
  }

  function Head(s: string): char {
    if s == "" then '0' else s[0]
  }

  function Tail(s: string): (t: string)
    ensures AllDigits(s) ==> AllDigits(t)
  {
    if s == "" then "" else s[1..]
  }

  /** Digit strings compared from the left as if padded with zeros on the right. */
  function CompareDigits(a: string, b: string): int
    decreases |a| + |b|
  {
    if a == "" && b == "" then 0
    else if Head(a) != Head(b) then CompareInt(Head(a) as int, Head(b) as int)
    else CompareDigits(Tail(a), Tail(b))
  }

  function CompareMagnitudes(a: Decimal, b: Decimal): int {
    if Magnitude(a) != Magnitude(b) then CompareInt(Magnitude(a), Magnitude(b)) else CompareDigits(a.digits, b.digits)
  }

  function CompareDecimals(a: Decimal, b: Decimal): int {
    if a.digits == "" || b.digits == "" then
      if a.digits == "" && b.digits == "" then 0
      else if a.digits == "" then (if b.negative then 1 else -1)
      else if a.negative then -1 else 1
    else if a.negative != b.negative then (if a.negative then -1 else 1)
    else if a.negative then -CompareMagnitudes(a, b) else CompareMagnitudes(a, b)
  }

  /** The loop over both digit strings. */
  method CompareDecimalMagnitudes(a: Decimal, b: Decimal) returns (order: int)
    ensures order == CompareMagnitudes(a, b)
  {
    if a.exponent + |a.digits| != b.exponent + |b.digits| {
      return CompareInt(a.exponent + |a.digits|, b.exponent + |b.digits|);
    }
    var n := if |a.digits| < |b.digits| then |b.digits| else |a.digits|;
    var i := 0;
    while i < n
      invariant 0 <= i <= n
      invariant CompareDigits(From(a.digits, i), From(b.digits, i)) == CompareDigits(a.digits, b.digits)
    {
      var aDigit := if i < |a.digits| then a.digits[i] else '0';
      var bDigit := if i < |b.digits| then b.digits[i] else '0';
      if aDigit != bDigit {
        return CompareInt(aDigit as int, bDigit as int);
      }
      assert Tail(From(a.digits, i)) == From(a.digits, i + 1);
      assert Tail(From(b.digits, i)) == From(b.digits, i + 1);
      i := i + 1;
    }
    order := 0;
  }

  function From(s: string, i: nat): string {
    if i <= |s| then s[i..] else ""
  }

  lemma {:induction false} CompareDigitsExact(a: string, b: string)
    requires AllDigits(a) && AllDigits(b)
    ensures CompareDigits(a, b) == CompareReal(Fraction(a), Fraction(b))
    decreases |a| + |b|
  {
    hide Fraction;
    if a != "" || b != "" {
      CompareDigitsExact(Tail(a), Tail(b));
      FractionHead(a);
      FractionHead(b);
    }
  }

  lemma FractionHead(s: string)
    requires AllDigits(s)
    ensures IsDigit(Head(s)) && Fraction(s) == (DigitValue(Head(s)) as real + Fraction(Tail(s))) / 10.0
  {
  }

  lemma {:induction false} EqualDigits(a: string, b: string)
    requires AllDigits(a) && AllDigits(b) && CompareDigits(a, b) == 0
    requires a != "" ==> a[|a| - 1] != '0'
    requires b != "" ==> b[|b| - 1] != '0'
    ensures a == b
    decreases |a| + |b|
  {
    if a != "" || b != "" {
      EqualDigits(Tail(a), Tail(b));
      assert a != "" ==> a == [a[0]] + Tail(a);
      assert b != "" ==> b == [b[0]] + Tail(b);
    }
  }

  lemma AbsValueIsFraction(d: Decimal)
    requires AllDigits(d.digits)
    ensures AbsValue(d.digits, d.exponent) == Fraction(d.digits) * Pow10(Magnitude(d))
  {
    hide Pow10, NatValue, Fraction;
    var n := |d.digits|;
    NatValueIsFraction(d.digits);
    Pow10Add(n, d.exponent);
    Reassociate(Fraction(d.digits), Pow10(n), Pow10(d.exponent), Pow10(Magnitude(d)), NatValue(d.digits) as real);
  }

  lemma LeadingDigit(d: Decimal)
    requires IsNormal(d) && d.digits != ""
    ensures Fraction(d.digits) >= 0.1
  {
    FractionHead(d.digits);
  }

  /** A nonzero normal decimal lies in the decade its magnitude names. */
  lemma AbsValueRange(d: Decimal)
    requires IsNormal(d) && d.digits != ""
    ensures Pow10(Magnitude(d) - 1) <= AbsValue(d.digits, d.exponent) < Pow10(Magnitude(d))
  {
    hide Pow10, AbsValue, Fraction, NatValue;
    LeadingDigit(d);
    AbsValueIsFraction(d);
    Pow10Step(Magnitude(d) - 1);
    ScaledRange(Fraction(d.digits), Pow10(Magnitude(d)), Pow10(Magnitude(d) - 1), AbsValue(d.digits, d.exponent));
  }

  lemma Reassociate(f: real, x: real, y: real, z: real, n: real)
    requires z == x * y && n == f * x
    ensures n * y == f * z
  {
    assert (f * x) * y == f * (x * y);
  }

  lemma ScaledRange(f: real, p: real, q: real, v: real)
    requires 0.1 <= f < 1.0 && p > 0.0 && p == 10.0 * q && v == f * p
    ensures q <= v < p
  {
    MulLess(f, 1.0, p);
    var g := f - 0.1;
    assert g * p >= 0.0;
    assert g * p == f * p - 0.1 * p;
  }

  lemma CompareMagnitudesExact(a: Decimal, b: Decimal)
    requires IsNormal(a) && IsNormal(b) && a.digits != "" && b.digits != ""
    ensures CompareMagnitudes(a, b) == CompareReal(AbsValue(a.digits, a.exponent), AbsValue(b.digits, b.exponent))
  {
    hide Pow10, Fraction, AbsValue, CompareDigits;
    AbsValueRange(a);
    AbsValueRange(b);
    var x, y := Magnitude(a), Magnitude(b);
    if x == y {
      AbsValueIsFraction(a);
      AbsValueIsFraction(b);
      CompareDigitsExact(a.digits, b.digits);
      SameScale(Fraction(a.digits), Fraction(b.digits), Pow10(x));
    } else if x < y {
      Pow10Ordered(x, y - 1);
    } else {
      Pow10Ordered(y, x - 1);
    }
  }

  lemma SameScale(x: real, y: real, p: real)
    requires p > 0.0
    ensures CompareReal(x * p, y * p) == CompareReal(x, y)
  {
    MulLess(x, y, p);
    MulLess(y, x, p);
  }

  lemma Pow10Ordered(a: int, b: int)
    requires a <= b
    ensures Pow10(a) <= Pow10(b)
  {
    if a < b {
      Pow10Increases(a, b);
    }
  }

  lemma NormalSign(d: Decimal)
    requires IsNormal(d)
    ensures d.digits == "" ==> Value(d) == 0.0
    ensures d.digits != "" ==> AbsValue(d.digits, d.exponent) > 0.0
  {
    hide Pow10;
    if d.digits == "" {
      NatValueEmpty();
      assert 0.0 * Pow10(0) == 0.0;
    } else {
      AbsValueRange(d);
      hide AbsValue;
    }
  }

  /** The order of two normal decimals is the order of the numbers they denote, for any digits and exponents. */
  lemma CompareDecimalsExact(a: Decimal, b: Decimal)
    requires IsNormal(a) && IsNormal(b)
    ensures CompareDecimals(a, b) == CompareReal(Value(a), Value(b))
  {
    NormalSign(a);
    NormalSign(b);
    hide AbsValue;
    if a.digits != "" && b.digits != "" {
      CompareMagnitudesExact(a, b);
    }
  }

  /** The normal form is canonical: two normal decimals denote the same number only if they are identical. */
  lemma NormalFormUnique(a: Decimal, b: Decimal)
    requires IsNormal(a) && IsNormal(b)
    ensures Value(a) == Value(b) <==> a == b
  {
    if Value(a) == Value(b) {
      CompareDecimalsExact(a, b);
      if a.digits != "" && b.digits != "" {
        EqualDigits(a.digits, b.digits);
      }
    }
  }

  /** Two number lexemes denote the same number exactly when they are read as the same decimal. */
  lemma LexemesEqual(s: string, t: string)
    requires IsNumberText(s) && IsNumberText(t)
    ensures ValidParts(Split(s, 0)) && ValidParts(Split(t, 0))
    ensures LexemeDecimal(s) == LexemeDecimal(t) <==> PartsValue(Split(s, 0)) == PartsValue(Split(t, 0))
  {
    WholeNumber(s);
    WholeNumber(t);
    PartsDecimalValue(Split(s, 0));
    PartsDecimalValue(Split(t, 0));
    NormalFormUnique(LexemeDecimal(s), LexemeDecimal(t));
  }
}
