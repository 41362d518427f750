/** JSON number lexemes: the scan the lexer makes over them and the grammar it stands for. */
module NumberText {
  import opened Common
  import opened Text

  /** Where a number lexeme ends and whether it has a fraction or an exponent. */
  datatype Scan = Bad | Good(end: nat, float: bool)

  function ScanNumber(s: string, i: nat): (r: Scan)
    requires i < |s|
    ensures r.Good? ==> i < r.end <= |s|
  {
    var j := if s[i] == '-' then i + 1 else i;
    if j >= |s| || !IsDigit(s[j]) then Bad
    else if s[j] == '0' then
      if j + 1 < |s| && IsDigit(s[j + 1]) then Bad else ScanFraction(s, j + 1)
    else ScanFraction(s, DigitsEnd(s, j + 1))
  }

  function ScanFraction(s: string, i: nat): (r: Scan)
    requires i <= |s|
    ensures r.Good? ==> i <= r.end <= |s|
  {
    if i < |s| && s[i] == '.' then
      if i + 1 < |s| && IsDigit(s[i + 1]) then ScanExponent(s, DigitsEnd(s, i + 1), true) else Bad
    else ScanExponent(s, i, false)
  }

  function ScanExponent(s: string, i: nat, float: bool): (r: Scan)
    requires i <= |s|
    ensures r.Good? ==> i <= r.end <= |s|
  {
    if i < |s| && (s[i] == 'e' || s[i] == 'E') then
      var m := if i + 1 < |s| && (s[i + 1] == '+' || s[i + 1] == '-') then i + 2 else i + 1;
      if m < |s| && IsDigit(s[m]) then Good(DigitsEnd(s, m), true) else Bad
    else Good(i, float)
  }

  /** A whole string that is one JSON number. */
  predicate IsNumberText(s: string) {
    s != "" && ScanNumber(s, 0).Good? && ScanNumber(s, 0).end == |s|
  }

  /** The scan cannot run past `end`: no character there continues a number. */
  predicate NumberStops(s: string, end: nat) {
    end < |s| ==> !IsDigit(s[end]) && s[end] != '.' && s[end] != 'e' && s[end] != 'E'
  }

  /** The parts of a number in the grammar of section 6 of RFC 8259. */
  datatype Parts = Parts(negative: bool, integer: string, fraction: Option<string>, exponent: Option<Exponent>)
  datatype Exponent = Exponent(marker: char, sign: string, digits: string)

  predicate ValidParts(p: Parts) {
    && p.integer != "" && AllDigits(p.integer) && (p.integer[0] == '0' ==> |p.integer| == 1)
    && (p.fraction.Some? ==> p.fraction.value != "" && AllDigits(p.fraction.value))
    && (p.exponent.Some? ==> ValidExponent(p.exponent.value))
  }

  predicate ValidExponent(x: Exponent) {
    && (x.marker == 'e' || x.marker == 'E')
    && (x.sign == "" || x.sign == "+" || x.sign == "-")
    && x.digits != "" && AllDigits(x.digits)
  }

  function ExponentString(x: Exponent): string {
    [x.marker] + x.sign + x.digits
  }

  function SignText(p: Parts): string {
    if p.negative then "-" else ""
  }

  function FractionText(p: Parts): string {
    if p.fraction.Some? then "." + p.fraction.value else ""
  }

  function ExponentText(p: Parts): string {
    if p.exponent.Some? then ExponentString(p.exponent.value) else ""
  }

  function PartsText(p: Parts): string {
    SignText(p) + p.integer + FractionText(p) + ExponentText(p)
  }

  predicate IsFloatText(p: Parts) {
    p.fraction.Some? || p.exponent.Some?
  }

  /** The four parts of `p` lie one after the other in `s`, cut at `i`, `j`, `k`, `m` and `end`. */
  predicate Laid(s: string, p: Parts, i: nat, j: nat, k: nat, m: nat, end: nat) {
    && i <= j <= k <= m <= end <= |s|
    && s[i..j] == SignText(p) && s[j..k] == p.integer
    && s[k..m] == FractionText(p) && s[m..end] == ExponentText(p)
  }

  lemma LaidOut(s: string, p: Parts, i: nat)
    requires At(s, i, PartsText(p))
    ensures var j := i + |SignText(p)|; var k := j + |p.integer|; var m := k + |FractionText(p)|;
            Laid(s, p, i, j, k, m, m + |ExponentText(p)|)
  {
    AtConcat(s, i, SignText(p) + p.integer + FractionText(p), ExponentText(p));
    AtConcat(s, i, SignText(p) + p.integer, FractionText(p));
    AtConcat(s, i, SignText(p), p.integer);
  }

  lemma LaidText(s: string, p: Parts, i: nat, j: nat, k: nat, m: nat, end: nat)
    requires Laid(s, p, i, j, k, m, end)
    ensures s[i..end] == PartsText(p)
  {
    hide SignText, FractionText, ExponentText;
    assert s[i..k] == s[i..j] + s[j..k];
    assert s[i..m] == s[i..k] + s[k..m];
    assert s[i..end] == s[i..m] + s[m..end];
  }

  /** Completeness: a grammatical number that nothing continues is what the scan reads. */
  lemma ScanComplete(s: string, i: nat, p: Parts)
    requires ValidParts(p) && At(s, i, PartsText(p)) && NumberStops(s, i + |PartsText(p)|)
    ensures i < |s| && ScanNumber(s, i) == Good(i + |PartsText(p)|, IsFloatText(p))
  {
    LaidOut(s, p, i);
    var j := i + |SignText(p)|;
    var k := j + |p.integer|;
    var m := k + |FractionText(p)|;
    var end := m + |ExponentText(p)|;
    FractionComplete(s, p, i, j, k, m, end);
    IntegerComplete(s, p, i, j, k, m, end);
  }

  /** The sign and the integer part take the scan from `i` to `k`. */
  lemma ScanInteger(s: string, i: nat, j: nat, k: nat)
    requires i <= j < k <= |s| && j == (if s[i] == '-' then i + 1 else i)
    requires DigitsIn(s, j, k) && (s[j] == '0' ==> k == j + 1) && (k < |s| ==> !IsDigit(s[k]))
    ensures ScanNumber(s, i) == ScanFraction(s, k)
  {
    DigitsEndUnique(s, j + 1, k);
  }

  lemma IntegerComplete(s: string, p: Parts, i: nat, j: nat, k: nat, m: nat, end: nat)
    requires ValidParts(p) && Laid(s, p, i, j, k, m, end) && NumberStops(s, end)
    ensures i < |s| && ScanNumber(s, i) == ScanFraction(s, k)
  {
    assert DigitsIn(s, j, k) by {
      forall x | j <= x < k ensures IsDigit(s[x]) {
        assert s[x] == p.integer[x - j];
      }
    }
    assert s[j] == p.integer[0];
    assert k < |s| ==> !IsDigit(s[k]) by {
      if k < m {
        assert s[k] == FractionText(p)[0];
      } else if k < end {
        assert s[k] == ExponentText(p)[0];
      }
    }
    assert j == (if s[i] == '-' then i + 1 else i) by {
      if i < j {
        assert s[i] == SignText(p)[0];
      }
    }
    ScanInteger(s, i, j, k);
  }

  lemma FractionDigits(s: string, p: Parts, k: nat, m: nat)
    requires ValidParts(p) && p.fraction.Some? && k <= m <= |s| && s[k..m] == FractionText(p)
    ensures k + 1 < m && s[k] == '.' && DigitsIn(s, k + 1, m)
  {
    var text := FractionText(p);
    assert s[k] == text[0];
    forall x | k + 1 <= x < m ensures IsDigit(s[x]) {
      assert s[x] == text[x - k] == p.fraction.value[x - k - 1];
    }
  }

  lemma FractionComplete(s: string, p: Parts, i: nat, j: nat, k: nat, m: nat, end: nat)
    requires ValidParts(p) && Laid(s, p, i, j, k, m, end) && NumberStops(s, end)
    ensures ScanFraction(s, k) == Good(end, IsFloatText(p))
  {
    hide ScanExponent, ExponentString, ValidExponent;
    ExponentComplete(s, p, m, end);
    if p.fraction.Some? {
      FractionDigits(s, p, k, m);
      AfterDigits(s, p, m, end);
      DigitsEndUnique(s, k + 1, m);
    } else {
      assert k == m;
      AfterDigits(s, p, m, end);
    }
  }

  /** What follows the fraction is an exponent or nothing that continues a number. */
  lemma AfterDigits(s: string, p: Parts, m: nat, end: nat)
    requires ValidParts(p) && m <= end <= |s| && s[m..end] == ExponentText(p) && NumberStops(s, end)
    ensures m < |s| ==> !IsDigit(s[m]) && s[m] != '.'
  {
    if m < end {
      assert s[m] == ExponentText(p)[0] == p.exponent.value.marker;
    }
  }

  lemma ExponentDigits(s: string, x: Exponent, m: nat, end: nat)
    requires ValidExponent(x) && m <= end <= |s| && s[m..end] == ExponentString(x)
    ensures var d := m + 1 + |x.sign|;
            && d < end && s[m] == x.marker && (x.sign != "" ==> s[m + 1] == x.sign[0]) && DigitsIn(s, d, end)
  {
    var text := ExponentString(x);
    var d := m + 1 + |x.sign|;
    assert s[m] == text[0];
    assert x.sign != "" ==> s[m + 1] == text[1] == x.sign[0];
    forall y | d <= y < end ensures IsDigit(s[y]) {
      assert s[y] == text[y - m] == x.digits[y - d];
    }
  }

  lemma ExponentComplete(s: string, p: Parts, m: nat, end: nat)
    requires ValidParts(p) && m <= end <= |s| && s[m..end] == ExponentText(p) && NumberStops(s, end)
    ensures ScanExponent(s, m, p.fraction.Some?) == Good(end, IsFloatText(p))
  {
    hide ExponentString;
    if p.exponent.Some? {
      var x := p.exponent.value;
      var d := m + 1 + |x.sign|;
      ExponentDigits(s, x, m, end);
      assert IsDigit(s[d]);
      DigitsEndUnique(s, d, end);
    } else {
      assert m == end;
    }
  }

  function IntegerStart(s: string, i: nat): nat
    requires i < |s|
  {
    if s[i] == '-' then i + 1 else i
  }

  function IntegerEnd(s: string, j: nat): nat
    requires j < |s|
  {
    if s[j] == '0' then j + 1 else DigitsEnd(s, j + 1)
  }

  function FractionEnd(s: string, k: nat): nat
    requires k <= |s|
  {
    if k < |s| && s[k] == '.' then DigitsEnd(s, k + 1) else k
  }

  /** The parts of the number the scan reads at `i`. */
  function Split(s: string, i: nat): (p: Parts)
    requires i < |s| && ScanNumber(s, i).Good?
  {
    var j := IntegerStart(s, i);
    var k := IntegerEnd(s, j);
    var m := FractionEnd(s, k);
    Parts(s[i] == '-', s[j..k], if k < m then Some(s[k + 1..m]) else None, SplitExponent(s, m))
  }

  function SplitExponent(s: string, m: nat): Option<Exponent>
    requires m <= |s|
  {
    if m < |s| && (s[m] == 'e' || s[m] == 'E') then
      var d := if m + 1 < |s| && (s[m + 1] == '+' || s[m + 1] == '-') then m + 2 else m + 1;
      Some(Exponent(s[m], s[m + 1..d], s[d..DigitsEnd(s, d)]))
    else None
  }

  /** Soundness: the text the scan reads is a number of the grammar. */
  lemma ScanSound(s: string, i: nat)
    requires i < |s| && ScanNumber(s, i).Good?
    ensures var p := Split(s, i); var r := ScanNumber(s, i);
            ValidParts(p) && s[i..r.end] == PartsText(p) && r.float == IsFloatText(p)
  {
    hide ScanNumber, ScanFraction, ScanExponent, IntegerEnd, FractionEnd, SplitExponent, ValidExponent;
    hide ExponentString, PartsText;
    var j := IntegerStart(s, i);
    IntegerSound(s, i);
    var k := IntegerEnd(s, j);
    FractionSound(s, k);
    LaidText(s, Split(s, i), i, j, k, FractionEnd(s, k), ScanNumber(s, i).end);
  }

  lemma IntegerSound(s: string, i: nat)
    requires i < |s| && ScanNumber(s, i).Good?
    ensures var j := IntegerStart(s, i);
            && j < |s| && s[i..j] == (if s[i] == '-' then "-" else "")
            && var k := IntegerEnd(s, j);
            && j < k <= |s| && AllDigits(s[j..k]) && (s[j..k][0] == '0' ==> |s[j..k]| == 1)
            && ScanNumber(s, i) == ScanFraction(s, k)
  {
    var j := IntegerStart(s, i);
    var k := IntegerEnd(s, j);
    assert IsDigit(s[j]) && DigitsIn(s, j, k);
    var text := s[j..k];
    assert text[0] == s[j];
  }

  lemma FractionSound(s: string, k: nat)
    requires k <= |s| && ScanFraction(s, k).Good?
    ensures var m := FractionEnd(s, k); var x := SplitExponent(s, m); var r := ScanFraction(s, k);
            && k <= m <= r.end <= |s|
            && (k < m ==> k + 1 < m && AllDigits(s[k + 1..m]) && s[k..m] == "." + s[k + 1..m])
            && (x.Some? ==> ValidExponent(x.value) && s[m..r.end] == ExponentString(x.value))
            && (x.None? ==> r.end == m)
            && r.float == (k < m || x.Some?)
  {
    var m := FractionEnd(s, k);
    ExponentSound(s, m, k < m);
  }

  lemma ExponentSound(s: string, m: nat, float: bool)
    requires m <= |s| && ScanExponent(s, m, float).Good?
    ensures var x := SplitExponent(s, m); var end := ScanExponent(s, m, float).end;
            && (x.Some? ==> ValidExponent(x.value) && s[m..end] == ExponentString(x.value))
            && (x.None? ==> end == m)
            && ScanExponent(s, m, float).float == (float || x.Some?)
  {
    if SplitExponent(s, m).Some? {
      var d := if m + 1 < |s| && (s[m + 1] == '+' || s[m + 1] == '-') then m + 2 else m + 1;
      var end := DigitsEnd(s, d);
      assert s[d..end][0] == s[d];
      assert s[m..end] == [s[m]] + s[m + 1..d] + s[d..end];
    }
  }

  /** The scan decides the grammar. */
  lemma NumberTextIsGrammar(s: string)
    ensures IsNumberText(s) <==> exists p :: ValidParts(p) && s == PartsText(p)
  {
    if IsNumberText(s) {
      ScanSound(s, 0);
      assert s == s[0..|s|] == PartsText(Split(s, 0));
    }
    forall p | ValidParts(p) && s == PartsText(p)
      ensures IsNumberText(s)
    {
      ScanComplete(s, 0, p);
    }
  }

  /** A number read out of a longer text is a number on its own, read the same way. */
  lemma ScanIsolates(s: string, i: nat)
    requires i < |s| && ScanNumber(s, i).Good?
    ensures var r := ScanNumber(s, i); var t := s[i..r.end];
            IsNumberText(t) && ScanNumber(t, 0).float == r.float && (!r.float ==> IsIntText(t))
  {
    var r := ScanNumber(s, i);
    var p := Split(s, i);
    ScanSound(s, i);
    ScanComplete(s[i..r.end], 0, p);
    if !r.float {
      assert PartsText(p) == SignText(p) + p.integer;
      assert p.negative ==> PartsText(p)[1..] == p.integer;
      assert !p.negative ==> PartsText(p) == p.integer;
    }
  }

  lemma WholeNumber(t: string)
    requires IsNumberText(t)
    ensures var p := Split(t, 0); ValidParts(p) && PartsText(p) == t && IsFloatText(p) == ScanNumber(t, 0).float
  {
    ScanSound(t, 0);
    assert t[0..|t|] == t;
  }

  /** A number keeps its reading in any text that does not continue it. */
  lemma ScanEmbeds(s: string, i: nat, t: string)
    requires IsNumberText(t) && At(s, i, t) && NumberStops(s, i + |t|)
    ensures i < |s| && ScanNumber(s, i) == Good(i + |t|, ScanNumber(t, 0).float)
  {
    WholeNumber(t);
    ScanComplete(s, i, Split(t, 0));
  }

  /** Splitting inverts spelling: a text spells one number of the grammar only. */
  lemma SplitInverts(p: Parts)
    requires ValidParts(p)
    ensures IsNumberText(PartsText(p)) && Split(PartsText(p), 0) == p
  {
    hide ScanNumber, Split, ValidParts, Laid;
    var s := PartsText(p);
    assert s[0..|s|] == s;
    ScanComplete(s, 0, p);
    LaidOut(s, p, 0);
    var k := |SignText(p)| + |p.integer|;
    SplitLaid(s, p, |SignText(p)|, k, k + |FractionText(p)|);
  }

  lemma SplitLaid(s: string, p: Parts, j: nat, k: nat, m: nat)
    requires ValidParts(p) && Laid(s, p, 0, j, k, m, |s|) && s != "" && ScanNumber(s, 0).Good?
    ensures Split(s, 0) == p
  {
    hide ScanNumber, ExponentText, ValidParts, IntegerStart, IntegerEnd, FractionEnd, SplitExponent;
    assert s[m..|s|] == s[m..];
    SplitInteger(s, p, j, k, m);
    SplitFraction(s, p, k, m);
    SplitsExponent(s, p, m);
    assert p.fraction.Some? ==> s[k + 1..m] == s[k..m][1..] == p.fraction.value;
  }

  lemma SplitInteger(s: string, p: Parts, j: nat, k: nat, m: nat)
    requires ValidParts(p) && Laid(s, p, 0, j, k, m, |s|)
    ensures s != "" && (s[0] == '-' <==> p.negative) && IntegerStart(s, 0) == j && IntegerEnd(s, j) == k
  {
    assert s[j] == p.integer[0];
    assert j > 0 ==> s[0] == SignText(p)[0];
    assert DigitsIn(s, j, k) by {
      forall x | j <= x < k ensures IsDigit(s[x]) {
        assert s[x] == p.integer[x - j];
      }
    }
    assert k < |s| ==> !IsDigit(s[k]) by {
      if k < m {
        assert s[k] == FractionText(p)[0];
      } else if k < |s| {
        assert s[k] == ExponentText(p)[0];
      }
    }
    DigitsEndUnique(s, j + 1, k);
  }

  lemma SplitFraction(s: string, p: Parts, k: nat, m: nat)
    requires ValidParts(p) && k <= m <= |s| && s[k..m] == FractionText(p) && s[m..] == ExponentText(p)
    ensures FractionEnd(s, k) == m && (k < m <==> p.fraction.Some?)
  {
    AfterDigits(s, p, m, |s|);
    if p.fraction.Some? {
      FractionDigits(s, p, k, m);
      DigitsEndUnique(s, k + 1, m);
    }
  }

  lemma SplitsExponent(s: string, p: Parts, m: nat)
    requires ValidParts(p) && m <= |s| && s[m..] == ExponentText(p)
    ensures SplitExponent(s, m) == p.exponent
  {
    hide ExponentString;
    if p.exponent.Some? {
      var x := p.exponent.value;
      var d := m + 1 + |x.sign|;
      assert s[m..|s|] == ExponentString(x);
      ExponentDigits(s, x, m, |s|);
      assert IsDigit(s[d]);
      DigitsEndUnique(s, d, |s|);
      ExponentCut(s, x, m);
      assert s[d..|s|] == s[d..];
      assert SplitExponent(s, m) == Some(Exponent(s[m], s[m + 1..d], s[d..|s|]));
    } else {
      assert |s[m..]| == 0;
    }
  }

  lemma ExponentCut(s: string, x: Exponent, m: nat)
    requires m <= |s| && s[m..] == ExponentString(x)
    ensures var d := m + 1 + |x.sign|; d <= |s| && s[m] == x.marker && s[m + 1..d] == x.sign && s[d..] == x.digits
  {
    var text := ExponentString(x);
    var d := m + 1 + |x.sign|;
    assert s[m + 1..d] == s[m..][1..1 + |x.sign|];
    assert s[d..] == s[m..][1 + |x.sign|..];
  }

  /** The decimal form of an integer is a number without fraction or exponent. */
  lemma IntTextIsNumber(n: int)
    ensures IsNumberText(IntText(n)) && !ScanNumber(IntText(n), 0).float
  {
    var digits := NatText(if n < 0 then -n else n);
    var p := Parts(n < 0, digits, None, None);
    assert PartsText(p) == IntText(n);
    assert ValidParts(p);
    ScanComplete(IntText(n), 0, p);
  }
}
