/** String literals: the grammar of section 2.3.1.1 of RFC 9535, and the decoder that decides it. */
module StringGrammar {
  import opened Common
  import opened Text
  import opened Tokens

  /** One character of a literal: as itself, by a short escape, by its code, or by a surrogate pair. */
  datatype Unit = Bare(c: char) | Short(letter: char) | Code(digits: string) | Pair(high: string, low: string)

  predicate IsQuote(c: char) {
    c == '"' || c == '\''
  }

  // ---- The grammar

  predicate IsHexDigit(c: char) {
    IsDigit(c) || 'A' <= c <= 'F' || 'a' <= c <= 'f'
  }

  predicate FourHexDigits(h: string) {
    |h| == 4 && IsHexDigit(h[0]) && IsHexDigit(h[1]) && IsHexDigit(h[2]) && IsHexDigit(h[3])
  }

  predicate IsD(c: char) {
    c == 'D' || c == 'd'
  }

  predicate NonSurrogate(h: string) {
    FourHexDigits(h) && (!IsD(h[0]) || '0' <= h[1] <= '7')
  }

  predicate HighSurrogate(h: string) {
    FourHexDigits(h) && IsD(h[0])
      && (h[1] == '8' || h[1] == '9' || h[1] == 'A' || h[1] == 'B' || h[1] == 'a' || h[1] == 'b')
  }

  predicate LowSurrogate(h: string) {
    FourHexDigits(h) && IsD(h[0]) && ('C' <= h[1] <= 'F' || 'c' <= h[1] <= 'f')
  }

  /** A scalar that stands for itself in either kind of literal. */
  predicate IsPlainScalar(c: char) {
    var r := c as int;
    0x20 <= r <= 0x21 || 0x23 <= r <= 0x26 || 0x28 <= r <= 0x5B || 0x5D <= r
  }

  predicate ValidUnit(u: Unit, quote: char) {
    match u
    case Bare(c) => IsPlainScalar(c) || (IsQuote(c) && c != quote)
    case Short(e) => e == quote || e == 'b' || e == 'f' || e == 'n' || e == 'r' || e == 't' || e == '/' || e == '\\'
    case Code(h) => NonSurrogate(h)
    case Pair(high, low) => HighSurrogate(high) && LowSurrogate(low)
  }

  predicate ValidUnits(us: seq<Unit>, quote: char) {
    forall i | 0 <= i < |us| :: ValidUnit(us[i], quote)
  }

  function UnitText(u: Unit): (t: string)
    ensures t != ""
  {
    match u
    case Bare(c) => [c]
    case Short(e) => ['\\', e]
    case Code(h) => "\\u" + h
    case Pair(high, low) => "\\u" + high + ("\\u" + low)
  }

  function UnitsText(us: seq<Unit>): string {
    if us == [] then "" else UnitText(us[0]) + UnitsText(us[1..])
  }

  // ---- What a unit stands for

  function HexDigitNumber(c: char): (v: nat)
    requires IsHexDigit(c)
    ensures v < 16
  {
    if IsDigit(c) then DigitValue(c) else if c <= 'F' then c as int - 'A' as int + 10 else c as int - 'a' as int + 10
  }

  function HexNumber(h: string): (v: nat)
    requires FourHexDigits(h)
    ensures v < 0x1_0000
  {
    ((HexDigitNumber(h[0]) * 16 + HexDigitNumber(h[1])) * 16 + HexDigitNumber(h[2])) * 16 + HexDigitNumber(h[3])
  }

  /** The first two digits place a code in its block of 256. */
  lemma CodeBlock(h: string)
    requires FourHexDigits(h)
    ensures var top := 16 * HexDigitNumber(h[0]) + HexDigitNumber(h[1]); 256 * top <= HexNumber(h) < 256 * (top + 1)
  {
    hide HexDigitNumber, IsHexDigit;
  }

  lemma SurrogateDigits(c: char)
    requires IsHexDigit(c)
    ensures IsD(c) <==> HexDigitNumber(c) == 13
    ensures '0' <= c <= '7' <==> HexDigitNumber(c) < 8
    ensures 'C' <= c <= 'F' || 'c' <= c <= 'f' <==> HexDigitNumber(c) >= 12
  {
  }

  lemma SurrogateRanges(h: string)
    requires FourHexDigits(h)
    ensures NonSurrogate(h) <==> HexNumber(h) < 0xD800 || 0xE000 <= HexNumber(h)
    ensures HighSurrogate(h) <==> 0xD800 <= HexNumber(h) < 0xDC00
    ensures LowSurrogate(h) <==> 0xDC00 <= HexNumber(h) < 0xE000
  {
    hide HexNumber, HexDigitNumber, IsD;
    CodeBlock(h);
    SurrogateDigits(h[0]);
    SurrogateDigits(h[1]);
  }

  function UnitChar(u: Unit, quote: char): char
    requires ValidUnit(u, quote)
  {
    match u
    case Bare(c) => c
    case Short(e) =>
      if e == 'b' then 8 as char
      else if e == 'f' then 12 as char
      else if e == 'n' then '\n'
      else if e == 'r' then '\r'
      else if e == 't' then '\t'
      else e
    case Code(h) =>
      SurrogateRanges(h);
      HexNumber(h) as char
    case Pair(high, low) =>
      SurrogateRanges(high);
      SurrogateRanges(low);
      ((HexNumber(high) - 0xD800) * 0x400 + (HexNumber(low) - 0xDC00) + 0x1_0000) as char
  }

  function UnitsValue(us: seq<Unit>, quote: char): string
    requires ValidUnits(us, quote)
  {
    if us == [] then "" else [UnitChar(us[0], quote)] + UnitsValue(us[1..], quote)
  }

  // ---- Completeness

  lemma HexDigitValue(c: char)
    ensures HexValue(c) == if IsHexDigit(c) then Some(HexDigitNumber(c)) else None
  {
  }

  lemma HexDecodes(s: string, i: nat, h: string)
    requires FourHexDigits(h) && At(s, i, h)
    ensures Hex4(s, i) == Some(HexNumber(h))
  {
    hide HexValue, IsHexDigit, HexDigitNumber;
    AtIndex(s, i, h, 0);
    AtIndex(s, i, h, 1);
    AtIndex(s, i, h, 2);
    AtIndex(s, i, h, 3);
    HexDigitValue(h[0]);
    HexDigitValue(h[1]);
    HexDigitValue(h[2]);
    HexDigitValue(h[3]);
  }

  lemma CodeDecodes(s: string, i: nat, h: string)
    requires NonSurrogate(h) && At(s, i, h)
    ensures DecodeUnicode(s, i) == Decoded(UnitChar(Code(h), '"'), i + 4)
  {
    hide Hex4, HexNumber;
    HexDecodes(s, i, h);
    SurrogateRanges(h);
  }

  lemma PairDecodes(s: string, i: nat, high: string, low: string)
    requires HighSurrogate(high) && LowSurrogate(low) && At(s, i, high + ("\\u" + low))
    ensures DecodeUnicode(s, i) == Decoded(UnitChar(Pair(high, low), '"'), i + 10)
  {
    hide Hex4, HexNumber;
    AtConcat(s, i, high, "\\u" + low);
    AtConcat(s, i + 4, "\\u", low);
    AtIndex(s, i + 4, "\\u", 0);
    AtIndex(s, i + 4, "\\u", 1);
    HexDecodes(s, i, high);
    HexDecodes(s, i + 6, low);
    SurrogateRanges(high);
    SurrogateRanges(low);
  }

  lemma EscapeDecodes(s: string, i: nat, u: Unit, quote: char)
    requires IsQuote(quote) && ValidUnit(u, quote) && !u.Bare? && At(s, i, UnitText(u))
    ensures i < |s| && s[i] == '\\' && DecodeEscape(s, i, quote) == Decoded(UnitChar(u, quote), i + |UnitText(u)|)
  {
    hide DecodeUnicode, HexNumber;
    AtIndex(s, i, UnitText(u), 0);
    AtIndex(s, i, UnitText(u), 1);
    match u
    case Short(_) =>
    case Code(h) =>
      AtConcat(s, i, "\\u", h);
      CodeDecodes(s, i + 2, h);
    case Pair(high, low) =>
      assert UnitText(u) == "\\u" + (high + ("\\u" + low));
      AtConcat(s, i, "\\u", high + ("\\u" + low));
      PairDecodes(s, i + 2, high, low);
  }

  lemma UnitDecodes(s: string, i: nat, u: Unit, quote: char)
    requires IsQuote(quote) && ValidUnit(u, quote) && At(s, i, UnitText(u))
    ensures i < |s| && s[i] != quote
    ensures DecodeString(s, i, quote) == Prepend(UnitChar(u, quote), DecodeString(s, i + |UnitText(u)|, quote))
  {
    hide DecodeEscape;
    if u.Bare? {
      AtIndex(s, i, UnitText(u), 0);
    } else {
      hide UnitChar;
      EscapeDecodes(s, i, u, quote);
    }
  }

  lemma {:induction false} UnitsDecode(s: string, i: nat, us: seq<Unit>, quote: char)
    requires IsQuote(quote) && ValidUnits(us, quote) && At(s, i, UnitsText(us) + [quote])
    ensures DecodeString(s, i, quote) == Content(UnitsValue(us, quote), i + |UnitsText(us)| + 1)
    decreases |us|
  {
    hide UnitText, UnitChar, ValidUnit, DecodeEscape, IsUnescaped;
    if us == [] {
      assert UnitsText(us) + [quote] == [quote];
      AtIndex(s, i, [quote], 0);
    } else {
      var rest := UnitsText(us[1..]) + [quote];
      assert UnitsText(us) + [quote] == UnitText(us[0]) + rest;
      AtConcat(s, i, UnitText(us[0]), rest);
      UnitDecodes(s, i, us[0], quote);
      UnitsDecode(s, i + |UnitText(us[0])|, us[1..], quote);
    }
  }

  // ---- Soundness

  lemma HexSound(s: string, i: nat)
    requires Hex4(s, i).Some?
    ensures i + 4 <= |s| && FourHexDigits(s[i..i + 4]) && HexNumber(s[i..i + 4]) == Hex4(s, i).value
  {
    hide HexValue, IsHexDigit, HexDigitNumber;
    HexDigitValue(s[i]);
    HexDigitValue(s[i + 1]);
    HexDigitValue(s[i + 2]);
    HexDigitValue(s[i + 3]);
    var h := s[i..i + 4];
    assert h[0] == s[i] && h[1] == s[i + 1] && h[2] == s[i + 2] && h[3] == s[i + 3];
  }

  /** The unit a `\u` escape with digits at `i` was written as. */
  lemma UnicodeSound(s: string, i: nat) returns (u: Unit)
    requires i >= 2 && i <= |s| && s[i - 2] == '\\' && s[i - 1] == 'u' && DecodeUnicode(s, i).Decoded?
    ensures (u.Code? || u.Pair?) && ValidUnit(u, '"') && UnitChar(u, '"') == DecodeUnicode(s, i).c
    ensures At(s, i - 2, UnitText(u)) && i - 2 + |UnitText(u)| == DecodeUnicode(s, i).next
  {
    hide Hex4, HexNumber;
    HexSound(s, i);
    var h := s[i..i + 4];
    SurrogateRanges(h);
    if NonSurrogate(h) {
      u := Code(h);
      assert s[i - 2..i + 4] == "\\u" + h;
    } else {
      HexSound(s, i + 6);
      var low := s[i + 6..i + 10];
      SurrogateRanges(low);
      u := Pair(h, low);
      assert s[i - 2..i + 10] == "\\u" + h + ("\\u" + low);
    }
  }

  lemma EscapeSound(s: string, i: nat, quote: char) returns (u: Unit)
    requires IsQuote(quote) && i < |s| && s[i] == '\\' && DecodeEscape(s, i, quote).Decoded?
    ensures ValidUnit(u, quote) && UnitChar(u, quote) == DecodeEscape(s, i, quote).c
    ensures At(s, i, UnitText(u)) && i + |UnitText(u)| == DecodeEscape(s, i, quote).next
  {
    hide DecodeUnicode, HexNumber;
    if s[i + 1] == 'u' {
      u := UnicodeSound(s, i + 2);
    } else {
      u := Short(s[i + 1]);
      assert s[i..i + 2] == ['\\', s[i + 1]];
    }
  }

  lemma UnitSound(s: string, i: nat, quote: char) returns (u: Unit)
    requires IsQuote(quote) && i < |s| && s[i] != quote && DecodeString(s, i, quote).Content?
    ensures ValidUnit(u, quote) && At(s, i, UnitText(u)) && i + |UnitText(u)| <= |s|
    ensures DecodeString(s, i, quote) == Prepend(UnitChar(u, quote), DecodeString(s, i + |UnitText(u)|, quote))
  {
    hide DecodeEscape, UnitChar;
    if s[i] == '\\' {
      u := EscapeSound(s, i, quote);
    } else {
      u := BareSound(s, i, quote);
    }
  }

  lemma BareSound(s: string, i: nat, quote: char) returns (u: Unit)
    requires IsQuote(quote) && i < |s| && IsUnescaped(s[i], quote)
    ensures ValidUnit(u, quote) && UnitChar(u, quote) == s[i] && UnitText(u) == [s[i]] && At(s, i, UnitText(u))
  {
    u := Bare(s[i]);
    assert s[i..i + 1] == [s[i]];
  }

  /** The literal's content starts at `i` and ends with its quote before `end`. */
  predicate Written(s: string, i: nat, us: seq<Unit>, quote: char, value: string, end: nat) {
    && ValidUnits(us, quote) && UnitsValue(us, quote) == value
    && At(s, i, UnitsText(us) + [quote]) && end == i + |UnitsText(us)| + 1
  }

  lemma {:induction false} StringSound(s: string, i: nat, quote: char) returns (us: seq<Unit>)
    requires IsQuote(quote) && i <= |s| && DecodeString(s, i, quote).Content?
    ensures var r := DecodeString(s, i, quote); Written(s, i, us, quote, r.value, r.end)
    decreases |s| - i
  {
    hide UnitText, UnitChar, ValidUnit, DecodeEscape, IsUnescaped;
    if s[i] == quote {
      us := [];
      assert UnitsText(us) + [quote] == [quote] == s[i..i + 1];
    } else {
      var u := UnitSound(s, i, quote);
      var k := i + |UnitText(u)|;
      var rest := StringSound(s, k, quote);
      us := [u] + rest;
      WrittenCons(s, i, u, rest, quote, DecodeString(s, k, quote).value, DecodeString(s, k, quote).end);
    }
  }

  lemma WrittenCons(s: string, i: nat, u: Unit, rest: seq<Unit>, quote: char, value: string, end: nat)
    requires ValidUnit(u, quote) && At(s, i, UnitText(u)) && Written(s, i + |UnitText(u)|, rest, quote, value, end)
    ensures Written(s, i, [u] + rest, quote, [UnitChar(u, quote)] + value, end)
  {
    hide UnitText, UnitChar, ValidUnit;
    var us := [u] + rest;
    assert us[1..] == rest;
    AtConcat(s, i, UnitText(u), UnitsText(rest) + [quote]);
    assert UnitsText(us) + [quote] == UnitText(u) + (UnitsText(rest) + [quote]);
  }

  /** The decoder returns a value and an end if and only if the grammar derives the literal with that value there. */
  lemma DecodesIffWritten(s: string, i: nat, quote: char, value: string, end: nat)
    requires IsQuote(quote) && i <= |s|
    ensures DecodeString(s, i, quote) == Content(value, end) <==> exists us :: Written(s, i, us, quote, value, end)
  {
    hide DecodeString, UnitsText, UnitsValue, ValidUnits;
    if DecodeString(s, i, quote) == Content(value, end) {
      var us := StringSound(s, i, quote);
    }
    forall us | Written(s, i, us, quote, value, end)
      ensures DecodeString(s, i, quote) == Content(value, end)
    {
      UnitsDecode(s, i, us, quote);
    }
  }
}
