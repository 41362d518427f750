/** Reading an escaped string literal gives back the string it was written from. */
module StringRoundTrip {
  import opened Common
  import opened Text
  import opened Tokens
  import opened Buffers
  import opened StringGrammar

  /** How the literal writers spell a character: shortest escape first, then its code, then itself. */
  function CharUnit(c: char, quote: char): Unit {
    if c as int == 0x08 then Short('b')
    else if c as int == 0x0C then Short('f')
    else if c == '\n' then Short('n')
    else if c == '\r' then Short('r')
    else if c == '\t' then Short('t')
    else if c == quote || c == '\\' then Short(c)
    else if c < ' ' then Code("00" + [HexDigit(c as int / 16), HexDigit(c as int % 16)])
    else Bare(c)
  }

  lemma HexDigitReads(v: nat)
    requires v < 16
    ensures IsHexDigit(HexDigit(v)) && HexDigitNumber(HexDigit(v)) == v
  {
  }

  lemma CodeReads(v: nat)
    requires v < 0x20
    ensures var h := "00" + [HexDigit(v / 16), HexDigit(v % 16)]; NonSurrogate(h) && HexNumber(h) == v
  {
    hide HexDigit, HexDigitNumber;
    HexDigitReads(v / 16);
    HexDigitReads(v % 16);
    ZeroReads();
  }

  lemma ZeroReads()
    ensures IsHexDigit('0') && HexDigitNumber('0') == 0
  {
  }

  /** What is written for a character is a unit of the grammar that stands for it. */
  lemma CharUnitReads(c: char, quote: char)
    requires IsQuote(quote)
    ensures var u := CharUnit(c, quote);
            ValidUnit(u, quote) && UnitText(u) == EscapedChar(c, quote) && UnitChar(u, quote) == c
  {
    hide HexDigit, HexNumber, NonSurrogate;
    if c < ' ' {
      CodeReads(c as int);
      assert "\\u" + ("00" + [HexDigit(c as int / 16), HexDigit(c as int % 16)])
          == "\\u00" + [HexDigit(c as int / 16), HexDigit(c as int % 16)];
    }
  }

  function TextUnits(s: string, quote: char): seq<Unit> {
    if s == "" then [] else [CharUnit(s[0], quote)] + TextUnits(s[1..], quote)
  }

  lemma {:induction false} TextUnitsRead(s: string, quote: char)
    requires IsQuote(quote)
    ensures var us := TextUnits(s, quote);
            ValidUnits(us, quote) && UnitsText(us) == Escaped(s, quote) && UnitsValue(us, quote) == s
  {
    hide CharUnit, UnitText, UnitChar, ValidUnit, EscapedChar;
    if s != "" {
      CharUnitReads(s[0], quote);
      TextUnitsRead(s[1..], quote);
      assert TextUnits(s, quote)[1..] == TextUnits(s[1..], quote);
      assert [s[0]] + s[1..] == s;
    }
  }

  /** The content of a literal is read back up to its closing quote. */
  lemma EscapedDecodes(s: string, i: nat, text: string, quote: char)
    requires IsQuote(quote) && At(s, i, Escaped(text, quote) + [quote])
    ensures DecodeString(s, i, quote) == Content(text, i + |Escaped(text, quote)| + 1)
  {
    hide Escaped, DecodeString, UnitsText, UnitsValue, ValidUnits;
    TextUnitsRead(text, quote);
    UnitsDecode(s, i, TextUnits(text, quote), quote);
  }
}
