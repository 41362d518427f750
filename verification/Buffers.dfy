/** The text buffer that printers append to, and the escapes of string literals. */
module Buffers {
  import opened Text

  /** A strings.Builder. */
  class Buffer {
    var text: string

    constructor ()
      ensures text == ""
    {
      text := "";
    }

    method Write(s: string)
      modifies this
      ensures text == old(text) + s
    {
      text := text + s;
    }
  }

  function HexDigit(v: nat): char
    requires v < 16
  {
    if v < 10 then DigitChar(v) else ('a' as int + (v - 10)) as char
  }

  /** How a character is written inside a literal with this quote. */
  function EscapedChar(c: char, quote: char): (s: string)
    ensures s != ""
  {
    if c as int == 0x08 then "\\b"
    else if c as int == 0x0C then "\\f"
    else if c == '\n' then "\\n"
    else if c == '\r' then "\\r"
    else if c == '\t' then "\\t"
    else if c == quote then ['\\', quote]
    else if c == '\\' then "\\\\"
    else if c < ' ' then "\\u00" + [HexDigit(c as int / 16), HexDigit(c as int % 16)]
    else [c]
  }

  function Escaped(s: string, quote: char): string {
    if s == "" then "" else EscapedChar(s[0], quote) + Escaped(s[1..], quote)
  }

  function Quoted(s: string, quote: char): string {
    [quote] + Escaped(s, quote) + [quote]
  }

  lemma {:induction false} EscapedConcat(a: string, b: string, quote: char)
    ensures Escaped(a + b, quote) == Escaped(a, quote) + Escaped(b, quote)
  {
    if a == "" {
      assert a + b == b;
    } else {
      assert (a + b)[1..] == a[1..] + b;
      EscapedConcat(a[1..], b, quote);
    }
  }

  lemma EscapedSnoc(s: string, i: nat, quote: char)
    requires i < |s|
    ensures Escaped(s[..i + 1], quote) == Escaped(s[..i], quote) + EscapedChar(s[i], quote)
  {
    assert s[..i + 1] == s[..i] + [s[i]];
    EscapedConcat(s[..i], [s[i]], quote);
    assert Escaped([s[i]], quote) == EscapedChar(s[i], quote);
  }

  method WriteEscaped(buf: Buffer, c: char, quote: char)
    modifies buf
    ensures buf.text == old(buf.text) + EscapedChar(c, quote)
  {
    if c as int == 0x08 {
      buf.Write("\\b");
    } else if c as int == 0x0C {
      buf.Write("\\f");
    } else if c == '\n' {
      buf.Write("\\n");
    } else if c == '\r' {
      buf.Write("\\r");
    } else if c == '\t' {
      buf.Write("\\t");
    } else if c == quote {
      buf.Write(['\\', quote]);
    } else if c == '\\' {
      buf.Write("\\\\");
    } else if c < ' ' {
      buf.Write("\\u00");
      buf.Write([HexDigit(c as int / 16)]);
      buf.Write([HexDigit(c as int % 16)]);
    } else {
      buf.Write([c]);
    }
  }

  /** The loop of the literal writers: one escape decision per character, between quotes. */
  method WriteQuoted(buf: Buffer, s: string, quote: char)
    modifies buf
    ensures buf.text == old(buf.text) + Quoted(s, quote)
  {
    hide EscapedChar, Escaped;
    buf.Write([quote]);
    ghost var start := buf.text;
    var i := 0;
    EscapedEmpty(quote);
    assert s[..0] == "";
    while i < |s|
      invariant 0 <= i <= |s|
      invariant buf.text == start + Escaped(s[..i], quote)
    {
      EscapedSnoc(s, i, quote);
      WriteEscaped(buf, s[i], quote);
      i := i + 1;
    }
    assert s[..i] == s;
    buf.Write([quote]);
  }

  lemma EscapedEmpty(quote: char)
    ensures Escaped("", quote) == ""
  {
  }
}
