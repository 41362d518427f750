/** The lexer: a current character and two positions, advanced by Next, refining the specification in Tokens. */
module Lexing {
  import opened Common
  import opened Text
  import opened NumberText
  import opened Tokens

  class Lexer {
    const src: string
    /** The current character as a code point, or -1 at the end of input and after an error. */
    var r: int
    var rPos: nat
    var nextPos: nat

    /** The current character is the one at `rPos`. */
    ghost predicate Valid()
      reads this
    {
      && rPos <= |src|
      && (rPos < |src| ==> r == src[rPos] as int && nextPos == rPos + 1)
      && (rPos == |src| ==> r == -1 && nextPos == |src|)
    }

    constructor (src: string)
      ensures this.src == src && Valid() && rPos == 0
    {
      this.src := src;
      r := -1;
      rPos := 0;
      nextPos := 0;
      new;
      Next();
    }

    /** Advance to the character at `nextPos`. */
    method Next()
      requires nextPos <= |src|
      modifies this
      ensures Valid() && rPos == old(nextPos)
    {
      if nextPos >= |src| {
        rPos := |src|;
        r := -1;
        return;
      }
      rPos := nextPos;
      r := src[nextPos] as int;
      nextPos := nextPos + 1;
    }

    function Peek(): int
      requires nextPos <= |src|
      reads this
    {
      if nextPos < |src| then src[nextPos] as int else -1
    }

    /** An invalid token; the lexer halts. */
    method ErrToken(start: nat) returns (t: Token)
      modifies this`r
      ensures t.kind == Invalid && t.start == start
    {
      r := -1;
      t := Token(Invalid, start, rPos, "");
    }

    predicate Current(c: char)
      reads this
    {
      r == c as int
    }

    method Scan() returns (t: Token)
      requires Valid()
      modifies this
      ensures SameToken(t, NextToken(src, old(rPos)))
      ensures t.kind != Invalid ==> Valid() && rPos == t.end
    {
      hide TokenAt;
      ghost var from := rPos;
      while rPos < |src| && IsBlank(src[rPos])
        invariant Valid() && from <= rPos
        invariant SkipBlanks(src, rPos) == SkipBlanks(src, from)
        decreases |src| - rPos
      {
        Next();
      }
      if r < 0 {
        return Token(EOF, rPos, rPos, "");
      }
      t := ScanToken();
    }

    /** The token that starts at the current character. */
    method ScanToken() returns (t: Token)
      requires Valid() && rPos < |src|
      modifies this
      ensures SameToken(t, TokenAt(src, old(rPos)))
      ensures t.kind != Invalid ==> Valid() && rPos == t.end
    {
      hide NameEnd, ScanNumber, DecodeString;
      var start := rPos;
      var c := src[rPos];
      var simple := SimpleKind(c);
      if simple.Some? {
        Next();
        t := Token(simple.value, start, rPos, "");
      } else if DoubleKind(c).Some? {
        t := ScanDouble();
      } else if c == '"' || c == '\'' {
        t := ScanString();
      } else if c == '-' || IsDigit(c) {
        t := ScanNumberToken();
      } else if IsNameFirst(c) {
        t := ScanIdent();
      } else {
        Next();
        t := ErrToken(start);
      }
    }

    /** A token that its second character decides. */
    method ScanDouble() returns (t: Token)
      requires Valid() && rPos < |src| && SimpleKind(src[rPos]).None? && DoubleKind(src[rPos]).Some?
      modifies this
      ensures SameToken(t, TokenAt(src, old(rPos)))
      ensures t.kind != Invalid ==> Valid() && rPos == t.end
    {
      hide NameEnd, ScanNumber, DecodeString;
      var start := rPos;
      var (second, both, alone) := DoubleKind(src[rPos]).value;
      var paired := Peek() == second as int;
      Next();
      if paired {
        Next();
        return Token(both, start, rPos, "");
      }
      if alone == Invalid {
        t := ErrToken(start);
      } else {
        t := Token(alone, start, rPos, "");
      }
    }

    method ScanIdent() returns (t: Token)
      requires Valid() && rPos < |src| && IsNameFirst(src[rPos])
      modifies this
      ensures var end := NameEnd(src, old(rPos) + 1);
              t == Token(NameKind(src[old(rPos)..end]), old(rPos), end, "")
      ensures Valid() && rPos == t.end
    {
      var start := rPos;
      while rPos < |src| && IsNameChar(src[rPos])
        invariant Valid() && start <= rPos
        invariant NameEnd(src, rPos) == NameEnd(src, start)
        decreases |src| - rPos
      {
        Next();
      }
      return Token(NameKind(src[start..rPos]), start, rPos, "");
    }

    method SkipDigits()
      requires Valid()
      modifies this
      ensures Valid() && rPos == DigitsEnd(src, old(rPos))
    {
      ghost var from := rPos;
      while rPos < |src| && IsDigit(src[rPos])
        invariant Valid() && from <= rPos
        invariant DigitsEnd(src, rPos) == DigitsEnd(src, from)
        decreases |src| - rPos
      {
        Next();
      }
    }

    predicate AtDigit()
      requires Valid()
      reads this
    {
      rPos < |src| && IsDigit(src[rPos])
    }

    method ScanNumberToken() returns (t: Token)
      requires Valid() && rPos < |src| && (src[rPos] == '-' || IsDigit(src[rPos]))
      modifies this
      ensures var scan := ScanNumber(src, old(rPos));
              && (scan.Bad? ==> t.kind == Invalid && t.start == old(rPos))
              && (scan.Good? ==> t == Token(if scan.float then Number else Int, old(rPos), scan.end, "")
                                 && Valid() && rPos == t.end)
    {
      var start := rPos;
      if Current('-') {
        Next();
        if !AtDigit() {
          t := ErrToken(start);
          return;
        }
      }
      if Current('0') {
        Next();
        if AtDigit() {
          t := ErrToken(start);
          return;
        }
      } else {
        SkipDigits();
      }
      assert ScanNumber(src, start) == ScanFraction(src, rPos);
      var ok, float := ScanFractionPart();
      if !ok {
        t := ErrToken(start);
        return;
      }
      return Token(if float then Number else Int, start, rPos, "");
    }

    method ScanFractionPart() returns (ok: bool, float: bool)
      requires Valid()
      modifies this
      ensures ok <==> ScanFraction(src, old(rPos)).Good?
      ensures ok ==> Valid() && ScanFraction(src, old(rPos)) == Good(rPos, float)
    {
      float := false;
      if Current('.') {
        float := true;
        Next();
        if !AtDigit() {
          return false, true;
        }
        SkipDigits();
      }
      ok, float := ScanExponentPart(float);
    }

    method ScanExponentPart(fraction: bool) returns (ok: bool, float: bool)
      requires Valid()
      modifies this
      ensures ok <==> ScanExponent(src, old(rPos), fraction).Good?
      ensures ok ==> Valid() && ScanExponent(src, old(rPos), fraction) == Good(rPos, float)
    {
      float := fraction;
      if Current('e') || Current('E') {
        float := true;
        Next();
        if Current('+') || Current('-') {
          Next();
        }
        if !AtDigit() {
          return false, true;
        }
        SkipDigits();
      }
      ok := true;
    }

    method ScanString() returns (t: Token)
      requires Valid() && rPos < |src| && (src[rPos] == '"' || src[rPos] == '\'')
      modifies this
      ensures var content := DecodeString(src, old(rPos) + 1, src[old(rPos)]);
              && (content.Broken? ==> t.kind == Invalid && t.start == old(rPos))
              && (content.Content? ==> t == Token(String, old(rPos), content.end, content.value)
                                       && Valid() && rPos == t.end)
    {
      var start := rPos;
      var quote := src[rPos];
      Next();
      var buf := "";
      ghost var all := DecodeString(src, rPos, quote);
      while r >= 0
        invariant Valid() && start < rPos
        invariant all == Append(buf, DecodeString(src, rPos, quote))
        decreases |src| - rPos
      {
        var c := src[rPos];
        AppendStep(buf, src, rPos, quote);
        if c == quote {
          Next();
          return Token(String, start, rPos, buf);
        } else if c == '\\' {
          var d := ScanEscape(quote);
          if d.None? {
            t := ErrToken(start);
            return;
          }
          buf := buf + [d.value];
        } else if IsUnescaped(c, quote) {
          buf := buf + [c];
          Next();
        } else {
          t := ErrToken(start);
          return;
        }
      }
      t := ErrToken(start);
    }

    /** The escape at the current backslash, or None if it is malformed. */
    method ScanEscape(quote: char) returns (c: Option<char>)
      requires Valid() && rPos < |src| && src[rPos] == '\\'
      modifies this
      ensures var d := DecodeEscape(src, old(rPos), quote);
              && (d.Malformed? ==> c == None)
              && (d.Decoded? ==> c == Some(d.c) && Valid() && rPos == d.next)
    {
      Next();
      if r < 0 {
        return None;
      }
      var e := src[rPos];
      if e == quote {
        c := Some(quote);
      } else if e == 'b' {
        c := Some(8 as char);
      } else if e == 'f' {
        c := Some(12 as char);
      } else if e == 'n' {
        c := Some('\n');
      } else if e == 'r' {
        c := Some('\r');
      } else if e == 't' {
        c := Some('\t');
      } else if e == '/' {
        c := Some('/');
      } else if e == '\\' {
        c := Some('\\');
      } else if e == 'u' {
        c := ScanUnicodeEscape();
        return;
      } else {
        return None;
      }
      Next();
    }

    method ScanUnicodeEscape() returns (c: Option<char>)
      requires Valid() && rPos < |src|
      modifies this
      ensures var d := DecodeUnicode(src, old(rPos) + 1);
              && (d.Malformed? ==> c == None)
              && (d.Decoded? ==> c == Some(d.c) && Valid() && rPos == d.next)
    {
      Next();
      var v := ScanHex4();
      if v.None? {
        return None;
      }
      if v.value < 0xD800 || 0xE000 <= v.value {
        return Some(v.value as char);
      }
      if v.value >= 0xDC00 {
        return None;
      }
      if !Current('\\') {
        return None;
      }
      Next();
      if !Current('u') {
        return None;
      }
      Next();
      var low := ScanHex4();
      if low.None? || low.value < 0xDC00 || 0xE000 <= low.value {
        return None;
      }
      return Some(((v.value - 0xD800) * 0x400 + (low.value - 0xDC00) + 0x1_0000) as char);
    }

    /** The loop over four hexadecimal digits. */
    method ScanHex4() returns (v: Option<nat>)
      requires Valid()
      modifies this
      ensures v == Hex4(src, old(rPos))
      ensures v.Some? ==> Valid() && rPos == old(rPos) + 4
    {
      ghost var from := rPos;
      var x := 0;
      var n := 0;
      while n < 4
        invariant 0 <= n <= 4 && Valid() && rPos == from + n
        invariant HexDigits(src, from, n) == Some(x)
      {
        if r < 0 || HexValue(src[rPos]).None? {
          assert n == 0 || n == 1 || n == 2 || n == 3;
          return None;
        }
        x := x * 16 + HexValue(src[rPos]).value;
        Next();
        n := n + 1;
      }
      Hex4IsHexDigits(src, from);
      return Some(x);
    }
  }

  /** The value of the first `n` hexadecimal digits from `i`. */
  ghost function HexDigits(s: string, i: nat, n: nat): Option<nat> {
    if n == 0 then Some(0)
    else if i + n > |s| then None
    else match (HexDigits(s, i, n - 1), HexValue(s[i + n - 1]))
      case (Some(x), Some(d)) => Some(x * 16 + d)
      case (_, _) => None
  }

  lemma Hex4IsHexDigits(s: string, i: nat)
    ensures HexDigits(s, i, 4) == Hex4(s, i)
  {
    if i + 4 <= |s| {
      assert HexDigits(s, i, 0) == Some(0);
      assert HexDigits(s, i, 1) == HexValue(s[i]);
      assert HexDigits(s, i, 2).Some?
             ==> HexDigits(s, i, 2).value == HexValue(s[i]).value * 16 + HexValue(s[i + 1]).value;
    }
  }

  function Append(buf: string, c: Content): Content {
    if c.Broken? then Broken else Content(buf + c.value, c.end)
  }

  /** Reading one more character moves it from the rest of the literal to the buffer. */
  lemma AppendStep(buf: string, s: string, i: nat, quote: char)
    requires i < |s|
    ensures s[i] == '\\' && s[i] != quote && DecodeEscape(s, i, quote).Decoded? ==>
              var d := DecodeEscape(s, i, quote);
              Append(buf, DecodeString(s, i, quote)) == Append(buf + [d.c], DecodeString(s, d.next, quote))
    ensures s[i] != '\\' && s[i] != quote && IsUnescaped(s[i], quote) ==>
              Append(buf, DecodeString(s, i, quote)) == Append(buf + [s[i]], DecodeString(s, i + 1, quote))
  {
    if s[i] != quote {
      if s[i] == '\\' {
        var d := DecodeEscape(s, i, quote);
        if d.Decoded? {
          AppendPrepend(buf, d.c, DecodeString(s, d.next, quote));
        }
      } else if IsUnescaped(s[i], quote) {
        AppendPrepend(buf, s[i], DecodeString(s, i + 1, quote));
      }
    }
  }

  lemma AppendPrepend(buf: string, c: char, r: Content)
    ensures Append(buf, Prepend(c, r)) == Append(buf + [c], r)
  {
    if r.Content? {
      assert buf + ([c] + r.value) == buf + [c] + r.value;
    }
  }

  lemma AllTokensStep(done: seq<Token>, s: string, i: nat)
    requires i <= |s|
    ensures var t := NextToken(s, i);
            if t.kind == EOF || t.kind == Invalid then done + AllTokens(s, i) == done + [t]
            else done + AllTokens(s, i) == done + [t] + AllTokens(s, t.end)
  {
    hide NextToken;
  }

  lemma SameEnd(t: Token, u: Token)
    requires SameToken(t, u)
    ensures t.kind == u.kind && (t.kind != Invalid ==> t == u)
  {
  }

  /** Scan until the end of input or the first invalid token. */
  method Tokenize(src: string) returns (tokens: seq<Token>)
    ensures var all := AllTokens(src, 0);
            |tokens| == |all| && forall k | 0 <= k < |all| :: SameToken(tokens[k], all[k])
  {
    hide NextToken, AllTokens, SameToken;
    var lexer := new Lexer(src);
    tokens := [];
    ghost var done: seq<Token> := [];
    while true
      invariant lexer.Valid() && lexer.src == src && |done| == |tokens|
      invariant done + AllTokens(src, lexer.rPos) == AllTokens(src, 0)
      invariant forall k | 0 <= k < |done| :: SameToken(tokens[k], done[k])
      decreases |src| - lexer.rPos
    {
      ghost var u := NextToken(src, lexer.rPos);
      AllTokensStep(done, src, lexer.rPos);
      var t := lexer.Scan();
      SameEnd(t, u);
      tokens := tokens + [t];
      done := done + [u];
      if t.kind == EOF || t.kind == Invalid {
        return;
      }
    }
  }
}
