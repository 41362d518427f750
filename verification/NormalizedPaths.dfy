/** Normalized paths: order, text, JSON Pointer and precomputed lengths. */
module NormalizedPaths {
  import opened Common
  import opened Text
  import opened Json
  import opened Buffers
  import opened Evaluate

  // ---- Order

  /** Indexes come before names; indexes by value, names by code point. */
  function CompareSteps(a: Step, b: Step): int {
    match (a, b)
    case (NameStep(m), NameStep(n)) => CompareText(m, n)
    case (IndexStep(i), IndexStep(k)) => CompareInt(i, k)
    case (IndexStep(_), NameStep(_)) => -1
    case (NameStep(_), IndexStep(_)) => 1
  }

  function ComparePaths(p: Path, q: Path): int {
    if p == [] || q == [] then CompareInt(|p|, |q|)
    else if CompareSteps(p[0], q[0]) != 0 then CompareSteps(p[0], q[0])
    else ComparePaths(p[1..], q[1..])
  }

  method Compare(p: Path, q: Path) returns (sign: int)
    ensures sign == ComparePaths(p, q)
    ensures sign == 0 <==> p == q
  {
    ComparePathsEqual(p, q);
    var n := if |p| < |q| then |p| else |q|;
    var i := 0;
    assert p[0..] == p && q[0..] == q;
    while i < n
      invariant 0 <= i <= n
      invariant ComparePaths(p[i..], q[i..]) == ComparePaths(p, q)
    {
      assert p[i..][1..] == p[i + 1..] && q[i..][1..] == q[i + 1..];
      var a, b := p[i], q[i];
      if a.NameStep? && b.NameStep? {
        var x := CompareText(a.name, b.name);
        if x != 0 {
          return x;
        }
      } else if a.IndexStep? != b.IndexStep? {
        return if a.IndexStep? then -1 else 1;
      } else {
        var x := CompareInt(a.index, b.index);
        if x != 0 {
          return x;
        }
      }
      i := i + 1;
    }
    return CompareInt(|p|, |q|);
  }

  lemma CompareStepsEqual(a: Step, b: Step)
    ensures CompareSteps(a, b) == 0 <==> a == b
  {
    if a.NameStep? && b.NameStep? {
      CompareTextEqual(a.name, b.name);
    }
  }

  lemma {:induction false} ComparePathsEqual(p: Path, q: Path)
    ensures ComparePaths(p, q) == 0 <==> p == q
  {
    if p != [] && q != [] {
      CompareStepsEqual(p[0], q[0]);
      ComparePathsEqual(p[1..], q[1..]);
      assert p == [p[0]] + p[1..] && q == [q[0]] + q[1..];
    }
  }

  lemma CompareStepsAntisymmetric(a: Step, b: Step)
    ensures CompareSteps(a, b) == -CompareSteps(b, a)
  {
    if a.NameStep? && b.NameStep? {
      CompareTextAntisymmetric(a.name, b.name);
    }
  }

  lemma {:induction false} ComparePathsAntisymmetric(p: Path, q: Path)
    ensures ComparePaths(p, q) == -ComparePaths(q, p)
  {
    if p != [] && q != [] {
      CompareStepsAntisymmetric(p[0], q[0]);
      ComparePathsAntisymmetric(p[1..], q[1..]);
    }
  }

  lemma CompareStepsTransitive(a: Step, b: Step, c: Step)
    requires CompareSteps(a, b) <= 0 && CompareSteps(b, c) <= 0
    ensures CompareSteps(a, c) <= 0
    ensures CompareSteps(a, b) < 0 || CompareSteps(b, c) < 0 ==> CompareSteps(a, c) < 0
  {
    if a.NameStep? && b.NameStep? && c.NameStep? {
      CompareTextTransitive(a.name, b.name, c.name);
    }
  }

  lemma {:induction false} ComparePathsTransitive(p: Path, q: Path, r: Path)
    requires ComparePaths(p, q) <= 0 && ComparePaths(q, r) <= 0
    ensures ComparePaths(p, r) <= 0
    ensures ComparePaths(p, q) < 0 || ComparePaths(q, r) < 0 ==> ComparePaths(p, r) < 0
  {
    if p != [] && q != [] && r != [] {
      CompareStepsTransitive(p[0], q[0], r[0]);
      CompareStepsEqual(p[0], q[0]);
      CompareStepsEqual(q[0], r[0]);
      CompareStepsEqual(p[0], r[0]);
      if p[0] == q[0] == r[0] {
        ComparePathsTransitive(p[1..], q[1..], r[1..]);
      }
    }
  }

  // ---- Text

  function StepText(s: Step): string {
    match s
    case NameStep(n) => "[" + Quoted(n, '\'') + "]"
    case IndexStep(i) => "[" + NatText(i) + "]"
  }

  function StepsText(p: Path): string {
    if p == [] then "" else StepText(p[0]) + StepsText(p[1..])
  }

  /** The normalized path string of section 2.7 of RFC 9535. */
  function PathText(p: Path): string {
    "$" + StepsText(p)
  }

  method WriteNormalizedStep(buf: Buffer, s: Step)
    modifies buf
    ensures buf.text == old(buf.text) + StepText(s)
  {
    buf.Write("[");
    match s {
      case NameStep(n) => WriteQuoted(buf, n, '\'');
      case IndexStep(i) => buf.Write(NatText(i));
    }
    buf.Write("]");
  }

  method String(p: Path) returns (text: string)
    ensures text == PathText(p)
  {
    hide StepText;
    var buf := new Buffer();
    buf.Write("$");
    var i := 0;
    assert p[0..] == p;
    while i < |p|
      invariant 0 <= i <= |p|
      invariant buf.text + StepsText(p[i..]) == PathText(p)
    {
      assert p[i..][1..] == p[i + 1..];
      ghost var before, rest := buf.text, StepsText(p[i + 1..]);
      WriteNormalizedStep(buf, p[i]);
      assert buf.text + rest == before + (StepText(p[i]) + rest);
      i := i + 1;
    }
    text := buf.text;
  }

  // ---- JSON Pointer, RFC 6901

  function PointerChar(c: char): string {
    if c == '~' then "~0" else if c == '/' then "~1" else [c]
  }

  function PointerToken(s: string): (t: string)
    ensures '/' !in t
  {
    if s == "" then "" else PointerChar(s[0]) + PointerToken(s[1..])
  }

  /** The reference token text of a step. */
  function StepToken(s: Step): string {
    match s
    case NameStep(n) => n
    case IndexStep(i) => NatText(i)
  }

  function PointerText(p: Path): string {
    if p == [] then "" else "/" + PointerToken(StepToken(p[0])) + PointerText(p[1..])
  }

  lemma {:induction false} PointerTokenConcat(a: string, b: string)
    ensures PointerToken(a + b) == PointerToken(a) + PointerToken(b)
  {
    if a == "" {
      assert a + b == b;
    } else {
      assert (a + b)[1..] == a[1..] + b;
      PointerTokenConcat(a[1..], b);
    }
  }

  lemma {:induction false} DigitsNeedNoEscape(s: string)
    requires AllDigits(s)
    ensures PointerToken(s) == s
  {
    if s != "" {
      DigitsNeedNoEscape(s[1..]);
    }
  }

  method WritePointerStep(buf: Buffer, s: Step)
    modifies buf
    ensures buf.text == old(buf.text) + PointerToken(StepToken(s))
  {
    match s {
      case IndexStep(n) =>
        DigitsNeedNoEscape(NatText(n));
        buf.Write(NatText(n));
      case NameStep(name) =>
        WritePointerName(buf, name);
    }
  }

  lemma PointerTokenSnoc(s: string, i: nat)
    requires i < |s|
    ensures PointerToken(s[..i + 1]) == PointerToken(s[..i]) + PointerChar(s[i])
  {
    assert s[..i + 1] == s[..i] + [s[i]];
    PointerTokenConcat(s[..i], [s[i]]);
    assert PointerToken([s[i]]) == PointerChar(s[i]);
  }

  lemma NoToken()
    ensures PointerToken("") == ""
  {
  }

  method WritePointerName(buf: Buffer, name: string)
    modifies buf
    ensures buf.text == old(buf.text) + PointerToken(name)
  {
    hide PointerToken;
    NoToken();
    assert name[..0] == "";
    var i := 0;
    while i < |name|
      invariant 0 <= i <= |name|
      invariant buf.text == old(buf.text) + PointerToken(name[..i])
    {
      PointerTokenSnoc(name, i);
      if name[i] == '~' {
        buf.Write("~0");
      } else if name[i] == '/' {
        buf.Write("~1");
      } else {
        buf.Write([name[i]]);
      }
      i := i + 1;
    }
    assert name[..i] == name;
  }

  method Pointer(p: Path) returns (text: string)
    ensures text == PointerText(p)
  {
    hide PointerToken, StepToken;
    var buf := new Buffer();
    var i := 0;
    assert p[0..] == p;
    while i < |p|
      invariant 0 <= i <= |p|
      invariant buf.text + PointerText(p[i..]) == PointerText(p)
    {
      assert p[i..][1..] == p[i + 1..];
      ghost var before, rest := buf.text, PointerText(p[i + 1..]);
      buf.Write("/");
      WritePointerStep(buf, p[i]);
      assert buf.text + rest == before + ("/" + PointerToken(StepToken(p[i])) + rest);
      i := i + 1;
    }
    text := buf.text;
  }

  /** Section 4 of RFC 6901: `~1` stands for `/` and `~0` for `~`. */
  function Unescape(t: string): string
    decreases |t|
  {
    if t == "" then ""
    else if |t| > 1 && t[0] == '~' && t[1] == '1' then "/" + Unescape(t[2..])
    else if |t| > 1 && t[0] == '~' && t[1] == '0' then "~" + Unescape(t[2..])
    else [t[0]] + Unescape(t[1..])
  }

  /** Index of the first `/` at or after `i`, or the end. */
  function SlashFrom(t: string, i: nat): (k: nat)
    requires i <= |t|
    ensures i <= k <= |t| && forall x | i <= x < k :: t[x] != '/'
    ensures k < |t| ==> t[k] == '/'
    decreases |t| - i
  {
    if i < |t| && t[i] != '/' then SlashFrom(t, i + 1) else i
  }

  /** The reference tokens of a pointer: cut at each `/`, then unescape. */
  function Tokens(t: string): seq<string>
    decreases |t|
  {
    if t == "" then []
    else
      var k := SlashFrom(t, 1);
      [Unescape(t[1..k])] + Tokens(t[k..])
  }

  lemma {:induction false} UnescapeToken(s: string)
    ensures Unescape(PointerToken(s)) == s
  {
    if s != "" {
      var t := PointerToken(s[1..]);
      UnescapeToken(s[1..]);
      if s[0] == '~' || s[0] == '/' {
        assert (PointerChar(s[0]) + t)[2..] == t;
      } else {
        assert (PointerChar(s[0]) + t)[1..] == t;
      }
    }
  }

  function StepTokens(p: Path): seq<string> {
    if p == [] then [] else [StepToken(p[0])] + StepTokens(p[1..])
  }

  /** Reading a pointer back gives the names and indexes of the path, in order. */
  lemma {:induction false} PointerRoundTrip(p: Path)
    ensures Tokens(PointerText(p)) == StepTokens(p)
  {
    if p != [] {
      PointerRoundTrip(p[1..]);
      var token, rest := PointerToken(StepToken(p[0])), PointerText(p[1..]);
      var t := PointerText(p);
      UnescapeToken(StepToken(p[0]));
      FirstToken(token, rest);
    }
  }

  lemma FirstToken(token: string, rest: string)
    requires '/' !in token && (rest != "" ==> rest[0] == '/')
    ensures var t := "/" + token + rest;
            SlashFrom(t, 1) == 1 + |token| && t[1..1 + |token|] == token && t[1 + |token|..] == rest
  {
    var t := "/" + token + rest;
    forall x | 1 <= x < 1 + |token|
      ensures t[x] != '/'
    {
      assert t[x] == token[x - 1];
    }
    if rest != "" {
      assert t[1 + |token|] == rest[0];
    }
  }

  // ---- Precomputed lengths

  lemma {:induction false} AsciiSize(s: string)
    requires forall i | 0 <= i < |s| :: s[i] as int < 0x80
    ensures Utf8Size(s) == |s|
  {
    if s != "" {
      AsciiSize(s[1..]);
    }
  }

  lemma Utf8SizeOne(c: char)
    ensures Utf8Size([c]) == Utf8Length(c)
  {
    assert [c][1..] == "";
    assert Utf8Size("") == 0;
  }

  /** The loop that counts decimal digits. */
  method Digits10(v: nat) returns (n: nat)
    ensures n == |NatText(v)|
  {
    if v == 0 {
      return 1;
    }
    n := 0;
    var rest: nat := v;
    while rest > 0
      invariant rest > 0 ==> n + |NatText(rest)| == |NatText(v)|
      invariant rest == 0 ==> n == |NatText(v)|
    {
      n := n + 1;
      rest := rest / 10;
    }
  }

  lemma NatTextSize(n: nat)
    ensures Utf8Size(NatText(n)) == |NatText(n)|
  {
    var s := NatText(n);
    assert forall i | 0 <= i < |s| :: IsDigit(s[i]);
    AsciiSize(s);
  }

  lemma HexDigitAscii(v: nat)
    requires v < 16
    ensures HexDigit(v) as int < 0x80
  {
  }

  /** Bytes of one escaped character, by the case analysis of the length counter. */
  function EscapedLength(c: char): nat {
    if c as int == 0x08 || c as int == 0x0C || c == '\n' || c == '\r' || c == '\t' || c == '\'' || c == '\\' then 2
    else if c < ' ' then 6
    else Utf8Length(c)
  }

  lemma EscapedCharSize(c: char)
    ensures Utf8Size(EscapedChar(c, '\'')) == EscapedLength(c)
  {
    var e := EscapedChar(c, '\'');
    if e == [c] {
      Utf8SizeOne(c);
    } else {
      if c < ' ' {
        HexDigitAscii(c as int / 16);
        HexDigitAscii(c as int % 16);
      }
      AsciiSize(e);
    }
  }

  lemma StepsSize(p: Path, i: nat)
    requires i < |p|
    ensures Utf8Size(StepsText(p[i..])) == Utf8Size(StepText(p[i])) + Utf8Size(StepsText(p[i + 1..]))
  {
    hide StepText, Utf8Size;
    assert p[i..][0] == p[i] && p[i..][1..] == p[i + 1..];
    Utf8SizeConcat(StepText(p[i]), StepsText(p[i + 1..]));
  }

  lemma WholeSize(p: Path)
    ensures Utf8Size(PathText(p)) == 1 + Utf8Size(StepsText(p[0..])) && Utf8Size(StepsText(p[|p|..])) == 0
  {
    hide StepText;
    assert p[0..] == p;
    Utf8SizeConcat("$", StepsText(p));
    Utf8SizeOne('$');
  }

  method NormalizedLength(p: Path) returns (n: nat)
    ensures n == Utf8Size(PathText(p))
  {
    hide StepsText, StepText, PathText, Utf8Size;
    WholeSize(p);
    n := 1;
    var i := 0;
    while i < |p|
      invariant 0 <= i <= |p|
      invariant n + Utf8Size(StepsText(p[i..])) == Utf8Size(PathText(p))
    {
      StepsSize(p, i);
      var m := StepLength(p[i]);
      n := n + m;
      i := i + 1;
    }
  }

  /** What one element adds to the length. */
  method StepLength(s: Step) returns (n: nat)
    ensures n == Utf8Size(StepText(s))
  {
    hide Quoted, NatText, Escaped, Utf8Size;
    match s {
      case NameStep(name) =>
        BracketedSize(Quoted(name, '\''));
        QuotedSize(name);
        var m := EscapedSizeOf(name);
        n := 4 + m;
      case IndexStep(index) =>
        BracketedSize(NatText(index));
        NatTextSize(index);
        var d := Digits10(index);
        n := 2 + d;
    }
  }

  lemma BracketedSize(s: string)
    ensures Utf8Size("[" + s + "]") == 2 + Utf8Size(s)
  {
    Utf8SizeConcat("[" + s, "]");
    Utf8SizeConcat("[", s);
    Utf8SizeOne('[');
    Utf8SizeOne(']');
  }

  lemma QuotedSize(s: string)
    ensures Utf8Size(Quoted(s, '\'')) == 2 + Utf8Size(Escaped(s, '\''))
  {
    Utf8SizeConcat("'" + Escaped(s, '\''), "'");
    Utf8SizeConcat("'", Escaped(s, '\''));
    Utf8SizeOne('\'');
  }

  /** The inner loop of the length counter. */
  method EscapedSizeOf(name: string) returns (n: nat)
    ensures n == Utf8Size(Escaped(name, '\''))
  {
    n := 0;
    var i := 0;
    while i < |name|
      invariant 0 <= i <= |name|
      invariant n == Utf8Size(Escaped(name[..i], '\''))
    {
      EscapedSnoc(name, i, '\'');
      Utf8SizeConcat(Escaped(name[..i], '\''), EscapedChar(name[i], '\''));
      EscapedCharSize(name[i]);
      n := n + EscapedLength(name[i]);
      i := i + 1;
    }
    assert name[..i] == name;
  }

  lemma TokensSize(p: Path, i: nat)
    requires i < |p|
    ensures Utf8Size(PointerText(p[i..]))
            == 1 + Utf8Size(PointerToken(StepToken(p[i]))) + Utf8Size(PointerText(p[i + 1..]))
  {
    hide PointerToken, StepToken;
    assert p[i..][0] == p[i] && p[i..][1..] == p[i + 1..];
    var token := PointerToken(StepToken(p[i]));
    Utf8SizeConcat("/" + token, PointerText(p[i + 1..]));
    Utf8SizeConcat("/", token);
    Utf8SizeOne('/');
  }

  lemma WholePointer(p: Path)
    ensures p[0..] == p && Utf8Size(PointerText(p[|p|..])) == 0
  {
  }

  method PointerLength(p: Path) returns (n: nat)
    ensures n == Utf8Size(PointerText(p))
  {
    hide PointerText, PointerToken, Utf8Size;
    WholePointer(p);
    n := 0;
    var i := 0;
    while i < |p|
      invariant 0 <= i <= |p|
      invariant n + Utf8Size(PointerText(p[i..])) == Utf8Size(PointerText(p))
    {
      TokensSize(p, i);
      n := n + 1;
      match p[i] {
        case NameStep(name) =>
          var m := PointerSizeOf(name);
          n := n + m;
        case IndexStep(index) =>
          DigitsNeedNoEscape(NatText(index));
          NatTextSize(index);
          var d := Digits10(index);
          n := n + d;
      }
      i := i + 1;
    }
  }

  method PointerSizeOf(name: string) returns (n: nat)
    ensures n == Utf8Size(PointerToken(name))
  {
    n := 0;
    var i := 0;
    while i < |name|
      invariant 0 <= i <= |name|
      invariant n == Utf8Size(PointerToken(name[..i]))
    {
      PointerTokenSnoc(name, i);
      Utf8SizeConcat(PointerToken(name[..i]), PointerChar(name[i]));
      if name[i] == '~' || name[i] == '/' {
        AsciiSize(PointerChar(name[i]));
        n := n + 2;
      } else {
        Utf8SizeOne(name[i]);
        n := n + Utf8Length(name[i]);
      }
      i := i + 1;
    }
    assert name[..i] == name;
  }
}
