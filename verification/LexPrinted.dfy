/** A text laid out from lexemes, with any blank space between them, is read back as those lexemes. */
module LexPrinted {
  import opened Common
  import opened Text
  import opened NumberText
  import opened Tokens
  import opened StringGrammar
  import opened Printing
  import opened Layout

  // ---- One lexeme: its spelling alone decides it, as long as nothing after it continues it

  /** The spelling, on its own, is one token of this kind and text. */
  predicate LexesAs(raw: string, x: Symbol) {
    && raw != "" && !IsBlank(raw[0])
    && var t := TokenAt(raw, 0);
       t.kind == x.kind != Invalid && t.end == |raw| && TokenText(raw, t) == x.text
  }

  /** A token of kind `k` ends before `c`. */
  predicate JointSafe(k: Kind, c: char) {
    match k
    case Ident => !IsNameChar(c)
    case True => !IsNameChar(c)
    case False => !IsNameChar(c)
    case Null => !IsNameChar(c)
    case Int => !IsDigit(c) && c != '.' && c != 'e' && c != 'E'
    case Number => !IsDigit(c) && c != '.' && c != 'e' && c != 'E'
    case Dot => c != '.'
    case Not => c != '='
    case Less => c != '='
    case Greater => c != '='
    case _ => true
  }

  /** The spelling stands at `j` and nothing after it continues it. */
  predicate Stands(s: string, j: nat, raw: string, k: Kind) {
    At(s, j, raw) && (j + |raw| < |s| ==> JointSafe(k, s[j + |raw|]))
  }

  /** The token at `j` is the lexeme. */
  predicate ReadsAs(s: string, j: nat, raw: string, x: Symbol) {
    && j < |s| && !IsBlank(s[j])
    && var t := TokenAt(s, j);
       t.kind == x.kind != Invalid && t.end == j + |raw| <= |s| && TokenText(s, t) == x.text
  }

  /** The token after its first character, by the class of that character. */
  predicate IsMark(c: char) {
    SimpleKind(c).Some? || DoubleKind(c).Some?
  }

  lemma MarkEmbeds(s: string, j: nat, raw: string, x: Symbol)
    requires LexesAs(raw, x) && Stands(s, j, raw, x.kind) && IsMark(raw[0])
    ensures ReadsAs(s, j, raw, x)
  {
    hide DecodeString, ScanNumber, NameEnd;
    AtIndex(s, j, raw, 0);
    if |raw| > 1 {
      AtIndex(s, j, raw, 1);
    }
  }

  lemma StringStart(s: string, i: nat)
    requires i < |s| && IsQuote(s[i])
    ensures TokenAt(s, i) == match DecodeString(s, i + 1, s[i])
                             case Broken => Token(Invalid, i, i, "")
                             case Content(value, end) => Token(String, i, end, value)
    ensures !IsMark(s[i]) && !IsBlank(s[i])
  {
    hide DecodeString, ScanNumber, NameEnd;
  }

  lemma StringEmbeds(s: string, j: nat, raw: string, x: Symbol)
    requires LexesAs(raw, x) && Stands(s, j, raw, x.kind) && IsQuote(raw[0])
    ensures ReadsAs(s, j, raw, x)
  {
    hide TokenAt, DecodeString, IsQuote, IsBlank, IsMark, UnitsText, UnitsValue, ValidUnits;
    AtIndex(s, j, raw, 0);
    StringStart(raw, 0);
    StringStart(s, j);
    var us := StringSound(raw, 1, raw[0]);
    var body := UnitsText(us) + [raw[0]];
    AtWithin(s, j, raw, 1, body);
    UnitsDecode(s, j + 1, us, raw[0]);
  }

  lemma AtWithin(s: string, j: nat, raw: string, i: nat, part: string)
    requires At(s, j, raw) && At(raw, i, part)
    ensures At(s, j + i, part)
  {
    assert j + i + |part| <= |s|;
    forall k | 0 <= k < |part|
      ensures s[j + i + k] == part[k]
    {
      AtIndex(raw, i, part, k);
      AtIndex(s, j, raw, i + k);
    }
  }

  lemma NumberStart(s: string, i: nat)
    requires i < |s| && (s[i] == '-' || IsDigit(s[i]))
    ensures TokenAt(s, i) == match ScanNumber(s, i)
                             case Bad => Token(Invalid, i, i, "")
                             case Good(end, float) => Token(if float then Number else Int, i, end, "")
    ensures !IsMark(s[i]) && !IsQuote(s[i]) && !IsBlank(s[i])
  {
    hide DecodeString, ScanNumber, NameEnd;
  }

  lemma NumberEmbeds(s: string, j: nat, raw: string, x: Symbol)
    requires LexesAs(raw, x) && Stands(s, j, raw, x.kind) && (raw[0] == '-' || IsDigit(raw[0]))
    ensures ReadsAs(s, j, raw, x)
  {
    hide TokenAt, ScanNumber, IsMark, IsQuote, IsBlank;
    AtIndex(s, j, raw, 0);
    NumberStart(raw, 0);
    NumberStart(s, j);
    ScanEmbeds(s, j, raw);
    WholeText(raw, 0, s, j);
  }

  /** The same span of two texts. */
  lemma WholeText(raw: string, i: nat, s: string, j: nat)
    requires At(s, j, raw) && i == 0
    ensures raw[i..|raw|] == raw == s[j..j + |raw|]
  {
  }

  lemma NameStart(s: string, i: nat)
    requires i < |s| && IsNameFirst(s[i])
    ensures var end := NameEnd(s, i + 1); TokenAt(s, i) == Token(NameKind(s[i..end]), i, end, "")
    ensures HasRawText(TokenAt(s, i).kind) && !IsMark(s[i]) && !IsQuote(s[i]) && !IsBlank(s[i])
    ensures s[i] != '-' && !IsDigit(s[i])
  {
    hide DecodeString, ScanNumber, NameEnd;
  }

  lemma NameEndUnique(s: string, i: nat, end: nat)
    requires i <= end <= |s| && (forall k | i <= k < end :: IsNameChar(s[k])) && (end < |s| ==> !IsNameChar(s[end]))
    ensures NameEnd(s, i) == end
  {
    hide IsNameChar;
  }

  lemma NameCharsAt(s: string, j: nat, raw: string)
    requires At(s, j, raw) && raw != "" && NameEnd(raw, 1) == |raw|
    ensures forall k | j + 1 <= k < j + |raw| :: IsNameChar(s[k])
  {
    hide IsNameChar, NameEnd;
    forall k | j + 1 <= k < j + |raw|
      ensures IsNameChar(s[k])
    {
      AtIndex(s, j, raw, k - j);
      assert IsNameChar(raw[k - j]);
    }
  }

  lemma NameStops(k: Kind, c: char)
    requires HasRawText(k) && k != Int && k != Number && JointSafe(k, c)
    ensures !IsNameChar(c)
  {
    hide IsNameChar;
  }

  lemma NameEmbeds(s: string, j: nat, raw: string, x: Symbol)
    requires LexesAs(raw, x) && Stands(s, j, raw, x.kind) && IsNameFirst(raw[0])
    ensures ReadsAs(s, j, raw, x)
  {
    hide TokenAt, NameEnd, NameKind, IsMark, IsQuote, IsBlank, IsNameChar, IsNameFirst, JointSafe, HasRawText;
    AtIndex(s, j, raw, 0);
    NameStart(raw, 0);
    NameStart(s, j);
    WholeText(raw, 0, s, j);
    NameKinds(raw);
    NameCharsAt(s, j, raw);
    if j + |raw| < |s| {
      NameStops(x.kind, s[j + |raw|]);
    }
    NameEndUnique(s, j + 1, j + |raw|);
  }

  lemma FirstCharacter(s: string, i: nat)
    requires i < |s| && TokenAt(s, i).kind != Invalid
    ensures IsMark(s[i]) || IsQuote(s[i]) || s[i] == '-' || IsDigit(s[i]) || IsNameFirst(s[i])
    ensures !IsBlank(s[i])
  {
    hide DecodeString, ScanNumber, NameEnd, NameKind;
  }

  /** A lexeme keeps its reading in any text that does not continue it. */
  lemma TokenEmbeds(s: string, j: nat, raw: string, x: Symbol)
    requires LexesAs(raw, x) && Stands(s, j, raw, x.kind)
    ensures ReadsAs(s, j, raw, x)
  {
    hide TokenAt, Stands, ReadsAs, IsMark, IsQuote, IsNameFirst;
    FirstCharacter(raw, 0);
    if IsMark(raw[0]) {
      MarkEmbeds(s, j, raw, x);
    } else if IsQuote(raw[0]) {
      StringEmbeds(s, j, raw, x);
    } else if raw[0] == '-' || IsDigit(raw[0]) {
      NumberEmbeds(s, j, raw, x);
    } else {
      NameEmbeds(s, j, raw, x);
    }
  }

  // ---- A list of lexemes with blank space around them

  predicate AllBlank(b: string) {
    forall k | 0 <= k < |b| :: IsBlank(b[k])
  }

  predicate ItemOk(x: Item) {
    AllBlank(x.before) && AllBlank(x.after) && LexesAs(x.raw, x.sym)
  }

  /** Blank space separates the two. */
  predicate Apart(a: Item, b: Item) {
    a.after != "" || b.before != ""
  }

  /** `b` may follow `a`: nothing makes one token of both, and `b` is marked where blank space is not allowed. */
  predicate Joined(a: Item, b: Item) {
    && (Apart(a, b) || (b.raw != "" && JointSafe(a.sym.kind, b.raw[0])))
    && b.sym.gap == (GapMatters(a.sym.kind, b.sym.kind) && Apart(a, b))
  }

  predicate Jointed(xs: seq<Item>) {
    |xs| <= 1 || (Joined(xs[0], xs[1]) && Jointed(xs[1..]))
  }

  predicate AllOk(xs: seq<Item>) {
    forall k | 0 <= k < |xs| :: ItemOk(xs[k])
  }

  predicate Chained(xs: seq<Item>) {
    AllOk(xs) && Jointed(xs)
  }

  lemma ChainedFirst(xs: seq<Item>)
    requires Chained(xs) && xs != []
    ensures ItemOk(xs[0]) && Chained(xs[1..]) && (|xs| > 1 ==> Joined(xs[0], xs[1]) && ItemOk(xs[1]))
  {
    hide ItemOk, Joined;
  }

  lemma BlankIsSafe(k: Kind, c: char)
    requires IsBlank(c)
    ensures JointSafe(k, c)
  {
  }

  lemma SkipBlanksTo(s: string, i: nat, j: nat)
    requires i <= j <= |s| && (forall k | i <= k < j :: IsBlank(s[k])) && (j < |s| ==> !IsBlank(s[j]))
    ensures SkipBlanks(s, i) == j
    decreases j - i
  {
    hide IsBlank;
    if i < j {
      SkipBlanksTo(s, i + 1, j);
    }
  }

  /** The rendering of the items ends the source at `i`, after the blank space `b`. */
  predicate Remains(s: string, i: nat, b: string, xs: seq<Item>) {
    i <= |s| && s[i..] == b + Render(xs)
  }

  lemma CutSuffix(s: string, i: nat, a: string, rest: string)
    requires i <= |s| && s[i..] == a + rest
    ensures i + |a| <= |s| && At(s, i, a) && s[i + |a|..] == rest
  {
    assert |s[i..]| == |a| + |rest|;
    assert s[i..i + |a|] == s[i..][..|a|] == a;
    assert s[i + |a|..] == s[i..][|a|..] == rest;
  }

  lemma BlankSpan(s: string, i: nat, b: string)
    requires At(s, i, b) && AllBlank(b)
    ensures forall k | i <= k < i + |b| :: IsBlank(s[k])
  {
    hide IsBlank;
    forall k | i <= k < i + |b|
      ensures IsBlank(s[k])
    {
      AtIndex(s, i, b, k - i);
    }
  }

  lemma RenderFirst(xs: seq<Item>)
    requires xs != []
    ensures Render(xs) == xs[0].before + (xs[0].raw + (xs[0].after + Render(xs[1..])))
  {
  }

  lemma RemainsNext(s: string, i: nat, b: string, xs: seq<Item>)
    requires Remains(s, i, b, xs) && xs != [] && AllBlank(b) && AllBlank(xs[0].before)
    ensures var x := xs[0]; var j := i + |b| + |x.before|;
            && j <= |s| && (forall k | i <= k < j :: IsBlank(s[k]))
            && At(s, j, x.raw) && j + |x.raw| <= |s| && Remains(s, j + |x.raw|, x.after, xs[1..])
  {
    hide Render, At, IsBlank, AllBlank;
    var x := xs[0];
    var rest := x.after + Render(xs[1..]);
    var j := i + |b|;
    RenderFirst(xs);
    CutSuffix(s, i, b, Render(xs));
    CutSuffix(s, j, x.before, x.raw + rest);
    CutSuffix(s, j + |x.before|, x.raw, rest);
    BlankSpan(s, i, b);
    BlankSpan(s, j, x.before);
  }

  lemma NothingRendered(xs: seq<Item>)
    requires xs == []
    ensures Render(xs) == ""
  {
  }

  lemma SuffixStart(s: string, e: nat, text: string)
    requires e < |s| && s[e..] == text
    ensures text != "" && s[e] == text[0]
  {
  }

  lemma RenderStart(xs: seq<Item>)
    requires xs != [] && xs[0].raw != ""
    ensures Render(xs) != "" && Render(xs)[0] == (xs[0].before + xs[0].raw)[0]
  {
    RenderFirst(xs);
  }

  /** What stands after a lexeme of a chain ends its token. */
  lemma NextEnds(s: string, e: nat, a: Item, rest: seq<Item>)
    requires Remains(s, e, a.after, rest) && AllBlank(a.after) && e < |s|
    requires rest != [] ==> ItemOk(rest[0]) && Joined(a, rest[0])
    ensures JointSafe(a.sym.kind, s[e])
  {
    hide Render, JointSafe, IsBlank, TokenAt, TokenText;
    if a.after != "" {
      SuffixStart(s, e, a.after + Render(rest));
      BlankIsSafe(a.sym.kind, s[e]);
    } else {
      assert a.after + Render(rest) == Render(rest);
      SuffixStart(s, e, Render(rest));
      if rest == [] {
        NothingRendered(rest);
      } else {
        RenderStart(rest);
        if rest[0].before != "" {
          BlankIsSafe(a.sym.kind, s[e]);
        }
      }
    }
  }

  /** The tokens are those of the items and EOF, with blank space where the items have it. */
  predicate Reads(s: string, ts: seq<Token>, xs: seq<Item>) {
    && |ts| == |xs| + 1
    && if xs == [] then ts[0].kind == EOF && Spanned(s, ts[0])
       else
         && Spanned(s, ts[0]) && ts[0].kind == xs[0].sym.kind && TokenText(s, ts[0]) == xs[0].sym.text
         && (ts[0].end < ts[1].start <==> if |xs| > 1 then Apart(xs[0], xs[1]) else xs[0].after != "")
         && Reads(s, ts[1..], xs[1..])
  }

  /** The first token of a rendering is its first item. */
  lemma FirstToken(s: string, i: nat, b: string, xs: seq<Item>)
    requires i <= |s| && Remains(s, i, b, xs) && AllBlank(b) && Chained(xs) && xs != []
    ensures var x := xs[0]; var t := NextToken(s, i);
            && t.kind == x.sym.kind && t.kind != EOF && Spanned(s, t) && TokenText(s, t) == x.sym.text
            && Remains(s, t.end, x.after, xs[1..]) && t.start == i + |b| + |x.before|
  {
    hide Render, Chained, JointSafe, Joined, TokenAt, TokenText, SkipBlanks, IsBlank, LexesAs;
    var x := xs[0];
    var j := i + |b| + |x.before|;
    ChainedFirst(xs);
    RemainsNext(s, i, b, xs);
    if j + |x.raw| < |s| {
      NextEnds(s, j + |x.raw|, x, xs[1..]);
    }
    TokenEmbeds(s, j, x.raw, x.sym);
    SkipBlanksTo(s, i, j);
  }

  lemma EndToken(s: string, i: nat, b: string, xs: seq<Item>)
    requires i <= |s| && Remains(s, i, b, xs) && AllBlank(b) && xs == []
    ensures AllTokens(s, i) == [Token(EOF, |s|, |s|, "")] && |s| == i + |b|
  {
    hide IsBlank, SkipBlanks;
    assert s[i..] == b;
    assert s[i..i + |b|] == b;
    BlankSpan(s, i, b);
    SkipBlanksTo(s, i, |s|);
  }

  /** Reading a rendering token by token. */
  lemma {:induction false} TokensOfItems(s: string, i: nat, b: string, xs: seq<Item>)
    requires i <= |s| && Remains(s, i, b, xs) && AllBlank(b) && Chained(xs)
    ensures Reads(s, AllTokens(s, i), xs)
    ensures AllTokens(s, i)[0].start == i + |b| + if xs == [] then 0 else |xs[0].before|
    decreases |xs|
  {
    hide Remains, Chained, NextToken, TokenText, Joined, LexesAs, AllBlank;
    if xs == [] {
      EndToken(s, i, b, xs);
    } else {
      var t := NextToken(s, i);
      FirstToken(s, i, b, xs);
      ChainedFirst(xs);
      TokensOfItems(s, t.end, xs[0].after, xs[1..]);
      assert AllTokens(s, i)[1..] == AllTokens(s, t.end);
    }
  }

  // ---- The stream of a rendering

  /** The lexemes of the items and EOF, which blank space may separate from a dot. */
  function Lexemes(xs: seq<Item>): seq<Symbol> {
    seq(|xs|, k requires 0 <= k < |xs| => xs[k].sym)
    + [Symbol(EOF, "", xs != [] && GapMatters(xs[|xs| - 1].sym.kind, EOF) && xs[|xs| - 1].after != "")]
  }

  /** The lexemes of the items and then EOF, wherever blank space stands. */
  predicate StreamIs(ts: seq<Symbol>, xs: seq<Item>) {
    |ts| == |xs| + 1 && forall k | 0 <= k < |xs| :: ts[k] == xs[k].sym
  }

  lemma {:induction false} ReadsAt(s: string, ts: seq<Token>, xs: seq<Item>, k: nat)
    requires Reads(s, ts, xs) && k < |xs|
    ensures |ts| == |xs| + 1 && Spanned(s, ts[k]) && ts[k].kind == xs[k].sym.kind
            && TokenText(s, ts[k]) == xs[k].sym.text
    ensures ts[k].end < ts[k + 1].start <==> if k + 1 < |xs| then Apart(xs[k], xs[k + 1]) else xs[k].after != ""
    decreases k
  {
    hide TokenText;
    if k > 0 {
      ReadsAt(s, ts[1..], xs[1..], k - 1);
    }
  }

  lemma {:induction false} ReadsEnd(s: string, ts: seq<Token>, xs: seq<Item>)
    requires Reads(s, ts, xs)
    ensures |ts| == |xs| + 1 && ts[|xs|].kind == EOF && Spanned(s, ts[|xs|])
    decreases |xs|
  {
    hide TokenText;
    if xs != [] {
      ReadsEnd(s, ts[1..], xs[1..]);
    }
  }

  lemma {:induction false} JoinedAt(xs: seq<Item>, k: nat)
    requires Jointed(xs) && k + 1 < |xs|
    ensures Joined(xs[k], xs[k + 1])
    decreases k
  {
    hide Joined;
    if k > 0 {
      JoinedAt(xs[1..], k - 1);
    }
  }

  lemma SymbolOfItem(s: string, ts: seq<Token>, xs: seq<Item>, k: nat)
    requires Reads(s, ts, xs) && Jointed(xs) && (xs != [] ==> !xs[0].sym.gap) && k <= |xs|
    ensures |ts| == |xs| + 1 && Spanned(s, ts[k]) && SymbolAt(s, ts, k) == Lexemes(xs)[k]
  {
    hide Reads, Jointed, GapMatters, Spanned;
    ReadsEnd(s, ts, xs);
    if k < |xs| {
      ReadsAt(s, ts, xs, k);
    }
    if k > 0 {
      ReadsAt(s, ts, xs, k - 1);
      if k < |xs| {
        JoinedAt(xs, k - 1);
      }
    }
  }

  /** A rendering lexes to exactly the lexemes it was laid out from, whatever blank space it has. */
  lemma RenderingStream(xs: seq<Item>)
    requires Chained(xs) && (xs != [] ==> !xs[0].sym.gap)
    ensures Lexes(Render(xs)) && StreamOf(Render(xs)) == Lexemes(xs)
  {
    hide Reads, AllOk, Jointed, Render, AllTokens, SymbolAt, Spanned, Lexemes, StreamOf;
    var s := Render(xs);
    WholeRemains(xs);
    TokensOfItems(s, 0, "", xs);
    var ts := AllTokens(s, 0);
    ReadsEnd(s, ts, xs);
    LexemesCount(xs);
    forall k | 0 <= k < |ts|
      ensures Spanned(s, ts[k]) && StreamOf(s)[k] == Lexemes(xs)[k]
    {
      SymbolOfItem(s, ts, xs, k);
      StreamAt(s, k);
    }
    StreamAt(s, 0);
  }

  lemma StreamAt(s: string, k: nat)
    requires Lexes(s) && k < |AllTokens(s, 0)|
    ensures Spanned(s, AllTokens(s, 0)[k]) && |StreamOf(s)| == |AllTokens(s, 0)|
    ensures StreamOf(s)[k] == SymbolAt(s, AllTokens(s, 0), k)
  {
    hide AllTokens, SymbolAt, Spanned, ValidSymbol;
    var ts := AllTokens(s, 0);
    var xs := StreamOf(s);
    assert Readable(s, ts);
    assert xs == LexemesOf(s, ts);
  }

  lemma LexemesCount(xs: seq<Item>)
    ensures |Lexemes(xs)| == |xs| + 1 && StreamIs(Lexemes(xs), xs)
  {
  }

  lemma WholeRemains(xs: seq<Item>)
    ensures Remains(Render(xs), 0, "", xs)
  {
    hide Render;
  }

  lemma RenderingLexes(xs: seq<Item>)
    requires Chained(xs) && (xs != [] ==> !xs[0].sym.gap)
    ensures Lexes(Render(xs)) && StreamIs(StreamOf(Render(xs)), xs)
  {
    hide Chained, Lexes, StreamOf, Render, Lexemes, StreamIs;
    RenderingStream(xs);
    LexemesCount(xs);
  }
}
