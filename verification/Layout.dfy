/** From source text to the lexemes the parser sees, and to the outcome of a parse. */
module Layout {
  import opened Common
  import opened Text
  import opened NumberText
  import opened Tokens
  import S = Syntax
  import G = Grammar

  lemma NumberTextValid(s: string, j: nat, gap: bool)
    requires j < |s| && ScanNumber(s, j).Good?
    ensures var r := ScanNumber(s, j); ValidSymbol(Symbol(if r.float then Number else Int, s[j..r.end], gap))
  {
    hide ScanNumber, IsNumberText, IsIntText;
    ScanIsolates(s, j);
  }

  /** What a name token spans is a name. */
  lemma SpanIsName(s: string, i: nat)
    requires i < |s| && IsNameFirst(s[i])
    ensures IsName(s[i..NameEnd(s, i + 1)])
  {
    hide NameEnd, IsNameChar, IsNameFirst;
    var raw := s[i..NameEnd(s, i + 1)];
    assert raw[0] == s[i];
    forall k | 1 <= k < |raw|
      ensures IsNameChar(raw[k])
    {
      assert raw[k] == s[i + k];
    }
  }

  lemma NameTextValid(s: string, j: nat, gap: bool)
    requires j < |s| && IsNameFirst(s[j])
    ensures var text := s[j..NameEnd(s, j + 1)]; ValidSymbol(Symbol(NameKind(text), text, gap))
  {
    hide NameEnd, IsNameFirst, IsName, ValidSymbol, NameKind;
    SpanIsName(s, j);
    NameValid(s[j..NameEnd(s, j + 1)], gap);
  }

  lemma NameValid(text: string, gap: bool)
    requires IsName(text)
    ensures ValidSymbol(Symbol(NameKind(text), text, gap))
  {
    hide IsName, IsNumberText, IsIntText, ScanNumber;
  }

  /** The lexeme a token stands for is well formed. */
  lemma TokenTextValid(s: string, i: nat, gap: bool)
    requires i <= |s| && NextToken(s, i).kind != Invalid
    ensures var t := NextToken(s, i); ValidSymbol(Symbol(t.kind, TokenText(s, t), gap))
  {
    hide SkipBlanks, TokenAt, HasRawText, IsNumberText, IsIntText, IsName, NameKind, ScanNumber;
    var j := SkipBlanks(s, i);
    if j < |s| {
      TokenAtValid(s, j, gap);
    } else {
      NoText();
    }
  }

  lemma NoText()
    ensures !HasRawText(EOF)
  {
  }

  lemma TokenAtValid(s: string, j: nat, gap: bool)
    requires j < |s| && TokenAt(s, j).kind != Invalid
    ensures var t := TokenAt(s, j); ValidSymbol(Symbol(t.kind, TokenText(s, t), gap))
  {
    hide ScanNumber, DecodeString, NameEnd, NameKind, IsNumberText, IsIntText, IsName, IsDigit, IsNameFirst;
    if SimpleKind(s[j]).None? && DoubleKind(s[j]).None? {
      if s[j] == '-' || IsDigit(s[j]) {
        if ScanNumber(s, j).Good? {
          NumberTextValid(s, j, gap);
        }
      } else if IsNameFirst(s[j]) {
        NameKinds(s[j..NameEnd(s, j + 1)]);
        NameTextValid(s, j, gap);
      }
    }
  }

  lemma NameKinds(text: string)
    ensures HasRawText(NameKind(text)) && NameKind(text) != Int && NameKind(text) != Number && NameKind(text) != Invalid
  {
  }

  /** The tokens are consecutive: the first is read at `i`, each later one where the token before it ends. */
  lemma {:induction false} TokenRead(s: string, i: nat, k: nat)
    requires i <= |s| && k < |AllTokens(s, i)|
    ensures var ts := AllTokens(s, i);
            var j := if k == 0 then i else ts[k - 1].end;
            j <= |s| && ts[k] == NextToken(s, j)
    decreases |s| - i
  {
    hide NextToken;
    var t := NextToken(s, i);
    if k == 0 {
      assert AllTokens(s, i)[0] == t;
    } else {
      assert AllTokens(s, i)[1..] == AllTokens(s, t.end);
      TokenRead(s, t.end, k - 1);
    }
  }

  /** Every token is valid: the lexer reached the end of the source. */
  predicate Lexes(s: string) {
    AllTokens(s, 0)[|AllTokens(s, 0)| - 1].kind == EOF
  }

  function GapBefore(ts: seq<Token>, k: nat): bool
    requires k < |ts|
  {
    k > 0 && GapMatters(ts[k - 1].kind, ts[k].kind) && ts[k - 1].end < ts[k].start
  }

  predicate Spanned(s: string, t: Token) {
    t.kind != Invalid && t.start <= t.end <= |s|
  }

  /** What the parser sees of the token at `k`. */
  function SymbolAt(s: string, ts: seq<Token>, k: nat): Symbol
    requires k < |ts| && Spanned(s, ts[k])
  {
    Symbol(ts[k].kind, TokenText(s, ts[k]), GapBefore(ts, k))
  }

  lemma LexemeValid(s: string, k: nat)
    requires Lexes(s) && k < |AllTokens(s, 0)|
    ensures Spanned(s, AllTokens(s, 0)[k]) && ValidSymbol(SymbolAt(s, AllTokens(s, 0), k))
  {
    hide NextToken, ValidSymbol;
    var ts := AllTokens(s, 0);
    TokenRead(s, 0, k);
    var j :| 0 <= j <= |s| && ts[k] == NextToken(s, j);
    TokenTextValid(s, j, GapBefore(ts, k));
  }

  /** A token list that ends the source and whose every token stands for a lexeme. */
  predicate Readable(s: string, ts: seq<Token>) {
    && ts != [] && ts[|ts| - 1].kind == EOF && (forall k | 0 <= k < |ts| - 1 :: ts[k].kind != EOF)
    && forall k | 0 <= k < |ts| :: Spanned(s, ts[k]) && ValidSymbol(SymbolAt(s, ts, k))
  }

  lemma TokensReadable(s: string)
    requires Lexes(s)
    ensures Readable(s, AllTokens(s, 0))
  {
    hide NextToken, ValidSymbol, SymbolAt, Spanned;
    var ts := AllTokens(s, 0);
    forall k | 0 <= k < |ts|
      ensures Spanned(s, ts[k]) && ValidSymbol(SymbolAt(s, ts, k))
    {
      LexemeValid(s, k);
    }
  }

  function LexemesOf(s: string, ts: seq<Token>): (xs: G.Stream)
    requires Readable(s, ts)
    ensures |xs| == |ts| && forall k | 0 <= k < |xs| :: xs[k] == SymbolAt(s, ts, k)
  {
    seq(|ts|, k requires 0 <= k < |ts| => SymbolAt(s, ts, k))
  }

  function StreamOf(s: string): (xs: G.Stream)
    requires Lexes(s)
    ensures Readable(s, AllTokens(s, 0)) && xs == LexemesOf(s, AllTokens(s, 0))
  {
    TokensReadable(s);
    LexemesOf(s, AllTokens(s, 0))
  }

  predicate BlankEdge(s: string) {
    s != "" && (IsBlank(s[0]) || IsBlank(s[|s| - 1]))
  }

  /** Lexing and parsing a source: the query, or the offset of the failure. */
  function ParseText(s: string, funcs: S.Registry): (r: Outcome<S.PathQuery>)
  {
    var ts := AllTokens(s, 0);
    if !Lexes(s) then Err(ts[|ts| - 1].start)
    else if s != "" && IsBlank(s[0]) then Err(0)
    else if s != "" && IsBlank(s[|s| - 1]) then Err(|s| - 1)
    else match G.ParseQuery(StreamOf(s), funcs)
      case Done(q, _) => Ok(q)
      case Failed(at) => Err(ts[at].start)
  }

  lemma StartsWithin(s: string, k: nat)
    requires k < |AllTokens(s, 0)|
    ensures AllTokens(s, 0)[k].start <= |s|
  {
    hide NextToken, AllTokens;
    TokenRead(s, 0, k);
  }

  /** Every failure is reported inside the source or at its end. */
  lemma FailureOffset(s: string, funcs: S.Registry)
    ensures match ParseText(s, funcs) case Err(offset) => offset <= |s| case Ok(_) => true
  {
    hide AllTokens, G.ParseQuery, Readable, LexemesOf;
    var ts := AllTokens(s, 0);
    forall k | 0 <= k < |ts|
      ensures ts[k].start <= |s|
    {
      StartsWithin(s, k);
    }
  }

  /**
   * Two sources with the same lexemes either both parse to the same query or both fail, if blank space stands at an
   * edge of both or of neither; without it at an edge they fail at the same lexeme. Blank space elsewhere, quote
   * styles and escapes make no difference.
   */
  lemma LayoutIndependence(s: string, t: string, funcs: S.Registry)
    requires Lexes(s) && Lexes(t) && StreamOf(s) == StreamOf(t) && (BlankEdge(s) <==> BlankEdge(t))
    ensures match ParseText(s, funcs) case Ok(q) => ParseText(t, funcs) == Ok(q) case Err(_) => ParseText(t, funcs).Err?
    ensures !BlankEdge(s) ==>
              match G.ParseQuery(StreamOf(s), funcs)
              case Done(q, _) => ParseText(s, funcs) == Ok(q)
              case Failed(at) =>
                && ParseText(s, funcs) == Err(AllTokens(s, 0)[at].start)
                && ParseText(t, funcs) == Err(AllTokens(t, 0)[at].start)
  {
    hide AllTokens, Readable, LexemesOf, G.ParseQuery, IsBlank;
  }

  /** The tokens lie in order from `i` to the end of the source, with only blank space before and between them. */
  predicate Tiles(s: string, ts: seq<Token>, i: nat) {
    if ts == [] then i == |s|
    else
      && i <= ts[0].start <= ts[0].end <= |s|
      && (forall k | i <= k < ts[0].start :: IsBlank(s[k]))
      && Tiles(s, ts[1..], ts[0].end)
  }

  lemma {:induction false} TokensInOrder(s: string, i: nat)
    requires i <= |s| && AllTokens(s, i)[|AllTokens(s, i)| - 1].kind == EOF
    ensures Tiles(s, AllTokens(s, i), i)
    decreases |s| - i
  {
    hide NextToken;
    var t := NextToken(s, i);
    NextTokenSpan(s, i);
    if t.kind != EOF {
      assert AllTokens(s, i)[1..] == AllTokens(s, t.end);
      TokensInOrder(s, t.end);
    }
  }

  lemma NextTokenSpan(s: string, i: nat)
    requires i <= |s|
    ensures var t := NextToken(s, i);
            i <= t.start <= |s| && (forall k | i <= k < t.start :: IsBlank(s[k])) && (t.kind == EOF ==> t.end == |s|)
  {
    hide TokenAt, SkipBlanks;
  }
}
