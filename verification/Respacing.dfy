/** Changing the blank space of a source, where that joins no tokens and parts none that must touch, changes nothing. */
module Respacing {
  import opened Common
  import opened Text
  import opened NumberText
  import opened Tokens
  import S = Syntax
  import opened StringGrammar
  import opened Printing
  import opened Layout
  import opened LexPrinted
  import PrintedChain

  // ---- Lexing is local: the text of a token reads the same on its own

  lemma MarkIsolates(s: string, i: nat, gap: bool)
    requires i < |s| && TokenAt(s, i).kind != Invalid && IsMark(s[i])
    ensures var t := TokenAt(s, i); LexesAs(s[i..t.end], Symbol(t.kind, TokenText(s, t), gap))
  {
    hide DecodeString, ScanNumber, NameEnd;
    var raw := s[i..TokenAt(s, i).end];
    assert raw[0] == s[i];
    if |raw| > 1 {
      assert raw[1] == s[i + 1];
    }
  }

  lemma StringIsolates(s: string, i: nat, gap: bool)
    requires i < |s| && TokenAt(s, i).kind != Invalid && IsQuote(s[i])
    ensures var t := TokenAt(s, i); LexesAs(s[i..t.end], Symbol(t.kind, TokenText(s, t), gap))
  {
    hide TokenAt, DecodeString, IsQuote, IsBlank, IsMark, UnitsText, UnitsValue, ValidUnits;
    StringStart(s, i);
    var us := StringSound(s, i + 1, s[i]);
    var body := UnitsText(us) + [s[i]];
    var end := TokenAt(s, i).end;
    var raw := s[i..end];
    assert raw[0] == s[i];
    assert raw[1..1 + |body|] == s[i + 1..i + 1 + |body|];
    StringStart(raw, 0);
    UnitsDecode(raw, 1, us, s[i]);
  }

  lemma NumberIsolates(s: string, i: nat, gap: bool)
    requires i < |s| && TokenAt(s, i).kind != Invalid && (s[i] == '-' || IsDigit(s[i]))
    ensures var t := TokenAt(s, i); LexesAs(s[i..t.end], Symbol(t.kind, TokenText(s, t), gap))
  {
    hide TokenAt, ScanNumber, IsNumberText, IsMark, IsQuote, IsBlank;
    NumberStart(s, i);
    ScanIsolates(s, i);
    PrintedChain.NumberLexes(s[i..TokenAt(s, i).end]);
  }

  lemma NameIsolates(s: string, i: nat, gap: bool)
    requires i < |s| && TokenAt(s, i).kind != Invalid && IsNameFirst(s[i])
    ensures var t := TokenAt(s, i); LexesAs(s[i..t.end], Symbol(t.kind, TokenText(s, t), gap))
  {
    hide TokenAt, NameEnd, NameKind, IsMark, IsQuote, IsBlank, IsNameChar, IsNameFirst, HasRawText;
    NameStart(s, i);
    var raw := s[i..NameEnd(s, i + 1)];
    NameKinds(raw);
    SpanIsName(s, i);
    PrintedChain.NameLexes(raw);
  }

  lemma TokenIsolates(s: string, i: nat, gap: bool)
    requires i < |s| && TokenAt(s, i).kind != Invalid
    ensures var t := TokenAt(s, i); LexesAs(s[i..t.end], Symbol(t.kind, TokenText(s, t), gap))
  {
    hide TokenAt, LexesAs, IsMark, IsQuote, IsNameFirst, TokenText;
    FirstCharacter(s, i);
    if IsMark(s[i]) {
      MarkIsolates(s, i, gap);
    } else if IsQuote(s[i]) {
      StringIsolates(s, i, gap);
    } else if s[i] == '-' || IsDigit(s[i]) {
      NumberIsolates(s, i, gap);
    } else {
      NameIsolates(s, i, gap);
    }
  }

  // ---- A source with its blank space changed

  /** The item keeps the spelling of the source's token and whether blank space stands where the grammar allows none. */
  predicate KeepsToken(s: string, k: nat, y: Item)
    requires k < |AllTokens(s, 0)| && Spanned(s, AllTokens(s, 0)[k])
  {
    var ts := AllTokens(s, 0);
    y.raw == s[ts[k].start..ts[k].end] && y.sym == SymbolAt(s, ts, k) && AllBlank(y.before) && AllBlank(y.after)
  }

  /** The tokens of the source in a layout of their own, in which no two of them run together. */
  predicate Respaced(s: string, ys: seq<Item>)
    requires Lexes(s)
  {
    var ts := AllTokens(s, 0);
    && Readable(s, ts) && |ts| == |ys| + 1
    && (forall k | 0 <= k < |ys| :: KeepsToken(s, k, ys[k]))
    && Jointed(ys) && Lexemes(ys)[|ys|] == SymbolAt(s, ts, |ys|)
  }

  lemma TokenSpelled(s: string, k: nat)
    requires Lexes(s) && k + 1 < |AllTokens(s, 0)|
    ensures var ts := AllTokens(s, 0);
            Spanned(s, ts[k]) && LexesAs(s[ts[k].start..ts[k].end], SymbolAt(s, ts, k))
  {
    hide TokenAt, LexesAs, TokenText, GapBefore, ValidSymbol;
    var ts := AllTokens(s, 0);
    LexemeValid(s, k);
    TokenRead(s, 0, k);
    var j :| 0 <= j <= |s| && ts[k] == NextToken(s, j);
    TokenIsolates(s, ts[k].start, GapBefore(ts, k));
  }

  lemma RespacedItemOk(s: string, ys: seq<Item>, k: nat)
    requires Lexes(s) && Respaced(s, ys) && k < |ys|
    ensures ItemOk(ys[k])
  {
    hide AllTokens, Jointed, LexesAs, SymbolAt, Spanned, AllBlank, ValidSymbol, Lexemes;
    assert KeepsToken(s, k, ys[k]);
    TokenSpelled(s, k);
  }

  lemma RespacedLexemes(s: string, ys: seq<Item>)
    requires Lexes(s) && Respaced(s, ys)
    ensures StreamOf(s) == Lexemes(ys)
  {
    hide AllTokens, Jointed, SymbolAt, Spanned, AllBlank, ValidSymbol, Lexemes;
    LexemesCount(ys);
    forall k | 0 <= k < |ys|
      ensures StreamOf(s)[k] == ys[k].sym
    {
      assert KeepsToken(s, k, ys[k]);
    }
  }

  /** A source in another layout has the same lexemes. */
  lemma RespacingKeepsStream(s: string, ys: seq<Item>)
    requires Lexes(s) && Respaced(s, ys)
    ensures Lexes(Render(ys)) && StreamOf(Render(ys)) == StreamOf(s)
  {
    hide AllTokens, Jointed, Render, SymbolAt, Lexemes, StreamOf, ItemOk, KeepsToken;
    forall k | 0 <= k < |ys|
      ensures ItemOk(ys[k])
    {
      RespacedItemOk(s, ys, k);
    }
    if ys != [] {
      assert KeepsToken(s, 0, ys[0]);
      FirstKept(s, ys[0]);
    }
    RenderingStream(ys);
    RespacedLexemes(s, ys);
  }

  lemma FirstKept(s: string, y: Item)
    requires Lexes(s) && Readable(s, AllTokens(s, 0)) && KeepsToken(s, 0, y)
    ensures !y.sym.gap
  {
    hide AllTokens, ValidSymbol;
  }

  /** So it parses to the same query, or fails as the source does. */
  lemma RespacingKeepsOutcome(s: string, ys: seq<Item>, funcs: S.Registry)
    requires Lexes(s) && Respaced(s, ys) && (BlankEdge(s) <==> BlankEdge(Render(ys)))
    ensures match ParseText(s, funcs)
            case Ok(q) => ParseText(Render(ys), funcs) == Ok(q)
            case Err(_) => ParseText(Render(ys), funcs).Err?
  {
    hide AllTokens, Render, ParseText, StreamOf, Lexes, BlankEdge, Respaced;
    RespacingKeepsStream(s, ys);
    LayoutIndependence(s, Render(ys), funcs);
  }
}
