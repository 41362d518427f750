/** Short sources, character by character: shorthand names, the integers of indexes, and blank space. */
module Shorthands {
  import opened Common
  import opened Text
  import T = Tokens
  import opened Syntax
  import opened Grammar
  import opened Spelling
  import opened Printing
  import opened LexPrinted
  import PrintedChain
  import Layout
  import ParserSound

  // ---- Member name shorthands, section 2.5.1.1 of RFC 9535

  predicate NameFirstCode(v: int) {
    0x41 <= v <= 0x5A || v == 0x5F || 0x61 <= v <= 0x7A || 0x80 <= v <= 0xD7FF || 0xE000 <= v <= 0x10_FFFF
  }

  predicate NameCode(v: int) {
    NameFirstCode(v) || 0x30 <= v <= 0x39
  }

  predicate ShorthandName(n: string) {
    n != "" && NameFirstCode(n[0] as int) && forall i | 0 <= i < |n| :: NameCode(n[i] as int)
  }

  /** The query `$[n]`, or `$..[n]`. */
  function NameQuery(n: string, descendant: bool): PathQuery {
    PathQuery(true, [Segment([Name(n)], descendant)])
  }

  function Dots(descendant: bool): string {
    if descendant then ".." else "."
  }

  function NameItems(n: string, descendant: bool): seq<Item> {
    [Plain(T.Dollar)] + ([Plain(if descendant then T.DotDot else T.Dot)] + [Worded(T.NameKind(n), n)])
  }

  lemma ShorthandIsName(n: string)
    ensures ShorthandName(n) <==> T.IsName(n)
  {
  }

  lemma NameItemsChained(n: string, descendant: bool)
    requires T.IsName(n)
    ensures Chained(NameItems(n, descendant)) && !NameItems(n, descendant)[0].sym.gap
  {
    hide PrintedChain.Tight, ItemOk;
    var dot := if descendant then T.DotDot else T.Dot;
    var name := Worded(T.NameKind(n), n);
    NameOk(n);
    PrintedChain.LooseEmpty();
    PrintedChain.LooseTight([]);
    PrintedChain.ChainCons(name, []);
    assert [name] + [] == [name];
    PrintedChain.MarkOk(dot);
    DotJoined(n, dot);
    PrintedChain.ChainCons(Plain(dot), [name]);
    PrintedChain.SingleCons(T.Dollar, [Plain(dot)] + [name]);
    PrintedChain.LooseTight(NameItems(n, descendant));
    PrintedChain.TightChained(NameItems(n, descendant));
  }

  lemma NameOk(n: string)
    requires T.IsName(n)
    ensures ItemOk(Worded(T.NameKind(n), n))
  {
    hide LexesAs, T.IsName, T.NameKind;
    PrintedChain.NameLexes(n);
  }

  lemma DotJoined(n: string, dot: T.Kind)
    requires T.IsName(n) && dot in {T.Dot, T.DotDot}
    ensures Joined(Plain(dot), Worded(T.NameKind(n), n))
  {
    hide T.NameKind;
  }

  lemma NameItemsText(n: string, descendant: bool)
    ensures Render(NameItems(n, descendant)) == "$" + Dots(descendant) + n
  {
    hide Render;
    var dot := Plain(if descendant then T.DotDot else T.Dot);
    var name := Worded(T.NameKind(n), n);
    RenderCons(Plain(T.Dollar), [dot] + [name]);
    RenderCons(dot, [name]);
    RenderOne(name);
  }

  lemma NameEdges(n: string, descendant: bool)
    requires T.IsName(n)
    ensures !Layout.BlankEdge("$" + Dots(descendant) + n)
  {
    var s := "$" + Dots(descendant) + n;
    assert s[|s| - 1] == n[|n| - 1];
  }

  lemma NameSpelled(n: string, descendant: bool, ts: Stream)
    requires T.IsName(n) && StreamIs(ts, NameItems(n, descendant))
    ensures Spells(NameQuery(n, descendant), ts)
  {
    hide T.ValidSymbol, T.IsName, T.NameKind, SegmentsAt, SegmentAt;
    Layout.NameKinds(n);
    var xs := NameItems(n, descendant);
    assert ts[0] == xs[0].sym && ts[1] == xs[1].sym && ts[2] == xs[2].sym && |ts| == 4;
    OneShorthand(n, descendant, ts);
  }

  lemma OneShorthand(n: string, descendant: bool, ts: Stream)
    requires |ts| == 4 && ts[1].kind == (if descendant then T.DotDot else T.Dot) && !ts[2].gap
    requires ts[2].kind in {T.Ident, T.True, T.False, T.Null} && ts[2].text == n
    ensures SegmentsAt(NameQuery(n, descendant).segments, ts, 1, 3)
  {
    hide T.ValidSymbol;
    var ss := NameQuery(n, descendant).segments;
    assert ShorthandAt(ss[0].selectors, ts, 2, 3);
    assert SegmentAt(ss[0], ts, 1, 3);
    assert ss[1..] == [] && SegmentsAt([], ts, 3, 3);
  }

  lemma NameParses(n: string, descendant: bool, funcs: Registry)
    requires ShorthandName(n)
    ensures Layout.ParseText("$" + Dots(descendant) + n, funcs) == Ok(NameQuery(n, descendant))
  {
    hide Chained, Render, NameItems, StreamIs, Layout.ParseText, Layout.Lexes, Layout.StreamOf, Layout.BlankEdge;
    hide Spells, ShorthandName, T.IsName, WellTypedQuery, T.ValidSymbol;
    ShorthandIsName(n);
    NameItemsChained(n, descendant);
    NameItemsText(n, descendant);
    NameEdges(n, descendant);
    NameWellTyped(n, descendant, funcs);
    var s := Render(NameItems(n, descendant));
    RenderingLexes(NameItems(n, descendant));
    NameSpelled(n, descendant, Layout.StreamOf(s));
    ParserSound.SourceParsesIff(s, NameQuery(n, descendant), funcs);
  }

  lemma NameWellTyped(n: string, descendant: bool, funcs: Registry)
    ensures WellTypedQuery(NameQuery(n, descendant), funcs)
  {
    assert WellTypedSelectors([Name(n)], funcs);
    assert WellTypedSegment(Segment([Name(n)], descendant), funcs);
    assert WellTypedSegments([Segment([Name(n)], descendant)], funcs);
  }

  /** Any name of section 2.5.1.1 of RFC 9535 may follow `..`, keywords included. */
  lemma DescendantNameParses(n: string, funcs: Registry)
    requires ShorthandName(n)
    ensures Layout.ParseText("$.." + n, funcs) == Ok(PathQuery(true, [Segment([Name(n)], true)]))
  {
    hide Layout.ParseText, ShorthandName;
    NameParses(n, true, funcs);
    assert "$" + Dots(true) + n == "$.." + n;
  }

  /** A text behind `$.` is read as the member of that name if and only if it is such a name. */
  lemma DotNameParsesIff(n: string, funcs: Registry)
    ensures Layout.ParseText("$." + n, funcs) == Ok(PathQuery(true, [Segment([Name(n)], false)])) <==> ShorthandName(n)
  {
    hide Layout.ParseText, Layout.Lexes, Layout.StreamOf, Layout.BlankEdge, ShorthandName, Spells;
    if ShorthandName(n) {
      NameParses(n, false, funcs);
      assert "$" + Dots(false) + n == "$." + n;
    }
    var s := "$." + n;
    var q := NameQuery(n, false);
    ParserSound.SourceParsesIff(s, q, funcs);
    if Layout.ParseText(s, funcs) == Ok(q) {
      SecondIsDot(s);
      SpelledName(n, Layout.StreamOf(s));
      ShorthandIsName(n);
    }
  }

  lemma SecondIsDot(s: string)
    requires |s| >= 2 && s[0] == '$' && s[1] == '.' && Layout.Lexes(s)
    ensures |Layout.StreamOf(s)| >= 2 && Layout.StreamOf(s)[1].kind in {T.Dot, T.DotDot}
  {
    hide Layout.StreamOf, T.NextToken, T.AllTokens, T.ValidSymbol;
    FirstTokens(s);
    NotTheLast(s);
    Layout.TokenRead(s, 0, 0);
    Layout.TokenRead(s, 0, 1);
    StreamAt(s, 1);
  }

  lemma FirstTokens(s: string)
    requires |s| >= 2 && s[0] == '$' && s[1] == '.'
    ensures T.NextToken(s, 0) == T.Token(T.Dollar, 0, 1, "")
    ensures T.NextToken(s, 1).kind in {T.Dot, T.DotDot}
  {
    hide T.DecodeString, T.NameEnd;
  }

  lemma NotTheLast(s: string)
    requires T.NextToken(s, 0).kind == T.Dollar
    ensures |T.AllTokens(s, 0)| >= 2
  {
    hide T.NextToken;
  }

  /** A stream whose second lexeme is a dot spells a name query only with the name behind the dot. */
  lemma SpelledName(n: string, ts: Stream)
    requires Spells(NameQuery(n, false), ts) && |ts| >= 2 && ts[1].kind in {T.Dot, T.DotDot}
    ensures T.IsName(n)
  {
    hide T.IsName, T.NameKind;
    var ss := NameQuery(n, false).segments;
    OneSegment(ss, ts);
    assert ShorthandAt(ss[0].selectors, ts, 2, |ts| - 1);
    assert ts[2].text == n && T.ValidSymbol(ts[2]);
    Keywords();
  }

  lemma OneSegment(ss: seq<Segment>, ts: Stream)
    requires |ss| == 1 && |ts| > 1 && SegmentsAt(ss, ts, 1, |ts| - 1)
    ensures SegmentAt(ss[0], ts, 1, |ts| - 1)
  {
    hide SegmentAt, T.ValidSymbol;
    assert ss[1..] == [];
  }

  lemma Keywords()
    ensures T.IsName("true") && T.IsName("false") && T.IsName("null")
  {
  }

  // ---- Indexes, section 2.1 of RFC 9535

  function IndexItems(n: int): seq<Item> {
    [Plain(T.Dollar)] + ([Plain(T.LeftBracket)] + ([IntItem(n)] + [Plain(T.RightBracket)]))
  }

  lemma IndexLexes(n: int)
    ensures var s := "$[" + IntText(n) + "]"; Layout.Lexes(s) && StreamIs(Layout.StreamOf(s), IndexItems(n))
  {
    hide Render, StreamIs, Layout.Lexes, Layout.StreamOf, PrintedChain.Tight, PrintedChain.Loose, IntItem;
    PrintedChain.LooseEmpty();
    PrintedChain.LooseTight([]);
    PrintedChain.SingleCons(T.RightBracket, []);
    assert [Plain(T.RightBracket)] + [] == [Plain(T.RightBracket)];
    PrintedChain.IntCons(n, [Plain(T.RightBracket)]);
    PrintedChain.SingleCons(T.LeftBracket, [IntItem(n)] + [Plain(T.RightBracket)]);
    PrintedChain.LooseTight([Plain(T.LeftBracket)] + ([IntItem(n)] + [Plain(T.RightBracket)]));
    PrintedChain.SingleCons(T.Dollar, [Plain(T.LeftBracket)] + ([IntItem(n)] + [Plain(T.RightBracket)]));
    PrintedChain.LooseTight(IndexItems(n));
    PrintedChain.TightChained(IndexItems(n));
    IndexItemsText(n);
    RenderingLexes(IndexItems(n));
  }

  lemma IndexItemsText(n: int)
    ensures Render(IndexItems(n)) == "$[" + IntText(n) + "]"
  {
    hide Render, IntText;
    RenderCons(Plain(T.Dollar), [Plain(T.LeftBracket)] + ([IntItem(n)] + [Plain(T.RightBracket)]));
    RenderCons(Plain(T.LeftBracket), [IntItem(n)] + [Plain(T.RightBracket)]);
    RenderCons(IntItem(n), [Plain(T.RightBracket)]);
    RenderOne(Plain(T.RightBracket));
  }

  /** An index is accepted exactly within 2^53 - 1 on both sides, and read as itself. */
  lemma IndexParsesIff(n: int, funcs: Registry)
    ensures var r := Layout.ParseText("$[" + IntText(n) + "]", funcs);
            && (r.Ok? <==> -9007199254740991 <= n <= 9007199254740991)
            && (r.Ok? ==> r.value == PathQuery(true, [Segment([Index(n)], false)]))
  {
    hide IntText, IndexItems, StreamIs, Layout.Lexes, Layout.StreamOf, Layout.ParseText;
    hide T.AllTokens, T.ValidSymbol, ParseQuery;
    var s := "$[" + IntText(n) + "]";
    assert s[0] == '$' && s[|s| - 1] == ']' && !Layout.BlankEdge(s);
    IndexLexes(n);
    IndexParse(n, Layout.StreamOf(s), funcs);
    Layout.LayoutIndependence(s, s, funcs);
  }

  lemma IndexParse(n: int, ts: Stream, funcs: Registry)
    requires StreamIs(ts, IndexItems(n))
    ensures ParseQuery(ts, funcs)
         == if -9007199254740991 <= n <= 9007199254740991 then Done(PathQuery(true, [Segment([Index(n)], false)]), 4)
            else Failed(2)
  {
    hide IntText, IntValue, T.ValidSymbol, ParseSegments;
    var xs := IndexItems(n);
    IntTextValue(n);
    assert ts[0] == xs[0].sym && ts[1] == xs[1].sym && ts[2] == xs[2].sym && ts[3] == xs[3].sym;
    assert |ts| == 5 && ts[4].kind == T.EOF;
    assert ParseInteger(ts, 2) == if -MAX_JSON_INTEGER <= n <= MAX_JSON_INTEGER then Done(n, 3) else Failed(2);
    IndexSelector(n, ts, funcs);
    BracketsAlone(ts, funcs);
  }

  /** One bracketed segment and then the end. */
  lemma BracketsAlone(ts: Stream, funcs: Registry)
    requires |ts| > 2 && ts[1].kind == T.LeftBracket
    ensures var p := ParseBracketed(ts, 2, funcs);
            && (p.Failed? ==> ParseSegments(ts, 1, funcs) == Failed(p.at))
            && (p.Done? && ts[p.next].kind == T.EOF
                ==> ParseSegments(ts, 1, funcs) == Done([Segment(p.value, false)], p.next))
  {
    hide ParseBracketed, T.ValidSymbol;
    var p := ParseBracketed(ts, 2, funcs);
    if p.Done? && ts[p.next].kind == T.EOF {
      assert ParseSegments(ts, p.next, funcs) == Done([], p.next);
      assert [Segment(p.value, false)] + [] == [Segment(p.value, false)];
    }
  }

  lemma IndexSelector(n: int, ts: Stream, funcs: Registry)
    requires |ts| == 5 && ts[2].kind == T.Int && ts[3].kind == T.RightBracket
    requires ParseInteger(ts, 2) == if -MAX_JSON_INTEGER <= n <= MAX_JSON_INTEGER then Done(n, 3) else Failed(2)
    ensures ParseBracketed(ts, 2, funcs)
         == if -MAX_JSON_INTEGER <= n <= MAX_JSON_INTEGER then Done([Index(n)], 4) else Failed(2)
  {
    hide ParseInteger, T.ValidSymbol, ParseOr, ParseStep;
    assert ParseSelector(ts, 2, funcs).Done? ==> ParseSelector(ts, 2, funcs) == Done(Index(n), 3);
  }

  // ---- Blank space, section 2.1.1 of RFC 9535

  /** The lexer skips exactly space, tab, line feed and carriage return. */
  lemma BlankScalars(c: char)
    ensures T.NextToken([c], 0) == T.Token(T.EOF, 1, 1, "") <==> c as int in {0x20, 0x09, 0x0A, 0x0D}
  {
  }

  lemma BlankSkipped(s: string, i: nat)
    requires i < |s| && s[i] as int in {0x20, 0x09, 0x0A, 0x0D}
    ensures T.NextToken(s, i) == T.NextToken(s, i + 1)
  {
    hide T.TokenAt;
  }
}
