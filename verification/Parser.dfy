/**
 * The recursive-descent parser as it is written: a position that advances and is rewound, and the tracking of the
 * first token that keeps a query from being singular. Every method agrees with the function of Grammar.
 */
module Parsing {
  import opened Common
  import opened Text
  import T = Tokens
  import opened Syntax
  import opened Grammar
  import opened Layout
  import Lexing

  /** A parse result continued after `acc` has already been read. */
  function After<A>(acc: seq<A>, r: Parsed<seq<A>>): Parsed<seq<A>> {
    match r
    case Done(v, next) => Done(acc + v, next)
    case Failed(at) => Failed(at)
  }

  lemma AfterNothing<A>(r: Parsed<seq<A>>)
    ensures After([], r) == r
  {
    if r.Done? {
      assert [] + r.value == r.value;
    }
  }

  lemma AfterOne<A>(acc: seq<A>, a: A, r: Parsed<seq<A>>)
    ensures After(acc, After([a], r)) == After(acc + [a], r)
  {
    if r.Done? {
      assert acc + ([a] + r.value) == acc + [a] + r.value;
    }
  }

  class Parser {
    const src: string
    const tokens: seq<T.Token>
    const funcs: Registry
    ghost const stream: Stream
    var pos: nat
    var trackSingular: bool
    var firstNonSingularOffset: int

    /** The tokens are those of the source, and the lexemes those of the tokens. */
    ghost predicate Wired() {
      Lexes(src) && tokens == T.AllTokens(src, 0) && stream == StreamOf(src)
    }

    /** The position is on a token, at most on EOF. */
    ghost predicate Valid()
      reads this`pos
    {
      Wired() && |tokens| == |stream| && pos < |tokens|
    }

    /** Nothing read from here on can be the first offending token of a query being tracked. */
    ghost predicate Settled()
      reads this`trackSingular, this`firstNonSingularOffset
    {
      trackSingular ==> firstNonSingularOffset >= 0
    }

    /** The offset recorded after a query whose first offending lexeme is `k`. */
    ghost function Marked(first: int, k: Option<nat>): int
      requires k.Some? ==> k.value < |tokens|
      reads this`trackSingular
    {
      if trackSingular && first < 0 && k.Some? then tokens[k.value].start else first
    }

    /** The outcome and position of a method are those of the specification. */
    ghost predicate Agrees<A>(r: Outcome<A>, p: Parsed<A>)
      requires p.Failed? ==> p.at < |tokens|
      reads this`pos
    {
      match p
      case Done(v, next) => r == Ok(v) && pos == next
      case Failed(at) => r == Err(tokens[at].start)
    }

    constructor (src: string, tokens: seq<T.Token>, funcs: Registry)
      requires Lexes(src) && tokens == T.AllTokens(src, 0)
      ensures Valid() && this.src == src && this.tokens == tokens && this.funcs == funcs
      ensures pos == 0 && !trackSingular && firstNonSingularOffset == 0
    {
      this.src := src;
      this.tokens := tokens;
      this.funcs := funcs;
      this.stream := StreamOf(src);
      pos := 0;
      trackSingular := false;
      firstNonSingularOffset := 0;
    }

    // ---- The token cursor

    function Kind(): (k: T.Kind)
      requires Valid()
      reads this`pos
      ensures k == stream[pos].kind
    {
      tokens[pos].kind
    }

    predicate IsAtEnd()
      requires Valid()
      reads this`pos
    {
      Kind() == T.EOF
    }

    method Advance() returns (t: T.Token)
      requires Valid() && !IsAtEnd()
      modifies this`pos
      ensures Valid() && pos == old(pos) + 1 && t == tokens[old(pos)]
    {
      pos := pos + 1;
      t := tokens[pos - 1];
    }

    method Match(kind: T.Kind) returns (matched: bool)
      requires Valid() && kind != T.EOF
      modifies this`pos
      ensures Valid() && matched == (stream[old(pos)].kind == kind) && pos == if matched then old(pos) + 1 else old(pos)
    {
      if IsAtEnd() || Kind() != kind {
        return false;
      }
      var _ := Advance();
      return true;
    }

    predicate Check(kind: T.Kind)
      requires Valid()
      reads this`pos
    {
      !IsAtEnd() && Kind() == kind
    }

    /** The offset of a failure at the current token. */
    function ErrorHere(): (offset: nat)
      requires Valid()
      reads this`pos
      ensures offset == tokens[pos].start
    {
      tokens[pos].start
    }

    /** The text of a token as the syntax tree keeps it. */
    function Val(t: T.Token): string
      requires t.start <= t.end <= |src|
    {
      src[t.start..t.end]
    }

    lemma TokenFacts(k: nat)
      requires Valid() && k < |tokens|
      ensures tokens[k].kind == stream[k].kind && tokens[k].start <= tokens[k].end <= |src|
      ensures T.HasRawText(tokens[k].kind) ==> Val(tokens[k]) == stream[k].text
      ensures tokens[k].kind == T.String ==> tokens[k].value == stream[k].text
    {
      LexemeValid(src, k);
    }

    /** Blank space between the previous token and this one, where it is not allowed. */
    lemma GapFacts(k: nat)
      requires Valid() && 0 < k < |tokens|
      ensures stream[k].gap == (T.GapMatters(stream[k - 1].kind, stream[k].kind) && tokens[k - 1].end < tokens[k].start)
    {
      hide T.ValidSymbol, T.GapMatters, T.AllTokens;
    }

    method MarkNonSingular(offset: nat)
      modifies this`firstNonSingularOffset
      ensures firstNonSingularOffset
              == if trackSingular && old(firstNonSingularOffset) < 0 then offset else old(firstNonSingularOffset)
    {
      if trackSingular && firstNonSingularOffset < 0 {
        firstNonSingularOffset := offset;
      }
    }

    /** A token that, where it matches, keeps the query from being singular. */
    method MatchMarking(kind: T.Kind) returns (matched: bool)
      requires Valid() && kind != T.EOF
      modifies this`pos, this`firstNonSingularOffset
      ensures Valid() && matched == (stream[old(pos)].kind == kind) && pos == if matched then old(pos) + 1 else old(pos)
      ensures firstNonSingularOffset
              == if matched then Marked(old(firstNonSingularOffset), Some(old(pos))) else old(firstNonSingularOffset)
    {
      hide Wired, T.ValidSymbol;
      matched := Match(kind);
      if matched {
        MarkNonSingular(tokens[pos - 1].start);
      }
    }

    // ---- Queries

    method ParseFilterQuery() returns (r: Outcome<PathQuery>)
      requires Valid()
      modifies this
      ensures trackSingular == old(trackSingular)
      ensures Valid() && Agrees(r, Grammar.ParseFilterQuery(stream, old(pos), funcs))
      ensures r.Ok?
              ==> firstNonSingularOffset == Marked(old(firstNonSingularOffset), FirstNonSingular(stream, old(pos) + 1))
      ensures old(Settled()) ==> firstNonSingularOffset == old(firstNonSingularOffset)
      decreases |tokens| - pos, 1
    {
      hide Wired, T.ValidSymbol, Grammar.ParseSegments, FirstNonSingular;
      var isRoot := Match(T.Dollar);
      if !isRoot {
        var isCurrent := Match(T.At_);
        if !isCurrent {
          return Err(ErrorHere());
        }
      }
      var segments := ParseSegments();
      match segments {
        case Err(offset) => return Err(offset);
        case Ok(ss) => return Ok(PathQuery(isRoot, ss));
      }
    }

    method ParseSegments() returns (r: Outcome<seq<Segment>>)
      requires Valid()
      modifies this
      ensures trackSingular == old(trackSingular)
      ensures Valid() && Agrees(r, Grammar.ParseSegments(stream, old(pos), funcs))
      ensures r.Ok?
              ==> firstNonSingularOffset == Marked(old(firstNonSingularOffset), FirstNonSingular(stream, old(pos)))
      ensures old(Settled()) ==> firstNonSingularOffset == old(firstNonSingularOffset)
      decreases |tokens| - pos, 0
    {
      hide NextSegment, SegmentMark, Grammar.ParseSegments, Wired, T.ValidSymbol, FirstNonSingular;
      ghost var all := Grammar.ParseSegments(stream, pos, funcs);
      ghost var mark := Marked(firstNonSingularOffset, FirstNonSingular(stream, pos));
      var segments: seq<Segment> := [];
      AfterNothing(all);
      while true
        invariant Valid() && pos >= old(pos)
        invariant all == After(segments, Grammar.ParseSegments(stream, pos, funcs))
        invariant trackSingular == old(trackSingular)
        invariant mark == Marked(firstNonSingularOffset, FirstNonSingular(stream, pos))
        invariant old(Settled()) ==> firstNonSingularOffset == old(firstNonSingularOffset)
        decreases |tokens| - pos, 1
      {
        SegmentsStep(segments, stream, pos, funcs);
        MarkStep(pos);
        var s := ParseSegment();
        if s.Err? {
          return Err(s.offset);
        }
        if s.value.None? {
          return Ok(segments);
        }
        segments := segments + [s.value.value];
      }
    }

    /** One segment, or None where the query ends. */
    method ParseSegment() returns (r: Outcome<Option<Segment>>)
      requires Valid()
      modifies this
      ensures trackSingular == old(trackSingular)
      ensures Valid() && Agrees(r, NextSegment(stream, old(pos), funcs))
      ensures r.Ok? ==> firstNonSingularOffset == Marked(old(firstNonSingularOffset), SegmentMark(stream, old(pos)))
      ensures old(Settled()) ==> firstNonSingularOffset == old(firstNonSingularOffset)
      decreases |tokens| - pos, 0, 0
    {
      hide Grammar.ParseDescendant, Grammar.ParseBracketed, Grammar.ParseDotChild, Wired, T.ValidSymbol;
      hide MarkInBrackets, DotChildMark;
      var dotDot := Match(T.DotDot);
      if dotDot {
        var d := ParseDescendantSegment();
        match d {
          case Err(offset) => return Err(offset);
          case Ok(s) => return Ok(Some(s));
        }
      }
      var bracket := Match(T.LeftBracket);
      if bracket {
        var b := ParseBracketedSelection();
        match b {
          case Err(offset) => return Err(offset);
          case Ok(ss) => return Ok(Some(Segment(ss, false)));
        }
      }
      var dot := Match(T.Dot);
      if dot {
        var c := ParseDotChild();
        match c {
          case Err(offset) => return Err(offset);
          case Ok(s) => return Ok(Some(Segment([s], false)));
        }
      }
      return Ok(None);
    }

    /** The mark of a whole query, from the mark of its first segment and of the rest. */
    lemma MarkStep(i: nat)
      requires Valid() && i < |stream|
      ensures var p := NextSegment(stream, i, funcs);
              var m := SegmentMark(stream, i);
              p.Done? ==> FirstNonSingular(stream, i)
                          == if m.Some? then m else if p.value.None? then None else FirstNonSingular(stream, p.next)
      ensures var p := NextSegment(stream, i, funcs);
              p.Done? && p.value.None? ==> p.next == i && SegmentMark(stream, i).None?
    {
      hide Grammar.ParseDescendant, Grammar.ParseBracketed, Grammar.ParseDotChild, MarkInBrackets;
      hide DotChildMark, Wired, T.ValidSymbol;
      if stream[i].kind == T.LeftBracket && Grammar.ParseBracketed(stream, i + 1, funcs).Done? {
        MarkInBracketsExists(stream, i + 1, funcs);
      }
      if stream[i].kind == T.Dot && Grammar.ParseDotChild(stream, i + 1).Done? {
        DotChildMarkExists(stream, i + 1);
      }
    }

    method ParseDescendantSegment() returns (r: Outcome<Segment>)
      requires Valid() && pos > 0 && stream[pos - 1].kind == T.DotDot
      modifies this
      ensures trackSingular == old(trackSingular)
      ensures Valid() && Agrees(r, Grammar.ParseDescendant(stream, old(pos), funcs))
      ensures r.Ok? ==> firstNonSingularOffset == Marked(old(firstNonSingularOffset), Some(old(pos) - 1))
      ensures old(Settled()) ==> firstNonSingularOffset == old(firstNonSingularOffset)
      decreases |tokens| - pos, 9
    {
      hide Grammar.ParseDescendant, DescendantSelectors, Wired, T.ValidSymbol;
      DescendantStep(stream, pos, funcs);
      GapFacts(pos);
      MarkNonSingular(tokens[pos - 1].start);
      if !IsAtEnd() && tokens[pos - 1].end < tokens[pos].start {
        return Err(ErrorHere());
      }
      var ss := ParseDescendantSelectors();
      match ss {
        case Err(offset) => return Err(offset);
        case Ok(selectors) => return Ok(Segment(selectors, true));
      }
    }

    /** The selectors after `..`, which no blank space separates from it. */
    method ParseDescendantSelectors() returns (r: Outcome<seq<Selector>>)
      requires Valid() && Settled()
      modifies this
      ensures trackSingular == old(trackSingular) && firstNonSingularOffset == old(firstNonSingularOffset)
      ensures Valid() && Agrees(r, DescendantSelectors(stream, old(pos), funcs))
      decreases |tokens| - pos, 8, 1
    {
      hide Grammar.ParseBracketed, Wired, MarkInBrackets, T.ValidSymbol;
      TokenFacts(pos);
      var bracket := Match(T.LeftBracket);
      if bracket {
        r := ParseBracketedSelection();
        return;
      }
      var star := Match(T.Star);
      if star {
        return Ok([Wildcard]);
      }
      if IsMemberName(Kind()) {
        var t := Advance();
        return Ok([Name(Val(t))]);
      }
      return Err(ErrorHere());
    }

    method ParseDotChild() returns (r: Outcome<Selector>)
      requires Valid() && pos > 0 && stream[pos - 1].kind == T.Dot
      modifies this
      ensures trackSingular == old(trackSingular)
      ensures Valid() && Agrees(r, Grammar.ParseDotChild(stream, old(pos)))
      ensures r.Ok? ==> firstNonSingularOffset == Marked(old(firstNonSingularOffset), DotChildMark(stream, old(pos)))
      ensures old(Settled()) ==> firstNonSingularOffset == old(firstNonSingularOffset)
    {
      hide Wired, T.ValidSymbol;
      GapFacts(pos);
      if !IsAtEnd() && tokens[pos - 1].end < tokens[pos].start {
        return Err(ErrorHere());
      }
      r := ParseDotSelector();
    }

    /** The selector after `.`, which no blank space separates from it. */
    method ParseDotSelector() returns (r: Outcome<Selector>)
      requires Valid() && (stream[pos].gap ==> stream[pos].kind == T.EOF)
      modifies this`pos, this`firstNonSingularOffset
      ensures Valid() && Agrees(r, Grammar.ParseDotChild(stream, old(pos)))
      ensures r.Ok? ==> firstNonSingularOffset == Marked(old(firstNonSingularOffset), DotChildMark(stream, old(pos)))
      ensures old(Settled()) ==> firstNonSingularOffset == old(firstNonSingularOffset)
    {
      hide Wired, T.ValidSymbol;
      TokenFacts(pos);
      var star := MatchMarking(T.Star);
      if star {
        return Ok(Wildcard);
      }
      if IsMemberName(Kind()) {
        var t := Advance();
        return Ok(Name(Val(t)));
      }
      return Err(ErrorHere());
    }

    method ParseBracketedSelection() returns (r: Outcome<seq<Selector>>)
      requires Valid()
      modifies this
      ensures trackSingular == old(trackSingular)
      ensures Valid() && Agrees(r, Grammar.ParseBracketed(stream, old(pos), funcs))
      ensures r.Ok? ==> firstNonSingularOffset == Marked(old(firstNonSingularOffset), MarkInBrackets(stream, old(pos)))
      ensures old(Settled()) ==> firstNonSingularOffset == old(firstNonSingularOffset)
      decreases |tokens| - pos, 8
    {
      hide Wired, Grammar.ParseSelectors, MarkInBrackets, T.ValidSymbol;
      var selectors := ParseSelectorList();
      if selectors.Err? {
        return selectors;
      }
      var closed := Match(T.RightBracket);
      if !closed {
        return Err(ErrorHere());
      }
      return selectors;
    }

    /** The loop over the selectors; a second selector marks the comma before it. */
    method ParseSelectorList() returns (r: Outcome<seq<Selector>>)
      requires Valid()
      modifies this
      ensures trackSingular == old(trackSingular)
      ensures Valid() && Agrees(r, Grammar.ParseSelectors(stream, old(pos), funcs))
      ensures r.Ok? ==> firstNonSingularOffset == Marked(old(firstNonSingularOffset), MarkInBrackets(stream, old(pos)))
      ensures old(Settled()) ==> firstNonSingularOffset == old(firstNonSingularOffset)
      decreases |tokens| - pos, 7
    {
      hide Grammar.ParseSelector, Wired, SelectorMark, Grammar.ParseSelectors, MarkInBrackets, T.ValidSymbol;
      ghost var i := pos;
      ghost var all := Grammar.ParseSelectors(stream, i, funcs);
      ghost var mark := Marked(firstNonSingularOffset, MarkInBrackets(stream, i));
      var selectors: seq<Selector> := [];
      AfterNothing(all);
      while true
        invariant Valid() && pos >= i && (selectors == [] <==> pos == i)
        invariant all == After(selectors, Grammar.ParseSelectors(stream, pos, funcs))
        invariant trackSingular == old(trackSingular)
        invariant selectors == [] ==> firstNonSingularOffset == old(firstNonSingularOffset)
        invariant selectors != [] ==> Settled() && firstNonSingularOffset == mark
        invariant old(Settled()) ==> firstNonSingularOffset == old(firstNonSingularOffset)
        decreases |tokens| - pos
      {
        SelectorsStep(selectors, stream, pos, funcs);
        FirstSelectorMark(pos);
        var s := ParseSelector();
        if s.Err? {
          return Err(s.offset);
        }
        selectors := selectors + [s.value];
        var comma := MatchMarking(T.Comma);
        if !comma {
          return Ok(selectors);
        }
      }
    }

    /** The mark of a bracketed selection comes from its first selector, or else from the comma after it. */
    lemma FirstSelectorMark(i: nat)
      requires Valid() && i < |stream|
      ensures var p := Grammar.ParseSelector(stream, i, funcs);
              var m := SelectorMark(stream, i);
              p.Done? ==> MarkInBrackets(stream, i)
                          == if m.Some? then m else if stream[p.next].kind == T.Comma then Some(p.next) else None
    {
      hide Grammar.ParseSelector, SelectorMark, Wired, T.ValidSymbol;
      if Grammar.ParseSelector(stream, i, funcs).Done? {
        SelectorMarkExists(stream, i, funcs);
      }
    }

    method ParseSelector() returns (r: Outcome<Selector>)
      requires Valid()
      modifies this
      ensures trackSingular == old(trackSingular)
      ensures Valid() && Agrees(r, Grammar.ParseSelector(stream, old(pos), funcs))
      ensures r.Ok? ==> firstNonSingularOffset == Marked(old(firstNonSingularOffset), SelectorMark(stream, old(pos)))
      ensures old(Settled()) ==> firstNonSingularOffset == old(firstNonSingularOffset)
      decreases |tokens| - pos, 6
    {
      hide Grammar.ParseOr, Grammar.ParseIndexOrSlice, Grammar.ParseSlice, Wired, T.ValidSymbol;
      TokenFacts(pos);
      var star := MatchMarking(T.Star);
      if star {
        return Ok(Wildcard);
      }
      if Check(T.Question) {
        r := ParseFilterSelector();
        return;
      }
      r := ParseNameOrIndexOrSlice();
    }

    /** The selectors that start with a literal or a colon. */
    method ParseNameOrIndexOrSlice() returns (r: Outcome<Selector>)
      requires Valid() && stream[pos].kind != T.Star && stream[pos].kind != T.Question
      modifies this`pos, this`firstNonSingularOffset
      ensures Valid() && Agrees(r, Grammar.ParseSelector(stream, old(pos), funcs))
      ensures r.Ok? ==> firstNonSingularOffset == Marked(old(firstNonSingularOffset), SelectorMark(stream, old(pos)))
      ensures old(Settled()) ==> firstNonSingularOffset == old(firstNonSingularOffset)
    {
      hide Grammar.ParseOr, Grammar.ParseIndexOrSlice, Grammar.ParseSlice, Wired, T.ValidSymbol;
      TokenFacts(pos);
      if Check(T.String) {
        var t := Advance();
        return Ok(Name(t.value));
      }
      if Check(T.Int) {
        r := ParseIndexOrSlice();
        return;
      }
      var colon := MatchMarking(T.Colon);
      if colon {
        r := ParseSlice(None);
        return;
      }
      return Err(ErrorHere());
    }

    /** `?` and a logical expression. */
    method ParseFilterSelector() returns (r: Outcome<Selector>)
      requires Valid() && stream[pos].kind == T.Question
      modifies this
      ensures trackSingular == old(trackSingular)
      ensures Valid() && Agrees(r, Grammar.ParseSelector(stream, old(pos), funcs))
      ensures r.Ok? ==> firstNonSingularOffset == Marked(old(firstNonSingularOffset), SelectorMark(stream, old(pos)))
      ensures old(Settled()) ==> firstNonSingularOffset == old(firstNonSingularOffset)
      decreases |tokens| - pos, 5
    {
      hide Grammar.ParseOr, Grammar.ParseIndexOrSlice, Grammar.ParseSlice, Wired, T.ValidSymbol;
      var _ := MatchMarking(T.Question);
      var expr := ParseLogicalOr();
      match expr {
        case Err(offset) => return Err(offset);
        case Ok(or) => return Ok(Filter(or));
      }
    }

    method ParseJsonInteger() returns (r: Outcome<JsonInteger>)
      requires Valid() && stream[pos].kind == T.Int
      modifies this`pos
      ensures Valid() && pos == old(pos) + 1
      ensures match Grammar.ParseInteger(stream, old(pos))
              case Done(n, _) => r == Ok(n)
              case Failed(at) => r == Err(tokens[at].start)
    {
      hide Wired, T.ValidSymbol;
      TokenFacts(pos);
      IntTextAt(pos);
      var t := Advance();
      var text := Val(t);
      var n := IntValue(text);
      if n == 0 && text[0] == '-' {
        return Err(t.start);
      }
      if n < -MAX_JSON_INTEGER || n > MAX_JSON_INTEGER {
        return Err(t.start);
      }
      return Ok(n);
    }

    lemma IntTextAt(k: nat)
      requires Valid() && k < |stream| && stream[k].kind == T.Int
      ensures IsIntText(stream[k].text)
    {
    }

    method ParseIndexOrSlice() returns (r: Outcome<Selector>)
      requires Valid() && stream[pos].kind == T.Int
      modifies this`pos, this`firstNonSingularOffset
      ensures Valid() && Agrees(r, Grammar.ParseIndexOrSlice(stream, old(pos)))
      ensures r.Ok? ==> firstNonSingularOffset == Marked(old(firstNonSingularOffset), SelectorMark(stream, old(pos)))
      ensures old(Settled()) ==> firstNonSingularOffset == old(firstNonSingularOffset)
    {
      hide Wired, Grammar.ParseInteger, Grammar.ParseSlice, T.ValidSymbol;
      var start := ParseJsonInteger();
      if start.Err? {
        return Err(start.offset);
      }
      var colon := MatchMarking(T.Colon);
      if colon {
        r := ParseSlice(Some(start.value));
        return;
      }
      return Ok(Index(start.value));
    }

    method ParseSlice(start: Option<JsonInteger>) returns (r: Outcome<Selector>)
      requires Valid()
      modifies this`pos
      ensures Valid() && Agrees(r, Grammar.ParseSlice(stream, old(pos), start))
    {
      hide Wired, Grammar.ParseInteger, T.ValidSymbol;
      var end: Option<JsonInteger> := None;
      if Check(T.Int) {
        var n := ParseJsonInteger();
        if n.Err? {
          return Err(n.offset);
        }
        end := Some(n.value);
      }
      var step: Option<JsonInteger> := None;
      var colon := Match(T.Colon);
      if colon && Check(T.Int) {
        var n := ParseJsonInteger();
        if n.Err? {
          return Err(n.offset);
        }
        step := Some(n.value);
      }
      return Ok(Slice(SliceArgs(start, end, step)));
    }

    // ---- Filter expressions

    method ParseLogicalOr() returns (r: Outcome<LogicalOr>)
      requires Valid() && Settled()
      modifies this
      ensures trackSingular == old(trackSingular) && firstNonSingularOffset == old(firstNonSingularOffset)
      ensures Valid() && Agrees(r, Grammar.ParseOr(stream, old(pos), funcs))
      decreases |tokens| - pos, 5
    {
      hide Wired, Grammar.ParseOr, Grammar.ParseAnd, T.ValidSymbol;
      ghost var all := Grammar.ParseOr(stream, pos, funcs);
      var ands: LogicalOr := [];
      AfterNothing(all);
      while true
        invariant Valid() && pos >= old(pos) && (ands == [] <==> pos == old(pos))
        invariant trackSingular == old(trackSingular) && firstNonSingularOffset == old(firstNonSingularOffset)
        invariant all == After(ands, Grammar.ParseOr(stream, pos, funcs))
        decreases |tokens| - pos
      {
        OrStep(ands, stream, pos, funcs);
        var and := ParseLogicalAnd();
        if and.Err? {
          return Err(and.offset);
        }
        ands := ands + [LogicalAnd(and.value)];
        var or := Match(T.Or);
        if !or {
          return Ok(ands);
        }
      }
    }

    method ParseLogicalAnd() returns (r: Outcome<seq<BasicExpr>>)
      requires Valid() && Settled()
      modifies this
      ensures trackSingular == old(trackSingular) && firstNonSingularOffset == old(firstNonSingularOffset)
      ensures Valid() && Agrees(r, Grammar.ParseAnd(stream, old(pos), funcs))
      decreases |tokens| - pos, 4
    {
      hide Wired, Grammar.ParseAnd, Grammar.ParseBasic, T.ValidSymbol;
      ghost var all := Grammar.ParseAnd(stream, pos, funcs);
      var exprs: seq<BasicExpr> := [];
      AfterNothing(all);
      while true
        invariant Valid() && pos >= old(pos) && (exprs == [] <==> pos == old(pos))
        invariant trackSingular == old(trackSingular) && firstNonSingularOffset == old(firstNonSingularOffset)
        invariant all == After(exprs, Grammar.ParseAnd(stream, pos, funcs))
        decreases |tokens| - pos
      {
        AndStep(exprs, stream, pos, funcs);
        var expr := ParseBasicExpr();
        if expr.Err? {
          return Err(expr.offset);
        }
        exprs := exprs + [expr.value];
        var and := Match(T.And);
        if !and {
          return Ok(exprs);
        }
      }
    }

    method ParseBasicExpr() returns (r: Outcome<BasicExpr>)
      requires Valid() && Settled()
      modifies this
      ensures trackSingular == old(trackSingular) && firstNonSingularOffset == old(firstNonSingularOffset)
      ensures Valid() && Agrees(r, Grammar.ParseBasic(stream, old(pos), funcs))
      decreases |tokens| - pos, 3
    {
      hide Wired, Grammar.ParseNegation, Grammar.ParseGroup, Grammar.ParseCall, Grammar.ParseFilterQuery, T.ValidSymbol;
      hide Grammar.ParseLiteral, Grammar.ParseComparison, Singular, NonSingularAt;
      var not := Match(T.Not);
      if not {
        r := ParseNegation();
        return;
      }
      var open := Match(T.LeftParen);
      if open {
        var or := ParseGroup();
        match or {
          case Err(offset) => return Err(offset);
          case Ok(expr) => return Ok(Paren(expr));
        }
      }
      if Check(T.Ident) {
        var f := ParseFunctionExpr();
        if f.Err? {
          return Err(f.offset);
        }
        if IsCompOp(Kind()) {
          if f.value.result != ValueType {
            return Err(ErrorHere());
          }
          r := ParseComparison(FuncValue(f.value));
          return;
        }
        if f.value.result == ValueType {
          return Err(ErrorHere());
        }
        return Ok(Func(f.value));
      }
      if Check(T.At_) || Check(T.Dollar) {
        r := ParseTestOrComparison();
        return;
      }
      if IsLiteral(Kind()) {
        r := ParseComparisonFromLiteral();
        return;
      }
      return Err(ErrorHere());
    }

    /** What follows `!`. */
    method ParseNegation() returns (r: Outcome<BasicExpr>)
      requires Valid() && Settled()
      modifies this
      ensures trackSingular == old(trackSingular) && firstNonSingularOffset == old(firstNonSingularOffset)
      ensures Valid() && Agrees(r, Grammar.ParseNegation(stream, old(pos), funcs))
      decreases |tokens| - pos, 3
    {
      hide Wired, Grammar.ParseGroup, Grammar.ParseCall, Grammar.ParseFilterQuery, T.ValidSymbol;
      var open := Match(T.LeftParen);
      if open {
        var or := ParseGroup();
        match or {
          case Err(offset) => return Err(offset);
          case Ok(expr) => return Ok(NotParen(expr));
        }
      }
      if Check(T.Ident) {
        var f := ParseFunctionExpr();
        if f.Err? {
          return Err(f.offset);
        }
        if f.value.result == ValueType {
          return Err(ErrorHere());
        }
        return Ok(NegFunc(f.value));
      }
      var q := ParseFilterQuery();
      match q {
        case Err(offset) => return Err(offset);
        case Ok(query) => return Ok(NonExist(query));
      }
    }

    /** What follows `(`, up to and including `)`. */
    method ParseGroup() returns (r: Outcome<LogicalOr>)
      requires Valid() && Settled()
      modifies this
      ensures trackSingular == old(trackSingular) && firstNonSingularOffset == old(firstNonSingularOffset)
      ensures Valid() && Agrees(r, Grammar.ParseGroup(stream, old(pos), funcs))
      decreases |tokens| - pos, 6
    {
      hide Wired, Grammar.ParseOr, T.ValidSymbol;
      var or := ParseLogicalOr();
      if or.Err? {
        return or;
      }
      var closed := Match(T.RightParen);
      if !closed {
        return Err(ErrorHere());
      }
      return or;
    }

    method ParseTestOrComparison() returns (r: Outcome<BasicExpr>)
      requires Valid() && Settled() && (stream[pos].kind == T.At_ || stream[pos].kind == T.Dollar)
      modifies this
      ensures trackSingular == old(trackSingular) && firstNonSingularOffset == old(firstNonSingularOffset)
      ensures Valid() && Agrees(r, Grammar.ParseBasic(stream, old(pos), funcs))
      decreases |tokens| - pos, 2, 1
    {
      hide Wired, Grammar.ParseFilterQuery, Grammar.ParseComparison, Singular, FirstNonSingular, T.ValidSymbol;
      var q, firstNonSingular := ParseFilterQueryWithSingularOffset();
      if q.Err? {
        return Err(q.offset);
      }
      if IsCompOp(Kind()) {
        if firstNonSingular >= 0 || !Singular(q.value) {
          if firstNonSingular < 0 {
            assert false;
          }
          return Err(firstNonSingular);
        }
        r := ParseComparison(QueryValue(q.value));
        return;
      }
      return Ok(Exist(q.value));
    }

    method ParseComparisonFromLiteral() returns (r: Outcome<BasicExpr>)
      requires Valid() && Settled() && IsLiteral(stream[pos].kind)
      modifies this
      ensures trackSingular == old(trackSingular) && firstNonSingularOffset == old(firstNonSingularOffset)
      ensures Valid() && Agrees(r, Grammar.ParseBasic(stream, old(pos), funcs))
      decreases |tokens| - pos, 2, 1
    {
      hide Wired, Grammar.ParseLiteral, Grammar.ParseComparison, T.ValidSymbol;
      var left := ParseLiteralValue();
      if left.Err? {
        return Err(left.offset);
      }
      if !IsCompOp(Kind()) {
        return Err(ErrorHere());
      }
      r := ParseComparison(LiteralValue(left.value));
    }

    /** The operator and the right operand. */
    method ParseComparison(left: CompValue) returns (r: Outcome<BasicExpr>)
      requires Valid() && Settled() && IsCompOp(stream[pos].kind)
      modifies this
      ensures trackSingular == old(trackSingular) && firstNonSingularOffset == old(firstNonSingularOffset)
      ensures Valid() && Agrees(r, Grammar.ParseComparison(stream, old(pos), left, funcs))
      decreases |tokens| - pos, 3
    {
      hide Wired, Grammar.ParseCompValue, T.ValidSymbol;
      var op := ParseCompOp();
      var right := ParseCompValue();
      match right {
        case Err(offset) => return Err(offset);
        case Ok(v) => return Ok(Comp(left, op, v));
      }
    }

    method ParseCompOp() returns (op: CompOp)
      requires Valid() && IsCompOp(stream[pos].kind)
      modifies this`pos
      ensures Valid() && pos == old(pos) + 1 && op == CompOpOf(stream[old(pos)].kind)
    {
      hide Wired, T.ValidSymbol;
      var equal := Match(T.Equal);
      if equal {
        return Equal;
      }
      var notEqual := Match(T.NotEqual);
      if notEqual {
        return NotEqual;
      }
      var less := Match(T.Less);
      if less {
        return Less;
      }
      var lessEqual := Match(T.LessEqual);
      if lessEqual {
        return LessEqual;
      }
      var greater := Match(T.Greater);
      if greater {
        return Greater;
      }
      var greaterEqual := Match(T.GreaterEqual);
      return GreaterEqual;
    }

    /** Parse a query while tracking its first offending token; the outer tracking is put aside and restored. */
    method ParseFilterQueryWithSingularOffset() returns (q: Outcome<PathQuery>, firstNonSingular: int)
      requires Valid()
      modifies this
      ensures trackSingular == old(trackSingular) && firstNonSingularOffset == old(firstNonSingularOffset)
      ensures Valid() && Agrees(q, Grammar.ParseFilterQuery(stream, old(pos), funcs))
      ensures q.Ok? ==> old(pos) + 1 < |stream| && (firstNonSingular >= 0 <==> !Singular(q.value))
      ensures q.Ok? ==> match FirstNonSingular(stream, old(pos) + 1)
                        case None => firstNonSingular == -1
                        case Some(k) => firstNonSingular == tokens[k].start
      decreases |tokens| - pos, 2, 0
    {
      hide Wired, FirstNonSingular, T.ValidSymbol;
      var wasTracking, previousOffset := trackSingular, firstNonSingularOffset;
      QuerySingularity(pos);
      trackSingular := true;
      firstNonSingularOffset := -1;
      q := ParseFilterQuery();
      firstNonSingular := firstNonSingularOffset;
      trackSingular := wasTracking;
      firstNonSingularOffset := previousOffset;
    }

    /** A parsed query has an offending lexeme exactly when it is not singular. */
    lemma QuerySingularity(i: nat)
      requires Valid() && i < |stream|
      ensures Grammar.ParseFilterQuery(stream, i, funcs).Done? ==>
                && i + 1 < |stream|
                && (FirstNonSingular(stream, i + 1).None?
                  <==> Singular(Grammar.ParseFilterQuery(stream, i, funcs).value))
    {
      hide Wired, FirstNonSingular, Grammar.ParseSegments, T.ValidSymbol;
      if Grammar.ParseFilterQuery(stream, i, funcs).Done? {
        FirstNonSingularExists(stream, i + 1, funcs);
      }
    }

    method ParseCompValue() returns (r: Outcome<CompValue>)
      requires Valid() && Settled()
      modifies this
      ensures trackSingular == old(trackSingular) && firstNonSingularOffset == old(firstNonSingularOffset)
      ensures Valid() && Agrees(r, Grammar.ParseCompValue(stream, old(pos), funcs))
      decreases |tokens| - pos, 3
    {
      hide Wired, Grammar.ParseFilterQuery, Grammar.ParseCall, Grammar.ParseLiteral, Singular;
      hide FirstNonSingular, T.ValidSymbol;
      if Check(T.Ident) {
        var f := ParseFunctionExpr();
        if f.Err? {
          return Err(f.offset);
        }
        if f.value.result != ValueType {
          return Err(ErrorHere());
        }
        return Ok(FuncValue(f.value));
      }
      if Check(T.At_) || Check(T.Dollar) {
        var q, firstNonSingular := ParseFilterQueryWithSingularOffset();
        if q.Err? {
          return Err(q.offset);
        }
        if firstNonSingular >= 0 || !Singular(q.value) {
          if firstNonSingular < 0 {
            assert false;
          }
          return Err(firstNonSingular);
        }
        return Ok(QueryValue(q.value));
      }
      var l := ParseLiteralValue();
      match l {
        case Err(offset) => return Err(offset);
        case Ok(v) => return Ok(LiteralValue(v));
      }
    }

    method ParseLiteralValue() returns (r: Outcome<Literal>)
      requires Valid()
      modifies this`pos
      ensures Valid() && Agrees(r, Grammar.ParseLiteral(stream, old(pos)))
    {
      hide Wired;
      TokenFacts(pos);
      var string_ := Match(T.String);
      if string_ {
        return Ok(StringLiteral(tokens[pos - 1].value));
      }
      if Check(T.Int) || Check(T.Number) {
        var t := Advance();
        return Ok(NumberLiteral(Val(t)));
      }
      r := ParseKeyword();
    }

    /** The literals that are names. */
    method ParseKeyword() returns (r: Outcome<Literal>)
      requires Valid() && stream[pos].kind != T.String && stream[pos].kind != T.Int && stream[pos].kind != T.Number
      modifies this`pos
      ensures Valid() && Agrees(r, Grammar.ParseLiteral(stream, old(pos)))
    {
      hide Wired, T.ValidSymbol;
      var true_ := Match(T.True);
      if true_ {
        return Ok(BoolLiteral(true));
      }
      var false_ := Match(T.False);
      if false_ {
        return Ok(BoolLiteral(false));
      }
      var null_ := Match(T.Null);
      if null_ {
        return Ok(NullLiteral);
      }
      return Err(ErrorHere());
    }

    // ---- Function calls

    /** A name that blank space or anything but a parenthesis follows is no call. */
    lemma CallHead(k: nat)
      requires Valid() && k + 1 < |stream| && stream[k].kind == T.Ident
      ensures stream[k + 1].kind == T.LeftParen ==> stream[k + 1].gap == (tokens[k].end < tokens[k + 1].start)
      ensures stream[k + 1].gap || stream[k + 1].kind != T.LeftParen
              ==> Grammar.ParseCall(stream, k, funcs) == Failed(k + 1)
    {
      hide Wired, Grammar.ParseCall, T.ValidSymbol;
      CallNeedsParenthesis(stream, k, funcs);
      GapFacts(k + 1);
    }

    method ParseFunctionExpr() returns (r: Outcome<FuncExpr>)
      requires Valid() && Settled() && stream[pos].kind == T.Ident
      modifies this
      ensures trackSingular == old(trackSingular) && firstNonSingularOffset == old(firstNonSingularOffset)
      ensures Valid() && Agrees(r, Grammar.ParseCall(stream, old(pos), funcs))
      decreases |tokens| - pos, 1
    {
      hide Wired, ArgumentList, Grammar.ParseCall, Grammar.CompileArgs, T.ValidSymbol, T.GapMatters;
      var i := pos;
      TokenFacts(pos);
      TokenFacts(pos + 1);
      CallHead(pos);
      var nameToken := Advance();
      var name := Val(nameToken);
      if !IsAtEnd() && nameToken.end < tokens[pos].start {
        return Err(ErrorHere());
      }
      var open := Match(T.LeftParen);
      if !open {
        return Err(ErrorHere());
      }
      r := ParseCallTail(name, i);
    }

    /** A call from behind its opening parenthesis; its name is the token at `i`. */
    method ParseCallTail(name: string, i: nat) returns (r: Outcome<FuncExpr>)
      requires Valid() && Settled() && i + 2 == pos && stream[i].kind == T.Ident && stream[i].text == name
      requires !stream[i + 1].gap && stream[i + 1].kind == T.LeftParen
      modifies this
      ensures trackSingular == old(trackSingular) && firstNonSingularOffset == old(firstNonSingularOffset)
      ensures Valid() && Agrees(r, Grammar.ParseCall(stream, i, funcs))
      decreases |tokens| - pos, 10
    {
      hide Wired, ArgumentList, Grammar.ParseCall, Grammar.CompileArgs, T.ValidSymbol;
      CallStep(stream, i, funcs);
      if name !in funcs {
        return Err(tokens[i].start);
      }
      var sig := funcs[name];
      var raws := ParseArgumentList(sig.params, i);
      if raws.Err? {
        return Err(raws.offset);
      }
      var args := CompileArguments(sig.params, raws.value);
      match args {
        case None => return Err(tokens[i].start);
        case Some(compiled) => return Ok(FuncExpr(name, sig.result, compiled));
      }
    }

    /** What follows the opening parenthesis of a call, up to and including the closing one. */
    method ParseArgumentList(params: seq<FuncType>, name: nat) returns (r: Outcome<seq<RawArg>>)
      requires Valid() && Settled() && name < pos
      modifies this
      ensures trackSingular == old(trackSingular) && firstNonSingularOffset == old(firstNonSingularOffset)
      ensures Valid() && Agrees(r, ArgumentList(stream, old(pos), params, name, funcs))
      decreases |tokens| - pos, 9
    {
      hide Wired, Grammar.ParseArgs, T.ValidSymbol;
      var raws: seq<RawArg> := [];
      if !Check(T.RightParen) {
        var args := ParseFunctionArgs(params, name);
        if args.Err? {
          return args;
        }
        raws := args.value;
      }
      var closed := Match(T.RightParen);
      if !closed {
        return Err(ErrorHere());
      }
      return Ok(raws);
    }

    /** The loop over the arguments of a call whose name is the token at `name`. */
    method ParseFunctionArgs(params: seq<FuncType>, name: nat) returns (r: Outcome<seq<RawArg>>)
      requires Valid() && Settled() && name < pos
      modifies this
      ensures trackSingular == old(trackSingular) && firstNonSingularOffset == old(firstNonSingularOffset)
      ensures Valid() && Agrees(r, Grammar.ParseArgs(stream, old(pos), params, 0, name, funcs))
      decreases |tokens| - pos, 8
    {
      hide Wired, Grammar.ParseArgs, Grammar.ParseArg, T.ValidSymbol;
      ghost var all := Grammar.ParseArgs(stream, pos, params, 0, name, funcs);
      var args: seq<RawArg> := [];
      AfterNothing(all);
      while true
        invariant Valid() && pos >= old(pos) && (args == [] <==> pos == old(pos))
        invariant trackSingular == old(trackSingular) && firstNonSingularOffset == old(firstNonSingularOffset)
        invariant all == After(args, Grammar.ParseArgs(stream, pos, params, |args|, name, funcs))
        decreases |tokens| - pos
      {
        ArgsStep(args, stream, pos, params, name, funcs);
        if |args| >= |params| {
          return Err(tokens[name].start);
        }
        var arg := ParseFunctionArg(params[|args|]);
        if arg.Err? {
          return Err(arg.offset);
        }
        args := args + [arg.value];
        var comma := Match(T.Comma);
        if !comma {
          return Ok(args);
        }
      }
    }

    /** One argument; the position is rewound when a query or call turns out to begin a logical expression. */
    method ParseFunctionArg(target: FuncType) returns (r: Outcome<RawArg>)
      requires Valid() && Settled()
      modifies this
      ensures trackSingular == old(trackSingular) && firstNonSingularOffset == old(firstNonSingularOffset)
      ensures Valid() && Agrees(r, Grammar.ParseArg(stream, old(pos), target, funcs))
      decreases |tokens| - pos, 7
    {
      hide Wired, Grammar.ParseOr, Grammar.ParseFilterQuery, Grammar.ParseCall, Grammar.ParseLiteral, T.ValidSymbol;
      hide Grammar.ParseLogicalArg, StartsExplicitLogical, ContinuesLogical;
      var explicit_ := StartsExplicitLogicalFunctionArgument();
      if explicit_ {
        r := ParseLogicalArgument();
        return;
      }
      if Check(T.At_) || Check(T.Dollar) {
        if target == LogicalType {
          r := ParseLogicalArgument();
          return;
        }
        var start := pos;
        var q := ParseFilterQuery();
        if q.Err? {
          return Err(q.offset);
        }
        if ContinuesLogical(Kind()) {
          pos := start;
          r := ParseLogicalArgument();
          return;
        }
        return Ok(RawQuery(q.value));
      }
      if Check(T.Ident) {
        if target == LogicalType {
          r := ParseLogicalArgument();
          return;
        }
        var start := pos;
        var f := ParseFunctionExpr();
        if f.Err? {
          return Err(f.offset);
        }
        if ContinuesLogical(Kind()) {
          pos := start;
          r := ParseLogicalArgument();
          return;
        }
        return Ok(RawCall(f.value));
      }
      var l := ParseLiteralValue();
      match l {
        case Err(offset) => return Err(offset);
        case Ok(v) => return Ok(RawLiteral(v));
      }
    }

    method ParseLogicalArgument() returns (r: Outcome<RawArg>)
      requires Valid() && Settled()
      modifies this
      ensures trackSingular == old(trackSingular) && firstNonSingularOffset == old(firstNonSingularOffset)
      ensures Valid() && Agrees(r, Grammar.ParseLogicalArg(stream, old(pos), funcs))
      decreases |tokens| - pos, 6
    {
      hide Wired, Grammar.ParseOr, T.ValidSymbol;
      var or := ParseLogicalOr();
      match or {
        case Err(offset) => return Err(offset);
        case Ok(expr) => return Ok(RawLogical(expr));
      }
    }

    method StartsExplicitLogicalFunctionArgument() returns (b: bool)
      requires Valid()
      ensures b == StartsExplicitLogical(stream, pos)
    {
      hide Wired, T.ValidSymbol;
      if Kind() == T.Not || Kind() == T.LeftParen {
        return true;
      }
      if IsLiteral(Kind()) {
        TokenFacts(pos + 1);
        return IsCompOp(tokens[pos + 1].kind);
      }
      return false;
    }

    // ---- A whole source

    /** The outcome of the source, from its edges and the parse of its lexemes. */
    lemma TextOutcome()
      requires Valid()
      ensures ParseText(src, funcs)
           == if |src| > 0 && T.IsBlank(src[0]) then Err(0)
              else if |src| > 0 && T.IsBlank(src[|src| - 1]) then Err(|src| - 1)
              else match Grammar.ParseQuery(stream, funcs)
                   case Done(q, _) => Ok(q)
                   case Failed(at) => Err(tokens[at].start)
    {
      hide Grammar.ParseQuery, T.AllTokens, T.IsBlank, T.ValidSymbol, Readable;
    }

    method Parse() returns (r: Outcome<PathQuery>)
      requires Valid() && pos == 0 && !trackSingular
      modifies this
      ensures r == ParseText(src, funcs)
    {
      hide Grammar.ParseFilterQuery, Wired, ParseText, T.IsBlank, T.ValidSymbol;
      TextOutcome();
      if |src| > 0 && T.IsBlank(src[0]) {
        return Err(0);
      }
      if |src| > 0 && T.IsBlank(src[|src| - 1]) {
        return Err(|src| - 1);
      }
      if !Check(T.Dollar) {
        return Err(ErrorHere());
      }
      var q := ParseFilterQuery();
      if q.Err? {
        return q;
      }
      if !IsAtEnd() {
        return Err(ErrorHere());
      }
      return q;
    }
  }

  /** The segment at `i`, or None where the query ends. */
  ghost function NextSegment(ts: Stream, i: nat, funcs: Registry): (r: Parsed<Option<Segment>>)
    requires i < |ts|
    ensures match r case Done(s, next) => i <= next < |ts| && (s.Some? ==> i < next) case Failed(at) => at < |ts|
  {
    match ts[i].kind
    case DotDot =>
      var (s, j) :- Grammar.ParseDescendant(ts, i + 1, funcs);
      Done(Some(s), j)
    case LeftBracket =>
      var (ss, j) :- Grammar.ParseBracketed(ts, i + 1, funcs);
      Done(Some(Segment(ss, false)), j)
    case Dot =>
      var (s, j) :- Grammar.ParseDotChild(ts, i + 1);
      Done(Some(Segment([s], false)), j)
    case _ => Done(None, i)
  }

  /** The first offending lexeme of the segment at `i`. */
  ghost function SegmentMark(ts: Stream, i: nat): (k: Option<nat>)
    requires i < |ts|
    ensures k.Some? ==> k.value < |ts|
  {
    match ts[i].kind
    case DotDot => Some(i)
    case LeftBracket => MarkInBrackets(ts, i + 1)
    case Dot => DotChildMark(ts, i + 1)
    case _ => None
  }

  /** What follows `..`, once blank space is ruled out. */
  ghost function DescendantSelectors(ts: Stream, i: nat, funcs: Registry): (r: Parsed<seq<Selector>>)
    requires i < |ts|
    ensures Advances(r, i, ts)
  {
    if ts[i].kind == T.LeftBracket then Grammar.ParseBracketed(ts, i + 1, funcs)
    else if ts[i].kind == T.Star then Done([Wildcard], i + 1)
    else if IsMemberName(ts[i].kind) then Done([Name(ts[i].text)], i + 1)
    else Failed(i)
  }

  lemma DescendantStep(ts: Stream, i: nat, funcs: Registry)
    requires i < |ts|
    ensures Grammar.ParseDescendant(ts, i, funcs)
            == var p := DescendantSelectors(ts, i, funcs);
               if ts[i].gap then Failed(i) else if p.Failed? then Failed(p.at) else Done(Segment(p.value, true), p.next)
    ensures ts[i].kind == T.EOF ==> DescendantSelectors(ts, i, funcs) == Failed(i)
  {
    hide Grammar.ParseBracketed;
  }

  ghost function ArgumentList(ts: Stream, i: nat, params: seq<FuncType>, name: nat,
          funcs: Registry): (r: Parsed<seq<RawArg>>)
    requires i < |ts| && name < i
    ensures Advances(r, i, ts)
  {
    var (raws, j) :-
      if ts[i].kind == T.RightParen then Done([], i) else Grammar.ParseArgs(ts, i, params, 0, name, funcs);
    if ts[j].kind == T.RightParen then Done(raws, j + 1) else Failed(j)
  }

  lemma CallNeedsParenthesis(ts: Stream, i: nat, funcs: Registry)
    requires i + 1 < |ts| && ts[i].kind == T.Ident
    ensures ts[i + 1].gap || ts[i + 1].kind != T.LeftParen ==> Grammar.ParseCall(ts, i, funcs) == Failed(i + 1)
  {
    hide Grammar.ParseArgs, CompileArgs;
  }

  lemma CallStep(ts: Stream, i: nat, funcs: Registry)
    requires i < |ts| && ts[i].kind == T.Ident
    ensures Grammar.ParseCall(ts, i, funcs)
            == if ts[i + 1].gap || ts[i + 1].kind != T.LeftParen then Failed(i + 1)
               else if ts[i].text !in funcs then Failed(i)
               else
                 var sig := funcs[ts[i].text];
                 var p := ArgumentList(ts, i + 2, sig.params, i, funcs);
                 if p.Failed? then Failed(p.at)
                 else if CompileArgs(sig.params, p.value).None? then Failed(i)
                 else Done(FuncExpr(ts[i].text, sig.result, CompileArgs(sig.params, p.value).value), p.next)
  {
    hide Grammar.ParseArgs, CompileArgs;
  }

  /** One more segment moves from the rest of the parse to what has been read. */
  lemma SegmentsStep(acc: seq<Segment>, ts: Stream, i: nat, funcs: Registry)
    requires i < |ts|
    ensures var p := NextSegment(ts, i, funcs);
            After(acc, Grammar.ParseSegments(ts, i, funcs))
            == if p.Failed? then Failed(p.at)
               else if p.value.None? then Done(acc, i)
               else After(acc + [p.value.value], Grammar.ParseSegments(ts, p.next, funcs))
  {
    hide Grammar.ParseDescendant, Grammar.ParseBracketed, Grammar.ParseDotChild;
    assert acc + [] == acc;
    var p := NextSegment(ts, i, funcs);
    if p.Done? && p.value.Some? {
      AfterOne(acc, p.value.value, Grammar.ParseSegments(ts, p.next, funcs));
    }
  }

  lemma SelectorsStep(acc: seq<Selector>, ts: Stream, i: nat, funcs: Registry)
    requires i < |ts|
    ensures var p := Grammar.ParseSelector(ts, i, funcs);
            After(acc, Grammar.ParseSelectors(ts, i, funcs))
            == if p.Failed? then Failed(p.at)
               else if ts[p.next].kind == T.Comma then
                 After(acc + [p.value], Grammar.ParseSelectors(ts, p.next + 1, funcs))
               else Done(acc + [p.value], p.next)
  {
    hide Grammar.ParseSelector;
    var p := Grammar.ParseSelector(ts, i, funcs);
    if p.Done? && ts[p.next].kind == T.Comma {
      AfterOne(acc, p.value, Grammar.ParseSelectors(ts, p.next + 1, funcs));
    }
  }

  lemma OrStep(acc: LogicalOr, ts: Stream, i: nat, funcs: Registry)
    requires i < |ts|
    ensures var p := Grammar.ParseAnd(ts, i, funcs);
            After(acc, Grammar.ParseOr(ts, i, funcs))
            == if p.Failed? then Failed(p.at)
               else if ts[p.next].kind == T.Or then
                 After(acc + [LogicalAnd(p.value)], Grammar.ParseOr(ts, p.next + 1, funcs))
               else Done(acc + [LogicalAnd(p.value)], p.next)
  {
    hide Grammar.ParseAnd;
    var p := Grammar.ParseAnd(ts, i, funcs);
    if p.Done? && ts[p.next].kind == T.Or {
      AfterOne(acc, LogicalAnd(p.value), Grammar.ParseOr(ts, p.next + 1, funcs));
    }
  }

  /** The terms `acc` and then `p`, whatever the rest of the conjunction is. */
  function AfterTerm(acc: seq<BasicExpr>, p: Parsed<BasicExpr>, ts: Stream, funcs: Registry): Parsed<seq<BasicExpr>>
    requires p.Done? ==> p.next < |ts|
  {
    if p.Failed? then Failed(p.at)
    else if ts[p.next].kind == T.And then After(acc + [p.value], Grammar.ParseAnd(ts, p.next + 1, funcs))
    else Done(acc + [p.value], p.next)
  }

  lemma AndStep(acc: seq<BasicExpr>, ts: Stream, i: nat, funcs: Registry)
    requires i < |ts|
    ensures After(acc, Grammar.ParseAnd(ts, i, funcs)) == AfterTerm(acc, Grammar.ParseBasic(ts, i, funcs), ts, funcs)
  {
    hide Grammar.ParseBasic;
    var p := Grammar.ParseBasic(ts, i, funcs);
    if p.Done? && ts[p.next].kind == T.And {
      AfterOne(acc, p.value, Grammar.ParseAnd(ts, p.next + 1, funcs));
    }
  }

  lemma ArgsStep(acc: seq<RawArg>, ts: Stream, i: nat, params: seq<FuncType>, name: nat, funcs: Registry)
    requires i < |ts| && name < i
    ensures |acc| >= |params| ==> After(acc, Grammar.ParseArgs(ts, i, params, |acc|, name, funcs)) == Failed(name)
    ensures |acc| < |params| ==>
              var p := Grammar.ParseArg(ts, i, params[|acc|], funcs);
              After(acc, Grammar.ParseArgs(ts, i, params, |acc|, name, funcs))
              == if p.Failed? then Failed(p.at)
                 else if ts[p.next].kind == T.Comma then
                   After(acc + [p.value], Grammar.ParseArgs(ts, p.next + 1, params, |acc| + 1, name, funcs))
                 else Done(acc + [p.value], p.next)
  {
    hide Grammar.ParseArg;
    if |acc| < |params| {
      var p := Grammar.ParseArg(ts, i, params[|acc|], funcs);
      if p.Done? && ts[p.next].kind == T.Comma {
        AfterOne(acc, p.value, Grammar.ParseArgs(ts, p.next + 1, params, |acc| + 1, name, funcs));
      }
    }
  }

  function AfterArgs(done: seq<FuncArg>, rest: Option<seq<FuncArg>>): Option<seq<FuncArg>> {
    if rest.None? then None else Some(done + rest.value)
  }

  lemma CompileStep(done: seq<FuncArg>, params: seq<FuncType>, raws: seq<RawArg>, i: nat)
    requires i < |params| == |raws|
    ensures var arg := CompileArg(params[i], raws[i]);
            AfterArgs(done, CompileArgs(params[i..], raws[i..]))
            == if arg.None? then None else AfterArgs(done + [arg.value], CompileArgs(params[i + 1..], raws[i + 1..]))
  {
    hide CompileArg;
    assert params[i..][1..] == params[i + 1..] && raws[i..][1..] == raws[i + 1..];
    var arg, rest := CompileArg(params[i], raws[i]), CompileArgs(params[i + 1..], raws[i + 1..]);
    if arg.Some? && rest.Some? {
      assert done + ([arg.value] + rest.value) == done + [arg.value] + rest.value;
    }
  }

  /** Check the number of arguments, then compile each against its parameter. */
  method CompileArguments(params: seq<FuncType>, raws: seq<RawArg>) returns (args: Option<seq<FuncArg>>)
    ensures args == CompileArgs(params, raws)
  {
    hide CompileArgs;
    if |params| != |raws| {
      CompileCount(params, raws);
      return None;
    }
    var compiled: seq<FuncArg> := [];
    var i := 0;
    assert params[0..] == params && raws[0..] == raws;
    assert CompileArgs(params, raws).Some? ==> [] + CompileArgs(params, raws).value == CompileArgs(params, raws).value;
    while i < |raws|
      invariant 0 <= i <= |raws|
      invariant CompileArgs(params, raws) == AfterArgs(compiled, CompileArgs(params[i..], raws[i..]))
    {
      CompileStep(compiled, params, raws, i);
      var arg := CompileArg(params[i], raws[i]);
      if arg.None? {
        return None;
      }
      compiled := compiled + [arg.value];
      i := i + 1;
    }
    CompileNothing();
    assert params[i..] == [] && raws[i..] == [];
    assert compiled + [] == compiled;
    return Some(compiled);
  }

  lemma CompileNothing()
    ensures CompileArgs([], []) == Some([])
  {
  }

  lemma {:induction false} CompileCount(params: seq<FuncType>, raws: seq<RawArg>)
    requires |params| != |raws|
    ensures CompileArgs(params, raws) == None
  {
    hide CompileArg;
    if params != [] && raws != [] {
      CompileCount(params[1..], raws[1..]);
    }
  }

  /** The tokens read are those of the source, or stop at the first invalid one, where the parse fails. */
  lemma TokenizedSame(src: string, tokens: seq<T.Token>, funcs: Registry)
    requires var all := T.AllTokens(src, 0);
             |tokens| == |all| && forall k | 0 <= k < |all| :: T.SameToken(tokens[k], all[k])
    ensures var last := tokens[|tokens| - 1];
            if last.kind == T.Invalid then ParseText(src, funcs) == Err(last.start)
            else Lexes(src) && tokens == T.AllTokens(src, 0)
  {
    hide T.AllTokens, Grammar.ParseQuery, StreamOf;
    var all := T.AllTokens(src, 0);
    assert T.SameToken(tokens[|all| - 1], all[|all| - 1]);
  }

  /** Tokenize a source and parse its tokens. */
  method ParseSource(src: string, funcs: Registry) returns (r: Outcome<PathQuery>)
    ensures r == ParseText(src, funcs)
  {
    hide ParseText, T.AllTokens, T.SameToken;
    var tokens := Lexing.Tokenize(src);
    TokenizedSame(src, tokens, funcs);
    var last := tokens[|tokens| - 1];
    if last.kind == T.Invalid {
      return Err(last.start);
    }
    var parser := new Parser(src, tokens, funcs);
    r := parser.Parse();
  }
}
