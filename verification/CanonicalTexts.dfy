/** What canonical texts look like, character by character: quotes, escapes, and calls of registered functions. */
module CanonicalTexts {
  import opened Common
  import opened Text
  import T = Tokens
  import opened Syntax
  import opened Evaluate
  import opened Json
  import opened Buffers
  import opened Printing
  import opened NormalizedPaths
  import PrintedChain
  import RoundTrip
  import Layout

  /** The escapes of the control characters, section 2.7 of RFC 9535: short where there is a letter, else lower-case. */
  const CONTROL_ESCAPES: seq<string> := [
    "\\u0000", "\\u0001", "\\u0002", "\\u0003", "\\u0004", "\\u0005", "\\u0006", "\\u0007",
    "\\b", "\\t", "\\n", "\\u000b", "\\f", "\\r", "\\u000e", "\\u000f",
    "\\u0010", "\\u0011", "\\u0012", "\\u0013", "\\u0014", "\\u0015", "\\u0016", "\\u0017",
    "\\u0018", "\\u0019", "\\u001a", "\\u001b", "\\u001c", "\\u001d", "\\u001e", "\\u001f"
  ]

  /** Every control character is written as the table says, whatever the quote. */
  lemma ControlsEscaped(v: nat, quote: char)
    requires v < 0x20 && (quote == '"' || quote == '\'')
    ensures |CONTROL_ESCAPES| == 0x20 && EscapedChar(v as char, quote) == CONTROL_ESCAPES[v]
  {
    if v < 0x10 {
      LowControls(v, quote);
    } else {
      HighControls(v, quote);
    }
  }

  lemma LowControls(v: nat, quote: char)
    requires v < 0x10 && (quote == '"' || quote == '\'')
    ensures EscapedChar(v as char, quote) == CONTROL_ESCAPES[v]
  {
  }

  lemma HighControls(v: nat, quote: char)
    requires 0x10 <= v < 0x20 && (quote == '"' || quote == '\'')
    ensures EscapedChar(v as char, quote) == CONTROL_ESCAPES[v]
  {
  }

  /** Of the others only the quote in use and the backslash are escaped. */
  lemma OthersBare(c: char, quote: char)
    requires c as int >= 0x20 && (quote == '"' || quote == '\'')
    ensures EscapedChar(c, quote) == if c == quote || c == '\\' then ['\\', c] else [c]
  {
  }

  /** A text in which nothing has to be escaped. */
  predicate NeedsNoEscape(n: string, quote: char) {
    forall i | 0 <= i < |n| :: n[i] as int >= 0x20 && n[i] != '\\' && n[i] != quote
  }

  lemma {:induction false} BareEscaped(n: string, quote: char)
    requires NeedsNoEscape(n, quote) && (quote == '"' || quote == '\'')
    ensures Escaped(n, quote) == n
  {
    hide EscapedChar;
    if n != "" {
      OthersBare(n[0], quote);
      BareEscaped(n[1..], quote);
    }
  }

  lemma OneSelectorText(s: Selector)
    ensures Print(PathQuery(true, [Segment([s], false)])) == "$[" + Render(SelectorItems(s)) + "]"
  {
    hide Render, SelectorItems, SegmentItems;
    var segment := Segment([s], false);
    QueryText(PathQuery(true, [segment]));
    EmptyItems();
    assert [segment][1..] == [] && SegmentItems(segment) + [] == SegmentItems(segment);
    SegmentText(segment);
  }

  /** A query prints names in double quotes, a normalized path in single quotes. */
  lemma NamesQuoted(n: string)
    ensures NeedsNoEscape(n, '"') ==> Print(PathQuery(true, [Segment([Name(n)], false)])) == "$[\"" + n + "\"]"
    ensures NeedsNoEscape(n, '\'') ==> PathText([NameStep(n)]) == "$['" + n + "']"
  {
    hide Render, Escaped, NeedsNoEscape, Print;
    if NeedsNoEscape(n, '"') {
      BareEscaped(n, '"');
      OneSelectorText(Name(n));
      StringItemText(n);
    }
    if NeedsNoEscape(n, '\'') {
      BareEscaped(n, '\'');
      var p: Path := [NameStep(n)];
      assert p[1..] == [] && StepsText([]) == "";
    }
  }

  // ---- Function names, section 2.4 of RFC 9535

  predicate LowerCode(v: int) {
    0x61 <= v <= 0x7A
  }

  predicate FunctionName(n: string) {
    && n !in {"", "true", "false", "null"} && LowerCode(n[0] as int)
    && forall i | 0 <= i < |n| :: LowerCode(n[i] as int) || n[i] as int == 0x5F || 0x30 <= n[i] as int <= 0x39
  }

  function CallQuery(n: string): PathQuery {
    PathQuery(true, [Segment([Filter([LogicalAnd([Func(FuncExpr(n, LogicalType, []))])])], false)])
  }

  /** The names that may be registered are those of the RFC without the keywords, and calls by each of them parse. */
  lemma RegisteredCallParses(n: string)
    ensures PrintedChain.ValidFunctionName(n) <==> FunctionName(n)
    ensures FunctionName(n) ==>
              Layout.ParseText("$[?" + n + "()]", map[n := Signature(LogicalType, [])]) == Ok(CallQuery(n))
  {
    hide Layout.ParseText, Render, WellTypedQuery, QueryItems;
    if FunctionName(n) {
      CallWellTyped(n);
      CallText(n);
      RoundTrip.PrintParses(CallQuery(n), map[n := Signature(LogicalType, [])]);
    }
  }

  lemma CallWellTyped(n: string)
    ensures WellTypedQuery(CallQuery(n), map[n := Signature(LogicalType, [])])
  {
    var funcs := map[n := Signature(LogicalType, [])];
    var call := FuncExpr(n, LogicalType, []);
    assert WellTypedCall(call, funcs);
    assert WellTypedAnd(LogicalAnd([Func(call)]), funcs);
    assert WellTypedOr([LogicalAnd([Func(call)])], funcs);
    assert WellTypedSelectors([Filter([LogicalAnd([Func(call)])])], funcs);
    assert WellTypedSegment(CallQuery(n).segments[0], funcs);
  }

  lemma CallText(n: string)
    ensures Print(CallQuery(n)) == "$[?" + n + "()]"
  {
    hide Render, CallItems, Print;
    var call := FuncExpr(n, LogicalType, []);
    var s := CallQuery(n).segments[0].selectors[0];
    OneSelectorText(s);
    assert AndItems([Func(call)]) == BasicItems(Func(call)) == CallItems(call);
    assert OrItems(s.expr) == AndItems(s.expr[0].terms);
    assert SelectorItems(s) == [Plain(T.Question)] + CallItems(call);
    RenderCons(Plain(T.Question), CallItems(call));
    NoArgumentsText(call);
  }

  lemma NoArgumentsText(f: FuncExpr)
    requires f.args == []
    ensures Render(CallItems(f)) == f.name + "()"
  {
    hide Render;
    var parens := [Plain(T.LeftParen)] + (ArgsItems([]) + [Plain(T.RightParen)]);
    RenderCons(Worded(T.Ident, f.name), parens);
    EmptyItems();
    EnclosedText([]);
  }
}
