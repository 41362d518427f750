/** Every parsed query is well typed, and evaluating a well-typed call passes arguments of the declared types. */
module TypeSafety {
  import opened Common
  import T = Tokens
  import opened Json
  import opened Syntax
  import opened Grammar
  import opened Evaluate

  lemma {:induction false} FilterQueryTyped(ts: Stream, i: nat, funcs: Registry)
    requires i < |ts|
    ensures var r := ParseFilterQuery(ts, i, funcs); r.Done? ==> WellTypedQuery(r.value, funcs)
    decreases |ts| - i, 1
  {
    hide ParseSegments, WellTypedSegments;
    if ts[i].kind == T.Dollar || ts[i].kind == T.At_ {
      SegmentsTyped(ts, i + 1, funcs);
    }
  }

  lemma ConsSegments(s: Segment, rest: seq<Segment>, funcs: Registry)
    requires WellTypedSegment(s, funcs) && WellTypedSegments(rest, funcs)
    ensures WellTypedSegments([s] + rest, funcs)
  {
    hide WellTypedSegment;
  }

  lemma ChildTyped(ss: seq<Selector>, descendant: bool, funcs: Registry)
    requires ss != [] && WellTypedSelectors(ss, funcs)
    ensures WellTypedSegment(Segment(ss, descendant), funcs)
  {
  }

  lemma PlainSelectorsTyped(s: Selector, funcs: Registry)
    requires !s.Filter?
    ensures WellTypedSelectors([s], funcs)
  {
  }

  lemma {:induction false} SegmentsTyped(ts: Stream, i: nat, funcs: Registry)
    requires i < |ts|
    ensures var r := ParseSegments(ts, i, funcs); r.Done? ==> WellTypedSegments(r.value, funcs)
    decreases |ts| - i, 0
  {
    hide ParseDescendant, ParseBracketed, ParseDotChild, WellTypedSegments, WellTypedSelectors, WellTypedSegment;
    NoSegments(funcs);
    if ParseSegments(ts, i, funcs).Done? {
      match ts[i].kind
      case DotDot =>
        var (s, j) := ParseDescendant(ts, i + 1, funcs).Extract();
        DescendantTyped(ts, i + 1, funcs);
        SegmentsTyped(ts, j, funcs);
        ConsSegments(s, ParseSegments(ts, j, funcs).value, funcs);
      case LeftBracket =>
        var (ss, j) := ParseBracketed(ts, i + 1, funcs).Extract();
        BracketedTyped(ts, i + 1, funcs);
        SegmentsTyped(ts, j, funcs);
        ChildTyped(ss, false, funcs);
        ConsSegments(Segment(ss, false), ParseSegments(ts, j, funcs).value, funcs);
      case Dot =>
        var (s, j) := ParseDotChild(ts, i + 1).Extract();
        DotChildPlain(ts, i + 1);
        SegmentsTyped(ts, j, funcs);
        PlainSelectorsTyped(s, funcs);
        ChildTyped([s], false, funcs);
        ConsSegments(Segment([s], false), ParseSegments(ts, j, funcs).value, funcs);
      case _ =>
    }
  }

  lemma NoSegments(funcs: Registry)
    ensures WellTypedSegments([], funcs)
  {
  }

  lemma DotChildPlain(ts: Stream, i: nat)
    requires i < |ts| && ParseDotChild(ts, i).Done?
    ensures !ParseDotChild(ts, i).value.Filter?
  {
  }

  lemma {:induction false} DescendantTyped(ts: Stream, i: nat, funcs: Registry)
    requires i < |ts|
    ensures var r := ParseDescendant(ts, i, funcs); r.Done? ==> WellTypedSegment(r.value, funcs)
    decreases |ts| - i, 9
  {
    hide ParseBracketed, WellTypedSelectors;
    if ts[i].kind == T.LeftBracket {
      BracketedTyped(ts, i + 1, funcs);
    } else {
      PlainSelectorsTyped(Wildcard, funcs);
      PlainSelectorsTyped(Name(ts[i].text), funcs);
    }
  }

  lemma {:induction false} BracketedTyped(ts: Stream, i: nat, funcs: Registry)
    requires i < |ts|
    ensures var r := ParseBracketed(ts, i, funcs); r.Done? ==> WellTypedSelectors(r.value, funcs)
    decreases |ts| - i, 8
  {
    hide ParseSelectors, WellTypedSelectors;
    SelectorsTyped(ts, i, funcs);
  }

  lemma {:induction false} SelectorsTyped(ts: Stream, i: nat, funcs: Registry)
    requires i < |ts|
    ensures var r := ParseSelectors(ts, i, funcs); r.Done? ==> WellTypedSelectors(r.value, funcs)
    decreases |ts| - i, 7
  {
    hide ParseSelector, WellTypedSelector;
    SelectorTyped(ts, i, funcs);
    var r := ParseSelector(ts, i, funcs);
    if r.Done? && ts[r.next].kind == T.Comma {
      SelectorsTyped(ts, r.next + 1, funcs);
    }
  }

  lemma IndexOrSlicePlain(ts: Stream, i: nat)
    requires i < |ts|
    ensures ts[i].kind == T.Int && ParseIndexOrSlice(ts, i).Done? ==> !ParseIndexOrSlice(ts, i).value.Filter?
    ensures ParseSlice(ts, i, None).Done? ==> !ParseSlice(ts, i, None).value.Filter?
  {
  }

  lemma {:induction false} SelectorTyped(ts: Stream, i: nat, funcs: Registry)
    requires i < |ts|
    ensures var r := ParseSelector(ts, i, funcs); r.Done? ==> WellTypedSelector(r.value, funcs)
    decreases |ts| - i, 6
  {
    hide ParseOr, ParseIndexOrSlice, ParseSlice, WellTypedOr;
    match ts[i].kind
    case Question => OrTyped(ts, i + 1, funcs);
    case Int => IndexOrSlicePlain(ts, i);
    case Colon => IndexOrSlicePlain(ts, i + 1);
    case _ =>
  }

  lemma {:induction false} OrTyped(ts: Stream, i: nat, funcs: Registry)
    requires i < |ts|
    ensures var r := ParseOr(ts, i, funcs); r.Done? ==> WellTypedOr(r.value, funcs)
    decreases |ts| - i, 5
  {
    hide ParseAnd, WellTypedAnd;
    AndTyped(ts, i, funcs);
    var r := ParseAnd(ts, i, funcs);
    if r.Done? && ts[r.next].kind == T.Or {
      OrTyped(ts, r.next + 1, funcs);
    }
  }

  lemma {:induction false} AndTyped(ts: Stream, i: nat, funcs: Registry)
    requires i < |ts|
    ensures var r := ParseAnd(ts, i, funcs); r.Done? ==> WellTypedAnd(LogicalAnd(r.value), funcs)
    decreases |ts| - i, 4
  {
    hide ParseBasic, WellTypedBasic;
    BasicTyped(ts, i, funcs);
    var r := ParseBasic(ts, i, funcs);
    if r.Done? && ts[r.next].kind == T.And {
      AndTyped(ts, r.next + 1, funcs);
    }
  }

  lemma {:induction false} BasicTyped(ts: Stream, i: nat, funcs: Registry)
    requires i < |ts|
    ensures var r := ParseBasic(ts, i, funcs); r.Done? ==> WellTypedBasic(r.value, funcs)
    decreases |ts| - i, 3
  {
    hide ParseNegation, ParseGroup, ParseCall, ParseFilterQuery, ParseLiteral, ParseComparison;
    hide WellTypedOr, WellTypedCall, WellTypedQuery, Singular;
    var k := ts[i].kind;
    if k == T.Not {
      NegationTyped(ts, i + 1, funcs);
    } else if k == T.LeftParen {
      GroupTyped(ts, i + 1, funcs);
    } else if k == T.Ident {
      CallTyped(ts, i, funcs);
      var r := ParseCall(ts, i, funcs);
      if r.Done? && IsCompOp(ts[r.next].kind) && r.value.result == ValueType {
        ComparisonTyped(ts, r.next, FuncValue(r.value), funcs);
      }
    } else if k == T.At_ || k == T.Dollar {
      FilterQueryTyped(ts, i, funcs);
      var r := ParseFilterQuery(ts, i, funcs);
      if r.Done? && IsCompOp(ts[r.next].kind) && Singular(r.value) {
        ComparisonTyped(ts, r.next, QueryValue(r.value), funcs);
      }
    } else if IsLiteral(k) {
      var r := ParseLiteral(ts, i);
      if r.Done? && IsCompOp(ts[r.next].kind) {
        ComparisonTyped(ts, r.next, LiteralValue(r.value), funcs);
      }
    }
  }

  lemma {:induction false} NegationTyped(ts: Stream, i: nat, funcs: Registry)
    requires i < |ts|
    ensures var r := ParseNegation(ts, i, funcs); r.Done? ==> WellTypedBasic(r.value, funcs)
    decreases |ts| - i, 3
  {
    hide ParseGroup, ParseCall, ParseFilterQuery, WellTypedOr, WellTypedCall, WellTypedQuery;
    if ts[i].kind == T.LeftParen {
      GroupTyped(ts, i + 1, funcs);
    } else if ts[i].kind == T.Ident {
      CallTyped(ts, i, funcs);
    } else {
      FilterQueryTyped(ts, i, funcs);
    }
  }

  lemma {:induction false} GroupTyped(ts: Stream, i: nat, funcs: Registry)
    requires i < |ts|
    ensures var r := ParseGroup(ts, i, funcs); r.Done? ==> WellTypedOr(r.value, funcs)
    decreases |ts| - i, 6
  {
    hide ParseOr, WellTypedOr;
    OrTyped(ts, i, funcs);
  }

  lemma {:induction false} ComparisonTyped(ts: Stream, i: nat, left: CompValue, funcs: Registry)
    requires i < |ts| && IsCompOp(ts[i].kind) && WellTypedComparand(left, funcs)
    ensures var r := ParseComparison(ts, i, left, funcs); r.Done? ==> WellTypedBasic(r.value, funcs)
    decreases |ts| - i, 3
  {
    hide ParseCompValue, WellTypedComparand;
    CompValueTyped(ts, i + 1, funcs);
  }

  lemma {:induction false} CompValueTyped(ts: Stream, i: nat, funcs: Registry)
    requires i < |ts|
    ensures var r := ParseCompValue(ts, i, funcs); r.Done? ==> WellTypedComparand(r.value, funcs)
    decreases |ts| - i, 3
  {
    hide ParseCall, ParseFilterQuery, ParseLiteral, WellTypedCall, WellTypedQuery, Singular;
    var k := ts[i].kind;
    if k == T.Ident {
      CallTyped(ts, i, funcs);
    } else if k == T.At_ || k == T.Dollar {
      FilterQueryTyped(ts, i, funcs);
    }
  }

  /** A parsed argument is well typed in itself; a call for a Logical parameter is a logical expression. */
  predicate WellTypedRaw(raw: RawArg, target: FuncType, funcs: Registry) {
    match raw
    case RawLiteral(_) => true
    case RawQuery(q) => WellTypedQuery(q, funcs)
    case RawLogical(or) => WellTypedOr(or, funcs)
    case RawCall(f) => target != LogicalType && WellTypedCall(f, funcs)
  }

  lemma {:induction false} CallTyped(ts: Stream, i: nat, funcs: Registry)
    requires i < |ts| && ts[i].kind == T.Ident
    ensures var r := ParseCall(ts, i, funcs); r.Done? ==> WellTypedCall(r.value, funcs)
    decreases |ts| - i, 1
  {
    hide ParseArgs, CompileArgs, WellTypedArg, WellTypedRaw;
    if ParseCall(ts, i, funcs).Done? {
      var params := funcs[ts[i].text].params;
      if ts[i + 2].kind == T.RightParen {
        CompiledTyped(params, [], funcs);
      } else {
        ArgsTyped(ts, i + 2, params, 0, i, funcs);
        CompiledTyped(params, ParseArgs(ts, i + 2, params, 0, i, funcs).value, funcs);
      }
    }
  }

  lemma {:induction false} ArgsTyped(ts: Stream, i: nat, params: seq<FuncType>, n: nat, name: nat, funcs: Registry)
    requires i < |ts| && name < i
    ensures var r := ParseArgs(ts, i, params, n, name, funcs);
            r.Done? ==> n + |r.value| <= |params| && forall k | 0 <= k < |r.value| ::
              WellTypedRaw(r.value[k], params[n + k], funcs)
    decreases |ts| - i, 8
  {
    hide ParseArg, WellTypedRaw;
    if n < |params| {
      ArgTyped(ts, i, params[n], funcs);
      var r := ParseArg(ts, i, params[n], funcs);
      if r.Done? && ts[r.next].kind == T.Comma {
        ArgsTyped(ts, r.next + 1, params, n + 1, name, funcs);
      }
    }
  }

  lemma {:induction false} LogicalArgTyped(ts: Stream, i: nat, target: FuncType, funcs: Registry)
    requires i < |ts|
    ensures var r := ParseLogicalArg(ts, i, funcs); r.Done? ==> WellTypedRaw(r.value, target, funcs)
    decreases |ts| - i, 6
  {
    hide ParseOr, WellTypedOr;
    OrTyped(ts, i, funcs);
  }

  lemma {:induction false} ArgTyped(ts: Stream, i: nat, target: FuncType, funcs: Registry)
    requires i < |ts|
    ensures var r := ParseArg(ts, i, target, funcs); r.Done? ==> WellTypedRaw(r.value, target, funcs)
    decreases |ts| - i, 7
  {
    hide ParseLogicalArg, ParseFilterQuery, ParseCall, ParseLiteral, WellTypedOr, WellTypedQuery, WellTypedCall;
    LogicalArgTyped(ts, i, target, funcs);
    var k := ts[i].kind;
    if k == T.Ident {
      CallTyped(ts, i, funcs);
    } else if k == T.At_ || k == T.Dollar {
      FilterQueryTyped(ts, i, funcs);
    }
  }

  lemma {:induction false} CompiledTyped(params: seq<FuncType>, raws: seq<RawArg>, funcs: Registry)
    requires |raws| <= |params| && forall k | 0 <= k < |raws| :: WellTypedRaw(raws[k], params[k], funcs)
    ensures var c := CompileArgs(params, raws);
            c.Some? ==> |c.value| == |params| && forall k | 0 <= k < |params| ::
              WellTypedArg(c.value[k], params[k], funcs)
  {
    hide WellTypedArg, WellTypedRaw, CompileArg;
    if params != [] && raws != [] {
      CompiledArgTyped(params[0], raws[0], funcs);
      CompiledTyped(params[1..], raws[1..], funcs);
    }
  }

  lemma CompiledArgTyped(kind: FuncType, raw: RawArg, funcs: Registry)
    requires WellTypedRaw(raw, kind, funcs)
    ensures CompileArg(kind, raw).Some? ==> WellTypedArg(CompileArg(kind, raw).value, kind, funcs)
  {
    hide WellTypedQuery, WellTypedOr, WellTypedCall;
  }

  /** Whatever the parser accepts is well typed over its registry. */
  lemma ParsedQueriesTyped(ts: Stream, funcs: Registry)
    ensures ParseQuery(ts, funcs).Done?
            ==> WellTypedQuery(ParseQuery(ts, funcs).value, funcs) && ParseQuery(ts, funcs).value.root
  {
    FilterQueryTyped(ts, 0, funcs);
  }
}
