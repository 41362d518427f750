/** Soundness of the parser: whatever it accepts is spelled by the lexemes it consumed. */
module ParserSound {
  import opened Common
  import opened Text
  import T = Tokens
  import opened Syntax
  import opened Grammar
  import opened Spelling
  import opened ParserComplete
  import Layout
  import TypeSafety

  lemma {:induction false} QueryParsed(ts: Stream, i: nat, funcs: Registry)
    requires i < |ts|
    ensures var r := ParseFilterQuery(ts, i, funcs); r.Done? ==> QueryAt(r.value, ts, i, r.next)
    decreases |ts| - i, 1
  {
    hide ParseSegments, SegmentsAt, T.ValidSymbol;
    if ts[i].kind == T.Dollar || ts[i].kind == T.At_ {
      SegmentsParsed(ts, i + 1, funcs);
    }
  }

  lemma MoreSegments(s: Segment, rest: seq<Segment>, ts: Stream, i: nat, k: nat, j: nat)
    requires i < k <= j < |ts| && SegmentAt(s, ts, i, k) && SegmentsAt(rest, ts, k, j)
    ensures SegmentsAt([s] + rest, ts, i, j)
  {
    hide SegmentAt, T.ValidSymbol;
    assert ([s] + rest)[1..] == rest;
  }

  lemma NoSegments(ts: Stream, i: nat)
    requires i < |ts|
    ensures SegmentsAt([], ts, i, i)
  {
  }

  lemma {:induction false} SegmentsParsed(ts: Stream, i: nat, funcs: Registry)
    requires i < |ts|
    ensures var r := ParseSegments(ts, i, funcs); r.Done? ==> SegmentsAt(r.value, ts, i, r.next)
    decreases |ts| - i, 2
  {
    hide ParseDescendant, ParseBracketed, ParseDotChild, SegmentAt, SegmentsAt, T.ValidSymbol;
    NoSegments(ts, i);
    if ParseSegments(ts, i, funcs).Done? {
      match ts[i].kind
      case DotDot =>
        var (s, k) := ParseDescendant(ts, i + 1, funcs).Extract();
        var (rest, j) := ParseSegments(ts, k, funcs).Extract();
        DescendantParsed(ts, i, funcs);
        SegmentsParsed(ts, k, funcs);
        MoreSegments(s, rest, ts, i, k, j);
      case LeftBracket =>
        var (ss, k) := ParseBracketed(ts, i + 1, funcs).Extract();
        var (rest, j) := ParseSegments(ts, k, funcs).Extract();
        BracketedParsed(ts, i, funcs);
        BracketedChild(ss, ts, i, k);
        SegmentsParsed(ts, k, funcs);
        MoreSegments(Segment(ss, false), rest, ts, i, k, j);
      case Dot =>
        var (s, k) := ParseDotChild(ts, i + 1).Extract();
        var (rest, j) := ParseSegments(ts, k, funcs).Extract();
        DotChildParsed(ts, i);
        SegmentsParsed(ts, k, funcs);
        MoreSegments(Segment([s], false), rest, ts, i, k, j);
      case _ =>
    }
  }

  lemma BracketedChild(ss: seq<Selector>, ts: Stream, i: nat, j: nat)
    requires BracketedAt(ss, ts, i, j)
    ensures SegmentAt(Segment(ss, false), ts, i, j)
  {
    hide SelectorsAt;
  }

  lemma DotChildParsed(ts: Stream, i: nat)
    requires i + 1 < |ts| && ts[i].kind == T.Dot
    ensures var r := ParseDotChild(ts, i + 1); r.Done? ==> SegmentAt(Segment([r.value], false), ts, i, r.next)
  {
    hide BracketedAt, T.ValidSymbol;
  }

  lemma {:induction false} DescendantParsed(ts: Stream, i: nat, funcs: Registry)
    requires i + 1 < |ts| && ts[i].kind == T.DotDot
    ensures var r := ParseDescendant(ts, i + 1, funcs); r.Done? ==> SegmentAt(r.value, ts, i, r.next)
    decreases |ts| - i, 0
  {
    hide BracketedAt, ParseBracketed, T.ValidSymbol;
    if ts[i + 1].kind == T.LeftBracket {
      BracketedParsed(ts, i + 1, funcs);
    }
  }

  lemma {:induction false} BracketedParsed(ts: Stream, i: nat, funcs: Registry)
    requires i + 1 < |ts| && ts[i].kind == T.LeftBracket
    ensures var r := ParseBracketed(ts, i + 1, funcs); r.Done? ==> BracketedAt(r.value, ts, i, r.next)
    decreases |ts| - i, 0
  {
    hide ParseSelectors, SelectorsAt, T.ValidSymbol;
    SelectorsParsed(ts, i + 1, funcs);
  }

  lemma OneSelector(s: Selector, ts: Stream, i: nat, j: nat)
    requires i < j < |ts| && SelectorAt(s, ts, i, j)
    ensures SelectorsAt([s], ts, i, j)
  {
    hide SelectorAt;
  }

  lemma ConsSelectors(s: Selector, rest: seq<Selector>, ts: Stream, i: nat, k: nat, j: nat)
    requires i < k < j < |ts| && SelectorAt(s, ts, i, k) && ts[k].kind == T.Comma && SelectorsAt(rest, ts, k + 1, j)
             && rest != []
    ensures SelectorsAt([s] + rest, ts, i, j)
  {
    hide SelectorAt;
    assert ([s] + rest)[1..] == rest;
  }

  lemma {:induction false} SelectorsParsed(ts: Stream, i: nat, funcs: Registry)
    requires i < |ts|
    ensures var r := ParseSelectors(ts, i, funcs); r.Done? ==> SelectorsAt(r.value, ts, i, r.next)
    decreases |ts| - i, 7
  {
    hide ParseSelector, SelectorAt, SelectorsAt, T.ValidSymbol;
    SelectorParsed(ts, i, funcs);
    var p := ParseSelector(ts, i, funcs);
    if p.Done? {
      if ts[p.next].kind == T.Comma {
        SelectorsParsed(ts, p.next + 1, funcs);
        var r := ParseSelectors(ts, p.next + 1, funcs);
        if r.Done? {
          ConsSelectors(p.value, r.value, ts, i, p.next, r.next);
        }
      } else {
        OneSelector(p.value, ts, i, p.next);
      }
    }
  }

  lemma {:induction false} SelectorParsed(ts: Stream, i: nat, funcs: Registry)
    requires i < |ts|
    ensures var r := ParseSelector(ts, i, funcs); r.Done? ==> SelectorAt(r.value, ts, i, r.next)
    decreases |ts| - i, 6
  {
    hide ParseOr, ParseIndexOrSlice, ParseSlice, OrAt, IntAt, SliceAt, T.ValidSymbol;
    match ts[i].kind
    case Question => OrParsed(ts, i + 1, funcs);
    case Int => IndexOrSliceParsed(ts, i);
    case Colon => SliceParsed(ts, i, i, None);
    case _ =>
  }

  lemma IntegerParsed(ts: Stream, i: nat)
    requires i < |ts| && ts[i].kind == T.Int
    ensures var r := ParseInteger(ts, i); r.Done? ==> IntAt(r.value, ts, i)
  {
    hide T.ValidSymbol, IntValue;
  }

  lemma StepParsed(ts: Stream, m: nat, start: Option<JsonInteger>, end: Option<JsonInteger>)
    requires m < |ts|
    ensures var r := ParseStep(ts, m, start, end);
            r.Done? ==>
              && r.value.Slice? && r.value.args.start == start && r.value.args.end == end
              && StepAt(r.value.args.step, ts, m, r.next)
  {
    hide IntAt, ParseInteger, T.ValidSymbol;
    if ts[m].kind == T.Colon && ts[m + 1].kind == T.Int {
      IntegerParsed(ts, m + 1);
    }
  }

  /** The colon at `k` and what follows it, after a start written from `i`. */
  lemma SliceParsed(ts: Stream, i: nat, k: nat, start: Option<JsonInteger>)
    requires i <= k && k + 1 < |ts| && ts[k].kind == T.Colon && OptionalIntAt(start, ts, i, k)
    ensures var r := ParseSlice(ts, k + 1, start);
            r.Done? ==> r.value.Slice? && i < r.next && SliceAt(r.value.args, ts, i, r.next)
  {
    hide IntAt, StepAt, ParseInteger, ParseStep, T.ValidSymbol;
    if ts[k + 1].kind == T.Int {
      IntegerParsed(ts, k + 1);
      var n := ParseInteger(ts, k + 1);
      if n.Done? {
        StepParsed(ts, k + 2, start, Some(n.value));
      }
    } else {
      StepParsed(ts, k + 1, start, None);
    }
  }

  lemma IndexOrSliceParsed(ts: Stream, i: nat)
    requires i < |ts| && ts[i].kind == T.Int
    ensures var r := ParseIndexOrSlice(ts, i);
            r.Done? ==>
              match r.value
              case Index(n) => r.next == i + 1 && IntAt(n, ts, i)
              case Slice(a) => SliceAt(a, ts, i, r.next)
              case _ => false
  {
    hide IntAt, SliceAt, ParseInteger, ParseSlice, T.ValidSymbol;
    IntegerParsed(ts, i);
    var n := ParseInteger(ts, i);
    if n.Done? && ts[n.next].kind == T.Colon {
      SliceParsed(ts, i, n.next, Some(n.value));
    }
  }

  // ---- Logical expressions

  lemma OneAnd(terms: seq<BasicExpr>, ts: Stream, i: nat, j: nat)
    requires i < j < |ts| && AndAt(terms, ts, i, j)
    ensures OrAt([LogicalAnd(terms)], ts, i, j)
  {
    hide AndAt;
  }

  lemma ConsOr(terms: seq<BasicExpr>, rest: LogicalOr, ts: Stream, i: nat, k: nat, j: nat)
    requires i < k < j < |ts| && AndAt(terms, ts, i, k) && ts[k].kind == T.Or && OrAt(rest, ts, k + 1, j) && rest != []
    ensures OrAt([LogicalAnd(terms)] + rest, ts, i, j)
  {
    hide AndAt;
    assert ([LogicalAnd(terms)] + rest)[1..] == rest;
  }

  lemma {:induction false} OrParsed(ts: Stream, i: nat, funcs: Registry)
    requires i < |ts|
    ensures var r := ParseOr(ts, i, funcs); r.Done? ==> OrAt(r.value, ts, i, r.next)
    decreases |ts| - i, 5
  {
    hide ParseAnd, AndAt, OrAt, T.ValidSymbol;
    AndParsed(ts, i, funcs);
    var p := ParseAnd(ts, i, funcs);
    if p.Done? {
      if ts[p.next].kind == T.Or {
        OrParsed(ts, p.next + 1, funcs);
        var r := ParseOr(ts, p.next + 1, funcs);
        if r.Done? {
          ConsOr(p.value, r.value, ts, i, p.next, r.next);
        }
      } else {
        OneAnd(p.value, ts, i, p.next);
      }
    }
  }

  lemma OneBasic(e: BasicExpr, ts: Stream, i: nat, j: nat)
    requires i < j < |ts| && BasicAt(e, ts, i, j)
    ensures AndAt([e], ts, i, j)
  {
    hide BasicAt;
  }

  lemma ConsAnd(e: BasicExpr, rest: seq<BasicExpr>, ts: Stream, i: nat, k: nat, j: nat)
    requires i < k < j < |ts| && BasicAt(e, ts, i, k) && ts[k].kind == T.And && AndAt(rest, ts, k + 1, j) && rest != []
    ensures AndAt([e] + rest, ts, i, j)
  {
    hide BasicAt;
    assert ([e] + rest)[1..] == rest;
  }

  lemma {:induction false} AndParsed(ts: Stream, i: nat, funcs: Registry)
    requires i < |ts|
    ensures var r := ParseAnd(ts, i, funcs); r.Done? ==> AndAt(r.value, ts, i, r.next)
    decreases |ts| - i, 4
  {
    hide ParseBasic, BasicAt, AndAt, T.ValidSymbol;
    BasicParsed(ts, i, funcs);
    var p := ParseBasic(ts, i, funcs);
    if p.Done? {
      if ts[p.next].kind == T.And {
        AndParsed(ts, p.next + 1, funcs);
        var r := ParseAnd(ts, p.next + 1, funcs);
        if r.Done? {
          ConsAnd(p.value, r.value, ts, i, p.next, r.next);
        }
      } else {
        OneBasic(p.value, ts, i, p.next);
      }
    }
  }

  lemma {:induction false} GroupParsed(ts: Stream, i: nat, funcs: Registry)
    requires i + 1 < |ts| && ts[i].kind == T.LeftParen
    ensures var r := ParseGroup(ts, i + 1, funcs); r.Done? ==> GroupAt(r.value, ts, i, r.next)
    decreases |ts| - i, 0
  {
    hide ParseOr, OrAt, T.ValidSymbol;
    OrParsed(ts, i + 1, funcs);
  }

  lemma {:induction false} BasicParsed(ts: Stream, i: nat, funcs: Registry)
    requires i < |ts|
    ensures var r := ParseBasic(ts, i, funcs); r.Done? ==> BasicAt(r.value, ts, i, r.next)
    decreases |ts| - i, 3
  {
    hide ParseNegation, ParseGroup, ParseCall, ParseFilterQuery, ParseLiteral, ParseComparison, Singular, NonSingularAt;
    hide BasicAt, QueryAt, GroupAt, CallAt, LiteralAt, T.ValidSymbol;
    var k := ts[i].kind;
    if k == T.Not {
      NegationParsed(ts, i, funcs);
    } else if k == T.LeftParen {
      GroupParsed(ts, i, funcs);
      BasicForms(ts, i);
    } else if k == T.Ident {
      CallParsed(ts, i, funcs);
      BasicForms(ts, i);
      var f := ParseCall(ts, i, funcs);
      if f.Done? && IsCompOp(ts[f.next].kind) && f.value.result == ValueType {
        CallComparand(f.value, ts, i, f.next);
        ComparisonParsed(ts, i, f.next, FuncValue(f.value), funcs);
      }
    } else if k == T.At_ || k == T.Dollar {
      QueryParsed(ts, i, funcs);
      BasicForms(ts, i);
      var q := ParseFilterQuery(ts, i, funcs);
      if q.Done? && IsCompOp(ts[q.next].kind) && Singular(q.value) {
        QueryComparand(q.value, ts, i, q.next);
        ComparisonParsed(ts, i, q.next, QueryValue(q.value), funcs);
      }
    } else if IsLiteral(k) {
      LiteralParsed(ts, i);
      var l := ParseLiteral(ts, i);
      if l.Done? && IsCompOp(ts[l.next].kind) {
        LiteralComparand(l.value, ts, i, l.next);
        ComparisonParsed(ts, i, l.next, LiteralValue(l.value), funcs);
      }
    }
  }

  /** The forms of a test without negation or comparison. */
  lemma BasicForms(ts: Stream, i: nat)
    ensures forall or, j | i < j < |ts| && GroupAt(or, ts, i, j) :: BasicAt(Paren(or), ts, i, j)
    ensures forall f, j | i < j < |ts| && CallAt(f, ts, i, j) :: BasicAt(Func(f), ts, i, j)
    ensures forall q, j | i < j < |ts| && QueryAt(q, ts, i, j) :: BasicAt(Exist(q), ts, i, j)
  {
    hide GroupAt, CallAt, QueryAt;
  }

  lemma CallComparand(f: FuncExpr, ts: Stream, i: nat, j: nat)
    requires CallAt(f, ts, i, j)
    ensures ComparandAt(FuncValue(f), ts, i, j)
  {
    hide CallAt;
  }

  lemma QueryComparand(q: PathQuery, ts: Stream, i: nat, j: nat)
    requires QueryAt(q, ts, i, j)
    ensures ComparandAt(QueryValue(q), ts, i, j)
  {
    hide QueryAt;
  }

  lemma LiteralComparand(l: Literal, ts: Stream, i: nat, j: nat)
    requires LiteralAt(l, ts, i, j)
    ensures ComparandAt(LiteralValue(l), ts, i, j)
  {
    hide LiteralAt;
  }

  lemma LiteralParsed(ts: Stream, i: nat)
    requires i < |ts|
    ensures var r := ParseLiteral(ts, i); r.Done? ==> LiteralAt(r.value, ts, i, r.next)
  {
    hide T.ValidSymbol;
  }

  lemma {:induction false} NegationParsed(ts: Stream, i: nat, funcs: Registry)
    requires i + 1 < |ts| && ts[i].kind == T.Not
    ensures var r := ParseNegation(ts, i + 1, funcs); r.Done? ==> BasicAt(r.value, ts, i, r.next)
    decreases |ts| - i, 0
  {
    hide ParseGroup, ParseCall, ParseFilterQuery, GroupAt, CallAt, QueryAt, T.ValidSymbol;
    if ts[i + 1].kind == T.LeftParen {
      GroupParsed(ts, i + 1, funcs);
    } else if ts[i + 1].kind == T.Ident {
      CallParsed(ts, i + 1, funcs);
    } else {
      QueryParsed(ts, i + 1, funcs);
    }
  }

  lemma OpNotLast(ts: Stream, k: nat)
    requires k < |ts| && IsCompOp(ts[k].kind)
    ensures k + 1 < |ts|
  {
    hide T.ValidSymbol;
  }

  /** A left operand spelled from `i`, the operator at `k` and what follows it. */
  lemma {:induction false} ComparisonParsed(ts: Stream, i: nat, k: nat, left: CompValue, funcs: Registry)
    requires i < k < |ts| && ComparandAt(left, ts, i, k) && IsCompOp(ts[k].kind)
    ensures var r := ParseComparison(ts, k, left, funcs); r.Done? ==> BasicAt(r.value, ts, i, r.next)
    decreases |ts| - k, 4
  {
    hide ParseCompValue, ComparandAt, IsCompOp, CompOpOf, T.ValidSymbol;
    OpNotLast(ts, k);
    CompValueParsed(ts, k + 1, funcs);
    OperatorRead(CompOpOf(ts[k].kind), ts, k);
    assert OpAt(CompOpOf(ts[k].kind), ts, k);
  }

  lemma {:induction false} CompValueParsed(ts: Stream, i: nat, funcs: Registry)
    requires i < |ts|
    ensures var r := ParseCompValue(ts, i, funcs); r.Done? ==> ComparandAt(r.value, ts, i, r.next)
    decreases |ts| - i, 3
  {
    hide ParseCall, ParseFilterQuery, ParseLiteral, CallAt, QueryAt, LiteralAt, Singular, NonSingularAt, T.ValidSymbol;
    var k := ts[i].kind;
    if k == T.Ident {
      CallParsed(ts, i, funcs);
    } else if k == T.At_ || k == T.Dollar {
      QueryParsed(ts, i, funcs);
    } else {
      LiteralParsed(ts, i);
    }
  }

  // ---- Function calls

  ghost predicate RawAt(raw: RawArg, ts: Stream, i: nat, j: nat) {
    match raw
    case RawLiteral(l) => LiteralAt(l, ts, i, j)
    case RawQuery(q) => QueryAt(q, ts, i, j)
    case RawLogical(or) => OrAt(or, ts, i, j)
    case RawCall(f) => CallAt(f, ts, i, j)
  }

  ghost predicate RawsAt(raws: seq<RawArg>, ts: Stream, i: nat, j: nat) {
    i < j < |ts| && raws != []
    && if |raws| == 1 then RawAt(raws[0], ts, i, j)
       else exists k | i < k < j :: RawAt(raws[0], ts, i, k) && ts[k].kind == T.Comma && RawsAt(raws[1..], ts, k + 1, j)
  }

  lemma CompiledAt(kind: FuncType, raw: RawArg, ts: Stream, i: nat, j: nat)
    requires RawAt(raw, ts, i, j) && CompileArg(kind, raw).Some?
    ensures ArgAt(CompileArg(kind, raw).value, ts, i, j)
  {
    hide LiteralAt, QueryAt, OrAt, CallAt, Singular;
  }

  lemma {:induction false} CompiledAllAt(params: seq<FuncType>, raws: seq<RawArg>, ts: Stream, i: nat, j: nat)
    requires RawsAt(raws, ts, i, j) && CompileArgs(params, raws).Some?
    ensures CompileArgs(params, raws).value != [] && ArgsAt(CompileArgs(params, raws).value, ts, i, j)
    decreases |raws|
  {
    hide RawAt, ArgAt, CompileArg;
    var args := CompileArgs(params, raws).value;
    var a := CompileArg(params[0], raws[0]).value;
    var rest := CompileArgs(params[1..], raws[1..]).value;
    assert args == [a] + rest && args[1..] == rest;
    if |raws| == 1 {
      CompiledAt(params[0], raws[0], ts, i, j);
      assert rest == [];
    } else {
      var k :| i < k < j && RawAt(raws[0], ts, i, k) && ts[k].kind == T.Comma && RawsAt(raws[1..], ts, k + 1, j);
      CompiledAt(params[0], raws[0], ts, i, k);
      CompiledAllAt(params[1..], raws[1..], ts, k + 1, j);
    }
  }

  lemma OneRaw(raw: RawArg, ts: Stream, i: nat, j: nat)
    requires i < j < |ts| && RawAt(raw, ts, i, j)
    ensures RawsAt([raw], ts, i, j)
  {
    hide RawAt;
  }

  lemma ConsRaws(raw: RawArg, rest: seq<RawArg>, ts: Stream, i: nat, k: nat, j: nat)
    requires i < k < j < |ts| && RawAt(raw, ts, i, k) && ts[k].kind == T.Comma && RawsAt(rest, ts, k + 1, j)
    ensures RawsAt([raw] + rest, ts, i, j)
  {
    hide RawAt;
    assert ([raw] + rest)[1..] == rest;
  }

  lemma {:induction false} ArgsParsed(ts: Stream, i: nat, params: seq<FuncType>, n: nat, name: nat, funcs: Registry)
    requires i < |ts| && name < i
    ensures var r := ParseArgs(ts, i, params, n, name, funcs); r.Done? ==> RawsAt(r.value, ts, i, r.next)
    decreases |ts| - i, 8
  {
    hide ParseArg, RawAt, RawsAt, T.ValidSymbol;
    if n < |params| {
      ArgParsed(ts, i, params[n], funcs);
      var p := ParseArg(ts, i, params[n], funcs);
      if p.Done? {
        if ts[p.next].kind == T.Comma {
          ArgsParsed(ts, p.next + 1, params, n + 1, name, funcs);
          var r := ParseArgs(ts, p.next + 1, params, n + 1, name, funcs);
          if r.Done? {
            ConsRaws(p.value, r.value, ts, i, p.next, r.next);
          }
        } else {
          OneRaw(p.value, ts, i, p.next);
        }
      }
    }
  }

  lemma {:induction false} LogicalArgParsed(ts: Stream, i: nat, funcs: Registry)
    requires i < |ts|
    ensures var r := ParseLogicalArg(ts, i, funcs); r.Done? ==> RawAt(r.value, ts, i, r.next)
    decreases |ts| - i, 6
  {
    hide ParseOr, OrAt, T.ValidSymbol;
    OrParsed(ts, i, funcs);
  }

  lemma {:induction false} ArgParsed(ts: Stream, i: nat, target: FuncType, funcs: Registry)
    requires i < |ts|
    ensures var r := ParseArg(ts, i, target, funcs); r.Done? ==> RawAt(r.value, ts, i, r.next)
    decreases |ts| - i, 7
  {
    hide ParseLogicalArg, ParseFilterQuery, ParseCall, ParseLiteral, QueryAt, OrAt, CallAt, LiteralAt, T.ValidSymbol;
    LogicalArgParsed(ts, i, funcs);
    var k := ts[i].kind;
    if k == T.At_ || k == T.Dollar {
      QueryParsed(ts, i, funcs);
    } else if k == T.Ident {
      CallParsed(ts, i, funcs);
    } else {
      LiteralParsed(ts, i);
    }
  }

  lemma CallAnatomy(ts: Stream, i: nat, funcs: Registry)
    requires i < |ts| && ts[i].kind == T.Ident && ParseCall(ts, i, funcs).Done?
    ensures i + 2 < |ts| && !ts[i + 1].gap && ts[i + 1].kind == T.LeftParen && ts[i].text in funcs
    ensures var sig := funcs[ts[i].text];
            var p := if ts[i + 2].kind == T.RightParen then Done([], i + 2)
              else ParseArgs(ts, i + 2, sig.params, 0, i, funcs);
            && p.Done? && p.next < |ts| && ts[p.next].kind == T.RightParen && CompileArgs(sig.params, p.value).Some?
            && ParseCall(ts, i, funcs)
              == Done(FuncExpr(ts[i].text, sig.result, CompileArgs(sig.params, p.value).value), p.next + 1)
  {
    hide ParseArgs, CompileArgs, T.ValidSymbol;
  }

  lemma {:induction false} CallParsed(ts: Stream, i: nat, funcs: Registry)
    requires i < |ts| && ts[i].kind == T.Ident
    ensures var r := ParseCall(ts, i, funcs); r.Done? ==> CallAt(r.value, ts, i, r.next)
    decreases |ts| - i, 1
  {
    hide ParseCall, ParseArgs, CompileArgs, RawsAt, ArgsAt, T.ValidSymbol;
    if ParseCall(ts, i, funcs).Done? {
      CallAnatomy(ts, i, funcs);
      var params := funcs[ts[i].text].params;
      if ts[i + 2].kind == T.RightParen {
        CompiledNothing(params);
      } else {
        var raws := ParseArgs(ts, i + 2, params, 0, i, funcs);
        ArgsParsed(ts, i + 2, params, 0, i, funcs);
        CompiledAllAt(params, raws.value, ts, i + 2, raws.next);
      }
    }
  }

  lemma CompiledNothing(params: seq<FuncType>)
    ensures CompileArgs(params, []).Some? ==> CompileArgs(params, []).value == []
  {
  }

  // ---- The parser decides the grammar

  lemma ParsedSpells(ts: Stream, funcs: Registry)
    ensures var r := ParseQuery(ts, funcs); r.Done? ==> Spells(r.value, ts) && r.next == |ts| - 1
  {
    hide QueryAt, ParseSegments, T.ValidSymbol;
    QueryParsed(ts, 0, funcs);
  }

  /**
   * A stream of lexemes parses to a query if and only if it spells that query and the query is well typed: the
   * backtracking parser decides the grammar together with its typing rules, and no stream spells two such queries.
   */
  lemma ParsesIffSpells(q: PathQuery, ts: Stream, funcs: Registry)
    ensures ParseQuery(ts, funcs) == Done(q, |ts| - 1) <==> Spells(q, ts) && WellTypedQuery(q, funcs)
  {
    hide ParseQuery, Spells, WellTypedQuery;
    ParsedSpells(ts, funcs);
    TypeSafety.ParsedQueriesTyped(ts, funcs);
    if Spells(q, ts) && WellTypedQuery(q, funcs) {
      SpelledParses(q, ts, funcs);
    }
  }

  /** No stream spells two well-typed queries. */
  lemma SpellingUnique(p: PathQuery, q: PathQuery, ts: Stream, funcs: Registry)
    requires Spells(p, ts) && Spells(q, ts) && WellTypedQuery(p, funcs) && WellTypedQuery(q, funcs)
    ensures p == q
  {
    hide ParseQuery, Spells, WellTypedQuery;
    SpelledParses(p, ts, funcs);
    SpelledParses(q, ts, funcs);
  }

  /**
   * A source is accepted as a query if and only if its lexemes spell it, it is well typed, and no blank space stands
   * at either edge of the source.
   */
  lemma SourceParsesIff(s: string, q: PathQuery, funcs: Registry)
    ensures Layout.ParseText(s, funcs) == Ok(q)
       <==> Layout.Lexes(s) && !Layout.BlankEdge(s) && Spells(q, Layout.StreamOf(s)) && WellTypedQuery(q, funcs)
  {
    hide ParseQuery, Spells, WellTypedQuery, T.AllTokens, Layout.StreamOf, T.IsBlank;
    if Layout.Lexes(s) {
      ParsesIffSpells(q, Layout.StreamOf(s), funcs);
      ParsedSpells(Layout.StreamOf(s), funcs);
    }
  }
}
