/** Completeness: the checker's recogniser accepts whatever the grammar derives. */
module RegexpComplete {
  import opened Common
  import opened Text
  import opened RegexpGrammar
  import opened RegexpChecker

  lemma CategoryHasNoBrace(p: string)
    requires IsCategory(p)
    ensures '}' !in p
  {
  }

  lemma PropertyComplete(s: string, i: nat, p: string)
    requires IsCategory(p) && At(s, i, "{" + p + "}")
    ensures PropertyEnd(s, i) == Some(i + |p| + 2)
  {
    hide IsCategory;
    CategoryHasNoBrace(p);
    AtConcat(s, i, "{" + p, "}");
    AtConcat(s, i, "{", p);
    AtIndex(s, i, "{", 0);
    AtIndex(s, i + 1 + |p|, "}", 0);
    forall x | i + 1 <= x < i + 1 + |p|
      ensures s[x] != '}'
    {
      AtIndex(s, i + 1, p, x - i - 1);
    }
  }

  lemma CategoryComplete(s: string, i: nat, n: bool, p: string)
    requires IsCategory(p) && At(s, i, ShowCategory(n, p))
    ensures i + 1 < |s| && s[i] == '\\' && s[i + 1] == (if n then 'P' else 'p')
    ensures PropertyEnd(s, i + 2) == Some(i + |ShowCategory(n, p)|)
  {
    hide IsCategory;
    var head := if n then "\\P" else "\\p";
    assert ShowCategory(n, p) == head + ("{" + p + "}");
    AtConcat(s, i, head, "{" + p + "}");
    AtIndex(s, i, head, 0);
    AtIndex(s, i, head, 1);
    PropertyComplete(s, i + 2, p);
  }

  // ---- Classes

  lemma ClassCharComplete(s: string, i: nat, ch: ClassChar)
    requires ValidClassChar(ch) && At(s, i, ShowClassChar(ch))
    ensures ClassCharEnd(s, i) == Some(i + |ShowClassChar(ch)|)
    ensures s[i] == ShowClassChar(ch)[0] && s[i] != ']' && s[i] != '-'
    ensures s[i] == '\\' ==> i + 1 < |s| && IsSingleCharEscape(s[i + 1])
  {
    AtIndex(s, i, ShowClassChar(ch), 0);
    if ch.Escape? {
      AtIndex(s, i, ShowClassChar(ch), 1);
    }
  }

  /** No hyphen follows at `j`, unless it is the one right before the closing bracket. */
  predicate ElementStops(s: string, j: nat) {
    j < |s| && (s[j] != '-' || (j + 1 < |s| && s[j + 1] == ']'))
  }

  lemma SpanComplete(s: string, i: nat, low: ClassChar, high: ClassChar)
    requires ValidClassChar(low) && ValidClassChar(high) && At(s, i, ShowClassChar(low) + "-" + ShowClassChar(high))
    ensures i < |s| && s[i] == ShowClassChar(low)[0] && s[i] != ']' && s[i] != '-'
    ensures ElementEnd(s, i) == Some(i + |ShowClassChar(low)| + 1 + |ShowClassChar(high)|)
  {
    hide ValidClassChar, ShowClassChar, ClassCharEnd;
    var j := i + |ShowClassChar(low)|;
    AtConcat(s, i, ShowClassChar(low) + "-", ShowClassChar(high));
    AtConcat(s, i, ShowClassChar(low), "-");
    AtIndex(s, j, "-", 0);
    ClassCharComplete(s, i, low);
    ClassCharComplete(s, j + 1, high);
  }

  lemma ElementComplete(s: string, i: nat, e: Element)
    requires ValidElement(e) && At(s, i, ShowElement(e)) && ElementStops(s, i + |ShowElement(e)|)
    ensures i < |s| && s[i] == ShowElement(e)[0] && s[i] != ']' && s[i] != '-'
    ensures ElementEnd(s, i) == Some(i + |ShowElement(e)|)
  {
    match e
    case Single(ch) => ClassCharComplete(s, i, ch);
    case Span(low, high) =>
      SpanComplete(s, i, low, high);
    case Category(n, p) =>
      CategoryComplete(s, i, n, p);
  }

  /** The first element of a class and what stands behind it. */
  lemma ElementsHead(s: string, i: nat, es: seq<Element>, hyphenLast: bool)
    requires es != [] && At(s, i, ShowElements(es) + ShowTail(hyphenLast))
    ensures At(s, i, ShowElement(es[0]))
    ensures At(s, i + |ShowElement(es[0])|, ShowElements(es[1..]) + ShowTail(hyphenLast))
  {
    hide ShowElement, ShowTail;
    AtConcat(s, i, ShowElements(es), ShowTail(hyphenLast));
    AtConcat(s, i, ShowElement(es[0]), ShowElements(es[1..]));
    AtConcat(s, i + |ShowElement(es[0])|, ShowElements(es[1..]), ShowTail(hyphenLast));
  }

  lemma {:induction false} ElementsComplete(s: string, i: nat, es: seq<Element>, hyphenLast: bool)
    requires (forall k | 0 <= k < |es| :: ValidElement(es[k])) && At(s, i, ShowElements(es) + ShowTail(hyphenLast))
    ensures ElementsEnd(s, i) == Some(i + |ShowElements(es)| + |ShowTail(hyphenLast)|)
    ensures ElementStops(s, i)
    decreases |es|
  {
    hide ShowElement, ElementEnd;
    AtConcat(s, i, ShowElements(es), ShowTail(hyphenLast));
    if es == [] {
      AtIndex(s, i, ShowTail(hyphenLast), 0);
      if hyphenLast {
        AtIndex(s, i, ShowTail(hyphenLast), 1);
      }
    } else {
      ElementsHead(s, i, es, hyphenLast);
      ElementsComplete(s, i + |ShowElement(es[0])|, es[1..], hyphenLast);
      ElementComplete(s, i, es[0]);
    }
  }

  lemma ClassComplete(s: string, i: nat, cls: CharClass)
    requires ValidClass(cls) && At(s, i, ShowClass(cls))
    ensures i < |s| && s[i] == '[' && ClassEnd(s, i) == Some(i + |ShowClass(cls)|)
  {
    hide ShowElements, ShowTail, ElementEnd, ElementsEnd, ShowElement, ElementStops;
    var open := if cls.negated then "[^" else "[";
    var hyphen := if cls.hyphenFirst then "-" else "";
    var rest := ShowElements(cls.elements) + ShowTail(cls.hyphenLast);
    AtConcat(s, i, open + hyphen, rest);
    AtConcat(s, i, open, hyphen);
    AtIndex(s, i, open, 0);
    var j := i + |open|;
    ElementsComplete(s, j + |hyphen|, cls.elements, cls.hyphenLast);
    if cls.negated {
      AtIndex(s, i, open, 1);
    }
    if cls.hyphenFirst {
      AtIndex(s, j, hyphen, 0);
    } else {
      FirstElement(s, j, cls.elements, cls.hyphenLast);
    }
  }

  lemma FirstElement(s: string, j: nat, es: seq<Element>, hyphenLast: bool)
    requires es != [] && (forall k | 0 <= k < |es| :: ValidElement(es[k]))
             && At(s, j, ShowElements(es) + ShowTail(hyphenLast))
    ensures j < |s| && s[j] == ShowElement(es[0])[0] && s[j] != ']' && s[j] != '-'
    ensures ElementEnd(s, j).Some? && ElementsEnd(s, ElementEnd(s, j).value) == ElementsEnd(s, j)
  {
    hide ShowElement, ElementEnd, ElementsEnd, ShowElements, ShowTail;
    ElementsHead(s, j, es, hyphenLast);
    ElementsComplete(s, j + |ShowElement(es[0])|, es[1..], hyphenLast);
    ElementComplete(s, j, es[0]);
    ElementsStep(s, j);
  }

  lemma ElementsStep(s: string, j: nat)
    requires j < |s| && s[j] != ']' && s[j] != '-' && ElementEnd(s, j).Some?
    ensures ElementsEnd(s, j) == ElementsEnd(s, ElementEnd(s, j).value)
  {
    hide ElementEnd;
  }

  // ---- Quantifiers

  lemma DigitsComplete(s: string, i: nat, digits: string)
    requires AllDigits(digits) && At(s, i, digits) && i + |digits| < |s| && !IsDigit(s[i + |digits|])
    ensures DigitsEnd(s, i) == i + |digits|
  {
    var k := DigitsEnd(s, i);
    forall x | i <= x < i + |digits|
      ensures IsDigit(s[x])
    {
      AtIndex(s, i, digits, x - i);
    }
  }

  lemma QuantifierComplete(s: string, i: nat, q: Quantifier)
    requires ValidQuantifier(q) && !q.Once? && At(s, i, ShowQuantifier(q))
    ensures i < |s| && IsQuantifier(s[i]) && QuantifierEnd(s, i) == Some(i + |ShowQuantifier(q)|)
  {
    if q.Range? {
      RangeComplete(s, i, q.low, q.high);
    } else {
      AtIndex(s, i, ShowQuantifier(q), 0);
    }
  }

  lemma RangeComplete(s: string, i: nat, low: string, high: Option<string>)
    requires low != "" && AllDigits(low) && (high.Some? ==> AllDigits(high.value))
    requires At(s, i, ShowQuantifier(Range(low, high)))
    ensures i < |s| && s[i] == '{' && QuantifierEnd(s, i) == Some(i + |ShowQuantifier(Range(low, high))|)
  {
    hide At, DigitsEnd, DigitsIn, AllDigits, QuantifierEnd, ShowQuantifier;
    var tail := if high.Some? then "," + high.value else "";
    var k := i + 1 + |low|;
    RangeShown(low, high, tail);
    RangeParts(s, i, low, tail);
    DigitsComplete(s, i + 1, low);
    if high.Some? {
      UpperBoundComplete(s, k, high.value);
    }
    RangeEnds(s, i, k, k + |tail|);
  }

  lemma RangeShown(low: string, high: Option<string>, tail: string)
    requires tail == if high.Some? then "," + high.value else ""
    ensures ShowQuantifier(Range(low, high)) == "{" + low + tail + "}"
    ensures |ShowQuantifier(Range(low, high))| == |low| + |tail| + 2
  {
  }

  lemma RangeEnds(s: string, i: nat, k: nat, m: nat)
    requires i < |s| && s[i] == '{' && i + 1 < k <= m < |s| && DigitsEnd(s, i + 1) == k && s[m] == '}'
    requires k == m || (s[k] == ',' && DigitsEnd(s, k + 1) == m)
    ensures QuantifierEnd(s, i) == Some(m + 1)
  {
    hide DigitsEnd;
  }

  lemma UpperBoundComplete(s: string, k: nat, digits: string)
    requires AllDigits(digits) && At(s, k, "," + digits)
    requires k + 1 + |digits| < |s| && !IsDigit(s[k + 1 + |digits|])
    ensures DigitsEnd(s, k + 1) == k + 1 + |digits|
  {
    hide DigitsEnd, AllDigits;
    AtConcat(s, k, ",", digits);
    DigitsComplete(s, k + 1, digits);
  }

  lemma RangeParts(s: string, i: nat, low: string, tail: string)
    requires At(s, i, "{" + low + tail + "}")
    ensures i < |s| && s[i] == '{' && At(s, i + 1, low)
    ensures var k := i + 1 + |low|; At(s, k, tail) && k + |tail| < |s| && s[k + |tail|] == '}'
    ensures tail != "" ==> s[i + 1 + |low|] == tail[0]
  {
    AtConcat(s, i, "{" + low + tail, "}");
    AtConcat(s, i, "{" + low, tail);
    AtConcat(s, i, "{", low);
    AtIndex(s, i, "{", 0);
    AtIndex(s, i + 1 + |low| + |tail|, "}", 0);
    if tail != "" {
      AtIndex(s, i + 1 + |low|, tail, 0);
    }
  }

  // ---- Atoms, pieces, branches

  /** From `i` the recogniser reads on to `j` at the same depth. */
  predicate Reads(s: string, i: nat, canQuantify: bool, j: nat, after: bool, depth: nat)
    requires i <= |s| && j <= |s|
  {
    Accepts(s, i, depth, canQuantify) == Accepts(s, j, depth, after)
  }

  lemma SimpleAtomComplete(s: string, i: nat, a: Atom, depth: nat, canQuantify: bool)
    requires ValidAtom(a) && !a.Group? && At(s, i, ShowAtom(a))
    ensures Reads(s, i, canQuantify, i + |ShowAtom(a)|, true, depth)
  {
    hide ClassEnd, PropertyEnd, ValidClass, IsCategory, ShowClass, ShowCategory;
    match a
    case NormalChar(c) => AtIndex(s, i, ShowAtom(a), 0);
    case Dot => AtIndex(s, i, ShowAtom(a), 0);
    case SingleCharEsc(c) =>
      AtIndex(s, i, ShowAtom(a), 0);
      AtIndex(s, i, ShowAtom(a), 1);
    case CategoryEsc(n, p) => CategoryComplete(s, i, n, p);
    case ClassExpr(cls) => ClassComplete(s, i, cls);
  }

  lemma GroupReads(s: string, i: nat, j: nat, depth: nat, canQuantify: bool, after: bool)
    requires i < j < |s| && s[i] == '(' && s[j] == ')' && Reads(s, i + 1, false, j, after, depth + 1)
    ensures Reads(s, i, canQuantify, j + 1, true, depth)
  {
  }

  lemma {:induction false} AtomComplete(s: string, i: nat, a: Atom, depth: nat, canQuantify: bool)
    requires ValidAtom(a) && At(s, i, ShowAtom(a))
    ensures Reads(s, i, canQuantify, i + |ShowAtom(a)|, true, depth)
    decreases a
  {
    hide Accepts, ShowBranches;
    if a.Group? {
      var t := ShowRegexp(a.inner);
      AtConcat(s, i, "(" + t, ")");
      AtConcat(s, i, "(", t);
      AtIndex(s, i, "(", 0);
      AtIndex(s, i + 1 + |t|, ")", 0);
      var after := BranchesComplete(s, i + 1, a.inner.branches, depth + 1, false);
      GroupReads(s, i, i + 1 + |t|, depth, canQuantify, after);
    } else {
      SimpleAtomComplete(s, i, a, depth, canQuantify);
    }
  }

  lemma {:induction false} PieceComplete(s: string, i: nat, p: Piece, depth: nat, canQuantify: bool)
    requires ValidPiece(p) && At(s, i, ShowPiece(p))
    ensures Reads(s, i, canQuantify, i + |ShowPiece(p)|, p.quantifier.Once?, depth)
    decreases p
  {
    hide Accepts, ShowAtom, ShowQuantifier;
    AtConcat(s, i, ShowAtom(p.atom), ShowQuantifier(p.quantifier));
    AtomComplete(s, i, p.atom, depth, canQuantify);
    QuantifierReads(s, i + |ShowAtom(p.atom)|, p.quantifier, depth);
  }

  lemma {:induction false} PiecesComplete(s: string, i: nat, ps: seq<Piece>, depth: nat,
          canQuantify: bool) returns (after: bool)
    requires (forall k | 0 <= k < |ps| :: ValidPiece(ps[k])) && At(s, i, ShowPieces(ps))
    ensures Reads(s, i, canQuantify, i + |ShowPieces(ps)|, after, depth)
    decreases ps
  {
    hide Accepts, ShowPiece;
    after := canQuantify;
    if ps != [] {
      AtConcat(s, i, ShowPiece(ps[0]), ShowPieces(ps[1..]));
      PieceComplete(s, i, ps[0], depth, canQuantify);
      after := PiecesComplete(s, i + |ShowPiece(ps[0])|, ps[1..], depth, ps[0].quantifier.Once?);
    }
  }

  lemma QuantifierReads(s: string, j: nat, q: Quantifier, depth: nat)
    requires ValidQuantifier(q) && At(s, j, ShowQuantifier(q))
    ensures Reads(s, j, true, j + |ShowQuantifier(q)|, q.Once?, depth)
  {
    hide ShowQuantifier, QuantifierEnd;
    if q.Once? {
      OnceIsEmpty();
    } else {
      QuantifierComplete(s, j, q);
    }
  }

  lemma OnceIsEmpty()
    ensures ShowQuantifier(Once) == ""
  {
  }

  lemma {:induction false} BranchesComplete(s: string, i: nat, bs: seq<Branch>, depth: nat,
          canQuantify: bool) returns (after: bool)
    requires (forall k | 0 <= k < |bs| :: ValidBranch(bs[k])) && At(s, i, ShowBranches(bs))
    ensures Reads(s, i, canQuantify, i + |ShowBranches(bs)|, after, depth)
    decreases bs
  {
    hide ShowPieces;
    after := canQuantify;
    if |bs| == 1 {
      after := PiecesComplete(s, i, bs[0].pieces, depth, canQuantify);
    } else if |bs| > 1 {
      AtConcat(s, i, ShowBranch(bs[0]) + "|", ShowBranches(bs[1..]));
      AtConcat(s, i, ShowBranch(bs[0]), "|");
      var j := i + |ShowBranch(bs[0])|;
      AtIndex(s, j, "|", 0);
      var middle := PiecesComplete(s, i, bs[0].pieces, depth, canQuantify);
      after := BranchesComplete(s, j + 1, bs[1..], depth, false);
    }
  }

  lemma GrammarAccepted(re: Regexp)
    requires ValidRegexp(re)
    ensures Accepts(ShowRegexp(re), 0, 0, false)
  {
    var s := ShowRegexp(re);
    assert s[0..|s|] == s;
    var after := BranchesComplete(s, 0, re.branches, 0, false);
  }
}
