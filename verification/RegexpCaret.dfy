/**
 * The grammar of RFC 9485 exactly as printed lets `^` be a class character, so it derives `[^]`. The checker always
 * reads `^` right after `[` as negation. The two agree on every pattern without an unescaped `[^]`, and only there.
 */
module RegexpCaret {
  import opened Common
  import opened Text
  import opened RegexpGrammar
  import opened RegexpChecker
  import RegexpSound

  const BARE := CharClass(false, false, [Single(Plain('^'))], false)

  // ---- Trees of the printed grammar; `bare` says whether the class `[^]` may occur

  predicate AbnfRegexp(re: Regexp, bare: bool) {
    re.branches != [] && forall i | 0 <= i < |re.branches| :: AbnfBranch(re.branches[i], bare)
  }

  predicate AbnfBranch(b: Branch, bare: bool) {
    forall i | 0 <= i < |b.pieces| :: AbnfPiece(b.pieces[i], bare)
  }

  predicate AbnfPiece(p: Piece, bare: bool) {
    AbnfAtom(p.atom, bare) && ValidQuantifier(p.quantifier)
  }

  predicate AbnfAtom(a: Atom, bare: bool) {
    match a
    case ClassExpr(cls) => ClassOfABNF(cls) && (bare || cls != BARE)
    case Group(re) => AbnfRegexp(re, bare)
    case _ => ValidAtom(a)
  }

  /** The pattern is derivable from the grammar as printed. */
  ghost predicate DerivesPrinted(s: string) {
    exists re :: AbnfRegexp(re, true) && ShowRegexp(re) == s
  }

  /** `[^]` occurs in the pattern with its `[` not escaped. */
  predicate BareCaret(s: string) {
    if s == "" then false
    else if s[0] == '\\' then |s| > 1 && BareCaret(s[2..])
    else "[^]" <= s || BareCaret(s[1..])
  }

  // ---- Rereading: without `[^]`, every leading `^` can be read as negation

  function RereadClass(cls: CharClass): CharClass {
    if cls.negated || cls.hyphenFirst || cls.elements == [] then cls
    else
      match cls.elements[0]
      case Single(Plain(c)) =>
        if c != '^' then cls
        else if |cls.elements| == 1 then CharClass(true, true, [], false)
        else CharClass(true, false, cls.elements[1..], cls.hyphenLast)
      case Span(Plain(c), high) =>
        if c != '^' then cls else CharClass(true, true, [Single(high)] + cls.elements[1..], cls.hyphenLast)
      case _ => cls
  }

  lemma ElementStart(e: Element)
    requires ValidElement(e) && ShowElement(e)[0] == '^'
    ensures (e.Single? && e.ch == Plain('^')) || (e.Span? && e.low == Plain('^'))
  {
  }

  lemma ShowElementsCons(e: Element, es: seq<Element>)
    ensures ShowElements([e] + es) == ShowElement(e) + ShowElements(es)
  {
    hide ShowElement;
    assert ([e] + es)[1..] == es;
  }

  lemma RereadSingle(cls: CharClass)
    requires ClassOfABNF(cls) && cls != BARE && !cls.negated && !cls.hyphenFirst
             && cls.elements[0] == Single(Plain('^'))
    ensures ValidClass(RereadClass(cls)) && ShowClass(RereadClass(cls)) == ShowClass(cls)
  {
    hide ValidElement;
    var rest := cls.elements[1..];
    assert cls.elements == [cls.elements[0]] + rest;
    ShowElementsCons(cls.elements[0], rest);
    assert ShowElement(cls.elements[0]) == "^";
    if |cls.elements| == 1 {
      assert rest == [];
      assert cls.hyphenLast;
    }
    assert "[" + "" + (("^" + ShowElements(rest)) + ShowTail(cls.hyphenLast))
        == "[^" + "" + (ShowElements(rest) + ShowTail(cls.hyphenLast));
    assert "[^" + "" + ("" + "-]") == "[^" + "-" + ("" + "]");
  }

  lemma RereadSpan(cls: CharClass, high: ClassChar)
    requires ClassOfABNF(cls) && !cls.negated && !cls.hyphenFirst && cls.elements != []
             && cls.elements[0] == Span(Plain('^'), high)
    ensures ValidClass(RereadClass(cls)) && ShowClass(RereadClass(cls)) == ShowClass(cls)
  {
    hide ValidClassChar, ShowClassChar, ShowElements, ShowTail;
    var rest := cls.elements[1..];
    assert ValidElement(cls.elements[0]);
    assert cls.elements == [cls.elements[0]] + rest;
    ShowElementsCons(cls.elements[0], rest);
    ShowElementsCons(Single(high), rest);
    CaretShown();
    RegroupSpan(ShowClassChar(high), ShowElements(rest), ShowTail(cls.hyphenLast));
  }

  lemma RegroupSpan(h: string, r: string, t: string)
    ensures "[" + "" + ((("^" + "-" + h) + r) + t) == "[^" + "-" + ((h + r) + t)
  {
    var x := h + (r + t);
    assert ("^" + "-" + h) + r + t == "^-" + x && (h + r) + t == x;
    assert "[" + "" == "[" && "[^" + "-" == "[^-";
    assert "[" + ("^-" + x) == "[^-" + x;
  }

  lemma CaretShown()
    ensures ShowClassChar(Plain('^')) == "^"
  {
  }

  lemma RereadClassSame(cls: CharClass)
    requires ClassOfABNF(cls) && cls != BARE
    ensures ValidClass(RereadClass(cls)) && ShowClass(RereadClass(cls)) == ShowClass(cls)
  {
    hide ShowElements, ShowElement;
    if !cls.negated && !cls.hyphenFirst && ShowElement(cls.elements[0])[0] == '^' {
      ElementStart(cls.elements[0]);
      match cls.elements[0]
      case Single(_) => RereadSingle(cls);
      case Span(_, high) => RereadSpan(cls, high);
    } else if !cls.negated && !cls.hyphenFirst {
      NotCaret(cls.elements[0]);
    }
  }

  lemma NotCaret(e: Element)
    requires ShowElement(e)[0] != '^'
    ensures !(e.Single? && e.ch == Plain('^')) && !(e.Span? && e.low == Plain('^'))
  {
  }

  function RereadAtom(a: Atom): Atom {
    match a
    case ClassExpr(cls) => ClassExpr(RereadClass(cls))
    case Group(re) => Group(Regexp(RereadBranches(re.branches)))
    case _ => a
  }

  function RereadPiece(p: Piece): Piece {
    Piece(RereadAtom(p.atom), p.quantifier)
  }

  function RereadPieces(ps: seq<Piece>): (r: seq<Piece>)
    ensures |r| == |ps|
  {
    if ps == [] then [] else [RereadPiece(ps[0])] + RereadPieces(ps[1..])
  }

  function RereadBranches(bs: seq<Branch>): (r: seq<Branch>)
    ensures |r| == |bs|
  {
    if bs == [] then [] else [Branch(RereadPieces(bs[0].pieces))] + RereadBranches(bs[1..])
  }

  lemma {:induction false} RereadAtomSame(a: Atom)
    requires AbnfAtom(a, false)
    ensures ValidAtom(RereadAtom(a)) && ShowAtom(RereadAtom(a)) == ShowAtom(a)
    decreases a
  {
    hide ShowBranches, ShowClass, ValidClass, ClassOfABNF, RereadClass, AbnfBranch, ValidBranch;
    match a
    case ClassExpr(cls) => RereadClassSame(cls);
    case Group(re) => RereadBranchesSame(re.branches);
    case _ =>
  }

  lemma {:induction false} RereadPieceSame(p: Piece)
    requires AbnfPiece(p, false)
    ensures ValidPiece(RereadPiece(p)) && ShowPiece(RereadPiece(p)) == ShowPiece(p)
    decreases p
  {
    hide ShowAtom, AbnfAtom, ValidAtom, RereadAtom, ShowQuantifier, ValidQuantifier;
    RereadAtomSame(p.atom);
  }

  lemma {:induction false} RereadPiecesSame(ps: seq<Piece>)
    requires forall i | 0 <= i < |ps| :: AbnfPiece(ps[i], false)
    ensures forall i | 0 <= i < |ps| :: ValidPiece(RereadPieces(ps)[i])
    ensures ShowPieces(RereadPieces(ps)) == ShowPieces(ps)
    decreases ps
  {
    hide ShowPiece, AbnfPiece, ValidPiece, RereadPiece;
    if ps != [] {
      RereadPieceSame(ps[0]);
      RereadPiecesSame(ps[1..]);
      assert RereadPieces(ps)[1..] == RereadPieces(ps[1..]);
    }
  }

  lemma {:induction false} RereadBranchesSame(bs: seq<Branch>)
    requires forall i | 0 <= i < |bs| :: AbnfBranch(bs[i], false)
    ensures forall i | 0 <= i < |bs| :: ValidBranch(RereadBranches(bs)[i])
    ensures ShowBranches(RereadBranches(bs)) == ShowBranches(bs)
    decreases bs
  {
    hide ShowPieces, AbnfPiece, ValidPiece, RereadPieces;
    if bs != [] {
      RereadPiecesSame(bs[0].pieces);
      RereadBranchesSame(bs[1..]);
      assert RereadBranches(bs)[1..] == RereadBranches(bs[1..]);
    }
  }

  // ---- A strict tree is a printed tree without `[^]`

  lemma {:induction false} StrictAtom(a: Atom)
    requires ValidAtom(a)
    ensures AbnfAtom(a, false)
    decreases a
  {
    hide ShowBranches, ValidBranch, AbnfBranch;
    match a
    case ClassExpr(cls) =>
    case Group(re) => StrictBranches(re.branches);
    case _ =>
  }

  lemma {:induction false} StrictBranches(bs: seq<Branch>)
    requires forall i | 0 <= i < |bs| :: ValidBranch(bs[i])
    ensures forall i | 0 <= i < |bs| :: AbnfBranch(bs[i], false)
    decreases bs
  {
    hide ValidAtom, AbnfAtom, ValidQuantifier;
    forall i, k | 0 <= i < |bs| && 0 <= k < |bs[i].pieces|
      ensures AbnfPiece(bs[i].pieces[k], false)
    {
      assert ValidPiece(bs[i].pieces[k]);
      StrictAtom(bs[i].pieces[k].atom);
    }
  }

  // ---- The text shows `[^]` exactly where the tree has it

  predicate Ordinary(c: char) {
    c != '\\' && c != '['
  }

  lemma {:induction false} OrdinaryText(t: string, b: string)
    requires forall i | 0 <= i < |t| :: Ordinary(t[i])
    ensures BareCaret(t + b) == BareCaret(b)
  {
    if t == "" {
      assert t + b == b;
    } else {
      OrdinaryText(t[1..], b);
      assert (t + b)[1..] == t[1..] + b;
    }
  }

  lemma EscapedText(c: char, b: string)
    ensures BareCaret(['\\', c] + b) == BareCaret(b)
  {
    assert (['\\', c] + b)[2..] == b;
  }

  lemma CategoryText(n: bool, p: string, b: string)
    requires IsCategory(p)
    ensures BareCaret(ShowCategory(n, p) + b) == BareCaret(b)
  {
    hide IsCategory, BareCaret;
    var body := "{" + p + "}";
    CategoryOrdinary(p);
    OrdinaryText(body, b);
    EscapedText(if n then 'P' else 'p', body + b);
    assert ShowCategory(n, p) + b == ['\\', if n then 'P' else 'p'] + (body + b);
  }

  lemma CategoryOrdinary(p: string)
    requires IsCategory(p)
    ensures forall i | 0 <= i < |p| :: Ordinary(p[i])
  {
  }

  lemma ClassCharText(ch: ClassChar, b: string)
    requires ValidClassChar(ch)
    ensures BareCaret(ShowClassChar(ch) + b) == BareCaret(b)
  {
    hide BareCaret;
    match ch
    case Plain(c) => OrdinaryText([c], b);
    case Escape(c) => EscapedText(c, b);
  }

  lemma ElementText(e: Element, b: string)
    requires ValidElement(e)
    ensures BareCaret(ShowElement(e) + b) == BareCaret(b)
  {
    hide BareCaret, ShowClassChar, ValidClassChar, IsCategory, ShowCategory;
    match e
    case Single(ch) => ClassCharText(ch, b);
    case Span(low, high) =>
      ClassCharText(high, b);
      OrdinaryText("-", ShowClassChar(high) + b);
      ClassCharText(low, "-" + (ShowClassChar(high) + b));
      assert ShowClassChar(low) + "-" + ShowClassChar(high) + b
             == ShowClassChar(low) + ("-" + (ShowClassChar(high) + b));
    case Category(n, p) => CategoryText(n, p, b);
  }

  lemma {:induction false} ElementsText(es: seq<Element>, b: string)
    requires forall i | 0 <= i < |es| :: ValidElement(es[i])
    ensures BareCaret(ShowElements(es) + b) == BareCaret(b)
  {
    hide BareCaret, ShowElement, ValidElement;
    if es == [] {
      assert "" + b == b;
    } else {
      ElementsText(es[1..], b);
      ElementText(es[0], ShowElements(es[1..]) + b);
      assert ShowElements(es) + b == ShowElement(es[0]) + (ShowElements(es[1..]) + b);
    }
  }

  /** After its opening bracket, a class shows no `[^]`. */
  lemma ClassBodyText(cls: CharClass, b: string)
    requires ClassOfABNF(cls)
    ensures BareCaret(ShowClass(cls)[1..] + b) == BareCaret(b)
  {
    hide BareCaret, ValidElement, ShowElements;
    var open := (if cls.negated then "^" else "") + (if cls.hyphenFirst then "-" else "");
    var es, tail := ShowElements(cls.elements), ShowTail(cls.hyphenLast);
    assert ShowClass(cls) == "[" + (open + (es + tail));
    assert ShowClass(cls)[1..] == open + (es + tail);
    assert (open + (es + tail)) + b == open + (es + (tail + b));
    OrdinaryText(tail, b);
    ElementsText(cls.elements, tail + b);
    OrdinaryText(open, es + (tail + b));
  }

  lemma PrefixChars(t: string)
    requires |t| >= 3
    ensures "[^]" <= t <==> t[0] == '[' && t[1] == '^' && t[2] == ']'
  {
  }

  lemma ShownLength(cls: CharClass)
    requires ClassOfABNF(cls)
    ensures |ShowClass(cls)| >= 3 && ShowClass(cls)[0] == '['
  {
    hide ShowElements, ValidElement, ShowElement;
    if cls.elements != [] {
      FirstShown(cls.elements);
    }
  }

  lemma NegatedStart(cls: CharClass, b: string)
    requires ClassOfABNF(cls) && cls.negated
    ensures |ShowClass(cls)| >= 3 && (ShowClass(cls) + b)[2] != ']'
  {
    hide ShowElements, ValidElement, ShowElement;
    if cls.elements != [] {
      FirstShown(cls.elements);
    }
  }

  lemma HyphenStart(cls: CharClass, b: string)
    requires ClassOfABNF(cls) && !cls.negated && cls.hyphenFirst
    ensures (ShowClass(cls) + b)[1] == '-'
  {
    hide ShowElements, ValidElement;
  }

  lemma ClassStart(cls: CharClass, b: string)
    requires ClassOfABNF(cls)
    ensures "[^]" <= ShowClass(cls) + b <==> cls == BARE
  {
    hide ShowClass, ClassOfABNF;
    var text := ShowClass(cls) + b;
    ShownLength(cls);
    PrefixChars(text);
    BareShown();
    if cls.negated {
      NegatedStart(cls, b);
    } else if cls.hyphenFirst {
      HyphenStart(cls, b);
    } else {
      CaretThenBracket(cls, b);
    }
  }

  lemma BareShown()
    ensures ShowClass(BARE) == "[^]"
  {
    assert BARE.elements[1..] == [];
    assert ShowElements(BARE.elements) == "^" + "";
  }

  lemma FirstShown(es: seq<Element>)
    requires es != [] && forall i | 0 <= i < |es| :: ValidElement(es[i])
    ensures ShowElements(es) != "" && ShowElements(es)[0] == ShowElement(es[0])[0]
    ensures ShowElement(es[0])[0] != ']' && ShowElement(es[0])[0] != '-'
  {
    hide ShowElement;
    assert ValidElement(es[0]);
    ElementShown(es[0]);
  }

  lemma ElementShown(e: Element)
    requires ValidElement(e)
    ensures ShowElement(e)[0] != ']' && ShowElement(e)[0] != '-'
  {
    hide IsCategory;
  }

  /** The first two characters of a positive class after its bracket. */
  lemma PositiveStart(cls: CharClass, b: string)
    requires ClassOfABNF(cls) && !cls.negated && !cls.hyphenFirst
    ensures var e, rest := cls.elements[0], cls.elements[1..];
            var more := ShowElements(rest) + ShowTail(cls.hyphenLast);
            more != "" && ShowClass(cls) + b == "[" + (ShowElement(e) + (more + b))
  {
    hide ShowElements, ShowElement, ValidElement;
    var e, rest := cls.elements[0], cls.elements[1..];
    assert cls.elements == [e] + rest;
    ShowElementsCons(e, rest);
    var x, y, z := ShowElement(e), ShowElements(rest), ShowTail(cls.hyphenLast);
    assert "[" + "" + ((x + y) + z) + b == "[" + (x + ((y + z) + b));
  }

  /** Only a last element with no hyphen behind it is followed by the closing bracket. */
  lemma MoreStart(es: seq<Element>, hyphenLast: bool)
    requires forall i | 0 <= i < |es| :: ValidElement(es[i])
    ensures var more := ShowElements(es) + ShowTail(hyphenLast);
            more != "" && (more[0] == ']' <==> es == [] && !hyphenLast)
  {
    hide ShowElements, ValidElement, ShowElement;
    if es == [] {
      NoElements();
    } else {
      FirstShown(es);
    }
  }

  /** A positive class that starts with `[^]` is that class. */
  lemma CaretThenBracket(cls: CharClass, b: string)
    requires ClassOfABNF(cls) && !cls.negated && !cls.hyphenFirst
    ensures var text := ShowClass(cls) + b; |text| >= 3 && (text[1] == '^' && text[2] == ']' ==> cls == BARE)
  {
    hide ShowElements, IsCategory, ShowClass, ShowTail;
    var e, rest := cls.elements[0], cls.elements[1..];
    var more := ShowElements(rest) + ShowTail(cls.hyphenLast);
    PositiveStart(cls, b);
    MoreStart(rest, cls.hyphenLast);
    assert ValidElement(e);
    if ShowElement(e)[0] == '^' {
      ElementStart(e);
      if e.Span? {
        CaretShown();
        assert ShowElement(e)[1] == '-';
      } else {
        assert ShowElement(e) == "^";
        assert (ShowClass(cls) + b)[2] == more[0];
        assert cls.elements == [e] + rest;
      }
    }
  }

  lemma NoElements()
    ensures ShowElements([]) == ""
  {
  }

  lemma ClassText(cls: CharClass, b: string)
    requires ClassOfABNF(cls)
    ensures BareCaret(ShowClass(cls) + b) <==> cls == BARE || BareCaret(b)
  {
    hide ShowElements, ClassOfABNF;
    var text := ShowClass(cls) + b;
    ClassStart(cls, b);
    ClassBodyText(cls, b);
    assert text[0] == '[' && text[1..] == ShowClass(cls)[1..] + b;
  }

  lemma QuantifierText(q: Quantifier, b: string)
    requires ValidQuantifier(q)
    ensures BareCaret(ShowQuantifier(q) + b) == BareCaret(b)
  {
    hide BareCaret;
    forall i | 0 <= i < |ShowQuantifier(q)|
      ensures Ordinary(ShowQuantifier(q)[i])
    {
      if q.Range? {
        RangeOrdinary(q.low, q.high);
      }
    }
    OrdinaryText(ShowQuantifier(q), b);
  }

  lemma RangeOrdinary(low: string, high: Option<string>)
    requires AllDigits(low) && (high.Some? ==> AllDigits(high.value))
    ensures forall i | 0 <= i < |ShowQuantifier(Range(low, high))| :: Ordinary(ShowQuantifier(Range(low, high))[i])
  {
  }

  lemma {:induction false} AtomText(a: Atom, b: string)
    requires AbnfAtom(a, true)
    ensures BareCaret(ShowAtom(a) + b) <==> !AbnfAtom(a, false) || BareCaret(b)
    decreases a
  {
    hide BareCaret, ShowBranches, ShowClass, ClassOfABNF, ShowCategory, IsCategory, AbnfBranch;
    match a
    case NormalChar(c) => OrdinaryText([c], b);
    case Dot => OrdinaryText(".", b);
    case SingleCharEsc(c) => EscapedText(c, b);
    case CategoryEsc(n, p) => CategoryText(n, p, b);
    case ClassExpr(cls) => ClassText(cls, b);
    case Group(re) =>
      var t := ShowBranches(re.branches);
      OrdinaryText(")", b);
      BranchesText(re.branches, ")" + b);
      OrdinaryText("(", t + (")" + b));
      assert ("(" + t + ")") + b == "(" + (t + (")" + b));
  }

  predicate AllPieces(ps: seq<Piece>, bare: bool) {
    forall i | 0 <= i < |ps| :: AbnfPiece(ps[i], bare)
  }

  lemma {:induction false} PiecesText(ps: seq<Piece>, b: string)
    requires AllPieces(ps, true)
    ensures BareCaret(ShowPieces(ps) + b) <==> !AllPieces(ps, false) || BareCaret(b)
    decreases ps
  {
    hide BareCaret, ShowPiece, AbnfPiece, AllPieces;
    if ps == [] {
      assert "" + b == b;
      NoPieces();
    } else {
      PiecesCons(ps, true);
      PiecesCons(ps, false);
      PiecesText(ps[1..], b);
      PieceText(ps[0], ShowPieces(ps[1..]) + b);
      assert ShowPieces(ps) + b == ShowPiece(ps[0]) + (ShowPieces(ps[1..]) + b);
    }
  }

  lemma NoPieces()
    ensures AllPieces([], false)
  {
  }

  lemma {:induction false} PieceText(p: Piece, b: string)
    requires AbnfPiece(p, true)
    ensures BareCaret(ShowPiece(p) + b) <==> !AbnfPiece(p, false) || BareCaret(b)
    decreases p
  {
    hide BareCaret, ShowAtom, ShowQuantifier, AbnfAtom, ValidQuantifier;
    var q := ShowQuantifier(p.quantifier);
    QuantifierText(p.quantifier, b);
    AtomText(p.atom, q + b);
    assert ShowPiece(p) + b == ShowAtom(p.atom) + (q + b);
  }

  lemma PiecesCons(ps: seq<Piece>, bare: bool)
    requires ps != []
    ensures AllPieces(ps, bare) <==> AbnfPiece(ps[0], bare) && AllPieces(ps[1..], bare)
  {
    hide AbnfPiece;
    if AbnfPiece(ps[0], bare) && AllPieces(ps[1..], bare) {
      forall i | 0 <= i < |ps|
        ensures AbnfPiece(ps[i], bare)
      {
        if i > 0 {
          assert ps[i] == ps[1..][i - 1];
        }
      }
    }
  }

  predicate AllBranches(bs: seq<Branch>, bare: bool) {
    forall i | 0 <= i < |bs| :: AbnfBranch(bs[i], bare)
  }

  lemma BranchesCons(bs: seq<Branch>, bare: bool)
    requires bs != []
    ensures AllBranches(bs, bare) <==> AbnfBranch(bs[0], bare) && AllBranches(bs[1..], bare)
  {
    hide AbnfBranch;
    if AbnfBranch(bs[0], bare) && AllBranches(bs[1..], bare) {
      forall i | 0 <= i < |bs|
        ensures AbnfBranch(bs[i], bare)
      {
        if i > 0 {
          assert bs[i] == bs[1..][i - 1];
        }
      }
    }
  }

  lemma {:induction false} BranchesText(bs: seq<Branch>, b: string)
    requires AllBranches(bs, true)
    ensures BareCaret(ShowBranches(bs) + b) <==> !AllBranches(bs, false) || BareCaret(b)
    decreases bs
  {
    hide BareCaret, ShowPieces, AbnfPiece;
    if bs == [] {
      assert "" + b == b;
    } else {
      BranchesCons(bs, true);
      BranchesCons(bs, false);
      var rest := ShowBranches(bs[1..]) + b;
      BranchesText(bs[1..], b);
      if |bs| == 1 {
        assert bs[1..] == [];
        assert rest == b;
        PiecesText(bs[0].pieces, b);
      } else {
        OrdinaryText("|", rest);
        PiecesText(bs[0].pieces, "|" + rest);
        assert ShowBranches(bs) + b == ShowPieces(bs[0].pieces) + ("|" + rest);
      }
    }
  }

  lemma RegexpText(re: Regexp)
    requires AbnfRegexp(re, true)
    ensures BareCaret(ShowRegexp(re)) <==> !AbnfRegexp(re, false)
  {
    hide BareCaret, ShowBranches, AbnfBranch;
    BranchesText(re.branches, "");
    assert ShowRegexp(re) + "" == ShowRegexp(re);
    NoCaret();
  }

  lemma NoCaret()
    ensures !BareCaret("")
  {
  }

  lemma {:induction false} BareAllowedAtom(a: Atom)
    requires AbnfAtom(a, false)
    ensures AbnfAtom(a, true)
    decreases a
  {
    hide AbnfBranch, ClassOfABNF;
    if a.Group? {
      BareAllowed(a.inner);
    }
  }

  lemma {:induction false} BareAllowed(re: Regexp)
    requires AbnfRegexp(re, false)
    ensures AbnfRegexp(re, true)
    decreases re
  {
    hide AbnfAtom, ValidQuantifier;
    forall i, k | 0 <= i < |re.branches| && 0 <= k < |re.branches[i].pieces|
      ensures AbnfPiece(re.branches[i].pieces[k], true)
    {
      assert AbnfPiece(re.branches[i].pieces[k], false);
      BareAllowedAtom(re.branches[i].pieces[k].atom);
    }
  }

  /** The checker accepts exactly the patterns the printed grammar derives that show no unescaped `[^]`. */
  lemma AcceptsIffPrintedWithoutBareCaret(s: string)
    ensures Accepts(s, 0, 0, false) <==> DerivesPrinted(s) && !BareCaret(s)
  {
    hide Accepts, BareCaret, ShowRegexp, AbnfRegexp, ValidRegexp;
    RegexpSound.AcceptsIffDerives(s);
    if Derives(s) {
      var re :| ValidRegexp(re) && ShowRegexp(re) == s;
      StrictRegexp(re);
      BareAllowed(re);
      RegexpText(re);
    }
    if DerivesPrinted(s) && !BareCaret(s) {
      var re :| AbnfRegexp(re, true) && ShowRegexp(re) == s;
      RegexpText(re);
      RereadRegexp(re);
    }
  }

  lemma StrictRegexp(re: Regexp)
    requires ValidRegexp(re)
    ensures AbnfRegexp(re, false)
  {
    hide ValidBranch, AbnfBranch;
    StrictBranches(re.branches);
  }

  lemma RereadRegexp(re: Regexp)
    requires AbnfRegexp(re, false)
    ensures Derives(ShowRegexp(re))
  {
    hide ValidBranch, AbnfBranch, ShowBranches;
    RereadBranchesSame(re.branches);
    var strict := Regexp(RereadBranches(re.branches));
    assert ValidRegexp(strict) && ShowRegexp(strict) == ShowRegexp(re);
  }

  /** So the checker decides the printed grammar on a pattern unless the pattern is derivable and shows `[^]`. */
  lemma AgreesWithPrinted(s: string)
    ensures (Accepts(s, 0, 0, false) <==> DerivesPrinted(s)) <==> !(DerivesPrinted(s) && BareCaret(s))
  {
    hide Accepts, BareCaret, DerivesPrinted;
    AcceptsIffPrintedWithoutBareCaret(s);
  }
}
