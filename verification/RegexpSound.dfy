/** Soundness: whatever the checker's recogniser accepts, the grammar derives. */
module RegexpSound {
  import opened Common
  import opened Text
  import opened RegexpGrammar
  import opened RegexpChecker
  import opened RegexpComplete

  // ---- A tree for each helper construct

  lemma PropertySound(s: string, i: nat)
    requires PropertyEnd(s, i).Some?
    ensures var e := PropertyEnd(s, i).value;
            i + 2 <= e <= |s| && IsCategory(s[i + 1..e - 1]) && s[i..e] == "{" + s[i + 1..e - 1] + "}"
  {
    hide IsCategory;
  }

  lemma CategorySound(s: string, i: nat)
    requires i + 1 < |s| && s[i] == '\\' && (s[i + 1] == 'p' || s[i + 1] == 'P') && PropertyEnd(s, i + 2).Some?
    ensures var e := PropertyEnd(s, i + 2).value;
            && i + 4 <= e <= |s| && IsCategory(s[i + 3..e - 1])
            && s[i..e] == ShowCategory(s[i + 1] == 'P', s[i + 3..e - 1])
  {
    hide IsCategory, PropertyEnd;
    var e := PropertyEnd(s, i + 2).value;
    PropertySound(s, i + 2);
    assert s[i..e] == [s[i], s[i + 1]] + s[i + 2..e];
  }

  lemma ClassCharSound(s: string, i: nat) returns (ch: ClassChar)
    requires ClassCharEnd(s, i).Some?
    ensures ValidClassChar(ch) && s[i..ClassCharEnd(s, i).value] == ShowClassChar(ch)
  {
    ch := if s[i] == '\\' then Escape(s[i + 1]) else Plain(s[i]);
  }

  lemma ElementSound(s: string, i: nat) returns (e: Element)
    requires i < |s| && ElementEnd(s, i).Some?
    ensures ValidElement(e) && s[i..ElementEnd(s, i).value] == ShowElement(e)
  {
    hide PropertyEnd, ClassCharEnd, IsCategory, IsSingleCharEscape, ShowClassChar, ShowCategory, ValidClassChar;
    var k := ElementEnd(s, i).value;
    if s[i] == '\\' && i + 1 < |s| && (s[i + 1] == 'p' || s[i + 1] == 'P') {
      CategorySound(s, i);
      e := Category(s[i + 1] == 'P', s[i + 3..k - 1]);
    } else {
      var low := ClassCharSound(s, i);
      var j := ClassCharEnd(s, i).value;
      if k == j {
        e := Single(low);
      } else {
        var high := ClassCharSound(s, j + 1);
        e := Span(low, high);
        assert s[i..k] == s[i..j] + [s[j]] + s[j + 1..k];
      }
    }
  }

  lemma {:induction false} ElementsSound(s: string, i: nat) returns (es: seq<Element>, hyphenLast: bool)
    requires i <= |s| && ElementsEnd(s, i).Some?
    ensures forall k | 0 <= k < |es| :: ValidElement(es[k])
    ensures s[i..ElementsEnd(s, i).value] == ShowElements(es) + ShowTail(hyphenLast)
    decreases |s| - i
  {
    hide ElementEnd, ShowElement, ValidElement;
    var end := ElementsEnd(s, i).value;
    if s[i] == ']' {
      es, hyphenLast := [], false;
    } else if s[i] == '-' {
      es, hyphenLast := [], true;
    } else {
      var j := ElementEnd(s, i).value;
      var first := ElementSound(s, i);
      var rest;
      rest, hyphenLast := ElementsSound(s, j);
      es := [first] + rest;
      assert es[1..] == rest;
      assert s[i..end] == s[i..j] + s[j..end];
    }
  }

  lemma ClassOpens(s: string, i: nat)
    requires i < |s| && s[i] == '['
    ensures var negated := i + 1 < |s| && s[i + 1] == '^';
            s[i..if negated then i + 2 else i + 1] == if negated then "[^" else "["
  {
    if i + 1 < |s| && s[i + 1] == '^' {
      assert s[i..i + 2] == [s[i], s[i + 1]];
    }
  }

  lemma FirstElementSound(s: string, j: nat) returns (es: seq<Element>, hyphenLast: bool)
    requires j < |s| && ElementEnd(s, j).Some? && ElementsEnd(s, ElementEnd(s, j).value).Some?
    ensures es != [] && (forall k | 0 <= k < |es| :: ValidElement(es[k])) && ShowElement(es[0])[0] == s[j]
    ensures s[j..ElementsEnd(s, ElementEnd(s, j).value).value] == ShowElements(es) + ShowTail(hyphenLast)
  {
    hide ElementEnd, ElementsEnd, ShowElement, ValidElement, ShowTail;
    var k := ElementEnd(s, j).value;
    var end := ElementsEnd(s, k).value;
    var first := ElementSound(s, j);
    var rest;
    rest, hyphenLast := ElementsSound(s, k);
    es := [first] + rest;
    assert es[1..] == rest;
    assert s[j..k][0] == s[j];
    assert s[j..end] == s[j..k] + s[k..end];
  }

  lemma ClassSound(s: string, i: nat) returns (cls: CharClass)
    requires i < |s| && s[i] == '[' && ClassEnd(s, i).Some?
    ensures ValidClass(cls) && s[i..ClassEnd(s, i).value] == ShowClass(cls)
  {
    hide ElementEnd, ElementsEnd, ShowElement, ValidElement, ShowTail, ShowElements;
    var end := ClassEnd(s, i).value;
    var negated := i + 1 < |s| && s[i + 1] == '^';
    var j := if negated then i + 2 else i + 1;
    ClassOpens(s, i);
    if s[j] == '-' {
      var es, hyphenLast := ElementsSound(s, j + 1);
      cls := CharClass(negated, true, es, hyphenLast);
      assert s[i..end] == s[i..j] + "-" + s[j + 1..end];
    } else {
      var es, hyphenLast := FirstElementSound(s, j);
      cls := CharClass(negated, false, es, hyphenLast);
      assert s[i..end] == s[i..j] + "" + s[j..end];
    }
  }

  lemma EscapeSound(s: string, i: nat) returns (a: Atom)
    requires i < |s| && s[i] == '\\' && EscapeEnd(s, i).Some?
    ensures ValidAtom(a) && s[i..EscapeEnd(s, i).value] == ShowAtom(a)
  {
    hide PropertyEnd, IsCategory, ShowCategory;
    if IsSingleCharEscape(s[i + 1]) {
      a := SingleCharEsc(s[i + 1]);
    } else {
      CategorySound(s, i);
      a := CategoryEsc(s[i + 1] == 'P', s[i + 3..EscapeEnd(s, i).value - 1]);
    }
  }

  lemma QuantifierSound(s: string, i: nat) returns (q: Quantifier)
    requires i < |s| && IsQuantifier(s[i]) && QuantifierEnd(s, i).Some?
    ensures ValidQuantifier(q) && !q.Once? && s[i..QuantifierEnd(s, i).value] == ShowQuantifier(q)
  {
    if s[i] != '{' {
      q := Mark(s[i]);
    } else {
      q := RangeSound(s, i);
    }
  }

  lemma BraceShape(s: string, i: nat, k: nat, m: nat)
    requires i < k <= m < |s| && s[i] == '{' && s[m] == '}'
    ensures s[i..m + 1] == "{" + s[i + 1..k] + s[k..m] + "}"
  {
    assert s[i..k] == "{" + s[i + 1..k];
    assert s[i..m] == s[i..k] + s[k..m];
    assert s[i..m + 1] == s[i..m] + "}";
  }

  lemma CommaShape(s: string, k: nat, m: nat)
    requires k < m <= |s| && s[k] == ','
    ensures s[k..m] == "," + s[k + 1..m]
  {
  }

  lemma DigitsSlice(s: string, i: nat, k: nat)
    requires i <= k <= |s| && DigitsIn(s, i, k)
    ensures AllDigits(s[i..k])
  {
    forall x | 0 <= x < k - i
      ensures IsDigit(s[i..k][x])
    {
      assert s[i..k][x] == s[i + x];
    }
  }

  lemma RangeSound(s: string, i: nat) returns (q: Quantifier)
    requires i < |s| && s[i] == '{' && QuantifierEnd(s, i).Some?
    ensures ValidQuantifier(q) && q.Range? && s[i..QuantifierEnd(s, i).value] == ShowQuantifier(q)
  {
    hide DigitsEnd, AllDigits, DigitsIn;
    var k := DigitsEnd(s, i + 1);
    DigitsSlice(s, i + 1, k);
    var low := s[i + 1..k];
    if s[k] == ',' {
      var m := DigitsEnd(s, k + 1);
      DigitsSlice(s, k + 1, m);
      q := Range(low, Some(s[k + 1..m]));
      CommaShape(s, k, m);
      BraceShape(s, i, k, m);
    } else {
      q := Range(low, None);
      BraceShape(s, i, k, k);
      assert s[k..k] == "";
    }
  }

  // ---- Partial derivations: one frame per open group

  /** The branches finished so far in a group and the pieces of the branch being read. */
  datatype Frame = Frame(done: seq<Branch>, current: seq<Piece>)

  predicate ValidFrame(f: Frame) {
    (forall i | 0 <= i < |f.done| :: ValidBranch(f.done[i])) && ValidBranch(Branch(f.current))
  }

  function ShowDone(bs: seq<Branch>): string {
    if bs == [] then "" else ShowBranch(bs[0]) + "|" + ShowDone(bs[1..])
  }

  function ShowFrame(f: Frame): string {
    ShowDone(f.done) + ShowPieces(f.current)
  }

  /** The text of the groups still open around the innermost one. */
  function Around(outer: seq<Frame>): string {
    if outer == [] then "" else Around(outer[..|outer| - 1]) + ShowFrame(outer[|outer| - 1]) + "("
  }

  function Close(f: Frame): Regexp {
    Regexp(f.done + [Branch(f.current)])
  }

  lemma {:induction false} CloseShows(done: seq<Branch>, current: seq<Piece>)
    ensures ShowBranches(done + [Branch(current)]) == ShowDone(done) + ShowPieces(current)
  {
    hide ShowPieces;
    var bs := done + [Branch(current)];
    if done != [] {
      assert bs[1..] == done[1..] + [Branch(current)];
      CloseShows(done[1..], current);
    }
  }

  lemma {:induction false} ShowDoneSnoc(done: seq<Branch>, b: Branch)
    ensures ShowDone(done + [b]) == ShowDone(done) + ShowBranch(b) + "|"
  {
    hide ShowBranch;
    if done == [] {
      assert done + [b] == [b];
      assert [b][1..] == [];
    } else {
      assert (done + [b])[1..] == done[1..] + [b];
      ShowDoneSnoc(done[1..], b);
    }
  }

  lemma ShowPiecesSnoc(ps: seq<Piece>, p: Piece)
    ensures ShowPieces(ps + [p]) == ShowPieces(ps) + ShowPiece(p)
  {
    hide ShowPiece;
    ShowPiecesConcat(ps, [p]);
    assert [p][1..] == [];
    assert ShowPieces([p]) == ShowPiece(p) + ShowPieces([]);
  }

  function AddAtom(f: Frame, a: Atom): Frame {
    Frame(f.done, f.current + [Piece(a, Once)])
  }

  lemma AddAtomShows(f: Frame, a: Atom)
    requires ValidFrame(f) && ValidAtom(a)
    ensures ValidFrame(AddAtom(f, a)) && ShowFrame(AddAtom(f, a)) == ShowFrame(f) + ShowAtom(a)
  {
    hide ShowAtom, ShowPieces, ValidAtom;
    var p := Piece(a, Once);
    ShowPiecesSnoc(f.current, p);
    assert ShowPiece(p) == ShowAtom(a) + "" == ShowAtom(a);
    assert ValidPiece(p);
    assert ShowDone(f.done) + (ShowPieces(f.current) + ShowAtom(a)) == ShowFrame(f) + ShowAtom(a);
  }

  function Quantify(f: Frame, q: Quantifier): Frame
    requires f.current != []
  {
    var n := |f.current| - 1;
    Frame(f.done, f.current[..n] + [Piece(f.current[n].atom, q)])
  }

  lemma QuantifyShows(f: Frame, q: Quantifier)
    requires ValidFrame(f) && f.current != [] && f.current[|f.current| - 1].quantifier.Once? && ValidQuantifier(q)
    ensures ValidFrame(Quantify(f, q)) && ShowFrame(Quantify(f, q)) == ShowFrame(f) + ShowQuantifier(q)
  {
    hide ShowAtom, ShowPieces, ValidAtom, ValidQuantifier;
    var n := |f.current| - 1;
    var p := f.current[n];
    assert f.current == f.current[..n] + [p];
    ShowPiecesSnoc(f.current[..n], p);
    ShowPiecesSnoc(f.current[..n], Piece(p.atom, q));
    OnceIsEmpty();
    assert p.quantifier == Once;
    assert ValidPiece(p) && ValidPiece(Piece(p.atom, q));
    var before := ShowPieces(f.current[..n]);
    assert ShowPieces(f.current) == before + (ShowAtom(p.atom) + "") == before + ShowAtom(p.atom);
    assert ShowDone(f.done) + (before + (ShowAtom(p.atom) + ShowQuantifier(q))) == ShowFrame(f) + ShowQuantifier(q);
  }

  function NextBranch(f: Frame): Frame {
    Frame(f.done + [Branch(f.current)], [])
  }

  lemma NextBranchShows(f: Frame)
    requires ValidFrame(f)
    ensures ValidFrame(NextBranch(f)) && ShowFrame(NextBranch(f)) == ShowFrame(f) + "|"
  {
    hide ShowPieces, ValidPiece;
    ShowDoneSnoc(f.done, Branch(f.current));
    NoPieces();
  }

  lemma NoPieces()
    ensures ShowPieces([]) == ""
  {
  }

  lemma CloseGroupShows(outer: seq<Frame>, f: Frame)
    requires outer != [] && ValidFrame(outer[|outer| - 1]) && ValidFrame(f)
    ensures var parent := AddAtom(outer[|outer| - 1], Group(Close(f)));
            && ValidFrame(parent)
            && Around(outer[..|outer| - 1]) + ShowFrame(parent) == Around(outer) + ShowFrame(f) + ")"
  {
    hide ShowFrame, ValidFrame, ShowAtom, Around, ValidRegexp, Close, AddAtom;
    var parent := outer[|outer| - 1];
    CloseValid(f);
    GroupValid(Close(f));
    AddAtomShows(parent, Group(Close(f)));
    ShowGroup(f);
    AroundOne(outer);
    Regroup(Around(outer[..|outer| - 1]), ShowFrame(parent), ShowFrame(f));
  }

  lemma GroupValid(re: Regexp)
    requires ValidRegexp(re)
    ensures ValidAtom(Group(re))
  {
    hide ValidRegexp;
  }

  lemma ShowGroup(f: Frame)
    ensures ShowAtom(Group(Close(f))) == "(" + ShowFrame(f) + ")"
  {
    hide ShowBranches, ShowDone, ShowPieces;
    CloseShows(f.done, f.current);
  }

  lemma AroundOne(outer: seq<Frame>)
    requires outer != []
    ensures Around(outer) == Around(outer[..|outer| - 1]) + ShowFrame(outer[|outer| - 1]) + "("
  {
    hide ShowFrame;
  }

  lemma Regroup(around: string, parent: string, inner: string)
    ensures around + (parent + ("(" + inner + ")")) == around + parent + "(" + inner + ")"
  {
  }

  lemma CloseValid(f: Frame)
    requires ValidFrame(f)
    ensures ValidRegexp(Close(f))
  {
    hide ValidBranch;
  }

  /** The text read so far, with the groups open around `top`. */
  predicate ReadSoFar(s: string, i: nat, outer: seq<Frame>, top: Frame) {
    && i <= |s| && s[..i] == Around(outer) + ShowFrame(top)
    && ValidFrame(top) && forall k | 0 <= k < |outer| :: ValidFrame(outer[k])
  }

  predicate EndsWithBareAtom(f: Frame) {
    f.current != [] && f.current[|f.current| - 1].quantifier.Once?
  }

  lemma ReadOn(s: string, i: nat, j: nat, outer: seq<Frame>, top: Frame, next: Frame, t: string)
    requires ReadSoFar(s, i, outer, top) && i <= j <= |s| && s[i..j] == t
    requires ValidFrame(next) && ShowFrame(next) == ShowFrame(top) + t
    ensures ReadSoFar(s, j, outer, next)
  {
    hide ShowFrame, Around, ValidFrame;
    assert s[..j] == s[..i] + s[i..j];
  }

  /** The atom or class that starts at `i`, other than a group. */
  lemma AtomSound(s: string, i: nat, depth: nat, canQuantify: bool) returns (a: Atom, j: nat)
    requires i < |s| && Accepts(s, i, depth, canQuantify)
    requires s[i] != '(' && s[i] != ')' && s[i] != '|' && !IsQuantifier(s[i])
    ensures i < j <= |s| && ValidAtom(a) && s[i..j] == ShowAtom(a) && Accepts(s, j, depth, true)
  {
    hide ClassEnd, EscapeEnd;
    if s[i] == '[' {
      var cls := ClassSound(s, i);
      a, j := ClassExpr(cls), ClassEnd(s, i).value;
    } else if s[i] == '\\' {
      a := EscapeSound(s, i);
      j := EscapeEnd(s, i).value;
    } else if s[i] == '.' {
      a, j := Dot, i + 1;
    } else {
      a, j := NormalChar(s[i]), i + 1;
    }
  }

  /** Follow the recogniser to the end, building the tree of what it has read. */
  lemma {:induction false} AcceptedDerives(s: string, i: nat, outer: seq<Frame>, top: Frame, canQuantify: bool)
    requires ReadSoFar(s, i, outer, top) && Accepts(s, i, |outer|, canQuantify)
    requires canQuantify ==> EndsWithBareAtom(top)
    ensures Derives(s)
    decreases |s| - i
  {
    hide ShowFrame, ValidFrame, ClassEnd, EscapeEnd, QuantifierEnd, Derives, Around;
    if i == |s| {
      Finished(s, top);
    } else if s[i] == '(' {
      OpenGroup(s, i, outer, top);
      AcceptedDerives(s, i + 1, outer + [top], Frame([], []), false);
    } else if s[i] == ')' {
      CloseGroupShows(outer, top);
      var parent := AddAtom(outer[|outer| - 1], Group(Close(top)));
      assert s[..i + 1] == s[..i] + ")";
      AcceptedDerives(s, i + 1, outer[..|outer| - 1], parent, true);
    } else if s[i] == '|' {
      NextBranchShows(top);
      ReadOn(s, i, i + 1, outer, top, NextBranch(top), "|");
      AcceptedDerives(s, i + 1, outer, NextBranch(top), false);
    } else if IsQuantifier(s[i]) {
      var q := QuantifierSound(s, i);
      var j := QuantifierEnd(s, i).value;
      QuantifyShows(top, q);
      ReadOn(s, i, j, outer, top, Quantify(top, q), ShowQuantifier(q));
      AcceptedDerives(s, j, outer, Quantify(top, q), false);
    } else {
      var a, j := AtomSound(s, i, |outer|, canQuantify);
      AddAtomShows(top, a);
      ReadOn(s, i, j, outer, top, AddAtom(top, a), ShowAtom(a));
      AcceptedDerives(s, j, outer, AddAtom(top, a), true);
    }
  }

  lemma Finished(s: string, top: Frame)
    requires ReadSoFar(s, |s|, [], top)
    ensures Derives(s)
  {
    hide ShowPieces, ShowDone, ShowBranches;
    CloseValid(top);
    CloseShows(top.done, top.current);
    assert s[..|s|] == s;
    assert "" + ShowFrame(top) == ShowFrame(top);
    assert ShowRegexp(Close(top)) == s;
  }

  lemma OpenGroup(s: string, i: nat, outer: seq<Frame>, top: Frame)
    requires i < |s| && s[i] == '(' && ReadSoFar(s, i, outer, top)
    ensures ReadSoFar(s, i + 1, outer + [top], Frame([], []))
  {
    hide ShowPieces, ShowDone, ValidBranch;
    NoPieces();
    EmptyFrame();
    assert (outer + [top])[..|outer|] == outer;
    assert s[..i + 1] == s[..i] + "(";
  }

  lemma EmptyFrame()
    ensures ShowFrame(Frame([], [])) == "" && ValidFrame(Frame([], []))
  {
  }

  /** The recogniser accepts a pattern if and only if the grammar of RFC 9485 derives it. */
  lemma AcceptsIffDerives(s: string)
    ensures Accepts(s, 0, 0, false) <==> Derives(s)
  {
    if Accepts(s, 0, 0, false) {
      EmptyFrame();
      AcceptedDerives(s, 0, [], Frame([], []), false);
    }
    if Derives(s) {
      var re :| ValidRegexp(re) && ShowRegexp(re) == s;
      GrammarAccepted(re);
    }
  }

  /** checkIRegexp on a pattern of scalar values. */
  method CheckIRegexp(pattern: string) returns (ok: bool)
    ensures ok <==> Derives(pattern)
  {
    var checker := new IRegexpChecker(pattern);
    ok := checker.Check();
    AcceptsIffDerives(pattern);
  }

  /** `[^]` is a class of the printed grammar, which has `^` among its class characters, yet it is rejected. */
  lemma CaretAloneRejected()
    ensures var cls := CharClass(false, false, [Single(Plain('^'))], false);
            ClassOfABNF(cls) && ShowClass(cls) == "[^]" && !Accepts("[^]", 0, 0, false)
  {
    var es := [Single(Plain('^'))];
    assert es[1..] == [];
    assert ShowElements(es) == "^" + "";
  }
}
