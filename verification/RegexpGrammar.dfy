/** The grammar of I-Regexp, section 3 of RFC 9485, as syntax trees and the text they stand for. */
module RegexpGrammar {
  import opened Common
  import opened Text

  datatype Regexp = Regexp(branches: seq<Branch>)

  datatype Branch = Branch(pieces: seq<Piece>)

  datatype Piece = Piece(atom: Atom, quantifier: Quantifier)

  /** No quantifier, one of `*` `+` `?`, or `{low}`, `{low,}`, `{low,high}`. */
  datatype Quantifier = Once | Mark(mark: char) | Range(low: string, high: Option<string>)

  datatype Atom =
    | NormalChar(c: char)
    | Dot
    | SingleCharEsc(c: char)
    | CategoryEsc(complement: bool, property: string)
    | ClassExpr(cls: CharClass)
    | Group(inner: Regexp)

  datatype CharClass = CharClass(negated: bool, hyphenFirst: bool, elements: seq<Element>, hyphenLast: bool)

  datatype Element = Single(ch: ClassChar) | Span(low: ClassChar, high: ClassChar)
    | Category(complement: bool, property: string)

  datatype ClassChar = Plain(c: char) | Escape(c: char)

  // ---- Characters

  predicate IsNormalChar(c: char) {
    var r := c as int;
    r <= 0x27 || c == ',' || c == '-' || 0x2F <= r <= 0x3E || 0x40 <= r <= 0x5A || 0x5E <= r <= 0x7A || 0x7E <= r
  }

  predicate IsSingleCharEscape(c: char) {
    '(' <= c <= '+' || c == '-' || c == '.' || c == '?' || '[' <= c <= '^' || c == 'n' || c == 'r' || c == 't'
      || '{' <= c <= '}'
  }

  predicate IsClassChar(c: char) {
    var r := c as int;
    r <= 0x2C || 0x2E <= r <= 0x5A || 0x5E <= r
  }

  predicate IsCategory(p: string) {
    p in {"L", "Ll", "Lm", "Lo", "Lt", "Lu", "M", "Mc", "Me", "Mn", "N", "Nd", "Nl", "No",
          "P", "Pc", "Pd", "Pe", "Pf", "Pi", "Po", "Ps", "Z", "Zl", "Zp", "Zs",
          "S", "Sc", "Sk", "Sm", "So", "C", "Cc", "Cf", "Cn", "Co"}
  }

  // ---- Trees the grammar derives

  predicate ValidRegexp(re: Regexp) {
    re.branches != [] && forall i | 0 <= i < |re.branches| :: ValidBranch(re.branches[i])
  }

  predicate ValidBranch(b: Branch) {
    forall i | 0 <= i < |b.pieces| :: ValidPiece(b.pieces[i])
  }

  predicate ValidPiece(p: Piece) {
    ValidAtom(p.atom) && ValidQuantifier(p.quantifier)
  }

  predicate ValidQuantifier(q: Quantifier) {
    match q
    case Once => true
    case Mark(m) => m == '*' || m == '+' || m == '?'
    case Range(low, high) => low != "" && AllDigits(low) && (high.Some? ==> AllDigits(high.value))
  }

  predicate ValidAtom(a: Atom) {
    match a
    case NormalChar(c) => IsNormalChar(c)
    case Dot => true
    case SingleCharEsc(c) => IsSingleCharEscape(c)
    case CategoryEsc(_, p) => IsCategory(p)
    case ClassExpr(cls) => ValidClass(cls)
    case Group(re) => ValidRegexp(re)
  }

  predicate ValidClassChar(ch: ClassChar) {
    match ch
    case Plain(c) => IsClassChar(c)
    case Escape(c) => IsSingleCharEscape(c)
  }

  predicate ValidElement(e: Element) {
    match e
    case Single(ch) => ValidClassChar(ch)
    case Span(low, high) => ValidClassChar(low) && ValidClassChar(high)
    case Category(_, p) => IsCategory(p)
  }

  /** A class of the grammar as printed in the RFC. */
  predicate ClassOfABNF(cls: CharClass) {
    (cls.hyphenFirst || cls.elements != []) && forall i | 0 <= i < |cls.elements| :: ValidElement(cls.elements[i])
  }

  /** The same, where a `^` right after `[` is always the negation sign. */
  predicate ValidClass(cls: CharClass) {
    && ClassOfABNF(cls)
    && (!cls.negated && !cls.hyphenFirst ==> ShowElement(cls.elements[0])[0] != '^')
  }

  // ---- The text of a tree

  function ShowRegexp(re: Regexp): string {
    ShowBranches(re.branches)
  }

  function ShowBranches(bs: seq<Branch>): string {
    if bs == [] then ""
    else if |bs| == 1 then ShowBranch(bs[0])
    else ShowBranch(bs[0]) + "|" + ShowBranches(bs[1..])
  }

  function ShowBranch(b: Branch): string {
    ShowPieces(b.pieces)
  }

  function ShowPieces(ps: seq<Piece>): string {
    if ps == [] then "" else ShowPiece(ps[0]) + ShowPieces(ps[1..])
  }

  function ShowPiece(p: Piece): string {
    ShowAtom(p.atom) + ShowQuantifier(p.quantifier)
  }

  function ShowQuantifier(q: Quantifier): string {
    match q
    case Once => ""
    case Mark(m) => [m]
    case Range(low, high) => "{" + low + (if high.Some? then "," + high.value else "") + "}"
  }

  function ShowCategory(complement: bool, property: string): string {
    (if complement then "\\P{" else "\\p{") + property + "}"
  }

  function ShowAtom(a: Atom): string {
    match a
    case NormalChar(c) => [c]
    case Dot => "."
    case SingleCharEsc(c) => ['\\', c]
    case CategoryEsc(n, p) => ShowCategory(n, p)
    case ClassExpr(cls) => ShowClass(cls)
    case Group(re) => "(" + ShowRegexp(re) + ")"
  }

  function ShowClassChar(ch: ClassChar): (t: string)
    ensures t != ""
  {
    match ch
    case Plain(c) => [c]
    case Escape(c) => ['\\', c]
  }

  function ShowElement(e: Element): (t: string)
    ensures t != ""
  {
    match e
    case Single(ch) => ShowClassChar(ch)
    case Span(low, high) => ShowClassChar(low) + "-" + ShowClassChar(high)
    case Category(n, p) => ShowCategory(n, p)
  }

  function ShowElements(es: seq<Element>): string {
    if es == [] then "" else ShowElement(es[0]) + ShowElements(es[1..])
  }

  /** What follows the elements of a class. */
  function ShowTail(hyphenLast: bool): string {
    if hyphenLast then "-]" else "]"
  }

  function ShowClass(cls: CharClass): string {
    (if cls.negated then "[^" else "[") + (if cls.hyphenFirst then "-" else "")
    + (ShowElements(cls.elements) + ShowTail(cls.hyphenLast))
  }

  /** The pattern is derivable from the grammar, reading `^` right after `[` as negation. */
  ghost predicate Derives(s: string) {
    exists re :: ValidRegexp(re) && ShowRegexp(re) == s
  }

  lemma {:induction false} ShowPiecesConcat(a: seq<Piece>, b: seq<Piece>)
    ensures ShowPieces(a + b) == ShowPieces(a) + ShowPieces(b)
  {
    hide ShowPiece;
    if a == [] {
      assert a + b == b;
    } else {
      assert (a + b)[1..] == a[1..] + b;
      ShowPiecesConcat(a[1..], b);
    }
  }
}
