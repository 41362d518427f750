/**
 * Which numbers are comparable and what they stand for, stated by the grammar of lexemes and the kinds of numbers,
 * and the comparison of numbers as the order of what they stand for.
 */
module NumberMeaning {
  import opened Common
  import opened NumberText
  import opened Powers
  import opened Decimals
  import opened Numbers
  import opened NumberOrder

  /** The number stands for `x`; a float does so if it reports its true magnitude. */
  ghost predicate StandsFor(n: Number, x: real) {
    match n
    case SignedInt(i) => x == i as real
    case UnsignedInt(u) => x == u as real
    case Floating(Finite(m, e, magnitude)) =>
      x == m as real * Pow2(e) && (x != 0.0 ==> Pow10(magnitude - 1) <= Abs(x) < Pow10(magnitude))
    case Floating(NotFinite) => false
    case Lexeme(text) => exists p :: ValidParts(p) && PartsText(p) == text && PartsValue(p) == x
  }

  /** NaN, an infinity, or a text that spells no number. */
  ghost predicate NoNumber(n: Number) {
    n == Floating(NotFinite) || (n.Lexeme? && forall p | ValidParts(p) :: PartsText(p) != n.text)
  }

  lemma NumericUnlessNoNumber(n: Number)
    ensures IsNumeric(n) <==> !NoNumber(n)
  {
    hide IsNumberText;
    if n.Lexeme? {
      NumberTextIsGrammar(n.text);
    }
  }

  lemma StandsForValue(n: Number, x: real)
    requires StandsFor(n, x)
    ensures IsExact(n) && NumberValue(n) == x
  {
    hide IsNumberText, PartsValue, Pow10, Pow2;
    if n.Lexeme? {
      var p :| ValidParts(p) && PartsText(p) == n.text && PartsValue(p) == x;
      LexemeValue(p);
    }
  }

  lemma LexemeValue(p: Parts)
    requires ValidParts(p)
    ensures IsNumeric(Lexeme(PartsText(p))) && NumberValue(Lexeme(PartsText(p))) == PartsValue(p)
  {
    hide IsNumberText, PartsValue, ValidParts, PartsText;
    SplitInverts(p);
  }

  lemma ExactStands(n: Number)
    requires IsExact(n)
    ensures StandsFor(n, NumberValue(n))
  {
    hide IsNumberText, PartsValue;
    if n.Lexeme? {
      WholeNumber(n.text);
    }
  }

  /** Every number stands for something, unless it is no number or a float that misreports its magnitude. */
  lemma StandsForSomething(n: Number)
    ensures (exists x :: StandsFor(n, x)) <==> !NoNumber(n) && (n.Floating? ==> TrueMagnitude(n.f))
  {
    hide IsNumeric, NumberValue, NoNumber, StandsFor, TrueMagnitude;
    NumericUnlessNoNumber(n);
    if exists x :: StandsFor(n, x) {
      var x :| StandsFor(n, x);
      StandsForValue(n, x);
    }
    if IsExact(n) {
      ExactStands(n);
    }
  }

  /** The order of two numbers of any kinds is the order of what they stand for. */
  lemma CompareStandsFor(a: Number, b: Number, x: real, y: real)
    requires StandsFor(a, x) && StandsFor(b, y)
    ensures CompareNumbers(a, b) == Some(if x < y then -1 else if x > y then 1 else 0)
  {
    hide CompareNumbers, NumberValue, StandsFor;
    StandsForValue(a, x);
    StandsForValue(b, y);
    CompareNumbersExact(a, b);
  }

  /** Lexemes are compared as the numbers they spell, fractions and exponents included. */
  lemma CompareLexemes(p: Parts, q: Parts)
    requires ValidParts(p) && ValidParts(q)
    ensures CompareNumbers(Lexeme(PartsText(p)), Lexeme(PartsText(q)))
         == Some(CompareReal(PartsValue(p), PartsValue(q)))
  {
    hide CompareNumbers, PartsValue;
    CompareStandsFor(Lexeme(PartsText(p)), Lexeme(PartsText(q)), PartsValue(p), PartsValue(q));
  }

  /** Two numbers have no order exactly if one of them is no number. */
  lemma NoOrderIffNoNumber(a: Number, b: Number)
    ensures CompareNumbers(a, b).None? <==> NoNumber(a) || NoNumber(b)
  {
    hide CompareNumbers, NoNumber, IsNumeric;
    NumericUnlessNoNumber(a);
    NumericUnlessNoNumber(b);
    Comparability(a, b);
  }

  /** A number equals itself, whatever magnitude a float reports, unless it is no number. */
  lemma EqualsItselfUnlessNoNumber(n: Number)
    ensures CompareNumbers(n, n) == Some(0) <==> !NoNumber(n)
  {
    hide CompareNumbers, NoNumber, IsNumeric;
    NumericUnlessNoNumber(n);
    CompareNumbersReflexive(n);
  }
}
