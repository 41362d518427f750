/** The UTF-8 form of a string: its length, and why names ordered by bytes are ordered by code point. */
module Utf8 {
  import opened Common
  import opened Text

  type Byte = b: int | 0 <= b < 0x100

  /** The bytes of a scalar value, section 3 of RFC 3629. */
  function Encode(c: char): (bytes: seq<Byte>)
    ensures |bytes| == Utf8Length(c)
  {
    var v := c as int;
    if v < 0x80 then [v]
    else if v < 0x800 then [0xC0 + v / 0x40, 0x80 + v % 0x40]
    else if v < 0x1_0000 then [0xE0 + v / 0x1000, 0x80 + v / 0x40 % 0x40, 0x80 + v % 0x40]
    else [0xF0 + v / 0x4_0000, 0x80 + v / 0x1000 % 0x40, 0x80 + v / 0x40 % 0x40, 0x80 + v % 0x40]
  }

  function EncodeText(s: string): (bytes: seq<Byte>)
    ensures |bytes| == Utf8Size(s)
  {
    if s == "" then [] else Encode(s[0]) + EncodeText(s[1..])
  }

  /** Lexicographic order of byte strings, as Go compares strings. */
  function CompareBytes(a: seq<Byte>, b: seq<Byte>): int {
    if a == [] || b == [] then CompareInt(|a|, |b|)
    else if a[0] != b[0] then CompareInt(a[0], b[0])
    else CompareBytes(a[1..], b[1..])
  }

  lemma {:induction false} CommonPrefix(x: seq<Byte>, a: seq<Byte>, b: seq<Byte>)
    ensures CompareBytes(x + a, x + b) == CompareBytes(a, b)
  {
    if x == [] {
      assert x + a == a && x + b == b;
    } else {
      assert (x + a)[1..] == x[1..] + a && (x + b)[1..] == x[1..] + b;
      CommonPrefix(x[1..], a, b);
    }
  }

  /** The first byte in which the two differ decides, whatever follows. */
  lemma {:induction false} FirstDifference(x: seq<Byte>, y: seq<Byte>, k: nat, a: seq<Byte>, b: seq<Byte>)
    requires k < |x| && k < |y| && x[..k] == y[..k] && x[k] != y[k]
    ensures CompareBytes(x + a, y + b) == CompareInt(x[k], y[k])
  {
    var tail, other := x[k..] + a, y[k..] + b;
    assert x + a == x[..k] + tail && y + b == x[..k] + other;
    CommonPrefix(x[..k], tail, other);
    assert tail[0] == x[k] && other[0] == y[k];
  }

  /** A longer form starts with a larger byte. */
  lemma LeadBytes(c: char)
    ensures var v, first := c as int, Encode(c)[0];
            && (|Encode(c)| == 1 ==> v < 0x80 && first < 0x80)
            && (|Encode(c)| == 2 ==> 0x80 <= v < 0x800 && 0xC0 <= first < 0xE0)
            && (|Encode(c)| == 3 ==> 0x800 <= v < 0x1_0000 && 0xE0 <= first < 0xF0)
            && (|Encode(c)| == 4 ==> 0x1_0000 <= v && 0xF0 <= first)
  {
  }

  /** Numbers are ordered by their leading digits first. */
  lemma DigitOrder(v: nat, w: nat)
    requires v < w
    ensures v / 0x40 < w / 0x40 || (v / 0x40 == w / 0x40 && v % 0x40 < w % 0x40)
  {
  }

  lemma DigitsOfDigits(v: nat)
    ensures v / 0x1000 == v / 0x40 / 0x40 && v / 0x4_0000 == v / 0x1000 / 0x40
  {
  }

  /** `x` and `y` first differ at `k`, where `x` is smaller. */
  predicate SmallerAt(x: seq<Byte>, y: seq<Byte>, k: nat) {
    k < |x| && k < |y| && x[..k] == y[..k] && x[k] < y[k]
  }

  lemma TwoBytes(c: char, d: char) returns (k: nat)
    requires c < d && |Encode(c)| == 2 && |Encode(d)| == 2
    ensures SmallerAt(Encode(c), Encode(d), k)
  {
    DigitOrder(c as int, d as int);
    k := if c as int / 0x40 < d as int / 0x40 then 0 else 1;
  }

  lemma ThreeBytes(c: char, d: char) returns (k: nat)
    requires c < d && |Encode(c)| == 3 && |Encode(d)| == 3
    ensures SmallerAt(Encode(c), Encode(d), k)
  {
    var v, w := c as int, d as int;
    DigitOrder(v, w);
    DigitsOfDigits(v);
    DigitsOfDigits(w);
    if v / 0x40 < w / 0x40 {
      DigitOrder(v / 0x40, w / 0x40);
    }
    k := if v / 0x1000 < w / 0x1000 then 0 else if v / 0x40 < w / 0x40 then 1 else 2;
  }

  lemma FourBytes(c: char, d: char) returns (k: nat)
    requires c < d && |Encode(c)| == 4 && |Encode(d)| == 4
    ensures SmallerAt(Encode(c), Encode(d), k)
  {
    var v, w := c as int, d as int;
    DigitOrder(v, w);
    DigitsOfDigits(v);
    DigitsOfDigits(w);
    if v / 0x40 < w / 0x40 {
      DigitOrder(v / 0x40, w / 0x40);
      if v / 0x1000 < w / 0x1000 {
        DigitOrder(v / 0x1000, w / 0x1000);
      }
    }
    k := if v / 0x4_0000 < w / 0x4_0000 then 0
         else if v / 0x1000 < w / 0x1000 then 1
         else if v / 0x40 < w / 0x40 then 2 else 3;
  }

  /** Where the forms of two scalar values first differ, the larger byte belongs to the larger value. */
  lemma ScalarsDiffer(c: char, d: char) returns (k: nat)
    requires c < d
    ensures SmallerAt(Encode(c), Encode(d), k)
  {
    hide Encode;
    var x, y := Encode(c), Encode(d);
    LeadBytes(c);
    LeadBytes(d);
    if |x| != |y| || |x| == 1 {
      k := 0;
      OneByte(c, d);
    } else if |x| == 2 {
      k := TwoBytes(c, d);
    } else if |x| == 3 {
      k := ThreeBytes(c, d);
    } else {
      k := FourBytes(c, d);
    }
  }

  lemma OneByte(c: char, d: char)
    requires c < d
    ensures |Encode(c)| == 1 && |Encode(d)| == 1 ==> Encode(c)[0] < Encode(d)[0]
  {
  }

  lemma ScalarOrder(c: char, d: char, a: seq<Byte>, b: seq<Byte>)
    requires c != d
    ensures CompareBytes(Encode(c) + a, Encode(d) + b) == CompareInt(c as int, d as int)
  {
    hide Encode, CompareBytes;
    if c < d {
      var k := ScalarsDiffer(c, d);
      FirstDifference(Encode(c), Encode(d), k, a, b);
    } else {
      var k := ScalarsDiffer(d, c);
      FirstDifference(Encode(c), Encode(d), k, a, b);
    }
  }

  /** Six more bits from a continuation byte. */
  function Extend(high: int, b: Byte): int {
    high * 0x40 + (b as int - 0x80)
  }

  /** The code of a byte pattern of section 3 of RFC 3629. */
  function Decode(b: seq<Byte>): int
    requires 1 <= |b| <= 4
  {
    var lead := b[0] as int;
    if |b| == 1 then lead
    else if |b| == 2 then Extend(lead - 0xC0, b[1])
    else if |b| == 3 then Extend(Extend(lead - 0xE0, b[1]), b[2])
    else Extend(Extend(Extend(lead - 0xF0, b[1]), b[2]), b[3])
  }

  lemma SixBits(v: nat)
    ensures Extend(v / 0x40, 0x80 + v % 0x40) == v
    ensures v / 0x40 / 0x40 == v / 0x1000 && v / 0x1000 / 0x40 == v / 0x4_0000
  {
  }

  /** Decoding inverts encoding, and every byte but the first is marked as a continuation. */
  lemma DecodeEncode(c: char)
    ensures Decode(Encode(c)) == c as int
    ensures forall i | 0 < i < |Encode(c)| :: 0x80 <= Encode(c)[i] < 0xC0
  {
    hide Extend;
    var v := c as int;
    SixBits(v);
    SixBits(v / 0x40);
    SixBits(v / 0x1000);
  }

  /** The order of names by code point is the byte order of their UTF-8 forms. */
  lemma {:induction false} CompareTextIsByteOrder(a: string, b: string)
    ensures CompareText(a, b) == CompareBytes(EncodeText(a), EncodeText(b))
  {
    hide Encode;
    if a != "" && b != "" {
      if a[0] == b[0] {
        CompareTextIsByteOrder(a[1..], b[1..]);
        CommonPrefix(Encode(a[0]), EncodeText(a[1..]), EncodeText(b[1..]));
      } else {
        ScalarOrder(a[0], b[0], EncodeText(a[1..]), EncodeText(b[1..]));
      }
    }
  }
}
