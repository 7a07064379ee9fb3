/** Bytes, little-endian numbers, and UTF-8 validity. */
module Bytes {

  type Byte = n: int | 0 <= n < 256

  /** The largest value of the source's 64-bit unsigned integers. */
  const U64_MAX: nat := 0xFFFF_FFFF_FFFF_FFFF

  type U64 = n: nat | n <= U64_MAX

  /** How many values fit in `width` bytes. */
  function Span(width: nat): nat {
    if width == 0 then 1 else 256 * Span(width - 1)
  }

  function FromLe(bytes: seq<Byte>): nat {
    if bytes == [] then 0 else bytes[0] + 256 * FromLe(bytes[1..])
  }

  function ToLe(value: nat, width: nat): (bytes: seq<Byte>)
    ensures |bytes| == width
  {
    if width == 0 then [] else [value % 256] + ToLe(value / 256, width - 1)
  }

  lemma SpanValues()
    ensures Span(1) == 0x100
    ensures Span(2) == 0x1_0000
    ensures Span(4) == 0x1_0000_0000
    ensures Span(8) == U64_MAX + 1
  {
    assert Span(1) == 0x100;
    assert Span(2) == 0x1_0000;
    assert Span(3) == 0x100_0000;
    assert Span(4) == 0x1_0000_0000;
    assert Span(5) == 0x100_0000_0000;
    assert Span(6) == 0x1_0000_0000_0000;
    assert Span(7) == 0x100_0000_0000_0000;
  }

  lemma {:induction false} LeRoundTrip(value: nat, width: nat)
    requires value < Span(width)
    ensures FromLe(ToLe(value, width)) == value
  {
    if width > 0 {
      LeRoundTrip(value / 256, width - 1);
    }
  }

  lemma {:induction false} LeCanonical(bytes: seq<Byte>)
    ensures FromLe(bytes) < Span(|bytes|)
    ensures ToLe(FromLe(bytes), |bytes|) == bytes
  {
    if bytes != [] {
      LeCanonical(bytes[1..]);
      assert FromLe(bytes) % 256 == bytes[0];
      assert FromLe(bytes) / 256 == FromLe(bytes[1..]);
    }
  }

  // ------------------------------------------------------------------ UTF-8

  predicate Tail(b: Byte) {
    0x80 <= b <= 0xBF
  }

  /**
   * How many bytes the character at the front of `s` takes, or 0 when `s` does not
   * begin with one. The cases are the grammar in section 4 of RFC 3629.
   */
  function CharLength(s: seq<Byte>): (length: nat)
    requires s != []
    ensures length <= |s|
  {
    var b := s[0];
    if b <= 0x7F then 1
    else if 0xC2 <= b <= 0xDF && |s| >= 2 && Tail(s[1]) then 2
    else if 0xE0 <= b <= 0xEF && |s| >= 3 && Tail(s[1]) && Tail(s[2])
            && (b == 0xE0 ==> 0xA0 <= s[1]) && (b == 0xED ==> s[1] <= 0x9F) then 3
    else if 0xF0 <= b <= 0xF4 && |s| >= 4 && Tail(s[1]) && Tail(s[2]) && Tail(s[3])
            && (b == 0xF0 ==> 0x90 <= s[1]) && (b == 0xF4 ==> s[1] <= 0x8F) then 4
    else 0
  }

  predicate ValidUtf8(s: seq<Byte>)
    decreases |s|
  {
    s == [] || (CharLength(s) > 0 && ValidUtf8(s[CharLength(s)..]))
  }

  lemma SameFirstChar(a: seq<Byte>, b: seq<Byte>)
    requires a != [] && a <= b && CharLength(a) > 0
    ensures CharLength(b) == CharLength(a)
  {
  }

  lemma {:induction false} Utf8Append(a: seq<Byte>, b: seq<Byte>)
    requires ValidUtf8(a) && ValidUtf8(b)
    ensures ValidUtf8(a + b)
    decreases |a|
  {
    if a == [] {
      assert a + b == b;
    } else {
      var n := CharLength(a);
      Utf8Append(a[n..], b);
      SameFirstChar(a, a + b);
      assert (a + b)[n..] == a[n..] + b;
    }
  }

  /** An ASCII byte is always a character of its own, so valid text may be cut in front of it. */
  lemma {:induction false} Utf8SplitAtAscii(s: seq<Byte>, i: nat)
    requires ValidUtf8(s) && i < |s| && s[i] <= 0x7F
    ensures ValidUtf8(s[..i]) && ValidUtf8(s[i..]) && ValidUtf8(s[i + 1..])
    decreases |s|
  {
    if i > 0 {
      var n := CharLength(s);
      assert n <= i;
      Utf8SplitAtAscii(s[n..], i - n);
      assert s[n..][..i - n] == s[n..i];
      assert s[n..][i - n..] == s[i..];
      assert s[n..][i - n + 1..] == s[i + 1..];
      assert s[..i][n..] == s[n..i];
      SameFirstChar(s[..n], s[..i]);
      SameFirstChar(s[..n], s);
    } else {
      assert CharLength(s) == 1;
      assert s[0..] == s;
    }
  }

  // ------------------------------------------------------------ code points

  /** The scalar values: every code point but the surrogates. */
  predicate Scalar(c: nat) {
    c <= 0x10FFFF && !(0xD800 <= c <= 0xDFFF)
  }

  /** A code point in as many bytes as it needs, six bits to each continuation byte. */
  function EncodeChar(c: nat): seq<Byte>
    requires Scalar(c)
  {
    if c < 0x80 then [c]
    else if c < 0x800 then [0xC0 + c / 0x40, 0x80 + c % 0x40]
    else if c < 0x1_0000 then [0xE0 + c / 0x1000, 0x80 + c / 0x40 % 0x40, 0x80 + c % 0x40]
    else [0xF0 + c / 0x4_0000, 0x80 + c / 0x1000 % 0x40, 0x80 + c / 0x40 % 0x40, 0x80 + c % 0x40]
  }

  predicate AllScalar(text: seq<nat>) {
    forall i :: 0 <= i < |text| ==> Scalar(text[i])
  }

  function EncodeChars(text: seq<nat>): seq<Byte>
    requires AllScalar(text)
  {
    if text == [] then [] else EncodeChar(text[0]) + EncodeChars(text[1..])
  }

  /** The code point at the front of valid bytes. */
  function FirstChar(s: seq<Byte>): nat
    requires s != [] && CharLength(s) > 0
  {
    var bits: (int, int) -> int := (byte, lead) => byte - lead;
    match CharLength(s)
    case 1 => s[0]
    case 2 => bits(s[0], 0xC0) * 0x40 + bits(s[1], 0x80)
    case 3 => bits(s[0], 0xE0) * 0x1000 + bits(s[1], 0x80) * 0x40 + bits(s[2], 0x80)
    case _ => bits(s[0], 0xF0) * 0x4_0000 + bits(s[1], 0x80) * 0x1000 + bits(s[2], 0x80) * 0x40 + bits(s[3], 0x80)
  }

  lemma EncodedCharIsWhole(c: nat)
    requires Scalar(c)
    ensures CharLength(EncodeChar(c)) == |EncodeChar(c)|
  {
  }

  lemma EncodedCharIsSome(c: nat)
    requires Scalar(c)
    ensures EncodeChar(c) != []
  {
  }

  lemma EncodedCharIsFirst(c: nat, rest: seq<Byte>)
    requires Scalar(c)
    ensures CharLength(EncodeChar(c) + rest) == |EncodeChar(c)|
  {
    EncodedCharIsWhole(c);
    SameFirstChar(EncodeChar(c), EncodeChar(c) + rest);
  }

  lemma TwoBytes(a: Byte, b: Byte, c: nat)
    requires 0xC2 <= a <= 0xDF && Tail(b)
    requires c == (a as int - 0xC0) * 0x40 + (b as int - 0x80)
    ensures Scalar(c) && EncodeChar(c) == [a, b]
  {
  }

  lemma ThreeBytes(a: Byte, b: Byte, d: Byte, c: nat)
    requires 0xE0 <= a <= 0xEF && Tail(b) && Tail(d)
    requires (a == 0xE0 ==> 0xA0 <= b) && (a == 0xED ==> b <= 0x9F)
    requires c == (a as int - 0xE0) * 0x1000 + (b as int - 0x80) * 0x40 + (d as int - 0x80)
    ensures Scalar(c) && EncodeChar(c) == [a, b, d]
  {
    assert c / 0x40 == (a as int - 0xE0) * 0x40 + (b as int - 0x80);
  }

  lemma FourBytes(a: Byte, b: Byte, d: Byte, e: Byte, c: nat)
    requires 0xF0 <= a <= 0xF4 && Tail(b) && Tail(d) && Tail(e)
    requires (a == 0xF0 ==> 0x90 <= b) && (a == 0xF4 ==> b <= 0x8F)
    requires c == (a as int - 0xF0) * 0x4_0000 + (b as int - 0x80) * 0x1000
                  + (d as int - 0x80) * 0x40 + (e as int - 0x80)
    ensures Scalar(c) && EncodeChar(c) == [a, b, d, e]
  {
    assert c / 0x40 == (a as int - 0xF0) * 0x1000 + (b as int - 0x80) * 0x40 + (d as int - 0x80);
    assert c / 0x1000 == (a as int - 0xF0) * 0x40 + (b as int - 0x80);
  }

  lemma FirstCharEncodes(s: seq<Byte>)
    requires s != [] && CharLength(s) > 0
    ensures Scalar(FirstChar(s)) && EncodeChar(FirstChar(s)) == s[..CharLength(s)]
  {
    var c := FirstChar(s);
    if CharLength(s) == 1 {
      assert s[..1] == [s[0]];
    } else {
      hide EncodeChar, Scalar;
      match CharLength(s)
      case 2 =>
        TwoBytes(s[0], s[1], c);
        assert s[..2] == [s[0], s[1]];
      case 3 =>
        ThreeBytes(s[0], s[1], s[2], c);
        assert s[..3] == [s[0], s[1], s[2]];
      case _ =>
        FourBytes(s[0], s[1], s[2], s[3], c);
        assert s[..4] == [s[0], s[1], s[2], s[3]];
    }
  }

  lemma {:induction false} EncodedIsValid(text: seq<nat>)
    requires AllScalar(text)
    ensures ValidUtf8(EncodeChars(text))
    decreases |text|
  {
    hide CharLength, EncodeChar;
    if text != [] {
      var first, rest := EncodeChar(text[0]), EncodeChars(text[1..]);
      EncodedIsValid(text[1..]);
      EncodedCharIsFirst(text[0], rest);
      EncodedCharIsSome(text[0]);
      assert (first + rest)[|first|..] == rest;
    }
  }

  lemma {:induction false} ValidIsEncoded(s: seq<Byte>) returns (text: seq<nat>)
    requires ValidUtf8(s)
    ensures AllScalar(text) && EncodeChars(text) == s
    decreases |s|
  {
    hide CharLength, EncodeChar, FirstChar, Scalar;
    if s == [] {
      text := [];
    } else {
      var n := CharLength(s);
      var others := ValidIsEncoded(s[n..]);
      FirstCharEncodes(s);
      text := [FirstChar(s)] + others;
      assert text[1..] == others;
      assert s[..n] + s[n..] == s;
    }
  }

  /** Bytes are valid exactly when they are how some scalar values are encoded. */
  lemma ValidExactlyWhenEncoded(s: seq<Byte>)
    ensures ValidUtf8(s) <==> exists text: seq<nat> :: AllScalar(text) && EncodeChars(text) == s
  {
    if ValidUtf8(s) {
      var text := ValidIsEncoded(s);
      assert AllScalar(text) && EncodeChars(text) == s;
    }
    if text: seq<nat> :| AllScalar(text) && EncodeChars(text) == s {
      EncodedIsValid(text);
    }
  }
}
