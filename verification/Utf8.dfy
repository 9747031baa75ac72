/**
 Decoding the next code point of a byte string, in the manner of Go's utf8.DecodeRuneInString: the well-formed byte
 sequences are those of section 4 of RFC 3629, and anything else is one byte of error.
 */
module Utf8 {

  type Byte = b: int | 0 <= b < 256

  type Text = seq<Byte>

  const RUNE_ERROR := 0xFFFD

  datatype Decoded = Decoded(rune: int, width: nat)

  const INVALID := Decoded(RUNE_ERROR, 1)

  predicate Continuation(b: Byte) {
    0x80 <= b <= 0xBF
  }

  /** Bytes a well-formed sequence with this first byte has; 0 if no sequence starts with it. */
  function SequenceLength(b: Byte): nat {
    if b < 0x80 then 1
    else if b < 0xC2 then 0
    else if b < 0xE0 then 2
    else if b < 0xF0 then 3
    else if b < 0xF5 then 4
    else 0
  }

  /**
   The second byte's range depends on the first: no overlong forms, no surrogates, nothing past the last code point.
   */
  predicate SecondByte(first: Byte, second: Byte) {
    && Continuation(second)
    && (first == 0xE0 ==> 0xA0 <= second)
    && (first == 0xED ==> second <= 0x9F)
    && (first == 0xF0 ==> 0x90 <= second)
    && (first == 0xF4 ==> second <= 0x8F)
  }

  predicate WellFormedStart(s: Text)
    requires s != []
  {
    var n := SequenceLength(s[0]);
    && 1 <= n <= |s|
    && (n >= 2 ==> SecondByte(s[0], s[1]))
    && (n >= 3 ==> Continuation(s[2]))
    && (n >= 4 ==> Continuation(s[3]))
  }

  function Decode(s: Text): (d: Decoded)
    requires s != []
    ensures 1 <= d.width <= 4 && d.width <= |s|
  {
    if !WellFormedStart(s) then INVALID
    else
      var n := SequenceLength(s[0]);
      if n == 1 then Decoded(s[0], 1)
      else if n == 2 then Decoded(Join2(s[0], s[1]), 2)
      else if n == 3 then Decoded(Join3(s[0], s[1], s[2]), 3)
      else Decoded(Join4(s[0], s[1], s[2], s[3]), 4)
  }

  /** The same for every string: an empty one has nothing to decode. */
  function DecodeRune(s: Text): Decoded {
    if s == [] then Decoded(RUNE_ERROR, 0) else Decode(s)
  }

  /** The code point of a two-, three- and four-byte sequence: six bits from each byte after the first. */
  function Join2(a: int, b: int): int {
    (a - 0xC0) * 0x40 + (b - 0x80)
  }

  function Join3(a: int, b: int, c: int): int {
    (a - 0xE0) * 0x1000 + (b - 0x80) * 0x40 + (c - 0x80)
  }

  function Join4(a: int, b: int, c: int, d: int): int {
    (a - 0xF0) * 0x40000 + (b - 0x80) * 0x1000 + (c - 0x80) * 0x40 + (d - 0x80)
  }

  /** How the caller tells an error byte from an encoded replacement character, which has width 3. */
  predicate IsError(d: Decoded) {
    d.rune == RUNE_ERROR && d.width == 1
  }

  lemma ErrorIsIllFormed(s: Text)
    requires s != []
    ensures IsError(Decode(s)) <==> !WellFormedStart(s)
  {
  }

  /** A Unicode scalar value: any code point that is not a surrogate. */
  predicate IsScalar(r: int) {
    0 <= r <= 0x10FFFF && !(0xD800 <= r <= 0xDFFF)
  }

  /** The last six bits of `r / unit`, as a continuation byte. */
  function Tail(r: int, unit: int): (b: Byte)
    requires r >= 0 && unit > 0
    ensures Continuation(b)
  {
    0x80 + r / unit % 0x40
  }

  function Encode(r: int): (s: Text)
    requires IsScalar(r)
    ensures 1 <= |s| <= 4
  {
    if r < 0x80 then [r]
    else if r < 0x800 then [0xC0 + r / 0x40, Tail(r, 1)]
    else if r < 0x10000 then [0xE0 + r / 0x1000, Tail(r, 0x40), Tail(r, 1)]
    else [0xF0 + r / 0x40000, Tail(r, 0x1000), Tail(r, 0x40), Tail(r, 1)]
  }

  lemma EncodedIsWellFormed(r: int, s: Text)
    requires IsScalar(r) && s == Encode(r)
    ensures WellFormedStart(s) && SequenceLength(s[0]) == |s|
  {
    if r < 0x800 {
      ShortIsWellFormed(r, s);
    }
  }

  lemma ShortIsWellFormed(r: int, s: Text)
    requires IsScalar(r) && s == Encode(r) && r < 0x800
    ensures WellFormedStart(s) && SequenceLength(s[0]) == |s|
  {
  }

  lemma JoinOfSplit(r: int)
    requires r >= 0
    ensures Join2(0xC0 + r / 0x40, Tail(r, 1)) == r
    ensures Join3(0xE0 + r / 0x1000, Tail(r, 0x40), Tail(r, 1)) == r
    ensures Join4(0xF0 + r / 0x40000, Tail(r, 0x1000), Tail(r, 0x40), Tail(r, 1)) == r
  {
    assert r / 0x1000 == r / 0x40 / 0x40 && r / 0x40000 == r / 0x1000 / 0x40;
  }

  lemma DecodeOfExactEncode(r: int, s: Text)
    requires IsScalar(r) && s == Encode(r)
    ensures Decode(s) == Decoded(r, |s|) && !IsError(Decode(s))
  {
    EncodedIsWellFormed(r, s);
    JoinOfSplit(r);
  }

  /** Decoding an encoded scalar value gives it back, whatever follows. */
  lemma DecodeOfEncode(r: int, s: Text, n: nat)
    requires IsScalar(r) && n == |Encode(r)| <= |s| && s[..n] == Encode(r)
    ensures Decode(s) == Decoded(r, n) && !IsError(Decode(s))
  {
    DecodeOfExactEncode(r, s[..n]);
    WellFormedStartExtends(s, n);
  }

  lemma WellFormedStartExtends(s: Text, n: nat)
    requires 0 < n <= |s| && WellFormedStart(s[..n])
    ensures Decode(s) == Decode(s[..n])
  {
  }

  /** Six bits below a number come apart again. */
  lemma LowBits(q: int, t: int)
    requires q >= 0 && 0 <= t < 0x40
    ensures (q * 0x40 + t) / 0x40 == q && (q * 0x40 + t) % 0x40 == t
  {
  }

  lemma SplitOfJoin2(a: int, b: Byte)
    requires a >= 0xC0 && Continuation(b)
    ensures var r := Join2(a, b); r >= 0 && 0xC0 + r / 0x40 == a && Tail(r, 1) == b
  {
    LowBits(a - 0xC0, b - 0x80);
  }

  lemma SplitOfJoin3(a: int, b: Byte, c: Byte)
    requires a >= 0xE0 && Continuation(b) && Continuation(c)
    ensures var r := Join3(a, b, c); r >= 0 && 0xE0 + r / 0x1000 == a && Tail(r, 0x40) == b && Tail(r, 1) == c
  {
    var q, r := (a - 0xE0) * 0x40 + (b - 0x80), Join3(a, b, c);
    LowBits(a - 0xE0, b - 0x80);
    LowBits(q, c - 0x80);
    assert r == q * 0x40 + (c - 0x80) && r / 0x1000 == r / 0x40 / 0x40;
  }

  lemma SplitOfJoin4(a: int, b: Byte, c: Byte, d: Byte)
    requires a >= 0xF0 && Continuation(b) && Continuation(c) && Continuation(d)
    ensures var r := Join4(a, b, c, d);
            r >= 0 && 0xF0 + r / 0x40000 == a && Tail(r, 0x1000) == b && Tail(r, 0x40) == c && Tail(r, 1) == d
  {
    var p := (a - 0xF0) * 0x40 + (b - 0x80);
    var q, r := p * 0x40 + (c - 0x80), Join4(a, b, c, d);
    LowBits(a - 0xF0, b - 0x80);
    LowBits(p, c - 0x80);
    LowBits(q, d - 0x80);
    assert r == q * 0x40 + (d - 0x80);
    assert r / 0x1000 == r / 0x40 / 0x40 && r / 0x40000 == r / 0x1000 / 0x40;
  }

  /** Whatever decodes without error is the encoding of a scalar value: there is no second form. */
  lemma EncodeOfDecode(s: Text)
    requires s != [] && !IsError(Decode(s))
    ensures IsScalar(Decode(s).rune) && s[..Decode(s).width] == Encode(Decode(s).rune)
  {
    var n := SequenceLength(s[0]);
    if n == 2 {
      SplitOfJoin2(s[0], s[1]);
    } else if n == 3 {
      SplitOfJoin3(s[0], s[1], s[2]);
    } else if n == 4 {
      SplitOfJoin4(s[0], s[1], s[2], s[3]);
    }
  }

  /** Cutting a string no earlier than the end of its first item does not change how that item decodes. */
  lemma DecodeOfPrefix(s: Text, i: nat)
    requires s != [] && Decode(s).width <= i <= |s|
    ensures Decode(s[..i]) == Decode(s)
  {
  }

  /** UTF-16 code units of a code point: section 2.1 of RFC 2781. */
  function Utf16Len(r: int): nat {
    if r <= 0xFFFF then 1 else 2
  }

  /** The encodings of U+0041, U+2262, U+D55C and U+1F600, and of the last code point of each length. */
  lemma KnownEncodings()
    ensures Encode(0x41) == [0x41] && Encode(0x2262) == [0xE2, 0x89, 0xA2] && Encode(0xD55C) == [0xED, 0x95, 0x9C]
    ensures Encode(0x1F600) == [0xF0, 0x9F, 0x98, 0x80]
    ensures Encode(0x7F) == [0x7F] && Encode(0x7FF) == [0xDF, 0xBF] && Encode(0xFFFF) == [0xEF, 0xBF, 0xBF]
    ensures Encode(0x10FFFF) == [0xF4, 0x8F, 0xBF, 0xBF]
  {
  }
}
