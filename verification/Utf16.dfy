/**
 UTF-16 as section 2.1 of RFC 2781 defines it: a code point below 0x10000 is one unit, any other a high and a low
 surrogate. The length of an encoding is what the message splitter counts by.
 */
module Utf16 {
  import opened Types
  import opened Utf8

  type Unit = u: int | 0 <= u < 0x10000

  predicate HighSurrogate(u: Unit) {
    0xD800 <= u <= 0xDBFF
  }

  predicate LowSurrogate(u: Unit) {
    0xDC00 <= u <= 0xDFFF
  }

  ghost predicate AllScalars(rs: seq<int>) {
    forall i :: 0 <= i < |rs| ==> IsScalar(rs[i])
  }

  function EncodeOne(r: int): (us: seq<Unit>)
    requires IsScalar(r)
    ensures 1 <= |us| <= 2
  {
    if r < 0x10000 then [r] else [0xD800 + (r - 0x10000) / 0x400, 0xDC00 + (r - 0x10000) % 0x400]
  }

  function EncodeAll(rs: seq<int>): (us: seq<Unit>)
    requires forall i :: 0 <= i < |rs| ==> IsScalar(rs[i])
  {
    if rs == [] then [] else EncodeOne(rs[0]) + EncodeAll(rs[1..])
  }

  /** The code point of a high and a low surrogate: ten bits from each. */
  function Join(high: int, low: int): int {
    0x10000 + (high - 0xD800) * 0x400 + (low - 0xDC00)
  }

  /** The first code point of some units and how many it takes; None for a surrogate without its other half. */
  function DecodeOne(us: seq<Unit>): (d: Option<(int, nat)>)
    requires us != []
    ensures d.Some? ==> 1 <= d.value.1 <= |us|
  {
    if !HighSurrogate(us[0]) && !LowSurrogate(us[0]) then Some((us[0], 1))
    else if HighSurrogate(us[0]) && |us| >= 2 && LowSurrogate(us[1])
    then Some((Join(us[0], us[1]), 2))
    else None
  }

  function DecodeAll(us: seq<Unit>): Option<seq<int>> {
    if us == [] then Some([])
    else
      match DecodeOne(us)
      case None => None
      case Some((r, n)) =>
        match DecodeAll(us[n..])
        case None => None
        case Some(rs) => Some([r] + rs)
  }

  lemma DecodeOfEncodeOne(r: int, rest: seq<Unit>)
    requires IsScalar(r)
    ensures DecodeOne(EncodeOne(r) + rest) == Some((r, |EncodeOne(r)|))
  {
    if r >= 0x10000 {
      var v := r - 0x10000;
      assert v == v / 0x400 * 0x400 + v % 0x400;
    }
  }

  /** Decoding an encoding gives the code points back. */
  lemma {:induction false} DecodeOfEncodeAll(rs: seq<int>)
    requires AllScalars(rs)
    ensures DecodeAll(EncodeAll(rs)) == Some(rs)
  {
    if rs != [] {
      var first, rest := EncodeOne(rs[0]), EncodeAll(rs[1..]);
      DecodeOfEncodeOne(rs[0], rest);
      DecodeOfEncodeAll(rs[1..]);
      assert (first + rest)[|first|..] == rest && [rs[0]] + rs[1..] == rs;
    }
  }

  lemma EncodeOfDecodeOne(us: seq<Unit>)
    requires us != [] && DecodeOne(us).Some?
    ensures IsScalar(DecodeOne(us).value.0) && us[..DecodeOne(us).value.1] == EncodeOne(DecodeOne(us).value.0)
  {
    if HighSurrogate(us[0]) {
      LowTen(us[0] - 0xD800, us[1] - 0xDC00);
      assert us[..2] == [us[0], us[1]];
    }
  }

  /** Ten bits below a number come apart again. */
  lemma LowTen(q: int, t: int)
    requires q >= 0 && 0 <= t < 0x400
    ensures (q * 0x400 + t) / 0x400 == q && (q * 0x400 + t) % 0x400 == t
  {
  }

  /** And whatever decodes is the encoding of what it decodes to: code points have one form. */
  lemma {:induction false} EncodeOfDecodeAll(us: seq<Unit>)
    requires DecodeAll(us).Some?
    ensures AllScalars(DecodeAll(us).value) && EncodeAll(DecodeAll(us).value) == us
    decreases |us|
  {
    if us != [] {
      var r, n := DecodeOne(us).value.0, DecodeOne(us).value.1;
      EncodeOfDecodeOne(us);
      EncodeOfDecodeAll(us[n..]);
      var rest := DecodeAll(us[n..]).value;
      EncodingOfMore(r, rest);
      assert us == us[..n] + us[n..];
    }
  }

  lemma LengthOfMore(r: int, rs: seq<int>)
    requires IsScalar(r) && AllScalars(rs)
    ensures AllScalars([r] + rs) && |EncodeAll([r] + rs)| == |EncodeOne(r)| + |EncodeAll(rs)|
  {
    EncodingOfMore(r, rs);
  }

  lemma EncodingOfMore(r: int, rs: seq<int>)
    requires IsScalar(r) && AllScalars(rs)
    ensures AllScalars([r] + rs) && EncodeAll([r] + rs) == EncodeOne(r) + EncodeAll(rs)
  {
    assert ([r] + rs)[1..] == rs;
  }
}
