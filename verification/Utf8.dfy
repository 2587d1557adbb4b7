/** UTF-8 output of the viewer's JSON parser, and the decoder of RFC 3629 section 3. */
module Utf8 {

  /** One byte of a `std::string`. */
  type Byte = b: int | 0 <= b < 256

  const HIGH_SURROGATE_BEGIN := 0xD800
  const HIGH_SURROGATE_END := 0xDBFF
  const LOW_SURROGATE_BEGIN := 0xDC00
  const LOW_SURROGATE_END := 0xDFFF
  const SURROGATE_BASE := 0x10000

  predicate IsHighSurrogate(code: int) {
    HIGH_SURROGATE_BEGIN <= code <= HIGH_SURROGATE_END
  }

  predicate IsLowSurrogate(code: int) {
    LOW_SURROGATE_BEGIN <= code <= LOW_SURROGATE_END
  }

  predicate IsSurrogate(code: int) {
    HIGH_SURROGATE_BEGIN <= code <= LOW_SURROGATE_END
  }

  /** A Unicode scalar value: what RFC 3629 allows to be encoded. */
  predicate IsScalar(code: int) {
    0 <= code <= 0x10FFFF && !IsSurrogate(code)
  }

  /** The bytes `appendUtf8` appends.  Shifts and masks are written as division and remainder,
    and the disjunction of disjoint bits as a sum (see ShiftsAndMasks). */
  function AppendUtf8(code: int): seq<Byte>
    requires 0 <= code <= 0x10FFFF
  {
    if code < 0x80 then [code]
    else if code < 0x800 then [0xC0 + code / 0x40, 0x80 + code % 0x40]
    else if code < SURROGATE_BASE then
      [0xE0 + code / 0x1000, 0x80 + code / 0x40 % 0x40, 0x80 + code % 0x40]
    else
      [0xF0 + code / 0x40000, 0x80 + code / 0x1000 % 0x40, 0x80 + code / 0x40 % 0x40, 0x80 + code % 0x40]
  }

  /** The bit operations of the original are the arithmetic used in AppendUtf8. */
  lemma ShiftsAndMasks(c: bv32)
    requires c <= 0x10FFFF
    ensures c >> 6 == c / 0x40 && c >> 12 == c / 0x1000 && c >> 18 == c / 0x40000
    ensures c & 0x3F == c % 0x40 && 0x80 | (c & 0x3F) == 0x80 + (c & 0x3F)
    ensures c < 0x800 ==> 0xC0 | (c >> 6) == 0xC0 + (c >> 6)
    ensures c < 0x10000 ==> 0xE0 | (c >> 12) == 0xE0 + (c >> 12)
    ensures 0xF0 | (c >> 18) == 0xF0 + (c >> 18)
  {
  }

  /** The code point a surrogate pair stands for, as the parser computes it. */
  function Combine(high: int, low: int): (code: int)
    requires IsHighSurrogate(high) && IsLowSurrogate(low)
    ensures SURROGATE_BASE <= code <= 0x10FFFF
  {
    SURROGATE_BASE + (high - HIGH_SURROGATE_BEGIN) * 0x400 + (low - LOW_SURROGATE_BEGIN)
  }

  /** Surrogate pairs map one-to-one onto the supplementary code points. */
  lemma CombineIsBijective(code: int)
    requires SURROGATE_BASE <= code <= 0x10FFFF
    ensures exists high, low :: IsHighSurrogate(high) && IsLowSurrogate(low) && Combine(high, low) == code
    ensures forall h, l, h', l' | IsHighSurrogate(h) && IsLowSurrogate(l) && IsHighSurrogate(h') && IsLowSurrogate(l')
      :: Combine(h, l) == code == Combine(h', l') ==> h == h' && l == l'
  {
    var offset := code - SURROGATE_BASE;
    var high, low := HIGH_SURROGATE_BEGIN + offset / 0x400, LOW_SURROGATE_BEGIN + offset % 0x400;
    assert IsHighSurrogate(high) && IsLowSurrogate(low) && Combine(high, low) == code;
  }

  // ------------------------------------------------- RFC 3629 section 3, decoding

  datatype Decoded = Malformed | Scalar(code: int, width: nat)

  predicate IsContinuation(b: Byte) {
    0x80 <= b <= 0xBF
  }

  /** Appends the six payload bits of a continuation byte. */
  function Join(high: int, b: Byte): int {
    high * 0x40 + (b as int - 0x80)
  }

  /** Decodes the first character of `s`, rejecting overlong forms and surrogates. */
  function DecodeFirst(s: seq<Byte>): (d: Decoded)
    ensures d.Scalar? ==> 1 <= d.width <= |s|
  {
    if s == [] then Malformed
    else if s[0] < 0x80 then Scalar(s[0], 1)
    else if 0xC2 <= s[0] <= 0xDF && |s| >= 2 && IsContinuation(s[1]) then
      Scalar(Join(s[0] - 0xC0, s[1]), 2)
    else if 0xE0 <= s[0] <= 0xEF && |s| >= 3 && IsContinuation(s[1]) && IsContinuation(s[2]) then
      var code := Join(Join(s[0] - 0xE0, s[1]), s[2]);
      if code < 0x800 || IsSurrogate(code) then Malformed else Scalar(code, 3)
    else if 0xF0 <= s[0] <= 0xF4 && |s| >= 4
      && IsContinuation(s[1]) && IsContinuation(s[2]) && IsContinuation(s[3]) then
      var code := Join(Join(Join(s[0] - 0xF0, s[1]), s[2]), s[3]);
      if code < 0x10000 || code > 0x10FFFF then Malformed else Scalar(code, 4)
    else Malformed
  }

  datatype DecodedText = Undecodable | Codes(codes: seq<int>)

  function DecodeAll(s: seq<Byte>): DecodedText {
    if s == [] then Codes([])
    else
      match DecodeFirst(s)
      case Malformed => Undecodable
      case Scalar(code, width) =>
        match DecodeAll(s[width..])
        case Undecodable => Undecodable
        case Codes(rest) => Codes([code] + rest)
  }

  function EncodeAll(codes: seq<int>): seq<Byte>
    requires forall i | 0 <= i < |codes| :: IsScalar(codes[i])
  {
    if codes == [] then [] else assert IsScalar(codes[0]); AppendUtf8(codes[0]) + EncodeAll(codes[1..])
  }

  lemma JoinTwo(code: int)
    requires 0x80 <= code < 0x800
    ensures Join(code / 0x40, 0x80 + code % 0x40) == code && 2 <= code / 0x40 < 0x20
  {
  }

  lemma JoinThree(code: int)
    requires 0x800 <= code < 0x10000
    ensures Join(Join(code / 0x1000, 0x80 + code / 0x40 % 0x40), 0x80 + code % 0x40) == code
    ensures code / 0x1000 < 0x10
  {
  }

  lemma JoinFour(code: int)
    requires 0x10000 <= code <= 0x10FFFF
    ensures Join(Join(Join(code / 0x40000, 0x80 + code / 0x1000 % 0x40), 0x80 + code / 0x40 % 0x40), 0x80 + code % 0x40)
            == code
    ensures code / 0x40000 <= 4
  {
    assert code / 0x1000 == code / 0x40000 * 0x40 + code / 0x1000 % 0x40;
    assert code / 0x40 == code / 0x1000 * 0x40 + code / 0x40 % 0x40;
  }

  /** Whatever follows, the bytes of a scalar value decode to it and to nothing more. */
  lemma DecodeFirstInverts(code: int, rest: seq<Byte>)
    requires IsScalar(code)
    ensures DecodeFirst(AppendUtf8(code) + rest) == Scalar(code, |AppendUtf8(code)|)
  {
    var s := AppendUtf8(code) + rest;
    if code < 0x80 {
    } else if code < 0x800 {
      JoinTwo(code);
      hide Join;
      assert s[..2] == AppendUtf8(code);
    } else if code < 0x10000 {
      JoinThree(code);
      hide Join;
      assert s[..3] == AppendUtf8(code);
    } else {
      JoinFour(code);
      hide Join;
      assert s[..4] == AppendUtf8(code);
    }
  }

  /** What is decoded is a scalar value, and the bytes decoded are those of its encoding. */
  lemma DecodeFirstSound(s: seq<Byte>)
    requires DecodeFirst(s).Scalar?
    ensures IsScalar(DecodeFirst(s).code)
    ensures s[..DecodeFirst(s).width] == AppendUtf8(DecodeFirst(s).code)
  {
    var code, width := DecodeFirst(s).code, DecodeFirst(s).width;
    if width == 2 {
      SplitJoin(s[0] - 0xC0, s[1]);
    } else if width == 3 {
      SplitJoin(Join(s[0] - 0xE0, s[1]), s[2]);
      SplitJoin(s[0] - 0xE0, s[1]);
      SplitTwice(code);
    } else if width == 4 {
      SplitJoin(Join(Join(s[0] - 0xF0, s[1]), s[2]), s[3]);
      SplitJoin(Join(s[0] - 0xF0, s[1]), s[2]);
      SplitJoin(s[0] - 0xF0, s[1]);
      SplitTwice(code);
    }
    hide Join;
  }

  lemma SplitJoin(high: int, b: Byte)
    requires IsContinuation(b)
    ensures Join(high, b) / 0x40 == high && Join(high, b) % 0x40 == b - 0x80
  {
  }

  lemma SplitTwice(code: int)
    requires code >= 0
    ensures code / 0x40 / 0x40 == code / 0x1000 && code / 0x1000 / 0x40 == code / 0x40000
  {
  }

  /** Decoding inverts encoding on every sequence of scalar values. */
  lemma {:induction false} DecodeInvertsEncode(codes: seq<int>)
    requires forall i | 0 <= i < |codes| :: IsScalar(codes[i])
    ensures DecodeAll(EncodeAll(codes)) == Codes(codes)
  {
    if codes != [] {
      var head, rest := AppendUtf8(codes[0]), EncodeAll(codes[1..]);
      DecodeFirstInverts(codes[0], rest);
      assert (head + rest)[|head|..] == rest;
      DecodeInvertsEncode(codes[1..]);
    }
  }

  /** A surrogate, written on its own, is not valid UTF-8. */
  lemma LoneSurrogateUndecodable(code: int, rest: seq<Byte>)
    requires IsSurrogate(code)
    ensures DecodeFirst(AppendUtf8(code) + rest) == Malformed
  {
  }
}
