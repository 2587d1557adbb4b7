/** The bytes of the JSON model are the characters of RFC 8259 and RFC 3629. */
module JsonStandard {
  import opened Utf8
  import opened JsonText

  predicate IsAscii(text: string) {
    forall i | 0 <= i < |text| :: text[i] as int < 0x80
  }

  function Ascii(text: string): seq<Byte>
    requires IsAscii(text)
  {
    seq(|text|, i requires 0 <= i < |text| => text[i] as int)
  }

  /** Section 2 of RFC 8259: the structural characters. */
  lemma StructuralCharacters()
    ensures [OPEN_BRACKET, OPEN_BRACE, CLOSE_BRACKET, CLOSE_BRACE, COLON, COMMA] == Ascii("[{]}:,")
  {
  }

  /** Section 2: space, horizontal tab, line feed and carriage return are white space, and nothing else. */
  lemma WhiteSpace(c: Byte)
    ensures IsWhitespace(c) <==> c in Ascii(" \t\n\r")
    ensures NEWLINE == 0x0A
  {
    assert Ascii(" \t\n\r") == [0x20, 0x09, 0x0A, 0x0D];
  }

  /** Section 3: the three literal names. */
  lemma LiteralNames()
    ensures TRUE == Ascii("true") && FALSE == Ascii("false") && NULL == Ascii("null")
  {
  }

  /** Section 6: digits, signs, point and exponent letters. */
  lemma NumberCharacters(c: Byte)
    ensures IsDigit(c) <==> c in Ascii("0123456789")
    ensures [MINUS, PLUS, DOT] == Ascii("-+.")
    ensures IsExponentLetter(c) <==> c in Ascii("eE")
  {
    assert Ascii("0123456789") == [0x30, 0x31, 0x32, 0x33, 0x34, 0x35, 0x36, 0x37, 0x38, 0x39];
    assert Ascii("eE") == [0x65, 0x45];
  }

  /** Section 7: quotation mark, reverse solidus and the letter of a Unicode escape. */
  lemma StringCharacters()
    ensures [QUOTE, BACKSLASH, LETTER_U] == Ascii("\"\\u")
  {
  }

  /** `c` is the hexadecimal digit `v`, in either case. */
  predicate IsHexDigit(c: Byte, v: nat) {
    v < 16 && (c == "0123456789abcdef"[v] as int || c == "0123456789ABCDEF"[v] as int)
  }

  /** Section 7: what has a value as a hexadecimal digit, and which. */
  lemma HexDigitsOfTable(c: Byte, v: nat)
    ensures HexDigitValue(c) == v <==> IsHexDigit(c, v)
  {
  }

  /** Four digits are read with the first one highest. */
  lemma FourDigits(digits: seq<Byte>, a: nat, b: nat, c: nat, d: nat)
    requires |digits| == 4 && IsHexDigit(digits[0], a) && IsHexDigit(digits[1], b)
    requires IsHexDigit(digits[2], c) && IsHexDigit(digits[3], d)
    ensures WellFormedChar(Hex(digits)) && HexCode(digits) == 0x1000 * a + 0x100 * b + 0x10 * c + d
  {
    HexDigitsOfTable(digits[0], a);
    HexDigitsOfTable(digits[1], b);
    HexDigitsOfTable(digits[2], c);
    HexDigitsOfTable(digits[3], d);
  }

  /** Section 3 of RFC 3629 and section 7 of RFC 8259: ranges of surrogates, and how a pair is put together, the
    high one giving the upper ten bits. */
  lemma SurrogatePairs(code: nat, high: nat, low: nat)
    requires 0xD800 <= high <= 0xDBFF && 0xDC00 <= low <= 0xDFFF
    ensures IsHighSurrogate(code) <==> 0xD800 <= code <= 0xDBFF
    ensures IsLowSurrogate(code) <==> 0xDC00 <= code <= 0xDFFF
    ensures Combine(high, low) >= 0x10000
    ensures (Combine(high, low) - 0x10000) / 0x400 == high - 0xD800
    ensures (Combine(high, low) - 0x10000) % 0x400 == low - 0xDC00
  {
  }

  /** The scalar values are all code points but the surrogates. */
  lemma ScalarValues(code: int)
    ensures IsSurrogate(code) <==> 0xD800 <= code <= 0xDFFF
    ensures IsScalar(code) <==> 0 <= code <= 0xD7FF || 0xE000 <= code <= 0x10FFFF
  {
  }

  /** The grammar of the viewer has numbers that the standard has not: `01` and `1.`. */
  lemma LenientNumbers()
    ensures var zero, point := NumberText(false, Ascii("01"), [], []), NumberText(false, Ascii("1"), Ascii("."), []);
      && WellFormedNumber(zero) && !IsStandardNumber(zero) && WellFormedNumber(point) && !IsStandardNumber(point)
      && IsStandardNumber(NumberText(true, Ascii("0"), Ascii(".50"), Ascii("e-3")))
      && IsStandardNumber(NumberText(false, Ascii("10"), [], []))
  {
  }

  lemma OnePair(high: Char, low: Char)
    requires WellFormedChar(high) && WellFormedChar(low) && IsHighChar(high) && IsLowChar(low)
    ensures WellFormedChars([high, low]) && StringBytes([high, low], Greedy) == PairBytes(high, low)
  {
    hide IsHighChar, IsLowChar, WellFormedChar, PairBytes, CharBytes;
    assert [high, low][2..] == [];
  }

  /** The example of section 7 of RFC 8259: `\uD834\uDD1E` is the G clef, U+1D11E. */
  lemma ClefExample(high: Char, low: Char)
    requires high == Hex(Ascii("D834")) && low == Hex(Ascii("DD1E"))
    ensures WellFormedChars([high, low]) && StringBytes([high, low], Greedy) == [0xF0, 0x9D, 0x84, 0x9E]
  {
    FourDigits(high.digits, 0xD, 0x8, 0x3, 0x4);
    FourDigits(low.digits, 0xD, 0xD, 0x1, 0xE);
    assert PairBytes(high, low) == AppendUtf8(0x1D11E);
    hide HexCode, HexDigitValue, StringBytes, PairBytes;
    OnePair(high, low);
  }
}
