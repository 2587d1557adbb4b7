/** The parser accepts every text of the grammar within the depth limit and reads its meaning. */
module JsonRoundTrip {
  import opened Basics
  import opened Utf8
  import opened JsonText
  import opened JsonReader
  import JsonSurrogates

  /** A JSON value may end at `q`: the text ends there, or a structural or blank byte follows. */
  predicate Delimited(t: seq<Byte>, q: nat) {
    q <= |t| && (q == |t| || IsWhitespace(t[q]) || t[q] in {COMMA, CLOSE_BRACKET, CLOSE_BRACE})
  }

  lemma Split(t: seq<Byte>, p: nat, a: seq<Byte>, b: seq<Byte>)
    requires StartsWith(t, p, a + b)
    ensures StartsWith(t, p, a) && StartsWith(t, p + |a|, b)
  {
    assert t[p..p + |a|] == (a + b)[..|a|] == a;
    assert t[p + |a|..p + |a| + |b|] == (a + b)[|a|..] == b;
  }

  lemma InText(t: seq<Byte>, p: nat, s: seq<Byte>)
    requires StartsWith(t, p, s)
    ensures p + |s| <= |t|
  {
  }

  lemma ByteAt(t: seq<Byte>, p: nat, s: seq<Byte>, i: nat)
    requires StartsWith(t, p, s) && i < |s|
    ensures p + i < |t| && t[p + i] == s[i]
  {
  }

  // ------------------------------------------------------- blanks and numbers

  lemma {:induction false} SkipsBlank(t: seq<Byte>, p: nat, s: seq<Byte>)
    requires StartsWith(t, p, s) && Blank(s)
    requires p + |s| == |t| || !IsWhitespace(t[p + |s|])
    ensures SkipWhitespace(t, p) == p + |s|
    decreases |s|
  {
    if s != [] {
      ByteAt(t, p, s, 0);
      Split(t, p, [s[0]], s[1..]);
      assert s == [s[0]] + s[1..];
      SkipsBlank(t, p + 1, s[1..]);
    }
  }

  lemma {:induction false} ReadsDigits(t: seq<Byte>, p: nat, s: seq<Byte>)
    requires StartsWith(t, p, s) && AllDigits(s)
    requires !IsDigit(Peek(t, p + |s|))
    ensures Digits(t, p) == p + |s|
    decreases |s|
  {
    if s != [] {
      ByteAt(t, p, s, 0);
      assert s == [s[0]] + s[1..];
      Split(t, p, [s[0]], s[1..]);
      ReadsDigits(t, p + 1, s[1..]);
    }
  }

  lemma ReadsFraction(t: seq<Byte>, p: nat, s: seq<Byte>)
    requires StartsWith(t, p, s)
    requires s == [] || (s[0] == DOT && AllDigits(s[1..]))
    requires !IsDigit(Peek(t, p + |s|)) && (s == [] ==> Peek(t, p) != DOT)
    ensures Fraction(t, p) == p + |s|
  {
    if s != [] {
      ByteAt(t, p, s, 0);
      assert s == [s[0]] + s[1..];
      Split(t, p, [s[0]], s[1..]);
      ReadsDigits(t, p + 1, s[1..]);
    }
  }

  lemma ReadsExponent(t: seq<Byte>, p: nat, s: seq<Byte>)
    requires StartsWith(t, p, s) && WellFormedExponent(s)
    requires !IsDigit(Peek(t, p + |s|)) && (s == [] ==> !IsExponentLetter(Peek(t, p)))
    ensures Exponent(t, p) == Good((), p + |s|)
  {
    if s != [] {
      ByteAt(t, p, s, 0);
      ByteAt(t, p, s, 1);
      var skip := if s[1] == PLUS || s[1] == MINUS then 2 else 1;
      assert s == s[..skip] + s[skip..];
      Split(t, p, s[..skip], s[skip..]);
      ReadsDigits(t, p + skip, s[skip..]);
    }
  }

  /** Where the parts of a number lie, and that the byte after each ends it. */
  lemma NumberParts(t: seq<Byte>, p: nat, n: NumberText)
    requires StartsWith(t, p, LiteralText(n)) && WellFormedNumber(n)
    requires Delimited(t, p + |LiteralText(n)|)
    ensures var q := p + if n.minus then 1 else 0;
      var f := q + |n.whole|;
      var e := f + |n.fraction|;
      && q <= |t| && Sign(t, p) == q && (n.minus ==> Peek(t, p) == MINUS)
      && StartsWith(t, q, n.whole) && StartsWith(t, f, n.fraction) && StartsWith(t, e, n.exponent)
      && e + |n.exponent| == p + |LiteralText(n)|
  {
    hide StartsWith, WellFormedExponent;
    var sign: seq<Byte> := if n.minus then [MINUS] else [];
    Split(t, p, sign, n.whole + (n.fraction + n.exponent));
    var q := p + |sign|;
    Split(t, q, n.whole, n.fraction + n.exponent);
    Split(t, q + |n.whole|, n.fraction, n.exponent);
    ByteAt(t, q, n.whole, 0);
    InText(t, p, LiteralText(n));
    if n.minus {
      ByteAt(t, p, sign, 0);
    }
  }

  lemma FirstDigit(t: seq<Byte>, q: nat, n: NumberText)
    requires StartsWith(t, q, n.whole) && WellFormedNumber(n)
    ensures IsDigit(Peek(t, q)) && n.whole != []
  {
  }

  lemma ReadsNumber(t: seq<Byte>, p: nat, n: NumberText)
    requires StartsWith(t, p, LiteralText(n)) && WellFormedNumber(n)
    requires Delimited(t, p + |LiteralText(n)|)
    ensures NumberAt(t, p) == Good(Number(LiteralText(n)), p + |LiteralText(n)|)
    ensures Peek(t, p) == MINUS || IsDigit(Peek(t, p))
  {
    NumberParts(t, p, n);
    var q := p + if n.minus then 1 else 0;
    var f := q + |n.whole|;
    var e := f + |n.fraction|;
    var end := e + |n.exponent|;
    hide WellFormedNumber, Delimited, LiteralText, StartsWith, NumberAt, Digits, Fraction, Exponent, Sign, Peek;
    hide IsDigit;
    FirstDigit(t, q, n);
    NumberReads(t, q, n, end);
    NumberFrom(t, p, q, f, e, end, LiteralText(n));
  }

  lemma NumberFrom(t: seq<Byte>, p: nat, q: nat, f: nat, e: nat, end: nat, literal: seq<Byte>)
    requires p <= q < f <= e <= end <= |t| && StartsWith(t, p, literal) && end == p + |literal|
    requires Sign(t, p) == q && Digits(t, q) == f && Fraction(t, f) == e && Exponent(t, e) == Good((), end)
    ensures NumberAt(t, p) == Good(Number(literal), end)
  {
  }

  lemma NumberReads(t: seq<Byte>, q: nat, n: NumberText, end: nat)
    requires WellFormedNumber(n) && Delimited(t, end)
    requires end == q + |n.whole| + |n.fraction| + |n.exponent|
    requires StartsWith(t, q, n.whole) && StartsWith(t, q + |n.whole|, n.fraction)
    requires StartsWith(t, q + |n.whole| + |n.fraction|, n.exponent)
    ensures Digits(t, q) == q + |n.whole|
    ensures Fraction(t, q + |n.whole|) == q + |n.whole| + |n.fraction|
    ensures Exponent(t, q + |n.whole| + |n.fraction|) == Good((), end)
  {
    hide StartsWith, Digits, Fraction, Exponent;
    var f := q + |n.whole|;
    var e := f + |n.fraction|;
    assert !IsDigit(Peek(t, end)) && Peek(t, end) != DOT && !IsExponentLetter(Peek(t, end));
    if n.exponent != [] {
      ByteAt(t, e, n.exponent, 0);
    }
    assert !IsDigit(Peek(t, e)) && Peek(t, e) != DOT;
    if n.fraction != [] {
      ByteAt(t, f, n.fraction, 0);
    }
    ReadsDigits(t, q, n.whole);
    ReadsFraction(t, f, n.fraction);
    ReadsExponent(t, e, n.exponent);
  }

  // -------------------------------------------------------------------- strings

  lemma ReadsHex(t: seq<Byte>, p: nat, digits: seq<Byte>)
    requires StartsWith(t, p, digits) && WellFormedChar(Hex(digits))
    ensures HexDigits(t, p, 4, 0) == Good(HexCode(digits), p + 4)
  {
  }

  /** A raw or two-character escaped character, and an escape that is not a high surrogate. */
  lemma ReadsSingle(t: seq<Byte>, p: nat, c: Char, out: seq<Byte>)
    requires StartsWith(t, p, CharText(c)) && WellFormedChar(c) && !IsHighChar(c)
    ensures StringChar(t, p, out) == Good(out + CharBytes(c), p + |CharText(c)|)
    ensures t[p] != QUOTE
  {
    ByteAt(t, p, CharText(c), 0);
    match c {
      case Raw(_) =>
      case Short(letter) =>
        ByteAt(t, p, CharText(c), 1);
        EscapesOfTable(letter);
      case Hex(digits) =>
        ByteAt(t, p, CharText(c), 1);
        Split(t, p, [BACKSLASH, LETTER_U], digits);
        ReadsHex(t, p + 2, digits);
    }
  }

  /** A high surrogate, alone or with the escape after it. */
  lemma ReadsHigh(t: seq<Byte>, p: nat, c: Char, out: seq<Byte>)
    requires StartsWith(t, p, CharText(c)) && WellFormedChar(c) && IsHighChar(c)
    ensures StringChar(t, p, out) == LowSurrogate(t, p + 6, HexCode(c.digits), out)
    ensures t[p] != QUOTE
  {
    ByteAt(t, p, CharText(c), 0);
    ByteAt(t, p, CharText(c), 1);
    Split(t, p, [BACKSLASH, LETTER_U], c.digits);
    ReadsHex(t, p + 2, c.digits);
  }

  lemma ReadsSecond(t: seq<Byte>, p: nat, high: Char, next: Char, out: seq<Byte>)
    requires StartsWith(t, p, CharText(next)) && next.Hex? && WellFormedChar(next)
    requires WellFormedChar(high) && IsHighChar(high)
    ensures LowSurrogate(t, p, HexCode(high.digits), out)
            == Good(out + (if IsLowChar(next) then PairBytes(high, next) else CharBytes(high) + CharBytes(next)), p + 6)
  {
    ByteAt(t, p, CharText(next), 0);
    ByteAt(t, p, CharText(next), 1);
    Split(t, p, [BACKSLASH, LETTER_U], next.digits);
    ReadsHex(t, p + 2, next.digits);
    var h := AppendUtf8(HexCode(high.digits));
    var l := AppendUtf8(HexCode(next.digits));
    assert out + h + l == out + (h + l);
  }

  lemma SplitChars(t: seq<Byte>, p: nat, chars: seq<Char>)
    requires StartsWith(t, p, CharsText(chars) + [QUOTE]) && chars != [] && WellFormedChars(chars)
    ensures StartsWith(t, p, CharText(chars[0]))
    ensures StartsWith(t, p + |CharText(chars[0])|, CharsText(chars[1..]) + [QUOTE])
    ensures |CharsText(chars)| == |CharText(chars[0])| + |CharsText(chars[1..])|
    ensures chars[0].Hex? ==> |CharText(chars[0])| == 6
  {
    assert CharsText(chars) + [QUOTE] == CharText(chars[0]) + (CharsText(chars[1..]) + [QUOTE]);
    Split(t, p, CharText(chars[0]), CharsText(chars[1..]) + [QUOTE]);
  }

  /** What follows a character that is no `\u` escape does not look like one. */
  lemma NoEscapeNext(t: seq<Byte>, p: nat, chars: seq<Char>)
    requires StartsWith(t, p, CharsText(chars) + [QUOTE]) && WellFormedChars(chars)
    requires chars == [] || !chars[0].Hex?
    ensures Peek(t, p) != BACKSLASH || p + 1 >= |t| || t[p + 1] != LETTER_U
  {
    hide StartsWith;
    if chars == [] {
      ByteAt(t, p, CharsText(chars) + [QUOTE], 0);
    } else {
      SplitChars(t, p, chars);
      ByteAt(t, p, CharText(chars[0]), 0);
      if chars[0].Short? {
        ByteAt(t, p, CharText(chars[0]), 1);
      }
    }
  }

  lemma ReadsLone(t: seq<Byte>, p: nat, c: Char, rest: seq<Char>, out: seq<Byte>)
    requires StartsWith(t, p, CharText(c)) && WellFormedChar(c) && IsHighChar(c)
    requires StartsWith(t, p + 6, CharsText(rest) + [QUOTE]) && WellFormedChars(rest)
    requires rest == [] || !rest[0].Hex?
    ensures StringChar(t, p, out) == Good(out + CharBytes(c), p + |CharText(c)|)
    ensures t[p] != QUOTE
  {
    ReadsHigh(t, p, c, out);
    NoEscapeNext(t, p + 6, rest);
  }

  /** Reading one character and then the others. */
  lemma ThenChars(t: seq<Byte>, p: nat, q: nat, out: seq<Byte>, bytes: seq<Byte>, tail: seq<Byte>, end: nat)
    requires p < |t| && q <= |t| && t[p] != QUOTE
    requires StringChar(t, p, out) == Good(out + bytes, q)
    requires StringChars(t, q, out + bytes) == Good(out + bytes + tail, end)
    ensures StringChars(t, p, out) == Good(out + (bytes + tail), end)
  {
    hide StringChar;
    assert out + bytes + tail == out + (bytes + tail);
  }

  lemma {:induction false} ReadsChars(t: seq<Byte>, p: nat, chars: seq<Char>, out: seq<Byte>)
    requires StartsWith(t, p, CharsText(chars) + [QUOTE]) && WellFormedChars(chars)
    ensures StringChars(t, p, out) == Good(out + StringBytes(chars, Greedy), p + |CharsText(chars)|)
    decreases |chars|
  {
    if chars == [] {
      ByteAt(t, p, CharsText(chars) + [QUOTE], 0);
      assert out + StringBytes(chars, Greedy) == out;
    } else {
      SplitChars(t, p, chars);
      var c, rest := chars[0], chars[1..];
      if !IsHighChar(c) {
        ReadsSingle(t, p, c, out);
        ReadsFirst(t, p, chars, out);
      } else if rest == [] || !rest[0].Hex? {
        ReadsLone(t, p, c, rest, out);
        ReadsFirst(t, p, chars, out);
      } else {
        ReadsHigh(t, p, c, out);
        ReadsTwo(t, p, chars, out);
      }
    }
  }

  lemma {:induction false} ReadsFirst(t: seq<Byte>, p: nat, chars: seq<Char>, out: seq<Byte>)
    requires chars != [] && WellFormedChars(chars)
    requires IsHighChar(chars[0]) && |chars| > 1 ==> !chars[1].Hex?
    requires StartsWith(t, p, CharsText(chars) + [QUOTE]) && p < |t| && t[p] != QUOTE
    requires StringChar(t, p, out) == Good(out + CharBytes(chars[0]), p + |CharText(chars[0])|)
    ensures StringChars(t, p, out) == Good(out + StringBytes(chars, Greedy), p + |CharsText(chars)|)
    decreases |chars|, 0
  {
    SplitChars(t, p, chars);
    var bytes, q := CharBytes(chars[0]), p + |CharText(chars[0])|;
    ReadsChars(t, q, chars[1..], out + bytes);
    hide StartsWith, StringChar, CharBytes, CharText, CharsText;
    assert StringBytes(chars, Greedy) == bytes + StringBytes(chars[1..], Greedy);
    ThenChars(t, p, q, out, bytes, StringBytes(chars[1..], Greedy), p + |CharsText(chars)|);
  }

  lemma {:induction false} ReadsTwo(t: seq<Byte>, p: nat, chars: seq<Char>, out: seq<Byte>)
    requires |chars| > 1 && WellFormedChars(chars) && IsHighChar(chars[0]) && chars[1].Hex?
    requires StartsWith(t, p, CharsText(chars) + [QUOTE])
    requires p < |t| && t[p] != QUOTE
    requires StringChar(t, p, out) == LowSurrogate(t, p + 6, HexCode(chars[0].digits), out)
    ensures StringChars(t, p, out) == Good(out + StringBytes(chars, Greedy), p + |CharsText(chars)|)
    decreases |chars|, 0
  {
    SplitChars(t, p, chars);
    SplitChars(t, p + 6, chars[1..]);
    var high, next, rest := chars[0], chars[1], chars[2..];
    assert chars[1..][1..] == rest;
    ReadsSecond(t, p + 6, high, next, out);
    var bytes := if IsLowChar(next) then PairBytes(high, next) else CharBytes(high) + CharBytes(next);
    ReadsChars(t, p + 12, rest, out + bytes);
    hide StartsWith, StringChar, LowSurrogate, CharBytes, PairBytes, CharText, CharsText;
    assert StringBytes(chars, Greedy) == bytes + StringBytes(rest, Greedy);
    ThenChars(t, p, p + 12, out, bytes, StringBytes(rest, Greedy), p + |CharsText(chars)|);
  }

  lemma ReadsString(t: seq<Byte>, p: nat, chars: seq<Char>)
    requires StartsWith(t, p, StringText(chars)) && WellFormedChars(chars)
    ensures StringAt(t, p) == Good(StringBytes(chars, Greedy), p + |StringText(chars)|)
    ensures p < |t| && t[p] == QUOTE
  {
    hide StringBytes, StringChars, CharsText, StringAt, StartsWith;
    var body := CharsText(chars) + [QUOTE];
    ByteAt(t, p, StringText(chars), 0);
    Split(t, p, [QUOTE], body);
    ByteAt(t, p + 1, body, |CharsText(chars)|);
    ReadsChars(t, p + 1, chars, []);
    assert |StringText(chars)| == |CharsText(chars)| + 2;
    InText(t, p, StringText(chars));
    StringFrom(t, p, StringBytes(chars, Greedy), p + 1 + |CharsText(chars)|);
  }

  lemma StringFrom(t: seq<Byte>, p: nat, bytes: seq<Byte>, end: nat)
    requires p < end < |t| && t[p] == QUOTE && t[end] == QUOTE
    requires StringChars(t, p + 1, []) == Good([] + bytes, end)
    ensures StringAt(t, p) == Good(bytes, end + 1)
  {
    hide StringChars;
    assert [] + bytes == bytes;
  }

  // --------------------------------------------------------- values, containers

  /** The first byte of a value's text, which decides how it is read. */
  function FirstByte(node: Node): Byte
    requires WellFormed(node)
  {
    match node
    case NullNode => NULL[0]
    case BoolNode(b) => if b then TRUE[0] else FALSE[0]
    case NumberNode(number) => if number.minus then MINUS else number.whole[0]
    case StringNode(_) => QUOTE
    case ArrayNode(_, _) => OPEN_BRACKET
    case ObjectNode(_, _) => OPEN_BRACE
  }

  lemma StartsNode(t: seq<Byte>, p: nat, node: Node)
    requires StartsWith(t, p, Text(node)) && WellFormed(node)
    ensures p < |t| && t[p] == FirstByte(node)
    ensures !IsWhitespace(t[p]) && t[p] != CLOSE_BRACKET && t[p] != CLOSE_BRACE
  {
  }

  lemma ReadsScalar(t: seq<Byte>, p: nat, node: Node, depth: nat)
    requires StartsWith(t, p, Text(node)) && WellFormed(node) && Delimited(t, p + |Text(node)|)
    requires !node.ArrayNode? && !node.ObjectNode? && depth <= MAX_DEPTH
    ensures ValueAt(t, p, depth) == Good(Meaning(node, Greedy), p + |Text(node)|)
  {
    StartsNode(t, p, node);
    match node {
      case NumberNode(number) => ReadsNumber(t, p, number);
      case StringNode(chars) => ReadsString(t, p, chars);
      case BoolNode(b) =>
        if !b {
          assert t[p..p + 4][0] != TRUE[0];
        }
      case NullNode =>
        assert t[p..p + 4][0] != TRUE[0];
        assert p + 5 <= |t| ==> t[p..p + 5][0] != FALSE[0];
    }
  }

  /** Blanks and then the separator or the end of the container. */
  lemma ReadsContinue(t: seq<Byte>, p: nat, blank: seq<Byte>, next: Byte, closing: Byte)
    requires StartsWith(t, p, blank) && Blank(blank) && p + |blank| < |t| && t[p + |blank|] == next
    requires closing in {CLOSE_BRACKET, CLOSE_BRACE} && next in {COMMA, closing}
    ensures Continue(t, p, closing) == Good(next == COMMA, p + |blank| + 1)
    ensures Delimited(t, p)
  {
    SkipsBlank(t, p, blank);
    if blank != [] {
      ByteAt(t, p, blank, 0);
    }
  }

  lemma {:induction false} SkipTwice(t: seq<Byte>, p: nat)
    requires p <= |t|
    ensures SkipWhitespace(t, SkipWhitespace(t, p)) == SkipWhitespace(t, p)
    decreases |t| - p
  {
    if p < |t| && IsWhitespace(t[p]) {
      SkipTwice(t, p + 1);
    }
  }

  /** How the text of an element list is laid out from `p`. */
  ghost predicate ItemLayout(t: seq<Byte>, p: nat, items: seq<Item>)
    requires items != []
  {
    var v := p + |items[0].before|;
    var a := v + |Text(items[0].node)|;
    var s := a + |items[0].after|;
    && StartsWith(t, p, items[0].before) && StartsWith(t, v, Text(items[0].node)) && StartsWith(t, a, items[0].after)
    && s < |t|
    && if |items| == 1 then t[s] == CLOSE_BRACKET && s + 1 == p + |ItemsText(items)|
       else t[s] == COMMA && StartsWith(t, s + 1, ItemsText(items[1..]))
            && s + 1 + |ItemsText(items[1..])| == p + |ItemsText(items)|
  }

  lemma LayItems(t: seq<Byte>, p: nat, items: seq<Item>)
    requires items != [] && StartsWith(t, p, ItemsText(items))
    ensures ItemLayout(t, p, items)
  {
    hide StartsWith, Text;
    var item := items[0];
    assert ItemsText(items) == item.before + (Text(item.node) + (item.after + ItemsEnd(items)));
    hide ItemsText;
    Split(t, p, item.before, Text(item.node) + (item.after + ItemsEnd(items)));
    Split(t, p + |item.before|, Text(item.node), item.after + ItemsEnd(items));
    var a := p + |item.before| + |Text(item.node)|;
    Split(t, a, item.after, ItemsEnd(items));
    ByteAt(t, a + |item.after|, ItemsEnd(items), 0);
    if |items| > 1 {
      Split(t, a + |item.after|, [COMMA], ItemsText(items[1..]));
    }
  }

  ghost predicate MemberLayout(t: seq<Byte>, p: nat, members: seq<Member>)
    requires members != []
  {
    var m := members[0];
    var k := p + |m.before|;
    var c := k + |StringText(m.key)| + |m.afterKey|;
    var v := c + 1 + |m.beforeValue|;
    var a := v + |Text(m.node)|;
    var s := a + |m.afterValue|;
    && StartsWith(t, p, m.before) && StartsWith(t, k, StringText(m.key))
    && StartsWith(t, k + |StringText(m.key)|, m.afterKey) && c < |t| && t[c] == COLON
    && StartsWith(t, c + 1, m.beforeValue) && StartsWith(t, v, Text(m.node)) && StartsWith(t, a, m.afterValue)
    && s < |t|
    && if |members| == 1 then t[s] == CLOSE_BRACE && s + 1 == p + |MembersText(members)|
       else t[s] == COMMA && StartsWith(t, s + 1, MembersText(members[1..]))
            && s + 1 + |MembersText(members[1..])| == p + |MembersText(members)|
  }

  lemma LayMembers(t: seq<Byte>, p: nat, members: seq<Member>)
    requires members != [] && StartsWith(t, p, MembersText(members))
    ensures MemberLayout(t, p, members)
  {
    hide StartsWith, Text, StringText;
    var m := members[0];
    var value := m.beforeValue + (Text(m.node) + (m.afterValue + MembersEnd(members)));
    assert MembersText(members) == m.before + (StringText(m.key) + (m.afterKey + ([COLON] + value)));
    var k := p + |m.before|;
    var c := k + |StringText(m.key)| + |m.afterKey|;
    LayKey(t, p, m, value);
    LayValue(t, c + 1, members);
  }

  lemma LayKey(t: seq<Byte>, p: nat, m: Member, value: seq<Byte>)
    requires StartsWith(t, p, m.before + (StringText(m.key) + (m.afterKey + ([COLON] + value))))
    ensures var k := p + |m.before|;
      var c := k + |StringText(m.key)| + |m.afterKey|;
      && StartsWith(t, p, m.before) && StartsWith(t, k, StringText(m.key))
      && StartsWith(t, k + |StringText(m.key)|, m.afterKey) && c < |t| && t[c] == COLON && StartsWith(t, c + 1, value)
  {
    hide StartsWith, StringText;
    var k := p + |m.before|;
    Split(t, p, m.before, StringText(m.key) + (m.afterKey + ([COLON] + value)));
    Split(t, k, StringText(m.key), m.afterKey + ([COLON] + value));
    Split(t, k + |StringText(m.key)|, m.afterKey, [COLON] + value);
    var c := k + |StringText(m.key)| + |m.afterKey|;
    Split(t, c, [COLON], value);
    ByteAt(t, c, [COLON], 0);
  }

  lemma LayValue(t: seq<Byte>, p: nat, members: seq<Member>)
    requires members != []
    requires StartsWith(t, p,
      members[0].beforeValue + (Text(members[0].node) + (members[0].afterValue + MembersEnd(members))))
    ensures var m := members[0];
      var v := p + |m.beforeValue|;
      var a := v + |Text(m.node)|;
      var s := a + |m.afterValue|;
      && StartsWith(t, p, m.beforeValue) && StartsWith(t, v, Text(m.node)) && StartsWith(t, a, m.afterValue)
      && s < |t|
      && if |members| == 1 then t[s] == CLOSE_BRACE
         else t[s] == COMMA && StartsWith(t, s + 1, MembersText(members[1..]))
  {
    hide StartsWith, Text, MembersText;
    var m := members[0];
    Split(t, p, m.beforeValue, Text(m.node) + (m.afterValue + MembersEnd(members)));
    var v := p + |m.beforeValue|;
    Split(t, v, Text(m.node), (m.afterValue + MembersEnd(members)));
    var a := v + |Text(m.node)|;
    Split(t, a, m.afterValue, MembersEnd(members));
    ByteAt(t, a + |m.afterValue|, MembersEnd(members), 0);
    if |members| > 1 {
      Split(t, a + |m.afterValue|, [COMMA], MembersText(members[1..]));
    }
  }

  ghost predicate WellFormedItems(items: seq<Item>) {
    forall i | 0 <= i < |items| :: Blank(items[i].before) && WellFormed(items[i].node) && Blank(items[i].after)
  }

  ghost predicate WellFormedMembers(members: seq<Member>) {
    forall i | 0 <= i < |members| ::
      && Blank(members[i].before) && WellFormedChars(members[i].key) && Blank(members[i].afterKey)
      && Blank(members[i].beforeValue) && WellFormed(members[i].node) && Blank(members[i].afterValue)
  }

  ghost function ItemsMeaning(items: seq<Item>, n: nat): seq<JsonValue>
    requires n <= |items| && WellFormedItems(items)
  {
    seq(n, i requires 0 <= i < n => Meaning(items[i].node, Greedy))
  }

  /** A value is read as its meaning if it fits below the depth limit, and rejected otherwise. */
  lemma {:induction false} ReadsValue(t: seq<Byte>, p: nat, node: Node, depth: nat)
    requires StartsWith(t, p, Text(node)) && WellFormed(node) && Delimited(t, p + |Text(node)|)
    ensures depth + Depth(node) <= MAX_DEPTH ==>
      ValueAt(t, p, depth) == Good(Meaning(node, Greedy), p + |Text(node)|)
    ensures depth + Depth(node) > MAX_DEPTH ==> ValueAt(t, p, depth).Bad?
    decreases node, 1
  {
    StartsNode(t, p, node);
    if depth <= MAX_DEPTH {
      match node {
        case ArrayNode(blank, items) => ReadsArray(t, p, node, depth);
        case ObjectNode(blank, members) => ReadsObject(t, p, node, depth);
        case _ => ReadsScalar(t, p, node, depth);
      }
    }
  }

  lemma ArrayMeaning(node: Node)
    requires WellFormed(node) && node.ArrayNode?
    ensures Meaning(node, Greedy) == Array(ItemsMeaning(node.items, |node.items|))
    ensures ItemsMeaning(node.items, 0) == []
    ensures node.items == [] ==> Meaning(node, Greedy) == Array([])
    ensures Depth(node) == ItemsDepth(node.items)
  {
  }

  lemma ArrayStep(t: seq<Byte>, p: nat, q: nat, depth: nat)
    requires p < |t| && t[p] == OPEN_BRACKET && depth <= MAX_DEPTH && SkipWhitespace(t, p + 1) == q
    ensures q <= |t|
    ensures ValueAt(t, p, depth) ==
      if Peek(t, q) == CLOSE_BRACKET then Good(Array([]), q + 1)
      else match ItemsAt(t, q, depth, [])
        case Bad(at, message) => Bad(at, message)
        case Good(items, end) => Good(Array(items), end)
  {
  }

  lemma ObjectStep(t: seq<Byte>, p: nat, q: nat, depth: nat)
    requires p < |t| && t[p] == OPEN_BRACE && depth <= MAX_DEPTH && SkipWhitespace(t, p + 1) == q
    ensures q <= |t|
    ensures ValueAt(t, p, depth) ==
      if Peek(t, q) == CLOSE_BRACE then Good(Object(map[]), q + 1)
      else match MembersAt(t, q, depth, map[])
        case Bad(at, message) => Bad(at, message)
        case Good(members, end) => Good(Object(members), end)
  {
  }

  lemma {:induction false} ReadsArray(t: seq<Byte>, p: nat, node: Node, depth: nat)
    requires StartsWith(t, p, Text(node)) && WellFormed(node) && node.ArrayNode? && depth <= MAX_DEPTH
    ensures depth + Depth(node) <= MAX_DEPTH ==>
      ValueAt(t, p, depth) == Good(Meaning(node, Greedy), p + |Text(node)|)
    ensures depth + Depth(node) > MAX_DEPTH ==> ValueAt(t, p, depth).Bad?
    decreases node, 0
  {
    hide StartsWith, ItemsAt, ValueAt, ItemsText, Meaning, ItemsMeaning, SkipWhitespace, WellFormed, Text, ItemsDepth;
    hide Blank, Depth, WellFormedItems;
    ArrayMeaning(node);
    ArrayParts(t, p, node);
    if node.items == [] {
      ReadsEmptyArray(t, p, node, depth);
    } else {
      ReadsAllItems(t, p + 1, node.items, depth);
      ArrayOfItems(t, p, p + 1 + |node.items[0].before|, depth);
    }
  }

  /** A bracket and at least one item. */
  lemma ArrayOfItems(t: seq<Byte>, p: nat, q: nat, depth: nat)
    requires p < |t| && t[p] == OPEN_BRACKET && depth <= MAX_DEPTH && SkipWhitespace(t, p + 1) == q
    requires q < |t| && t[q] != CLOSE_BRACKET
    ensures ItemsAt(t, q, depth, []).Bad? ==> ValueAt(t, p, depth).Bad?
    ensures ItemsAt(t, q, depth, []).Good? ==>
      ValueAt(t, p, depth) == Good(Array(ItemsAt(t, q, depth, []).value), ItemsAt(t, q, depth, []).pos)
  {
    hide ItemsAt, ValueAt, SkipWhitespace;
    ArrayStep(t, p, q, depth);
  }

  /** Where the parts of an array lie. */
  lemma ArrayParts(t: seq<Byte>, p: nat, node: Node)
    requires StartsWith(t, p, Text(node)) && WellFormed(node) && node.ArrayNode?
    ensures p < |t| && t[p] == OPEN_BRACKET && WellFormedItems(node.items)
    ensures node.items != [] ==>
      StartsWith(t, p + 1, ItemsText(node.items)) && |Text(node)| == 1 + |ItemsText(node.items)|
  {
    hide StartsWith, ItemsText;
    StartsNode(t, p, node);
    if node.items != [] {
      Split(t, p, [OPEN_BRACKET], ItemsText(node.items));
    }
  }

  lemma ReadsEmptyArray(t: seq<Byte>, p: nat, node: Node, depth: nat)
    requires StartsWith(t, p, Text(node)) && WellFormed(node) && node.ArrayNode? && depth <= MAX_DEPTH
    requires node.items == []
    ensures Depth(node) == 0 && ValueAt(t, p, depth) == Good(Meaning(node, Greedy), p + |Text(node)|)
  {
    hide StartsWith, Meaning;
    StartsNode(t, p, node);
    ArrayMeaning(node);
    EmptyContainer(t, p, OPEN_BRACKET, node.blank, CLOSE_BRACKET);
    hide ValueAt, SkipWhitespace;
    ArrayStep(t, p, p + 1 + |node.blank|, depth);
  }

  lemma {:induction false} ReadsAllItems(t: seq<Byte>, p: nat, items: seq<Item>, depth: nat)
    requires items != [] && WellFormedItems(items) && StartsWith(t, p, ItemsText(items))
    ensures p <= |t| && SkipWhitespace(t, p) == p + |items[0].before|
    ensures p + |items[0].before| < |t| && t[p + |items[0].before|] != CLOSE_BRACKET
    ensures depth + ItemsDepth(items) <= MAX_DEPTH ==>
      ItemsAt(t, p + |items[0].before|, depth, []) == Good(ItemsMeaning(items, |items|), p + |ItemsText(items)|)
    ensures depth + ItemsDepth(items) > MAX_DEPTH ==> ItemsAt(t, p + |items[0].before|, depth, []).Bad?
    decreases items, |items| + 1
  {
    hide StartsWith, ItemsAt, ValueAt, SkipWhitespace, Text, ItemsText, Depth, Blank;
    LayItems(t, p, items);
    var q := p + |items[0].before|;
    StartsNode(t, q, items[0].node);
    SkipsBlank(t, p, items[0].before);
    SkipTwice(t, p);
    assert items[0..] == items && ItemsMeaning(items, 0) == [];
    hide ItemsMeaning;
    ReadsItems(t, p, q, items, 0, depth);
  }

  lemma EmptyContainer(t: seq<Byte>, p: nat, opening: Byte, blank: seq<Byte>, closing: Byte)
    requires StartsWith(t, p, [opening] + (blank + [closing])) && Blank(blank)
    requires closing in {CLOSE_BRACKET, CLOSE_BRACE}
    ensures p + 1 <= |t| && SkipWhitespace(t, p + 1) == p + 1 + |blank|
    ensures Peek(t, p + 1 + |blank|) == closing
  {
    Split(t, p, [opening], blank + [closing]);
    Split(t, p + 1, blank, [closing]);
    ByteAt(t, p + 1 + |blank|, [closing], 0);
    SkipsBlank(t, p + 1, blank);
  }

  lemma ItemStep(t: seq<Byte>, from: nat, depth: nat, read: seq<JsonValue>, v: nat)
    requires from <= |t| && SkipWhitespace(t, from) == v
    ensures ValueAt(t, v, depth + 1).Bad? ==> ItemsAt(t, from, depth, read).Bad?
    ensures match ValueAt(t, v, depth + 1)
      case Bad(_, _) => true
      case Good(value, a) =>
        match Continue(t, a, CLOSE_BRACKET)
        case Bad(_, _) => true
        case Good(another, next) =>
          ItemsAt(t, from, depth, read) ==
          if another then ItemsAt(t, next, depth, read + [value]) else Good(read + [value], next)
  {
  }

  lemma ItemsDepthFrom(items: seq<Item>, i: nat)
    requires i < |items|
    ensures ItemsDepth(items[i..])
      == Max(1 + Depth(items[i].node), if i + 1 < |items| then ItemsDepth(items[i + 1..]) else 0)
  {
    hide Depth;
    assert items[i..][1..] == items[i + 1..];
  }

  lemma {:induction false} ReadsItems(t: seq<Byte>, p: nat, from: nat, items: seq<Item>, i: nat, depth: nat)
    requires i < |items| && WellFormedItems(items)
    requires StartsWith(t, p, ItemsText(items[i..])) && from <= |t|
    requires SkipWhitespace(t, from) == SkipWhitespace(t, p)
    ensures depth + ItemsDepth(items[i..]) <= MAX_DEPTH ==>
      ItemsAt(t, from, depth, ItemsMeaning(items, i))
      == Good(ItemsMeaning(items, |items|), p + |ItemsText(items[i..])|)
    ensures depth + ItemsDepth(items[i..]) > MAX_DEPTH ==> ItemsAt(t, from, depth, ItemsMeaning(items, i)).Bad?
    decreases items, |items| - i
  {
    hide StartsWith, ItemsAt, ValueAt, Continue, SkipWhitespace, Text, Meaning, ItemsText, Delimited, Depth, Blank;
    hide ItemsDepth;
    var item := items[i];
    ItemsDepthFrom(items, i);
    LayItems(t, p, items[i..]);
    var v := p + |item.before|;
    var a := v + |Text(item.node)|;
    var s := a + |item.after|;
    StartsNode(t, v, item.node);
    SkipsBlank(t, p, item.before);
    ReadsContinue(t, a, item.after, t[s], CLOSE_BRACKET);
    ReadsValue(t, v, item.node, depth + 1);
    assert ItemsMeaning(items, i) + [Meaning(item.node, Greedy)] == ItemsMeaning(items, i + 1);
    ItemStep(t, from, depth, ItemsMeaning(items, i), v);
    if i + 1 < |items| {
      assert items[i..][1..] == items[i + 1..];
      ReadsItems(t, s + 1, s + 1, items, i + 1, depth);
    }
  }

  lemma {:induction false} ReadsObject(t: seq<Byte>, p: nat, node: Node, depth: nat)
    requires StartsWith(t, p, Text(node)) && WellFormed(node) && node.ObjectNode? && depth <= MAX_DEPTH
    ensures depth + Depth(node) <= MAX_DEPTH ==>
      ValueAt(t, p, depth) == Good(Meaning(node, Greedy), p + |Text(node)|)
    ensures depth + Depth(node) > MAX_DEPTH ==> ValueAt(t, p, depth).Bad?
    decreases node, 0
  {
    hide StartsWith, MembersAt, ValueAt, SkipWhitespace, StringAt, MembersText, StringText, Delimited, Blank;
    hide StringBytes, WellFormedChars;
    var members := node.members;
    StartsNode(t, p, node);
    if members == [] {
      EmptyContainer(t, p, OPEN_BRACE, node.blank, CLOSE_BRACE);
      ObjectStep(t, p, p + 1 + |node.blank|, depth);
      assert MembersDepth(members) == 0;
    } else {
      Split(t, p, [OPEN_BRACE], MembersText(members));
      LayMembers(t, p + 1, members);
      var q := p + 1 + |members[0].before|;
      ReadsString(t, q, members[0].key);
      SkipsBlank(t, p + 1, members[0].before);
      SkipTwice(t, p + 1);
      assert members[0..] == members;
      ReadsMembers(t, p + 1, q, members, 0, depth);
      ObjectStep(t, p, q, depth);
    }
  }

  lemma ReadsKey(t: seq<Byte>, p: nat, from: nat, members: seq<Member>)
    requires members != [] && WellFormedMembers(members) && MemberLayout(t, p, members)
    requires from <= |t| && p <= |t| && SkipWhitespace(t, from) == SkipWhitespace(t, p)
    ensures var m := members[0];
      var c := p + |m.before| + |StringText(m.key)| + |m.afterKey|;
      KeyAt(t, from) == Good(StringBytes(m.key, Greedy), c + 1)
      && SkipWhitespace(t, c + 1) == c + 1 + |m.beforeValue|
  {
    hide StartsWith, SkipWhitespace, StringAt, Text, MembersText, StringText, StringBytes, KeyAt;
    var m := members[0];
    var k := p + |m.before|;
    ReadsString(t, k, m.key);
    SkipsBlank(t, p, m.before);
    var e := k + |StringText(m.key)|;
    SkipsBlank(t, e, m.afterKey);
    var c := e + |m.afterKey|;
    StartsNode(t, c + 1 + |m.beforeValue|, m.node);
    SkipsBlank(t, c + 1, m.beforeValue);
    KeyFrom(t, from, k, e, c, StringBytes(m.key, Greedy));
  }

  lemma KeyFrom(t: seq<Byte>, from: nat, k: nat, e: nat, c: nat, key: seq<Byte>)
    requires from <= |t| && SkipWhitespace(t, from) == k && StringAt(t, k) == Good(key, e)
    requires e <= |t| && SkipWhitespace(t, e) == c && c < |t| && t[c] == COLON
    ensures KeyAt(t, from) == Good(key, c + 1)
  {
  }

  lemma MemberStep(t: seq<Byte>, from: nat, depth: nat, read: map<seq<Byte>, JsonValue>, key: seq<Byte>, k: nat, v: nat)
    requires from <= |t| && KeyAt(t, from) == Good(key, k) && SkipWhitespace(t, k) == v
    ensures ValueAt(t, v, depth + 1).Bad? ==> MembersAt(t, from, depth, read).Bad?
    ensures match ValueAt(t, v, depth + 1)
      case Bad(_, _) => true
      case Good(value, a) =>
        match Continue(t, a, CLOSE_BRACE)
        case Bad(_, _) => true
        case Good(another, next) =>
          MembersAt(t, from, depth, read) ==
          if another then MembersAt(t, next, depth, read[key := value]) else Good(read[key := value], next)
  {
  }

  lemma MembersDepthFrom(members: seq<Member>, i: nat)
    requires i < |members|
    ensures MembersDepth(members[i..])
      == Max(1 + Depth(members[i].node), if i + 1 < |members| then MembersDepth(members[i + 1..]) else 0)
  {
    hide Depth;
    assert members[i..][1..] == members[i + 1..];
  }

  lemma {:induction false} ReadsMembers(t: seq<Byte>, p: nat, from: nat, members: seq<Member>, i: nat, depth: nat)
    requires i < |members| && WellFormedMembers(members)
    requires StartsWith(t, p, MembersText(members[i..])) && from <= |t|
    requires SkipWhitespace(t, from) == SkipWhitespace(t, p)
    ensures depth + MembersDepth(members[i..]) <= MAX_DEPTH ==>
      MembersAt(t, from, depth, MembersMeaning(members, i, Greedy))
      == Good(MembersMeaning(members, |members|, Greedy), p + |MembersText(members[i..])|)
    ensures depth + MembersDepth(members[i..]) > MAX_DEPTH ==>
      MembersAt(t, from, depth, MembersMeaning(members, i, Greedy)).Bad?
    decreases members, |members| - i
  {
    hide StartsWith, MembersAt, ValueAt, KeyAt, Continue, SkipWhitespace, Text, StringText, MembersText, StringBytes;
    hide Meaning;
    hide Delimited, Depth, MembersDepth, Blank, WellFormedChars;
    var m := members[i];
    MembersDepthFrom(members, i);
    LayMembers(t, p, members[i..]);
    ReadsKey(t, p, from, members[i..]);
    var v := p + |m.before| + |StringText(m.key)| + |m.afterKey| + 1 + |m.beforeValue|;
    var a := v + |Text(m.node)|;
    var s := a + |m.afterValue|;
    ReadsContinue(t, a, m.afterValue, t[s], CLOSE_BRACE);
    ReadsValue(t, v, m.node, depth + 1);
    MemberStep(t, from, depth, MembersMeaning(members, i, Greedy), StringBytes(m.key, Greedy),
               v - |m.beforeValue|, v);
    if i + 1 < |members| {
      assert members[i..][1..] == members[i + 1..];
      ReadsMembers(t, s + 1, s + 1, members, i + 1, depth);
    }
  }

  lemma DelimitedByBlank(t: seq<Byte>, end: nat, blank: seq<Byte>)
    requires StartsWith(t, end, blank) && Blank(blank) && end + |blank| == |t|
    ensures Delimited(t, end)
  {
  }

  /** Every RFC 8259 text is accepted with its meaning if no value in it has more than MAX_DEPTH containers
    around it, and rejected otherwise. */
  lemma ReadsDocument(before: seq<Byte>, node: Node, after: seq<Byte>)
    requires Blank(before) && WellFormed(node) && Blank(after)
    ensures var t := before + (Text(node) + after);
      && (Depth(node) <= MAX_DEPTH ==> Document(t) == Good(Meaning(node, Greedy), |t|))
      && (Depth(node) > MAX_DEPTH ==> Document(t).Bad?)
  {
    hide Text, Meaning, Depth, WellFormed, Blank, ValueAt, SkipWhitespace;
    var t := before + (Text(node) + after);
    assert StartsWith(t, 0, t);
    hide StartsWith;
    Split(t, 0, before, Text(node) + after);
    Split(t, |before|, Text(node), after);
    StartsNode(t, |before|, node);
    SkipsBlank(t, 0, before);
    var end := |before| + |Text(node)|;
    SkipsBlank(t, end, after);
    DelimitedByBlank(t, end, after);
    ReadsValue(t, |before|, node, 0);
  }

  /** The value read is the standard one whenever no string loses a surrogate pair. */
  lemma ReadsStandardDocument(before: seq<Byte>, node: Node, after: seq<Byte>)
    requires Blank(before) && WellFormed(node) && Blank(after)
    requires Depth(node) <= MAX_DEPTH && JsonSurrogates.KeepsPairs(node)
    ensures var t := before + (Text(node) + after);
      Document(t) == Good(Meaning(node, Standard), |t|)
  {
    ReadsDocument(before, node, after);
    JsonSurrogates.KeptMeaning(node);
  }
}
