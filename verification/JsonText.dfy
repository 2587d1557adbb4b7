/** JSON values and JSON texts of RFC 8259, and of the slightly larger grammar the viewer accepts.

  A text is given by its concrete syntax: every choice the grammar leaves open (insignificant
  whitespace, escaped or literal characters, letter case of hexadecimal digits) is a field, so
  quantifying over well-formed nodes is quantifying over all JSON texts.
*/
module JsonText {
  import opened Basics
  import opened Utf8

  /** The viewer's document node.  A number keeps its literal: converting it is `strtod`'s business. */
  datatype JsonValue =
    | Null
    | Bool(b: bool)
    | Number(literal: seq<Byte>)
    | String(bytes: seq<Byte>)
    | Array(items: seq<JsonValue>)
    | Object(members: map<seq<Byte>, JsonValue>)

  const TAB: Byte := 0x09
  const NEWLINE: Byte := 0x0A
  const RETURN: Byte := 0x0D
  const SPACE: Byte := 0x20
  const QUOTE: Byte := 0x22
  const PLUS: Byte := 0x2B
  const COMMA: Byte := 0x2C
  const MINUS: Byte := 0x2D
  const DOT: Byte := 0x2E
  const SLASH: Byte := 0x2F
  const COLON: Byte := 0x3A
  const OPEN_BRACKET: Byte := 0x5B
  const BACKSLASH: Byte := 0x5C
  const CLOSE_BRACKET: Byte := 0x5D
  const LETTER_U: Byte := 0x75
  const OPEN_BRACE: Byte := 0x7B
  const CLOSE_BRACE: Byte := 0x7D

  const TRUE: seq<Byte> := [0x74, 0x72, 0x75, 0x65]
  const FALSE: seq<Byte> := [0x66, 0x61, 0x6C, 0x73, 0x65]
  const NULL: seq<Byte> := [0x6E, 0x75, 0x6C, 0x6C]

  predicate IsWhitespace(c: Byte) {
    c == SPACE || c == TAB || c == NEWLINE || c == RETURN
  }

  predicate IsDigit(c: Byte) {
    0x30 <= c <= 0x39
  }

  predicate IsExponentLetter(c: Byte) {
    c == 0x65 || c == 0x45
  }

  /** The value of a hexadecimal digit, or -1. */
  function HexDigitValue(c: Byte): int {
    if IsDigit(c) then c as int - 0x30
    else if 0x61 <= c <= 0x66 then c as int - 0x61 + 10
    else if 0x41 <= c <= 0x46 then c as int - 0x41 + 10
    else -1
  }

  /** The character a two-character escape stands for, or 0. */
  function SimpleEscape(c: Byte): Byte {
    if c == QUOTE || c == BACKSLASH || c == SLASH then c
    else if c == 0x62 then 0x08
    else if c == 0x66 then 0x0C
    else if c == 0x6E then NEWLINE
    else if c == 0x72 then RETURN
    else if c == 0x74 then TAB
    else 0
  }

  /** Section 7 of RFC 8259: the characters the two-character escapes stand for. */
  const ESCAPES: map<int, Byte> := map[
    '\"' as int := 0x22, '\\' as int := 0x5C, '/' as int := 0x2F, 'b' as int := 0x08,
    'f' as int := 0x0C, 'n' as int := 0x0A, 'r' as int := 0x0D, 't' as int := 0x09]

  /** The two-character escapes are those of the table, with the values given there. */
  lemma EscapesOfTable(c: Byte)
    ensures SimpleEscape(c) == if c in ESCAPES then ESCAPES[c] else 0
  {
  }

  // ------------------------------------------------------------ concrete syntax

  /** Section 7: an unescaped byte, a two-character escape, or `\u` with four digits. */
  datatype Char = Raw(b: Byte) | Short(letter: Byte) | Hex(digits: seq<Byte>)

  /** Section 6, cut into its parts; `fraction` and `exponent` include their lead character. */
  datatype NumberText = NumberText(minus: bool, whole: seq<Byte>, fraction: seq<Byte>, exponent: seq<Byte>)

  datatype Node =
    | NullNode
    | BoolNode(b: bool)
    | NumberNode(number: NumberText)
    | StringNode(chars: seq<Char>)
    | ArrayNode(blank: seq<Byte>, items: seq<Item>)
    | ObjectNode(blank: seq<Byte>, members: seq<Member>)

  /** An array element with the whitespace around it. */
  datatype Item = Item(before: seq<Byte>, node: Node, after: seq<Byte>)

  datatype Member = Member(before: seq<Byte>, key: seq<Char>, afterKey: seq<Byte>,
                           beforeValue: seq<Byte>, node: Node, afterValue: seq<Byte>)

  predicate Blank(s: seq<Byte>) {
    forall i | 0 <= i < |s| :: IsWhitespace(s[i])
  }

  predicate AllDigits(s: seq<Byte>) {
    forall i | 0 <= i < |s| :: IsDigit(s[i])
  }

  predicate WellFormedChar(c: Char) {
    match c
    case Raw(b) => b >= 0x20 && b != QUOTE && b != BACKSLASH
    case Short(letter) => letter in ESCAPES
    case Hex(digits) => |digits| == 4 && forall i | 0 <= i < 4 :: HexDigitValue(digits[i]) >= 0
  }

  predicate WellFormedChars(chars: seq<Char>) {
    forall i | 0 <= i < |chars| :: WellFormedChar(chars[i])
  }

  predicate WellFormedExponent(s: seq<Byte>) {
    s == [] || (
      IsExponentLetter(s[0]) && |s| > 1 &&
      if s[1] == PLUS || s[1] == MINUS then |s| > 2 && AllDigits(s[2..]) else AllDigits(s[1..]))
  }

  /** A number as the viewer accepts it: it may have leading zeros and no digit behind its point. */
  predicate WellFormedNumber(n: NumberText) {
    && n.whole != [] && AllDigits(n.whole)
    && (n.fraction == [] || (n.fraction[0] == DOT && AllDigits(n.fraction[1..])))
    && WellFormedExponent(n.exponent)
  }

  /** A number of section 6 of RFC 8259. */
  predicate IsStandardNumber(n: NumberText) {
    WellFormedNumber(n) && (n.whole[0] == 0x30 ==> |n.whole| == 1) && |n.fraction| != 1
  }

  /** A value as the viewer accepts it; it is one of RFC 8259 when all its numbers are. */
  predicate WellFormed(node: Node) {
    match node
    case NullNode | BoolNode(_) => true
    case NumberNode(number) => WellFormedNumber(number)
    case StringNode(chars) => WellFormedChars(chars)
    case ArrayNode(blank, items) =>
      Blank(blank) &&
      forall i | 0 <= i < |items| :: Blank(items[i].before) && WellFormed(items[i].node) && Blank(items[i].after)
    case ObjectNode(blank, members) =>
      Blank(blank) &&
      forall i | 0 <= i < |members| ::
        && Blank(members[i].before) && WellFormedChars(members[i].key) && Blank(members[i].afterKey)
        && Blank(members[i].beforeValue) && WellFormed(members[i].node) && Blank(members[i].afterValue)
  }

  /** A value of RFC 8259. */
  predicate IsStandard(node: Node) {
    match node
    case NumberNode(number) => IsStandardNumber(number)
    case ArrayNode(blank, items) => WellFormed(node) && forall i | 0 <= i < |items| :: IsStandard(items[i].node)
    case ObjectNode(blank, members) => WellFormed(node) && forall i | 0 <= i < |members| :: IsStandard(members[i].node)
    case _ => WellFormed(node)
  }

  // ----------------------------------------------------------------------- text

  function CharText(c: Char): seq<Byte> {
    match c
    case Raw(b) => [b]
    case Short(letter) => [BACKSLASH, letter]
    case Hex(digits) => [BACKSLASH, LETTER_U] + digits
  }

  function CharsText(chars: seq<Char>): seq<Byte> {
    if chars == [] then [] else CharText(chars[0]) + CharsText(chars[1..])
  }

  function StringText(chars: seq<Char>): seq<Byte> {
    [QUOTE] + (CharsText(chars) + [QUOTE])
  }

  function LiteralText(n: NumberText): seq<Byte> {
    (if n.minus then [MINUS] else []) + (n.whole + (n.fraction + n.exponent))
  }

  function Text(node: Node): seq<Byte>
    decreases node, 0
  {
    match node
    case NullNode => NULL
    case BoolNode(b) => if b then TRUE else FALSE
    case NumberNode(number) => LiteralText(number)
    case StringNode(chars) => StringText(chars)
    case ArrayNode(blank, items) =>
      [OPEN_BRACKET] + (if items == [] then blank + [CLOSE_BRACKET] else ItemsText(items))
    case ObjectNode(blank, members) =>
      [OPEN_BRACE] + (if members == [] then blank + [CLOSE_BRACE] else MembersText(members))
  }

  /** The elements with their commas, up to and including the closing bracket. */
  function ItemsText(items: seq<Item>): seq<Byte>
    requires items != []
    decreases items, 1
  {
    items[0].before + (Text(items[0].node) + (items[0].after + ItemsEnd(items)))
  }

  /** What follows the first element. */
  function ItemsEnd(items: seq<Item>): seq<Byte>
    requires items != []
    decreases items, 0
  {
    if |items| == 1 then [CLOSE_BRACKET] else [COMMA] + ItemsText(items[1..])
  }

  function MembersText(members: seq<Member>): seq<Byte>
    requires members != []
    decreases members, 1
  {
    var m := members[0];
    m.before + (StringText(m.key) + (m.afterKey + ([COLON] + (m.beforeValue +
      (Text(m.node) + (m.afterValue + MembersEnd(members)))))))
  }

  function MembersEnd(members: seq<Member>): seq<Byte>
    requires members != []
    decreases members, 0
  {
    if |members| == 1 then [CLOSE_BRACE] else [COMMA] + MembersText(members[1..])
  }

  /** Containers around the innermost value: 0 for a scalar and for an empty container. */
  function Depth(node: Node): nat {
    match node
    case ArrayNode(_, items) => ItemsDepth(items)
    case ObjectNode(_, members) => MembersDepth(members)
    case _ => 0
  }

  function ItemsDepth(items: seq<Item>): nat {
    if items == [] then 0 else Max(1 + Depth(items[0].node), ItemsDepth(items[1..]))
  }

  function MembersDepth(members: seq<Member>): nat {
    if members == [] then 0 else Max(1 + Depth(members[0].node), MembersDepth(members[1..]))
  }

  // -------------------------------------------------------------------- meaning

  /** Two ways to read consecutive `\u` escapes.

    `Standard` pairs a high surrogate with the low surrogate right after it.  `Greedy` is what the
    parser does: a high surrogate always takes the next escape along, whether it is low or not. */
  datatype Reading = Standard | Greedy

  function HexCode(digits: seq<Byte>): (code: int)
    requires |digits| == 4 && forall i | 0 <= i < 4 :: HexDigitValue(digits[i]) >= 0
    ensures 0 <= code < 0x10000
  {
    ((HexDigitValue(digits[0]) * 16 + HexDigitValue(digits[1])) * 16 + HexDigitValue(digits[2])) * 16
    + HexDigitValue(digits[3])
  }

  predicate IsHighChar(c: Char)
    requires WellFormedChar(c)
  {
    c.Hex? && IsHighSurrogate(HexCode(c.digits))
  }

  predicate IsLowChar(c: Char)
    requires WellFormedChar(c)
  {
    c.Hex? && IsLowSurrogate(HexCode(c.digits))
  }

  /** The bytes of one character on its own. */
  function CharBytes(c: Char): seq<Byte>
    requires WellFormedChar(c)
  {
    match c
    case Raw(b) => [b]
    case Short(letter) => [ESCAPES[letter]]
    case Hex(digits) => AppendUtf8(HexCode(digits))
  }

  function PairBytes(high: Char, low: Char): seq<Byte>
    requires WellFormedChar(high) && WellFormedChar(low) && IsHighChar(high) && IsLowChar(low)
  {
    AppendUtf8(Combine(HexCode(high.digits), HexCode(low.digits)))
  }

  function StringBytes(chars: seq<Char>, reading: Reading): seq<Byte>
    requires WellFormedChars(chars)
  {
    if chars == [] then []
    else if IsHighChar(chars[0]) && |chars| > 1 && IsLowChar(chars[1]) then
      PairBytes(chars[0], chars[1]) + StringBytes(chars[2..], reading)
    else if reading == Greedy && IsHighChar(chars[0]) && |chars| > 1 && chars[1].Hex? then
      CharBytes(chars[0]) + CharBytes(chars[1]) + StringBytes(chars[2..], reading)
    else
      CharBytes(chars[0]) + StringBytes(chars[1..], reading)
  }

  function Meaning(node: Node, reading: Reading): JsonValue
    requires WellFormed(node)
  {
    match node
    case NullNode => Null
    case BoolNode(b) => Bool(b)
    case NumberNode(number) => Number(LiteralText(number))
    case StringNode(chars) => String(StringBytes(chars, reading))
    case ArrayNode(_, items) => Array(seq(|items|, i requires 0 <= i < |items| => Meaning(items[i].node, reading)))
    case ObjectNode(_, members) => Object(MembersMeaning(members, |members|, reading))
  }

  /** The mapping built by the first `n` members, later ones replacing earlier ones. */
  function MembersMeaning(members: seq<Member>, n: nat, reading: Reading): map<seq<Byte>, JsonValue>
    requires n <= |members|
    requires forall i | 0 <= i < |members| :: WellFormedChars(members[i].key) && WellFormed(members[i].node)
    decreases members, n
  {
    if n == 0 then map[]
    else
      MembersMeaning(members, n - 1, reading)
        [StringBytes(members[n - 1].key, reading) := Meaning(members[n - 1].node, reading)]
  }

  /** An object holds, for each key, the value of the last member with that key. */
  lemma {:induction false} LastMemberWins(members: seq<Member>, n: nat, last: nat, reading: Reading)
    requires last < n <= |members|
    requires forall i | 0 <= i < |members| :: WellFormedChars(members[i].key) && WellFormed(members[i].node)
    requires forall i | last < i < n :: StringBytes(members[i].key, reading) != StringBytes(members[last].key, reading)
    ensures StringBytes(members[last].key, reading) in MembersMeaning(members, n, reading)
    ensures MembersMeaning(members, n, reading)[StringBytes(members[last].key, reading)]
            == Meaning(members[last].node, reading)
    decreases n
  {
    hide StringBytes, Meaning, WellFormed, WellFormedChars;
    if last < n - 1 {
      LastMemberWins(members, n - 1, last, reading);
    }
  }

  /** An object holds no key that none of its members has. */
  lemma {:induction false} NoOtherMember(members: seq<Member>, n: nat, key: seq<Byte>, reading: Reading)
    requires n <= |members|
    requires forall i | 0 <= i < |members| :: WellFormedChars(members[i].key) && WellFormed(members[i].node)
    requires key in MembersMeaning(members, n, reading)
    ensures exists i :: 0 <= i < n && StringBytes(members[i].key, reading) == key
    decreases n
  {
    if key != StringBytes(members[n - 1].key, reading) {
      NoOtherMember(members, n - 1, key, reading);
    }
  }
}
