/** What the viewer's JSON parser computes, as functions of the text and a position.

  Each function gives the value read and the position after it, or the position and message of the
  first error.  The imperative parser is proved against these functions (module JsonParser); what
  the parser promises is proved about them (module JsonRoundTrip).
*/
module JsonReader {
  import opened Utf8
  import opened JsonText

  const MAX_DEPTH := 200

  datatype Message =
    | Expected(c: Byte)
    | TrailingContent
    | DepthExceeded
    | UnexpectedToken
    | ExpectedDigit
    | ExpectedExponentDigit
    | ControlCharacter
    | InvalidEscape
    | InvalidUnicodeEscape

  datatype Parsed<+T> = Good(value: T, pos: nat) | Bad(at: nat, message: Message) {
    predicate IsFailure() { Bad? }
    function PropagateFailure<U>(): Parsed<U> requires Bad? { Bad(at, message) }
    function Extract(): (T, nat) requires Good? { (value, pos) }
  }

  /** A result for position `p` of `t` stays inside the text and never goes back. */
  predicate Sound<T>(t: seq<Byte>, p: nat, r: Parsed<T>) {
    match r
    case Good(_, pos) => p <= pos <= |t|
    case Bad(at, _) => p <= at <= |t|
  }

  /** The current byte, or 0 at the end of the text. */
  function Peek(t: seq<Byte>, p: nat): Byte {
    if p < |t| then t[p] else 0
  }

  function SkipWhitespace(t: seq<Byte>, p: nat): (q: nat)
    requires p <= |t|
    ensures p <= q <= |t|
    decreases |t| - p
  {
    if p < |t| && IsWhitespace(t[p]) then SkipWhitespace(t, p + 1) else p
  }

  function Expect(t: seq<Byte>, p: nat, c: Byte): (r: Parsed<()>)
    requires p <= |t| && c != 0
    ensures Sound(t, p, r) && (r.Good? ==> r.pos == p + 1)
  {
    if Peek(t, p) != c then Bad(p, Expected(c)) else Good((), p + 1)
  }

  // -------------------------------------------------------- literals and numbers

  predicate StartsWith(t: seq<Byte>, p: nat, s: seq<Byte>) {
    p + |s| <= |t| && t[p..p + |s|] == s
  }

  function Literal(t: seq<Byte>, p: nat): (r: Parsed<JsonValue>)
    requires p <= |t|
    ensures Sound(t, p, r)
  {
    if StartsWith(t, p, TRUE) then Good(Bool(true), p + 4)
    else if StartsWith(t, p, FALSE) then Good(Bool(false), p + 5)
    else if StartsWith(t, p, NULL) then Good(Null, p + 4)
    else Bad(p, UnexpectedToken)
  }

  function Digits(t: seq<Byte>, p: nat): (q: nat)
    requires p <= |t|
    ensures p <= q <= |t|
    decreases |t| - p
  {
    if p < |t| && IsDigit(t[p]) then Digits(t, p + 1) else p
  }

  function Sign(t: seq<Byte>, p: nat): (q: nat)
    requires p <= |t|
    ensures p <= q <= |t|
  {
    if Peek(t, p) == MINUS then p + 1 else p
  }

  function Fraction(t: seq<Byte>, p: nat): (q: nat)
    requires p <= |t|
    ensures p <= q <= |t|
  {
    if Peek(t, p) == DOT then Digits(t, p + 1) else p
  }

  /** An optional exponent; the value is of no interest, only where it ends. */
  function Exponent(t: seq<Byte>, p: nat): (r: Parsed<()>)
    requires p <= |t|
    ensures Sound(t, p, r)
  {
    if !IsExponentLetter(Peek(t, p)) then Good((), p)
    else
      var q := if Peek(t, p + 1) == PLUS || Peek(t, p + 1) == MINUS then p + 2 else p + 1;
      if Digits(t, q) == q then Bad(q, ExpectedExponentDigit) else Good((), Digits(t, q))
  }

  function NumberAt(t: seq<Byte>, p: nat): (r: Parsed<JsonValue>)
    requires p <= |t|
    ensures Sound(t, p, r)
  {
    var q := Sign(t, p);
    var whole := Digits(t, q);
    if whole == q then Bad(q, ExpectedDigit)
    else
      var (_, end) :- Exponent(t, Fraction(t, whole));
      Good(Number(t[p..end]), end)
  }

  // -------------------------------------------------------------------- strings

  /** The least number that needs more than `n` hexadecimal digits. */
  function HexLimit(n: nat): nat {
    if n == 0 then 1 else 16 * HexLimit(n - 1)
  }

  /** Reads `n` hexadecimal digits onto `value`. */
  function HexDigits(t: seq<Byte>, p: nat, n: nat, value: nat): (r: Parsed<nat>)
    requires p <= |t|
    ensures Sound(t, p, r) && (r.Good? ==> r.pos == p + n)
    ensures r.Good? && n <= 4 && value < HexLimit(4 - n) ==> r.value < 0x10000
    decreases n
  {
    if n == 0 then Good(value, p)
    else
      var digit := HexDigitValue(Peek(t, p));
      if digit < 0 then Bad(p, InvalidUnicodeEscape)
      else
        HexDigits(t, p + 1, n - 1, value * 16 + digit)
  }

  function LowSurrogate(t: seq<Byte>, p: nat, high: nat, out: seq<Byte>): (r: Parsed<seq<Byte>>)
    requires p <= |t| && high < 0x10000 && IsHighSurrogate(high)
    ensures Sound(t, p, r)
  {
    if Peek(t, p) != BACKSLASH || p + 1 >= |t| || t[p + 1] != LETTER_U then Good(out + AppendUtf8(high), p)
    else
      var (low, q) :- HexDigits(t, p + 2, 4, 0);
      if !IsLowSurrogate(low) then Good(out + AppendUtf8(high) + AppendUtf8(low), q)
      else Good(out + AppendUtf8(Combine(high, low)), q)
  }

  function UnicodeEscape(t: seq<Byte>, p: nat, out: seq<Byte>): (r: Parsed<seq<Byte>>)
    requires p <= |t|
    ensures Sound(t, p, r)
  {
    var (code, q) :- HexDigits(t, p, 4, 0);
    if !IsHighSurrogate(code) then Good(out + AppendUtf8(code), q) else LowSurrogate(t, q, code, out)
  }

  function Escape(t: seq<Byte>, p: nat, out: seq<Byte>): (r: Parsed<seq<Byte>>)
    requires p <= |t|
    ensures Sound(t, p, r)
  {
    var c := Peek(t, p);
    if c == LETTER_U then UnicodeEscape(t, p + 1, out)
    else if SimpleEscape(c) == 0 then Bad(p, InvalidEscape)
    else Good(out + [SimpleEscape(c)], p + 1)
  }

  /** One character of a string, appended to `out`. */
  function StringChar(t: seq<Byte>, p: nat, out: seq<Byte>): (r: Parsed<seq<Byte>>)
    requires p < |t|
    ensures Sound(t, p, r) && (r.Good? ==> r.pos > p)
  {
    var c := Peek(t, p);
    if c == BACKSLASH then Escape(t, p + 1, out)
    else if c < 0x20 then Bad(p, ControlCharacter)
    else Good(out + [c], p + 1)
  }

  function StringChars(t: seq<Byte>, p: nat, out: seq<Byte>): (r: Parsed<seq<Byte>>)
    requires p <= |t|
    ensures Sound(t, p, r)
    decreases |t| - p
  {
    if p >= |t| || Peek(t, p) == QUOTE then Good(out, p)
    else
      var (longer, q) :- StringChar(t, p, out);
      StringChars(t, q, longer)
  }

  function StringAt(t: seq<Byte>, p: nat): (r: Parsed<seq<Byte>>)
    requires p <= |t|
    ensures Sound(t, p, r) && (r.Good? ==> r.pos > p)
  {
    var (_, q) :- Expect(t, p, QUOTE);
    var (bytes, end) :- StringChars(t, q, []);
    var (_, after) :- Expect(t, end, QUOTE);
    Good(bytes, after)
  }

  // --------------------------------------------------------- values, containers

  function ValueAt(t: seq<Byte>, p: nat, depth: nat): (r: Parsed<JsonValue>)
    requires p <= |t|
    ensures Sound(t, p, r)
    decreases |t| - p, 0
  {
    var c := Peek(t, p);
    if depth > MAX_DEPTH then Bad(p, DepthExceeded)
    else if c == OPEN_BRACE then
      var q := SkipWhitespace(t, p + 1);
      if Peek(t, q) == CLOSE_BRACE then Good(Object(map[]), q + 1)
      else
        var (members, end) :- MembersAt(t, q, depth, map[]);
        Good(Object(members), end)
    else if c == OPEN_BRACKET then
      var q := SkipWhitespace(t, p + 1);
      if Peek(t, q) == CLOSE_BRACKET then Good(Array([]), q + 1)
      else
        var (items, end) :- ItemsAt(t, q, depth, []);
        Good(Array(items), end)
    else if c == QUOTE then
      var (bytes, end) :- StringAt(t, p);
      Good(String(bytes), end)
    else if c == MINUS || IsDigit(c) then NumberAt(t, p)
    else Literal(t, p)
  }

  /** What follows an element: another one, or the end of its container. */
  function Continue(t: seq<Byte>, p: nat, closing: Byte): (r: Parsed<bool>)
    requires p <= |t| && closing != 0
    ensures Sound(t, p, r) && (r.Good? ==> r.pos > p)
  {
    var q := SkipWhitespace(t, p);
    if Peek(t, q) == COMMA then Good(true, q + 1)
    else
      var (_, end) :- Expect(t, q, closing);
      Good(false, end)
  }

  function ItemsAt(t: seq<Byte>, p: nat, depth: nat, items: seq<JsonValue>): (r: Parsed<seq<JsonValue>>)
    requires p <= |t|
    ensures Sound(t, p, r)
    decreases |t| - p, 1
  {
    var (item, q) :- ValueAt(t, SkipWhitespace(t, p), depth + 1);
    var (another, next) :- Continue(t, q, CLOSE_BRACKET);
    if another then ItemsAt(t, next, depth, items + [item]) else Good(items + [item], next)
  }

  /** The key and the colon of an object member. */
  function KeyAt(t: seq<Byte>, p: nat): (r: Parsed<seq<Byte>>)
    requires p <= |t|
    ensures Sound(t, p, r)
  {
    var (key, q) :- StringAt(t, SkipWhitespace(t, p));
    var (_, end) :- Expect(t, SkipWhitespace(t, q), COLON);
    Good(key, end)
  }

  function MembersAt(t: seq<Byte>, p: nat, depth: nat, members: map<seq<Byte>, JsonValue>)
    : (r: Parsed<map<seq<Byte>, JsonValue>>)
    requires p <= |t|
    ensures Sound(t, p, r)
    decreases |t| - p, 1
  {
    var (key, k) :- KeyAt(t, p);
    var (value, q) :- ValueAt(t, SkipWhitespace(t, k), depth + 1);
    var (another, next) :- Continue(t, q, CLOSE_BRACE);
    if another then MembersAt(t, next, depth, members[key := value]) else Good(members[key := value], next)
  }

  function Document(t: seq<Byte>): (r: Parsed<JsonValue>)
    ensures Sound(t, 0, r)
  {
    var (value, p) :- ValueAt(t, SkipWhitespace(t, 0), 0);
    var end := SkipWhitespace(t, p);
    if end != |t| then Bad(end, TrailingContent) else Good(value, end)
  }

  // ---------------------------------------------------------------- line counts

  /** The line of offset `p`: one more than the newlines before it. */
  function LineOf(t: seq<Byte>, p: nat): nat
    requires p <= |t|
  {
    if p == 0 then 1 else LineOf(t, p - 1) + if t[p - 1] == NEWLINE then 1 else 0
  }

  lemma {:induction false} NoNewlineBetween(t: seq<Byte>, p: nat, q: nat)
    requires p <= q <= |t|
    requires forall i | p <= i < q :: t[i] != NEWLINE
    ensures LineOf(t, q) == LineOf(t, p)
  {
    if p < q {
      NoNewlineBetween(t, p, q - 1);
    }
  }
}
