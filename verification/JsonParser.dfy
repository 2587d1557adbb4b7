/** The stateful recursive-descent parser of the viewer.

  Every method is proved to compute what the function of the same name in JsonReader says for the
  text and the entry position, and to keep `line` at one more than the newlines consumed.
*/
module JsonParser {
  import opened Utf8
  import opened JsonText
  import opened JsonReader

  datatype JsonError = NoError | JsonError(offset: nat, line: nat, message: Message)

  class Parser {
    const text: seq<Byte>
    var error: JsonError
    var pos: nat
    var line: nat

    constructor (text: seq<Byte>)
      ensures this.text == text && Valid() && pos == 0 && error == NoError
    {
      this.text := text;
      error := NoError;
      pos := 0;
      line := 1;
    }

    ghost predicate Valid()
      reads this
    {
      pos <= |text| && line == LineOf(text, pos)
    }

    /** The outcome `ok`, `out` and the new state are those of `r`. */
    ghost predicate Reports<T>(r: Parsed<T>, ok: bool, out: T)
      requires Valid()
      reads this
    {
      match r
      case Good(value, end) => ok && out == value && pos == end
      case Bad(at, message) => !ok && pos == at && error == JsonError(at, line, message)
    }

    predicate AtEnd()
      reads this
    {
      pos >= |text|
    }

    function PeekByte(): Byte
      reads this
    {
      if AtEnd() then 0 else text[pos]
    }

    method Advance()
      requires Valid() && pos < |text|
      modifies `pos, `line
      ensures Valid() && pos == old(pos) + 1
    {
      if text[pos] == NEWLINE {
        line := line + 1;
      }
      pos := pos + 1;
    }

    method Fail(message: Message) returns (ok: bool)
      requires Valid()
      modifies `error
      ensures Valid() && !ok && error == JsonError(pos, line, message)
    {
      error := JsonError(pos, line, message);
      return false;
    }

    method SkipBlanks()
      requires Valid()
      modifies `pos, `line
      ensures Valid() && pos == SkipWhitespace(text, old(pos))
    {
      while !AtEnd()
        invariant Valid() && SkipWhitespace(text, pos) == SkipWhitespace(text, old(pos))
        decreases |text| - pos
      {
        if !IsWhitespace(text[pos]) {
          return;
        }
        Advance();
      }
    }

    method ExpectByte(c: Byte) returns (ok: bool)
      requires Valid() && c != 0
      modifies this
      ensures Valid() && Reports(Expect(text, old(pos), c), ok, ())
    {
      if PeekByte() != c {
        ok := Fail(Expected(c));
        return;
      }
      Advance();
      return true;
    }

    method ParseLiteral() returns (ok: bool, out: JsonValue)
      requires Valid()
      modifies this
      ensures Valid() && Reports(Literal(text, old(pos)), ok, out)
    {
      out := Null;
      if StartsWith(text, pos, TRUE) {
        LiteralKeepsLine(text, pos, TRUE);
        pos := pos + 4;
        return true, Bool(true);
      }
      if StartsWith(text, pos, FALSE) {
        LiteralKeepsLine(text, pos, FALSE);
        pos := pos + 5;
        return true, Bool(false);
      }
      if StartsWith(text, pos, NULL) {
        LiteralKeepsLine(text, pos, NULL);
        pos := pos + 4;
        return true, Null;
      }
      ok := Fail(UnexpectedToken);
    }

    method ConsumeDigits() returns (some: bool)
      requires Valid()
      modifies `pos, `line
      ensures Valid() && pos == Digits(text, old(pos)) && some == (pos > old(pos))
    {
      var begin := pos;
      while IsDigit(PeekByte())
        invariant begin <= pos && Valid() && Digits(text, pos) == Digits(text, begin)
        decreases |text| - pos
      {
        Advance();
      }
      return pos > begin;
    }

    method ConsumeFraction()
      requires Valid()
      modifies `pos, `line
      ensures Valid() && pos == Fraction(text, old(pos))
    {
      if PeekByte() != DOT {
        return;
      }
      Advance();
      var _ := ConsumeDigits();
    }

    method ConsumeExponent() returns (ok: bool)
      requires Valid()
      modifies this
      ensures Valid() && Reports(Exponent(text, old(pos)), ok, ())
    {
      if !IsExponentLetter(PeekByte()) {
        return true;
      }
      Advance();
      if PeekByte() == PLUS || PeekByte() == MINUS {
        Advance();
      }
      var digits := ConsumeDigits();
      if digits {
        return true;
      }
      ok := Fail(ExpectedExponentDigit);
    }

    method ParseNumber() returns (ok: bool, out: JsonValue)
      requires Valid()
      modifies this
      ensures Valid() && Reports(NumberAt(text, old(pos)), ok, out)
    {
      out := Null;
      var begin := pos;
      if PeekByte() == MINUS {
        Advance();
      }
      var digits := ConsumeDigits();
      if !digits {
        ok := Fail(ExpectedDigit);
        return;
      }
      ConsumeFraction();
      ok := ConsumeExponent();
      if !ok {
        return;
      }
      out := Number(text[begin..pos]);
    }

    method ReadHex4() returns (ok: bool, value: nat)
      requires Valid()
      modifies this
      ensures Valid() && Reports(HexDigits(text, old(pos), 4, 0), ok, value)
    {
      hide HexDigitValue;
      value := 0;
      var i := 0;
      while i < 4
        invariant 0 <= i <= 4 && Valid()
        invariant HexDigits(text, pos, 4 - i, value) == HexDigits(text, old(pos), 4, 0)
      {
        var digit := HexDigitValue(PeekByte());
        if digit < 0 {
          ok := Fail(InvalidUnicodeEscape);
          return;
        }
        value := value * 16 + digit;
        Advance();
        i := i + 1;
      }
      return true, value;
    }

    method ParseLowSurrogate(high: nat, prefix: seq<Byte>) returns (ok: bool, out: seq<Byte>)
      requires Valid() && high < 0x10000 && IsHighSurrogate(high)
      modifies this
      ensures Valid() && Reports(LowSurrogate(text, old(pos), high, prefix), ok, out)
    {
      if PeekByte() != BACKSLASH || pos + 1 >= |text| || text[pos + 1] != LETTER_U {
        return true, prefix + AppendUtf8(high);
      }
      out := prefix;
      Advance();
      Advance();
      var low;
      ok, low := ReadHex4();
      if !ok {
        return;
      }
      if !IsLowSurrogate(low) {
        out := prefix + AppendUtf8(high);
        out := out + AppendUtf8(low);
        return;
      }
      out := prefix + AppendUtf8(Combine(high, low));
    }

    method ParseUnicodeEscape(prefix: seq<Byte>) returns (ok: bool, out: seq<Byte>)
      requires Valid()
      modifies this
      ensures Valid() && Reports(UnicodeEscape(text, old(pos), prefix), ok, out)
    {
      out := prefix;
      var code;
      ok, code := ReadHex4();
      if !ok {
        return;
      }
      if code < HIGH_SURROGATE_BEGIN || code > HIGH_SURROGATE_END {
        out := prefix + AppendUtf8(code);
        return;
      }
      ok, out := ParseLowSurrogate(code, prefix);
    }

    method ParseEscape(prefix: seq<Byte>) returns (ok: bool, out: seq<Byte>)
      requires Valid()
      modifies this
      ensures Valid() && Reports(Escape(text, old(pos), prefix), ok, out)
    {
      out := prefix;
      var c := PeekByte();
      if c == LETTER_U {
        Advance();
        ok, out := ParseUnicodeEscape(prefix);
        return;
      }
      var simple := SimpleEscape(c);
      if simple == 0 {
        ok := Fail(InvalidEscape);
        return;
      }
      out := prefix + [simple];
      Advance();
      ok := true;
    }

    method ParseStringChar(prefix: seq<Byte>) returns (ok: bool, out: seq<Byte>)
      requires Valid() && pos < |text|
      modifies this
      ensures Valid() && Reports(StringChar(text, old(pos), prefix), ok, out)
    {
      out := prefix;
      var c := PeekByte();
      if c == BACKSLASH {
        Advance();
        ok, out := ParseEscape(prefix);
        return;
      }
      if c < 0x20 {
        ok := Fail(ControlCharacter);
        return;
      }
      out := prefix + [c];
      Advance();
      ok := true;
    }

    method ParseString() returns (ok: bool, out: seq<Byte>)
      requires Valid()
      modifies this
      ensures Valid() && Reports(StringAt(text, old(pos)), ok, out)
    {
      out := [];
      ok := ExpectByte(QUOTE);
      if !ok {
        return;
      }
      ghost var start := pos;
      while !AtEnd() && PeekByte() != QUOTE
        invariant Valid() && start <= pos && StringChars(text, pos, out) == StringChars(text, start, [])
        decreases |text| - pos
      {
        ok, out := ParseStringChar(out);
        if !ok {
          return;
        }
      }
      ok := ExpectByte(QUOTE);
    }

    method ParseValue(depth: nat) returns (ok: bool, out: JsonValue)
      requires Valid()
      modifies this
      ensures Valid() && Reports(ValueAt(text, old(pos), depth), ok, out)
      decreases |text| - pos, 1
    {
      out := Null;
      if depth > MAX_DEPTH {
        ok := Fail(DepthExceeded);
        return;
      }
      var c := PeekByte();
      if c == OPEN_BRACE {
        ok, out := ParseObject(depth);
      } else if c == OPEN_BRACKET {
        ok, out := ParseArray(depth);
      } else if c == QUOTE {
        var bytes;
        ok, bytes := ParseString();
        out := String(bytes);
      } else if c == MINUS || IsDigit(c) {
        ok, out := ParseNumber();
      } else {
        ok, out := ParseLiteral();
      }
    }

    /** Consumes an immediately closing container. */
    method ConsumeEmptyContainer(closing: Byte) returns (empty: bool)
      requires Valid() && closing != 0
      modifies `pos, `line
      ensures Valid()
      ensures var q := SkipWhitespace(text, old(pos));
        empty == (Peek(text, q) == closing) && pos == if empty then q + 1 else q
    {
      SkipBlanks();
      if PeekByte() != closing {
        return false;
      }
      Advance();
      return true;
    }

    /** 1: another element follows, 0: the container is closed, -1: an error was recorded. */
    method ContinueContainer(closing: Byte) returns (next: int)
      requires Valid() && closing != 0
      modifies this
      ensures Valid() && -1 <= next <= 1
      ensures Reports(Continue(text, old(pos), closing), next >= 0, next == 1)
    {
      SkipBlanks();
      if PeekByte() == COMMA {
        Advance();
        return 1;
      }
      var closed := ExpectByte(closing);
      return if closed then 0 else -1;
    }

    method ParseArray(depth: nat) returns (ok: bool, out: JsonValue)
      requires Valid() && depth <= MAX_DEPTH && PeekByte() == OPEN_BRACKET
      modifies this
      ensures Valid() && Reports(ValueAt(text, old(pos), depth), ok, out)
      decreases |text| - pos, 0
    {
      out := Null;
      Advance();
      var items: seq<JsonValue> := [];
      var empty := ConsumeEmptyContainer(CLOSE_BRACKET);
      if !empty {
        ok, items := ParseArrayItems(depth);
        if !ok {
          return;
        }
      }
      return true, Array(items);
    }

    method ParseArrayItems(depth: nat) returns (ok: bool, items: seq<JsonValue>)
      requires Valid()
      modifies this
      ensures Valid() && Reports(ItemsAt(text, old(pos), depth, []), ok, items)
      decreases |text| - pos, 2
    {
      items := [];
      while true
        invariant Valid() && old(pos) <= pos
        invariant ItemsAt(text, pos, depth, items) == ItemsAt(text, old(pos), depth, [])
        decreases |text| - pos
      {
        SkipBlanks();
        var item;
        ok, item := ParseValue(depth + 1);
        if !ok {
          return;
        }
        items := items + [item];
        var next := ContinueContainer(CLOSE_BRACKET);
        if next <= 0 {
          ok := next == 0;
          return;
        }
      }
    }

    method ParseObject(depth: nat) returns (ok: bool, out: JsonValue)
      requires Valid() && depth <= MAX_DEPTH && PeekByte() == OPEN_BRACE
      modifies this
      ensures Valid() && Reports(ValueAt(text, old(pos), depth), ok, out)
      decreases |text| - pos, 0
    {
      out := Null;
      Advance();
      var members: map<seq<Byte>, JsonValue> := map[];
      var empty := ConsumeEmptyContainer(CLOSE_BRACE);
      if !empty {
        ok, members := ParseObjectMembers(depth);
        if !ok {
          return;
        }
      }
      return true, Object(members);
    }

    method ParseObjectMembers(depth: nat) returns (ok: bool, members: map<seq<Byte>, JsonValue>)
      requires Valid()
      modifies this
      ensures Valid() && Reports(MembersAt(text, old(pos), depth, map[]), ok, members)
      decreases |text| - pos, 2
    {
      members := map[];
      while true
        invariant Valid() && old(pos) <= pos
        invariant MembersAt(text, pos, depth, members) == MembersAt(text, old(pos), depth, map[])
        decreases |text| - pos
      {
        SkipBlanks();
        var key;
        ok, key := ParseString();
        if !ok {
          return;
        }
        SkipBlanks();
        ok := ExpectByte(COLON);
        if !ok {
          return;
        }
        SkipBlanks();
        var value;
        ok, value := ParseValue(depth + 1);
        if !ok {
          return;
        }
        members := members[key := value];
        var next := ContinueContainer(CLOSE_BRACE);
        if next <= 0 {
          ok := next == 0;
          return;
        }
      }
    }

    method Run() returns (ok: bool, out: JsonValue)
      requires Valid() && pos == 0
      modifies this
      ensures Valid() && Reports(Document(text), ok, out)
    {
      SkipBlanks();
      ok, out := ParseValue(0);
      if !ok {
        return;
      }
      SkipBlanks();
      if pos != |text| {
        ok := Fail(TrailingContent);
      }
    }
  }

  /** A literal holds no newline. */
  lemma LiteralKeepsLine(text: seq<Byte>, pos: nat, s: seq<Byte>)
    requires StartsWith(text, pos, s) && NEWLINE !in s
    ensures LineOf(text, pos + |s|) == LineOf(text, pos)
  {
    forall i | pos <= i < pos + |s|
      ensures text[i] != NEWLINE
    {
      assert text[i] == text[pos..pos + |s|][i - pos] == s[i - pos];
    }
    NoNewlineBetween(text, pos, pos + |s|);
  }

  /** Parses a whole text: a value, or the offset, line and cause of the first error. */
  method ParseJson(text: seq<Byte>) returns (ok: bool, out: JsonValue, error: JsonError)
    ensures ok <==> Document(text).Good?
    ensures ok ==> out == Document(text).value
    ensures !ok ==>
      var at := Document(text).at;
      at <= |text| && error == JsonError(at, LineOf(text, at), Document(text).message)
  {
    var parser := new Parser(text);
    ok, out := parser.Run();
    error := parser.error;
  }
}
