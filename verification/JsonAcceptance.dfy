/** Which texts the parser accepts: what it has read to the end is spelled by a value of its grammar. */
module JsonAcceptance {
  import opened Utf8
  import opened JsonText
  import opened JsonReader
  import opened JsonRoundTrip

  /** `x` is what stands in `t` from `p` up to `e`. */
  predicate Spells(t: seq<Byte>, p: nat, e: nat, x: seq<Byte>) {
    p <= e <= |t| && t[p..e] == x
  }

  lemma Join(t: seq<Byte>, p: nat, m: nat, e: nat, a: seq<Byte>, b: seq<Byte>)
    requires Spells(t, p, m, a) && Spells(t, m, e, b)
    ensures Spells(t, p, e, a + b)
  {
    assert t[p..e] == t[p..m] + t[m..e];
  }

  lemma OneByte(t: seq<Byte>, p: nat, c: Byte)
    requires p < |t| && t[p] == c
    ensures Spells(t, p, p + 1, [c])
  {
  }

  lemma Nothing(t: seq<Byte>, p: nat)
    requires p <= |t|
    ensures Spells(t, p, p, [])
  {
  }

  /** What is skipped is blank. */
  lemma {:induction false} Skipped(t: seq<Byte>, p: nat)
    requires p <= |t|
    ensures var q := SkipWhitespace(t, p);
      Spells(t, p, q, t[p..q]) && Blank(t[p..q])
    decreases |t| - p
  {
    if p < |t| && IsWhitespace(t[p]) {
      Skipped(t, p + 1);
      var q := SkipWhitespace(t, p + 1);
      assert t[p..q] == [t[p]] + t[p + 1..q];
    }
  }

  lemma {:induction false} DigitsTaken(t: seq<Byte>, p: nat)
    requires p <= |t|
    ensures AllDigits(t[p..Digits(t, p)])
    decreases |t| - p
  {
    if p < |t| && IsDigit(t[p]) {
      DigitsTaken(t, p + 1);
      var q := Digits(t, p + 1);
      assert t[p..q] == [t[p]] + t[p + 1..q];
    }
  }

  // -------------------------------------------------------------------- numbers

  lemma ExponentTaken(t: seq<Byte>, p: nat)
    requires p <= |t| && Exponent(t, p).Good?
    ensures WellFormedExponent(t[p..Exponent(t, p).pos])
  {
    if IsExponentLetter(Peek(t, p)) {
      var q := if Peek(t, p + 1) == PLUS || Peek(t, p + 1) == MINUS then p + 2 else p + 1;
      DigitsTaken(t, q);
      var e := Digits(t, q);
      assert t[p..e][q - p..] == t[q..e];
    }
  }

  lemma FractionTaken(t: seq<Byte>, p: nat)
    requires p <= |t|
    ensures var f := t[p..Fraction(t, p)];
      f == [] || (f[0] == DOT && AllDigits(f[1..]))
  {
    if Peek(t, p) == DOT {
      DigitsTaken(t, p + 1);
      var e := Digits(t, p + 1);
      assert t[p..e][1..] == t[p + 1..e];
    }
  }

  lemma NumberTaken(t: seq<Byte>, p: nat) returns (n: NumberText)
    requires p <= |t| && NumberAt(t, p).Good?
    ensures WellFormedNumber(n) && Spells(t, p, NumberAt(t, p).pos, LiteralText(n))
  {
    var q := Sign(t, p);
    var f := Digits(t, q);
    var e := Fraction(t, f);
    var end := Exponent(t, e).pos;
    DigitsTaken(t, q);
    FractionTaken(t, f);
    ExponentTaken(t, e);
    n := NumberText(q > p, t[q..f], t[f..e], t[e..end]);
    hide Digits, Fraction, Exponent, WellFormedExponent, AllDigits;
    Join(t, f, e, end, n.fraction, n.exponent);
    Join(t, q, f, end, n.whole, n.fraction + n.exponent);
    Join(t, p, q, end, if n.minus then [MINUS] else [], n.whole + (n.fraction + n.exponent));
  }

  // -------------------------------------------------------------------- strings

  lemma HexTaken(t: seq<Byte>, p: nat)
    requires p <= |t| && HexDigits(t, p, 4, 0).Good?
    ensures p + 4 <= |t| && WellFormedChar(Hex(t[p..p + 4]))
  {
    hide HexDigitValue;
    HexDigitTaken(t, p, 4, 0);
    HexDigitTaken(t, p + 1, 3, HexDigitValue(t[p]));
    HexDigitTaken(t, p + 2, 2, HexDigitValue(t[p]) * 16 + HexDigitValue(t[p + 1]));
    HexDigitTaken(t, p + 3, 1,
                  (HexDigitValue(t[p]) * 16 + HexDigitValue(t[p + 1])) * 16 + HexDigitValue(t[p + 2]));
  }

  lemma HexDigitTaken(t: seq<Byte>, p: nat, n: nat, value: nat)
    requires p <= |t| && n > 0 && HexDigits(t, p, n, value).Good?
    ensures p < |t| && HexDigitValue(t[p]) >= 0
    ensures HexDigits(t, p, n, value) == HexDigits(t, p + 1, n - 1, value * 16 + HexDigitValue(t[p]))
  {
  }

  /** The text of a Unicode escape whose digits stand at `p + 2`. */
  lemma EscapeTaken(t: seq<Byte>, p: nat)
    requires p + 6 <= |t| && t[p] == BACKSLASH && t[p + 1] == LETTER_U
    ensures Spells(t, p, p + 6, CharText(Hex(t[p + 2..p + 6])))
  {
    assert t[p..p + 6] == [t[p], t[p + 1]] + t[p + 2..p + 6];
  }

  lemma NoChars()
    ensures CharsText([]) == []
  {
  }

  lemma OneChar(c: Char)
    ensures CharsText([c]) == CharText(c)
  {
    assert [c][1..] == [];
  }

  lemma TwoChars(a: Char, b: Char)
    ensures CharsText([a, b]) == CharText(a) + CharText(b)
  {
    assert [a, b][1..] == [b];
    OneChar(b);
  }

  /** One step of the parser takes one character, or a high surrogate with the escape behind it. */
  lemma CharTaken(t: seq<Byte>, p: nat, out: seq<Byte>) returns (chars: seq<Char>)
    requires p < |t| && t[p] != QUOTE && StringChar(t, p, out).Good?
    ensures WellFormedChars(chars) && Spells(t, p, StringChar(t, p, out).pos, CharsText(chars))
  {
    hide HexDigits, HexDigitValue, AppendUtf8, Combine, CharsText;
    if t[p] != BACKSLASH {
      chars := [Raw(t[p])];
      OneChar(chars[0]);
      OneByte(t, p, t[p]);
    } else if Peek(t, p + 1) != LETTER_U {
      chars := [Short(Peek(t, p + 1))];
      OneChar(chars[0]);
      EscapesOfTable(Peek(t, p + 1));
      assert t[p..p + 2] == [t[p], t[p + 1]];
    } else {
      HexTaken(t, p + 2);
      EscapeTaken(t, p);
      var first := Hex(t[p + 2..p + 6]);
      chars := [first];
      OneChar(first);
      if StringChar(t, p, out).pos != p + 6 {
        HexTaken(t, p + 8);
        EscapeTaken(t, p + 6);
        var second := Hex(t[p + 8..p + 12]);
        chars := [first, second];
        TwoChars(first, second);
        Join(t, p, p + 6, p + 12, CharText(first), CharText(second));
      }
    }
  }

  lemma {:induction false} CharsTogether(a: seq<Char>, b: seq<Char>)
    ensures CharsText(a + b) == CharsText(a) + CharsText(b)
  {
    if a == [] {
      assert a + b == b;
    } else {
      assert (a + b)[1..] == a[1..] + b;
      CharsTogether(a[1..], b);
    }
  }

  lemma {:induction false} CharsTaken(t: seq<Byte>, p: nat, out: seq<Byte>) returns (chars: seq<Char>)
    requires p <= |t| && StringChars(t, p, out).Good?
    ensures WellFormedChars(chars) && Spells(t, p, StringChars(t, p, out).pos, CharsText(chars))
    decreases |t| - p
  {
    hide StringChar, CharsText, WellFormedChar;
    if p >= |t| || Peek(t, p) == QUOTE {
      chars := [];
      NoChars();
      Nothing(t, p);
    } else {
      var first := CharTaken(t, p, out);
      var q := StringChar(t, p, out).pos;
      var rest := CharsTaken(t, q, StringChar(t, p, out).value);
      chars := first + rest;
      CharsTogether(first, rest);
      Join(t, p, q, StringChars(t, p, out).pos, CharsText(first), CharsText(rest));
    }
  }

  lemma StringTaken(t: seq<Byte>, p: nat) returns (chars: seq<Char>)
    requires p <= |t| && StringAt(t, p).Good?
    ensures WellFormedChars(chars) && Spells(t, p, StringAt(t, p).pos, StringText(chars))
  {
    hide StringChars, CharsText, WellFormedChars;
    chars := CharsTaken(t, p + 1, []);
    var e := StringChars(t, p + 1, []).pos;
    OneByte(t, p, QUOTE);
    OneByte(t, e, QUOTE);
    Join(t, p + 1, e, e + 1, CharsText(chars), [QUOTE]);
    Join(t, p, p + 1, e + 1, [QUOTE], CharsText(chars) + [QUOTE]);
  }

  // ------------------------------------------------------------------- values

  lemma {:induction false} ValueTaken(t: seq<Byte>, p: nat, depth: nat) returns (node: Node)
    requires p <= |t| && ValueAt(t, p, depth).Good?
    ensures WellFormed(node) && Spells(t, p, ValueAt(t, p, depth).pos, Text(node))
    decreases |t| - p, 0
  {
    hide SkipWhitespace, ItemsAt, MembersAt, StringAt, NumberAt, StringText, LiteralText, ItemsText, MembersText;
    hide WellFormedNumber, WellFormedChars, Blank;
    var c := Peek(t, p);
    if c == OPEN_BRACE {
      node := ObjectTaken(t, p, depth);
    } else if c == OPEN_BRACKET {
      node := ArrayTaken(t, p, depth);
    } else if c == QUOTE {
      var chars := StringTaken(t, p);
      node := StringNode(chars);
    } else if c == MINUS || IsDigit(c) {
      var n := NumberTaken(t, p);
      node := NumberNode(n);
    } else {
      node := if StartsWith(t, p, TRUE) then BoolNode(true)
      else if StartsWith(t, p, FALSE) then BoolNode(false) else NullNode;
    }
  }

  lemma {:induction false} ArrayTaken(t: seq<Byte>, p: nat, depth: nat) returns (node: Node)
    requires p < |t| && ValueAt(t, p, depth).Good? && t[p] == OPEN_BRACKET
    ensures WellFormed(node) && Spells(t, p, ValueAt(t, p, depth).pos, Text(node))
    decreases |t| - p - 1, 2
  {
    var q := SkipWhitespace(t, p + 1);
    Skipped(t, p + 1);
    hide SkipWhitespace, ItemsAt, ValueAt, ItemsText, Blank, WellFormed;
    WithinDepth(t, p, depth);
    ArrayStep(t, p, q, depth);
    OneByte(t, p, OPEN_BRACKET);
    var end := ValueAt(t, p, depth).pos;
    if Peek(t, q) == CLOSE_BRACKET {
      node := ArrayNode(t[p + 1..q], []);
      OneByte(t, q, CLOSE_BRACKET);
      Join(t, p + 1, q, end, t[p + 1..q], [CLOSE_BRACKET]);
      Join(t, p, p + 1, end, [OPEN_BRACKET], t[p + 1..q] + [CLOSE_BRACKET]);
      EmptyArray(t[p + 1..q]);
    } else {
      var items := ItemsTaken(t, q, depth, []);
      node := ArrayNode([], WithBlank(items, t[p + 1..q]));
      BlankBefore(items, t[p + 1..q]);
      Join(t, p + 1, q, end, t[p + 1..q], ItemsText(items));
      Join(t, p, p + 1, end, [OPEN_BRACKET], ItemsText(node.items));
      ArrayIsWellFormed(node);
    }
  }

  lemma WithinDepth(t: seq<Byte>, p: nat, depth: nat)
    requires p <= |t| && ValueAt(t, p, depth).Good?
    ensures depth <= MAX_DEPTH
  {
    hide SkipWhitespace, ItemsAt, MembersAt, StringAt, NumberAt, Literal;
  }

  lemma EmptyArray(blank: seq<Byte>)
    requires Blank(blank)
    ensures WellFormed(ArrayNode(blank, [])) && Text(ArrayNode(blank, [])) == [OPEN_BRACKET] + (blank + [CLOSE_BRACKET])
  {
    hide Blank;
  }

  lemma ArrayIsWellFormed(node: Node)
    requires node.ArrayNode? && node.blank == [] && node.items != [] && WellFormedItems(node.items)
    ensures WellFormed(node) && Text(node) == [OPEN_BRACKET] + ItemsText(node.items)
  {
    assert Blank([]);
    hide Blank;
  }

  function WithBlank(items: seq<Item>, blank: seq<Byte>): seq<Item>
    requires items != []
  {
    [items[0].(before := blank + items[0].before)] + items[1..]
  }

  /** Blanks in front of a list belong to its first item. */
  lemma BlankBefore(items: seq<Item>, blank: seq<Byte>)
    requires items != [] && WellFormedItems(items) && Blank(blank)
    ensures WellFormedItems(WithBlank(items, blank)) && ItemsText(WithBlank(items, blank)) == blank + ItemsText(items)
  {
    var more := WithBlank(items, blank);
    BlankTogether(blank, items[0].before);
    forall i | 0 <= i < |more|
      ensures Blank(more[i].before) && WellFormed(more[i].node) && Blank(more[i].after)
    {
      assert i > 0 ==> more[i] == items[i];
      hide Blank, WellFormed;
    }
    BlankText(items, blank);
  }

  lemma BlankText(items: seq<Item>, blank: seq<Byte>)
    requires items != []
    ensures ItemsText(WithBlank(items, blank)) == blank + ItemsText(items)
  {
    var more := WithBlank(items, blank);
    assert more[1..] == items[1..];
    EndOfItems(more);
    EndOfItems(items);
    ItemsUnfold(more);
    ItemsUnfold(items);
    hide *;
    var tail := Text(items[0].node) + (items[0].after + ItemsEnd(items));
    assert blank + items[0].before + tail == blank + (items[0].before + tail);
  }

  lemma BlankTogether(a: seq<Byte>, b: seq<Byte>)
    requires Blank(a) && Blank(b)
    ensures Blank(a + b)
  {
  }

  lemma EndOfItems(items: seq<Item>)
    requires items != []
    ensures ItemsEnd(items) == if |items| == 1 then [CLOSE_BRACKET] else [COMMA] + ItemsText(items[1..])
  {
    hide Text;
  }

  lemma {:induction false} ItemsTaken(t: seq<Byte>, p: nat, depth: nat, read: seq<JsonValue>) returns (items: seq<Item>)
    requires p <= |t| && ItemsAt(t, p, depth, read).Good?
    ensures items != [] && WellFormedItems(items)
    ensures Spells(t, p, ItemsAt(t, p, depth, read).pos, ItemsText(items))
    decreases |t| - p, 1
  {
    hide ValueAt, SkipWhitespace, Text, ItemsText, Blank, WellFormed, Continue;
    var v := SkipWhitespace(t, p);
    Skipped(t, p);
    var node := ValueTaken(t, v, depth + 1);
    var a := ValueAt(t, v, depth + 1).pos;
    var s := SkipWhitespace(t, a);
    Skipped(t, a);
    SeparatorTaken(t, a, CLOSE_BRACKET);
    var item := Item(t[p..v], node, t[a..s]);
    var end := ItemsAt(t, p, depth, read).pos;
    if Continue(t, a, CLOSE_BRACKET).value {
      var rest := ItemsTaken(t, s + 1, depth, read + [ValueAt(t, v, depth + 1).value]);
      Join(t, s, s + 1, end, [COMMA], ItemsText(rest));
      items := [item] + rest;
      MoreItems(item, rest);
    } else {
      items := [item];
      LastItem(item);
    }
    hide ItemsAt;
    Join(t, a, s, end, item.after, ItemsEnd(items));
    Join(t, v, a, end, Text(node), item.after + ItemsEnd(items));
    Join(t, p, v, end, item.before, Text(node) + (item.after + ItemsEnd(items)));
  }

  /** What stands behind an element: a comma, or the end of its container. */
  lemma SeparatorTaken(t: seq<Byte>, a: nat, closing: Byte)
    requires a <= |t| && closing != 0 && Continue(t, a, closing).Good?
    ensures var s := SkipWhitespace(t, a);
      && Continue(t, a, closing).pos == s + 1
      && Spells(t, s, s + 1, [if Continue(t, a, closing).value then COMMA else closing])
  {
    hide SkipWhitespace;
  }

  lemma LastItem(item: Item)
    ensures ItemsText([item]) == item.before + (Text(item.node) + (item.after + ItemsEnd([item])))
    ensures ItemsEnd([item]) == [CLOSE_BRACKET]
  {
    hide Text;
  }

  lemma MoreItems(item: Item, rest: seq<Item>)
    requires rest != []
    ensures var items := [item] + rest;
      && ItemsText(items) == item.before + (Text(item.node) + (item.after + ItemsEnd(items)))
      && ItemsEnd(items) == [COMMA] + ItemsText(rest)
  {
    hide Text, ItemsText;
    assert ([item] + rest)[1..] == rest;
    assert ItemsText([item] + rest) == item.before + (Text(item.node) + (item.after + ItemsEnd([item] + rest))) by {
      ItemsUnfold([item] + rest);
    }
  }

  lemma ItemsUnfold(items: seq<Item>)
    requires items != []
    ensures ItemsText(items) == items[0].before + (Text(items[0].node) + (items[0].after + ItemsEnd(items)))
  {
    hide Text, ItemsEnd;
  }

  // ------------------------------------------------------------------ objects

  lemma {:induction false} ObjectTaken(t: seq<Byte>, p: nat, depth: nat) returns (node: Node)
    requires p < |t| && ValueAt(t, p, depth).Good? && t[p] == OPEN_BRACE
    ensures WellFormed(node) && Spells(t, p, ValueAt(t, p, depth).pos, Text(node))
    decreases |t| - p - 1, 2
  {
    var q := SkipWhitespace(t, p + 1);
    Skipped(t, p + 1);
    hide SkipWhitespace, MembersAt, ValueAt, MembersText, Blank, WellFormed;
    WithinDepth(t, p, depth);
    ObjectStep(t, p, q, depth);
    OneByte(t, p, OPEN_BRACE);
    var end := ValueAt(t, p, depth).pos;
    if Peek(t, q) == CLOSE_BRACE {
      node := ObjectNode(t[p + 1..q], []);
      OneByte(t, q, CLOSE_BRACE);
      Join(t, p + 1, q, end, t[p + 1..q], [CLOSE_BRACE]);
      Join(t, p, p + 1, end, [OPEN_BRACE], t[p + 1..q] + [CLOSE_BRACE]);
      EmptyObject(t[p + 1..q]);
    } else {
      var members := MembersTaken(t, q, depth, map[]);
      node := ObjectNode([], WithBlankMembers(members, t[p + 1..q]));
      BlankBeforeMembers(members, t[p + 1..q]);
      Join(t, p + 1, q, end, t[p + 1..q], MembersText(members));
      Join(t, p, p + 1, end, [OPEN_BRACE], MembersText(node.members));
      ObjectIsWellFormed(node);
    }
  }

  lemma EmptyObject(blank: seq<Byte>)
    requires Blank(blank)
    ensures WellFormed(ObjectNode(blank, [])) && Text(ObjectNode(blank, [])) == [OPEN_BRACE] + (blank + [CLOSE_BRACE])
  {
    hide Blank;
  }

  lemma ObjectIsWellFormed(node: Node)
    requires node.ObjectNode? && node.blank == [] && node.members != [] && WellFormedMembers(node.members)
    ensures WellFormed(node) && Text(node) == [OPEN_BRACE] + MembersText(node.members)
  {
    assert Blank([]);
    hide Blank;
  }

  /** A member and what follows it, without the blanks in front. */
  function KeyAndValue(members: seq<Member>): seq<Byte>
    requires members != []
  {
    var m := members[0];
    StringText(m.key)
    + (m.afterKey + ([COLON] + (m.beforeValue + (Text(m.node) + (m.afterValue + MembersEnd(members))))))
  }

  lemma MembersUnfold(members: seq<Member>)
    requires members != []
    ensures MembersText(members) == members[0].before + KeyAndValue(members)
  {
    hide Text, StringText, MembersEnd;
  }

  lemma EndOf(members: seq<Member>)
    requires members != []
    ensures MembersEnd(members) == if |members| == 1 then [CLOSE_BRACE] else [COMMA] + MembersText(members[1..])
  {
  }

  function WithBlankMembers(members: seq<Member>, blank: seq<Byte>): seq<Member>
    requires members != []
  {
    [members[0].(before := blank + members[0].before)] + members[1..]
  }

  lemma BlankBeforeMembers(members: seq<Member>, blank: seq<Byte>)
    requires members != [] && WellFormedMembers(members) && Blank(blank)
    ensures WellFormedMembers(WithBlankMembers(members, blank))
    ensures MembersText(WithBlankMembers(members, blank)) == blank + MembersText(members)
  {
    var more := WithBlankMembers(members, blank);
    BlankTogether(blank, members[0].before);
    forall i | 0 <= i < |more|
      ensures && Blank(more[i].before) && WellFormedChars(more[i].key) && Blank(more[i].afterKey)
              && Blank(more[i].beforeValue) && WellFormed(more[i].node) && Blank(more[i].afterValue)
    {
      assert i > 0 ==> more[i] == members[i];
      hide Blank, WellFormed, WellFormedChars;
    }
    BlankTextOfMembers(members, blank);
  }

  lemma BlankTextOfMembers(members: seq<Member>, blank: seq<Byte>)
    requires members != []
    ensures MembersText(WithBlankMembers(members, blank)) == blank + MembersText(members)
  {
    var more := WithBlankMembers(members, blank);
    assert more[1..] == members[1..];
    EndOf(more);
    EndOf(members);
    MembersUnfold(more);
    MembersUnfold(members);
    assert KeyAndValue(more) == KeyAndValue(members);
    hide *;
    assert blank + members[0].before + KeyAndValue(members) == blank + (members[0].before + KeyAndValue(members));
  }

  lemma {:induction false} MembersTaken(t: seq<Byte>, p: nat, depth: nat, read: map<seq<Byte>, JsonValue>)
    returns (members: seq<Member>)
    requires p <= |t| && MembersAt(t, p, depth, read).Good?
    ensures members != [] && WellFormedMembers(members)
    ensures Spells(t, p, MembersAt(t, p, depth, read).pos, MembersText(members))
    decreases |t| - p, 1
  {
    hide ValueAt, KeyAt, SkipWhitespace, Text, StringText, MembersText, Blank, WellFormed, WellFormedChars, Continue;
    var before, key, afterKey := KeyTaken(t, p);
    var k := KeyAt(t, p).pos;
    var v := SkipWhitespace(t, k);
    Skipped(t, k);
    var node := ValueTaken(t, v, depth + 1);
    var a := ValueAt(t, v, depth + 1).pos;
    var s := SkipWhitespace(t, a);
    Skipped(t, a);
    SeparatorTaken(t, a, CLOSE_BRACE);
    var m := Member(before, key, afterKey, t[k..v], node, t[a..s]);
    var end := MembersAt(t, p, depth, read).pos;
    if Continue(t, a, CLOSE_BRACE).value {
      var rest := MembersTaken(t, s + 1, depth, read[KeyAt(t, p).value := ValueAt(t, v, depth + 1).value]);
      Join(t, s, s + 1, end, [COMMA], MembersText(rest));
      members := [m] + rest;
      assert members[1..] == rest;
    } else {
      members := [m];
    }
    EndOf(members);
    hide MembersAt;
    MemberTaken(t, p, k, v, a, s, end, members);
  }

  /** The parts of a member put together. */
  lemma MemberTaken(t: seq<Byte>, p: nat, k: nat, v: nat, a: nat, s: nat, end: nat, members: seq<Member>)
    requires members != []
    requires Spells(t, p, k, members[0].before + (StringText(members[0].key) + (members[0].afterKey + [COLON])))
    requires Spells(t, k, v, members[0].beforeValue) && Spells(t, v, a, Text(members[0].node))
    requires Spells(t, a, s, members[0].afterValue) && Spells(t, s, end, MembersEnd(members))
    ensures Spells(t, p, end, MembersText(members))
  {
    hide Text, StringText, MembersText, MembersEnd;
    var m := members[0];
    var value := m.beforeValue + (Text(m.node) + (m.afterValue + MembersEnd(members)));
    Join(t, a, s, end, m.afterValue, MembersEnd(members));
    Join(t, v, a, end, Text(m.node), m.afterValue + MembersEnd(members));
    Join(t, k, v, end, m.beforeValue, Text(m.node) + (m.afterValue + MembersEnd(members)));
    Join(t, p, k, end, m.before + (StringText(m.key) + (m.afterKey + [COLON])), value);
    MembersUnfold(members);
    hide Spells;
    assert m.before + (StringText(m.key) + (m.afterKey + [COLON])) + value
      == m.before + (StringText(m.key) + (m.afterKey + ([COLON] + value)));
  }

  lemma KeyTaken(t: seq<Byte>, p: nat) returns (before: seq<Byte>, key: seq<Char>, afterKey: seq<Byte>)
    requires p <= |t| && KeyAt(t, p).Good?
    ensures Blank(before) && WellFormedChars(key) && Blank(afterKey)
    ensures Spells(t, p, KeyAt(t, p).pos, before + (StringText(key) + (afterKey + [COLON])))
  {
    hide StringAt, SkipWhitespace, StringText, WellFormedChars, Blank;
    var q := SkipWhitespace(t, p);
    Skipped(t, p);
    key := StringTaken(t, q);
    var e := StringAt(t, q).pos;
    var c := SkipWhitespace(t, e);
    Skipped(t, e);
    before, afterKey := t[p..q], t[e..c];
    OneByte(t, c, COLON);
    Join(t, e, c, c + 1, afterKey, [COLON]);
    Join(t, q, e, c + 1, StringText(key), afterKey + [COLON]);
    Join(t, p, q, c + 1, before, StringText(key) + (afterKey + [COLON]));
  }

  // ---------------------------------------------------------------- the theorem

  /** `t` is a value of the parser's grammar with blanks around, nested no deeper than the parser goes. */
  ghost predicate IsDocument(t: seq<Byte>, before: seq<Byte>, node: Node, after: seq<Byte>) {
    Blank(before) && WellFormed(node) && Blank(after) && t == before + (Text(node) + after) && Depth(node) <= 200
  }

  /** A text is accepted exactly when it is a document; its value is then the meaning of that document. */
  lemma AcceptedIff(t: seq<Byte>)
    ensures Document(t).Good? <==> exists before, node, after :: IsDocument(t, before, node, after)
    ensures forall before, node, after | IsDocument(t, before, node, after) ::
      Document(t) == Good(Meaning(node, Greedy), |t|)
  {
    hide Document, Blank, WellFormed, Text, Depth, Meaning;
    forall before, node, after | IsDocument(t, before, node, after)
      ensures Document(t) == Good(Meaning(node, Greedy), |t|)
    {
      ReadsDocument(before, node, after);
    }
    if Document(t).Good? {
      var before, node, after := DocumentTaken(t);
      ReadsDocument(before, node, after);
      assert IsDocument(t, before, node, after);
    }
  }

  lemma DocumentTaken(t: seq<Byte>) returns (before: seq<Byte>, node: Node, after: seq<Byte>)
    requires Document(t).Good?
    ensures Blank(before) && WellFormed(node) && Blank(after) && t == before + (Text(node) + after)
  {
    hide ValueAt, SkipWhitespace, WellFormed, Text, Blank;
    var v := SkipWhitespace(t, 0);
    Skipped(t, 0);
    node := ValueTaken(t, v, 0);
    var e := ValueAt(t, v, 0).pos;
    Skipped(t, e);
    before, after := t[0..v], t[e..|t|];
    Join(t, v, e, |t|, Text(node), after);
    Join(t, 0, v, |t|, before, Text(node) + after);
    assert t[0..|t|] == t;
  }
}
