/** When the parser's reading of `\u` escapes is the standard one.

  A high surrogate that is not followed by a low one takes the next escape along with it.  If that
  escape is itself a high surrogate, a low surrogate after it is left alone although the two are a
  pair.  So a run of high surrogates before a low one is read correctly only if its length is odd.
*/
module JsonSurrogates {
  import opened Utf8
  import opened JsonText

  /** The number of high surrogates `chars` starts with. */
  function HighRun(chars: seq<Char>): (n: nat)
    requires WellFormedChars(chars)
    ensures n <= |chars| && (n == 0 <==> chars == [] || !IsHighChar(chars[0]))
  {
    if chars == [] || !IsHighChar(chars[0]) then 0 else 1 + HighRun(chars[1..])
  }

  /** Some maximal run of high surrogates has even length and is followed by a low surrogate. */
  predicate LosesPair(chars: seq<Char>)
    requires WellFormedChars(chars)
  {
    if chars == [] then false
    else
      var n := HighRun(chars);
      if n == 0 then LosesPair(chars[1..])
      else (n % 2 == 0 && n < |chars| && IsLowChar(chars[n])) || LosesPair(chars[n..])
  }

  lemma PairIsShorter(high: Char, low: Char)
    requires WellFormedChar(high) && WellFormedChar(low) && IsHighChar(high) && IsLowChar(low)
    ensures |PairBytes(high, low)| == 4 && |CharBytes(high)| == 3 && |CharBytes(low)| == 3
  {
  }

  lemma RunOfTwo(chars: seq<Char>)
    requires WellFormedChars(chars) && |chars| >= 2 && IsHighChar(chars[0]) && IsHighChar(chars[1])
    ensures HighRun(chars) == 2 + HighRun(chars[2..])
  {
    hide IsHighChar, IsLowChar;
    assert chars[1..][1..] == chars[2..] && chars[1..][0] == chars[1];
    assert HighRun(chars[1..]) == 1 + HighRun(chars[2..]);
  }

  lemma LosesPairUnfolds(chars: seq<Char>)
    requires WellFormedChars(chars) && chars != []
    ensures var n := HighRun(chars);
      LosesPair(chars)
      == if n == 0 then LosesPair(chars[1..])
         else (n % 2 == 0 && n < |chars| && IsLowChar(chars[n])) || LosesPair(chars[n..])
  {
    hide HighRun, IsLowChar, IsHighChar;
  }

  lemma LosesPairAfterTwo(chars: seq<Char>)
    requires WellFormedChars(chars) && |chars| >= 2 && IsHighChar(chars[0]) && IsHighChar(chars[1])
    requires |chars| > 2 ==> !IsLowChar(chars[2])
    ensures LosesPair(chars) == LosesPair(chars[2..])
  {
    hide IsHighChar, IsLowChar, HighRun, LosesPair;
    var n := HighRun(chars);
    RunOfTwo(chars);
    LosesPairUnfolds(chars);
    if n > 2 {
      LosesPairUnfolds(chars[2..]);
      assert chars[2..][n - 2..] == chars[n..];
      assert n < |chars| ==> chars[2..][n - 2] == chars[n];
    }
  }

  /** The greedy reading never writes less, and writes the same bytes unless it loses a pair. */
  predicate Compares(chars: seq<Char>)
    requires WellFormedChars(chars)
  {
    var greedy, standard := StringBytes(chars, Greedy), StringBytes(chars, Standard);
    if LosesPair(chars) then |greedy| > |standard| else greedy == standard
  }

  lemma {:induction false} GreedyAgainstStandard(chars: seq<Char>)
    requires WellFormedChars(chars)
    ensures Compares(chars)
  {
    hide CharBytes, PairBytes, StringBytes, LosesPair, Compares, IsHighChar, IsLowChar;
    if chars == [] {
      NothingCompares();
    } else if !IsHighChar(chars[0]) || |chars| == 1 || !chars[1].Hex? {
      GreedyAgainstStandard(chars[1..]);
      SingleCompares(chars);
    } else if !IsHighChar(chars[1]) {
      GreedyAgainstStandard(chars[2..]);
      LoneHighCompares(chars);
    } else {
      GreedyAgainstStandard(chars[2..]);
      if |chars| > 2 && IsLowChar(chars[2]) {
        GreedyAgainstStandard(chars[3..]);
        GreedyLosesHere(chars);
      } else {
        TwoHighsCompare(chars);
      }
    }
  }

  lemma NothingCompares()
    ensures Compares([])
  {
  }

  /** A first character that takes nothing along. */
  lemma SingleCompares(chars: seq<Char>)
    requires WellFormedChars(chars) && chars != [] && Compares(chars[1..])
    requires !IsHighChar(chars[0]) || |chars| == 1 || !chars[1].Hex?
    ensures Compares(chars)
  {
    hide CharBytes, PairBytes, LosesPair;
    LosesPairUnfolds(chars);
    if IsHighChar(chars[0]) {
      assert |chars| > 1 ==> !IsHighChar(chars[1..][0]);
      assert HighRun(chars) == 1;
    }
  }

  /** A single high surrogate before another escape. */
  lemma LoneHighCompares(chars: seq<Char>)
    requires WellFormedChars(chars) && |chars| > 1 && IsHighChar(chars[0]) && chars[1].Hex? && !IsHighChar(chars[1])
    requires Compares(chars[2..])
    ensures Compares(chars)
  {
    hide CharBytes, PairBytes, LosesPair;
    assert chars[1..][1..] == chars[2..] && chars[1..][0] == chars[1];
    assert HighRun(chars) == 1 && HighRun(chars[1..]) == 0;
    LosesPairUnfolds(chars);
    LosesPairUnfolds(chars[1..]);
    if !IsLowChar(chars[1]) {
      assert StringBytes(chars[1..], Standard) == CharBytes(chars[1]) + StringBytes(chars[2..], Standard);
    }
  }

  /** Two high surrogates without a low one behind them. */
  lemma TwoHighsCompare(chars: seq<Char>)
    requires WellFormedChars(chars) && |chars| > 1 && IsHighChar(chars[0]) && IsHighChar(chars[1])
    requires |chars| > 2 ==> !IsLowChar(chars[2])
    requires Compares(chars[2..])
    ensures Compares(chars)
  {
    LosesPairAfterTwo(chars);
    hide CharBytes, PairBytes, LosesPair;
    assert chars[1..][1..] == chars[2..];
    assert StringBytes(chars[1..], Standard) == CharBytes(chars[1]) + StringBytes(chars[2..], Standard);
  }

  lemma GreedyLosesHere(chars: seq<Char>)
    requires WellFormedChars(chars) && |chars| > 2 && Compares(chars[3..])
    requires IsHighChar(chars[0]) && IsHighChar(chars[1]) && IsLowChar(chars[2])
    ensures Compares(chars) && LosesPair(chars)
  {
    assert chars[1..][1..] == chars[2..] && chars[2..][1..] == chars[3..] && chars[1..][2..] == chars[3..];
    RunOfTwo(chars);
    LosesPairUnfolds(chars);
    PairIsShorter(chars[1], chars[2]);
    PairIsShorter(chars[0], chars[2]);
    hide CharBytes, PairBytes, LosesPair;
    assert StringBytes(chars[2..], Greedy) == CharBytes(chars[2]) + StringBytes(chars[3..], Greedy);
    assert StringBytes(chars[1..], Standard) == PairBytes(chars[1], chars[2]) + StringBytes(chars[3..], Standard);
  }

  /** The parser decodes a string in the standard way exactly when no pair is lost. */
  lemma GreedyIsStandardIff(chars: seq<Char>)
    requires WellFormedChars(chars)
    ensures StringBytes(chars, Greedy) == StringBytes(chars, Standard) <==> !LosesPair(chars)
  {
    GreedyAgainstStandard(chars);
  }

  /** `"\uD800\uD800\uDC00"` ends in the pair for U+10000, but the parser writes three lone surrogates. */
  lemma LostPairExample(high: seq<Byte>, low: seq<Byte>)
    requires high == [0x44, 0x38, 0x30, 0x30] && low == [0x44, 0x43, 0x30, 0x30]
    ensures WellFormedChars([Hex(high), Hex(high), Hex(low)])
    ensures StringBytes([Hex(high), Hex(high), Hex(low)], Standard) == AppendUtf8(0xD800) + AppendUtf8(0x10000)
    ensures StringBytes([Hex(high), Hex(high), Hex(low)], Greedy)
            == AppendUtf8(0xD800) + AppendUtf8(0xD800) + AppendUtf8(0xDC00)
  {
    var chars := [Hex(high), Hex(high), Hex(low)];
    assert HexCode(high) == 0xD800 && HexCode(low) == 0xDC00;
    assert Combine(0xD800, 0xDC00) == 0x10000;
    assert chars[1..] == [Hex(high), Hex(low)] && chars[2..] == [Hex(low)];
    assert StringBytes(chars[2..], Greedy) == AppendUtf8(0xDC00);
    assert StringBytes(chars[1..], Standard) == AppendUtf8(0x10000) + StringBytes([], Standard) by {
      assert chars[1..][2..] == [];
    }
  }

  // --------------------------------------------------------------- whole texts

  /** No string anywhere in the text loses a pair. */
  predicate KeepsPairs(node: Node)
    requires WellFormed(node)
  {
    match node
    case StringNode(chars) => !LosesPair(chars)
    case ArrayNode(_, items) => forall i | 0 <= i < |items| :: KeepsPairs(items[i].node)
    case ObjectNode(_, members) =>
      forall i | 0 <= i < |members| :: !LosesPair(members[i].key) && KeepsPairs(members[i].node)
    case _ => true
  }

  lemma {:induction false} KeptMeaning(node: Node)
    requires WellFormed(node) && KeepsPairs(node)
    ensures Meaning(node, Greedy) == Meaning(node, Standard)
    decreases node, 0
  {
    match node {
      case StringNode(chars) => GreedyIsStandardIff(chars);
      case ArrayNode(_, items) =>
        forall i | 0 <= i < |items|
          ensures Meaning(items[i].node, Greedy) == Meaning(items[i].node, Standard)
        {
          KeptMeaning(items[i].node);
        }
      case ObjectNode(_, members) => KeptMembers(members, |members|);
      case _ =>
    }
  }

  lemma {:induction false} KeptMembers(members: seq<Member>, n: nat)
    requires n <= |members|
    requires forall i | 0 <= i < |members| :: WellFormedChars(members[i].key) && WellFormed(members[i].node)
    requires forall i | 0 <= i < |members| :: !LosesPair(members[i].key) && KeepsPairs(members[i].node)
    ensures MembersMeaning(members, n, Greedy) == MembersMeaning(members, n, Standard)
    decreases members, n
  {
    hide LosesPair, StringBytes, Meaning, KeepsPairs, WellFormed, WellFormedChars;
    if n > 0 {
      KeptMembers(members, n - 1);
      GreedyIsStandardIff(members[n - 1].key);
      KeptMeaning(members[n - 1].node);
    }
  }
}
