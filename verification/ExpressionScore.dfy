/** The part of the metric that is read off the tokens alone: jumps, `?`, and runs of the same logical
  operator. */
module ExpressionScore {
  import opened Basics
  import opened ControlTokens

  predicate IsLogical(t: Token) {
    t.LogicalAnd? || t.LogicalOr?
  }

  predicate IsJump(t: Token) {
    t.KwBreak? || t.KwContinue? || t.KwGoto?
  }

  /** Tokens after which a logical operator starts afresh. */
  predicate IsBoundary(t: Token) {
    || t.Question? || t.Comma? || t.Semicolon? || t.OpenBrace? || t.CloseBrace? || t.Colon?
    || IsControlWord(t) || t.KwCatch? || t.KwElse?
  }

  predicate Marks(t: Token) {
    IsLogical(t) || IsBoundary(t)
  }

  /** Token `i` continues the logical sequence of the same operator at `j`. */
  ghost predicate Continues(t: seq<Token>, j: nat, i: nat) {
    && j < i < |t|
    && IsLogical(t[i])
    && t[j] == t[i]
    && forall k | j < k < i :: !Marks(t[k])
  }

  ghost predicate StartsSequence(t: seq<Token>, i: nat) {
    i < |t| && IsLogical(t[i]) && !exists j: nat :: Continues(t, j, i)
  }

  /** Token `i` adds one to the score. */
  ghost predicate Adds(t: seq<Token>, i: nat) {
    i < |t| && (IsJump(t[i]) || t[i].Question? || StartsSequence(t, i))
  }

  ghost function Score(t: seq<Token>, n: nat): nat
    requires n <= |t|
  {
    if n == 0 then 0 else Score(t, n - 1) + if Adds(t, n - 1) then 1 else 0
  }

  ghost function Sequences(t: seq<Token>, n: nat): nat
    requires n <= |t|
  {
    if n == 0 then 0 else Sequences(t, n - 1) + if StartsSequence(t, n - 1) then 1 else 0
  }

  // -------------------------------------------------------------------- the scanner

  /** `operator` is the logical operator whose sequence is open before token `i`. */
  ghost predicate Pending(t: seq<Token>, i: nat, operator: Option<Token>)
    requires i <= |t|
  {
    match operator
    case None => forall j | 0 <= j < i && IsLogical(t[j]) :: Closed(t, j, i)
    case Some(o) => exists j: nat :: j < i && t[j] == o && IsLogical(o) && !Closed(t, j, i)
  }

  /** Some token between `j` and `i` marks. */
  ghost predicate Closed(t: seq<Token>, j: nat, i: nat)
    requires i <= |t|
  {
    exists k :: j < k < i && Marks(t[k])
  }

  lemma PendingDecides(t: seq<Token>, i: nat, operator: Option<Token>)
    requires i < |t| && Pending(t, i, operator) && IsLogical(t[i])
    ensures StartsSequence(t, i) <==> operator != Some(t[i])
  {
    if operator == Some(t[i]) {
      var j: nat :| j < i && t[j] == t[i] && !Closed(t, j, i);
      assert Continues(t, j, i);
    } else if exists j: nat :: Continues(t, j, i) {
      var j: nat :| Continues(t, j, i);
      assert !Closed(t, j, i);
      PendingIsLast(t, i, operator, j);
      assert false;
    }
  }

  lemma PendingIsLast(t: seq<Token>, i: nat, operator: Option<Token>, j: nat)
    requires i <= |t| && Pending(t, i, operator) && j < i && IsLogical(t[j]) && !Closed(t, j, i)
    ensures operator == Some(t[j])
  {
  }

  lemma PendingStep(t: seq<Token>, i: nat, operator: Option<Token>)
    requires i < |t| && Pending(t, i, operator)
    ensures Pending(t, i + 1, if IsLogical(t[i]) then Some(t[i]) else if IsBoundary(t[i]) then None else operator)
  {
  }

  /** The scan of the token list. */
  method Scan(tokens: seq<Token>) returns (score: nat, sequences: nat)
    ensures score == Score(tokens, |tokens|) && sequences == Sequences(tokens, |tokens|)
  {
    score, sequences := 0, 0;
    var operator: Option<Token> := None;
    for i := 0 to |tokens|
      invariant score == Score(tokens, i) && sequences == Sequences(tokens, i)
      invariant Pending(tokens, i, operator)
    {
      var token := tokens[i];
      PendingStep(tokens, i, operator);
      if IsLogical(token) {
        PendingDecides(tokens, i, operator);
        if operator != Some(token) {
          score := score + 1;
          sequences := sequences + 1;
          operator := Some(token);
        }
      } else if IsJump(token) {
        score := score + 1;
      } else if token.Question? {
        score := score + 1;
        operator := None;
      } else if IsBoundary(token) {
        operator := None;
      }
    }
  }

  // ------------------------------------------------------------------ what is counted

  /** Logical operators, and the tokens between which a sequence of one operator does not go on. */
  const LOGICAL: set<Token> := {LogicalAnd, LogicalOr}
  const SEPARATORS: set<Token> := {Question, Comma, Semicolon, OpenBrace, CloseBrace, Colon, KwIf, KwFor, KwWhile,
                                   KwSwitch, KwDo, KwCatch, KwElse}

  /** A logical operator with no equal one before it, but for separators or the other operator in between. */
  ghost predicate Opens(t: seq<Token>, i: nat) {
    && i < |t| && t[i] in LOGICAL
    && forall j | 0 <= j < i && t[j] == t[i] :: exists k :: j < k < i && t[k] in LOGICAL + SEPARATORS
  }

  ghost function Openings(t: seq<Token>, n: nat): set<nat> {
    set i: nat | i < n && Opens(t, i)
  }

  lemma OpensMeans(t: seq<Token>, i: nat)
    ensures StartsSequence(t, i) <==> Opens(t, i)
  {
    assert forall x: Token :: IsLogical(x) <==> x in LOGICAL;
    assert forall x: Token :: IsBoundary(x) <==> x in SEPARATORS;
    hide IsLogical, IsBoundary;
    if i < |t| && t[i] in LOGICAL {
      if exists j: nat :: Continues(t, j, i) {
        var j: nat :| Continues(t, j, i);
        assert forall k | j < k < i :: !Marks(t[k]);
      }
      if !Opens(t, i) {
        var j :| 0 <= j < i && t[j] == t[i] && !exists k :: j < k < i && t[k] in LOGICAL + SEPARATORS;
        assert Continues(t, j, i);
      }
    }
  }

  /** The sequences counted are the operators that open one. */
  lemma {:induction false} SequencesCount(t: seq<Token>, n: nat)
    requires n <= |t|
    ensures Sequences(t, n) == |Openings(t, n)|
  {
    if n > 0 {
      hide Opens, StartsSequence, Openings;
      SequencesCount(t, n - 1);
      OpensMeans(t, n - 1);
      OneMoreOpening(t, n);
    } else {
      assert Openings(t, 0) == {};
    }
  }

  lemma OneMoreOpening(t: seq<Token>, n: nat)
    requires 0 < n <= |t|
    ensures |Openings(t, n)| == |Openings(t, n - 1)| + if Opens(t, n - 1) then 1 else 0
  {
    hide Opens;
    assert Openings(t, n) == Openings(t, n - 1) + if Opens(t, n - 1) then {n - 1} else {};
  }

  /** The score is the number of jumps, of `?`, and of logical sequences. */
  lemma {:induction false} ScoreCounts(t: seq<Token>, n: nat)
    requires n <= |t|
    ensures var m := multiset(t[..n]);
      Score(t, n) == m[KwBreak] + m[KwContinue] + m[KwGoto] + m[Question] + Sequences(t, n)
  {
    if n > 0 {
      ScoreCounts(t, n - 1);
      assert t[..n] == t[..n - 1] + [t[n - 1]];
      hide Score, Sequences;
      OneMoreToken(t, n);
    } else {
      assert t[..0] == [];
    }
  }

  lemma OneMoreToken(t: seq<Token>, n: nat)
    requires 0 < n <= |t|
    ensures var x := t[n - 1];
      Score(t, n) - Sequences(t, n)
      == Score(t, n - 1) - Sequences(t, n - 1)
         + if x == KwBreak || x == KwContinue || x == KwGoto || x == Question then 1 else 0
  {
  }

  // -------------------------------------------------------------- inserting a brace

  /** A logical sequence runs across position `p`. */
  ghost predicate RunsAcross(t: seq<Token>, p: nat) {
    exists j: nat, i: nat :: j < p <= i && Continues(t, j, i)
  }

  function Insert(t: seq<Token>, p: nat, b: Token): seq<Token>
    requires p <= |t|
  {
    t[..p] + [b] + t[p..]
  }

  /** Token `i` continues a sequence from before `p`. */
  ghost predicate Crosses(t: seq<Token>, p: nat, i: nat) {
    p <= i && exists j: nat :: j < p && Continues(t, j, i)
  }

  /** Where a token stands after the insertion. */
  function Moved(p: nat, i: nat): nat {
    if i < p then i else i + 1
  }

  lemma InsertAt(t: seq<Token>, p: nat, b: Token, i: nat)
    requires p <= |t| && i < |t|
    ensures Moved(p, i) < |Insert(t, p, b)| == |t| + 1 && Insert(t, p, b)[Moved(p, i)] == t[i]
    ensures Insert(t, p, b)[p] == b
  {
  }

  lemma ContinuesMoved(t: seq<Token>, p: nat, b: Token, j: nat, i: nat)
    requires p <= |t| && IsBoundary(b) && j < i < |t|
    ensures Continues(Insert(t, p, b), Moved(p, j), Moved(p, i)) <==> Continues(t, j, i) && !(j < p <= i)
  {
    var u := Insert(t, p, b);
    InsertAt(t, p, b, i);
    InsertAt(t, p, b, j);
    if Continues(u, Moved(p, j), Moved(p, i)) {
      assert j < p <= i ==> Marks(u[p]);
      forall k | j < k < i
        ensures !Marks(t[k])
      {
        InsertAt(t, p, b, k);
        assert Moved(p, j) < Moved(p, k) < Moved(p, i);
      }
    }
    if Continues(t, j, i) && !(j < p <= i) {
      forall k | Moved(p, j) < k < Moved(p, i)
        ensures !Marks(u[k])
      {
        var m := if k < p then k else k - 1;
        InsertAt(t, p, b, m);
        assert Moved(p, m) == k;
      }
    }
  }

  lemma StartsMoved(t: seq<Token>, p: nat, b: Token, i: nat)
    requires p <= |t| && IsBoundary(b) && i < |t|
    ensures StartsSequence(Insert(t, p, b), Moved(p, i)) <==> StartsSequence(t, i) || Crosses(t, p, i)
  {
    var u := Insert(t, p, b);
    InsertAt(t, p, b, i);
    if IsLogical(t[i]) {
      if exists j: nat :: Continues(t, j, i) {
        var j: nat :| Continues(t, j, i);
        ContinuesMoved(t, p, b, j, i);
        if Crosses(t, p, i) {
          NoOther(t, p, b, i);
        } else {
          assert !(j < p <= i);
          assert Continues(u, Moved(p, j), Moved(p, i));
        }
      } else {
        NoOther(t, p, b, i);
      }
    }
  }

  /** Nothing continues to `i` after the insertion unless it did before, on the same side. */
  lemma NoOther(t: seq<Token>, p: nat, b: Token, i: nat)
    requires p <= |t| && IsBoundary(b) && i < |t|
    requires Crosses(t, p, i) || !exists j: nat :: Continues(t, j, i)
    ensures !exists k: nat :: Continues(Insert(t, p, b), k, Moved(p, i))
  {
    forall k: nat
      ensures !Continues(Insert(t, p, b), k, Moved(p, i))
    {
      NoOtherAt(t, p, b, i, k);
    }
  }

  lemma NoOtherAt(t: seq<Token>, p: nat, b: Token, i: nat, k: nat)
    requires p <= |t| && IsBoundary(b) && i < |t|
    requires Crosses(t, p, i) || !exists j: nat :: Continues(t, j, i)
    ensures !Continues(Insert(t, p, b), k, Moved(p, i))
  {
    InsertAt(t, p, b, i);
    if k < p && k < i {
      ContinuesMoved(t, p, b, k, i);
    } else if p < k && k - 1 < i {
      ContinuesMoved(t, p, b, k - 1, i);
      CrossesFirst(t, p, i, k - 1);
    }
  }

  lemma CrossesFirst(t: seq<Token>, p: nat, i: nat, j: nat)
    requires p <= j
    ensures Crosses(t, p, i) ==> !Continues(t, j, i)
  {
  }

  lemma AddsMoved(t: seq<Token>, p: nat, b: Token, i: nat)
    requires p <= |t| && IsBoundary(b) && i < |t|
    ensures Adds(Insert(t, p, b), Moved(p, i)) <==> Adds(t, i) || Crosses(t, p, i)
    ensures Crosses(t, p, i) ==> !Adds(t, i)
  {
    hide Continues;
    InsertAt(t, p, b, i);
    StartsMoved(t, p, b, i);
    if Crosses(t, p, i) {
      CrossesIsLogical(t, p, i);
    }
  }

  lemma CrossesIsLogical(t: seq<Token>, p: nat, i: nat)
    requires Crosses(t, p, i)
    ensures i < |t| && IsLogical(t[i]) && !StartsSequence(t, i)
  {
  }

  lemma CrossesOnce(t: seq<Token>, p: nat, i: nat, k: nat)
    requires Crosses(t, p, i) && Crosses(t, p, k)
    ensures i == k
  {
  }

  /** A sequence crosses `p` within the first `n` tokens. */
  ghost predicate CrossesBefore(t: seq<Token>, p: nat, n: nat) {
    exists i: nat :: i < n && Crosses(t, p, i)
  }

  lemma {:induction false} ScoreMoved(t: seq<Token>, p: nat, b: Token, n: nat)
    requires p <= |t| && n <= |t| && (b.OpenBrace? || b.CloseBrace?)
    ensures n <= p ==> Score(Insert(t, p, b), n) == Score(t, n)
    ensures n >= p ==> Score(Insert(t, p, b), n + 1) == Score(t, n) + if CrossesBefore(t, p, n) then 1 else 0
    decreases n
  {
    hide Adds, Crosses;
    var u := Insert(t, p, b);
    if n > 0 {
      ScoreMoved(t, p, b, n - 1);
      AddsMoved(t, p, b, n - 1);
      if n <= p {
        BeforeInsertion(t, p, n);
      }
      if CrossesBefore(t, p, n - 1) && Crosses(t, p, n - 1) {
        var i: nat :| i < n - 1 && Crosses(t, p, i);
        CrossesOnce(t, p, i, n - 1);
      }
      assert CrossesBefore(t, p, n) <==> CrossesBefore(t, p, n - 1) || Crosses(t, p, n - 1);
    }
    if n == p {
      InsertedAddsNothing(t, p, b);
      BeforeInsertion(t, p, n);
    }
  }

  lemma InsertedAddsNothing(t: seq<Token>, p: nat, b: Token)
    requires p <= |t| && (b.OpenBrace? || b.CloseBrace?)
    ensures !Adds(Insert(t, p, b), p)
  {
  }

  lemma BeforeInsertion(t: seq<Token>, p: nat, n: nat)
    requires n <= p
    ensures !CrossesBefore(t, p, n)
  {
  }

  /** An inserted brace costs exactly the logical sequence it cuts in two. */
  lemma InsertedBrace(t: seq<Token>, p: nat, b: Token)
    requires p <= |t| && (b.OpenBrace? || b.CloseBrace?)
    ensures Score(Insert(t, p, b), |t| + 1) == Score(t, |t|) + if RunsAcross(t, p) then 1 else 0
  {
    ScoreMoved(t, p, b, |t|);
    assert RunsAcross(t, p) <==> CrossesBefore(t, p, |t|) by {
      if RunsAcross(t, p) {
        var j: nat, i: nat :| j < p <= i && Continues(t, j, i);
        assert Crosses(t, p, i);
      }
      if CrossesBefore(t, p, |t|) {
        var i: nat :| i < |t| && Crosses(t, p, i);
      }
    }
  }

  /** Putting braces around a statement that ends with a boundary costs exactly the sequence that runs
    from before the statement into it. */
  lemma BracedStatement(pre: seq<Token>, s: seq<Token>, post: seq<Token>)
    requires s != [] && IsBoundary(s[|s| - 1])
    ensures var before, after := pre + s + post, pre + [OpenBrace] + s + [CloseBrace] + post;
      Score(after, |after|) == Score(before, |before|) + if RunsAcross(before, |pre|) then 1 else 0
  {
    hide RunsAcross, Score;
    var before, after := pre + s + post, pre + [OpenBrace] + s + [CloseBrace] + post;
    var widened := Insert(before, |pre|, OpenBrace);
    var q := |pre| + 1 + |s|;
    assert before[..|pre|] == pre && before[|pre|..] == s + post;
    assert widened == pre + [OpenBrace] + s + post;
    assert widened[..q] == pre + [OpenBrace] + s && widened[q..] == post;
    assert Insert(widened, q, CloseBrace) == after;
    InsertedBrace(before, |pre|, OpenBrace);
    InsertedBrace(widened, q, CloseBrace);
    assert widened[q - 1] == s[|s| - 1];
    NothingAcross(widened, q);
  }

  lemma NothingAcross(t: seq<Token>, q: nat)
    requires 0 < q <= |t| && IsBoundary(t[q - 1])
    ensures !RunsAcross(t, q)
  {
  }
}
