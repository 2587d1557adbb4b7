/** Tokens of a C++ function body and their delimiters. */
module ControlTokens {
  import opened Basics

  /** What the tokenizer keeps; every other identifier or operator is `Other`. */
  datatype Token =
    | OpenBrace | CloseBrace | OpenParen | CloseParen | OpenBracket | CloseBracket | OpenAttribute | CloseAttribute
    | Comma | Semicolon | Question | Colon | Bang | LogicalAnd | LogicalOr
    | KwIf | KwFor | KwWhile | KwSwitch | KwDo | KwElse | KwTry | KwCatch
    | KwCase | KwDefault | KwBreak | KwContinue | KwGoto | KwConstexpr | KwConsteval
    | Other(text: string)

  predicate IsControlWord(t: Token) {
    t.KwIf? || t.KwFor? || t.KwWhile? || t.KwSwitch? || t.KwDo?
  }

  predicate IsOpening(t: Token) {
    t.OpenParen? || t.OpenBracket? || t.OpenBrace? || t.OpenAttribute?
  }

  predicate IsClosing(t: Token) {
    t.CloseParen? || t.CloseBracket? || t.CloseBrace? || t.CloseAttribute?
  }

  /** The opening delimiter a closing one pairs with. */
  function PartnerOf(t: Token): Token
    requires IsClosing(t)
  {
    match t
    case CloseParen => OpenParen
    case CloseBracket => OpenBracket
    case CloseBrace => OpenBrace
    case CloseAttribute => OpenAttribute
  }

  // ---------------------------------------------------------- the full validator

  /** The stack after one token; None when a closing delimiter does not pair with the top. */
  function Push(stack: seq<Token>, t: Token): Option<seq<Token>> {
    if IsOpening(t) then Some(stack + [t])
    else if IsClosing(t) then
      if stack == [] || stack[|stack| - 1] != PartnerOf(t) then None else Some(stack[..|stack| - 1])
    else Some(stack)
  }

  /** The stack after the tokens from `p` up to `q`, starting from `stack`. */
  function Run(tokens: seq<Token>, p: nat, q: nat, stack: seq<Token>): Option<seq<Token>>
    requires p <= q <= |tokens|
  {
    if p == q then Some(stack)
    else
      match Run(tokens, p, q - 1, stack)
      case None => None
      case Some(s) => Push(s, tokens[q - 1])
  }

  /** All delimiters pair up, in all kinds at once. */
  predicate WellDelimited(tokens: seq<Token>) {
    Run(tokens, 0, |tokens|, []) == Some([])
  }

  method ValidateDelimiters(tokens: seq<Token>) returns (ok: bool)
    ensures ok <==> WellDelimited(tokens)
  {
    var stack: seq<Token> := [];
    for i := 0 to |tokens|
      invariant Run(tokens, 0, i, []) == Some(stack)
    {
      var token := tokens[i];
      if IsOpening(token) {
        stack := stack + [token];
      } else if IsClosing(token) {
        if stack == [] || stack[|stack| - 1] != PartnerOf(token) {
          MismatchIsFinal(tokens, i + 1);
          return false;
        }
        stack := stack[..|stack| - 1];
      }
    }
    return stack == [];
  }

  lemma {:induction false} MismatchIsFinal(tokens: seq<Token>, i: nat)
    requires i <= |tokens| && Run(tokens, 0, i, []) == None
    ensures Run(tokens, 0, |tokens|, []) == None
    decreases |tokens| - i
  {
    if i < |tokens| {
      MismatchIsFinal(tokens, i + 1);
    }
  }

  lemma {:induction false} RunPrefix(tokens: seq<Token>, q: nat, r: nat)
    requires q <= r <= |tokens| && Run(tokens, 0, r, []).Some?
    ensures Run(tokens, 0, q, []).Some?
    decreases r - q
  {
    if q < r {
      RunPrefix(tokens, q, r - 1);
    }
  }

  // ------------------------------------------------------- the one-kind counter

  /** Where the bracket of kind `opening` that is `depth` deep at `p` closes, counting only that kind. */
  function Balance(tokens: seq<Token>, p: nat, opening: Token, closing: Token, depth: nat): (q: Option<nat>)
    requires p <= |tokens|
    ensures q.Some? ==> p <= q.value <= |tokens| && (depth > 0 ==> p < q.value)
    decreases |tokens| - p
  {
    if depth == 0 then Some(p)
    else if p == |tokens| then None
    else if tokens[p] == opening then Balance(tokens, p + 1, opening, closing, depth + 1)
    else if tokens[p] == closing then Balance(tokens, p + 1, opening, closing, depth - 1)
    else Balance(tokens, p + 1, opening, closing, depth)
  }

  /** The number of `t` in a stack. */
  function CountOf(stack: seq<Token>, t: Token): nat {
    if stack == [] then 0 else CountOf(stack[..|stack| - 1], t) + if stack[|stack| - 1] == t then 1 else 0
  }

  /** `stack` keeps `base` and the opening bracket right above it, and adds `above`. */
  predicate Above(stack: seq<Token>, base: seq<Token>, opening: Token, above: seq<Token>) {
    stack == base + [opening] + above
  }

  /** How one token changes what lies above the opening bracket, or that it closes it. */
  lemma StepAbove(stack: seq<Token>, base: seq<Token>, opening: Token, closing: Token, above: seq<Token>, t: Token)
    requires IsClosing(closing) && opening == PartnerOf(closing)
    requires Above(stack, base, opening, above) && Push(stack, t).Some?
    ensures var next := Push(stack, t).value;
      if t == closing && CountOf(above, opening) == 0 then above == [] && next == base
      else
        && |next| > |base|
        && Above(next, base, opening, next[|base| + 1..])
        && CountOf(next[|base| + 1..], opening) as int
           == CountOf(above, opening) as int + (if t == opening then 1 else if t == closing then -1 else 0)
  {
    if IsOpening(t) {
      OpenAbove(stack, base, opening, above, t);
    } else if IsClosing(t) {
      CloseAbove(stack, base, opening, closing, above, t);
    } else {
      assert stack[|base| + 1..] == above;
    }
  }

  lemma OpenAbove(stack: seq<Token>, base: seq<Token>, opening: Token, above: seq<Token>, t: Token)
    requires Above(stack, base, opening, above)
    ensures Above(stack + [t], base, opening, above + [t]) && (stack + [t])[|base| + 1..] == above + [t]
    ensures CountOf(above + [t], opening) == CountOf(above, opening) + if t == opening then 1 else 0
  {
  }

  lemma CloseAbove(stack: seq<Token>, base: seq<Token>, opening: Token, closing: Token, above: seq<Token>, t: Token)
    requires IsClosing(closing) && opening == PartnerOf(closing) && IsClosing(t)
    requires Above(stack, base, opening, above) && stack[|stack| - 1] == PartnerOf(t)
    ensures above == [] ==> t == closing && stack[..|stack| - 1] == base
    ensures above != [] ==>
      && above[|above| - 1] == PartnerOf(t)
      && Above(stack[..|stack| - 1], base, opening, above[..|above| - 1])
      && stack[..|stack| - 1][|base| + 1..] == above[..|above| - 1]
      && CountOf(above, opening) == CountOf(above[..|above| - 1], opening) + if t == closing then 1 else 0
  {
  }

  /** Counting one kind stops exactly where the full stack is back to what it was before the bracket. */
  lemma {:induction false} BalanceFindsPartner(tokens: seq<Token>, k: nat, opening: Token, closing: Token,
                                               base: seq<Token>, above: seq<Token>)
    requires IsClosing(closing) && opening == PartnerOf(closing) && WellDelimited(tokens) && k <= |tokens|
    requires Run(tokens, 0, k, []).Some? && Above(Run(tokens, 0, k, []).value, base, opening, above)
    ensures var q := Balance(tokens, k, opening, closing, CountOf(above, opening) + 1);
      && q.Some?
      && Run(tokens, 0, q.value, []) == Some(base)
      && forall m | k <= m < q.value ::
           Run(tokens, 0, m, []).Some? && base + [opening] <= Run(tokens, 0, m, []).value
    decreases |tokens| - k
  {
    hide CountOf, Push, IsOpening;
    var stack := Run(tokens, 0, k, []).value;
    if k < |tokens| {
      RunPrefix(tokens, k + 1, |tokens|);
      var t := tokens[k];
      StepAbove(stack, base, opening, closing, above, t);
      var next := Run(tokens, 0, k + 1, []).value;
      if t == closing && CountOf(above, opening) == 0 {
        assert Balance(tokens, k + 1, opening, closing, 0) == Some(k + 1);
      } else {
        BalanceFindsPartner(tokens, k + 1, opening, closing, base, next[|base| + 1..]);
      }
    }
  }

  /** `_balanced` on a validated token list never runs off the end: from an opening bracket at `p` it
    stops at the partner the full validator pairs with it, and what it consumed is well nested in
    every kind. */
  lemma BalancedAgreesWithStack(tokens: seq<Token>, p: nat, closing: Token)
    requires IsClosing(closing) && WellDelimited(tokens) && p < |tokens| && tokens[p] == PartnerOf(closing)
    ensures var q := Balance(tokens, p + 1, PartnerOf(closing), closing, 1);
      && q.Some?
      && tokens[q.value - 1] == closing
      && Run(tokens, 0, q.value, []) == Run(tokens, 0, p, [])
      && WellDelimited(tokens[p..q.value])
      && forall m | p < m < q.value ::
           Run(tokens, 0, m, []).Some? && Run(tokens, 0, p, []).Some?
           && Run(tokens, 0, p, []).value + [tokens[p]] <= Run(tokens, 0, m, []).value
  {
    var opening := PartnerOf(closing);
    RunPrefix(tokens, p + 1, |tokens|);
    RunPrefix(tokens, p, |tokens|);
    var base := Run(tokens, 0, p, []).value;
    StartAbove(tokens, p, base);
    hide Run, Balance, WellDelimited, Above, CountOf;
    BalanceFindsPartner(tokens, p + 1, opening, closing, base, []);
    var q := Balance(tokens, p + 1, opening, closing, 1).value;
    BalanceEndsClosing(tokens, p + 1, opening, closing, 1);
    forall m | p <= m <= q
      ensures Keeps(tokens, m, base)
    {
      if m < q && m > p {
        assert base + [opening] <= Run(tokens, 0, m, []).value;
      }
    }
    StretchWellDelimited(tokens, p, q, base);
  }

  lemma StartAbove(tokens: seq<Token>, p: nat, base: seq<Token>)
    requires p < |tokens| && IsOpening(tokens[p]) && Run(tokens, 0, p, []) == Some(base)
    ensures Run(tokens, 0, p + 1, []) == Some(base + [tokens[p]])
    ensures Above(base + [tokens[p]], base, tokens[p], []) && CountOf([], tokens[p]) == 0
  {
  }

  /** The stack at `m` still holds `base`. */
  predicate Keeps(tokens: seq<Token>, m: nat, base: seq<Token>) {
    m <= |tokens| && Run(tokens, 0, m, []).Some? && base <= Run(tokens, 0, m, []).value
  }

  lemma StretchWellDelimited(tokens: seq<Token>, p: nat, q: nat, base: seq<Token>)
    requires p <= q <= |tokens| && Run(tokens, 0, p, []) == Some(base) && Run(tokens, 0, q, []) == Some(base)
    requires forall k | p <= k <= q :: Keeps(tokens, k, base)
    ensures WellDelimited(tokens[p..q])
  {
    Relocate(tokens, p, q, q, base);
    assert base[|base|..] == [];
  }

  lemma {:induction false} BalanceEndsClosing(tokens: seq<Token>, p: nat, opening: Token, closing: Token, depth: nat)
    requires p <= |tokens| && depth > 0 && opening != closing
    ensures var q := Balance(tokens, p, opening, closing, depth); q.Some? ==> tokens[q.value - 1] == closing
    decreases |tokens| - p
  {
    if p < |tokens| {
      var next := if tokens[p] == opening then depth + 1 else if tokens[p] == closing then depth - 1 else depth;
      if next > 0 {
        BalanceEndsClosing(tokens, p + 1, opening, closing, next);
      }
    }
  }

  /** A stretch that never goes below its starting stack runs the same from an empty stack. */
  lemma {:induction false} Relocate(tokens: seq<Token>, p: nat, m: nat, q: nat, base: seq<Token>)
    requires p <= m <= q <= |tokens| && Run(tokens, 0, p, []) == Some(base)
    requires forall k | p <= k <= q :: Keeps(tokens, k, base)
    ensures Keeps(tokens, m, base)
    ensures Run(tokens[p..q], 0, m - p, []) == Some(Run(tokens, 0, m, []).value[|base|..])
    decreases m
  {
    if m == p {
      assert base[|base|..] == [];
    } else {
      Relocate(tokens, p, m - 1, q, base);
      assert Keeps(tokens, m, base) && Keeps(tokens, m - 1, base);
      var before := Run(tokens, 0, m - 1, []).value;
      assert tokens[p..q][m - 1 - p] == tokens[m - 1];
      RelocateStep(before, base, tokens[m - 1]);
    }
  }

  lemma RelocateStep(stack: seq<Token>, base: seq<Token>, t: Token)
    requires base <= stack && Push(stack, t).Some? && base <= Push(stack, t).value
    ensures Push(stack[|base|..], t) == Some(Push(stack, t).value[|base|..])
  {
    var rest, next := stack[|base|..], Push(stack, t).value;
    if IsOpening(t) {
      assert next[|base|..] == rest + [t];
    } else if IsClosing(t) {
      assert |next| == |stack| - 1 && |rest| > 0;
      assert rest[|rest| - 1] == stack[|stack| - 1];
      assert next[|base|..] == rest[..|rest| - 1];
    }
  }
}
