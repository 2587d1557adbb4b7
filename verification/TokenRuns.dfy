/** How the parser reads the smallest pieces of a spelled statement: bracket groups, attributes, `if`
  heads and plain token runs. */
module TokenRuns {
  import opened Basics
  import opened ControlTokens
  import opened ControlReader
  import opened StatementTrees

  /** `x` stands in `t` at `p`. */
  predicate Sits(t: seq<Token>, p: nat, x: seq<Token>) {
    p + |x| <= |t| && t[p..p + |x|] == x
  }

  lemma SitsAt(t: seq<Token>, p: nat, x: seq<Token>, i: nat)
    requires Sits(t, p, x) && i < |x|
    ensures t[p + i] == x[i]
  {
  }

  lemma SitsWithin(t: seq<Token>, p: nat, x: seq<Token>)
    requires Sits(t, p, x)
    ensures p + |x| <= |t|
  {
  }

  lemma SitsSplit(t: seq<Token>, p: nat, a: seq<Token>, b: seq<Token>)
    requires Sits(t, p, a + b)
    ensures Sits(t, p, a) && Sits(t, p + |a|, b)
  {
    assert t[p..p + |a|] == (a + b)[..|a|];
    assert t[p + |a|..p + |a| + |b|] == (a + b)[|a|..];
  }

  lemma SitsWord(t: seq<Token>, p: nat, word: Token, b: seq<Token>)
    requires Sits(t, p, [word] + b)
    ensures At(t, p, word) && Sits(t, p + 1, b)
  {
    SitsSplit(t, p, [word], b);
    SitsAt(t, p, [word], 0);
  }

  // ---------------------------------------------------------------------- groups

  lemma {:induction false} BalanceSits(t: seq<Token>, p: nat, g: seq<Token>, i: nat, opening: Token, closing: Token,
                                       depth: nat)
    requires Sits(t, p, g) && i <= |g| && Balance(g, i, opening, closing, depth).Some?
    ensures Balance(t, p + i, opening, closing, depth) == Some(p + Balance(g, i, opening, closing, depth).value)
    decreases |g| - i
  {
    if depth > 0 && i < |g| {
      SitsAt(t, p, g, i);
      var next := if g[i] == opening then depth + 1 else if g[i] == closing then depth - 1 else depth;
      BalanceSits(t, p, g, i + 1, opening, closing, next);
    }
  }

  lemma GroupReads(t: seq<Token>, p: nat, g: seq<Token>, opening: Token, closing: Token)
    requires Sits(t, p, g) && IsGroup(g, opening, closing)
    ensures At(t, p, opening) && Balanced(t, p, opening, closing) == Parsed(p + |g|, ZERO)
  {
    SitsAt(t, p, g, 0);
    BalanceSits(t, p, g, 1, opening, closing, 1);
  }

  lemma {:induction false} AttributesRead(t: seq<Token>, p: nat, groups: seq<seq<Token>>)
    requires Sits(t, p, Flat(groups))
    requires forall g | g in groups :: IsGroup(g, OpenAttribute, CloseAttribute)
    requires !At(t, p + |Flat(groups)|, OpenAttribute)
    ensures Attributes(t, p) == Parsed(p + |Flat(groups)|, ZERO)
    decreases |groups|
  {
    if groups != [] {
      SitsSplit(t, p, groups[0], Flat(groups[1..]));
      GroupReads(t, p, groups[0], OpenAttribute, CloseAttribute);
      AttributesRead(t, p + |groups[0]|, groups[1..]);
    }
  }

  // ----------------------------------------------------------------------- heads

  lemma HeadReads(t: seq<Token>, p: nat, head: seq<Token>)
    requires Sits(t, p, head) && IsHead(head)
    ensures IfHead(t, p) == Parsed(p + |head|, ZERO) && (IsConsteval(t, p) <==> IsConstevalHead(head))
  {
    hide Sits, IsGroup, IfHead, IsConsteval;
    if IsConstevalHead(head) {
      ConstevalHeadReads(t, p, head);
    } else if IsGroup(head, OpenParen, CloseParen) {
      GroupHeadReads(t, p, head);
    } else {
      assert head == [KwConstexpr] + head[1..];
      SitsWord(t, p, KwConstexpr, head[1..]);
      ConstexprHeadReads(t, p, head[1..]);
    }
  }

  lemma GroupHeadReads(t: seq<Token>, p: nat, group: seq<Token>)
    requires Sits(t, p, group) && IsGroup(group, OpenParen, CloseParen)
    ensures IfHead(t, p) == Parsed(p + |group|, ZERO) && !IsConsteval(t, p)
  {
    hide Sits, IsGroup, Balanced;
    GroupReads(t, p, group, OpenParen, CloseParen);
  }

  lemma ConstexprHeadReads(t: seq<Token>, p: nat, group: seq<Token>)
    requires At(t, p, KwConstexpr) && Sits(t, p + 1, group) && IsGroup(group, OpenParen, CloseParen)
    ensures IfHead(t, p) == Parsed(p + 1 + |group|, ZERO) && !IsConsteval(t, p)
  {
    hide Sits, IsGroup, Balanced;
    GroupReads(t, p + 1, group, OpenParen, CloseParen);
  }

  lemma ConstevalHeadReads(t: seq<Token>, p: nat, head: seq<Token>)
    requires Sits(t, p, head) && IsConstevalHead(head)
    ensures IfHead(t, p) == Parsed(p + |head|, ZERO) && IsConsteval(t, p)
  {
    var constexpr_, negated :| head == HeadWords(constexpr_, negated) + [KwConsteval];
    SitsAt(t, p, head, 0);
    if |head| > 1 {
      SitsAt(t, p, head, 1);
    }
    if |head| > 2 {
      SitsAt(t, p, head, 2);
    }
  }

  // ------------------------------------------------------------------ plain runs

  /** The counters of the parser before token `i` of a run are the parentheses and the braces open there. */
  lemma {:induction false} RunReads(t: seq<Token>, p: nat, run: seq<Token>, i: nat)
    requires Sits(t, p, run) && IsRun(run) && i < |run|
    ensures NetHolds(run, i)
    ensures SimpleFrom(t, p, p + i, Net(run, i, OpenParen, CloseParen), Net(run, i, OpenBrace, CloseBrace))
            == Parsed(p + |run|, ZERO)
    decreases |run| - i
  {
    hide IsRun;
    SitsAt(t, p, run, i);
    RunStep(run, i);
    if i < |run| - 1 {
      RunReads(t, p, run, i + 1);
    }
  }

  /** One token of a run: no early end. */
  lemma RunStep(run: seq<Token>, i: nat)
    requires IsRun(run) && i < |run|
    ensures NetHolds(run, i) && NetHolds(run, i + 1)
    ensures i > 0 && Outside(run, i) ==> !StartsFlow(run[i])
    ensures Terminates(run[i]) && Outside(run, i + 1) <==> i == |run| - 1
  {
    if i < |run| - 1 {
      assert InnerToken(run, i);
    }
  }

  /** On a delimited stretch the net counts are those of the full stack. */
  lemma {:induction false} NetIsStack(run: seq<Token>, i: nat, opening: Token, closing: Token)
    requires IsClosing(closing) && opening == PartnerOf(closing)
    requires i <= |run| && Run(run, 0, i, []).Some?
    ensures Net(run, i, opening, closing) == CountOf(Run(run, 0, i, []).value, opening)
  {
    if i > 0 {
      NetIsStack(run, i - 1, opening, closing);
      CountStep(Run(run, 0, i - 1, []).value, run[i - 1], opening, closing);
    }
  }

  /** A delimited stretch without an early end is a run. */
  lemma DelimitedIsRun(run: seq<Token>)
    requires run != [] && PlainStart(run[0]) && Terminates(run[|run| - 1]) && WellDelimited(run)
    requires forall i: nat | i < |run| - 1 :: InnerToken(run, i)
    ensures IsRun(run)
  {
    forall i: nat | i <= |run|
      ensures NetHolds(run, i)
    {
      RunPrefix(run, i, |run|);
      NetIsStack(run, i, OpenParen, CloseParen);
      NetIsStack(run, i, OpenBrace, CloseBrace);
    }
    NetIsStack(run, |run|, OpenParen, CloseParen);
    NetIsStack(run, |run|, OpenBrace, CloseBrace);
  }

  /** How one token changes the number of open brackets of one kind. */
  lemma CountStep(stack: seq<Token>, token: Token, opening: Token, closing: Token)
    requires IsClosing(closing) && opening == PartnerOf(closing) && Push(stack, token).Some?
    ensures token == closing ==> CountOf(stack, opening) > 0
    ensures CountOf(Push(stack, token).value, opening) as int
      == CountOf(stack, opening) + (if token == opening then 1 else if token == closing then -1 else 0)
  {
    if IsOpening(token) {
      assert (stack + [token])[..|stack|] == stack;
    }
  }

  lemma PlainReads(t: seq<Token>, p: nat, run: seq<Token>, ctx: Context)
    requires Sits(t, p, run) && IsRun(run)
    ensures p < |t| && Simple(t, p, ctx) == if BadStart(run[0], ctx) then Rejected else Parsed(p + |run|, ZERO)
  {
    SitsAt(t, p, run, 0);
    RunReads(t, p, run, 0);
  }
}
