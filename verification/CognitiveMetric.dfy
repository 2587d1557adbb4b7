/** The metric of one function body, and what its two halves say about each other. */
module CognitiveMetric {
  import opened Basics
  import opened ControlTokens
  import opened ControlReader
  import opened StatementTrees
  import opened CognitiveScore
  import opened Bracing
  import ControlParser
  import E = ExpressionScore

  const MAX_TOKENS := 1000000

  datatype Metric = Metric(cognitive: nat, maxNesting: nat, unbracedControls: nat, logicalSequences: nat)

  /** What the metric of a token list is, if it has one. */
  ghost function MetricOf(tokens: seq<Token>): Option<Metric> {
    var flow := Body(tokens);
    if |tokens| > 1000000 || !WellDelimited(tokens) || flow.Rejected? then None
    else Some(Metric(flow.score.cognitive + E.Score(tokens, |tokens|), flow.score.nesting, flow.score.unbraced,
                     E.Sequences(tokens, |tokens|)))
  }

  lemma MetricIs(tokens: seq<Token>)
    ensures |tokens| > 1000000 || !WellDelimited(tokens) || Body(tokens).Rejected? ==> MetricOf(tokens) == None
    ensures |tokens| <= 1000000 && WellDelimited(tokens) && Body(tokens).Parsed? ==>
      var s := Body(tokens).score;
      MetricOf(tokens) == Some(Metric(s.cognitive + E.Score(tokens, |tokens|), s.nesting, s.unbraced,
                                      E.Sequences(tokens, |tokens|)))
  {
    hide Body, WellDelimited, E.Score, E.Sequences;
  }

  method Measure(tokens: seq<Token>) returns (metric: Option<Metric>)
    ensures metric == MetricOf(tokens)
  {
    hide Body, WellDelimited, E.Score, E.Sequences, MetricOf, Max, Plus;
    MetricIs(tokens);
    if |tokens| > MAX_TOKENS {
      return None;
    }
    var ok := ValidateDelimiters(tokens);
    if !ok {
      return None;
    }
    var expression, sequences := E.Scan(tokens);
    var parser := new ControlParser.CppControlParser(tokens);
    ok := parser.Parse();
    if !ok {
      return None;
    }
    ControlParser.PlusZero(Body(tokens).score, Rejected);
    metric := Some(Metric(parser.cognitive + expression, parser.maxNesting, parser.unbracedControls, sequences));
  }

  // ------------------------------------------------------ statements end with a boundary

  predicate EndsWithBoundary(x: seq<Token>) {
    x != [] && E.IsBoundary(x[|x| - 1])
  }

  lemma SuffixEnds(a: seq<Token>, x: seq<Token>)
    requires EndsWithBoundary(x)
    ensures EndsWithBoundary(a + x)
  {
  }

  lemma {:induction false} NodeEnds(node: Node)
    requires WellFormedNode(node)
    ensures EndsWithBoundary(SpellNode(node))
    decreases node
  {
    hide EndsWithBoundary, IsRun, IsHead, IsGroup, IsConstevalHead, Open, WellFormedAll;
    match node
    case Plain(run) => RunEnds(run);
    case Cut(pieces) => PiecesEnd(pieces);
    case Block(body) => BlockEnds(body);
    case Conditional(head, guarded, alternative) =>
      NodeEnds(guarded.node);
      SuffixEnds(Flat(guarded.attributes), SpellNode(guarded.node));
      if alternative.ElseBranch? {
        assert WellFormed(alternative.body);
        NodeEnds(alternative.body.node);
        SuffixEnds(Flat(alternative.body.attributes), SpellNode(alternative.body.node));
        SuffixEnds([KwElse], Spell(alternative.body));
        SuffixEnds(Spell(guarded), SpellAlternative(alternative));
      } else {
        assert Spell(guarded) + SpellAlternative(alternative) == Spell(guarded);
      }
      SuffixEnds(head, Spell(guarded) + SpellAlternative(alternative));
      SuffixEnds([KwIf], head + (Spell(guarded) + SpellAlternative(alternative)));
    case Controlling(word, header, controlled) =>
      NodeEnds(controlled.node);
      SuffixEnds(Flat(controlled.attributes), SpellNode(controlled.node));
      SuffixEnds(header, Spell(controlled));
      SuffixEnds([word], header + Spell(controlled));
    case DoWhile(controlled, header) =>
      SemicolonEnds();
      SuffixEnds(header, [Semicolon]);
      SuffixEnds([KwWhile], header + [Semicolon]);
      SuffixEnds(Spell(controlled), [KwWhile] + (header + [Semicolon]));
      SuffixEnds([KwDo], Spell(controlled) + ([KwWhile] + (header + [Semicolon])));
    case TryCatch(block, handlers) =>
      HandlersEnd(handlers);
      SuffixEnds(SpellBlock(block), SpellHandlers(handlers));
      SuffixEnds([KwTry], SpellBlock(block) + SpellHandlers(handlers));
  }

  lemma RunEnds(run: seq<Token>)
    requires IsRun(run)
    ensures EndsWithBoundary(run)
  {
  }

  lemma {:induction false} PiecesEnd(pieces: seq<seq<Token>>)
    requires pieces != [] && forall piece | piece in pieces :: IsRun(piece)
    ensures EndsWithBoundary(Flat(pieces))
  {
    hide IsRun, EndsWithBoundary;
    RunEnds(pieces[0]);
    if |pieces| == 1 {
      assert Flat(pieces) == pieces[0];
    } else {
      PiecesEnd(pieces[1..]);
      SuffixEnds(pieces[0], Flat(pieces[1..]));
    }
  }

  lemma BlockEnds(body: Stmts)
    ensures EndsWithBoundary(SpellBlock(body))
  {
  }

  lemma SemicolonEnds()
    ensures EndsWithBoundary([Semicolon])
  {
  }

  lemma {:induction false} HandlersEnd(handlers: Handlers)
    requires WellFormedHandlers(handlers) && handlers.Handler?
    ensures EndsWithBoundary(SpellHandlers(handlers))
    decreases handlers
  {
    hide EndsWithBoundary, IsGroup, Open;
    var body, rest := handlers.body, handlers.rest;
    NodeEnds(body.node);
    SuffixEnds(Flat(body.attributes), SpellNode(body.node));
    if rest.Handler? {
      HandlersEnd(rest);
      SuffixEnds(Spell(body), SpellHandlers(rest));
    } else {
      assert Spell(body) + SpellHandlers(rest) == Spell(body);
    }
    SuffixEnds(handlers.header, Spell(body) + SpellHandlers(rest));
    SuffixEnds([KwCatch], handlers.header + (Spell(body) + SpellHandlers(rest)));
  }

  /** Bracing one statement adds to the token score exactly the logical sequence it cuts: it is not
    neutral when the condition before the statement ends with the operator the statement goes on with. */
  lemma BracingTokenScore(pre: seq<Token>, s: Stmt, post: seq<Token>)
    requires WellFormed(s)
    ensures var before, after := pre + Spell(s) + post, pre + [OpenBrace] + Spell(s) + [CloseBrace] + post;
      E.Score(after, |after|) == E.Score(before, |before|) + if E.RunsAcross(before, |pre|) then 1 else 0
  {
    hide Spell, SpellNode, WellFormedNode, E.Score, E.RunsAcross;
    NodeEnds(s.node);
    assert Spell(s) == Flat(s.attributes) + SpellNode(s.node) by { SpellIs(s); }
    SuffixEnds(Flat(s.attributes), SpellNode(s.node));
    E.BracedStatement(pre, Spell(s), post);
  }

  lemma SpellIs(s: Stmt)
    ensures Spell(s) == Flat(s.attributes) + SpellNode(s.node)
  {
  }

  /** Braces around one controlled statement of a function body that continues no `else` raise its metric
    by exactly the logical sequence they cut. */
  lemma BracingMetric(block: Stmts, handlers: Handlers, block2: Stmts, handlers2: Handlers,
                      pre: seq<Token>, s: Stmt, post: seq<Token>)
    requires WellFormedAll(block) && WellFormedHandlers(handlers) && WellFormed(s)
    requires BracedAll(block, block2, Freedom(false, true)) && BracedHandlers(handlers, handlers2, Freedom(false, true))
    requires SpellBody(block, handlers) == pre + Spell(s) + post
    requires SpellBody(block2, handlers2) == pre + [OpenBrace] + Spell(s) + [CloseBrace] + post
    requires MetricOf(SpellBody(block, handlers)).Some? && MetricOf(SpellBody(block2, handlers2)).Some?
    ensures MetricOf(SpellBody(block2, handlers2)).value.cognitive
            == MetricOf(SpellBody(block, handlers)).value.cognitive
               + if E.RunsAcross(SpellBody(block, handlers), |pre|) then 1 else 0
  {
    hide Body, SpellBody, Spell, WellFormed, WellFormedAll, WellFormedHandlers, BracedAll, BracedHandlers;
    hide WellDelimited;
    hide E.Score, E.Sequences, E.RunsAcross;
    BracingTokenScore(pre, s, post);
    BracingKeepsCognitiveIff(block, handlers, block2, handlers2, Freedom(false, true));
  }

  /** `if (a && b) c && d;` against `if (a && b) { c && d; }`. */
  lemma CutSequenceExample(a: Token, b: Token, c: Token, d: Token)
    requires a.Other? && b.Other? && c.Other? && d.Other?
    ensures var pre, s := [KwIf, OpenParen, a, LogicalAnd, b, CloseParen], [c, LogicalAnd, d, Semicolon];
      E.Score(pre + [OpenBrace] + s + [CloseBrace], 12) == E.Score(pre + s, 10) + 1
  {
    hide E.Score;
    var pre, s := [KwIf, OpenParen, a, LogicalAnd, b, CloseParen], [c, LogicalAnd, d, Semicolon];
    var t := pre + s;
    assert E.Continues(t, 3, 7);
    E.BracedStatement(pre, s, []);
    assert t + [] == t;
    assert pre + [OpenBrace] + s + [CloseBrace] + [] == pre + [OpenBrace] + s + [CloseBrace];
  }

  // ---------------------------------------------------------- brackets that close together

  lemma {:induction false} RunConcat(a: seq<Token>, b: seq<Token>, i: nat, stack: seq<Token>)
    requires i <= |b|
    ensures Run(a + b, 0, |a| + i, stack)
            == match Run(a, 0, |a|, stack) case None => None case Some(s) => Run(b, 0, i, s)
  {
    if i == 0 {
      RunFirst(a, b, |a|, stack);
    } else {
      RunConcat(a, b, i - 1, stack);
      assert (a + b)[|a| + i - 1] == b[i - 1];
    }
  }

  lemma {:induction false} RunFirst(a: seq<Token>, b: seq<Token>, i: nat, stack: seq<Token>)
    requires i <= |a|
    ensures Run(a + b, 0, i, stack) == Run(a, 0, i, stack)
  {
    if i > 0 {
      RunFirst(a, b, i - 1, stack);
    }
  }

  /** A delimited stretch does to any stack what it does to the empty one. */
  lemma {:induction false} RunOnTop(x: seq<Token>, i: nat, base: seq<Token>)
    requires i <= |x| && Run(x, 0, i, []).Some?
    ensures Run(x, 0, i, base) == Some(base + Run(x, 0, i, []).value)
  {
    if i > 0 {
      RunOnTop(x, i - 1, base);
      PushOnTop(base, Run(x, 0, i - 1, []).value, x[i - 1]);
    } else {
      assert base + [] == base;
    }
  }

  lemma PushOnTop(base: seq<Token>, stack: seq<Token>, t: Token)
    requires Push(stack, t).Some?
    ensures Push(base + stack, t) == Some(base + Push(stack, t).value)
  {
    if IsOpening(t) {
      assert base + stack + [t] == base + (stack + [t]);
    } else if IsClosing(t) {
      assert (base + stack)[..|base + stack| - 1] == base + stack[..|stack| - 1];
    }
  }

  /** An index in an index, and how it is closed. */
  function NestedIndex(pre: seq<Token>, outer: seq<Token>, inner: seq<Token>, closing: seq<Token>, post: seq<Token>)
    : seq<Token>
  {
    pre + ([OpenBracket] + (outer + ([OpenBracket] + (inner + (closing + post)))))
  }

  /** The stack of open delimiters where the inner index is closed. */
  lemma NestedIndexRuns(pre: seq<Token>, outer: seq<Token>, inner: seq<Token>, rest: seq<Token>)
    requires WellDelimited(outer) && WellDelimited(inner)
    ensures var t := pre + ([OpenBracket] + (outer + ([OpenBracket] + (inner + rest))));
      Run(t, 0, |t|, [])
      == match Run(pre, 0, |pre|, [])
         case None => None
         case Some(s) => Run(rest, 0, |rest|, s + [OpenBracket, OpenBracket])
  {
    hide Run, Push;
    var r4 := inner + rest;
    var r3 := [OpenBracket] + r4;
    var r2 := outer + r3;
    var r1 := [OpenBracket] + r2;
    RunConcat(pre, r1, |r1|, []);
    if Run(pre, 0, |pre|, []).Some? {
      var s := Run(pre, 0, |pre|, []).value;
      RunOpening(r2, s);
      RunOnTop(outer, |outer|, s + [OpenBracket]);
      RunConcat(outer, r3, |r3|, s + [OpenBracket]);
      RunOpening(r4, s + [OpenBracket]);
      RunOnTop(inner, |inner|, s + [OpenBracket, OpenBracket]);
      RunConcat(inner, rest, |rest|, s + [OpenBracket, OpenBracket]);
      assert s + [OpenBracket] + [OpenBracket] == s + [OpenBracket, OpenBracket];
      assert forall base: seq<Token> :: base + [] == base;
    }
  }

  lemma RunOpening(x: seq<Token>, stack: seq<Token>)
    ensures Run([OpenBracket] + x, 0, |x| + 1, stack) == Run(x, 0, |x|, stack + [OpenBracket])
  {
    RunConcat([OpenBracket], x, |x|, stack);
  }

  /** `a[b[i]]` with its closing brackets side by side, which are one token, is refused whatever stands
    around it. */
  lemma JoinedBracketsRefused(pre: seq<Token>, outer: seq<Token>, inner: seq<Token>, post: seq<Token>)
    requires WellDelimited(outer) && WellDelimited(inner)
    ensures MetricOf(NestedIndex(pre, outer, inner, [CloseAttribute], post)) == None
  {
    hide Run, Push, Body, E.Score, E.Sequences;
    NestedIndexRuns(pre, outer, inner, [CloseAttribute] + post);
    if Run(pre, 0, |pre|, []).Some? {
      RunConcat([CloseAttribute], post, |post|, Run(pre, 0, |pre|, []).value + [OpenBracket, OpenBracket]);
      NoAttributeOpen(Run(pre, 0, |pre|, []).value);
    }
  }

  lemma NoAttributeOpen(stack: seq<Token>)
    ensures Run([CloseAttribute], 0, 1, stack + [OpenBracket, OpenBracket]) == None
  {
  }

  /** Closed one by one they are neutral. */
  lemma SeparateBrackets(pre: seq<Token>, outer: seq<Token>, inner: seq<Token>, between: seq<Token>, post: seq<Token>)
    requires WellDelimited(outer) && WellDelimited(inner) && WellDelimited(between)
    ensures WellDelimited(NestedIndex(pre, outer, inner, [CloseBracket] + (between + [CloseBracket]), post))
      <==> WellDelimited(pre + post)
  {
    hide Run, Push;
    var closing := [CloseBracket] + (between + [CloseBracket]);
    NestedIndexRuns(pre, outer, inner, closing + post);
    RunConcat(pre, post, |post|, []);
    if Run(pre, 0, |pre|, []).Some? {
      var s := Run(pre, 0, |pre|, []).value;
      RunConcat(closing, post, |post|, s + [OpenBracket, OpenBracket]);
      RunConcat([CloseBracket], between + [CloseBracket], |between| + 1, s + [OpenBracket, OpenBracket]);
      RunConcat(between, [CloseBracket], 1, s + [OpenBracket]);
      RunOnTop(between, |between|, s + [OpenBracket]);
      OneCloses(s + [OpenBracket]);
      OneCloses(s);
      assert s + [OpenBracket] + [OpenBracket] == s + [OpenBracket, OpenBracket];
      assert s + [OpenBracket] + [] == s + [OpenBracket];
    }
  }

  lemma OneCloses(stack: seq<Token>)
    ensures Run([CloseBracket], 0, 1, stack + [OpenBracket]) == Some(stack)
  {
    assert (stack + [OpenBracket])[..|stack|] == stack;
  }

  lemma OneToken(x: Token)
    requires x.Other?
    ensures WellDelimited([x])
  {
    assert Run([x], 0, 0, []) == Some([]);
  }

  /** `{ a[b[i]]; }` has no metric. */
  lemma JoinedBracketsExample(a: Token, b: Token, i: Token)
    requires a.Other? && b.Other? && i.Other?
    ensures MetricOf([OpenBrace, a, OpenBracket, b, OpenBracket, i, CloseAttribute, Semicolon, CloseBrace]) == None
  {
    hide MetricOf, WellDelimited;
    OneToken(b);
    OneToken(i);
    JoinedBracketsRefused([OpenBrace, a], [b], [i], [Semicolon, CloseBrace]);
    hide *;
    assert [OpenBrace, a]
           + ([OpenBracket] + ([b] + ([OpenBracket] + ([i] + ([CloseAttribute] + [Semicolon, CloseBrace])))))
      == [OpenBrace, a, OpenBracket, b, OpenBracket, i, CloseAttribute, Semicolon, CloseBrace];
  }
}
