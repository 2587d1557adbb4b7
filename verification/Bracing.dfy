/** What braces around controlled statements change: nothing, unless they cut an else-if chain or hold in
  the pieces of a cut statement. */
module Bracing {
  import opened Basics
  import opened ControlTokens
  import opened ControlReader
  import opened StatementTrees
  import opened CognitiveScore
  import opened ConditionalExpressions

  // ----------------------------------------------------------------- the relation

  /** What may be put into braces besides the plain cases: the `if` that continues an `else`, and
    statements that leave pieces behind. */
  datatype Freedom = Freedom(links: bool, cuts: bool)

  /** `b` is `a` with braces put around any number of controlled statements. */
  predicate Braced(a: Stmt, b: Stmt, f: Freedom)
    decreases a, 0
  {
    a.attributes == b.attributes && BracedNode(a.node, b.node, f)
  }

  predicate BracedNode(a: Node, b: Node, f: Freedom)
    decreases a
  {
    match a
    case Plain(_) => b == a
    case Cut(_) => b == a
    case Block(body) => b.Block? && BracedAll(body, b.body, f)
    case Conditional(head, guarded, alternative) =>
      && b.Conditional?
      && b.head == head
      && BracedBody(guarded, b.guarded, f)
      && BracedAlternative(alternative, b.alternative, f)
    case Controlling(word, header, controlled) =>
      b.Controlling? && b.word == word && b.header == header && BracedBody(controlled, b.controlled, f)
    case DoWhile(controlled, header) => b.DoWhile? && b.header == header && BracedBody(controlled, b.controlled, f)
    case TryCatch(block, handlers) =>
      b.TryCatch? && BracedAll(block, b.block, f) && BracedHandlers(handlers, b.handlers, f)
  }

  /** A controlled statement, kept or put into braces. */
  predicate BracedBody(a: Stmt, b: Stmt, f: Freedom)
    decreases a, 1
  {
    || Braced(a, b, f)
    || (!a.node.Block? && (f.cuts || Left(a) == []) && WrapsOne(b) && Braced(a, b.node.body.first, f))
  }

  predicate WrapsOne(b: Stmt) {
    b.attributes == [] && b.node.Block? && b.node.body.Then? && b.node.body.rest.Done?
  }

  predicate BracedAll(a: Stmts, b: Stmts, f: Freedom)
    decreases a
  {
    match a
    case Done => b.Done?
    case Then(first, rest) => b.Then? && Braced(first, b.first, f) && BracedAll(rest, b.rest, f)
  }

  /** The `if` that continues an `else` is a link of its chain, which braces would cut. */
  predicate BracedAlternative(a: Alternative, b: Alternative, f: Freedom)
    decreases a
  {
    match a
    case NoElse => b.NoElse?
    case ElseBranch(body) =>
      && b.ElseBranch?
      && if body.node.Conditional? && !f.links then Braced(body, b.body, f) else BracedBody(body, b.body, f)
  }

  predicate BracedHandlers(a: Handlers, b: Handlers, f: Freedom)
    decreases a
  {
    match a
    case NoHandler => b.NoHandler?
    case Handler(header, body, rest) =>
      b.Handler? && b.header == header && BracedBody(body, b.body, f) && BracedHandlers(rest, b.rest, f)
  }

  // --------------------------------------------------------------- well-formedness

  lemma {:induction false} BracedOpen(a: Stmt, b: Stmt, token: Token, f: Freedom)
    requires BracedBody(a, b, f) && Open(b, token)
    ensures Open(a, token)
    decreases a, 1
  {
    if Braced(a, b, f) {
      BracedOpenNode(a.node, b.node, token, f);
    }
  }

  lemma {:induction false} BracedOpenNode(a: Node, b: Node, token: Token, f: Freedom)
    requires BracedNode(a, b, f) && OpenNode(b, token)
    ensures OpenNode(a, token)
    decreases a
  {
    match a
    case Plain(_) =>
    case Cut(_) =>
    case Block(_) =>
    case Conditional(_, guarded, NoElse) => if !token.KwElse? { BracedOpen(guarded, b.guarded, token, f); }
    case Conditional(_, _, ElseBranch(body)) => BracedOpen(body, b.alternative.body, token, f);
    case Controlling(_, _, controlled) => BracedOpen(controlled, b.controlled, token, f);
    case DoWhile(_, _) =>
    case TryCatch(_, handlers) => if !token.KwCatch? { BracedOpenHandlers(handlers, b.handlers, token, f); }
  }

  lemma {:induction false} BracedOpenHandlers(a: Handlers, b: Handlers, token: Token, f: Freedom)
    requires BracedHandlers(a, b, f) && OpenHandlers(b, token)
    ensures OpenHandlers(a, token)
    decreases a
  {
    match a
    case NoHandler =>
    case Handler(_, body, NoHandler) => if !token.KwCatch? { BracedOpen(body, b.body, token, f); }
    case Handler(_, _, rest) => BracedOpenHandlers(rest, b.rest, token, f);
  }

  lemma {:induction false} BracedWellFormed(a: Stmt, b: Stmt, f: Freedom)
    requires BracedBody(a, b, f) && WellFormed(a)
    ensures WellFormed(b)
    decreases a, 2
  {
    hide BracedNode, WellFormedNode;
    if Braced(a, b, f) {
      BracedWellFormedNode(a.node, b.node, f);
    } else {
      BracedWellFormedNode(a.node, b.node.body.first.node, f);
      WrappedWellFormed(b);
    }
  }

  lemma WrappedWellFormed(b: Stmt)
    requires WrapsOne(b) && WellFormed(b.node.body.first)
    ensures WellFormed(b)
  {
    assert WellFormedAll(b.node.body.rest);
    assert WellFormedAll(b.node.body);
  }

  lemma {:induction false} BracedWellFormedNode(a: Node, b: Node, f: Freedom)
    requires BracedNode(a, b, f) && WellFormedNode(a)
    ensures WellFormedNode(b)
    decreases a, 1
  {
    hide IsRun, IsHead, IsGroup, IsConstevalHead, WellFormed, Braced, BracedBody, BracedAll, WellFormedAll;
    hide WellFormedHandlers, Open;
    match a
    case Plain(_) =>
    case Cut(_) =>
    case Block(body) => BracedWellFormedAll(body, b.body, f);
    case Conditional(_, _, _) => BracedWellFormedConditional(a, b, f);
    case Controlling(_, _, controlled) => BracedWellFormed(controlled, b.controlled, f);
    case DoWhile(controlled, _) => BracedWellFormed(controlled, b.controlled, f);
    case TryCatch(block, handlers) =>
      BracedWellFormedAll(block, b.block, f);
      BracedWellFormedHandlers(handlers, b.handlers, f);
  }

  lemma {:induction false} BracedWellFormedConditional(a: Node, b: Node, f: Freedom)
    requires a.Conditional? && BracedNode(a, b, f) && WellFormedNode(a)
    ensures WellFormedNode(b)
    decreases a, 0
  {
    hide IsHead, IsConstevalHead, WellFormed, Open;
    BracedWellFormed(a.guarded, b.guarded, f);
    BracedKind(a.guarded, b.guarded, f);
    if a.alternative.ElseBranch? {
      var body, other := a.alternative.body, b.alternative.body;
      assert BracedBody(body, other, f);
      BracedWellFormed(body, other, f);
      BracedKind(body, other, f);
      if Open(b.guarded, KwElse) {
        BracedOpen(a.guarded, b.guarded, KwElse, f);
      }
    }
  }

  lemma BracedKind(a: Stmt, b: Stmt, f: Freedom)
    requires BracedBody(a, b, f)
    ensures a.node.Block? ==> b.node.Block?
    ensures a.node.Conditional? ==> b.node.Conditional? || b.node.Block?
  {
    if Braced(a, b, f) {
      BracedBlock(a.node, b.node, f);
    }
  }

  lemma {:induction false} BracedWellFormedAll(a: Stmts, b: Stmts, f: Freedom)
    requires BracedAll(a, b, f) && WellFormedAll(a)
    ensures WellFormedAll(b)
    decreases a
  {
    hide WellFormed, Braced;
    if a.Then? {
      assert BracedBody(a.first, b.first, f);
      BracedWellFormed(a.first, b.first, f);
      BracedWellFormedAll(a.rest, b.rest, f);
    }
  }

  lemma {:induction false} BracedWellFormedHandlers(a: Handlers, b: Handlers, f: Freedom)
    requires BracedHandlers(a, b, f) && WellFormedHandlers(a)
    ensures WellFormedHandlers(b)
    decreases a
  {
    hide WellFormed, BracedBody, Open, IsGroup;
    if a.Handler? {
      BracedWellFormed(a.body, b.body, f);
      BracedWellFormedHandlers(a.rest, b.rest, f);
      if Open(b.body, KwCatch) {
        BracedOpen(a.body, b.body, KwCatch, f);
      }
    }
  }

  // -------------------------------------------------------------------- pieces left

  lemma {:induction false} BracedLeft(a: Stmt, b: Stmt, f: Freedom)
    requires !f.cuts && BracedBody(a, b, f)
    ensures Left(b) == Left(a)
    decreases a, 1
  {
    hide BracedNode, LeftNode;
    if Braced(a, b, f) {
      BracedLeftNode(a.node, b.node, f);
    } else {
      assert LeftNode(b.node) == [] by { NothingLeft(b.node); }
    }
  }

  lemma NothingLeft(node: Node)
    requires node.Block?
    ensures LeftNode(node) == []
  {
  }

  lemma {:induction false} BracedLeftNode(a: Node, b: Node, f: Freedom)
    requires !f.cuts && BracedNode(a, b, f)
    ensures LeftNode(b) == LeftNode(a)
    decreases a
  {
    hide BracedBody, BracedHandlers, Left;
    match a
    case Conditional(_, guarded, NoElse) => BracedLeft(guarded, b.guarded, f);
    case Conditional(_, _, ElseBranch(body)) =>
      BracedAlternativeBody(a.alternative, b.alternative, f);
      BracedLeft(body, b.alternative.body, f);
    case Controlling(_, _, controlled) => BracedLeft(controlled, b.controlled, f);
    case TryCatch(_, handlers) => BracedLeftHandlers(handlers, b.handlers, f);
    case _ =>
  }

  lemma BracedAlternativeBody(a: Alternative, b: Alternative, f: Freedom)
    requires BracedAlternative(a, b, f)
    ensures a.ElseBranch? ==> b.ElseBranch? && BracedBody(a.body, b.body, f)
  {
    hide BracedNode;
  }

  lemma {:induction false} BracedLeftHandlers(a: Handlers, b: Handlers, f: Freedom)
    requires !f.cuts && BracedHandlers(a, b, f)
    ensures LeftHandlers(b) == LeftHandlers(a)
    decreases a
  {
    hide BracedBody, Left;
    if a.Handler? {
      BracedLeft(a.body, b.body, f);
      BracedLeftHandlers(a.rest, b.rest, f);
    }
  }

  lemma {:induction false} BracedPlaced(a: Stmt, b: Stmt, f: Freedom)
    requires !f.cuts && BracedBody(a, b, f)
    ensures Placed(b) == Placed(a)
    decreases a, 1
  {
    hide BracedNode, PlacedNode;
    if Braced(a, b, f) {
      BracedPlacedNode(a.node, b.node, f);
    } else {
      BracedPlacedNode(a.node, b.node.body.first.node, f);
      WrappedPlaced(b);
    }
  }

  lemma WrappedPlaced(b: Stmt)
    requires WrapsOne(b)
    ensures Placed(b) == Placed(b.node.body.first)
  {
    hide Placed;
    assert Placed(b) == PlacedNode(b.node) by { PlacedIs(b); }
    assert PlacedNode(b.node) == PlacedAll(b.node.body);
    assert PlacedAll(b.node.body.rest);
  }

  lemma PlacedIs(s: Stmt)
    ensures Placed(s) == PlacedNode(s.node)
  {
  }

  lemma {:induction false} BracedPlacedNode(a: Node, b: Node, f: Freedom)
    requires !f.cuts && BracedNode(a, b, f)
    ensures PlacedNode(b) == PlacedNode(a)
    decreases a
  {
    hide Braced, BracedBody, BracedAll, BracedHandlers, Placed, PlacedAll, PlacedHandlers, Left;
    match a
    case Plain(_) =>
    case Cut(_) =>
    case Block(body) => BracedPlacedAll(body, b.body, f);
    case Conditional(_, guarded, alternative) =>
      BracedPlaced(guarded, b.guarded, f);
      BracedLeft(guarded, b.guarded, f);
      BracedAlternativeBody(alternative, b.alternative, f);
      if alternative.ElseBranch? {
        BracedPlaced(alternative.body, b.alternative.body, f);
      }
    case Controlling(_, _, controlled) => BracedPlaced(controlled, b.controlled, f);
    case DoWhile(controlled, _) =>
      BracedPlaced(controlled, b.controlled, f);
      BracedLeft(controlled, b.controlled, f);
    case TryCatch(block, handlers) =>
      BracedPlacedAll(block, b.block, f);
      BracedPlacedHandlers(handlers, b.handlers, f);
  }

  lemma {:induction false} BracedPlacedAll(a: Stmts, b: Stmts, f: Freedom)
    requires !f.cuts && BracedAll(a, b, f)
    ensures PlacedAll(b) == PlacedAll(a)
    decreases a
  {
    hide Braced, Placed;
    if a.Then? {
      BracedPlaced(a.first, b.first, f);
      BracedPlacedAll(a.rest, b.rest, f);
    }
  }

  lemma {:induction false} BracedPlacedHandlers(a: Handlers, b: Handlers, f: Freedom)
    requires !f.cuts && BracedHandlers(a, b, f)
    ensures PlacedHandlers(b) == PlacedHandlers(a)
    decreases a
  {
    hide BracedBody, Placed, Left;
    if a.Handler? {
      BracedPlaced(a.body, b.body, f);
      BracedLeft(a.body, b.body, f);
      BracedPlacedHandlers(a.rest, b.rest, f);
    }
  }

  // ------------------------------------------------------------------- the bounds

  lemma {:induction false} BracedLegal(a: Stmt, b: Stmt, ctx: Context, f: Freedom)
    requires !f.links && !f.cuts && Braced(a, b, f)
    ensures Legal(b, ctx) == Legal(a, ctx)
    decreases a, 1
  {
    hide BracedNode, LegalNode;
    BracedLegalNode(a.node, b.node, ctx.(depth := ctx.depth + 1), 0, f);
  }

  lemma {:induction false} BracedLegalNode(a: Node, b: Node, ctx: Context, chain: nat, f: Freedom)
    requires !f.links && !f.cuts && BracedNode(a, b, f)
    ensures LegalNode(b, ctx, chain) == LegalNode(a, ctx, chain)
    decreases a
  {
    hide Braced, BracedBody, BracedAll, BracedHandlers, LegalBody, LegalAll, LegalHandlers;
    match a
    case Plain(_) =>
    case Cut(_) =>
    case Block(body) => BracedLegalAll(body, b.body, ctx, f);
    case Conditional(_, guarded, alternative) =>
      BracedLegalBody(guarded, b.guarded, ctx, f);
      BracedLegalAlternative(alternative, b.alternative, ctx, chain + 1, f);
    case Controlling(word, _, controlled) => BracedLegalBody(controlled, b.controlled, InHeaded(word, ctx), f);
    case DoWhile(controlled, _) => BracedLegalBody(controlled, b.controlled, InLoop(ctx), f);
    case TryCatch(block, handlers) =>
      BracedLegalAll(block, b.block, ctx, f);
      BracedLegalHandlers(handlers, b.handlers, ctx, f);
  }

  lemma {:induction false} BracedLegalBody(a: Stmt, b: Stmt, ctx: Context, f: Freedom)
    requires !f.links && !f.cuts && BracedBody(a, b, f)
    ensures LegalBody(b, ctx) == LegalBody(a, ctx)
    decreases a, 2
  {
    hide LegalNode;
    if Braced(a, b, f) {
      BracedLegal(a, b, ctx, f);
      if a.node.Block? {
        BracedLegalNode(a.node, b.node, ctx, 0, f);
      }
      BracedBlock(a.node, b.node, f);
    } else {
      BracedLegal(a, b.node.body.first, ctx, f);
      BracedLeft(a, b.node.body.first, f);
      WrappedLegal(b, ctx);
    }
  }

  lemma BracedBlock(a: Node, b: Node, f: Freedom)
    requires BracedNode(a, b, f)
    ensures a.Block? <==> b.Block?
    ensures a.Conditional? <==> b.Conditional?
  {
  }

  lemma WrappedLegal(b: Stmt, ctx: Context)
    requires WrapsOne(b) && Left(b.node.body.first) == []
    ensures LegalBody(b, ctx) == Legal(b.node.body.first, ctx)
  {
    hide Legal;
    assert LegalNode(b.node, ctx, 0) == LegalAll(b.node.body, ctx);
    assert LegalAll(b.node.body.rest, ctx);
  }

  lemma {:induction false} BracedLegalAll(a: Stmts, b: Stmts, ctx: Context, f: Freedom)
    requires !f.links && !f.cuts && BracedAll(a, b, f)
    ensures LegalAll(b, ctx) == LegalAll(a, ctx)
    decreases a
  {
    hide Braced, Legal, Left, LegalRuns;
    if a.Then? {
      BracedLeft(a.first, b.first, f);
      BracedLegal(a.first, b.first, ctx, f);
      BracedLegalAll(a.rest, b.rest, ctx, f);
    }
  }

  lemma {:induction false} BracedLegalAlternative(a: Alternative, b: Alternative, ctx: Context, chain: nat, f: Freedom)
    requires !f.links && !f.cuts && BracedAlternative(a, b, f)
    ensures LegalAlternative(b, ctx, chain) == LegalAlternative(a, ctx, chain)
    decreases a
  {
    hide LegalNode, LegalBody;
    if a.ElseBranch? {
      if a.body.node.Conditional? {
        BracedLegalNode(a.body.node, b.body.node, ctx, chain, f);
      } else {
        BracedLegalBody(a.body, b.body, ctx, f);
      }
      BracedAlternativeKind(a, b, f);
    }
  }

  lemma BracedAlternativeKind(a: Alternative, b: Alternative, f: Freedom)
    requires !f.links && BracedAlternative(a, b, f) && a.ElseBranch?
    ensures a.body.node.Conditional? <==> b.body.node.Conditional?
  {
    hide BracedNode;
    if a.body.node.Conditional? || Braced(a.body, b.body, f) {
      BracedBlock(a.body.node, b.body.node, f);
    }
  }

  lemma {:induction false} BracedLegalHandlers(a: Handlers, b: Handlers, ctx: Context, f: Freedom)
    requires !f.links && !f.cuts && BracedHandlers(a, b, f)
    ensures LegalHandlers(b, ctx) == LegalHandlers(a, ctx)
    decreases a
  {
    hide BracedBody, LegalBody;
    if a.Handler? {
      BracedLegalBody(a.body, b.body, ctx, f);
      BracedLegalHandlers(a.rest, b.rest, ctx, f);
    }
  }

  // -------------------------------------------------------------------- the score

  lemma {:induction false} DeeperScore(s: Stmt, n: nat, m: nat)
    requires n <= m
    ensures Scored(s, n).cognitive <= Scored(s, m).cognitive
    decreases s, 1
  {
    hide ScoredNode;
    DeeperScoreNode(s.node, n, m, true);
  }

  /** The deeper a statement stands, the more it scores. */
  lemma {:induction false} DeeperScoreNode(node: Node, n: nat, m: nat, first: bool)
    requires n <= m
    ensures ScoredNode(node, n, first).cognitive <= ScoredNode(node, m, first).cognitive
    decreases node
  {
    hide ScoredBody, ScoredAll, ScoredHandlers, ScoredAlternative, Max;
    match node
    case Plain(_) =>
    case Cut(_) =>
    case Block(body) => DeeperScoreAll(body, n, m);
    case Conditional(_, guarded, alternative) =>
      DeeperScoreBody(guarded, n + 1, m + 1);
      DeeperScoreAlternative(alternative, n, m);
    case Controlling(_, _, controlled) => DeeperScoreBody(controlled, n + 1, m + 1);
    case DoWhile(controlled, _) => DeeperScoreBody(controlled, n + 1, m + 1);
    case TryCatch(block, handlers) =>
      DeeperScoreAll(block, n, m);
      DeeperScoreHandlers(handlers, n, m);
  }

  lemma {:induction false} DeeperScoreBody(s: Stmt, n: nat, m: nat)
    requires n <= m
    ensures ScoredBody(s, n).cognitive <= ScoredBody(s, m).cognitive
    decreases s, 2
  {
    hide ScoredNode, Max;
    DeeperScoreNode(s.node, n, m, true);
  }

  lemma {:induction false} DeeperScoreAll(body: Stmts, n: nat, m: nat)
    requires n <= m
    ensures ScoredAll(body, n).cognitive <= ScoredAll(body, m).cognitive
    decreases body
  {
    hide Scored, Max;
    if body.Then? {
      DeeperScore(body.first, n, m);
      DeeperScoreAll(body.rest, n, m);
    }
  }

  lemma {:induction false} DeeperScoreAlternative(alternative: Alternative, n: nat, m: nat)
    requires n <= m
    ensures ScoredAlternative(alternative, n).cognitive <= ScoredAlternative(alternative, m).cognitive
    decreases alternative
  {
    hide ScoredNode, ScoredBody, Max;
    if alternative.ElseBranch? {
      DeeperScoreNode(alternative.body.node, n, m, false);
      DeeperScoreBody(alternative.body, n + 1, m + 1);
    }
  }

  lemma {:induction false} DeeperScoreHandlers(handlers: Handlers, n: nat, m: nat)
    requires n <= m
    ensures ScoredHandlers(handlers, n).cognitive <= ScoredHandlers(handlers, m).cognitive
    decreases handlers
  {
    hide ScoredBody, Max;
    if handlers.Handler? {
      DeeperScoreBody(handlers.body, n + 1, m + 1);
      DeeperScoreHandlers(handlers.rest, n, m);
    }
  }

  /** The bracings that leave every else-if chain whole. */
  function Chained(f: Freedom): Freedom {
    f.(links := false)
  }

  /** `y` is `x`, or more, and the same exactly when `kept`. */
  predicate Grows(x: nat, y: nat, kept: bool) {
    x <= y && (x == y <==> kept)
  }

  lemma {:induction false} BracedScore(a: Stmt, b: Stmt, n: nat, f: Freedom)
    requires Braced(a, b, f)
    ensures Grows(Scored(a, n).cognitive, Scored(b, n).cognitive, Braced(a, b, Chained(f)))
    decreases a, 1
  {
    hide BracedNode, ScoredNode;
    BracedScoreNode(a.node, b.node, n, true, f);
  }

  lemma {:induction false} BracedScoreNode(a: Node, b: Node, n: nat, first: bool, f: Freedom)
    requires BracedNode(a, b, f)
    ensures Grows(ScoredNode(a, n, first).cognitive, ScoredNode(b, n, first).cognitive, BracedNode(a, b, Chained(f)))
    decreases a
  {
    hide Braced, BracedBody, BracedAll, BracedHandlers, BracedAlternative, ScoredBody, ScoredAll, ScoredHandlers;
    hide ScoredAlternative, Max;
    match a
    case Plain(_) =>
    case Cut(_) =>
    case Block(body) => BracedScoreAll(body, b.body, n, f);
    case Conditional(_, guarded, alternative) =>
      BracedScoreBody(guarded, b.guarded, n + 1, f);
      BracedScoreAlternative(alternative, b.alternative, n, f);
    case Controlling(_, _, controlled) => BracedScoreBody(controlled, b.controlled, n + 1, f);
    case DoWhile(controlled, _) => BracedScoreBody(controlled, b.controlled, n + 1, f);
    case TryCatch(block, handlers) =>
      BracedScoreAll(block, b.block, n, f);
      BracedScoreHandlers(handlers, b.handlers, n, f);
  }

  lemma {:induction false} BracedScoreBody(a: Stmt, b: Stmt, n: nat, f: Freedom)
    requires BracedBody(a, b, f)
    ensures Grows(ScoredBody(a, n).cognitive, ScoredBody(b, n).cognitive, BracedBody(a, b, Chained(f)))
    decreases a, 2
  {
    hide BracedNode, ScoredNode, Max, Left;
    if Braced(a, b, f) {
      BracedScore(a, b, n, f);
      BracedBlock(a.node, b.node, f);
      Unwrapped(a, b, f);
    } else {
      BracedScore(a, b.node.body.first, n, f);
      WrappedScore(b, n);
      Rewrapped(a, b, f);
    }
  }

  /** A statement kept as it is has not been wrapped. */
  lemma Unwrapped(a: Stmt, b: Stmt, f: Freedom)
    requires Braced(a, b, f)
    ensures BracedBody(a, b, Chained(f)) == Braced(a, b, Chained(f))
  {
    BracedBlock(a.node, b.node, f);
    hide BracedNode;
  }

  lemma Rewrapped(a: Stmt, b: Stmt, f: Freedom)
    requires !Braced(a, b, f) && BracedBody(a, b, f)
    ensures BracedBody(a, b, Chained(f)) == Braced(a, b.node.body.first, Chained(f))
  {
    if Braced(a, b, Chained(f)) {
      BracedBlock(a.node, b.node, Chained(f));
    }
    hide BracedNode;
  }

  lemma WrappedScore(b: Stmt, n: nat)
    requires WrapsOne(b)
    ensures ScoredBody(b, n).cognitive == Scored(b.node.body.first, n).cognitive
  {
    hide Scored, Max;
    assert ScoredNode(b.node, n, true) == ScoredAll(b.node.body, n);
    assert ScoredAll(b.node.body.rest, n) == ZERO;
  }

  lemma {:induction false} BracedScoreAll(a: Stmts, b: Stmts, n: nat, f: Freedom)
    requires BracedAll(a, b, f)
    ensures Grows(ScoredAll(a, n).cognitive, ScoredAll(b, n).cognitive, BracedAll(a, b, Chained(f)))
    decreases a
  {
    hide Braced, Scored, Max;
    if a.Then? {
      BracedScore(a.first, b.first, n, f);
      BracedScoreAll(a.rest, b.rest, n, f);
    }
  }

  lemma {:induction false} BracedScoreAlternative(a: Alternative, b: Alternative, n: nat, f: Freedom)
    requires BracedAlternative(a, b, f)
    ensures Grows(ScoredAlternative(a, n).cognitive, ScoredAlternative(b, n).cognitive,
                  BracedAlternative(a, b, Chained(f)))
    decreases a
  {
    hide BracedNode, ScoredNode, ScoredBody, Max, Left;
    if a.ElseBranch? {
      if !a.body.node.Conditional? {
        BracedScoreBody(a.body, b.body, n + 1, f);
        BracedNoLink(a.body, b.body, f);
      } else if Braced(a.body, b.body, f) {
        BracedScoreNode(a.body.node, b.body.node, n, false, f);
        BracedBlock(a.body.node, b.body.node, f);
      } else {
        LinkScore(a.body, b.body, n, f);
      }
    }
  }

  lemma BracedNoLink(a: Stmt, b: Stmt, f: Freedom)
    requires BracedBody(a, b, f) && !a.node.Conditional?
    ensures !b.node.Conditional?
  {
    if Braced(a, b, f) {
      BracedBlock(a.node, b.node, f);
    }
  }

  /** Braces around the `if` that continues an `else` make it an `if` of its own, one level deeper. */
  lemma {:induction false} LinkScore(a: Stmt, b: Stmt, n: nat, f: Freedom)
    requires a.node.Conditional? && BracedBody(a, b, f) && !Braced(a, b, f)
    ensures ScoredNode(a.node, n, false).cognitive + 1 + n < ScoredBody(b, n + 1).cognitive
    ensures b.node.Block? && !Braced(a, b, Chained(f))
    decreases a, 1
  {
    hide BracedNode, ScoredNode, Max, Left;
    BracedScoreNode(a.node, b.node.body.first.node, n + 1, true, f);
    DeeperScoreNode(a.node, n, n + 1, false);
    FirstLink(a.node, n + 1);
    WrappedScore(b, n + 1);
    if Braced(a, b, Chained(f)) {
      BracedBlock(a.node, b.node, Chained(f));
    }
  }

  lemma FirstLink(node: Node, n: nat)
    requires node.Conditional?
    ensures ScoredNode(node, n, true).cognitive == 1 + n + ScoredNode(node, n, false).cognitive
  {
    hide ScoredBody, ScoredAlternative, Max;
  }

  lemma {:induction false} BracedScoreHandlers(a: Handlers, b: Handlers, n: nat, f: Freedom)
    requires BracedHandlers(a, b, f)
    ensures Grows(ScoredHandlers(a, n).cognitive, ScoredHandlers(b, n).cognitive, BracedHandlers(a, b, Chained(f)))
    decreases a
  {
    hide BracedBody, ScoredBody, Max;
    if a.Handler? {
      BracedScoreBody(a.body, b.body, n + 1, f);
      BracedScoreHandlers(a.rest, b.rest, n, f);
    }
  }

  // ----------------------------------------------------------------- the theorems

  /** Braces around controlled statements never lower the cognitive score, and they keep it exactly when
    none of them cuts an else-if chain. */
  lemma BracingKeepsCognitiveIff(block: Stmts, handlers: Handlers, block2: Stmts, handlers2: Handlers, f: Freedom)
    requires WellFormedAll(block) && WellFormedHandlers(handlers)
    requires BracedAll(block, block2, f) && BracedHandlers(handlers, handlers2, f)
    requires Body(SpellBody(block, handlers)).Parsed? && Body(SpellBody(block2, handlers2)).Parsed?
    ensures Grows(Body(SpellBody(block, handlers)).score.cognitive, Body(SpellBody(block2, handlers2)).score.cognitive,
                  BracedAll(block, block2, Chained(f)) && BracedHandlers(handlers, handlers2, Chained(f)))
  {
    hide Body, SpellBody, WellFormedAll, WellFormedHandlers, BracedAll, BracedHandlers, ScoredAll, ScoredHandlers, Max;
    hide LegalFunction, PlacedAll, PlacedHandlers;
    BracedWellFormedAll(block, block2, f);
    BracedWellFormedHandlers(handlers, handlers2, f);
    BracedScoreAll(block, block2, 0, f);
    BracedScoreHandlers(handlers, handlers2, 0, f);
    BodyIsScored(block, handlers);
    BodyIsScored(block2, handlers2);
  }

  /** Braces around statements that continue no `else` and leave no pieces change neither the verdict of
    the parser nor the cognitive score. */
  lemma BracingKeepsVerdict(block: Stmts, handlers: Handlers, block2: Stmts, handlers2: Handlers)
    requires WellFormedAll(block) && WellFormedHandlers(handlers)
    requires BracedAll(block, block2, Freedom(false, false))
    requires BracedHandlers(handlers, handlers2, Freedom(false, false))
    ensures var before, after := Body(SpellBody(block, handlers)), Body(SpellBody(block2, handlers2));
      && (before.Parsed? <==> after.Parsed?)
      && (before.Parsed? ==> before.score.cognitive == after.score.cognitive)
  {
    hide Body, SpellBody, WellFormedAll, WellFormedHandlers, BracedAll, BracedHandlers, ScoredAll, ScoredHandlers, Max;
    hide LegalAll, LegalHandlers, LegalRuns, LeftHandlers, PlacedAll, PlacedHandlers;
    var f := Freedom(false, false);
    BracedWellFormedAll(block, block2, f);
    BracedWellFormedHandlers(handlers, handlers2, f);
    BracedLegalAll(block, block2, Context(0, 0, 0), f);
    BracedLegalHandlers(handlers, handlers2, Context(0, 0, 0), f);
    BracedLeftHandlers(handlers, handlers2, f);
    BracedPlacedAll(block, block2, f);
    BracedPlacedHandlers(handlers, handlers2, f);
    BracedScoreAll(block, block2, 0, f);
    BracedScoreHandlers(handlers, handlers2, 0, f);
    BodyIsScored(block, handlers);
    BodyIsScored(block2, handlers2);
  }

  function ElseIf(header: seq<Token>, run: seq<Token>): Stmt {
    Stmt([], Conditional(header, Stmt([], Plain(run)), NoElse))
  }

  function InBraces(s: Stmt): Stmt {
    Stmt([], Block(Then(s, Done)))
  }

  /** `else if (h) S` scores 1 + n, and `else { if (h) S }` scores n + 2 more. */
  lemma LinkExample(header: seq<Token>, run: seq<Token>, n: nat)
    ensures var link := ElseIf(header, run);
      && BracedAlternative(ElseBranch(link), ElseBranch(InBraces(link)), Freedom(true, false))
      && ScoredAlternative(ElseBranch(link), n).cognitive == 1 + n
      && ScoredAlternative(ElseBranch(InBraces(link)), n).cognitive == (1 + n) + (n + 2)
  {
    var link := ElseIf(header, run);
    LinkIsBraced(header, run);
    LinkAlone(header, run, n);
    LinkAlone(header, run, n + 1);
    FirstLink(link.node, n + 1);
    WrappedScore(InBraces(link), n + 1);
    hide ScoredBody, ScoredNode;
  }

  lemma LinkAlone(header: seq<Token>, run: seq<Token>, n: nat)
    ensures ScoredNode(ElseIf(header, run).node, n, false).cognitive == 0
  {
    PlainScore(run, n + 1);
    hide ScoredBody;
    assert ScoredAlternative(NoElse, n) == ZERO;
  }

  lemma PlainScore(run: seq<Token>, n: nat)
    ensures ScoredBody(Stmt([], Plain(run)), n) == Score(0, 0, 1)
  {
    assert ScoredNode(Plain(run), n, true) == ZERO;
  }

  lemma LinkIsBraced(header: seq<Token>, run: seq<Token>)
    ensures var link := ElseIf(header, run);
      BracedAlternative(ElseBranch(link), ElseBranch(InBraces(link)), Freedom(true, false))
  {
    var f, plain, link := Freedom(true, false), Stmt([], Plain(run)), ElseIf(header, run);
    assert Left(plain) == [];
    assert LeftNode(link.node) == Left(plain);
    assert BracedNode(plain.node, plain.node, f);
    assert BracedBody(plain, plain, f);
    assert BracedNode(link.node, link.node, f);
    assert Braced(link, link, f);
  }
}
