/** Statements with a colon outside their parentheses and braces, as `x = c ? a : b;`. The parser reads
  such a statement in pieces, and whatever controls it gets the first piece only. */
module ConditionalExpressions {
  import opened Basics
  import opened ControlTokens
  import opened ControlReader
  import opened StatementTrees
  import opened TokenRuns
  import opened CognitiveScore

  // ------------------------------------------------------------- where the parser is stuck

  predicate Stray(token: Token) {
    token.KwElse? || token.KwCatch?
  }

  /** Pieces of a statement stand at `p`, and behind them an `else` or a handler that nobody awaits. */
  ghost predicate PiecesThenStray(t: seq<Token>, p: nat, pieces: seq<seq<Token>>) {
    && Sits(t, p, Flat(pieces)) && (forall piece | piece in pieces :: IsRun(piece))
    && p + |Flat(pieces)| < |t| && Stray(t[p + |Flat(pieces)|])
  }

  ghost predicate Stuck(t: seq<Token>, p: nat) {
    exists pieces :: pieces != [] && PiecesThenStray(t, p, pieces)
  }

  /** Reading fails, or ends where the parser is stuck. */
  ghost predicate Stops(t: seq<Token>, r: Parsed) {
    r.Parsed? ==> Stuck(t, r.pos)
  }

  lemma StuckStarts(t: seq<Token>, p: nat)
    requires Stuck(t, p)
    ensures p < |t| && PlainStart(t[p])
  {
    hide Sits, IsRun, PlainStart;
    var pieces :| pieces != [] && PiecesThenStray(t, p, pieces);
    PieceStarts(t, p, pieces);
  }

  /** A list that goes on where the parser is stuck is refused. */
  lemma StuckIsRefused(t: seq<Token>, p: nat, ctx: Context, n: nat)
    requires Stuck(t, p)
    ensures Statements(t, p, ctx, n) == Rejected
  {
    hide PiecesThenStray, Statements;
    var pieces :| pieces != [] && PiecesThenStray(t, p, pieces);
    StrayRefused(t, p, pieces, ctx, n);
  }

  lemma StrayRefused(t: seq<Token>, p: nat, pieces: seq<seq<Token>>, ctx: Context, n: nat)
    requires PiecesThenStray(t, p, pieces)
    ensures Statements(t, p, ctx, n) == Rejected
  {
    hide Sits, IsRun, Statement, Statements;
    var e := p + |Flat(pieces)|;
    StrayStatement(t, e, ctx, n);
    StatementsContinue(t, e, ctx, n);
    if ctx.depth + 1 <= MAX_NESTING {
      PiecesRead(t, p, pieces, ctx, n);
    } else {
      if pieces != [] {
        PieceStarts(t, p, pieces);
      }
      TooDeep(t, p, ctx, n);
      StatementsContinue(t, p, ctx, n);
    }
  }

  lemma StrayStatement(t: seq<Token>, e: nat, ctx: Context, n: nat)
    requires e < |t| && Stray(t[e])
    ensures Statement(t, e, ctx, n) == Rejected
  {
  }

  lemma TooDeep(t: seq<Token>, p: nat, ctx: Context, n: nat)
    requires p <= |t| && ctx.depth + 1 > MAX_NESTING
    ensures Statement(t, p, ctx, n) == Rejected
  {
  }

  lemma StuckAtTop(t: seq<Token>, p: nat)
    requires Stuck(t, p)
    ensures TopLevel(t, p) == Rejected
  {
    hide PiecesThenStray, TopLevel;
    var pieces :| pieces != [] && PiecesThenStray(t, p, pieces);
    StrayAtTop(t, p, pieces);
  }

  lemma {:induction false} StrayAtTop(t: seq<Token>, p: nat, pieces: seq<seq<Token>>)
    requires PiecesThenStray(t, p, pieces)
    ensures TopLevel(t, p) == Rejected
    decreases |pieces|
  {
    hide Sits, IsRun, Statement, TopLevel, LegalRun;
    if pieces == [] {
      StrayStatement(t, p, Context(0, 0, 0), 0);
      TopLevelContinues(t, p);
    } else {
      SitsSplit(t, p, pieces[0], Flat(pieces[1..]));
      TopPieceStep(t, p, pieces[0]);
      StrayAtTop(t, p + |pieces[0]|, pieces[1..]);
    }
  }

  // ------------------------------------------------------------------ controlled statements

  /** The statement at `p` leaves a piece before an `else` or a handler, or something in it does. */
  ghost predicate Misplaced(t: seq<Token>, p: nat, s: Stmt) {
    !Placed(s) || (Left(s) != [] && p + |Spell(s)| < |t| && Stray(t[p + |Spell(s)|]))
  }

  lemma {:induction false} ControlledStops(t: seq<Token>, p: nat, s: Stmt, ctx: Context, n: nat)
    requires Sits(t, p, Spell(s)) && WellFormed(s) && Misplaced(t, p, s)
    ensures var q := p + |Flat(s.attributes)|;
      && q < |t| && Attributes(t, p) == Parsed(q, ZERO)
      && Stops(t, ControlledBody(t, q, ctx, n))
    decreases s, 3
  {
    hide Sits, SpellNode, WellFormedNode, PlacedNode, Ends, Left, ControlledBody, Attributes, Stuck, IsRun;
    AttributesOf(t, p, s);
    var q := p + |Flat(s.attributes)|;
    if !Placed(s) {
      BodyStops(t, q, s, ctx, n);
    } else {
      LeavesPieces(t, p, s);
      SettledBy(t, p + Ends(s), s);
      SettledIsNode(t, p + Ends(s), s);
      BodyReads(t, q, s, ctx, n);
    }
  }

  /** Pieces left before an `else` or a handler are where the parser is stuck. */
  lemma LeavesPieces(t: seq<Token>, p: nat, s: Stmt)
    requires Sits(t, p, Spell(s)) && WellFormed(s) && Left(s) != []
    ensures p + Ends(s) < |t| && PlainStart(t[p + Ends(s)])
    ensures p + |Spell(s)| < |t| && Stray(t[p + |Spell(s)|]) ==> Stuck(t, p + Ends(s))
  {
    hide Sits, Spell, Ends, Left, WellFormed, IsRun, PlainStart;
    LeftSits(t, p, s);
    PieceStarts(t, p + Ends(s), Left(s));
    assert p + |Spell(s)| < |t| && Stray(t[p + |Spell(s)|]) ==> PiecesThenStray(t, p + Ends(s), Left(s));
  }

  lemma {:induction false} BodyStops(t: seq<Token>, q: nat, s: Stmt, ctx: Context, n: nat)
    requires WellFormed(s) && Sits(t, q, SpellNode(s.node)) && q < |t| && Attributes(t, q) == Parsed(q, ZERO)
    requires !Placed(s)
    ensures Stops(t, ControlledBody(t, q, ctx, n))
    decreases s, 2
  {
    hide PlacedNode, Statement, SpellNode, WellFormedNode, Sits, Attributes, Compound, Try, Control, Simple, Stuck;
    NodeStarts(s.node);
    SitsAt(t, q, SpellNode(s.node), 0);
    if s.node.Block? {
      NodeStops(t, q, s.node, ctx, n);
    } else {
      StatementDispatches(t, q, q, ctx, n);
      NodeStops(t, q, s.node, ctx.(depth := ctx.depth + 1), n);
    }
  }

  lemma {:induction false} StatementStops(t: seq<Token>, p: nat, s: Stmt, ctx: Context, n: nat)
    requires Sits(t, p, Spell(s)) && WellFormed(s) && !Placed(s)
    ensures Stops(t, Statement(t, p, ctx, n))
    decreases s, 2
  {
    hide Statement, Spell, SpellNode, PlacedNode, WellFormedNode, Dispatch, Sits, Attributes, Stuck;
    AttributesOf(t, p, s);
    var q := p + |Flat(s.attributes)|;
    StatementDispatches(t, p, q, ctx, n);
    NodeStops(t, q, s.node, ctx.(depth := ctx.depth + 1), n);
  }

  lemma {:induction false} NodeStops(t: seq<Token>, p: nat, node: Node, ctx: Context, n: nat)
    requires Sits(t, p, SpellNode(node)) && WellFormedNode(node) && !PlacedNode(node)
    ensures p < |t| && Stops(t, Dispatch(t, p, ctx, n))
    decreases node, 3
  {
    hide Dispatch, SpellNode, WellFormedNode, Sits, Stuck;
    match node
    case Plain(_) =>
    case Cut(_) =>
    case Block(body) => BlockDispatches(t, p, body, ctx, n); BlockStops(t, p, body, ctx, n);
    case Conditional(_, _, _) => ConditionalDispatches(t, p, node, ctx, n); ConditionalStops(t, p, node, ctx, n, 0);
    case Controlling(_, _, _) => ControllingStops(t, p, node, ctx, n);
    case DoWhile(_, _) => DoWhileStops(t, p, node, ctx, n);
    case TryCatch(_, _) => TryCatchStops(t, p, node, ctx, n);
  }

  // ---------------------------------------------------------------------------- lists

  lemma BlockDispatches(t: seq<Token>, p: nat, body: Stmts, ctx: Context, n: nat)
    requires Sits(t, p, SpellNode(Block(body))) && WellFormedNode(Block(body))
    ensures p < |t| && Dispatch(t, p, ctx, n) == Compound(t, p, ctx, n)
    ensures Sits(t, p, SpellBlock(body)) && WellFormedAll(body)
  {
    hide Sits, SpellAll, WellFormedAll, Compound;
    SitsWord(t, p, OpenBrace, SpellAll(body) + [CloseBrace]);
  }

  lemma {:induction false} BlockStops(t: seq<Token>, p: nat, body: Stmts, ctx: Context, n: nat)
    requires Sits(t, p, SpellBlock(body)) && WellFormedAll(body) && !PlacedAll(body)
    ensures At(t, p, OpenBrace) && Compound(t, p, ctx, n) == Rejected
    decreases body, 2
  {
    hide Statements, Sits, WellFormedAll, PlacedAll, SpellAll;
    SitsWord(t, p, OpenBrace, SpellAll(body) + [CloseBrace]);
    SitsSplit(t, p + 1, SpellAll(body), [CloseBrace]);
    SitsAt(t, p + 1 + |SpellAll(body)|, [CloseBrace], 0);
    StatementsStop(t, p + 1, body, ctx, n);
  }

  lemma {:induction false} StatementsStop(t: seq<Token>, p: nat, body: Stmts, ctx: Context, n: nat)
    requires Sits(t, p, SpellAll(body)) && WellFormedAll(body) && !PlacedAll(body)
    requires At(t, p + |SpellAll(body)|, CloseBrace)
    ensures Statements(t, p, ctx, n) == Rejected
    decreases body, 1
  {
    hide Statement, Statements, Sits, WellFormed, Placed, Spell, SpellAll, Ends, Left, LegalRuns, Legal, Scored;
    hide IsRun, Stuck;
    FirstSplits(t, p, body);
    StatementsContinue(t, p, ctx, n);
    if !Placed(body.first) {
      StatementStops(t, p, body.first, ctx, n);
      if Statement(t, p, ctx, n).Parsed? {
        StuckIsRefused(t, Statement(t, p, ctx, n).pos, ctx, n);
      }
    } else {
      StatementReads(t, p, body.first, ctx, n);
      StatementsStop(t, p + |Spell(body.first)|, body.rest, ctx, n);
      if Legal(body.first, ctx) {
        LegalFits(body.first, ctx);
        PiecesRead(t, p + Ends(body.first), Left(body.first), ctx, n);
      }
    }
  }

  // --------------------------------------------------------------------- conditionals

  lemma {:induction false} ConditionalStops(t: seq<Token>, p: nat, node: Node, ctx: Context, n: nat, chain: nat)
    requires node.Conditional? && Sits(t, p, SpellNode(node)) && WellFormedNode(node) && !PlacedNode(node)
    ensures Stops(t, If(t, p, ctx, n, chain))
    decreases node, 2
  {
    hide IfThen, Else, Sits, Spell, SpellNode, Ends, Left, Placed, WellFormed, WellFormedAlternative, LegalBody;
    hide ScoredBody, IsHead, IsConsteval, IsConstevalHead, Open, Plus, Stuck;
    ConditionalSplits(t, p, node);
    var b := p + 1 + |node.head|;
    if Misplaced(t, b, node.guarded) {
      GuardedStops(t, p, node, ctx, n, chain == 0);
      IfStopped(t, p, ctx, n, chain);
    } else {
      GuardedFits(t, b, node);
      GuardedReads(t, p, node, ctx, n, chain == 0);
      AlternativeStops(t, b + Ends(node.guarded), node, ctx, n, chain);
    }
  }

  lemma GuardedFits(t: seq<Token>, b: nat, node: Node)
    requires node.Conditional? && node.alternative.ElseBranch? && WellFormedNode(node)
    requires Sits(t, b, Spell(node.guarded)) && Left(node.guarded) == [] && At(t, b + |Spell(node.guarded)|, KwElse)
    ensures b + Ends(node.guarded) == b + |Spell(node.guarded)| && Settled(t, b + Ends(node.guarded), node.guarded)
  {
    hide Sits, Spell, Ends, Left, WellFormed, WellFormedAlternative, IsHead, IsConstevalHead, Open;
    LeftSits(t, b, node.guarded);
    assert Flat(Left(node.guarded)) == [];
  }

  lemma {:induction false} GuardedStops(t: seq<Token>, p: nat, node: Node, ctx: Context, n: nat, scored: bool)
    requires node.Conditional? && WellFormedNode(node) && At(t, p, KwIf) && Sits(t, p + 1, node.head)
    requires Sits(t, p + 1 + |node.head|, Spell(node.guarded)) && Misplaced(t, p + 1 + |node.head|, node.guarded)
    ensures Stops(t, IfThen(t, p, ctx, n, scored))
    decreases node, 1
  {
    hide Sits, Spell, SpellNode, IsHead, IsConsteval, IsConstevalHead, IfHead, Misplaced, Stuck;
    hide Plus, Points, ControlledBody, Attributes, Open;
    HeadReads(t, p + 1, node.head);
    ControlledStops(t, p + 1 + |node.head|, node.guarded, ctx, n + 1);
  }

  /** No `else` stands where the parser is stuck. */
  lemma IfStopped(t: seq<Token>, p: nat, ctx: Context, n: nat, chain: nat)
    requires p <= |t| && Stops(t, IfThen(t, p, ctx, n, chain == 0))
    ensures Stops(t, If(t, p, ctx, n, chain))
  {
    hide IfThen, Else, IsConsteval, Plus, Stuck;
    var first := IfThen(t, p, ctx, n, chain == 0);
    if first.Parsed? {
      StuckStarts(t, first.pos);
      NothingElse(t, first.pos, ctx, n, chain, IsConsteval(t, p + 1));
    }
  }

  lemma {:induction false} AlternativeStops(t: seq<Token>, e: nat, node: Node, ctx: Context, n: nat, chain: nat)
    requires node.Conditional? && node.alternative.ElseBranch? && WellFormedNode(node) && !Placed(node.alternative.body)
    requires At(t, e, KwElse) && Sits(t, e + 1, Spell(node.alternative.body))
    ensures Stops(t, Else(t, e, ctx, n, chain, IsConstevalHead(node.head)))
    decreases node, 1
  {
    hide Sits, Spell, SpellNode, IsHead, IsConstevalHead, Plus, Points, ControlledBody, Attributes, If, Else, Open;
    hide Left, Stuck;
    var body := node.alternative.body;
    AttributesOf(t, e + 1, body);
    NodeStarts(body.node);
    var f := e + 1 + |Flat(body.attributes)|;
    ElseContinues(t, e, f, ctx, n, chain, IsConstevalHead(node.head));
    if body.node.Conditional? {
      ConditionalStops(t, f, body.node, ctx, n, chain + 1);
    } else {
      BodyStops(t, f, body, ctx, n + 1);
    }
  }

  // -------------------------------------------------------------------- other controls

  lemma {:induction false} ControllingStops(t: seq<Token>, p: nat, node: Node, ctx: Context, n: nat)
    requires node.Controlling? && Sits(t, p, SpellNode(node)) && WellFormedNode(node) && !PlacedNode(node)
    ensures p < |t| && Stops(t, Dispatch(t, p, ctx, n))
    decreases node, 1
  {
    hide Sits, Spell, SpellNode, WellFormed, IsGroup, Plus, Points, ControlledBody, Attributes, Balanced, Placed, Stuck;
    ControllingSplits(t, p, node);
    GroupReads(t, p + 1, node.header, OpenParen, CloseParen);
    ControlledStops(t, p + 1 + |node.header|, node.controlled, InHeaded(node.word, ctx), n + 1);
    assert Dispatch(t, p, ctx, n) == Headed(t, p, ctx, n);
  }

  /** A `do` body must be followed by its `while` at once. */
  lemma {:induction false} DoWhileStops(t: seq<Token>, p: nat, node: Node, ctx: Context, n: nat)
    requires node.DoWhile? && Sits(t, p, SpellNode(node)) && WellFormedNode(node) && !PlacedNode(node)
    ensures p < |t| && Dispatch(t, p, ctx, n) == Rejected
    decreases node, 1
  {
    hide Sits, Spell, SpellNode, WellFormed, IsGroup, Plus, Points, ControlledBody, Attributes, Placed, Left, Ends;
    hide Stuck, DoTail;
    DoWhileSplits(t, p, node);
    AttributesOf(t, p + 1, node.controlled);
    var b := p + 1 + |Flat(node.controlled.attributes)|;
    var body := ControlledBody(t, b, InLoop(ctx), n + 1);
    if !Placed(node.controlled) {
      ControlledStops(t, p + 1, node.controlled, InLoop(ctx), n + 1);
      if body.Parsed? {
        StuckStarts(t, body.pos);
      }
    } else {
      LeavesPieces(t, p + 1, node.controlled);
      SettledBy(t, p + 1 + Ends(node.controlled), node.controlled);
      SettledIsNode(t, p + 1 + Ends(node.controlled), node.controlled);
      BodyReads(t, b, node.controlled, InLoop(ctx), n + 1);
    }
    if body.Parsed? {
      NoTail(t, body.pos);
    }
    assert Dispatch(t, p, ctx, n) == Do(t, p, ctx, n);
  }

  lemma DoWhileSplits(t: seq<Token>, p: nat, node: Node)
    requires node.DoWhile? && Sits(t, p, SpellNode(node))
    ensures At(t, p, KwDo) && Sits(t, p + 1, Spell(node.controlled))
  {
    hide Sits, Spell;
    var tail := [KwWhile] + (node.header + [Semicolon]);
    SitsWord(t, p, KwDo, Spell(node.controlled) + tail);
    SitsSplit(t, p + 1, Spell(node.controlled), tail);
  }

  lemma NoTail(t: seq<Token>, p: nat)
    requires p < |t| && PlainStart(t[p])
    ensures DoTail(t, p) == Rejected
  {
  }

  lemma {:induction false} TryCatchStops(t: seq<Token>, p: nat, node: Node, ctx: Context, n: nat)
    requires node.TryCatch? && Sits(t, p, SpellNode(node)) && WellFormedNode(node) && !PlacedNode(node)
    ensures p < |t| && Stops(t, Dispatch(t, p, ctx, n))
    decreases node, 1
  {
    hide Sits, SpellBlock, SpellHandlers, WellFormedAll, LegalAll, ScoredAll, WellFormedHandlers, Stuck;
    hide Plus, Compound, Catches, Spell, Control, Simple, PlacedAll, PlacedHandlers;
    TryCatchSplits(t, p, node);
    if !PlacedAll(node.block) {
      BlockStops(t, p + 1, node.block, ctx, n);
    } else {
      BlockReads(t, p + 1, node.block, ctx, n);
      HandlersStop(t, p + 1 + |SpellBlock(node.block)|, node.handlers, ctx, n);
    }
    assert Dispatch(t, p, ctx, n) == Try(t, p, ctx, n);
  }

  lemma {:induction false} HandlersStop(t: seq<Token>, p: nat, handlers: Handlers, ctx: Context, n: nat)
    requires Sits(t, p, SpellHandlers(handlers)) && WellFormedHandlers(handlers) && !PlacedHandlers(handlers)
    ensures p <= |t| && Stops(t, Catches(t, p, ctx, n))
    decreases handlers, 2
  {
    hide Sits, Spell, Ends, Left, SpellHandlers, WellFormed, Placed, LegalBody, ScoredBody, IsGroup, Plus, Points;
    hide Catch;
    hide Catches, Open, OpenHandlers, Stuck;
    HandlerSplits(t, p, handlers);
    CatchesContinue(t, p, ctx, n);
    var b := p + 1 + |handlers.header|;
    NextHandler(t, b + |Spell(handlers.body)|, handlers.rest);
    if Misplaced(t, b, handlers.body) {
      HandlerStops(t, p, handlers, ctx, n);
      CatchesStopped(t, Catch(t, p, ctx, n), ctx, n);
    } else {
      HandlerFits(t, b, handlers);
      HandlerReads(t, p, handlers, ctx, n);
      HandlersStop(t, b + |Spell(handlers.body)|, handlers.rest, ctx, n);
    }
  }

  lemma NextHandler(t: seq<Token>, e: nat, handlers: Handlers)
    requires Sits(t, e, SpellHandlers(handlers))
    ensures handlers.Handler? ==> At(t, e, KwCatch)
  {
    hide Sits, Spell;
    HandlerSplits(t, e, handlers);
  }

  lemma HandlerFits(t: seq<Token>, b: nat, handlers: Handlers)
    requires handlers.Handler? && handlers.rest.Handler? && WellFormedHandlers(handlers)
    requires Sits(t, b, Spell(handlers.body))
    requires Left(handlers.body) == [] && At(t, b + |Spell(handlers.body)|, KwCatch)
    ensures b + Ends(handlers.body) == b + |Spell(handlers.body)| && Settled(t, b + Ends(handlers.body), handlers.body)
  {
    hide Sits, Spell, Ends, Left, WellFormed, IsGroup, Open;
    LeftSits(t, b, handlers.body);
    assert Flat(Left(handlers.body)) == [];
  }

  lemma {:induction false} HandlerStops(t: seq<Token>, p: nat, handlers: Handlers, ctx: Context, n: nat)
    requires handlers.Handler? && WellFormedHandlers(handlers) && At(t, p, KwCatch) && Sits(t, p + 1, handlers.header)
    requires Sits(t, p + 1 + |handlers.header|, Spell(handlers.body))
    requires Misplaced(t, p + 1 + |handlers.header|, handlers.body)
    ensures Stops(t, Catch(t, p, ctx, n))
    decreases handlers, 1
  {
    hide Sits, Spell, WellFormed, IsGroup, Plus, Points, ControlledBody, Attributes, Balanced, Open, Misplaced, Stuck;
    GroupReads(t, p + 1, handlers.header, OpenParen, CloseParen);
    ControlledStops(t, p + 1 + |handlers.header|, handlers.body, ctx, n + 1);
  }

  lemma CatchesStopped(t: seq<Token>, first: Parsed, ctx: Context, n: nat)
    requires Stops(t, first)
    ensures first.Parsed? ==> first.pos <= |t| && Catches(t, first.pos, ctx, n) == Parsed(first.pos, ZERO)
  {
    hide Stuck, Catch;
    if first.Parsed? {
      StuckStarts(t, first.pos);
    }
  }

  // ------------------------------------------------------------------------ the theorem

  /** The verdict on every function body: a tree is accepted, and scored as the recursive definition
    says, exactly when it stays within the bounds and no piece of a cut statement stands before an
    `else`, before the `while` of a `do`, or before a further handler. */
  lemma BodyIsScored(block: Stmts, handlers: Handlers)
    requires WellFormedAll(block) && WellFormedHandlers(handlers)
    ensures Body(SpellBody(block, handlers))
            == Outcome(LegalFunction(block, handlers) && PlacedAll(block) && PlacedHandlers(handlers),
                       |SpellBody(block, handlers)|, Plus(ScoredAll(block, 0), ScoredHandlers(handlers, 0)))
  {
    hide LegalFunction, PlacedAll, PlacedHandlers, WellFormedAll, WellFormedHandlers, Body, SpellBody, Plus;
    if PlacedAll(block) && PlacedHandlers(handlers) {
      PlacedBodyIsScored(block, handlers);
    } else {
      BodyRefused(block, handlers);
    }
  }

  lemma BodyRefused(block: Stmts, handlers: Handlers)
    requires WellFormedAll(block) && WellFormedHandlers(handlers) && !(PlacedAll(block) && PlacedHandlers(handlers))
    ensures Body(SpellBody(block, handlers)) == Rejected
  {
    hide Compound, Catches, TopLevel, SpellBlock, SpellHandlers, PlacedAll, PlacedHandlers, WellFormedAll;
    hide WellFormedHandlers, LegalAll, ScoredAll, Sits, Stuck;
    var t, ctx := SpellBody(block, handlers), Context(0, 0, 0);
    SitsWhole(t);
    SitsSplit(t, 0, SpellBlock(block), SpellHandlers(handlers));
    if !PlacedAll(block) {
      BlockStops(t, 0, block, ctx, 0);
    } else {
      BlockReads(t, 0, block, ctx, 0);
      HandlersStop(t, |SpellBlock(block)|, handlers, ctx, 0);
      var rest := Catches(t, |SpellBlock(block)|, ctx, 0);
      if rest.Parsed? {
        StuckAtTop(t, rest.pos);
      }
    }
  }

  // --------------------------------------------------------------------------- special cases

  /** `{ if (...) S else T }`, with `S` given by its pieces. */
  function IfElseTree(header: seq<Token>, pieces: seq<seq<Token>>, other: Stmt): Stmts {
    Then(Stmt([], Conditional(header, Stmt([], Cut(pieces)), ElseBranch(other))), Done)
  }

  /** Within the bounds, such a body is accepted exactly when the statement before the `else` has no
    colon outside its parentheses and braces. */
  lemma AcceptedIffOnePiece(header: seq<Token>, pieces: seq<seq<Token>>, other: Stmt)
    requires IsGroup(header, OpenParen, CloseParen) && IsCut(pieces) && WellFormed(other) && Placed(other)
    requires LegalFunction(IfElseTree(header, pieces, other), NoHandler)
    ensures Body(SpellBody(IfElseTree(header, pieces, other), NoHandler)).Parsed? <==> |pieces| == 1
  {
    hide IsGroup, IsCut, LegalFunction, Body, SpellBody;
    var tree := IfElseTree(header, pieces, other);
    IfElseWellFormed(header, pieces, other);
    var cut := Stmt([], Cut(pieces));
    assert Placed(cut) && (Left(cut) == [] <==> |pieces| == 1);
    assert PlacedNode(tree.first.node) <==> |pieces| == 1;
    assert PlacedAll(Done);
    assert PlacedHandlers(NoHandler);
    BodyIsScored(tree, NoHandler);
  }

  lemma IfElseWellFormed(header: seq<Token>, pieces: seq<seq<Token>>, other: Stmt)
    requires IsGroup(header, OpenParen, CloseParen) && IsCut(pieces) && WellFormed(other)
    ensures WellFormedAll(IfElseTree(header, pieces, other)) && WellFormedHandlers(NoHandler) && pieces != []
  {
    hide IsRun, WellFormed;
    var cut := Stmt([], Cut(pieces));
    BareStatement(cut.node);
    assert WellFormed(cut) && !Open(cut, KwElse);
    assert WellFormedAlternative(ElseBranch(other));
    GroupIsNoKeyword(header);
    BareStatement(Conditional(header, cut, ElseBranch(other)));
    assert WellFormedAll(Done);
  }

  lemma BareStatement(node: Node)
    ensures Spell(Stmt([], node)) == SpellNode(node)
    ensures WellFormedNode(node) ==> WellFormed(Stmt([], node))
  {
  }

  lemma GroupIsNoKeyword(header: seq<Token>)
    requires IsGroup(header, OpenParen, CloseParen)
    ensures IsHead(header) && !IsConstevalHead(header)
  {
  }

  // -------------------------------------------------------------------------------- inputs

  predicate IsBracket(token: Token) {
    token.OpenParen? || token.CloseParen? || token.OpenBrace? || token.CloseBrace?
  }

  /** A token run without parentheses and braces. */
  lemma FlatRun(run: seq<Token>)
    requires run != [] && PlainStart(run[0]) && Terminates(run[|run| - 1])
    requires forall token | token in run :: !IsBracket(token)
    requires forall i | 0 <= i < |run| - 1 :: !Terminates(run[i]) && !StartsFlow(run[i])
    ensures IsRun(run)
  {
    forall i: nat | i <= |run|
      ensures Outside(run, i) && NetHolds(run, i)
    {
      FlatPrefix(run, i);
    }
  }

  lemma {:induction false} FlatPrefix(run: seq<Token>, i: nat)
    requires i <= |run| && forall token | token in run :: !IsBracket(token)
    ensures Outside(run, i)
  {
    if i > 0 {
      FlatPrefix(run, i - 1);
      assert !IsBracket(run[i - 1]);
    }
  }

  /** A body that holds one statement is refused when the statement leaves a piece where none may stand. */
  lemma OnlyStatement(node: Node)
    requires WellFormedNode(node) && (!PlacedNode(node) || !LegalRuns(LeftNode(node), Context(0, 0, 0)))
    ensures Body([OpenBrace] + SpellNode(node) + [CloseBrace]) == Rejected
  {
    hide WellFormedNode, PlacedNode, LeftNode, SpellNode, Body, LegalRuns, Legal;
    var tree := Then(Stmt([], node), Done);
    BareStatement(node);
    assert SpellAll(Done) == [] && SpellHandlers(NoHandler) == [];
    assert SpellAll(tree) == SpellNode(node);
    assert SpellBody(tree, NoHandler) == [OpenBrace] + SpellNode(node) + [CloseBrace];
    assert WellFormedAll(Done) && WellFormedHandlers(NoHandler);
    BodyIsScored(tree, NoHandler);
  }

  /** What a statement in two pieces spells, and what it leaves. */
  lemma TwoPieces(first: seq<Token>, second: seq<Token>)
    requires IsRun(first) && IsRun(second) && EndsWith(first, Colon) && EndsWith(second, Semicolon)
    ensures var cut := Stmt([], Cut([first, second]));
      Spell(cut) == first + second && WellFormed(cut) && Left(cut) == [second]
  {
    hide IsRun;
    var pieces := [first, second];
    assert pieces[1..] == [second];
    assert [second][1..] == [];
    assert Flat([second]) == second;
    BareStatement(Cut(pieces));
  }

  lemma ShortHeader(x: Token)
    requires x.Other?
    ensures IsGroup([OpenParen, x, CloseParen], OpenParen, CloseParen)
  {
    assert Balance([OpenParen, x, CloseParen], 2, OpenParen, CloseParen, 1) == Some(3);
  }

  /** `{ do x = c ? a : b; while (y); }` is refused; an assignment sign is no token. */
  lemma DoExample(x: Token, c: Token, a: Token, b: Token, y: Token)
    requires x.Other? && c.Other? && a.Other? && b.Other? && y.Other?
    ensures Body([OpenBrace, KwDo, x, c, Question, a, Colon, b, Semicolon,
                  KwWhile, OpenParen, y, CloseParen, Semicolon, CloseBrace]) == Rejected
  {
    hide IsRun, IsGroup, Body;
    var first, second, header := [x, c, Question, a, Colon], [b, Semicolon], [OpenParen, y, CloseParen];
    FlatRun(first);
    FlatRun(second);
    TwoPieces(first, second);
    ShortHeader(y);
    hide Spell, WellFormed, Left, Placed;
    var node := DoWhile(Stmt([], Cut([first, second])), header);
    OnlyStatement(node);
    hide *;
    assert [OpenBrace] + ([KwDo] + (first + second + ([KwWhile] + (header + [Semicolon])))) + [CloseBrace]
      == [OpenBrace, KwDo, x, c, Question, a, Colon, b, Semicolon,
          KwWhile, OpenParen, y, CloseParen, Semicolon, CloseBrace];
  }

  /** `{ switch (x) case k: break; }` is refused: `break;` is the second piece, which is read outside the
    switch. */
  lemma SwitchExample(x: Token, k: Token)
    requires x.Other? && k.Other?
    ensures Body([OpenBrace, KwSwitch, OpenParen, x, CloseParen, KwCase, k, Colon,
                  KwBreak, Semicolon, CloseBrace]) == Rejected
  {
    hide IsRun, IsGroup, Body;
    var first, second, header := [KwCase, k, Colon], [KwBreak, Semicolon], [OpenParen, x, CloseParen];
    FlatRun(first);
    FlatRun(second);
    TwoPieces(first, second);
    ShortHeader(x);
    hide Spell, WellFormed, Left, Placed;
    var node := Controlling(KwSwitch, header, Stmt([], Cut([first, second])));
    assert second in LeftNode(node) && !LegalRun(second, Context(0, 0, 0));
    OnlyStatement(node);
    hide *;
    assert [OpenBrace] + ([KwSwitch] + (header + (first + second))) + [CloseBrace]
      == [OpenBrace, KwSwitch, OpenParen, x, CloseParen, KwCase, k, Colon, KwBreak, Semicolon, CloseBrace];
  }

  /** A statement in two pieces before an `else`. */
  lemma TwoPiecesThenElse(header: seq<Token>, first: seq<Token>, second: seq<Token>, last: seq<Token>)
    requires IsGroup(header, OpenParen, CloseParen) && IsRun(first) && IsRun(second) && IsRun(last)
    requires EndsWith(first, Colon) && EndsWith(second, Semicolon)
    ensures Body([OpenBrace] + ([KwIf] + (header + (first + second + ([KwElse] + last)))) + [CloseBrace]) == Rejected
  {
    hide IsRun, IsGroup, IsHead, IsConstevalHead, Body;
    TwoPieces(first, second);
    BareStatement(Plain(last));
    GroupIsNoKeyword(header);
    var cut, other := Stmt([], Cut([first, second])), Stmt([], Plain(last));
    assert !Open(cut, KwElse);
    hide Spell, WellFormed, Left, Placed, Open;
    assert WellFormedAlternative(ElseBranch(other));
    OnlyStatement(Conditional(header, cut, ElseBranch(other)));
  }

  /** `{ if (x) v[c ? a : b]; else y; }` is refused: square brackets do not hide the colon. */
  lemma IndexExample(x: Token, v: Token, c: Token, a: Token, b: Token, y: Token)
    requires x.Other? && v.Other? && c.Other? && a.Other? && b.Other? && y.Other?
    ensures Body([OpenBrace, KwIf, OpenParen, x, CloseParen, v, OpenBracket, c, Question, a, Colon,
                  b, CloseBracket, Semicolon, KwElse, y, Semicolon, CloseBrace]) == Rejected
  {
    hide IsRun, IsGroup, Body;
    var first, second := [v, OpenBracket, c, Question, a, Colon], [b, CloseBracket, Semicolon];
    var header, last := [OpenParen, x, CloseParen], [y, Semicolon];
    FlatRun(first);
    FlatRun(second);
    FlatRun(last);
    ShortHeader(x);
    TwoPiecesThenElse(header, first, second, last);
    hide *;
    assert [OpenBrace] + ([KwIf] + (header + (first + second + ([KwElse] + last)))) + [CloseBrace]
      == [OpenBrace, KwIf, OpenParen, x, CloseParen, v, OpenBracket, c, Question, a, Colon,
          b, CloseBracket, Semicolon, KwElse, y, Semicolon, CloseBrace];
  }
}
