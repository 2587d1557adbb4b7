/** What the control-flow parser computes on spelled statement trees. */
module CognitiveScore {
  import opened ControlTokens
  import opened ControlReader
  import opened StatementTrees
  import opened TokenRuns

  /** The expected outcome: everything is read and scored, or the input is refused. */
  function Outcome(legal: bool, end: nat, score: Score): Parsed {
    if legal then Parsed(end, score) else Rejected
  }

  /** The token at `e` does not continue the statement that ends there. */
  predicate Settled(t: seq<Token>, e: nat, s: Stmt) {
    e < |t| ==> !Open(s, t[e])
  }

  predicate SettledNode(t: seq<Token>, e: nat, node: Node) {
    e < |t| ==> !OpenNode(node, t[e])
  }

  // ------------------------------------------------------------------ first tokens

  lemma NodeStarts(node: Node)
    requires WellFormedNode(node)
    ensures var x := SpellNode(node);
      && x != []
      && !x[0].OpenAttribute? && !x[0].KwElse? && !x[0].KwCatch? && !x[0].CloseBrace?
      && (x[0].OpenBrace? <==> node.Block?)
      && (x[0].KwIf? <==> node.Conditional?)
      && (node.Plain? || node.Cut? ==> PlainStart(x[0]))
  {
    if node.Cut? {
      assert IsRun(node.pieces[0]);
    }
  }

  lemma StatementStarts(s: Stmt)
    requires WellFormed(s)
    ensures Spell(s) != [] && !Spell(s)[0].KwElse? && !Spell(s)[0].KwCatch? && !Spell(s)[0].CloseBrace?
  {
    NodeStarts(s.node);
    if s.attributes != [] {
      assert IsGroup(s.attributes[0], OpenAttribute, CloseAttribute);
      assert Spell(s)[0] == s.attributes[0][0];
    }
  }

  lemma {:induction false} OpenOnly(node: Node, token: Token)
    requires OpenNode(node, token)
    ensures token.KwElse? || token.KwCatch?
    decreases node
  {
    match node
    case Conditional(_, guarded, NoElse) => if !token.KwElse? { OpenOnly(guarded.node, token); }
    case Conditional(_, _, ElseBranch(body)) => OpenOnly(body.node, token);
    case Controlling(_, _, controlled) => OpenOnly(controlled.node, token);
    case TryCatch(_, handlers) => if !token.KwCatch? { OpenHandlersOnly(handlers, token); }
    case _ =>
  }

  lemma {:induction false} OpenHandlersOnly(handlers: Handlers, token: Token)
    requires OpenHandlers(handlers, token)
    ensures token.KwElse? || token.KwCatch?
    decreases handlers
  {
    match handlers
    case Handler(_, body, NoHandler) => if !token.KwCatch? { OpenOnly(body.node, token); }
    case Handler(_, _, rest) => OpenHandlersOnly(rest, token);
    case NoHandler =>
  }

  /** What follows is neither `else` nor `catch`. */
  lemma SettledBy(t: seq<Token>, e: nat, s: Stmt)
    requires e < |t| ==> !t[e].KwElse? && !t[e].KwCatch?
    ensures Settled(t, e, s)
  {
    if e < |t| && Open(s, t[e]) {
      OpenOnly(s.node, t[e]);
    }
  }

  // ------------------------------------------------------------------- statements

  /** What `Statement` does after the attributes. */
  function Dispatch(t: seq<Token>, q: nat, inner: Context, n: nat): Parsed
    requires q < |t|
  {
    if t[q].OpenBrace? then Compound(t, q, inner, n)
    else if t[q].KwTry? then Try(t, q, inner, n)
    else if IsControlWord(t[q]) then Control(t, q, inner, n)
    else if t[q].KwCatch? || t[q].KwElse? || t[q].CloseBrace? then Rejected
    else Simple(t, q, inner)
  }

  lemma StatementDispatches(t: seq<Token>, p: nat, q: nat, ctx: Context, n: nat)
    requires p <= q < |t| && Attributes(t, p) == Parsed(q, ZERO)
    ensures Statement(t, p, ctx, n)
            == if ctx.depth + 1 > MAX_NESTING then Rejected
               else Dispatch(t, q, ctx.(depth := ctx.depth + 1), n)
  {
  }

  /** Attributes of a statement are read, and its node stands behind them. */
  lemma AttributesOf(t: seq<Token>, p: nat, s: Stmt)
    requires Sits(t, p, Spell(s)) && WellFormed(s)
    ensures var q := p + |Flat(s.attributes)|;
      && q < |t|
      && Attributes(t, p) == Parsed(q, ZERO)
      && Attributes(t, q) == Parsed(q, ZERO)
      && Sits(t, q, SpellNode(s.node))
      && q + |SpellNode(s.node)| == p + |Spell(s)|
      && q + EndsNode(s.node) == p + Ends(s)
      && SpellNode(s.node) != []
      && t[q] == SpellNode(s.node)[0]
  {
    hide WellFormedNode, SpellNode, EndsNode, IsGroup;
    NodeStarts(s.node);
    var q := p + |Flat(s.attributes)|;
    SitsSplit(t, p, Flat(s.attributes), SpellNode(s.node));
    SitsAt(t, q, SpellNode(s.node), 0);
    AttributesRead(t, p, s.attributes);
  }

  lemma {:induction false} StatementReads(t: seq<Token>, p: nat, s: Stmt, ctx: Context, n: nat)
    requires Sits(t, p, Spell(s)) && WellFormed(s) && Placed(s) && Settled(t, p + Ends(s), s)
    ensures Statement(t, p, ctx, n) == Outcome(Legal(s, ctx), p + Ends(s), Scored(s, n))
    decreases s, 1
  {
    hide Statement, Spell, SpellNode, Ends, EndsNode, PlacedNode, WellFormedNode, LegalNode, ScoredNode, Dispatch;
    hide Sits, Attributes;
    AttributesOf(t, p, s);
    var q := p + |Flat(s.attributes)|;
    StatementDispatches(t, p, q, ctx, n);
    NodeReads(t, q, s.node, ctx.(depth := ctx.depth + 1), n);
  }

  /** A controlled statement whose attributes have been read. */
  lemma {:induction false} BodyReads(t: seq<Token>, q: nat, s: Stmt, ctx: Context, n: nat)
    requires WellFormed(s) && Placed(s) && Sits(t, q, SpellNode(s.node)) && q < |t|
    requires Attributes(t, q) == Parsed(q, ZERO)
    requires SettledNode(t, q + EndsNode(s.node), s.node)
    ensures ControlledBody(t, q, ctx, n)
            == Outcome(LegalBody(s, ctx), q + EndsNode(s.node), ScoredBody(s, n))
    decreases s, 1
  {
    hide EndsNode, PlacedNode, Statement, SpellNode, WellFormedNode, LegalNode, ScoredNode, Sits, Attributes;
    hide Compound, Try, Control, Simple;
    NodeStarts(s.node);
    SitsAt(t, q, SpellNode(s.node), 0);
    if s.node.Block? {
      NodeReads(t, q, s.node, ctx, n);
    } else {
      StatementDispatches(t, q, q, ctx, n);
      NodeReads(t, q, s.node, ctx.(depth := ctx.depth + 1), n);
    }
  }

  lemma {:induction false} NodeReads(t: seq<Token>, p: nat, node: Node, ctx: Context, n: nat)
    requires Sits(t, p, SpellNode(node)) && WellFormedNode(node) && PlacedNode(node)
    requires SettledNode(t, p + EndsNode(node), node)
    ensures p < |t|
    ensures Dispatch(t, p, ctx, n)
            == Outcome(LegalNode(node, ctx, 0), p + EndsNode(node), ScoredNode(node, n, true))
    decreases node, 2
  {
    hide EndsNode, PlacedNode, Dispatch, SpellNode, WellFormedNode, LegalNode, ScoredNode, Sits, SettledNode;
    match node
    case Plain(_) => PlainNodeReads(t, p, node, ctx, n);
    case Cut(_) => CutNodeReads(t, p, node, ctx, n);
    case Block(_) => BlockNodeReads(t, p, node, ctx, n);
    case Conditional(_, _, _) => ConditionalReads(t, p, node, ctx, n, 0); ConditionalDispatches(t, p, node, ctx, n);
    case Controlling(_, _, _) => ControllingReads(t, p, node, ctx, n);
    case DoWhile(_, _) => DoWhileReads(t, p, node, ctx, n);
    case TryCatch(_, _) => TryCatchReads(t, p, node, ctx, n);
  }

  lemma PlainNodeReads(t: seq<Token>, p: nat, node: Node, ctx: Context, n: nat)
    requires node.Plain? && Sits(t, p, SpellNode(node)) && WellFormedNode(node)
    ensures p < |t|
    ensures Dispatch(t, p, ctx, n)
            == Outcome(LegalNode(node, ctx, 0), p + EndsNode(node), ScoredNode(node, n, true))
  {
    hide Simple, Compound, Try, Control, Sits, WellDelimited, InnerToken;
    PlainReads(t, p, node.run, ctx);
    SitsAt(t, p, node.run, 0);
  }

  /** Only the first piece of a cut statement is read. */
  lemma CutNodeReads(t: seq<Token>, p: nat, node: Node, ctx: Context, n: nat)
    requires node.Cut? && Sits(t, p, SpellNode(node)) && WellFormedNode(node)
    ensures p < |t|
    ensures Dispatch(t, p, ctx, n)
            == Outcome(LegalNode(node, ctx, 0), p + EndsNode(node), ScoredNode(node, n, true))
  {
    hide Simple, Compound, Try, Control, Sits, IsRun;
    var first := Plain(node.pieces[0]);
    SitsSplit(t, p, node.pieces[0], Flat(node.pieces[1..]));
    PlainNodeReads(t, p, first, ctx, n);
  }

  lemma {:induction false} BlockNodeReads(t: seq<Token>, p: nat, node: Node, ctx: Context, n: nat)
    requires node.Block? && Sits(t, p, SpellNode(node)) && WellFormedNode(node) && PlacedNode(node)
    ensures p < |t|
    ensures Dispatch(t, p, ctx, n)
            == Outcome(LegalNode(node, ctx, 0), p + EndsNode(node), ScoredNode(node, n, true))
    decreases node, 1
  {
    hide Simple, Compound, Try, Control, Sits, WellFormedAll, PlacedAll, SpellBlock, SpellAll, LegalAll, ScoredAll;
    BlockReads(t, p, node.body, ctx, n);
  }

  lemma {:induction false} BlockReads(t: seq<Token>, p: nat, body: Stmts, ctx: Context, n: nat)
    requires Sits(t, p, SpellBlock(body)) && WellFormedAll(body) && PlacedAll(body)
    ensures At(t, p, OpenBrace)
    ensures Compound(t, p, ctx, n) == Outcome(LegalAll(body, ctx), p + |SpellBlock(body)|, ScoredAll(body, n))
    decreases body, 1
  {
    hide Statements, Sits, WellFormedAll, PlacedAll, SpellAll, LegalAll, ScoredAll;
    SitsWord(t, p, OpenBrace, SpellAll(body) + [CloseBrace]);
    SitsSplit(t, p + 1, SpellAll(body), [CloseBrace]);
    var e := p + 1 + |SpellAll(body)|;
    SitsAt(t, e, [CloseBrace], 0);
    StatementsRead(t, p + 1, body, ctx, n);
  }

  lemma {:induction false} StatementsRead(t: seq<Token>, p: nat, body: Stmts, ctx: Context, n: nat)
    requires Sits(t, p, SpellAll(body)) && WellFormedAll(body) && PlacedAll(body)
    requires At(t, p + |SpellAll(body)|, CloseBrace)
    ensures Statements(t, p, ctx, n) == Outcome(LegalAll(body, ctx), p + |SpellAll(body)|, ScoredAll(body, n))
    decreases body, 0
  {
    hide Statement, Sits, WellFormed, Placed, Spell, Ends, Left, LegalRuns, Legal, Scored, PlainStart;
    if body.Then? {
      var q, e := p + Ends(body.first), p + |Spell(body.first)|;
      FirstSplits(t, p, body);
      StatementReads(t, p, body.first, ctx, n);
      if Legal(body.first, ctx) {
        LegalFits(body.first, ctx);
        PiecesRead(t, q, Left(body.first), ctx, n);
      }
      StatementsRead(t, e, body.rest, ctx, n);
    }
  }

  lemma LegalFits(s: Stmt, ctx: Context)
    requires Legal(s, ctx)
    ensures ctx.depth + 1 <= MAX_NESTING
  {
  }

  /** The first statement of a list, the pieces it leaves, and the statements behind them. */
  lemma FirstSplits(t: seq<Token>, p: nat, body: Stmts)
    requires body.Then? && WellFormedAll(body)
    requires Sits(t, p, SpellAll(body)) && At(t, p + |SpellAll(body)|, CloseBrace)
    ensures var q, e := p + Ends(body.first), p + |Spell(body.first)|;
      && p < |t| && !t[p].CloseBrace?
      && Sits(t, p, Spell(body.first)) && Settled(t, q, body.first)
      && Sits(t, q, Flat(Left(body.first))) && q + |Flat(Left(body.first))| == e
      && (forall piece | piece in Left(body.first) :: IsRun(piece))
      && Sits(t, e, SpellAll(body.rest)) && e + |SpellAll(body.rest)| == p + |SpellAll(body)|
  {
    hide Sits, WellFormed, Spell, Ends, Left, IsRun;
    SitsSplit(t, p, Spell(body.first), SpellAll(body.rest));
    var e := p + |Spell(body.first)|;
    StatementStarts(body.first);
    SitsAt(t, p, Spell(body.first), 0);
    FirstOf(t, e, body.rest);
    LeftSits(t, p, body.first);
    LeftSettles(t, p, body.first);
  }

  lemma FirstOf(t: seq<Token>, e: nat, body: Stmts)
    requires Sits(t, e, SpellAll(body)) && WellFormedAll(body) && At(t, e + |SpellAll(body)|, CloseBrace)
    ensures e < |t| && !t[e].KwElse? && !t[e].KwCatch?
  {
    if body.Then? {
      StatementStarts(body.first);
      SitsAt(t, e, SpellAll(body), 0);
    }
  }

  // ------------------------------------------------------------------- pieces left

  /** What a statement leaves stands at the end of its text, behind the part that is read. */
  lemma {:induction false} LeftSits(t: seq<Token>, p: nat, s: Stmt)
    requires Sits(t, p, Spell(s)) && WellFormed(s)
    ensures Sits(t, p + Ends(s), Flat(Left(s))) && Ends(s) + |Flat(Left(s))| == |Spell(s)|
    ensures forall piece | piece in Left(s) :: IsRun(piece)
    decreases s, 1
  {
    hide Sits, SpellNode, EndsNode, LeftNode, WellFormedNode, IsRun;
    SitsSplit(t, p, Flat(s.attributes), SpellNode(s.node));
    LeftNodeSits(t, p + |Flat(s.attributes)|, s.node);
  }

  lemma {:induction false} LeftNodeSits(t: seq<Token>, p: nat, node: Node)
    requires Sits(t, p, SpellNode(node)) && WellFormedNode(node)
    ensures Sits(t, p + EndsNode(node), Flat(LeftNode(node)))
    ensures EndsNode(node) + |Flat(LeftNode(node))| == |SpellNode(node)|
    ensures forall piece | piece in LeftNode(node) :: IsRun(piece)
    decreases node, 1
  {
    hide Sits, Spell, SpellBlock, SpellHandlers, Ends, Left, LeftHandlers, WellFormed, IsRun, IsGroup, IsHead;
    hide IsConstevalHead;
    hide WellFormedAll, WellFormedHandlers, Open;
    match node
    case Plain(run) => SitsEnd(t, p, run);
    case Cut(pieces) => SitsSplit(t, p, pieces[0], Flat(pieces[1..]));
    case Block(body) => SitsEnd(t, p, SpellBlock(body));
    case Conditional(_, _, _) => LeftConditionalSits(t, p, node);
    case Controlling(_, header, controlled) =>
      ControllingSplits(t, p, node);
      LeftSits(t, p + 1 + |header|, controlled);
    case DoWhile(_, _) => SitsEnd(t, p, SpellNode(node));
    case TryCatch(block, handlers) =>
      TryCatchSplits(t, p, node);
      LeftHandlersSits(t, p + 1 + |SpellBlock(block)|, handlers);
  }

  lemma ControllingSplits(t: seq<Token>, p: nat, node: Node)
    requires node.Controlling? && Sits(t, p, SpellNode(node))
    ensures At(t, p, node.word) && Sits(t, p + 1, node.header) && Sits(t, p + 1 + |node.header|, Spell(node.controlled))
  {
    hide Sits, Spell;
    SitsWord(t, p, node.word, node.header + Spell(node.controlled));
    SitsSplit(t, p + 1, node.header, Spell(node.controlled));
  }

  lemma TryCatchSplits(t: seq<Token>, p: nat, node: Node)
    requires node.TryCatch? && Sits(t, p, SpellNode(node))
    ensures At(t, p, KwTry) && Sits(t, p + 1, SpellBlock(node.block))
    ensures Sits(t, p + 1 + |SpellBlock(node.block)|, SpellHandlers(node.handlers))
  {
    hide Sits, SpellBlock, SpellHandlers;
    SitsWord(t, p, KwTry, SpellBlock(node.block) + SpellHandlers(node.handlers));
    SitsSplit(t, p + 1, SpellBlock(node.block), SpellHandlers(node.handlers));
  }

  lemma {:induction false} LeftConditionalSits(t: seq<Token>, p: nat, node: Node)
    requires node.Conditional? && Sits(t, p, SpellNode(node)) && WellFormedNode(node)
    ensures Sits(t, p + EndsNode(node), Flat(LeftNode(node)))
    ensures EndsNode(node) + |Flat(LeftNode(node))| == |SpellNode(node)|
    ensures forall piece | piece in LeftNode(node) :: IsRun(piece)
    decreases node, 0
  {
    hide Sits, Spell, Ends, Left, WellFormed, IsRun, IsHead, IsConstevalHead, Open, Flat;
    ConditionalSplits(t, p, node);
    var b := p + 1 + |node.head|;
    if node.alternative.ElseBranch? {
      LeftSits(t, b + |Spell(node.guarded)| + 1, node.alternative.body);
    } else {
      LeftSits(t, b, node.guarded);
    }
  }

  /** Where the parts of an `if` stand. */
  lemma ConditionalSplits(t: seq<Token>, p: nat, node: Node)
    requires node.Conditional? && Sits(t, p, SpellNode(node))
    ensures var b := p + 1 + |node.head|;
      var e := b + |Spell(node.guarded)|;
      && At(t, p, KwIf) && Sits(t, p + 1, node.head) && Sits(t, b, Spell(node.guarded)) && e <= |t|
      && match node.alternative
         case NoElse => p + |SpellNode(node)| == e
         case ElseBranch(body) =>
           At(t, e, KwElse) && Sits(t, e + 1, Spell(body)) && p + |SpellNode(node)| == e + 1 + |Spell(body)|
  {
    hide Sits, Spell;
    var tail := Spell(node.guarded) + SpellAlternative(node.alternative);
    SitsWord(t, p, KwIf, node.head + tail);
    SitsSplit(t, p + 1, node.head, tail);
    var b := p + 1 + |node.head|;
    SitsSplit(t, b, Spell(node.guarded), SpellAlternative(node.alternative));
    SitsWithin(t, b, Spell(node.guarded));
    if node.alternative.ElseBranch? {
      SitsWord(t, b + |Spell(node.guarded)|, KwElse, Spell(node.alternative.body));
    }
  }

  lemma SitsEnd(t: seq<Token>, p: nat, x: seq<Token>)
    requires Sits(t, p, x)
    ensures Sits(t, p + |x|, [])
  {
  }

  lemma {:induction false} LeftHandlersSits(t: seq<Token>, p: nat, handlers: Handlers)
    requires Sits(t, p, SpellHandlers(handlers)) && WellFormedHandlers(handlers)
    ensures Sits(t, p + EndsHandlers(handlers), Flat(LeftHandlers(handlers)))
    ensures EndsHandlers(handlers) + |Flat(LeftHandlers(handlers))| == |SpellHandlers(handlers)|
    ensures forall piece | piece in LeftHandlers(handlers) :: IsRun(piece)
    decreases handlers, 1
  {
    hide Sits, Spell, Ends, Left, WellFormed, IsRun, IsGroup, Open;
    HandlerSplits(t, p, handlers);
    if handlers.NoHandler? {
      SitsEnd(t, p, []);
    } else if handlers.rest.NoHandler? {
      LeftSits(t, p + 1 + |handlers.header|, handlers.body);
    } else {
      LeftHandlersSits(t, p + 1 + |handlers.header| + |Spell(handlers.body)|, handlers.rest);
    }
  }

  /** A piece left, or else what follows the statement, does not continue the part that is read. */
  lemma LeftSettles(t: seq<Token>, p: nat, s: Stmt)
    requires Sits(t, p, Spell(s)) && WellFormed(s)
    requires var e := p + |Spell(s)|; e < |t| ==> !t[e].KwElse? && !t[e].KwCatch?
    ensures Settled(t, p + Ends(s), s)
  {
    hide Sits, Spell, Ends, Left, IsRun, WellFormed, Open;
    LeftSits(t, p, s);
    if Left(s) != [] {
      PieceStarts(t, p + Ends(s), Left(s));
    }
    SettledBy(t, p + Ends(s), s);
  }

  lemma PieceStarts(t: seq<Token>, p: nat, pieces: seq<seq<Token>>)
    requires Sits(t, p, Flat(pieces)) && pieces != [] && IsRun(pieces[0])
    ensures p < |t| && PlainStart(t[p])
  {
    SitsSplit(t, p, pieces[0], Flat(pieces[1..]));
    SitsAt(t, p, pieces[0], 0);
  }

  /** A piece is read as a statement of its own. */
  lemma PieceReads(t: seq<Token>, p: nat, run: seq<Token>, ctx: Context, n: nat)
    requires Sits(t, p, run) && IsRun(run) && ctx.depth + 1 <= MAX_NESTING
    ensures p < |t| && PlainStart(t[p])
    ensures Statement(t, p, ctx, n) == Outcome(LegalRun(run, ctx), p + |run|, ZERO)
  {
    hide Sits, WellDelimited, InnerToken, Compound, Try, Control, Simple;
    var inner := ctx.(depth := ctx.depth + 1);
    RunStarts(t, p, run);
    NotAttribute(t, p);
    StatementDispatches(t, p, p, ctx, n);
    PlainNodeReads(t, p, Plain(run), inner, n);
  }

  lemma RunStarts(t: seq<Token>, p: nat, run: seq<Token>)
    requires Sits(t, p, run) && IsRun(run)
    ensures p < |t| && t[p] == run[0] && PlainStart(t[p])
  {
    SitsAt(t, p, run, 0);
  }

  lemma NotAttribute(t: seq<Token>, p: nat)
    requires p < |t| && PlainStart(t[p])
    ensures Attributes(t, p) == Parsed(p, ZERO)
  {
  }

  /** The pieces left are read in the enclosing list, each as a statement of its own. */
  lemma {:induction false} PiecesRead(t: seq<Token>, p: nat, pieces: seq<seq<Token>>, ctx: Context, n: nat)
    requires Sits(t, p, Flat(pieces)) && (forall piece | piece in pieces :: IsRun(piece))
    requires ctx.depth + 1 <= MAX_NESTING
    ensures p + |Flat(pieces)| <= |t|
    ensures Statements(t, p, ctx, n)
            == if LegalRuns(pieces, ctx) then Statements(t, p + |Flat(pieces)|, ctx, n) else Rejected
    decreases |pieces|
  {
    hide Sits, IsRun, Statements, LegalRun;
    SitsWithin(t, p, Flat(pieces));
    if pieces != [] {
      SitsSplit(t, p, pieces[0], Flat(pieces[1..]));
      PieceStep(t, p, pieces[0], ctx, n);
      PiecesRead(t, p + |pieces[0]|, pieces[1..], ctx, n);
      assert pieces == [pieces[0]] + pieces[1..];
    }
  }

  lemma PieceStep(t: seq<Token>, p: nat, run: seq<Token>, ctx: Context, n: nat)
    requires Sits(t, p, run) && IsRun(run) && ctx.depth + 1 <= MAX_NESTING
    ensures p + |run| <= |t|
    ensures Statements(t, p, ctx, n) == if LegalRun(run, ctx) then Statements(t, p + |run|, ctx, n) else Rejected
  {
    hide Sits, IsRun, Statement, Statements, LegalRun;
    SitsWithin(t, p, run);
    PieceReads(t, p, run, ctx, n);
    StatementsContinue(t, p, ctx, n);
    if LegalRun(run, ctx) {
      PlusNothing(Statements(t, p + |run|, ctx, n));
    }
  }

  lemma StatementsContinue(t: seq<Token>, p: nat, ctx: Context, n: nat)
    requires p < |t| && !t[p].CloseBrace?
    ensures Statements(t, p, ctx, n)
            == var first := Statement(t, p, ctx, n);
               if first.Rejected? then Rejected else After(first.score, Statements(t, first.pos, ctx, n))
  {
    hide Statement;
  }

  lemma PlusNothing(r: Parsed)
    ensures After(ZERO, r) == r
  {
  }

  // ------------------------------------------------------------------ conditionals

  lemma ConditionalDispatches(t: seq<Token>, p: nat, node: Node, ctx: Context, n: nat)
    requires node.Conditional? && Sits(t, p, SpellNode(node))
    ensures p < |t| && Dispatch(t, p, ctx, n) == If(t, p, ctx, n, 0)
  {
  }

  lemma {:induction false} ConditionalReads(t: seq<Token>, p: nat, node: Node, ctx: Context, n: nat, chain: nat)
    requires node.Conditional? && Sits(t, p, SpellNode(node)) && WellFormedNode(node) && PlacedNode(node)
    requires SettledNode(t, p + EndsNode(node), node)
    ensures If(t, p, ctx, n, chain)
            == Outcome(LegalNode(node, ctx, chain), p + EndsNode(node), ScoredNode(node, n, chain == 0))
    decreases node, 1
  {
    hide IfThen, Else, Sits, Spell, Ends, Left, Placed, WellFormed, WellFormedAlternative, LegalBody, LegalAlternative;
    hide ScoredBody, ScoredAlternative, IsHead, IsConsteval, IsConstevalHead, Open, Plus, SpellNode;
    ConditionalSplits(t, p, node);
    var b := p + 1 + |node.head|;
    GuardedIsSettled(t, b, node);
    GuardedReads(t, p, node, ctx, n, chain == 0);
    var e := b + Ends(node.guarded);
    if node.alternative.ElseBranch? {
      AlternativeReads(t, e, node, ctx, n, chain);
    } else {
      NothingElse(t, e, ctx, n, chain, IsConstevalHead(node.head));
      NoneOf(ctx, n, chain);
    }
  }

  lemma NoneOf(ctx: Context, n: nat, chain: nat)
    ensures LegalAlternative(NoElse, ctx, chain + 1) && ScoredAlternative(NoElse, n) == ZERO
  {
  }

  /** The controlled statement of an `if` is not continued by what follows it. */
  lemma GuardedIsSettled(t: seq<Token>, b: nat, node: Node)
    requires node.Conditional? && Sits(t, b, Spell(node.guarded)) && WellFormedNode(node) && PlacedNode(node)
    requires node.alternative.ElseBranch? ==> At(t, b + |Spell(node.guarded)|, KwElse)
    requires node.alternative.NoElse? ==> SettledNode(t, b + Ends(node.guarded), node)
    ensures var e := b + Ends(node.guarded);
      && e <= |t| && Settled(t, e, node.guarded)
      && if node.alternative.ElseBranch? then e == b + |Spell(node.guarded)| else !At(t, e, KwElse)
  {
    hide Sits, Spell, Ends, Left, Placed, WellFormed, WellFormedAlternative, IsHead, IsConstevalHead, Open;
    LeftSits(t, b, node.guarded);
    SitsWithin(t, b + Ends(node.guarded), Flat(Left(node.guarded)));
    assert node.alternative.ElseBranch? ==> Flat(Left(node.guarded)) == [];
  }

  /** An `if` up to its `else`. */
  lemma {:induction false} GuardedReads(t: seq<Token>, p: nat, node: Node, ctx: Context, n: nat, scored: bool)
    requires node.Conditional? && WellFormedNode(node) && At(t, p, KwIf) && Sits(t, p + 1, node.head)
    requires Placed(node.guarded) && Sits(t, p + 1 + |node.head|, Spell(node.guarded))
    requires Settled(t, p + 1 + |node.head| + Ends(node.guarded), node.guarded)
    ensures IsConsteval(t, p + 1) == IsConstevalHead(node.head)
    ensures IfThen(t, p, ctx, n, scored)
            == Outcome(LegalBody(node.guarded, ctx), p + 1 + |node.head| + Ends(node.guarded),
                       Plus(if scored then Points(1 + n) else ZERO, ScoredBody(node.guarded, n + 1)))
    decreases node, 0
  {
    hide Sits, Spell, SpellNode, LegalBody, ScoredBody, IsHead, IsConsteval, IsConstevalHead, IfHead;
    hide Plus, Points, ControlledBody, Attributes, Open, OpenNode, Ends, EndsNode, Placed;
    HeadReads(t, p + 1, node.head);
    var b := p + 1 + |node.head|;
    AttributesOf(t, b, node.guarded);
    NodeStarts(node.guarded.node);
    SettledIsNode(t, b + Ends(node.guarded), node.guarded);
    BodyReads(t, b + |Flat(node.guarded.attributes)|, node.guarded, ctx, n + 1);
  }

  lemma SettledIsNode(t: seq<Token>, e: nat, s: Stmt)
    ensures Settled(t, e, s) <==> SettledNode(t, e, s.node)
  {
  }

  lemma NothingElse(t: seq<Token>, e: nat, ctx: Context, n: nat, chain: nat, consteval: bool)
    requires e <= |t| && !At(t, e, KwElse)
    ensures Else(t, e, ctx, n, chain, consteval) == Parsed(e, ZERO)
  {
  }

  lemma ElseContinues(t: seq<Token>, e: nat, f: nat, ctx: Context, n: nat, chain: nat, consteval: bool)
    requires At(t, e, KwElse) && f < |t| && Attributes(t, e + 1) == Parsed(f, ZERO)
    ensures Else(t, e, ctx, n, chain, consteval)
            == if t[f].KwIf? then After(Points(1 + n), If(t, f, ctx, n, chain + 1))
               else if consteval && !t[f].OpenBrace? then Rejected
               else After(Points(1 + n), ControlledBody(t, f, ctx, n + 1))
  {
    hide Points, ControlledBody, Attributes, If;
  }

  lemma {:induction false} AlternativeReads(t: seq<Token>, e: nat, node: Node, ctx: Context, n: nat, chain: nat)
    requires node.Conditional? && node.alternative.ElseBranch? && WellFormedNode(node) && PlacedNode(node)
    requires At(t, e, KwElse) && Sits(t, e + 1, Spell(node.alternative.body))
    requires SettledNode(t, e + 1 + Ends(node.alternative.body), node)
    ensures Else(t, e, ctx, n, chain, IsConstevalHead(node.head))
            == Outcome(LegalAlternative(node.alternative, ctx, chain + 1), e + 1 + Ends(node.alternative.body),
                       ScoredAlternative(node.alternative, n))
    decreases node, 0
  {
    hide Sits, Spell, SpellNode, Ends, EndsNode, LegalBody, LegalNode, ScoredBody, ScoredNode, IsHead, IsConstevalHead;
    hide Plus, Points, ControlledBody, Attributes, If, Else, Open, Left;
    var body := node.alternative.body;
    AttributesOf(t, e + 1, body);
    NodeStarts(body.node);
    SettledIsNode(t, e + 1 + Ends(body), body);
    var f := e + 1 + |Flat(body.attributes)|;
    ElseContinues(t, e, f, ctx, n, chain, IsConstevalHead(node.head));
    if body.node.Conditional? {
      ConditionalReads(t, f, body.node, ctx, n, chain + 1);
    } else {
      BodyReads(t, f, body, ctx, n + 1);
    }
  }

  // ---------------------------------------------------------------- other controls

  lemma {:induction false} ControllingReads(t: seq<Token>, p: nat, node: Node, ctx: Context, n: nat)
    requires node.Controlling? && Sits(t, p, SpellNode(node)) && WellFormedNode(node) && PlacedNode(node)
    requires SettledNode(t, p + EndsNode(node), node)
    ensures p < |t|
    ensures Dispatch(t, p, ctx, n)
            == Outcome(LegalNode(node, ctx, 0), p + EndsNode(node), ScoredNode(node, n, true))
    decreases node, 1
  {
    hide Sits, Spell, WellFormed, LegalBody, ScoredBody, IsGroup, Plus, Points, ControlledBody, Attributes, Balanced;
    hide Open;
    hide Ends, Placed;
    SitsWord(t, p, node.word, node.header + Spell(node.controlled));
    SitsSplit(t, p + 1, node.header, Spell(node.controlled));
    GroupReads(t, p + 1, node.header, OpenParen, CloseParen);
    var b := p + 1 + |node.header|;
    AttributesOf(t, b, node.controlled);
    SettledIsNode(t, b + Ends(node.controlled), node.controlled);
    BodyReads(t, b + |Flat(node.controlled.attributes)|, node.controlled, InHeaded(node.word, ctx), n + 1);
    assert Dispatch(t, p, ctx, n) == Headed(t, p, ctx, n);
  }

  lemma {:induction false} DoWhileReads(t: seq<Token>, p: nat, node: Node, ctx: Context, n: nat)
    requires node.DoWhile? && Sits(t, p, SpellNode(node)) && WellFormedNode(node) && PlacedNode(node)
    ensures p < |t|
    ensures Dispatch(t, p, ctx, n)
            == Outcome(LegalNode(node, ctx, 0), p + EndsNode(node), ScoredNode(node, n, true))
    decreases node, 1
  {
    hide Sits, Spell, WellFormed, LegalBody, ScoredBody, IsGroup, Plus, Points, ControlledBody, Attributes, Balanced;
    hide DoTail;
    hide Ends, Placed, Left;
    var tail := [KwWhile] + (node.header + [Semicolon]);
    SitsWord(t, p, KwDo, Spell(node.controlled) + tail);
    SitsSplit(t, p + 1, Spell(node.controlled), tail);
    var e := p + 1 + |Spell(node.controlled)|;
    AttributesOf(t, p + 1, node.controlled);
    TailReads(t, e, node.header);
    LeftSits(t, p + 1, node.controlled);
    SettledBy(t, e, node.controlled);
    SettledIsNode(t, e, node.controlled);
    BodyReads(t, p + 1 + |Flat(node.controlled.attributes)|, node.controlled, InLoop(ctx), n + 1);
    AfterZero(Plus(Points(1 + n), ScoredBody(node.controlled, n + 1)), e + |tail|);
    assert Dispatch(t, p, ctx, n) == Do(t, p, ctx, n);
  }

  lemma AfterZero(before: Score, end: nat)
    ensures After(before, Parsed(end, ZERO)) == Parsed(end, before)
  {
  }

  lemma TailReads(t: seq<Token>, e: nat, header: seq<Token>)
    requires Sits(t, e, [KwWhile] + (header + [Semicolon])) && IsGroup(header, OpenParen, CloseParen)
    ensures At(t, e, KwWhile) && DoTail(t, e) == Parsed(e + |header| + 2, ZERO)
  {
    hide Sits, Balanced;
    SitsWord(t, e, KwWhile, header + [Semicolon]);
    SitsSplit(t, e + 1, header, [Semicolon]);
    GroupReads(t, e + 1, header, OpenParen, CloseParen);
    SitsAt(t, e + 1 + |header|, [Semicolon], 0);
  }

  lemma {:induction false} TryCatchReads(t: seq<Token>, p: nat, node: Node, ctx: Context, n: nat)
    requires node.TryCatch? && Sits(t, p, SpellNode(node)) && WellFormedNode(node) && PlacedNode(node)
    requires SettledNode(t, p + EndsNode(node), node)
    ensures p < |t|
    ensures Dispatch(t, p, ctx, n)
            == Outcome(LegalNode(node, ctx, 0), p + EndsNode(node), ScoredNode(node, n, true))
    decreases node, 1
  {
    hide Sits, SpellBlock, WellFormedAll, LegalAll, ScoredAll, WellFormedHandlers, LegalHandlers, ScoredHandlers;
    hide Plus, Compound, Catches, Spell, OpenHandlers, Control, Simple, EndsHandlers, PlacedAll, PlacedHandlers;
    SitsWord(t, p, KwTry, SpellBlock(node.block) + SpellHandlers(node.handlers));
    SitsSplit(t, p + 1, SpellBlock(node.block), SpellHandlers(node.handlers));
    BlockReads(t, p + 1, node.block, ctx, n);
    var e := p + 1 + |SpellBlock(node.block)|;
    SitsAt(t, e, SpellHandlers(node.handlers), 0);
    HandlersRead(t, e, node.handlers, ctx, n);
  }

  lemma {:induction false} HandlersRead(t: seq<Token>, p: nat, handlers: Handlers, ctx: Context, n: nat)
    requires Sits(t, p, SpellHandlers(handlers)) && WellFormedHandlers(handlers) && PlacedHandlers(handlers)
    requires SettledHandlers(t, p + EndsHandlers(handlers), handlers)
    ensures Catches(t, p, ctx, n)
            == Outcome(LegalHandlers(handlers, ctx), p + EndsHandlers(handlers), ScoredHandlers(handlers, n))
    decreases handlers, 1
  {
    hide Sits, Spell, Ends, Left, SpellHandlers, WellFormed, Placed, LegalBody, ScoredBody, IsGroup, Plus, Points;
    hide Catch;
    hide Catches, Open, OpenHandlers;
    HandlerSplits(t, p, handlers);
    HandlerFollows(t, p, handlers);
    CatchesContinue(t, p, ctx, n);
    if handlers.Handler? {
      var e := p + 1 + |handlers.header| + Ends(handlers.body);
      HandlerIsSettled(t, p + 1 + |handlers.header|, handlers);
      HandlerReads(t, p, handlers, ctx, n);
      if handlers.rest.NoHandler? {
        NoneCaught(t, e, handlers, ctx, n);
      } else {
        HandlersRead(t, e, handlers.rest, ctx, n);
      }
    } else {
      NoneCaught(t, p, handlers, ctx, n);
    }
  }

  /** Behind a handler comes the next one, or what settles them all. */
  lemma HandlerFollows(t: seq<Token>, p: nat, handlers: Handlers)
    requires Sits(t, p, SpellHandlers(handlers)) && SettledHandlers(t, p + EndsHandlers(handlers), handlers)
    ensures handlers.Handler? ==>
      var e := p + 1 + |handlers.header| + |Spell(handlers.body)|;
      if handlers.rest.Handler?
      then At(t, e, KwCatch) && SettledHandlers(t, e + EndsHandlers(handlers.rest), handlers.rest)
      else SettledHandlers(t, p + 1 + |handlers.header| + Ends(handlers.body), handlers)
  {
    hide Sits, Spell, Ends, Open;
    HandlerSplits(t, p, handlers);
    if handlers.Handler? && handlers.rest.Handler? {
      HandlerSplits(t, p + 1 + |handlers.header| + |Spell(handlers.body)|, handlers.rest);
    }
  }

  /** What follows the handlers is no further handler and does not continue the last one. */
  predicate SettledHandlers(t: seq<Token>, e: nat, handlers: Handlers) {
    e < |t| ==> !OpenHandlers(handlers, t[e]) && !t[e].KwCatch?
  }

  lemma NoneCaught(t: seq<Token>, e: nat, handlers: Handlers, ctx: Context, n: nat)
    requires e <= |t| && SettledHandlers(t, e, handlers)
    ensures Catches(t, e, ctx, n) == Parsed(e, ZERO)
    ensures LegalHandlers(NoHandler, ctx) && ScoredHandlers(NoHandler, n) == ZERO
  {
  }

  lemma HandlerSplits(t: seq<Token>, p: nat, handlers: Handlers)
    requires Sits(t, p, SpellHandlers(handlers))
    ensures p <= |t|
    ensures handlers.NoHandler? ==> SpellHandlers(handlers) == []
    ensures handlers.Handler? ==>
      var b := p + 1 + |handlers.header|;
      var e := b + |Spell(handlers.body)|;
      && At(t, p, KwCatch)
      && Sits(t, p + 1, handlers.header)
      && Sits(t, b, Spell(handlers.body))
      && Sits(t, e, SpellHandlers(handlers.rest))
      && p + |SpellHandlers(handlers)| == e + |SpellHandlers(handlers.rest)|
  {
    hide Sits, Spell;
    SitsWithin(t, p, SpellHandlers(handlers));
    if handlers.Handler? {
      var tail := Spell(handlers.body) + SpellHandlers(handlers.rest);
      SitsWord(t, p, KwCatch, handlers.header + tail);
      SitsSplit(t, p + 1, handlers.header, tail);
      SitsSplit(t, p + 1 + |handlers.header|, Spell(handlers.body), SpellHandlers(handlers.rest));
    }
  }

  lemma CatchesContinue(t: seq<Token>, p: nat, ctx: Context, n: nat)
    requires p <= |t|
    ensures Catches(t, p, ctx, n)
            == if !At(t, p, KwCatch) then Parsed(p, ZERO)
               else
                 var first := Catch(t, p, ctx, n);
                 if first.Rejected? then Rejected else After(first.score, Catches(t, first.pos, ctx, n))
  {
  }

  lemma HandlerIsSettled(t: seq<Token>, b: nat, handlers: Handlers)
    requires handlers.Handler? && WellFormedHandlers(handlers) && PlacedHandlers(handlers)
    requires Sits(t, b, Spell(handlers.body))
    requires handlers.rest.Handler? ==> At(t, b + |Spell(handlers.body)|, KwCatch)
    requires handlers.rest.NoHandler? ==> SettledHandlers(t, b + Ends(handlers.body), handlers)
    ensures var e := b + Ends(handlers.body);
      e <= |t| && Settled(t, e, handlers.body) && (handlers.rest.Handler? ==> e == b + |Spell(handlers.body)|)
  {
    hide Sits, Spell, Ends, Left, Placed, WellFormed, IsGroup, Open;
    LeftSits(t, b, handlers.body);
    SitsWithin(t, b + Ends(handlers.body), Flat(Left(handlers.body)));
    assert handlers.rest.Handler? ==> Flat(Left(handlers.body)) == [];
  }

  lemma {:induction false} HandlerReads(t: seq<Token>, p: nat, handlers: Handlers, ctx: Context, n: nat)
    requires handlers.Handler? && WellFormedHandlers(handlers) && At(t, p, KwCatch) && Sits(t, p + 1, handlers.header)
    requires Placed(handlers.body) && Sits(t, p + 1 + |handlers.header|, Spell(handlers.body))
    requires Settled(t, p + 1 + |handlers.header| + Ends(handlers.body), handlers.body)
    ensures Catch(t, p, ctx, n)
            == Outcome(LegalBody(handlers.body, ctx), p + 1 + |handlers.header| + Ends(handlers.body),
                       Plus(Points(1 + n), ScoredBody(handlers.body, n + 1)))
    decreases handlers, 0
  {
    hide Sits, Spell, WellFormed, LegalBody, ScoredBody, IsGroup, Plus, Points, ControlledBody, Attributes, Balanced;
    hide Open;
    hide Ends, Placed;
    GroupReads(t, p + 1, handlers.header, OpenParen, CloseParen);
    var b := p + 1 + |handlers.header|;
    AttributesOf(t, b, handlers.body);
    SettledIsNode(t, b + Ends(handlers.body), handlers.body);
    BodyReads(t, b + |Flat(handlers.body.attributes)|, handlers.body, ctx, n + 1);
  }

  // --------------------------------------------------------------- function bodies

  /** A function body as the parser gets it: its compound, then the handlers of a function-try-block. */
  function SpellBody(block: Stmts, handlers: Handlers): seq<Token> {
    SpellBlock(block) + SpellHandlers(handlers)
  }

  predicate LegalFunction(block: Stmts, handlers: Handlers) {
    var ctx := Context(0, 0, 0);
    LegalAll(block, ctx) && LegalHandlers(handlers, ctx) && LegalRuns(LeftHandlers(handlers), ctx)
  }

  /** A spelled function body in which no piece of a cut statement is out of place is consumed to its
    last token with the recursive score exactly when the tree stays within the bounds, and refused
    otherwise. */
  lemma PlacedBodyIsScored(block: Stmts, handlers: Handlers)
    requires WellFormedAll(block) && WellFormedHandlers(handlers) && PlacedAll(block) && PlacedHandlers(handlers)
    ensures Body(SpellBody(block, handlers))
            == Outcome(LegalFunction(block, handlers), |SpellBody(block, handlers)|,
                       Plus(ScoredAll(block, 0), ScoredHandlers(handlers, 0)))
  {
    hide Compound, Catches, TopLevel, SpellBlock, SpellHandlers, EndsHandlers, LeftHandlers, PlacedAll, PlacedHandlers;
    hide WellFormedAll, WellFormedHandlers, LegalAll, LegalHandlers, LegalRuns, ScoredAll, ScoredHandlers, Plus, Sits;
    hide SettledHandlers, IsRun;
    var t := SpellBody(block, handlers);
    SitsWhole(t);
    SitsSplit(t, 0, SpellBlock(block), SpellHandlers(handlers));
    BlockReads(t, 0, block, Context(0, 0, 0), 0);
    var q := |SpellBlock(block)|;
    LeftHandlersSits(t, q, handlers);
    LeftSettlesHandlers(t, q, handlers);
    HandlersRead(t, q, handlers, Context(0, 0, 0), 0);
    TopPiecesRead(t, q + EndsHandlers(handlers), LeftHandlers(handlers));
    AfterZero(Plus(ScoredAll(block, 0), ScoredHandlers(handlers, 0)), |t|);
  }

  lemma SitsWhole(t: seq<Token>)
    ensures Sits(t, 0, t)
  {
  }

  /** Behind the handlers of a function body comes a piece they leave, or nothing. */
  lemma LeftSettlesHandlers(t: seq<Token>, p: nat, handlers: Handlers)
    requires Sits(t, p + EndsHandlers(handlers), Flat(LeftHandlers(handlers)))
    requires p + EndsHandlers(handlers) + |Flat(LeftHandlers(handlers))| == |t|
    requires forall piece | piece in LeftHandlers(handlers) :: IsRun(piece)
    ensures SettledHandlers(t, p + EndsHandlers(handlers), handlers)
  {
    hide Sits, IsRun, OpenHandlers, EndsHandlers;
    var e, left := p + EndsHandlers(handlers), LeftHandlers(handlers);
    if left != [] {
      PieceStarts(t, e, left);
      if OpenHandlers(handlers, t[e]) {
        OpenHandlersOnly(handlers, t[e]);
      }
    }
  }

  /** Pieces left by the handlers of the function are read as statements behind it. */
  lemma {:induction false} TopPiecesRead(t: seq<Token>, p: nat, pieces: seq<seq<Token>>)
    requires Sits(t, p, Flat(pieces)) && (forall piece | piece in pieces :: IsRun(piece)) && p + |Flat(pieces)| == |t|
    ensures TopLevel(t, p) == Outcome(LegalRuns(pieces, Context(0, 0, 0)), |t|, ZERO)
    decreases |pieces|
  {
    hide Sits, IsRun, TopLevel, LegalRun;
    if pieces == [] {
      TopLevelContinues(t, p);
    } else {
      SitsSplit(t, p, pieces[0], Flat(pieces[1..]));
      TopPieceStep(t, p, pieces[0]);
      TopPiecesRead(t, p + |pieces[0]|, pieces[1..]);
      assert pieces == [pieces[0]] + pieces[1..];
    }
  }

  lemma TopPieceStep(t: seq<Token>, p: nat, run: seq<Token>)
    requires Sits(t, p, run) && IsRun(run)
    ensures p + |run| <= |t|
    ensures TopLevel(t, p) == if LegalRun(run, Context(0, 0, 0)) then TopLevel(t, p + |run|) else Rejected
  {
    hide Sits, IsRun, Statement, TopLevel, LegalRun;
    SitsWithin(t, p, run);
    PieceReads(t, p, run, Context(0, 0, 0), 0);
    TopLevelContinues(t, p);
    if LegalRun(run, Context(0, 0, 0)) {
      PlusNothing(TopLevel(t, p + |run|));
    }
  }

  lemma TopLevelContinues(t: seq<Token>, p: nat)
    requires p <= |t|
    ensures TopLevel(t, p)
            == if p == |t| then Parsed(p, ZERO)
               else
                 var first := Statement(t, p, Context(0, 0, 0), 0);
                 if first.Rejected? then Rejected else After(first.score, TopLevel(t, first.pos))
  {
    hide Statement;
  }
}
