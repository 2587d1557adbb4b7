/** The bounds of the parser, read off the tree alone. */
module StatementBounds {
  import opened Basics
  import opened ControlTokens
  import opened ControlReader
  import opened StatementTrees

  // ---------------------------------------------------------------------- height

  /** How many statements stand inside each other; a braced body adds no level of its own. */
  function Height(s: Stmt): nat
    decreases s, 0
  {
    1 + HeightNode(s.node)
  }

  function HeightNode(node: Node): nat
    decreases node
  {
    match node
    case Plain(_) => 0
    case Cut(_) => 0
    case Block(body) => HeightAll(body)
    case Conditional(_, guarded, alternative) => Max(HeightBody(guarded), HeightAlternative(alternative))
    case Controlling(_, _, controlled) => HeightBody(controlled)
    case DoWhile(controlled, _) => HeightBody(controlled)
    case TryCatch(block, handlers) => Max(HeightAll(block), HeightHandlers(handlers))
  }

  function HeightBody(s: Stmt): nat
    decreases s, 1
  {
    if s.node.Block? then HeightNode(s.node) else Height(s)
  }

  function HeightAll(body: Stmts): nat
    decreases body
  {
    match body
    case Done => 0
    case Then(first, rest) => Max(Height(first), HeightAll(rest))
  }

  function HeightAlternative(alternative: Alternative): nat
    decreases alternative
  {
    match alternative
    case NoElse => 0
    case ElseBranch(body) => if body.node.Conditional? then HeightNode(body.node) else HeightBody(body)
  }

  function HeightHandlers(handlers: Handlers): nat
    decreases handlers
  {
    match handlers
    case NoHandler => 0
    case Handler(_, body, rest) => Max(HeightBody(body), HeightHandlers(rest))
  }

  // ---------------------------------------------------------------------- chains

  /** The links of the else-if chain that starts at this node. */
  function Links(node: Node): nat
    decreases node
  {
    match node
    case Conditional(_, _, ElseBranch(body)) => 1 + Links(body.node)
    case Conditional(_, _, NoElse) => 1
    case _ => 0
  }

  /** No else-if chain anywhere in the tree is longer than the bound. */
  predicate ShortChains(node: Node)
    decreases node
  {
    match node
    case Plain(_) => true
    case Cut(_) => true
    case Block(body) => ShortChainsAll(body)
    case Conditional(_, guarded, alternative) =>
      && Links(node) <= 128
      && ShortChains(guarded.node)
      && (alternative.ElseBranch? ==> ShortChains(alternative.body.node))
    case Controlling(_, _, controlled) => ShortChains(controlled.node)
    case DoWhile(controlled, _) => ShortChains(controlled.node)
    case TryCatch(block, handlers) => ShortChainsAll(block) && ShortChainsHandlers(handlers)
  }

  predicate ShortChainsAll(body: Stmts)
    decreases body
  {
    match body
    case Done => true
    case Then(first, rest) => ShortChains(first.node) && ShortChainsAll(rest)
  }

  predicate ShortChainsHandlers(handlers: Handlers)
    decreases handlers
  {
    match handlers
    case NoHandler => true
    case Handler(_, body, rest) => ShortChains(body.node) && ShortChainsHandlers(rest)
  }

  // ----------------------------------------------------------------------- jumps

  /** `break` needs a loop or a switch around it, `continue` a loop, `case` and `default` a switch. */
  predicate JumpPlaced(run: seq<Token>, inLoop: bool, inSwitch: bool) {
    run != [] ==>
      && (run[0].KwBreak? ==> inLoop || inSwitch)
      && (run[0].KwContinue? ==> inLoop)
      && (run[0].KwCase? || run[0].KwDefault? ==> inSwitch)
  }

  /** Every jump and label has what it needs around it; the pieces that a statement leaves stand in the
    list around it. */
  predicate JumpsPlaced(node: Node, inLoop: bool, inSwitch: bool)
    decreases node
  {
    match node
    case Plain(run) => JumpPlaced(run, inLoop, inSwitch)
    case Cut(pieces) => pieces != [] ==> JumpPlaced(pieces[0], inLoop, inSwitch)
    case Block(body) => JumpsPlacedAll(body, inLoop, inSwitch)
    case Conditional(_, guarded, alternative) =>
      && JumpsPlaced(guarded.node, inLoop, inSwitch)
      && (alternative.ElseBranch? ==> JumpsPlaced(alternative.body.node, inLoop, inSwitch))
    case Controlling(word, _, controlled) =>
      JumpsPlaced(controlled.node, inLoop || !word.KwSwitch?, inSwitch || word.KwSwitch?)
    case DoWhile(controlled, _) => JumpsPlaced(controlled.node, true, inSwitch)
    case TryCatch(block, handlers) =>
      JumpsPlacedAll(block, inLoop, inSwitch) && JumpsPlacedHandlers(handlers, inLoop, inSwitch)
  }

  predicate JumpsPlacedAll(body: Stmts, inLoop: bool, inSwitch: bool)
    decreases body
  {
    match body
    case Done => true
    case Then(first, rest) =>
      && JumpsPlaced(first.node, inLoop, inSwitch)
      && (forall piece | piece in Left(first) :: JumpPlaced(piece, inLoop, inSwitch))
      && JumpsPlacedAll(rest, inLoop, inSwitch)
  }

  predicate JumpsPlacedHandlers(handlers: Handlers, inLoop: bool, inSwitch: bool)
    decreases handlers
  {
    match handlers
    case NoHandler => true
    case Handler(_, body, rest) =>
      JumpsPlaced(body.node, inLoop, inSwitch) && JumpsPlacedHandlers(rest, inLoop, inSwitch)
  }

  // ------------------------------------------------------------------ the theorem

  predicate Jumps(node: Node, ctx: Context) {
    JumpsPlaced(node, ctx.loops > 0, ctx.switches > 0)
  }

  lemma {:induction false} LegalMeans(s: Stmt, ctx: Context)
    ensures Legal(s, ctx)
      <==> ctx.depth + Height(s) <= 128 && ShortChains(s.node) && Jumps(s.node, ctx)
    decreases s, 1
  {
    hide LegalNode, HeightNode, JumpsPlaced, Links, ShortChainsAll, ShortChainsHandlers;
    if ctx.depth + 1 <= MAX_NESTING {
      LegalNodeMeans(s.node, ctx.(depth := ctx.depth + 1), 0);
    }
  }

  lemma {:induction false} LegalNodeMeans(node: Node, ctx: Context, chain: nat)
    requires ctx.depth <= MAX_NESTING
    ensures LegalNode(node, ctx, chain)
      <==> ctx.depth + HeightNode(node) <= MAX_NESTING && ShortChains(node) && Jumps(node, ctx)
           && (node.Conditional? ==> chain + Links(node) <= MAX_NESTING)
    decreases node, 1
  {
    hide LegalAll, LegalBody, LegalAlternative, LegalHandlers, HeightAll, HeightBody, HeightAlternative, HeightHandlers;
    hide JumpsPlacedAll, JumpsPlacedHandlers, ShortChainsAll, ShortChainsHandlers;
    match node
    case Plain(_) =>
    case Cut(_) =>
    case Block(body) => LegalAllMeans(body, ctx);
    case Conditional(_, _, _) => LegalConditionalMeans(node, ctx, chain);
    case Controlling(word, _, controlled) => LegalBodyMeans(controlled, InHeaded(word, ctx));
    case DoWhile(controlled, _) => LegalBodyMeans(controlled, InLoop(ctx));
    case TryCatch(block, handlers) => LegalAllMeans(block, ctx); LegalHandlersMeans(handlers, ctx);
  }

  lemma {:induction false} LegalConditionalMeans(node: Node, ctx: Context, chain: nat)
    requires ctx.depth <= MAX_NESTING && node.Conditional?
    ensures LegalNode(node, ctx, chain)
      <==> ctx.depth + HeightNode(node) <= MAX_NESTING && ShortChains(node) && Jumps(node, ctx)
           && chain + Links(node) <= MAX_NESTING
    decreases node, 0
  {
    hide LegalBody, HeightBody;
    LegalBodyMeans(node.guarded, ctx);
    if node.alternative.ElseBranch? {
      var body := node.alternative.body;
      if body.node.Conditional? {
        LegalNodeMeans(body.node, ctx, chain + 1);
      } else {
        LegalBodyMeans(body, ctx);
      }
    }
  }

  lemma {:induction false} LegalBodyMeans(s: Stmt, ctx: Context)
    requires ctx.depth <= MAX_NESTING
    ensures LegalBody(s, ctx)
      <==> ctx.depth + HeightBody(s) <= MAX_NESTING && ShortChains(s.node) && Jumps(s.node, ctx)
    decreases s, 2
  {
    hide LegalNode, HeightNode, ShortChains, JumpsPlaced, Legal, Height;
    if s.node.Block? {
      LegalNodeMeans(s.node, ctx, 0);
    } else {
      LegalMeans(s, ctx);
    }
  }

  lemma {:induction false} LegalAllMeans(body: Stmts, ctx: Context)
    requires ctx.depth <= MAX_NESTING
    ensures LegalAll(body, ctx)
      <==> ctx.depth + HeightAll(body) <= MAX_NESTING && ShortChainsAll(body)
           && JumpsPlacedAll(body, ctx.loops > 0, ctx.switches > 0)
    decreases body
  {
    hide Legal, Height, ShortChains, JumpsPlaced, Left;
    if body.Then? {
      assert forall run :: LegalRun(run, ctx) <==> JumpPlaced(run, ctx.loops > 0, ctx.switches > 0);
      LegalMeans(body.first, ctx);
      LegalAllMeans(body.rest, ctx);
    }
  }

  lemma {:induction false} LegalHandlersMeans(handlers: Handlers, ctx: Context)
    requires ctx.depth <= MAX_NESTING
    ensures LegalHandlers(handlers, ctx)
      <==> ctx.depth + HeightHandlers(handlers) <= MAX_NESTING && ShortChainsHandlers(handlers)
           && JumpsPlacedHandlers(handlers, ctx.loops > 0, ctx.switches > 0)
    decreases handlers
  {
    hide LegalBody, HeightBody, ShortChains, JumpsPlaced;
    if handlers.Handler? {
      LegalBodyMeans(handlers.body, ctx);
      LegalHandlersMeans(handlers.rest, ctx);
    }
  }
}
