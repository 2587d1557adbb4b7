/** Statement trees of a C++ function body: how they are spelled, which of them are well formed,
  what they score, and which bounds the parser puts on them. */
module StatementTrees {
  import opened Basics
  import opened ControlTokens
  import opened ControlReader

  /** A statement with the attribute groups before it. The attributes between a control's header and
    the statement it controls are those of the controlled statement.

    `Cut` is an expression statement with colons outside its parentheses and braces, as `x = c ? a : b;`,
    given by the pieces in which the parser reads it. */
  datatype Stmt = Stmt(attributes: seq<seq<Token>>, node: Node)

  datatype Node =
    | Plain(run: seq<Token>)
    | Cut(pieces: seq<seq<Token>>)
    | Block(body: Stmts)
    | Conditional(head: seq<Token>, guarded: Stmt, alternative: Alternative)
    | Controlling(word: Token, header: seq<Token>, controlled: Stmt)
    | DoWhile(controlled: Stmt, header: seq<Token>)
    | TryCatch(block: Stmts, handlers: Handlers)

  datatype Alternative = NoElse | ElseBranch(body: Stmt)

  datatype Stmts = Done | Then(first: Stmt, rest: Stmts)

  datatype Handlers = NoHandler | Handler(header: seq<Token>, body: Stmt, rest: Handlers)

  // -------------------------------------------------------------------- spelling

  function Flat(groups: seq<seq<Token>>): seq<Token> {
    if groups == [] then [] else groups[0] + Flat(groups[1..])
  }

  function Spell(s: Stmt): seq<Token>
    decreases s
  {
    Flat(s.attributes) + SpellNode(s.node)
  }

  function SpellNode(node: Node): seq<Token>
    decreases node
  {
    match node
    case Plain(run) => run
    case Cut(pieces) => Flat(pieces)
    case Block(body) => SpellBlock(body)
    case Conditional(head, guarded, alternative) => [KwIf] + (head + (Spell(guarded) + SpellAlternative(alternative)))
    case Controlling(word, header, controlled) => [word] + (header + Spell(controlled))
    case DoWhile(controlled, header) => [KwDo] + (Spell(controlled) + ([KwWhile] + (header + [Semicolon])))
    case TryCatch(block, handlers) => [KwTry] + (SpellBlock(block) + SpellHandlers(handlers))
  }

  function SpellBlock(body: Stmts): seq<Token>
    decreases body, 1
  {
    [OpenBrace] + (SpellAll(body) + [CloseBrace])
  }

  function SpellAll(body: Stmts): seq<Token>
    decreases body, 0
  {
    match body
    case Done => []
    case Then(first, rest) => Spell(first) + SpellAll(rest)
  }

  function SpellAlternative(alternative: Alternative): seq<Token>
    decreases alternative
  {
    match alternative
    case NoElse => []
    case ElseBranch(body) => [KwElse] + Spell(body)
  }

  function SpellHandlers(handlers: Handlers): seq<Token>
    decreases handlers
  {
    match handlers
    case NoHandler => []
    case Handler(header, body, rest) => [KwCatch] + (header + (Spell(body) + SpellHandlers(rest)))
  }

  // ------------------------------------------------------------- well-formedness

  /** One bracketed group, from an opening delimiter to the one that closes it. */
  predicate IsGroup(g: seq<Token>, opening: Token, closing: Token) {
    |g| > 0 && g[0] == opening && Balance(g, 1, opening, closing, 1) == Some(|g|)
  }

  /** How many more opening than closing delimiters of a kind stand before token `i`. */
  function Net(run: seq<Token>, i: nat, opening: Token, closing: Token): int
    requires i <= |run|
  {
    if i == 0 then 0
    else
      Net(run, i - 1, opening, closing)
      + if run[i - 1] == opening then 1 else if run[i - 1] == closing then -1 else 0
  }

  /** No parenthesis and no brace is open before token `i`. */
  predicate Outside(run: seq<Token>, i: nat)
    requires i <= |run|
  {
    Net(run, i, OpenParen, CloseParen) == 0 && Net(run, i, OpenBrace, CloseBrace) == 0
  }

  /** Parentheses and braces are closed only after they are opened. */
  predicate NetHolds(run: seq<Token>, i: nat)
    requires i <= |run|
  {
    Net(run, i, OpenParen, CloseParen) >= 0 && Net(run, i, OpenBrace, CloseBrace) >= 0
  }

  predicate Terminates(token: Token) {
    token.Semicolon? || token.Colon?
  }

  predicate PlainStart(token: Token) {
    !StartsFlow(token) && !token.OpenBrace? && !token.CloseBrace? && !token.OpenAttribute?
  }

  predicate InnerToken(run: seq<Token>, i: nat)
    requires i < |run|
  {
    Outside(run, i) ==> !Terminates(run[i]) && (i > 0 ==> !StartsFlow(run[i]))
  }

  /** A labelled or terminated token run: its parentheses and its braces are closed, it ends with `;` or `:`,
    and no other `;`, `:` or flow keyword stands outside of them. Square brackets do not count, as in the
    first piece of `v[c ? a : b];`. */
  predicate IsRun(run: seq<Token>) {
    && run != []
    && PlainStart(run[0])
    && (forall i: nat | i <= |run| :: NetHolds(run, i))
    && Outside(run, |run|)
    && Terminates(run[|run| - 1])
    && forall i: nat | i < |run| - 1 :: InnerToken(run, i)
  }

  predicate EndsWith(run: seq<Token>, token: Token) {
    run != [] && run[|run| - 1] == token
  }

  /** One statement, cut behind each colon outside its parentheses and braces. */
  predicate IsCut(pieces: seq<seq<Token>>) {
    && pieces != []
    && (forall piece | piece in pieces :: IsRun(piece))
    && (forall k | 0 <= k < |pieces| - 1 :: EndsWith(pieces[k], Colon))
    && EndsWith(pieces[|pieces| - 1], Semicolon)
  }

  /** The keywords of an `if` head. */
  function HeadWords(constexpr_: bool, negated: bool): seq<Token> {
    (if constexpr_ then [KwConstexpr] else []) + if negated then [Bang] else []
  }

  predicate IsConstevalHead(head: seq<Token>) {
    exists constexpr_, negated :: head == HeadWords(constexpr_, negated) + [KwConsteval]
  }

  predicate IsHead(head: seq<Token>) {
    || IsConstevalHead(head)
    || IsGroup(head, OpenParen, CloseParen)
    || (head != [] && head[0] == KwConstexpr && IsGroup(head[1..], OpenParen, CloseParen))
  }

  /** Whether a statement would take a following `token` as its own: an `else` without a partner, or a
    further handler. */
  predicate Open(s: Stmt, token: Token)
    decreases s
  {
    OpenNode(s.node, token)
  }

  predicate OpenNode(node: Node, token: Token)
    decreases node
  {
    match node
    case Plain(_) => false
    case Cut(_) => false
    case Block(_) => false
    case Conditional(_, guarded, NoElse) => token.KwElse? || Open(guarded, token)
    case Conditional(_, _, ElseBranch(body)) => Open(body, token)
    case Controlling(_, _, controlled) => Open(controlled, token)
    case DoWhile(_, _) => false
    case TryCatch(_, handlers) => token.KwCatch? || OpenHandlers(handlers, token)
  }

  predicate OpenHandlers(handlers: Handlers, token: Token)
    decreases handlers
  {
    match handlers
    case NoHandler => false
    case Handler(_, body, NoHandler) => token.KwCatch? || Open(body, token)
    case Handler(_, _, rest) => OpenHandlers(rest, token)
  }

  predicate WellFormed(s: Stmt)
    decreases s
  {
    (forall g | g in s.attributes :: IsGroup(g, OpenAttribute, CloseAttribute)) && WellFormedNode(s.node)
  }

  predicate WellFormedNode(node: Node)
    decreases node
  {
    match node
    case Plain(run) => IsRun(run)
    case Cut(pieces) => IsCut(pieces)
    case Block(body) => WellFormedAll(body)
    case Conditional(head, guarded, alternative) =>
      && IsHead(head)
      && WellFormed(guarded)
      && WellFormedAlternative(alternative)
      && (alternative.ElseBranch? ==> !Open(guarded, KwElse))
      && (IsConstevalHead(head) ==> guarded.node.Block?)
      && (IsConstevalHead(head) && alternative.ElseBranch? ==>
            alternative.body.node.Conditional? || alternative.body.node.Block?)
    case Controlling(word, header, controlled) =>
      && (word.KwFor? || word.KwWhile? || word.KwSwitch?)
      && IsGroup(header, OpenParen, CloseParen)
      && WellFormed(controlled)
    case DoWhile(controlled, header) => WellFormed(controlled) && IsGroup(header, OpenParen, CloseParen)
    case TryCatch(block, handlers) => WellFormedAll(block) && handlers.Handler? && WellFormedHandlers(handlers)
  }

  predicate WellFormedAll(body: Stmts)
    decreases body
  {
    match body
    case Done => true
    case Then(first, rest) => WellFormed(first) && WellFormedAll(rest)
  }

  predicate WellFormedAlternative(alternative: Alternative)
    decreases alternative
  {
    match alternative
    case NoElse => true
    case ElseBranch(body) => WellFormed(body)
  }

  predicate WellFormedHandlers(handlers: Handlers)
    decreases handlers
  {
    match handlers
    case NoHandler => true
    case Handler(header, body, rest) =>
      && IsGroup(header, OpenParen, CloseParen)
      && WellFormed(body)
      && WellFormedHandlers(rest)
      && (rest.Handler? ==> !Open(body, KwCatch))
  }

  // -------------------------------------------------------------- where reading ends

  /** The pieces at the end of a statement that the parser leaves for the enclosing list: all but the
    first, when the statement ends with a cut one. */
  function Left(s: Stmt): seq<seq<Token>>
    decreases s
  {
    LeftNode(s.node)
  }

  function LeftNode(node: Node): seq<seq<Token>>
    decreases node
  {
    match node
    case Plain(_) => []
    case Cut(pieces) => if pieces == [] then [] else pieces[1..]
    case Block(_) => []
    case Conditional(_, guarded, NoElse) => Left(guarded)
    case Conditional(_, _, ElseBranch(body)) => Left(body)
    case Controlling(_, _, controlled) => Left(controlled)
    case DoWhile(_, _) => []
    case TryCatch(_, handlers) => LeftHandlers(handlers)
  }

  function LeftHandlers(handlers: Handlers): seq<seq<Token>>
    decreases handlers
  {
    match handlers
    case NoHandler => []
    case Handler(_, body, NoHandler) => Left(body)
    case Handler(_, _, rest) => LeftHandlers(rest)
  }

  /** How many tokens of a statement are read as that statement. */
  function Ends(s: Stmt): nat
    decreases s
  {
    |Flat(s.attributes)| + EndsNode(s.node)
  }

  function EndsNode(node: Node): nat
    decreases node
  {
    match node
    case Plain(run) => |run|
    case Cut(pieces) => if pieces == [] then 0 else |pieces[0]|
    case Block(body) => |SpellBlock(body)|
    case Conditional(head, guarded, NoElse) => 1 + |head| + Ends(guarded)
    case Conditional(head, guarded, ElseBranch(body)) => 1 + |head| + |Spell(guarded)| + 1 + Ends(body)
    case Controlling(_, header, controlled) => 1 + |header| + Ends(controlled)
    case DoWhile(controlled, header) => 1 + |Spell(controlled)| + 1 + |header| + 1
    case TryCatch(block, handlers) => 1 + |SpellBlock(block)| + EndsHandlers(handlers)
  }

  function EndsHandlers(handlers: Handlers): nat
    decreases handlers
  {
    match handlers
    case NoHandler => 0
    case Handler(header, body, NoHandler) => 1 + |header| + Ends(body)
    case Handler(header, body, rest) => 1 + |header| + |Spell(body)| + EndsHandlers(rest)
  }

  /** Nothing is left before an `else`, before the `while` of a `do`, or before a further handler. */
  predicate Placed(s: Stmt)
    decreases s
  {
    PlacedNode(s.node)
  }

  predicate PlacedNode(node: Node)
    decreases node
  {
    match node
    case Plain(_) => true
    case Cut(_) => true
    case Block(body) => PlacedAll(body)
    case Conditional(_, guarded, alternative) =>
      Placed(guarded) && (alternative.ElseBranch? ==> Left(guarded) == [] && Placed(alternative.body))
    case Controlling(_, _, controlled) => Placed(controlled)
    case DoWhile(controlled, _) => Placed(controlled) && Left(controlled) == []
    case TryCatch(block, handlers) => PlacedAll(block) && PlacedHandlers(handlers)
  }

  predicate PlacedAll(body: Stmts)
    decreases body
  {
    match body
    case Done => true
    case Then(first, rest) => Placed(first) && PlacedAll(rest)
  }

  predicate PlacedHandlers(handlers: Handlers)
    decreases handlers
  {
    match handlers
    case NoHandler => true
    case Handler(_, body, rest) => Placed(body) && (rest.Handler? ==> Left(body) == []) && PlacedHandlers(rest)
  }

  // ------------------------------------------------------------------- the score

  /** What a statement at nesting `n` scores: 1 + nesting per control, handler and `else`, and nothing
    more for an `if` that continues an `else`. */
  function Scored(s: Stmt, n: nat): Score
    decreases s, 0
  {
    ScoredNode(s.node, n, true)
  }

  function ScoredNode(node: Node, n: nat, first: bool): Score
    decreases node
  {
    match node
    case Plain(_) => ZERO
    case Cut(_) => ZERO
    case Block(body) => ScoredAll(body, n)
    case Conditional(_, guarded, alternative) =>
      Plus(Plus(if first then Points(1 + n) else ZERO, ScoredBody(guarded, n + 1)), ScoredAlternative(alternative, n))
    case Controlling(_, _, controlled) => Plus(Points(1 + n), ScoredBody(controlled, n + 1))
    case DoWhile(controlled, _) => Plus(Points(1 + n), ScoredBody(controlled, n + 1))
    case TryCatch(block, handlers) => Plus(ScoredAll(block, n), ScoredHandlers(handlers, n))
  }

  /** A controlled statement: a block deepens the nesting, anything else counts as unbraced. */
  function ScoredBody(s: Stmt, n: nat): Score
    decreases s, 1
  {
    if s.node.Block? then Plus(Score(0, n, 0), ScoredNode(s.node, n, true)) else Plus(Score(0, 0, 1), Scored(s, n))
  }

  function ScoredAll(body: Stmts, n: nat): Score
    decreases body
  {
    match body
    case Done => ZERO
    case Then(first, rest) => Plus(Scored(first, n), ScoredAll(rest, n))
  }

  function ScoredAlternative(alternative: Alternative, n: nat): Score
    decreases alternative
  {
    match alternative
    case NoElse => ZERO
    case ElseBranch(body) =>
      Plus(Points(1 + n), if body.node.Conditional? then ScoredNode(body.node, n, false) else ScoredBody(body, n + 1))
  }

  function ScoredHandlers(handlers: Handlers, n: nat): Score
    decreases handlers
  {
    match handlers
    case NoHandler => ZERO
    case Handler(_, body, rest) => Plus(Plus(Points(1 + n), ScoredBody(body, n + 1)), ScoredHandlers(rest, n))
  }

  // ------------------------------------------------------------------ the bounds

  function InLoop(ctx: Context): Context {
    ctx.(loops := ctx.loops + 1)
  }

  function InHeaded(word: Token, ctx: Context): Context {
    if word.KwSwitch? then ctx.(switches := ctx.switches + 1) else InLoop(ctx)
  }

  /** The run does not start with a jump or label that is out of place. */
  predicate LegalRun(run: seq<Token>, ctx: Context) {
    run != [] ==> !BadStart(run[0], ctx)
  }

  predicate LegalRuns(runs: seq<seq<Token>>, ctx: Context) {
    forall run | run in runs :: LegalRun(run, ctx)
  }

  /** Whether a statement stays within the bounds when parsed in `ctx`: at most 128 statements and 128
    links of a chain inside each other, jumps and labels only where a loop or a switch is around. The
    pieces a statement leaves belong to the list around it. */
  predicate Legal(s: Stmt, ctx: Context)
    decreases s, 0
  {
    ctx.depth + 1 <= MAX_NESTING && LegalNode(s.node, ctx.(depth := ctx.depth + 1), 0)
  }

  predicate LegalNode(node: Node, ctx: Context, chain: nat)
    decreases node
  {
    match node
    case Plain(run) => LegalRun(run, ctx)
    case Cut(pieces) => pieces != [] ==> LegalRun(pieces[0], ctx)
    case Block(body) => LegalAll(body, ctx)
    case Conditional(_, guarded, alternative) =>
      chain + 1 <= MAX_NESTING && LegalBody(guarded, ctx) && LegalAlternative(alternative, ctx, chain + 1)
    case Controlling(word, _, controlled) => LegalBody(controlled, InHeaded(word, ctx))
    case DoWhile(controlled, _) => LegalBody(controlled, InLoop(ctx))
    case TryCatch(block, handlers) => LegalAll(block, ctx) && LegalHandlers(handlers, ctx)
  }

  predicate LegalBody(s: Stmt, ctx: Context)
    decreases s, 1
  {
    if s.node.Block? then LegalNode(s.node, ctx, 0) else Legal(s, ctx)
  }

  predicate LegalAll(body: Stmts, ctx: Context)
    decreases body
  {
    match body
    case Done => true
    case Then(first, rest) => Legal(first, ctx) && LegalRuns(Left(first), ctx) && LegalAll(rest, ctx)
  }

  predicate LegalAlternative(alternative: Alternative, ctx: Context, chain: nat)
    decreases alternative
  {
    match alternative
    case NoElse => true
    case ElseBranch(body) => if body.node.Conditional? then LegalNode(body.node, ctx, chain) else LegalBody(body, ctx)
  }

  predicate LegalHandlers(handlers: Handlers, ctx: Context)
    decreases handlers
  {
    match handlers
    case NoHandler => true
    case Handler(_, body, rest) => LegalBody(body, ctx) && LegalHandlers(rest, ctx)
  }
}
