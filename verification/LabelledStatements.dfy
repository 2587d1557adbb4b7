/** Statements behind a label that is itself controlled, as in `switch (x) case k: while (y) z();`. The
  parser takes the label as the controlled statement and reads what it labels in the list around it. */
module LabelledStatements {
  import opened Basics
  import opened ControlTokens
  import opened ControlReader
  import opened StatementTrees
  import opened TokenRuns
  import opened CognitiveScore
  import opened ConditionalExpressions

  // --------------------------------------------------------------- what a label stands for

  /** How much deeper than a statement the label at its end stands, if it ends with one. */
  function Labels(node: Node): Option<nat>
    decreases node
  {
    match node
    case Plain(run) => if EndsWith(run, Colon) then Some(0) else None
    case Cut(_) => None
    case Block(_) => None
    case Conditional(_, guarded, NoElse) => Deeper(Labels(guarded.node))
    case Conditional(_, _, ElseBranch(body)) =>
      if body.node.Conditional? then Labels(body.node) else Deeper(Labels(body.node))
    case Controlling(_, _, controlled) => Deeper(Labels(controlled.node))
    case DoWhile(_, _) => None
    case TryCatch(_, handlers) => LabelsHandlers(handlers)
  }

  function LabelsHandlers(handlers: Handlers): Option<nat>
    decreases handlers
  {
    match handlers
    case NoHandler => None
    case Handler(_, body, NoHandler) => Deeper(Labels(body.node))
    case Handler(_, _, rest) => LabelsHandlers(rest)
  }

  function Deeper(depth: Option<nat>): Option<nat> {
    match depth
    case None => None
    case Some(d) => Some(d + 1)
  }

  /** Where the statement behind `node` stands: as deep as the label at its end, or back in the list. */
  function Behind(node: Node, here: nat, list: nat): nat {
    match Labels(node)
    case None => list
    case Some(d) => here + d
  }

  // ------------------------------------------------------------ the score that C++ means

  /** The cognitive score when a label takes the statement behind it along: 1 + nesting per control,
    handler and `else`, and nothing more for an `if` that continues an `else`. */
  function Meant(node: Node, n: nat, first: bool): nat
    decreases node
  {
    match node
    case Plain(_) => 0
    case Cut(_) => 0
    case Block(body) => MeantAll(body, n, n)
    case Conditional(_, guarded, NoElse) => (if first then 1 + n else 0) + Meant(guarded.node, n + 1, true)
    case Conditional(_, guarded, ElseBranch(body)) =>
      (if first then 1 + n else 0) + Meant(guarded.node, n + 1, true)
      + (1 + n) + if body.node.Conditional? then Meant(body.node, n, false) else Meant(body.node, n + 1, true)
    case Controlling(_, _, controlled) => 1 + n + Meant(controlled.node, n + 1, true)
    case DoWhile(controlled, _) => 1 + n + Meant(controlled.node, n + 1, true)
    case TryCatch(block, handlers) => MeantAll(block, n, n) + MeantHandlers(handlers, n)
  }

  /** A list at nesting `n` whose first statement stands at `here`, behind the labels before it. */
  function MeantAll(body: Stmts, here: nat, n: nat): nat
    decreases body
  {
    match body
    case Done => 0
    case Then(first, rest) => Meant(first.node, here, true) + MeantAll(rest, Behind(first.node, here, n), n)
  }

  function MeantHandlers(handlers: Handlers, n: nat): nat
    decreases handlers
  {
    match handlers
    case NoHandler => 0
    case Handler(_, body, rest) => 1 + n + Meant(body.node, n + 1, true) + MeantHandlers(rest, n)
  }

  // --------------------------------------------------------- what one more level of nesting costs

  /** The increments of a statement that grow with its nesting. */
  function Weight(node: Node, first: bool): nat
    decreases node
  {
    match node
    case Plain(_) => 0
    case Cut(_) => 0
    case Block(body) => WeightAll(body)
    case Conditional(_, guarded, NoElse) => (if first then 1 else 0) + Weight(guarded.node, true)
    case Conditional(_, guarded, ElseBranch(body)) =>
      (if first then 1 else 0) + Weight(guarded.node, true) + 1 + Weight(body.node, !body.node.Conditional?)
    case Controlling(_, _, controlled) => 1 + Weight(controlled.node, true)
    case DoWhile(controlled, _) => 1 + Weight(controlled.node, true)
    case TryCatch(block, handlers) => WeightAll(block) + WeightHandlers(handlers)
  }

  function WeightAll(body: Stmts): nat
    decreases body
  {
    match body
    case Done => 0
    case Then(first, rest) => Weight(first.node, true) + WeightAll(rest)
  }

  function WeightHandlers(handlers: Handlers): nat
    decreases handlers
  {
    match handlers
    case NoHandler => 0
    case Handler(_, body, rest) => 1 + Weight(body.node, true) + WeightHandlers(rest)
  }

  lemma {:induction false} OneDeeper(node: Node, n: nat, first: bool)
    ensures Meant(node, n + 1, first) == Meant(node, n, first) + Weight(node, first)
    decreases node, 1
  {
    hide MeantAll, WeightAll, MeantHandlers, WeightHandlers, Labels;
    match node
    case Plain(_) =>
    case Cut(_) =>
    case Block(body) => OneDeeperAll(body, n, n);
    case Conditional(_, _, _) => OneDeeperConditional(node, n, first);
    case Controlling(_, _, controlled) => OneDeeper(controlled.node, n + 1, true);
    case DoWhile(controlled, _) => OneDeeper(controlled.node, n + 1, true);
    case TryCatch(block, handlers) =>
      OneDeeperAll(block, n, n);
      OneDeeperHandlers(handlers, n);
  }

  lemma {:induction false} OneDeeperConditional(node: Node, n: nat, first: bool)
    requires node.Conditional?
    ensures Meant(node, n + 1, first) == Meant(node, n, first) + Weight(node, first)
    decreases node, 0
  {
    hide MeantAll, WeightAll, MeantHandlers, WeightHandlers, Labels;
    OneDeeper(node.guarded.node, n + 1, true);
    if node.alternative.ElseBranch? {
      var body := node.alternative.body.node;
      if body.Conditional? {
        OneDeeper(body, n, false);
      } else {
        OneDeeper(body, n + 1, true);
      }
    }
  }

  lemma {:induction false} OneDeeperAll(body: Stmts, here: nat, n: nat)
    ensures MeantAll(body, here + 1, n + 1) == MeantAll(body, here, n) + WeightAll(body)
    decreases body
  {
    hide Meant, Weight, Labels;
    if body.Then? {
      OneDeeper(body.first.node, here, true);
      OneDeeperAll(body.rest, Behind(body.first.node, here, n), n);
    }
  }

  lemma {:induction false} OneDeeperHandlers(handlers: Handlers, n: nat)
    ensures MeantHandlers(handlers, n + 1) == MeantHandlers(handlers, n) + WeightHandlers(handlers)
    decreases handlers
  {
    hide Meant, Weight;
    if handlers.Handler? {
      OneDeeper(handlers.body.node, n + 1, true);
      OneDeeperHandlers(handlers.rest, n);
    }
  }

  /** A statement `d` levels deeper scores `d` more per increment. */
  lemma {:induction false} MuchDeeper(node: Node, n: nat, d: nat)
    ensures Meant(node, n + d, true) == Meant(node, n, true) + d * Weight(node, true)
  {
    hide Meant, Weight;
    if d > 0 {
      MuchDeeper(node, n, d - 1);
      OneDeeper(node, n + d - 1, true);
    }
  }

  // -------------------------------------------------------------- what the parser leaves out

  /** What the parser scores too little: the increments of each statement behind a label, once per level
    that the label stands deeper than the list. */
  function Missed(node: Node): nat
    decreases node
  {
    match node
    case Plain(_) => 0
    case Cut(_) => 0
    case Block(body) => MissedAll(body, 0)
    case Conditional(_, guarded, NoElse) => Missed(guarded.node)
    case Conditional(_, guarded, ElseBranch(body)) => Missed(guarded.node) + Missed(body.node)
    case Controlling(_, _, controlled) => Missed(controlled.node)
    case DoWhile(controlled, _) => Missed(controlled.node)
    case TryCatch(block, handlers) => MissedAll(block, 0) + MissedHandlers(handlers)
  }

  function MissedAll(body: Stmts, depth: nat): nat
    decreases body
  {
    match body
    case Done => 0
    case Then(first, rest) =>
      Missed(first.node) + depth * Weight(first.node, true) + MissedAll(rest, Behind(first.node, depth, 0))
  }

  function MissedHandlers(handlers: Handlers): nat
    decreases handlers
  {
    match handlers
    case NoHandler => 0
    case Handler(_, body, rest) => Missed(body.node) + MissedHandlers(rest)
  }

  lemma BodyScore(s: Stmt, n: nat)
    ensures ScoredBody(s, n).cognitive == ScoredNode(s.node, n, true).cognitive
    ensures Scored(s, n) == ScoredNode(s.node, n, true)
  {
  }

  lemma {:induction false} MissedScore(node: Node, n: nat, first: bool)
    ensures Meant(node, n, first) == ScoredNode(node, n, first).cognitive + Missed(node)
    decreases node, 1
  {
    hide Max, MeantAll, MissedAll, ScoredAll, MeantHandlers, MissedHandlers, ScoredHandlers, ScoredBody, Labels;
    match node
    case Plain(_) =>
    case Cut(_) =>
    case Block(body) => MissedScoreAll(body, 0, n);
    case Conditional(_, _, _) => MissedScoreConditional(node, n, first);
    case Controlling(_, _, controlled) =>
      BodyScore(controlled, n + 1);
      MissedScore(controlled.node, n + 1, true);
    case DoWhile(controlled, _) =>
      BodyScore(controlled, n + 1);
      MissedScore(controlled.node, n + 1, true);
    case TryCatch(block, handlers) =>
      MissedScoreAll(block, 0, n);
      MissedScoreHandlers(handlers, n);
  }

  lemma {:induction false} MissedScoreConditional(node: Node, n: nat, first: bool)
    requires node.Conditional?
    ensures Meant(node, n, first) == ScoredNode(node, n, first).cognitive + Missed(node)
    decreases node, 0
  {
    hide Max, MeantAll, MissedAll, ScoredAll, MeantHandlers, MissedHandlers, ScoredHandlers, ScoredBody, Labels;
    BodyScore(node.guarded, n + 1);
    MissedScore(node.guarded.node, n + 1, true);
    if node.alternative.ElseBranch? {
      var body := node.alternative.body;
      if body.node.Conditional? {
        MissedScore(body.node, n, false);
      } else {
        BodyScore(body, n + 1);
        MissedScore(body.node, n + 1, true);
      }
    }
  }

  lemma {:induction false} MissedScoreAll(body: Stmts, depth: nat, n: nat)
    ensures MeantAll(body, n + depth, n) == ScoredAll(body, n).cognitive + MissedAll(body, depth)
    decreases body
  {
    hide Max, Meant, Missed, Scored, ScoredNode, Labels, Weight;
    if body.Then? {
      BodyScore(body.first, n);
      MissedScore(body.first.node, n, true);
      MuchDeeper(body.first.node, n, depth);
      MissedScoreAll(body.rest, Behind(body.first.node, depth, 0), n);
    }
  }

  lemma {:induction false} MissedScoreHandlers(handlers: Handlers, n: nat)
    ensures MeantHandlers(handlers, n) == ScoredHandlers(handlers, n).cognitive + MissedHandlers(handlers)
    decreases handlers
  {
    hide Max, Meant, Missed, ScoredNode, ScoredBody;
    if handlers.Handler? {
      BodyScore(handlers.body, n + 1);
      MissedScore(handlers.body.node, n + 1, true);
      MissedScoreHandlers(handlers.rest, n);
    }
  }

  // ------------------------------------------------------------------------ the theorem

  /** An accepted function body scores what C++ means but for the increments missed behind controlled
    labels: never more, and the same exactly when there are none. */
  lemma LabelledScore(block: Stmts, handlers: Handlers)
    requires WellFormedAll(block) && WellFormedHandlers(handlers) && Body(SpellBody(block, handlers)).Parsed?
    ensures MeantAll(block, 0, 0) + MeantHandlers(handlers, 0)
            == Body(SpellBody(block, handlers)).score.cognitive + MissedAll(block, 0) + MissedHandlers(handlers)
  {
    hide Body, SpellBody, WellFormedAll, WellFormedHandlers, ScoredAll, ScoredHandlers, Max, MeantAll, MeantHandlers;
    hide MissedAll, MissedHandlers, LegalFunction, PlacedAll, PlacedHandlers;
    BodyIsScored(block, handlers);
    MissedScoreAll(block, 0, 0);
    MissedScoreHandlers(handlers, 0);
  }

  /** A list in which one statement labels the next: the score is the one meant exactly when it is for
    both, and the label stands no deeper than the list or what it labels has no increments. */
  lemma LabelledPair(first: Node, second: Node, n: nat)
    requires Labels(first).Some?
    ensures var pair := Then(Stmt([], first), Then(Stmt([], second), Done));
      MeantAll(pair, n, n) == ScoredAll(pair, n).cognitive
      <==> Missed(first) == 0 && Missed(second) == 0 && (Labels(first).value == 0 || Weight(second, true) == 0)
  {
    hide Labels, Missed, Weight, ScoredAll, MeantAll;
    var pair := Then(Stmt([], first), Then(Stmt([], second), Done));
    MissedScoreAll(pair, 0, n);
    var d, w := Labels(first).value, Weight(second, true);
    assert MissedAll(pair.rest, d) == Missed(second) + d * w by {
      assert MissedAll(Done, Behind(second, d, 0)) == 0;
    }
    assert MissedAll(pair, 0) == Missed(first) + (Missed(second) + d * w);
    if d > 0 && w > 0 {
      assert d * w >= 1 * w;
    }
  }

  // ---------------------------------------------------------------- a label before an `else`

  /** A list that comes to an `else` or a handler nobody awaits is refused. */
  lemma StatementThenStray(t: seq<Token>, p: nat, s: Stmt, ctx: Context, n: nat)
    requires Sits(t, p, Spell(s)) && WellFormed(s)
    requires p + |Spell(s)| < |t| && Stray(t[p + |Spell(s)|]) && !Open(s, t[p + |Spell(s)|])
    ensures Statements(t, p, ctx, n) == Rejected
  {
    hide Statement, Statements, Sits, WellFormed, Placed, Spell, Ends, Left, Legal, Scored, Open, IsRun, Stuck;
    StatementStarts(s);
    SitsAt(t, p, Spell(s), 0);
    StatementsContinue(t, p, ctx, n);
    if !Placed(s) {
      StatementStops(t, p, s, ctx, n);
      if Statement(t, p, ctx, n).Parsed? {
        StuckIsRefused(t, Statement(t, p, ctx, n).pos, ctx, n);
      }
    } else {
      LeftSits(t, p, s);
      if Left(s) != [] {
        PieceStarts(t, p + Ends(s), Left(s));
        SettledBy(t, p + Ends(s), s);
      }
      StatementReads(t, p, s, ctx, n);
      StrayRefused(t, p + Ends(s), Left(s), ctx, n);
    }
  }

  /** An `if` that controls a label. */
  function LabelUnder(head: seq<Token>, run: seq<Token>): Stmt {
    Stmt([], Conditional(head, Stmt([], Plain(run)), NoElse))
  }

  lemma PlainAlone(run: seq<Token>)
    ensures var plain := Stmt([], Plain(run));
      Ends(plain) == |run| && Placed(plain) && forall token :: !Open(plain, token)
  {
  }

  lemma GuardAlone(head: seq<Token>, guarded: Stmt)
    ensures var s := Stmt([], Conditional(head, guarded, NoElse));
      && (Placed(guarded) ==> Placed(s))
      && forall token :: Open(s, token) ==> token.KwElse? || Open(guarded, token)
  {
  }

  lemma LabelUnderSpells(head: seq<Token>, run: seq<Token>)
    requires IsHead(head) && !IsConstevalHead(head) && IsRun(run)
    ensures var s := LabelUnder(head, run);
      && Spell(s) == [KwIf] + (head + run) && Ends(s) == |Spell(s)|
      && WellFormed(s) && Placed(s) && forall token | Open(s, token) :: token.KwElse?
  {
    hide IsRun, IsHead, IsConstevalHead;
    var plain := Stmt([], Plain(run));
    BareStatement(plain.node);
    BareStatement(LabelUnder(head, run).node);
    PlainAlone(run);
    GuardAlone(head, plain);
    hide Placed, Open;
    assert WellFormed(plain) && WellFormedAlternative(NoElse);
    assert run + SpellAlternative(NoElse) == run;
  }

  /** `if (...) run inner else`, with a label for the run, is refused unless `inner` takes the `else`. */
  lemma LabelBeforeElse(t: seq<Token>, p: nat, head: seq<Token>, run: seq<Token>, inner: Stmt, ctx: Context, n: nat)
    requires IsHead(head) && IsRun(run) && EndsWith(run, Colon) && WellFormed(inner) && !Open(inner, KwElse)
    requires Sits(t, p, [KwIf] + (head + run) + (Spell(inner) + [KwElse]))
    ensures Statements(t, p, ctx, n) == Rejected
  {
    hide Statement, Statements, Sits, WellFormed, Placed, Spell, Ends, Legal, Scored, Open, IsRun, IsHead;
    hide IsConstevalHead;
    SitsSplit(t, p, [KwIf] + (head + run), Spell(inner) + [KwElse]);
    SitsAt(t, p, [KwIf] + (head + run), 0);
    StatementsContinue(t, p, ctx, n);
    if IsConstevalHead(head) {
      BlockMissing(t, p, head, run, ctx, n);
    } else {
      var s := LabelUnder(head, run);
      LabelUnderSpells(head, run);
      var e := p + |Spell(s)|;
      SitsSplit(t, e, Spell(inner), [KwElse]);
      SitsAt(t, e + |Spell(inner)|, [KwElse], 0);
      StatementThenStray(t, e, inner, ctx, n);
      StatementStarts(inner);
      SitsAt(t, e, Spell(inner), 0);
      StatementReads(t, p, s, ctx, n);
    }
  }

  /** `if consteval` needs a block. */
  lemma BlockMissing(t: seq<Token>, p: nat, head: seq<Token>, run: seq<Token>, ctx: Context, n: nat)
    requires IsHead(head) && IsConstevalHead(head) && IsRun(run) && Sits(t, p, [KwIf] + (head + run))
    ensures p < |t| && Statement(t, p, ctx, n) == Rejected
  {
    hide Sits, IsHead, IsConstevalHead, IsRun, If;
    SitsWord(t, p, KwIf, head + run);
    SitsSplit(t, p + 1, head, run);
    HeadReads(t, p + 1, head);
    RunStarts(run);
    SitsAt(t, p + 1 + |head|, run, 0);
    BlockAwaited(t, p, ctx.(depth := ctx.depth + 1), n);
    NoAttributes(t, p);
    StatementDispatches(t, p, p, ctx, n);
  }

  lemma RunStarts(run: seq<Token>)
    requires IsRun(run)
    ensures run != [] && !run[0].OpenBrace? && !run[0].OpenAttribute?
  {
  }

  lemma NoAttributes(t: seq<Token>, p: nat)
    requires p <= |t| && !At(t, p, OpenAttribute)
    ensures Attributes(t, p) == Parsed(p, ZERO)
  {
  }

  lemma BlockAwaited(t: seq<Token>, p: nat, ctx: Context, n: nat)
    requires At(t, p, KwIf) && IsConsteval(t, p + 1)
    requires var head := IfHead(t, p + 1);
      head.Parsed? ==> !At(t, head.pos, OpenAttribute) && !At(t, head.pos, OpenBrace)
    ensures If(t, p, ctx, n, 0) == Rejected
  {
    hide IfHead, IsConsteval, ControlledBody, Else;
    var head := IfHead(t, p + 1);
    if head.Parsed? {
      NoAttributes(t, head.pos);
    }
    assert IfThen(t, p, ctx, n, 0 == 0) == Rejected;
  }

  // ------------------------------------------------------------------------------- an input

  /** A control of one plain run. */
  function OneRun(word: Token, header: seq<Token>, run: seq<Token>): Stmt {
    Stmt([], Controlling(word, header, Stmt([], Plain(run))))
  }

  lemma PlainControlled(run: seq<Token>, n: nat)
    ensures ScoredBody(Stmt([], Plain(run)), n) == Score(0, 0, 1) && Left(Stmt([], Plain(run))) == []
  {
    assert ScoredNode(Plain(run), n, true) == ZERO;
  }

  lemma PlainLegal(run: seq<Token>, ctx: Context)
    requires ctx.depth < MAX_NESTING && LegalRun(run, ctx)
    ensures LegalBody(Stmt([], Plain(run)), ctx)
  {
    var inner := ctx.(depth := ctx.depth + 1);
    assert LegalRun(run, inner);
    hide LegalRun;
    assert LegalNode(Plain(run), inner, 0);
  }

  lemma OneRunReads(word: Token, header: seq<Token>, run: seq<Token>, n: nat)
    requires (word.KwWhile? || word.KwSwitch?) && IsGroup(header, OpenParen, CloseParen) && IsRun(run)
    ensures var s, ctx := OneRun(word, header, run), Context(0, 0, 0);
      && WellFormed(s) && Placed(s) && Left(s) == [] && Spell(s) == [word] + (header + run)
      && Scored(s, 0) == Score(1, 0, 1) && (LegalRun(run, InHeaded(word, ctx)) ==> Legal(s, ctx))
      && Meant(s.node, n, true) == 1 + n && Labels(s.node) == Deeper(Labels(Plain(run)))
  {
    hide IsGroup, IsRun, ScoredBody, LegalBody, Labels;
    var plain, s, ctx := Stmt([], Plain(run)), OneRun(word, header, run), Context(1, 0, 0);
    BareStatement(plain.node);
    BareStatement(s.node);
    PlainAlone(run);
    PlainControlled(run, 1);
    if LegalRun(run, InHeaded(word, Context(0, 0, 0))) {
      PlainLegal(run, InHeaded(word, ctx));
    }
    assert WellFormed(plain);
    assert LeftNode(s.node) == Left(plain);
    assert LegalNode(s.node, ctx, 0) == LegalBody(plain, InHeaded(word, ctx));
    OneRunLabels(word, header, run);
  }

  lemma OneRunLabels(word: Token, header: seq<Token>, run: seq<Token>)
    ensures Labels(OneRun(word, header, run).node) == Deeper(Labels(Plain(run)))
  {
  }

  /** Two statements of a list, the first of which labels the second one level deeper. */
  lemma PairReads(a: Stmt, b: Stmt)
    requires WellFormed(a) && WellFormed(b) && Placed(a) && Placed(b) && Left(a) == [] && Left(b) == []
    requires Legal(a, Context(0, 0, 0)) && Legal(b, Context(0, 0, 0)) && Labels(a.node) == Some(1)
    ensures var tree := Then(a, Then(b, Done));
      && SpellBody(tree, NoHandler) == [OpenBrace] + (Spell(a) + Spell(b) + [CloseBrace])
      && Body(SpellBody(tree, NoHandler))
         == Parsed(|SpellBody(tree, NoHandler)|, Plus(Scored(a, 0), Scored(b, 0)))
      && MeantAll(tree, 0, 0) == Meant(a.node, 0, true) + Meant(b.node, 1, true)
  {
    hide Body, WellFormed, Placed, Left, Spell, Scored, Legal, Meant, Labels;
    var tree := Then(a, Then(b, Done));
    assert PlacedHandlers(NoHandler) && WellFormedHandlers(NoHandler) && LegalHandlers(NoHandler, Context(0, 0, 0));
    assert LeftHandlers(NoHandler) == [] && SpellHandlers(NoHandler) == [] && ScoredHandlers(NoHandler, 0) == ZERO;
    assert SpellAll(Then(b, Done)) == Spell(b);
    assert SpellAll(tree) == Spell(a) + Spell(b);
    assert SpellBlock(tree) + [] == SpellBlock(tree);
    assert WellFormedAll(Then(b, Done)) && PlacedAll(Then(b, Done)) && LegalAll(Then(b, Done), Context(0, 0, 0));
    assert ScoredAll(Then(b, Done), 0) == Scored(b, 0);
    assert MeantAll(Then(b, Done), 1, 0) == Meant(b.node, 1, true);
    BodyIsScored(tree, NoHandler);
  }

  lemma CaseReads(x: Token, k: Token)
    requires x.Other? && k.Other?
    ensures var s := OneRun(KwSwitch, [OpenParen, x, CloseParen], [KwCase, k, Colon]);
      && WellFormed(s) && Placed(s) && Left(s) == [] && Legal(s, Context(0, 0, 0)) && Labels(s.node) == Some(1)
      && Spell(s) == [KwSwitch, OpenParen, x, CloseParen, KwCase, k, Colon]
      && Scored(s, 0) == Score(1, 0, 1) && Meant(s.node, 0, true) == 1
  {
    hide WellFormed, Placed, Left, Legal, Spell, Scored, Meant, IsRun, IsGroup, OneRun;
    var run := [KwCase, k, Colon];
    FlatRun(run);
    ShortHeader(x);
    OneRunReads(KwSwitch, [OpenParen, x, CloseParen], run, 0);
    assert Labels(Plain(run)) == Some(0);
  }

  lemma LoopReads(y: Token, z: Token)
    requires y.Other? && z.Other?
    ensures var s := OneRun(KwWhile, [OpenParen, y, CloseParen], [z, Semicolon]);
      && WellFormed(s) && Placed(s) && Left(s) == [] && Legal(s, Context(0, 0, 0))
      && Spell(s) == [KwWhile, OpenParen, y, CloseParen, z, Semicolon]
      && Scored(s, 0) == Score(1, 0, 1) && Meant(s.node, 1, true) == 2
  {
    hide WellFormed, Placed, Left, Legal, Spell, Scored, Meant, IsRun, IsGroup, OneRun, Labels;
    FlatRun([z, Semicolon]);
    ShortHeader(y);
    OneRunReads(KwWhile, [OpenParen, y, CloseParen], [z, Semicolon], 1);
  }

  /** `{ switch (x) case k: while (y) z; }` scores 2, and 3 is meant. */
  lemma LabelExample(x: Token, k: Token, y: Token, z: Token)
    requires x.Other? && k.Other? && y.Other? && z.Other?
    ensures var choice := OneRun(KwSwitch, [OpenParen, x, CloseParen], [KwCase, k, Colon]);
      var loop := OneRun(KwWhile, [OpenParen, y, CloseParen], [z, Semicolon]);
      var tree := Then(choice, Then(loop, Done));
      && SpellBody(tree, NoHandler)
         == [OpenBrace, KwSwitch, OpenParen, x, CloseParen, KwCase, k, Colon,
             KwWhile, OpenParen, y, CloseParen, z, Semicolon, CloseBrace]
      && Body(SpellBody(tree, NoHandler)) == Parsed(15, Score(2, 0, 2)) && MeantAll(tree, 0, 0) == 3
  {
    hide Body, SpellBody, MeantAll, Spell, WellFormed, Placed, Left, Scored, Legal, Meant, OneRun, Labels;
    var choice := OneRun(KwSwitch, [OpenParen, x, CloseParen], [KwCase, k, Colon]);
    var loop := OneRun(KwWhile, [OpenParen, y, CloseParen], [z, Semicolon]);
    CaseReads(x, k);
    LoopReads(y, z);
    PairReads(choice, loop);
    hide *;
    assert [OpenBrace] + ([KwSwitch, OpenParen, x, CloseParen, KwCase, k, Colon]
                          + [KwWhile, OpenParen, y, CloseParen, z, Semicolon] + [CloseBrace])
      == [OpenBrace, KwSwitch, OpenParen, x, CloseParen, KwCase, k, Colon,
          KwWhile, OpenParen, y, CloseParen, z, Semicolon, CloseBrace];
  }
}
