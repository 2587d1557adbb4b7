/** What the control-flow parser computes, as functions of the tokens and a position.

  A result carries the position after the construct and what the construct adds to the metric.
  The imperative parser is proved against these functions (module ControlParser); what the score
  means is proved about them (module CognitiveScore).
*/
module ControlReader {
  import opened Basics
  import opened ControlTokens

  const MAX_NESTING := 128

  /** What a construct adds: increments, the deepest braced nesting, and unbraced controls. */
  datatype Score = Score(cognitive: nat, nesting: nat, unbraced: nat)

  const ZERO := Score(0, 0, 0)

  function Plus(a: Score, b: Score): Score {
    Score(a.cognitive + b.cognitive, Max(a.nesting, b.nesting), a.unbraced + b.unbraced)
  }

  function Points(n: nat): Score {
    Score(n, 0, 0)
  }

  /** How deep the parser is: statements being parsed, loops and switches around. */
  datatype Context = Context(depth: nat, loops: nat, switches: nat)

  datatype Parsed = Rejected | Parsed(pos: nat, score: Score) {
    predicate IsFailure() { Rejected? }
    function PropagateFailure(): Parsed requires Rejected? { this }
    function Extract(): (nat, Score) requires Parsed? { (pos, score) }
  }

  predicate Within(t: seq<Token>, p: nat, r: Parsed) {
    r.Parsed? ==> p <= r.pos <= |t|
  }

  predicate Advances(t: seq<Token>, p: nat, r: Parsed) {
    r.Parsed? ==> p < r.pos <= |t|
  }

  /** Whether the next token is `expected`. */
  predicate At(t: seq<Token>, p: nat, expected: Token) {
    p < |t| && t[p] == expected
  }

  function Take(t: seq<Token>, p: nat, expected: Token): (r: Parsed)
    ensures Advances(t, p, r)
  {
    if At(t, p, expected) then Parsed(p + 1, ZERO) else Rejected
  }

  function Balanced(t: seq<Token>, p: nat, opening: Token, closing: Token): (r: Parsed)
    ensures Advances(t, p, r)
  {
    if !At(t, p, opening) then Rejected
    else
      match Balance(t, p + 1, opening, closing, 1)
      case None => Rejected
      case Some(q) => Parsed(q, ZERO)
  }

  function Attributes(t: seq<Token>, p: nat): (r: Parsed)
    requires p <= |t|
    ensures Within(t, p, r)
    decreases |t| - p
  {
    if !At(t, p, OpenAttribute) then Parsed(p, ZERO)
    else
      var (q, _) :- Balanced(t, p, OpenAttribute, CloseAttribute);
      Attributes(t, q)
  }

  function Header(t: seq<Token>, p: nat): (r: Parsed)
    ensures Advances(t, p, r)
  {
    Balanced(t, p, OpenParen, CloseParen)
  }

  // --------------------------------------------------------- simple statements

  predicate BadStart(first: Token, ctx: Context) {
    || ((first.KwCase? || first.KwDefault?) && ctx.switches == 0)
    || (first.KwBreak? && ctx.loops == 0 && ctx.switches == 0)
    || (first.KwContinue? && ctx.loops == 0)
  }

  /** Keywords that end a token run outside all brackets. */
  predicate StartsFlow(token: Token) {
    IsControlWord(token) || token.KwCatch? || token.KwElse? || token.KwTry?
  }

  /** The rest of a simple statement from `q`, with open parentheses and initializer braces. */
  function SimpleFrom(t: seq<Token>, start: nat, q: nat, parentheses: nat, braces: nat): (r: Parsed)
    requires start <= q <= |t|
    ensures Advances(t, q, r)
    decreases |t| - q
  {
    if q == |t| then Rejected
    else
      var token := t[q];
      if q > start && parentheses == 0 && braces == 0 && StartsFlow(token) then Rejected
      else if token.CloseParen? && parentheses == 0 then Rejected
      else if token.CloseBrace? && braces == 0 && parentheses == 0 then Rejected
      else
        var parens := if token.OpenParen? then parentheses + 1
                      else if token.CloseParen? then parentheses - 1 else parentheses;
        var curly := if token.OpenBrace? then braces + 1
                     else if token.CloseBrace? && braces > 0 then braces - 1 else braces;
        if (token.Colon? || token.Semicolon?) && parens == 0 && curly == 0 then Parsed(q + 1, ZERO)
        else SimpleFrom(t, start, q + 1, parens, curly)
  }

  function Simple(t: seq<Token>, p: nat, ctx: Context): (r: Parsed)
    requires p < |t|
    ensures Advances(t, p, r)
  {
    if BadStart(t[p], ctx) then Rejected else SimpleFrom(t, p, p, 0, 0)
  }

  // ------------------------------------------------------------- control flow

  /** The score of `r`, on top of `before`. */
  function After(before: Score, r: Parsed): Parsed {
    match r
    case Rejected => Rejected
    case Parsed(pos, score) => Parsed(pos, Plus(before, score))
  }

  function Statement(t: seq<Token>, p: nat, ctx: Context, n: nat): (r: Parsed)
    requires p <= |t|
    ensures Within(t, p, r) && (p < |t| ==> Advances(t, p, r))
    decreases |t| - p, 3
  {
    if ctx.depth + 1 > MAX_NESTING then Rejected
    else
      var inner := ctx.(depth := ctx.depth + 1);
      var (q, _) :- Attributes(t, p);
      if q == |t| then Parsed(q, ZERO)
      else if t[q].OpenBrace? then Compound(t, q, inner, n)
      else if t[q].KwTry? then Try(t, q, inner, n)
      else if IsControlWord(t[q]) then Control(t, q, inner, n)
      else if t[q].KwCatch? || t[q].KwElse? || t[q].CloseBrace? then Rejected
      else Simple(t, q, inner)
  }

  function Statements(t: seq<Token>, p: nat, ctx: Context, n: nat): (r: Parsed)
    requires p <= |t|
    ensures Within(t, p, r)
    decreases |t| - p, 4
  {
    if p == |t| || t[p].CloseBrace? then Parsed(p, ZERO)
    else
      var (q, score) :- Statement(t, p, ctx, n);
      After(score, Statements(t, q, ctx, n))
  }

  function Compound(t: seq<Token>, p: nat, ctx: Context, n: nat): (r: Parsed)
    requires p <= |t|
    ensures Advances(t, p, r)
    decreases |t| - p, 1
  {
    var (q, _) :- Take(t, p, OpenBrace);
    var (e, score) :- Statements(t, q, ctx, n);
    After(score, Take(t, e, CloseBrace))
  }

  function ControlledBody(t: seq<Token>, p: nat, ctx: Context, n: nat): (r: Parsed)
    requires p <= |t|
    ensures Within(t, p, r)
    decreases |t| - p, 5
  {
    if At(t, p, OpenBrace) then After(Score(0, n, 0), Compound(t, p, ctx, n))
    else After(Score(0, 0, 1), Statement(t, p, ctx, n))
  }

  /** The condition of an `if` with its keywords, and whether it is `consteval`. */
  function IfHead(t: seq<Token>, p: nat): (r: Parsed)
    requires p <= |t|
    ensures Advances(t, p, r)
  {
    var q := if At(t, p, KwConstexpr) then p + 1 else p;
    var e := if At(t, q, Bang) then q + 1 else q;
    if At(t, e, KwConsteval) then Parsed(e + 1, ZERO)
    else if e > q then Rejected
    else Header(t, q)
  }

  predicate IsConsteval(t: seq<Token>, p: nat) {
    var q := if At(t, p, KwConstexpr) then p + 1 else p;
    At(t, if At(t, q, Bang) then q + 1 else q, KwConsteval)
  }

  /** An `if` up to its `else`; only the first of a chain scores. */
  function IfThen(t: seq<Token>, p: nat, ctx: Context, n: nat, scored: bool): (r: Parsed)
    requires p <= |t|
    ensures Advances(t, p, r)
    decreases |t| - p, 0
  {
    var (h, _) :- Take(t, p, KwIf);
    var (a, _) :- IfHead(t, h);
    var (b, _) :- Attributes(t, a);
    if IsConsteval(t, h) && !At(t, b, OpenBrace) then Rejected
    else After(if scored then Points(1 + n) else ZERO, ControlledBody(t, b, ctx, n + 1))
  }

  /** An `if` and its else-if chain, `chain` links of which precede. */
  function If(t: seq<Token>, p: nat, ctx: Context, n: nat, chain: nat): (r: Parsed)
    requires p <= |t|
    ensures Advances(t, p, r)
    decreases |t| - p, 1
  {
    if chain + 1 > MAX_NESTING then Rejected
    else
      var (e, score) :- IfThen(t, p, ctx, n, chain == 0);
      After(score, Else(t, e, ctx, n, chain, IsConsteval(t, p + 1)))
  }

  /** What may follow the controlled statement of the `if` that is number `chain` of its chain. */
  function Else(t: seq<Token>, p: nat, ctx: Context, n: nat, chain: nat, consteval: bool): (r: Parsed)
    requires p <= |t|
    ensures Within(t, p, r)
    decreases |t| - p, 1
  {
    if !At(t, p, KwElse) then Parsed(p, ZERO)
    else
      var (f, _) :- Attributes(t, p + 1);
      if At(t, f, KwIf) then After(Points(1 + n), If(t, f, ctx, n, chain + 1))
      else if consteval && !At(t, f, OpenBrace) then Rejected
      else After(Points(1 + n), ControlledBody(t, f, ctx, n + 1))
  }

  /** The `while` header and semicolon that end a `do` statement. */
  function DoTail(t: seq<Token>, p: nat): (r: Parsed)
    requires p <= |t|
    ensures Advances(t, p, r)
  {
    var (w, _) :- Take(t, p, KwWhile);
    var (h, _) :- Header(t, w);
    Take(t, h, Semicolon)
  }

  function Do(t: seq<Token>, p: nat, ctx: Context, n: nat): (r: Parsed)
    requires p <= |t|
    ensures Advances(t, p, r)
    decreases |t| - p, 1
  {
    var (q, _) :- Take(t, p, KwDo);
    var (b, _) :- Attributes(t, q);
    var (e, body) :- ControlledBody(t, b, ctx.(loops := ctx.loops + 1), n + 1);
    After(Plus(Points(1 + n), body), DoTail(t, e))
  }

  function Catch(t: seq<Token>, p: nat, ctx: Context, n: nat): (r: Parsed)
    requires p <= |t|
    ensures Advances(t, p, r)
    decreases |t| - p, 1
  {
    var (q, _) :- Take(t, p, KwCatch);
    var (h, _) :- Header(t, q);
    var (b, _) :- Attributes(t, h);
    After(Points(1 + n), ControlledBody(t, b, ctx, n + 1))
  }

  function Catches(t: seq<Token>, p: nat, ctx: Context, n: nat): (r: Parsed)
    requires p <= |t|
    ensures Within(t, p, r)
    decreases |t| - p, 2
  {
    if !At(t, p, KwCatch) then Parsed(p, ZERO)
    else
      var (q, score) :- Catch(t, p, ctx, n);
      After(score, Catches(t, q, ctx, n))
  }

  function Try(t: seq<Token>, p: nat, ctx: Context, n: nat): (r: Parsed)
    requires p <= |t|
    ensures Advances(t, p, r)
    decreases |t| - p, 1
  {
    var (q, _) :- Take(t, p, KwTry);
    if !At(t, q, OpenBrace) then Rejected
    else
      var (e, body) :- Compound(t, q, ctx, n);
      if !At(t, e, KwCatch) then Rejected else After(body, Catches(t, e, ctx, n))
  }

  /** `for`, `while` and `switch`. */
  function Headed(t: seq<Token>, p: nat, ctx: Context, n: nat): (r: Parsed)
    requires p < |t|
    ensures Advances(t, p, r)
    decreases |t| - p, 1
  {
    var inner := if t[p].KwSwitch? then ctx.(switches := ctx.switches + 1)
                 else if t[p].KwFor? || t[p].KwWhile? then ctx.(loops := ctx.loops + 1) else ctx;
    var (h, _) :- Header(t, p + 1);
    var (b, _) :- Attributes(t, h);
    After(Points(1 + n), ControlledBody(t, b, inner, n + 1))
  }

  function Control(t: seq<Token>, p: nat, ctx: Context, n: nat): (r: Parsed)
    requires p < |t|
    ensures Advances(t, p, r)
    decreases |t| - p, 2
  {
    if t[p].KwIf? then If(t, p, ctx, n, 0)
    else if t[p].KwDo? then Do(t, p, ctx, n)
    else if !IsControlWord(t[p]) then Rejected
    else Headed(t, p, ctx, n)
  }

  function TopLevel(t: seq<Token>, p: nat): (r: Parsed)
    requires p <= |t|
    ensures r.Parsed? ==> r.pos == |t|
    decreases |t| - p
  {
    if p == |t| then Parsed(p, ZERO)
    else
      var (q, score) :- Statement(t, p, Context(0, 0, 0), 0);
      After(score, TopLevel(t, q))
  }

  /** A function body: its compound with the handlers of a function-try-block, then statements. */
  function Body(t: seq<Token>): (r: Parsed)
    ensures r.Parsed? ==> r.pos == |t|
  {
    var ctx := Context(0, 0, 0);
    if At(t, 0, OpenBrace) then
      var (q, body) :- Compound(t, 0, ctx, 0);
      var (e, handlers) :- Catches(t, q, ctx, 0);
      After(Plus(body, handlers), TopLevel(t, e))
    else TopLevel(t, 0)
  }
}
