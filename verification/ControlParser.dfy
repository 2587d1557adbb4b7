/** The stateful control-flow parser and the token-level metric. */
module ControlParser {
  import opened Basics
  import opened ControlTokens
  import opened ControlReader

  class CppControlParser {
    const tokens: seq<Token>
    var position: nat
    var cognitive: nat
    var maxNesting: nat
    var unbracedControls: nat
    var recursionDepth: nat
    var loopDepth: nat
    var switchDepth: nat

    constructor (tokens: seq<Token>)
      ensures this.tokens == tokens && position == 0 && Totals() == ZERO && Depths() == Context(0, 0, 0)
    {
      this.tokens := tokens;
      position, cognitive, maxNesting, unbracedControls := 0, 0, 0, 0;
      recursionDepth, loopDepth, switchDepth := 0, 0, 0;
    }

    ghost predicate Valid()
      reads this
    {
      position <= |tokens|
    }

    ghost function Totals(): Score
      reads this
    {
      Score(cognitive, maxNesting, unbracedControls)
    }

    ghost function Depths(): Context
      reads this
    {
      Context(recursionDepth, loopDepth, switchDepth)
    }

    /** The outcome is that of `r`, on top of the totals `before`; the depths are back at `ctx`. */
    ghost predicate Reports(r: Parsed, ok: bool, before: Score, ctx: Context)
      reads this
    {
      Depths() == ctx && Valid() &&
      match r
      case Rejected => !ok
      case Parsed(pos, score) => ok && position == pos && Totals() == Plus(before, score)
    }

    function NextIs(expected: Token): bool
      reads this
    {
      position < |tokens| && tokens[position] == expected
    }

    method TakeToken(expected: Token) returns (ok: bool)
      requires Valid()
      modifies this`position
      ensures Reports(Take(tokens, old(position), expected), ok, old(Totals()), old(Depths()))
    {
      if !NextIs(expected) {
        return false;
      }
      position := position + 1;
      return true;
    }

    method TakeBalanced(opening: Token, closing: Token) returns (ok: bool)
      requires Valid()
      modifies this`position
      ensures Reports(Balanced(tokens, old(position), opening, closing), ok, old(Totals()), old(Depths()))
    {
      ok := TakeToken(opening);
      if !ok {
        return;
      }
      var depth := 1;
      while depth > 0
        invariant Valid() && depth >= 0
        invariant Balance(tokens, position, opening, closing, depth)
                  == Balance(tokens, old(position) + 1, opening, closing, 1)
        decreases |tokens| - position
      {
        if position == |tokens| {
          return false;
        }
        var token := tokens[position];
        position := position + 1;
        if token == opening {
          depth := depth + 1;
        } else if token == closing {
          depth := depth - 1;
        }
      }
      return true;
    }

    method TakeAttributes() returns (ok: bool)
      requires Valid()
      modifies this`position
      ensures Reports(Attributes(tokens, old(position)), ok, old(Totals()), old(Depths()))
    {
      while NextIs(OpenAttribute)
        invariant Valid() && Attributes(tokens, position) == Attributes(tokens, old(position))
        decreases |tokens| - position
      {
        ok := TakeBalanced(OpenAttribute, CloseAttribute);
        if !ok {
          return;
        }
      }
      return true;
    }

    method TakeHeader() returns (ok: bool)
      requires Valid()
      modifies this`position
      ensures Reports(Header(tokens, old(position)), ok, old(Totals()), old(Depths()))
    {
      if !NextIs(OpenParen) {
        return false;
      }
      ok := TakeBalanced(OpenParen, CloseParen);
    }

    method ParseSimple() returns (ok: bool)
      requires Valid() && position < |tokens|
      modifies this`position
      ensures Reports(Simple(tokens, old(position), old(Depths())), ok, old(Totals()), old(Depths()))
    {
      var start := position;
      if BadStart(tokens[start], Context(recursionDepth, loopDepth, switchDepth)) {
        return false;
      }
      var parentheses, braces := 0, 0;
      while position < |tokens|
        invariant Valid() && start <= position && parentheses >= 0 && braces >= 0
        invariant SimpleFrom(tokens, start, position, parentheses, braces) == SimpleFrom(tokens, start, start, 0, 0)
        decreases |tokens| - position
      {
        var token := tokens[position];
        if position > start && parentheses == 0 && braces == 0 && StartsFlow(token) {
          return false;
        }
        if token == OpenParen {
          parentheses := parentheses + 1;
        } else if token == CloseParen {
          if parentheses == 0 {
            return false;
          }
          parentheses := parentheses - 1;
        } else if token == OpenBrace {
          braces := braces + 1;
        } else if token == CloseBrace {
          if braces > 0 {
            braces := braces - 1;
          } else if parentheses == 0 {
            return false;
          }
        }
        position := position + 1;
        if (token == Colon || token == Semicolon) && parentheses == 0 && braces == 0 {
          return true;
        }
      }
      return false;
    }

    method ParseStatement(nesting: nat) returns (ok: bool)
      requires Valid()
      modifies this
      ensures Reports(Statement(tokens, old(position), old(Depths()), nesting), ok, old(Totals()), old(Depths()))
      decreases |tokens| - position, 3
    {
      hide Statements, Compound, ControlledBody, If, Else, Do, Catch, Catches, Try, Control, Headed, Attributes;
      hide Header, Balanced, Simple, IfHead, IsConsteval, TopLevel;
      recursionDepth := recursionDepth + 1;
      if recursionDepth > MAX_NESTING {
        recursionDepth := recursionDepth - 1;
        return false;
      }
      ok := TakeAttributes();
      if ok && position < |tokens| {
        var token := tokens[position];
        if token == OpenBrace {
          ok := ParseCompound(nesting);
        } else if token == KwTry {
          ok := ParseTry(nesting);
        } else if IsControlWord(token) {
          ok := ParseControl(nesting);
        } else if token == KwCatch || token == KwElse || token == CloseBrace {
          ok := false;
        } else {
          ok := ParseSimple();
        }
      }
      recursionDepth := recursionDepth - 1;
    }

    method ParseCompound(nesting: nat) returns (ok: bool)
      requires Valid()
      modifies this
      ensures Reports(Compound(tokens, old(position), old(Depths()), nesting), ok, old(Totals()), old(Depths()))
      decreases |tokens| - position, 1
    {
      hide Plus, Max, Statement, ControlledBody, If, Else, Do, Catch, Catches, Try, Control, Headed, Attributes;
      hide Header, Balanced, Simple, IfHead, IsConsteval, TopLevel;
      ok := TakeToken(OpenBrace);
      if !ok {
        return;
      }
      ghost var start, before, ctx := position, Totals(), Depths();
      ghost var so := ZERO;
      PlusZero(old(Totals()), Statements(tokens, position, ctx, nesting));
      PlusZero(before, Statements(tokens, position, ctx, nesting));
      while position < |tokens| && tokens[position] != CloseBrace
        invariant Valid() && start <= position && Depths() == ctx && Totals() == Plus(before, so)
        invariant Statements(tokens, start, ctx, nesting) == After(so, Statements(tokens, position, ctx, nesting))
        decreases |tokens| - position
      {
        ghost var step := Statement(tokens, position, ctx, nesting);
        ok := ParseStatement(nesting);
        if !ok {
          return;
        }
        PlusAssociative(before, so, step.score);
        PlusAfter(so, step.score, Statements(tokens, position, ctx, nesting));
        so := Plus(so, step.score);
      }
      PlusZero(so, Take(tokens, position, CloseBrace));
      PlusZero(Totals(), Take(tokens, position, CloseBrace));
      ok := TakeToken(CloseBrace);
    }

    method ParseControlledBody(nesting: nat) returns (ok: bool)
      requires Valid()
      modifies this
      ensures Reports(ControlledBody(tokens, old(position), old(Depths()), nesting), ok, old(Totals()), old(Depths()))
      decreases |tokens| - position, 5
    {
      hide Statement, Statements, Compound, If, Else, Do, Catch, Catches, Try, Control, Headed, Attributes, Header;
      hide Balanced, Simple, IfHead, IsConsteval, TopLevel;
      if NextIs(OpenBrace) {
        maxNesting := Max(maxNesting, nesting);
        ok := ParseCompound(nesting);
        return;
      }
      unbracedControls := unbracedControls + 1;
      ok := ParseStatement(nesting);
    }

    method TakeIfHead() returns (ok: bool, consteval: bool)
      requires Valid()
      modifies this`position
      ensures Reports(IfHead(tokens, old(position)), ok, old(Totals()), old(Depths()))
      ensures ok ==> consteval == IsConsteval(tokens, old(position))
    {
      consteval := false;
      if NextIs(KwConstexpr) {
        position := position + 1;
      }
      if NextIs(Bang) {
        position := position + 1;
        if !NextIs(KwConsteval) {
          return false, false;
        }
      }
      if NextIs(KwConsteval) {
        position := position + 1;
        return true, true;
      }
      ok := TakeHeader();
    }

    /** One link of an else-if chain, up to its `else`. */
    method ParseIfThen(nesting: nat, scored: bool) returns (ok: bool, consteval: bool)
      requires Valid()
      modifies this
      ensures Reports(IfThen(tokens, old(position), old(Depths()), nesting, scored), ok, old(Totals()), old(Depths()))
      ensures ok ==> consteval == IsConsteval(tokens, old(position) + 1)
      decreases |tokens| - position, 0
    {
      hide Plus, Max, Points, Statement, Statements, Compound, ControlledBody, If, Else, Do, Catch, Catches, Try;
      hide Control;
      hide Headed, Attributes, Header, Balanced, Simple, IfHead, IsConsteval, TopLevel;
      ghost var before := Totals();
      PlusZero(before, Rejected);
      consteval := false;
      ok := TakeToken(KwIf);
      if !ok {
        return;
      }
      if scored {
        PlusPoints(cognitive, maxNesting, unbracedControls, 1 + nesting);
        cognitive := cognitive + (1 + nesting);
      }
      ghost var points := if scored then Points(1 + nesting) else ZERO;
      PlusZero(Plus(before, points), Rejected);
      ok, consteval := TakeIfHead();
      if !ok {
        return;
      }
      ok := TakeAttributes();
      if !ok {
        return;
      }
      if consteval && !NextIs(OpenBrace) {
        return false, consteval;
      }
      ghost var body := ControlledBody(tokens, position, Depths(), nesting + 1);
      ok := ParseControlledBody(nesting + 1);
      if ok {
        PlusAssociative(before, points, body.score);
      }
    }

    method ParseIf(nesting: nat) returns (ok: bool)
      requires Valid()
      modifies this
      ensures Reports(If(tokens, old(position), old(Depths()), nesting, 0), ok, old(Totals()), old(Depths()))
      decreases |tokens| - position, 1
    {
      hide Plus, Max, Points, After, Statement, Statements, Compound, ControlledBody, If, Else, IfThen, Do, Catch;
      hide Catches, Try;
      hide Control, Headed, Attributes, Header, Balanced, Simple, IfHead, IsConsteval, TopLevel;
      ghost var start, before, ctx := position, Totals(), Depths();
      ghost var so := ZERO;
      PlusZero(before, If(tokens, start, ctx, nesting, 0));
      var chainLength := 0;
      while true
        invariant Valid() && start <= position && Depths() == ctx && Totals() == Plus(before, so)
        invariant chainLength >= 0
        invariant If(tokens, start, ctx, nesting, 0) == After(so, If(tokens, position, ctx, nesting, chainLength))
        decreases |tokens| - position
      {
        IfUnfolds(tokens, position, ctx, nesting, chainLength, so);
        chainLength := chainLength + 1;
        if chainLength > MAX_NESTING {
          return false;
        }
        ghost var link := IfThen(tokens, position, ctx, nesting, chainLength == 1);
        var consteval;
        ok, consteval := ParseIfThen(nesting, chainLength == 1);
        if !ok {
          return;
        }
        PlusAssociative(before, so, link.score);
        so := Plus(so, link.score);
        ElseUnfolds(tokens, position, ctx, nesting, chainLength - 1, consteval, so);
        if !NextIs(KwElse) {
          return true;
        }
        ok := TakeElse(nesting, so, before);
        if !ok {
          return;
        }
        so := Plus(so, Points(1 + nesting));
        if !NextIs(KwIf) {
          ok := ParseAlternative(nesting, consteval, so, before);
          return;
        }
      }
    }

    /** An `else`, which scores, and the attributes behind it. */
    method TakeElse(nesting: nat, ghost so: Score, ghost before: Score) returns (ok: bool)
      requires Valid() && NextIs(KwElse) && Totals() == Plus(before, so)
      modifies this
      ensures Valid() && Depths() == old(Depths())
      ensures ok <==> Attributes(tokens, old(position) + 1).Parsed?
      ensures ok ==> position == Attributes(tokens, old(position) + 1).pos
      ensures ok ==> Totals() == Plus(before, Plus(so, Points(1 + nesting)))
    {
      hide Plus, Max, Points, Attributes;
      position := position + 1;
      PlusPoints(cognitive, maxNesting, unbracedControls, 1 + nesting);
      cognitive := cognitive + (1 + nesting);
      PlusAssociative(before, so, Points(1 + nesting));
      ghost var scored := Totals();
      AttributesScoreNothing(tokens, position);
      PlusZero(scored, Rejected);
      ok := TakeAttributes();
    }

    /** The statement after the last `else`. */
    method ParseAlternative(nesting: nat, consteval: bool, ghost so: Score, ghost before: Score) returns (ok: bool)
      requires Valid() && Totals() == Plus(before, so)
      modifies this
      ensures Reports(if consteval && !old(NextIs(OpenBrace)) then Rejected
                      else After(so, ControlledBody(tokens, old(position), old(Depths()), nesting + 1)),
                      ok, before, old(Depths()))
      decreases |tokens| - position, 6
    {
      hide Plus, Max, Points, ControlledBody;
      if consteval && !NextIs(OpenBrace) {
        return false;
      }
      ghost var body := ControlledBody(tokens, position, Depths(), nesting + 1);
      ok := ParseControlledBody(nesting + 1);
      if ok {
        PlusAssociative(before, so, body.score);
      }
    }

    method TakeDoTail() returns (ok: bool)
      requires Valid()
      modifies this`position
      ensures Reports(DoTail(tokens, old(position)), ok, old(Totals()), old(Depths()))
    {
      ok := TakeToken(KwWhile);
      if !ok {
        return;
      }
      ok := TakeHeader();
      if !ok {
        return;
      }
      ok := TakeToken(Semicolon);
    }

    method ParseDo(nesting: nat) returns (ok: bool)
      requires Valid()
      modifies this
      ensures Reports(Do(tokens, old(position), old(Depths()), nesting), ok, old(Totals()), old(Depths()))
      decreases |tokens| - position, 1
    {
      hide Plus, Max, Points, Statement, Statements, Compound, ControlledBody, If, Else, Catch, Catches, Try, Control;
      hide Headed;
      hide Attributes, Header, Balanced, Simple, IfHead, IsConsteval, TopLevel, DoTail;
      ghost var before, ctx := Totals(), Depths();
      PlusZero(before, Rejected);
      ok := TakeToken(KwDo);
      if !ok {
        return;
      }
      PlusPoints(cognitive, maxNesting, unbracedControls, 1 + nesting);
      cognitive := cognitive + (1 + nesting);
      ghost var scored := Plus(before, Points(1 + nesting));
      PlusZero(scored, Rejected);
      ok := TakeAttributes();
      if !ok {
        return;
      }
      loopDepth := loopDepth + 1;
      ghost var body := ControlledBody(tokens, position, ctx.(loops := ctx.loops + 1), nesting + 1);
      ok := ParseControlledBody(nesting + 1);
      loopDepth := loopDepth - 1;
      if !ok {
        return;
      }
      PlusAssociative(before, Points(1 + nesting), body.score);
      ghost var tail := DoTail(tokens, position);
      ok := TakeDoTail();
      if ok {
        PlusAssociative(before, Plus(Points(1 + nesting), body.score), tail.score);
      }
    }

    method ParseCatch(nesting: nat) returns (ok: bool)
      requires Valid()
      modifies this
      ensures Reports(Catch(tokens, old(position), old(Depths()), nesting), ok, old(Totals()), old(Depths()))
      decreases |tokens| - position, 1
    {
      hide Statement, Statements, Compound, ControlledBody, If, Else, Do, Catches, Try, Control, Headed, Attributes;
      hide Header, Balanced, Simple, IfHead, IsConsteval, TopLevel;
      ok := TakeToken(KwCatch);
      if !ok {
        return;
      }
      cognitive := cognitive + 1 + nesting;
      ok := TakeHeader();
      if !ok {
        return;
      }
      ok := TakeAttributes();
      if !ok {
        return;
      }
      ok := ParseControlledBody(nesting + 1);
    }

    method ParseCatches(nesting: nat) returns (ok: bool)
      requires Valid()
      modifies this
      ensures Reports(Catches(tokens, old(position), old(Depths()), nesting), ok, old(Totals()), old(Depths()))
      decreases |tokens| - position, 2
    {
      hide Plus, Max, Statement, Statements, Compound, ControlledBody, If, Else, Do, Catch, Try, Control, Headed;
      hide Attributes, Header, Balanced, Simple, IfHead, IsConsteval, TopLevel;
      ghost var start, before, ctx := position, Totals(), Depths();
      ghost var so := ZERO;
      PlusZero(before, Catches(tokens, position, ctx, nesting));
      while NextIs(KwCatch)
        invariant Valid() && start <= position && Depths() == ctx && Totals() == Plus(before, so)
        invariant Catches(tokens, start, ctx, nesting) == After(so, Catches(tokens, position, ctx, nesting))
        decreases |tokens| - position
      {
        ghost var step := Catch(tokens, position, ctx, nesting);
        ok := ParseCatch(nesting);
        if !ok {
          return;
        }
        PlusAssociative(before, so, step.score);
        PlusAfter(so, step.score, Catches(tokens, position, ctx, nesting));
        so := Plus(so, step.score);
      }
      PlusZero(so, Catches(tokens, position, ctx, nesting));
      return true;
    }

    method ParseTry(nesting: nat) returns (ok: bool)
      requires Valid()
      modifies this
      ensures Reports(Try(tokens, old(position), old(Depths()), nesting), ok, old(Totals()), old(Depths()))
      decreases |tokens| - position, 1
    {
      hide Statement, Statements, Compound, ControlledBody, If, Else, Do, Catch, Catches, Control, Headed, Attributes;
      hide Header, Balanced, Simple, IfHead, IsConsteval, TopLevel;
      ok := TakeToken(KwTry);
      if !ok {
        return;
      }
      if !NextIs(OpenBrace) {
        return false;
      }
      ok := ParseCompound(nesting);
      if !ok {
        return;
      }
      if !NextIs(KwCatch) {
        return false;
      }
      ok := ParseCatches(nesting);
    }

    method ParseControl(nesting: nat) returns (ok: bool)
      requires Valid() && position < |tokens|
      modifies this
      ensures Reports(Control(tokens, old(position), old(Depths()), nesting), ok, old(Totals()), old(Depths()))
      decreases |tokens| - position, 2
    {
      hide Statement, Statements, Compound, ControlledBody, If, Else, Do, Catch, Catches, Try, Headed, Attributes;
      hide Header, Balanced, Simple, IfHead, IsConsteval, TopLevel;
      var control := tokens[position];
      if control == KwIf {
        ok := ParseIf(nesting);
        return;
      }
      if control == KwDo {
        ok := ParseDo(nesting);
        return;
      }
      if !IsControlWord(control) {
        return false;
      }
      ok := ParseHeaded(nesting);
    }

    method ParseHeaded(nesting: nat) returns (ok: bool)
      requires Valid() && position < |tokens|
      modifies this
      ensures Reports(Headed(tokens, old(position), old(Depths()), nesting), ok, old(Totals()), old(Depths()))
      decreases |tokens| - position, 1
    {
      hide Statement, Statements, Compound, ControlledBody, If, Else, Do, Catch, Catches, Try, Control, Attributes;
      hide Header, Balanced, Simple, IfHead, IsConsteval, TopLevel;
      var control := tokens[position];
      position := position + 1;
      cognitive := cognitive + 1 + nesting;
      ok := TakeHeader();
      if !ok {
        return;
      }
      ok := TakeAttributes();
      if !ok {
        return;
      }
      if control == KwFor || control == KwWhile {
        loopDepth := loopDepth + 1;
      } else if control == KwSwitch {
        switchDepth := switchDepth + 1;
      }
      ok := ParseControlledBody(nesting + 1);
      if control == KwFor || control == KwWhile {
        loopDepth := loopDepth - 1;
      } else if control == KwSwitch {
        switchDepth := switchDepth - 1;
      }
    }

    method Parse() returns (ok: bool)
      requires Valid() && position == 0 && Depths() == Context(0, 0, 0) && Totals() == ZERO
      modifies this
      ensures Reports(Body(tokens), ok, ZERO, Context(0, 0, 0))
    {
      hide Plus, Max, Statement, Statements, Compound, ControlledBody, If, Else, Do, Catch, Catches, Try, Control;
      hide Headed, Attributes, Header, Balanced, Simple, IfHead, IsConsteval;
      ghost var so := ZERO;
      if NextIs(OpenBrace) {
        ghost var ctx := Context(0, 0, 0);
        ghost var body := Compound(tokens, 0, ctx, 0);
        ok := ParseCompound(0);
        if !ok {
          return;
        }
        PlusZero(body.score, Rejected);
        ok := ParseCatches(0);
        if !ok {
          return;
        }
        so := Totals();
      }
      ghost var start := position;
      PlusZero(so, TopLevel(tokens, start));
      ghost var before := so;
      so := ZERO;
      while position < |tokens|
        invariant Valid() && start <= position && Depths() == Context(0, 0, 0) && Totals() == Plus(before, so)
        invariant TopLevel(tokens, start) == After(so, TopLevel(tokens, position))
        decreases |tokens| - position
      {
        ghost var step := Statement(tokens, position, Context(0, 0, 0), 0);
        ok := ParseStatement(0);
        if !ok {
          return;
        }
        PlusAssociative(before, so, step.score);
        PlusAfter(so, step.score, TopLevel(tokens, position));
        so := Plus(so, step.score);
      }
      PlusZero(so, TopLevel(tokens, position));
      PlusZero(Plus(before, so), Rejected);
      return true;
    }
  }

  /** How an `if` continues after its first link. */
  lemma IfUnfolds(t: seq<Token>, p: nat, ctx: Context, n: nat, chain: nat, so: Score)
    requires p <= |t|
    ensures var link := IfThen(t, p, ctx, n, chain == 0);
      After(so, If(t, p, ctx, n, chain))
      == if chain + 1 > MAX_NESTING || link.Rejected? then Rejected
         else After(Plus(so, link.score), Else(t, link.pos, ctx, n, chain, IsConsteval(t, p + 1)))
  {
    hide Plus, Max, Points, ControlledBody, Else, IfThen, Control, Attributes, IsConsteval;
    var link := IfThen(t, p, ctx, n, chain == 0);
    if link.Parsed? {
      PlusAfter(so, link.score, Else(t, link.pos, ctx, n, chain, IsConsteval(t, p + 1)));
    }
  }

  /** How an `if` continues after a controlled statement. */
  lemma ElseUnfolds(t: seq<Token>, p: nat, ctx: Context, n: nat, chain: nat, consteval: bool, so: Score)
    requires p <= |t|
    ensures At(t, p, KwElse) ==>
      (var f := Attributes(t, p + 1);
       After(so, Else(t, p, ctx, n, chain, consteval))
       == if f.Rejected? then Rejected
          else if At(t, f.pos, KwIf) then After(Plus(so, Points(1 + n)), If(t, f.pos, ctx, n, chain + 1))
          else if consteval && !At(t, f.pos, OpenBrace) then Rejected
          else After(Plus(so, Points(1 + n)), ControlledBody(t, f.pos, ctx, n + 1)))
    ensures !At(t, p, KwElse) ==> After(so, Else(t, p, ctx, n, chain, consteval)) == Parsed(p, so)
  {
    hide Plus, Max, Points, ControlledBody, If, IfThen, Control, Attributes;
    PlusZero(so, Rejected);
    if At(t, p, KwElse) {
      var f := Attributes(t, p + 1);
      if f.Parsed? {
        PlusAfter(so, Points(1 + n), ControlledBody(t, f.pos, ctx, n + 1));
        if At(t, f.pos, KwIf) {
          PlusAfter(so, Points(1 + n), If(t, f.pos, ctx, n, chain + 1));
        }
      }
    }
  }

  lemma {:induction false} AttributesScoreNothing(t: seq<Token>, p: nat)
    requires p <= |t|
    ensures Attributes(t, p).Parsed? ==> Attributes(t, p).score == ZERO
    decreases |t| - p
  {
    if At(t, p, OpenAttribute) && Balanced(t, p, OpenAttribute, CloseAttribute).Parsed? {
      AttributesScoreNothing(t, Balanced(t, p, OpenAttribute, CloseAttribute).pos);
    }
  }

  lemma PlusAfter(a: Score, b: Score, r: Parsed)
    ensures After(a, After(b, r)) == After(Plus(a, b), r)
  {
  }

  lemma PlusAssociative(a: Score, b: Score, c: Score)
    ensures Plus(Plus(a, b), c) == Plus(a, Plus(b, c))
  {
  }

  lemma PlusZero(a: Score, r: Parsed)
    ensures Plus(a, ZERO) == a && Plus(ZERO, a) == a && After(ZERO, r) == r
  {
  }

  lemma PlusPoints(cognitive: nat, nesting: nat, unbraced: nat, points: nat)
    ensures Score(cognitive + points, nesting, unbraced) == Plus(Score(cognitive, nesting, unbraced), Points(points))
  {
  }
}
