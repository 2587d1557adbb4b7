/** The parser of GCC and Clang include traces. */
module IncludeTrace {
  import opened Basics
  import opened IncludeForest

  const MAX_ENTRIES := 200000
  const MAX_DEPTH := 4096
  const GUARD_HEADER := "Multiple include guards may be useful for:"

  type Resolver = string -> Option<Path>

  datatype Error = Unbounded | Jump | Stale

  datatype Result<+T> = Ok(value: T) | Err(error: Error)

  function Added<T>(s: seq<T>, x: Option<T>): seq<T> {
    match x
    case None => s
    case Some(value) => s + [value]
  }

  // ----------------------------------------------------------------------- the lines

  /** Unicode white space. */
  predicate IsSpace(c: char) {
    var n := c as int;
    || 9 <= n <= 13 || 28 <= n <= 32 || n == 0x85 || n == 0xA0 || n == 0x1680 || 0x2000 <= n <= 0x200A
    || n == 0x2028 || n == 0x2029 || n == 0x202F || n == 0x205F || n == 0x3000
  }

  /** Where `str.splitlines` ends a line. */
  predicate IsBreak(c: char) {
    var n := c as int;
    10 <= n <= 13 || 28 <= n <= 30 || n == 0x85 || n == 0x2028 || n == 0x2029
  }

  predicate Unbroken(line: string) {
    forall c | c in line :: !IsBreak(c)
  }

  /** The position of the first line end. */
  function LineEnd(text: string): (n: nat)
    ensures n <= |text| && Unbroken(text[..n])
    ensures n < |text| ==> IsBreak(text[n])
  {
    if text == [] || IsBreak(text[0]) then 0
    else
      var n := 1 + LineEnd(text[1..]);
      assert text[..n] == [text[0]] + text[1..][..n - 1];
      n
  }

  /** A carriage return and a newline end one line together. */
  function BreakLength(text: string, n: nat): nat
    requires n < |text|
  {
    if text[n] == '\r' && n + 1 < |text| && text[n + 1] == '\n' then 2 else 1
  }

  /** `str.splitlines`. */
  function SplitLines(text: string): (lines: seq<string>)
    ensures forall line | line in lines :: Unbroken(line)
    decreases |text|
  {
    var n := LineEnd(text);
    if text == [] then []
    else if n == |text| then [text[..n]]
    else [text[..n]] + SplitLines(text[n + BreakLength(text, n)..])
  }

  lemma {:induction false} EndAt(text: string, k: nat)
    requires k < |text| && IsBreak(text[k]) && Unbroken(text[..k])
    ensures LineEnd(text) == k
  {
    if k > 0 {
      assert text[..k][0] == text[0] && text[0] in text[..k];
      assert text[1..][..k - 1] == text[..k][1..];
      EndAt(text[1..], k - 1);
    }
  }

  /** A line and its newline in front of more text. */
  lemma SplitFirst(line: string, rest: string)
    requires Unbroken(line)
    ensures SplitLines(line + "\n" + rest) == [line] + SplitLines(rest)
  {
    var text := line + "\n" + rest;
    assert text[|line|] == '\n' && text[..|line|] == line && text[|line| + 1..] == rest;
    EndAt(text, |line|);
  }

  /** A line without its trailing carriage returns. */
  function Strip(line: string): string {
    if line != [] && line[|line| - 1] == '\r' then Strip(line[..|line| - 1]) else line
  }

  function Dots(line: string): (n: nat)
    ensures n <= |line|
    ensures forall i | 0 <= i < n :: line[i] == '.'
    ensures n < |line| ==> line[n] != '.'
  {
    if line == [] || line[0] != '.' then 0 else 1 + Dots(line[1..])
  }

  /** Dots, one blank, and a path that does not start with white space and holds no newline. */
  function Recognize(line: string): Option<Entry> {
    var n := Dots(line);
    if 0 < n && n + 1 < |line| && line[n] == ' ' && !IsSpace(line[n + 1]) && '\n' !in line[n + 1..]
    then Some(Entry(n, line[n + 1..])) else None
  }

  /** A path that a line can hold behind its dots: not empty, no white space in front, no line end. */
  predicate Printable(e: Entry) {
    e.depth > 0 && e.path != [] && !IsSpace(e.path[0]) && Unbroken(e.path)
  }

  function SpellEntry(e: Entry): string {
    seq(e.depth, i => '.') + " " + e.path
  }

  lemma DotsCounted(line: string, n: nat)
    requires n < |line| && line[n] != '.' && forall i | 0 <= i < n :: line[i] == '.'
    ensures Dots(line) == n
  {
  }

  lemma EntryIsRecognized(e: Entry)
    requires Printable(e)
    ensures Recognize(SpellEntry(e)) == Some(e) && Strip(SpellEntry(e)) == SpellEntry(e)
    ensures SpellEntry(e) != [] && SpellEntry(e) != GUARD_HEADER
  {
    var line := SpellEntry(e);
    assert line[e.depth] == ' ' && line[0] == '.';
    assert line[e.depth + 1..] == e.path;
    DotsCounted(line, e.depth);
    assert line[|line| - 1] == e.path[|e.path| - 1] && e.path[|e.path| - 1] in e.path;
    assert '\n' !in e.path && !IsBreak(' ');
  }

  // ------------------------------------------------------------------------ one entry

  /** `_consume_trace_entry`: the new stack, and the edge if there is one. */
  function Consume(e: Entry, stack: seq<Option<Path>>, resolve: Resolver)
    : Result<(seq<Option<Path>>, Option<(Path, Path)>)>
  {
    if e.depth > MAX_DEPTH then Err(Unbounded)
    else if e.depth > |stack| then Err(Jump)
    else if IsPseudo(e.path) then Ok((stack[..e.depth] + [None], None))
    else
      match resolve(e.path)
      case None => Err(Stale)
      case Some(child) =>
        var parent := if e.depth == 0 then None else stack[e.depth - 1];
        Ok((stack[..e.depth] + [Some(child)], if parent.Some? then Some((parent.value, child)) else None))
  }

  datatype Tracked = Tracked(stack: seq<Option<Path>>, edges: seq<(Path, Path)>)

  /** All entries in turn, starting from the source file. */
  function Track(es: seq<Entry>, start: Tracked, resolve: Resolver): Result<Tracked> {
    if es == [] then Ok(start)
    else
      match Track(es[..|es| - 1], start, resolve)
      case Err(error) => Err(error)
      case Ok(before) =>
        match Consume(es[|es| - 1], before.stack, resolve)
        case Err(error) => Err(error)
        case Ok((stack, edge)) => Ok(Tracked(stack, Added(before.edges, edge)))
  }

  // --------------------------------------------------------------- what the lines say

  /** Whether the list of include guards has begun. */
  predicate InTrailer(lines: seq<string>) {
    exists k :: 0 <= k < |lines| && Strip(lines[k]) == GUARD_HEADER
  }

  /** The entries listed before the trailer. */
  function EntriesOf(lines: seq<string>): seq<Entry> {
    if lines == [] then []
    else
      var init, line := lines[..|lines| - 1], Strip(lines[|lines| - 1]);
      Added(EntriesOf(init), if InTrailer(init) || line == GUARD_HEADER then None else Recognize(line))
  }

  /** Whether the last line is one the caller cannot account for. */
  predicate Strange(init: seq<string>, line: string, resolve: Resolver) {
    && line != []
    && if line == GUARD_HEADER then InTrailer(init)
       else if InTrailer(init) then resolve(line).None? else Recognize(line).None?
  }

  function UnexpectedOf(lines: seq<string>, resolve: Resolver): seq<string> {
    if lines == [] then []
    else
      var init, line := lines[..|lines| - 1], Strip(lines[|lines| - 1]);
      Added(UnexpectedOf(init, resolve), if Strange(init, line, resolve) then Some(line) else None)
  }

  /** Entries and trailer lines, which share one bound. */
  function CountOf(lines: seq<string>): nat {
    if lines == [] then 0
    else
      var init, line := lines[..|lines| - 1], Strip(lines[|lines| - 1]);
      CountOf(init)
      + if line != [] && line != GUARD_HEADER && (InTrailer(init) || Recognize(line).Some?) then 1 else 0
  }

  /** The outcome of the parse, by the entries alone. */
  function Outcome(lines: seq<string>, source: Path, resolve: Resolver): Option<(seq<(Path, Path)>, seq<string>)> {
    match Track(EntriesOf(lines), Tracked([Some(source)], []), resolve)
    case Err(_) => None
    case Ok(tracked) =>
      if CountOf(lines) > MAX_ENTRIES then None else Some((tracked.edges, UnexpectedOf(lines, resolve)))
  }

  // ---------------------------------------------------------------------- the parser

  datatype State = State(stack: seq<Option<Path>>, edges: seq<(Path, Path)>, unexpected: seq<string>, trailer: bool,
                         entries: nat)

  /** The totals after some lines. */
  predicate Follows(lines: seq<string>, source: Path, resolve: Resolver, s: State) {
    && Track(EntriesOf(lines), Tracked([Some(source)], []), resolve) == Ok(Tracked(s.stack, s.edges))
    && s.unexpected == UnexpectedOf(lines, resolve)
    && s.trailer == InTrailer(lines)
    && s.entries == CountOf(lines) <= MAX_ENTRIES
  }

  /** What one stripped line does. */
  function Next(s: State, line: string, resolve: Resolver): Result<State> {
    if line == "" then Ok(s)
    else if line == GUARD_HEADER then
      Ok(s.(unexpected := Added(s.unexpected, if s.trailer then Some(line) else None), trailer := true))
    else if s.trailer then
      if s.entries + 1 > MAX_ENTRIES then Err(Unbounded)
      else Ok(s.(entries := s.entries + 1,
                 unexpected := Added(s.unexpected, if resolve(line).None? then Some(line) else None)))
    else
      match Recognize(line)
      case None => Ok(s.(unexpected := s.unexpected + [line]))
      case Some(entry) =>
        if s.entries + 1 > MAX_ENTRIES then Err(Unbounded)
        else
          match Consume(entry, s.stack, resolve)
          case Err(error) => Err(error)
          case Ok((stack, edge)) =>
            Ok(s.(entries := s.entries + 1, stack := stack, edges := Added(s.edges, edge)))
  }

  /** Line `k` is refused with `error`, and all lines before it are taken. */
  ghost predicate Refuses(lines: seq<string>, k: int, source: Path, resolve: Resolver, error: Error) {
    && 0 <= k < |lines|
    && exists s :: Follows(lines[..k], source, resolve, s) && Next(s, Strip(lines[k]), resolve) == Err(error)
  }

  lemma NextRefuses(lines: seq<string>, k: nat, source: Path, resolve: Resolver, s: State)
    requires k < |lines| && Follows(lines[..k], source, resolve, s)
    ensures var next := Next(s, Strip(lines[k]), resolve);
      next.Err? ==> Refuses(lines, k, source, resolve, next.error)
  {
    hide Follows, Next, Strip;
  }

  method ConsumeTraceEntry(e: Entry, stack: seq<Option<Path>>, resolve: Resolver)
    returns (r: Result<(seq<Option<Path>>, Option<(Path, Path)>)>)
    requires e.depth > 0
    ensures r == Consume(e, stack, resolve)
  {
    if e.depth > MAX_DEPTH {
      return Err(Unbounded);
    }
    if e.depth > |stack| {
      return Err(Jump);
    }
    if IsPseudo(e.path) {
      return Ok((stack[..e.depth] + [None], None));
    }
    var child := resolve(e.path);
    if child.None? {
      return Err(Stale);
    }
    var parent := stack[e.depth - 1];
    return Ok((stack[..e.depth] + [child], if parent.Some? then Some((parent.value, child.value)) else None));
  }

  method ParseIncludeTrace(stderr: string, source: Path, resolve: Resolver)
    returns (r: Result<(seq<(Path, Path)>, seq<string>)>)
    ensures match r
      case Ok(value) => Outcome(SplitLines(stderr), source, resolve) == Some(value)
      case Err(_) => Outcome(SplitLines(stderr), source, resolve) == None
    ensures r.Err? ==> exists k :: Refuses(SplitLines(stderr), k, source, resolve, r.error)
  {
    var lines := SplitLines(stderr);
    hide Follows, Outcome, Recognize, Strip, Consume, SplitLines, Refuses;
    var stack := [Some(source)];
    var edges: seq<(Path, Path)> := [];
    var unexpected: seq<string> := [];
    var trailer := false;
    var entries := 0;
    FollowsNothing(source, resolve);
    assert lines[..0] == [];
    for i := 0 to |lines|
      invariant entries >= 0
      invariant Follows(lines[..i], source, resolve, State(stack, edges, unexpected, trailer, entries))
    {
      var line := Strip(lines[i]);
      assert lines[..i + 1] == lines[..i] + [lines[i]];
      NextFollows(lines[..i], lines[i], source, resolve, State(stack, edges, unexpected, trailer, entries));
      RefusalIsFinal(lines, i + 1, source, resolve);
      NextRefuses(lines, i, source, resolve, State(stack, edges, unexpected, trailer, entries));
      if line == "" {
        continue;
      }
      if line == GUARD_HEADER {
        if trailer {
          unexpected := unexpected + [line];
        }
        trailer := true;
        continue;
      }
      if trailer {
        entries := entries + 1;
        if entries > MAX_ENTRIES {
          return Err(Unbounded);
        }
        if resolve(line).None? {
          unexpected := unexpected + [line];
        }
        continue;
      }
      var entry := Recognize(line);
      if entry.None? {
        unexpected := unexpected + [line];
        continue;
      }
      entries := entries + 1;
      if entries > MAX_ENTRIES {
        return Err(Unbounded);
      }
      RecognizedDepth(line);
      var consumed := ConsumeTraceEntry(entry.value, stack, resolve);
      if consumed.Err? {
        return Err(consumed.error);
      }
      stack := consumed.value.0;
      if consumed.value.1.Some? {
        edges := edges + [consumed.value.1.value];
      }
    }
    assert lines[..|lines|] == lines;
    FollowsToTheEnd(lines, source, resolve, State(stack, edges, unexpected, trailer, entries));
    return Ok((edges, unexpected));
  }

  lemma RecognizedDepth(line: string)
    ensures Recognize(line).Some? ==> Recognize(line).value.depth > 0
  {
  }

  lemma FollowsNothing(source: Path, resolve: Resolver)
    ensures Follows([], source, resolve, State([Some(source)], [], [], false, 0))
  {
  }

  lemma FollowsToTheEnd(lines: seq<string>, source: Path, resolve: Resolver, s: State)
    requires Follows(lines, source, resolve, s)
    ensures Outcome(lines, source, resolve) == Some((s.edges, s.unexpected))
  {
  }

  /** The list of guards begins with its header and never ends. */
  lemma TrailerStep(init: seq<string>, raw: string)
    ensures InTrailer(init + [raw]) <==> InTrailer(init) || Strip(raw) == GUARD_HEADER
  {
    hide Strip;
    var lines := init + [raw];
    assert lines[|init|] == raw;
    if InTrailer(init) {
      var k :| 0 <= k < |init| && Strip(init[k]) == GUARD_HEADER;
      assert lines[k] == init[k];
    }
  }

  /** The entries and counts after one more line. */
  lemma LineStep(init: seq<string>, raw: string, source: Path, resolve: Resolver)
    ensures var lines, line := init + [raw], Strip(raw);
      && EntriesOf(lines)
         == Added(EntriesOf(init), if InTrailer(init) || line == GUARD_HEADER then None else Recognize(line))
      && UnexpectedOf(lines, resolve)
         == Added(UnexpectedOf(init, resolve), if Strange(init, line, resolve) then Some(line) else None)
      && CountOf(lines)
         == CountOf(init)
            + (if line != [] && line != GUARD_HEADER && (InTrailer(init) || Recognize(line).Some?) then 1 else 0)
  {
  }

  lemma TrackStep(es: seq<Entry>, e: Entry, start: Tracked, resolve: Resolver)
    ensures Track(es + [e], start, resolve)
      == match Track(es, start, resolve)
         case Err(error) => Err(error)
         case Ok(before) =>
           match Consume(e, before.stack, resolve)
           case Err(error) => Err(error)
           case Ok((stack, edge)) => Ok(Tracked(stack, Added(before.edges, edge)))
  {
  }

  lemma BlankIsUnrecognized()
    ensures Recognize("").None?
  {
  }

  lemma NextFollows(init: seq<string>, raw: string, source: Path, resolve: Resolver, s: State)
    requires Follows(init, source, resolve, s)
    ensures match Next(s, Strip(raw), resolve)
      case Ok(next) => Follows(init + [raw], source, resolve, next)
      case Err(_) => Outcome(init + [raw], source, resolve) == None
  {
    hide Strip, Recognize, InTrailer, Consume, EntriesOf, UnexpectedOf, CountOf, Track;
    var line := Strip(raw);
    TrailerStep(init, raw);
    LineStep(init, raw, source, resolve);
    BlankIsUnrecognized();
    if Recognize(line).Some? {
      TrackStep(EntriesOf(init), Recognize(line).value, Tracked([Some(source)], []), resolve);
    }
  }

  /** Once refused, more lines do not help. */
  lemma {:induction false} RefusalIsFinal(lines: seq<string>, k: nat, source: Path, resolve: Resolver)
    requires k <= |lines|
    ensures Outcome(lines[..k], source, resolve) == None ==> Outcome(lines, source, resolve) == None
    decreases |lines| - k
  {
    hide Strip, Recognize, InTrailer, Consume, EntriesOf, UnexpectedOf, CountOf, Track;
    if k == |lines| {
      assert lines[..k] == lines;
    } else {
      RefusalIsFinal(lines, k + 1, source, resolve);
      var init, raw := lines[..k], lines[k];
      assert lines[..k + 1] == init + [raw];
      LineStep(init, raw, source, resolve);
      var line := Strip(raw);
      if Recognize(line).Some? {
        TrackStep(EntriesOf(init), Recognize(line).value, Tracked([Some(source)], []), resolve);
      }
    }
  }

  /** A refused line is refused for one reason, after lines that are accepted. */
  lemma RefusedLine(lines: seq<string>, k: nat, source: Path, resolve: Resolver, error: Error)
    requires Refuses(lines, k, source, resolve, error)
    ensures Outcome(lines[..k], source, resolve).Some? && Outcome(lines[..k + 1], source, resolve) == None
  {
    hide Follows, Outcome, Next, Strip;
    var s :| Follows(lines[..k], source, resolve, s) && Next(s, Strip(lines[k]), resolve) == Err(error);
    assert lines[..k + 1] == lines[..k] + [lines[k]];
    NextFollows(lines[..k], lines[k], source, resolve, s);
    FollowsToTheEnd(lines[..k], source, resolve, s);
  }

  /** Only one line is refused first, and for one reason. */
  lemma RefusalIsUnique(lines: seq<string>, j: nat, k: nat, source: Path, resolve: Resolver, first: Error,
                        second: Error)
    requires Refuses(lines, j, source, resolve, first) && Refuses(lines, k, source, resolve, second)
    ensures j == k && first == second
  {
    RefusedLine(lines, j, source, resolve, first);
    RefusedLine(lines, k, source, resolve, second);
    hide Outcome, Next, Strip, Track, EntriesOf, UnexpectedOf, CountOf, InTrailer;
    if j < k {
      assert lines[..k][..j + 1] == lines[..j + 1];
      RefusalIsFinal(lines[..k], j + 1, source, resolve);
    } else if k < j {
      assert lines[..j][..k + 1] == lines[..k + 1];
      RefusalIsFinal(lines[..j], k + 1, source, resolve);
    }
  }

  // ------------------------------------------------------------- tracking a listing

  lemma {:induction false} TrackStays(es: seq<Entry>, more: seq<Entry>, start: Tracked, resolve: Resolver)
    requires Track(es, start, resolve).Err?
    ensures Track(es + more, start, resolve).Err?
    decreases |more|
  {
    if more == [] {
      assert es + more == es;
    } else {
      TrackStays(es, more[..|more| - 1], start, resolve);
      assert es + more == (es + more[..|more| - 1]) + [more[|more| - 1]];
      TrackStep(es + more[..|more| - 1], more[|more| - 1], start, resolve);
    }
  }

  /** Within the bound when the trees of `f` stand at `depth`. */
  predicate Shallow(f: Forest, depth: nat) {
    f.Include? ==> depth + Height(f) <= MAX_DEPTH + 1
  }

  /** What a forest adds to the tracked state. */
  predicate Tracks(f: Forest, depth: nat, before: Tracked, after: Tracked, resolve: Resolver)
    requires 0 < depth <= |before.stack|
  {
    && |after.stack| >= depth
    && after.stack[..depth] == before.stack[..depth]
    && after.edges == before.edges + Edges(f, before.stack[depth - 1], resolve)
  }

  lemma AcceptanceSplits(f: Forest, depth: nat, resolve: Resolver)
    requires f.Include?
    ensures Known(f, resolve) && Shallow(f, depth)
      <==> depth <= MAX_DEPTH && (IsPseudo(f.path) || resolve(f.path).Some?)
           && Known(f.inner, resolve) && Shallow(f.inner, depth + 1)
           && Known(f.next, resolve) && Shallow(f.next, depth)
  {
  }

  lemma {:induction false} TrackForest(es: seq<Entry>, f: Forest, depth: nat, start: Tracked, resolve: Resolver)
    requires Track(es, start, resolve).Ok? && 0 < depth <= |Track(es, start, resolve).value.stack|
    ensures var r := Track(es + Preorder(f, depth), start, resolve);
      && (r.Ok? <==> Known(f, resolve) && Shallow(f, depth))
      && (r.Ok? ==> Tracks(f, depth, Track(es, start, resolve).value, r.value, resolve))
    decreases f
  {
    hide Consume, Track, Known, Shallow, Tracks, Edges, IsPseudo, FileOf;
    match f
    case Empty => TrackNothing(es, f, depth, start, resolve);
    case Include(path, inner, next) =>
      var e := Entry(depth, path);
      var before := Track(es, start, resolve).value;
      TrackStep(es, e, start, resolve);
      Opens(before, e, resolve);
      AcceptanceSplits(f, depth, resolve);
      var below, beside := Preorder(inner, depth + 1), Preorder(next, depth);
      assert es + Preorder(f, depth) == es + [e] + below + beside;
      if Track(es + [e], start, resolve).Err? {
        TrackStays(es + [e], below, start, resolve);
        TrackStays(es + [e] + below, beside, start, resolve);
      } else {
        TrackForest(es + [e], inner, depth + 1, start, resolve);
        if Track(es + [e] + below, start, resolve).Err? {
          TrackStays(es + [e] + below, beside, start, resolve);
        } else {
          var entered := Track(es + [e], start, resolve).value;
          var inside := Track(es + [e] + below, start, resolve).value;
          Closes(f, depth, before, entered, inside, resolve);
          TrackForest(es + [e] + below, next, depth, start, resolve);
          var after := Track(es + [e] + below + beside, start, resolve);
          if after.Ok? {
            Combines(f, depth, before, inside, after.value, resolve);
          }
        }
      }
  }

  /** Entering a file: an entry is accepted exactly when it stays within the depth bound, goes at most one
    level below what is open, and names a pseudo file or one that exists. What was open above it stays
    open, and it is open itself; the edge leads to it from the file one level up, unless either is a
    pseudo file. */
  lemma Opens(before: Tracked, e: Entry, resolve: Resolver)
    requires 0 < e.depth
    ensures Consume(e, before.stack, resolve).Ok?
      <==> e.depth <= MAX_DEPTH && e.depth <= |before.stack| && (IsPseudo(e.path) || resolve(e.path).Some?)
    ensures Consume(e, before.stack, resolve).Ok? ==>
      var (stack, edge) := Consume(e, before.stack, resolve).value;
      var parent, child := before.stack[e.depth - 1], FileOf(e.path, resolve);
      && |stack| == e.depth + 1
      && stack[..e.depth] == before.stack[..e.depth]
      && stack[e.depth] == child
      && (edge.Some? <==> parent.Some? && child.Some?)
      && (edge.Some? ==> edge.value == (parent.value, child.value))
  {
  }

  lemma TrackNothing(es: seq<Entry>, f: Forest, depth: nat, start: Tracked, resolve: Resolver)
    requires f.Empty? && Track(es, start, resolve).Ok? && 0 < depth <= |Track(es, start, resolve).value.stack|
    ensures Track(es + Preorder(f, depth), start, resolve) == Track(es, start, resolve)
    ensures Known(f, resolve) && Shallow(f, depth)
    ensures var before := Track(es, start, resolve).value; Tracks(f, depth, before, before, resolve)
  {
    hide Track;
    assert es + Preorder(f, depth) == es;
    var before := Track(es, start, resolve).value;
    assert before.edges + [] == before.edges;
  }

  function OwnEdge(parent: Option<Path>, child: Option<Path>): Option<(Path, Path)> {
    if parent.Some? && child.Some? then Some((parent.value, child.value)) else None
  }

  /** After the files it includes, the stack below is as on entry. */
  lemma Closes(f: Forest, depth: nat, before: Tracked, entered: Tracked, inside: Tracked, resolve: Resolver)
    requires f.Include? && 0 < depth <= |before.stack|
    requires entered.stack == before.stack[..depth] + [FileOf(f.path, resolve)]
    requires entered.edges == Added(before.edges, OwnEdge(before.stack[depth - 1], FileOf(f.path, resolve)))
    requires Tracks(f.inner, depth + 1, entered, inside, resolve)
    ensures |inside.stack| >= depth && inside.stack[..depth] == before.stack[..depth]
    ensures inside.edges == Added(before.edges, OwnEdge(before.stack[depth - 1], FileOf(f.path, resolve)))
                            + Edges(f.inner, FileOf(f.path, resolve), resolve)
  {
    hide FileOf, Edges, OwnEdge, Added;
    assert inside.stack[..depth] == inside.stack[..depth + 1][..depth] == entered.stack[..depth + 1][..depth];
    assert entered.stack[..depth + 1][..depth] == before.stack[..depth];
    assert entered.stack[depth] == FileOf(f.path, resolve);
  }

  lemma Combines(f: Forest, depth: nat, before: Tracked, inside: Tracked, after: Tracked, resolve: Resolver)
    requires f.Include? && 0 < depth <= |before.stack| && depth <= |inside.stack|
    requires inside.stack[..depth] == before.stack[..depth]
    requires inside.edges == Added(before.edges, OwnEdge(before.stack[depth - 1], FileOf(f.path, resolve)))
                             + Edges(f.inner, FileOf(f.path, resolve), resolve)
    requires Tracks(f.next, depth, inside, after, resolve)
    ensures Tracks(f, depth, before, after, resolve)
  {
    hide FileOf;
    assert inside.stack[..depth][depth - 1] == before.stack[..depth][depth - 1];
  }

  // ------------------------------------------------------------------ the main theorems

  /** The listing of a forest under `source` is accepted exactly when the forest is within the depth
    bound and all its files exist, and then its edges come out in order. */
  lemma TrackListing(f: Forest, source: Path, resolve: Resolver)
    ensures var r := Track(Preorder(f, 1), Tracked([Some(source)], []), resolve);
      && (r.Ok? <==> Known(f, resolve) && Height(f) <= MAX_DEPTH)
      && (r.Ok? ==> r.value.edges == Edges(f, Some(source), resolve))
  {
    var start := Tracked([Some(source)], []);
    assert Track([], start, resolve) == Ok(start);
    assert [] + Preorder(f, 1) == Preorder(f, 1);
    TrackForest([], f, 1, start, resolve);
    assert [] + Edges(f, Some(source), resolve) == Edges(f, Some(source), resolve);
  }

  /** Whatever is accepted climbs one level at a time. */
  lemma {:induction false} TrackClimbs(es: seq<Entry>, source: Path, resolve: Resolver)
    requires forall e | e in es :: e.depth > 0
    ensures var r := Track(es, Tracked([Some(source)], []), resolve);
      r.Ok? ==> Climbs(es) && |r.value.stack| == if es == [] then 1 else es[|es| - 1].depth + 1
  {
    if es != [] {
      var init, last := es[..|es| - 1], es[|es| - 1];
      assert es == init + [last];
      TrackClimbs(init, source, resolve);
      TrackStep(init, last, Tracked([Some(source)], []), resolve);
      hide Track;
      if Track(es, Tracked([Some(source)], []), resolve).Ok? {
        assert last.depth <= if init == [] then 1 else init[|init| - 1].depth + 1;
        ClimbsOn(init, last);
      }
    }
  }

  lemma ClimbsOn(init: seq<Entry>, last: Entry)
    requires Climbs(init) && 1 <= last.depth <= if init == [] then 1 else init[|init| - 1].depth + 1
    ensures Climbs(init + [last])
  {
    var es := init + [last];
    forall i: nat | i < |es|
      ensures ClimbsAt(es, i)
    {
      if i < |init| {
        assert ClimbsAt(init, i);
      }
    }
  }

  lemma {:induction false} EntriesHaveDepth(lines: seq<string>)
    ensures forall e | e in EntriesOf(lines) :: e.depth > 0
  {
    if lines != [] {
      EntriesHaveDepth(lines[..|lines| - 1]);
      RecognizedDepth(Strip(lines[|lines| - 1]));
    }
  }

  /** `f` explains the lines: they list it, within the bounds, and its files exist. */
  predicate Explains(lines: seq<string>, f: Forest, resolve: Resolver) {
    Preorder(f, 1) == EntriesOf(lines) && Known(f, resolve) && Height(f) <= MAX_DEPTH
  }

  /** The main theorem: a trace is accepted exactly when its entries are the preorder listing of a
    forest of existing files within the bounds; the forest then gives the edges, and the lines that
    are not accounted for are returned in order. */
  lemma ParseMeans(lines: seq<string>, source: Path, resolve: Resolver)
    ensures Outcome(lines, source, resolve).Some?
      <==> CountOf(lines) <= MAX_ENTRIES && exists f :: Explains(lines, f, resolve)
    ensures forall f | Explains(lines, f, resolve) && CountOf(lines) <= MAX_ENTRIES ::
      Outcome(lines, source, resolve) == Some((Edges(f, Some(source), resolve), UnexpectedOf(lines, resolve)))
  {
    hide CountOf, EntriesOf, Track, Known, UnexpectedOf, Height, Preorder, Climbs;
    var es := EntriesOf(lines);
    EntriesHaveDepth(lines);
    if Outcome(lines, source, resolve).Some? {
      TrackClimbs(es, source, resolve);
      ClimbsIffPreorder(es);
      var f :| Preorder(f, 1) == es;
      TrackListing(f, source, resolve);
      assert Explains(lines, f, resolve);
    }
    forall f | Explains(lines, f, resolve) && CountOf(lines) <= MAX_ENTRIES
      ensures Outcome(lines, source, resolve) == Some((Edges(f, Some(source), resolve), UnexpectedOf(lines, resolve)))
    {
      TrackListing(f, source, resolve);
    }
  }

  // ------------------------------------------------------------------------ round trip

  function SpellAll(es: seq<Entry>): seq<string> {
    if es == [] then [] else SpellAll(es[..|es| - 1]) + [SpellEntry(es[|es| - 1])]
  }

  /** One line per entry. */
  function Printed(es: seq<Entry>): string {
    if es == [] then "" else SpellEntry(es[0]) + "\n" + Printed(es[1..])
  }

  lemma {:induction false} SpellFirst(es: seq<Entry>)
    requires es != []
    ensures SpellAll(es) == [SpellEntry(es[0])] + SpellAll(es[1..])
  {
    if |es| > 1 {
      var init, last := es[..|es| - 1], es[|es| - 1];
      SpellFirst(init);
      assert es[1..][..|es| - 2] == init[1..];
    } else {
      assert es[..0] == [] && es[1..] == [];
    }
  }

  lemma {:induction false} PrintedSplits(es: seq<Entry>)
    requires forall e | e in es :: Printable(e)
    ensures SplitLines(Printed(es)) == SpellAll(es)
  {
    if es != [] {
      hide SplitLines, SpellAll;
      assert Printable(es[0]);
      SpelledUnbroken(es[0]);
      SplitFirst(SpellEntry(es[0]), Printed(es[1..]));
      PrintedSplits(es[1..]);
      SpellFirst(es);
    }
  }

  lemma SpelledUnbroken(e: Entry)
    requires Printable(e)
    ensures Unbroken(SpellEntry(e))
  {
    assert !IsBreak('.') && !IsBreak(' ');
  }

  /** One more spelled entry. */
  lemma SpelledLine(lines: seq<string>, e: Entry, resolve: Resolver)
    requires Printable(e) && !InTrailer(lines)
    ensures var more := lines + [SpellEntry(e)];
      && EntriesOf(more) == EntriesOf(lines) + [e]
      && UnexpectedOf(more, resolve) == UnexpectedOf(lines, resolve)
      && CountOf(more) == CountOf(lines) + 1
      && !InTrailer(more)
  {
    hide Recognize, Strip, SpellEntry, EntriesOf, UnexpectedOf, CountOf, InTrailer;
    EntryIsRecognized(e);
    LineStep(lines, SpellEntry(e), "", resolve);
    TrailerStep(lines, SpellEntry(e));
  }

  lemma {:induction false} SpelledLines(es: seq<Entry>, resolve: Resolver)
    requires forall e | e in es :: Printable(e)
    ensures EntriesOf(SpellAll(es)) == es && UnexpectedOf(SpellAll(es), resolve) == [] && CountOf(SpellAll(es)) == |es|
    ensures !InTrailer(SpellAll(es))
  {
    if es != [] {
      hide EntriesOf, UnexpectedOf, CountOf, InTrailer, Printable, SpellEntry;
      var init, last := es[..|es| - 1], es[|es| - 1];
      SpelledLines(init, resolve);
      SpelledLine(SpellAll(init), last, resolve);
      assert es == init + [last];
    }
  }

  predicate PrintablePaths(f: Forest) {
    match f
    case Empty => true
    case Include(path, inner, next) =>
      Printable(Entry(1, path)) && PrintablePaths(inner) && PrintablePaths(next)
  }

  lemma {:induction false} PrintableListing(f: Forest, depth: nat)
    requires depth > 0
    ensures PrintablePaths(f) <==> forall e | e in Preorder(f, depth) :: Printable(e)
  {
    if f.Include? {
      PrintableListing(f.inner, depth + 1);
      PrintableListing(f.next, depth);
      var first, below, beside := Entry(depth, f.path), Preorder(f.inner, depth + 1), Preorder(f.next, depth);
      assert Preorder(f, depth) == [first] + below + beside;
      assert first in Preorder(f, depth);
      assert forall e | e in below :: e in Preorder(f, depth);
      assert forall e | e in beside :: e in Preorder(f, depth);
    }
  }

  /** The printed trace of a forest: one line per file, one dot per level. */
  function Listing(f: Forest): string {
    Printed(Preorder(f, 1))
  }

  /** Whatever is read from a text could have been printed. */
  lemma {:induction false} EntriesArePrintable(lines: seq<string>)
    requires forall line | line in lines :: Unbroken(line)
    ensures forall e | e in EntriesOf(lines) :: Printable(e)
  {
    if lines != [] {
      var init, raw := lines[..|lines| - 1], lines[|lines| - 1];
      assert forall line | line in init :: line in lines;
      assert raw in lines;
      EntriesArePrintable(init);
      StrippedUnbroken(raw);
      RecognizedPrintable(Strip(raw));
    }
  }

  lemma {:induction false} StrippedUnbroken(line: string)
    requires Unbroken(line)
    ensures Unbroken(Strip(line))
  {
    if line != [] && line[|line| - 1] == '\r' {
      StrippedUnbroken(line[..|line| - 1]);
    }
  }

  lemma RecognizedPrintable(line: string)
    requires Unbroken(line)
    ensures Recognize(line).Some? ==> Printable(Recognize(line).value)
  {
  }

  /** A printed forest is read back entry by entry exactly when every path fits on a line: it is not empty,
    starts with no white space, and holds no line end. */
  lemma ReadBackIff(f: Forest)
    ensures EntriesOf(SplitLines(Listing(f))) == Preorder(f, 1) <==> PrintablePaths(f)
  {
    hide SplitLines, EntriesOf, SpellAll, Printable;
    PrintableListing(f, 1);
    EntriesArePrintable(SplitLines(Listing(f)));
    if PrintablePaths(f) {
      PrintedSplits(Preorder(f, 1));
      SpelledLines(Preorder(f, 1), _ => None);
    }
  }

  /** Printing a forest whose paths fit on a line and parsing the text gives exactly its edges, or a refusal
    beyond the bounds. */
  lemma RoundTrip(f: Forest, source: Path, resolve: Resolver)
    requires PrintablePaths(f)
    ensures Outcome(SplitLines(Listing(f)), source, resolve)
      == if Known(f, resolve) && Height(f) <= MAX_DEPTH && |Preorder(f, 1)| <= MAX_ENTRIES
         then Some((Edges(f, Some(source), resolve), [])) else None
  {
    PrintableListing(f, 1);
    PrintedSplits(Preorder(f, 1));
    SpelledLines(Preorder(f, 1), resolve);
    TrackListing(f, source, resolve);
  }

  /** A path with a newline is cut: the entry names another file, and a line is left over. */
  lemma CutPathExample(source: Path, resolve: Resolver, first: Path)
    requires resolve("a") == Some(first)
    ensures Outcome(SplitLines(Listing(Include("a\nb", Empty, Empty))), source, resolve)
      == Some(([(source, first)], ["b"]))
  {
    hide SplitLines, EntriesOf, UnexpectedOf, CountOf, Track, Edges, Listing;
    CutPathSplits();
    CutPathReads(resolve);
    var whole := Include("a", Empty, Empty);
    assert Preorder(whole, 1) == [Entry(1, "a")];
    TrackListing(whole, source, resolve);
    CutPathEdges(source, resolve, first);
  }

  lemma CutPathSplits()
    ensures SplitLines(Listing(Include("a\nb", Empty, Empty))) == [". a", "b"]
  {
    hide SplitLines, Listing;
    CutPathText();
    SplitTwo(". a", "b");
  }

  lemma CutPathText()
    ensures Listing(Include("a\nb", Empty, Empty)) == ". a" + "\n" + ("b" + "\n" + "")
  {
    var e := Entry(1, "a\nb");
    assert SpellEntry(e) == ". a\nb";
    hide SpellEntry;
    assert Preorder(Include("a\nb", Empty, Empty), 1) == [e] && [e][1..] == [];
  }

  lemma SplitTwo(a: string, b: string)
    requires Unbroken(a) && Unbroken(b)
    ensures SplitLines(a + "\n" + (b + "\n" + "")) == [a, b]
  {
    assert SplitLines("") == [];
    hide SplitLines;
    SplitFirst(a, b + "\n" + "");
    SplitFirst(b, "");
  }

  lemma CutPathReads(resolve: Resolver)
    ensures EntriesOf([". a", "b"]) == [Entry(1, "a")] && UnexpectedOf([". a", "b"], resolve) == ["b"]
    ensures CountOf([". a", "b"]) == 1
  {
    hide EntriesOf, UnexpectedOf, CountOf, InTrailer, SpellAll, SpellEntry, Recognize, Strip, IsSpace, IsBreak;
    FirstLine();
    SecondLine();
    SpelledLines([Entry(1, "a")], resolve);
    var lines := [". a"];
    LineStep(lines, "b", "", resolve);
    assert [". a", "b"] == lines + ["b"];
  }

  lemma FirstLine()
    ensures SpellAll([Entry(1, "a")]) == [". a"] && Printable(Entry(1, "a"))
  {
    var e := Entry(1, "a");
    assert SpellEntry(e) == ". a";
    hide SpellEntry;
    assert [e][..0] == [] && SpellAll([]) == [];
  }

  lemma SecondLine()
    ensures Strip("b") == "b" && Recognize("b") == None && "b" != GUARD_HEADER
  {
    assert "b"[0] == 'b' && GUARD_HEADER[0] == 'M';
  }

  lemma CutPathEdges(source: Path, resolve: Resolver, first: Path)
    requires resolve("a") == Some(first)
    ensures var whole := Include("a", Empty, Empty);
      Known(whole, resolve) && Height(whole) <= MAX_DEPTH && Edges(whole, Some(source), resolve) == [(source, first)]
  {
    assert Edges(Empty, Some(first), resolve) == [] && Edges(Empty, Some(source), resolve) == [];
  }
}
