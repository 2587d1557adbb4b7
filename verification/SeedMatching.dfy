/** Region-bounded seed matching: from shared windows to maximal duplicate spans. */
module SeedMatching {
  import opened Basics
  import opened CoveredIntervals
  import opened DuplicateRuns
  import opened SeedLog
  import opened WindowIndex
  import Orders

  datatype Limits = Limits(windowOccurrences: nat, sameFileSeedPairs: nat, crossFilePairs: nat,
                           crossFileSeedPairs: nat, extensionComparisons: nat, rawMatches: nat)

  datatype Limit =
    | WindowOccurrences
    | SameFileSeedPairs
    | CrossFilePairs
    | CrossFileSeedPairs
    | ExtensionComparisons
    | RawMatches

  /** A reported match, in physical line numbers. */
  datatype MatchPair = MatchPair(firstFile: nat, firstStart: nat, firstEnd: nat,
                                 secondFile: nat, secondStart: nat, secondEnd: nat, size: nat)

  datatype Acceptance = Accepted | TooClose | Exceeded(limit: Limit)

  // ------------------------------------------------------------- bounded work

  /** Counters of the work done so far, checked against project-wide limits. */
  class ComparisonBudget {
    const files: seq<FileData>
    const limits: Limits
    var sameSeedPairs: nat
    var crossSeedPairs: nat
    var comparisons: nat
    var crossFilePairs: set<(nat, nat)>
    ghost var compared: seq<Comparison>

    constructor (files: seq<FileData>, limits: Limits)
      ensures this.files == files && this.limits == limits
      ensures sameSeedPairs == crossSeedPairs == comparisons == 0 && crossFilePairs == {} && compared == []
    {
      this.files, this.limits := files, limits;
      sameSeedPairs, crossSeedPairs, comparisons, crossFilePairs := 0, 0, 0, {};
      compared := [];
    }

    ghost predicate Counted()
      reads this
    {
      comparisons == |compared|
    }

    predicate InBudget()
      reads this
    {
      comparisons <= limits.extensionComparisons
    }

    method Equal(first: nat, p: nat, second: nat, q: nat) returns (ok: bool, same: bool)
      requires first < |files| && second < |files| && p < |files[first].indexed| && q < |files[second].indexed|
      requires Counted()
      modifies this`comparisons, this`compared
      ensures Counted() && compared == old(compared) + [Comparison(Alignment(first, second, q as int - p as int), p)]
      ensures ok <==> InBudget()
      ensures ok ==> same == SameLine(files[first], p, files[second], q)
    {
      comparisons := comparisons + 1;
      compared := compared + [Comparison(Alignment(first, second, q as int - p as int), p)];
      if comparisons > limits.extensionComparisons {
        return false, false;
      }
      return true, files[first].indexed[p].normalized == files[second].indexed[q].normalized;
    }

    method AcceptsSeedPair(first: nat, p: nat, second: nat, q: nat, window: nat) returns (r: Acceptance)
      modifies this`sameSeedPairs, this`crossSeedPairs, this`crossFilePairs
      ensures first == second ==>
        && sameSeedPairs == old(sameSeedPairs) + 1
        && crossSeedPairs == old(crossSeedPairs) && crossFilePairs == old(crossFilePairs)
        && r == (if sameSeedPairs > limits.sameFileSeedPairs then Exceeded(SameFileSeedPairs)
                 else if q - p >= window then Accepted else TooClose)
      ensures first != second ==>
        && sameSeedPairs == old(sameSeedPairs) && crossSeedPairs == old(crossSeedPairs) + 1
        && (r == Exceeded(CrossFileSeedPairs) <==> crossSeedPairs > limits.crossFileSeedPairs)
        && (crossSeedPairs > limits.crossFileSeedPairs ==> crossFilePairs == old(crossFilePairs))
        && (crossSeedPairs <= limits.crossFileSeedPairs ==>
              && crossFilePairs == old(crossFilePairs) + {(first, second)}
              && r == if |crossFilePairs| > limits.crossFilePairs then Exceeded(CrossFilePairs) else Accepted)
    {
      if first == second {
        sameSeedPairs := sameSeedPairs + 1;
        if sameSeedPairs > limits.sameFileSeedPairs {
          return Exceeded(SameFileSeedPairs);
        }
        return if q - p >= window then Accepted else TooClose;
      }
      crossSeedPairs := crossSeedPairs + 1;
      if crossSeedPairs > limits.crossFileSeedPairs {
        return Exceeded(CrossFileSeedPairs);
      }
      crossFilePairs := crossFilePairs + {(first, second)};
      if |crossFilePairs| > limits.crossFilePairs {
        return Exceeded(CrossFilePairs);
      }
      return Accepted;
    }
  }

  // ------------------------------------------------------- comparing, extending

  /** The copies may not grow into each other when they are in one file. */
  predicate MeetsItself(s: Span) {
    s.first == s.second && s.start + s.size == s.other
  }

  predicate KeepsApart(s: Span) {
    s.first == s.second ==> s.start + s.size <= s.other
  }

  method SeedIsEqual(budget: ComparisonBudget, first: nat, p: nat, second: nat, q: nat, window: nat)
    returns (ok: bool, equal: bool)
    requires first < |budget.files| && second < |budget.files|
    requires p + window <= |budget.files[first].indexed| && q + window <= |budget.files[second].indexed|
    requires budget.Counted() && budget.InBudget()
    modifies budget`comparisons, budget`compared
    ensures budget.Counted()
    ensures OnlyOn(old(budget.compared), budget.compared, Alignment(first, second, q as int - p as int))
    ensures ok <==> budget.InBudget()
    ensures ok ==> equal == EqualRuns(budget.files[first], p, budget.files[second], q, window)
    ensures window > 0 ==> Comparison(Alignment(first, second, q as int - p as int), p) in budget.compared
    ensures ok && equal ==> Seen(budget.compared, Alignment(first, second, q as int - p as int), p, p + window)
  {
    for offset := 0 to window
      invariant Seen(budget.compared, Alignment(first, second, q as int - p as int), p, p + offset)
      invariant budget.Counted() && budget.InBudget()
      invariant OnlyOn(old(budget.compared), budget.compared, Alignment(first, second, q as int - p as int))
      invariant EqualRuns(budget.files[first], p, budget.files[second], q, offset)
    {
      var same;
      ok, same := budget.Equal(first, p + offset, second, q + offset);
      if !ok {
        return false, false;
      }
      if !same {
        assert !SameOffset(budget.files[first], p, budget.files[second], q, offset);
        return true, false;
      }
    }
    return true, true;
  }

  /** The run with one more pair of lines in front. */
  function GrownBack(s: Span): Span
    requires s.start > 0 && s.other > 0
  {
    Span(s.first, s.start - 1, s.second, s.other - 1, s.size + 1)
  }

  lemma GrowBack(files: seq<FileData>, s: Span)
    requires ValidFiles(files) && Agrees(files, s) && GrowsBack(files, s)
    ensures Agrees(files, GrownBack(s))
  {
    var a, b, t := files[s.first], files[s.second], GrownBack(s);
    forall i: nat | i < t.size
      ensures SameOffset(a, t.start, b, t.other, i)
    {
      if i > 0 {
        assert SameOffset(a, s.start, b, s.other, i - 1);
      }
    }
  }

  lemma GrowForward(files: seq<FileData>, s: Span)
    requires ValidFiles(files) && Agrees(files, s) && GrowsForward(files, s)
    ensures Agrees(files, s.(size := s.size + 1))
  {
  }

  /** How far the seed `s` may at most grow back. */
  function BackwardLimit(s: Span): nat
    requires KeepsApart(s)
  {
    var bound := Min(s.start, s.other);
    if s.first == s.second then Min(bound, s.other - s.start - s.size) else bound
  }

  function Backed(s: Span, n: nat): Span
    requires n <= s.start && n <= s.other
  {
    Span(s.first, s.start - n, s.second, s.other - n, s.size + n)
  }

  /** Compares the lines in front of a run grown back by `n`, if they are in its regions. */
  method BackOnce(budget: ComparisonBudget, s: Span, n: nat) returns (ok: bool, more: bool)
    requires ValidFiles(budget.files) && s.size > 0 && n < s.start && n < s.other
    requires Agrees(budget.files, Backed(s, n)) && budget.Counted() && budget.InBudget()
    modifies budget`comparisons, budget`compared
    ensures budget.Counted() && (ok <==> budget.InBudget())
    ensures budget.compared == old(budget.compared)
      || budget.compared == old(budget.compared) + [Comparison(AlignmentOf(s), s.start - n - 1)]
    ensures more ==> budget.compared != old(budget.compared)
    ensures ok && more ==> Agrees(budget.files, Backed(s, n + 1))
    ensures ok && !more ==> !GrowsBack(budget.files, Backed(s, n))
  {
    hide Agrees, GrowsBack, SameLine, ValidFiles;
    RegionsOfSeed(budget.files, s, n);
    var a, b := budget.files[s.first], budget.files[s.second];
    var p, q := s.start - n - 1, s.other - n - 1;
    if a.regions[p] != a.regions[s.start] || b.regions[q] != b.regions[s.other] {
      BackBlocked(budget.files, s, n);
      return true, false;
    }
    ok, more := budget.Equal(s.first, p, s.second, q);
    if ok && more {
      BackStep(budget.files, s, n);
    } else if ok {
      BackBlocked(budget.files, s, n);
    }
  }

  method ExtendBackward(budget: ComparisonBudget, s: Span) returns (ok: bool, backward: nat)
    requires ValidFiles(budget.files) && Agrees(budget.files, s) && KeepsApart(s)
    requires budget.Counted() && budget.InBudget()
    modifies budget`comparisons, budget`compared
    ensures budget.Counted() && OnlyOn(old(budget.compared), budget.compared, AlignmentOf(s))
    ensures ok <==> budget.InBudget()
    ensures ok ==> backward <= BackwardLimit(s) && Agrees(budget.files, Backed(s, backward))
    ensures ok ==> Seen(budget.compared, AlignmentOf(s), s.start - backward, s.start)
    ensures ok ==> GrowsBack(budget.files, Backed(s, backward)) ==> MeetsItself(Backed(s, backward))
  {
    var backwardLimit := BackwardLimit(s);
    backward := 0;
    assert Backed(s, 0) == s && s.size > 0;
    hide Agrees, GrowsBack, MeetsItself, KeepsApart, ValidFiles, Seen, OnlyOn;
    NothingSeen(budget.compared, AlignmentOf(s), s.start);
    while backward < backwardLimit
      invariant backward <= backwardLimit
      invariant budget.Counted() && budget.InBudget() && OnlyOn(old(budget.compared), budget.compared, AlignmentOf(s))
      invariant Agrees(budget.files, Backed(s, backward))
      invariant Seen(budget.compared, AlignmentOf(s), s.start - backward, s.start)
    {
      ghost var seen := budget.compared;
      var more;
      ok, more := BackOnce(budget, s, backward);
      OneMoreSeen(old(budget.compared), seen, AlignmentOf(s), s.start - backward - 1, s.start);
      if !ok || !more {
        return;
      }
      backward := backward + 1;
    }
    BackExhausted(budget.files, s, backward);
    ok := true;
  }

  lemma NothingSeen(compared: seq<Comparison>, al: Alignment, p: nat)
    ensures Seen(compared, al, p, p) && OnlyOn(compared, compared, al)
  {
  }

  /** One comparison just before the lines seen. */
  lemma OneMoreSeen(start: seq<Comparison>, before: seq<Comparison>, al: Alignment, p: nat, hi: nat)
    requires OnlyOn(start, before, al) && Seen(before, al, p + 1, hi)
    ensures var compared := before + [Comparison(al, p)];
      OnlyOn(start, compared, al) && Seen(compared, al, p, hi) && Seen(compared, al, p + 1, hi)
  {
  }

  lemma RegionsOfSeed(files: seq<FileData>, s: Span, n: nat)
    requires ValidFiles(files) && n <= s.start && n <= s.other && s.size > 0 && Agrees(files, Backed(s, n))
    ensures s.first < |files| && s.second < |files|
    ensures s.start < |files[s.first].regions| && s.other < |files[s.second].regions|
    ensures s.start <= |files[s.first].indexed| && s.other <= |files[s.second].indexed|
    ensures files[s.first].regions[s.start - n] == files[s.first].regions[s.start]
    ensures files[s.second].regions[s.other - n] == files[s.second].regions[s.other]
  {
  }

  lemma BackBlocked(files: seq<FileData>, s: Span, n: nat)
    requires ValidFiles(files) && s.size > 0 && n < s.start && n < s.other && Agrees(files, Backed(s, n))
    requires s.first < |files| && s.second < |files|
    requires s.start < |files[s.first].regions| && s.other < |files[s.second].regions|
    requires files[s.first].regions[s.start - n - 1] != files[s.first].regions[s.start]
      || files[s.second].regions[s.other - n - 1] != files[s.second].regions[s.other]
      || !SameLine(files[s.first], s.start - n - 1, files[s.second], s.other - n - 1)
    ensures !GrowsBack(files, Backed(s, n))
  {
  }

  lemma BackStep(files: seq<FileData>, s: Span, n: nat)
    requires ValidFiles(files) && s.size > 0 && n < s.start && n < s.other && Agrees(files, Backed(s, n))
    requires s.first < |files| && s.second < |files|
    requires s.start < |files[s.first].regions| && s.other < |files[s.second].regions|
    requires files[s.first].regions[s.start - n - 1] == files[s.first].regions[s.start]
    requires files[s.second].regions[s.other - n - 1] == files[s.second].regions[s.other]
    requires SameLine(files[s.first], s.start - n - 1, files[s.second], s.other - n - 1)
    ensures Agrees(files, Backed(s, n + 1))
  {
    RegionsOfSeed(files, s, n);
    GrowBack(files, Backed(s, n));
    assert GrownBack(Backed(s, n)) == Backed(s, n + 1);
  }

  lemma BackExhausted(files: seq<FileData>, s: Span, n: nat)
    requires ValidFiles(files) && KeepsApart(s) && n == BackwardLimit(s) && Agrees(files, Backed(s, n))
    ensures GrowsBack(files, Backed(s, n)) ==> MeetsItself(Backed(s, n))
  {
  }

  method ExtendForward(budget: ComparisonBudget, s: Span) returns (ok: bool, size: nat)
    requires ValidFiles(budget.files) && Agrees(budget.files, s) && KeepsApart(s)
    requires budget.Counted() && budget.InBudget()
    modifies budget`comparisons, budget`compared
    ensures budget.Counted() && OnlyOn(old(budget.compared), budget.compared, AlignmentOf(s))
    ensures ok <==> budget.InBudget()
    ensures ok ==> size >= s.size && KeepsApart(s.(size := size)) && Agrees(budget.files, s.(size := size))
    ensures ok ==> Seen(budget.compared, AlignmentOf(s), s.start + s.size, s.start + size)
    ensures ok ==> GrowsForward(budget.files, s.(size := size)) ==> MeetsItself(s.(size := size))
  {
    var a, b := budget.files[s.first], budget.files[s.second];
    var firstRegion, secondRegion := a.regions[s.start], b.regions[s.other];
    size := s.size;
    assert s.(size := size) == s;
    while
      && s.start + size < |a.indexed| && s.other + size < |b.indexed|
      && (s.first != s.second || size < s.other - s.start)
      && a.regions[s.start + size] == firstRegion && b.regions[s.other + size] == secondRegion
      invariant budget.Counted() && budget.InBudget() && OnlyOn(old(budget.compared), budget.compared, AlignmentOf(s))
      invariant size >= s.size && KeepsApart(s.(size := size)) && Agrees(budget.files, s.(size := size))
      invariant Seen(budget.compared, AlignmentOf(s), s.start + s.size, s.start + size)
      decreases |a.indexed| - size
    {
      var same;
      ok, same := budget.Equal(s.first, s.start + size, s.second, s.other + size);
      if !ok {
        return false, size;
      }
      if !same {
        return true, size;
      }
      GrowForward(budget.files, s.(size := size));
      assert s.(size := size).(size := size + 1) == s.(size := size + 1);
      size := size + 1;
    }
    ok := true;
  }

  /** The lines of a span have been compared. */
  ghost predicate SpanSeen(compared: seq<Comparison>, span: Span) {
    Seen(compared, AlignmentOf(span), span.start, span.start + span.size)
  }

  /** `span` was grown from a seed of `window` lines at `p`: back to where the run begins, or until the two
    copies meet. */
  ghost predicate GrownFrom(files: seq<FileData>, window: nat, p: nat, span: Span)
    requires ValidFiles(files)
  {
    && Agrees(files, span) && span.start <= p && p + window <= span.start + span.size
    && (GrowsBack(files, span) ==> span.first == span.second && p + window == span.other)
  }

  /** Grows the seed as far as it goes on both sides. */
  method ExtendSeed(budget: ComparisonBudget, seed: Span) returns (ok: bool, grown: Span)
    requires ValidFiles(budget.files) && Agrees(budget.files, seed) && KeepsApart(seed)
    requires budget.Counted() && budget.InBudget() && SpanSeen(budget.compared, seed)
    modifies budget`comparisons, budget`compared
    ensures budget.Counted() && OnlyOn(old(budget.compared), budget.compared, AlignmentOf(seed))
    ensures ok <==> budget.InBudget()
    ensures ok ==>
      && Agrees(budget.files, grown) && KeepsApart(grown) && AlignmentOf(grown) == AlignmentOf(seed)
      && grown.start <= seed.start && seed.start + seed.size <= grown.start + grown.size
      && (Maximal(budget.files, grown) || MeetsItself(grown))
    ensures ok ==> SpanSeen(budget.compared, grown) && GrownFrom(budget.files, seed.size, seed.start, grown)
  {
    grown := seed;
    var backward;
    ok, backward := ExtendBackward(budget, seed);
    if !ok {
      return;
    }
    var backed := Backed(seed, backward);
    var size;
    ok, size := ExtendForward(budget, backed);
    grown := backed.(size := size);
    if ok {
      SameBack(budget.files, backed, size);
    }
  }

  lemma SameBack(files: seq<FileData>, s: Span, size: nat)
    requires ValidFiles(files) && Agrees(files, s) && Agrees(files, s.(size := size))
    ensures GrowsBack(files, s) == GrowsBack(files, s.(size := size))
  {
  }

  // ------------------------------------------------------------ the match list

  /** The physical lines of a span. */
  function Located(files: seq<FileData>, s: Span): MatchPair
    requires ValidFiles(files) && Agrees(files, s)
  {
    var a, b := files[s.first].indexed, files[s.second].indexed;
    MatchPair(s.first, a[s.start].line, a[s.start + s.size - 1].line,
              s.second, b[s.other].line, b[s.other + s.size - 1].line, s.size)
  }

  /** The lines of a file are indexed in ascending order. */
  ghost predicate Ascending(file: FileData) {
    forall i, j | 0 <= i < j < |file.indexed| :: file.indexed[i].line < file.indexed[j].line
  }

  /** Of the indexed lines, exactly `size` from `start` on lie between `low` and `high`, which are two of them. */
  ghost predicate Encloses(file: FileData, low: nat, high: nat, start: nat, size: nat) {
    && (forall p | 0 <= p < |file.indexed| :: low <= file.indexed[p].line <= high <==> start <= p < start + size)
    && (exists r | r in file.indexed :: r.line == low)
    && (exists r | r in file.indexed :: r.line == high)
  }

  /** A match names the files, the number of lines and the physical lines of a span. */
  ghost predicate Tells(files: seq<FileData>, m: MatchPair, s: Span)
    requires s.first < |files| && s.second < |files|
  {
    && m.firstFile == s.first && m.secondFile == s.second && m.size == s.size
    && (Ascending(files[s.first]) ==> Encloses(files[s.first], m.firstStart, m.firstEnd, s.start, s.size))
    && (Ascending(files[s.second]) ==> Encloses(files[s.second], m.secondStart, m.secondEnd, s.other, s.size))
  }

  lemma LocatedTells(files: seq<FileData>, s: Span)
    requires ValidFiles(files) && Agrees(files, s)
    ensures Tells(files, Located(files, s), s)
  {
    hide EqualRuns, OneRegion, Encloses;
    if Ascending(files[s.first]) {
      RangeEncloses(files[s.first], s.start, s.size);
    }
    if Ascending(files[s.second]) {
      RangeEncloses(files[s.second], s.other, s.size);
    }
  }

  lemma RangeEncloses(file: FileData, start: nat, size: nat)
    requires Ascending(file) && size > 0 && start + size <= |file.indexed|
    ensures Encloses(file, file.indexed[start].line, file.indexed[start + size - 1].line, start, size)
  {
    assert file.indexed[start] in file.indexed && file.indexed[start + size - 1] in file.indexed;
  }

  /** Every match tells the span it was made for. */
  ghost predicate AllTold(files: seq<FileData>, found: seq<Span>, matches: seq<MatchPair>) {
    && |matches| == |found|
    && forall i | 0 <= i < |found| ::
         found[i].first < |files| && found[i].second < |files| && Tells(files, matches[i], found[i])
  }

  lemma LocatedTold(s: Setup, found: seq<Span>, matches: seq<MatchPair>)
    requires ValidSetup(s) && AllReportable(s, found) && AllLocated(s, found, matches)
    ensures AllTold(s.files, found, matches)
  {
    hide Tells, Located, EqualRuns, OneRegion, HoldsSignal, GrowsBack, GrowsForward;
    forall i | 0 <= i < |found|
      ensures found[i].first < |s.files| && found[i].second < |s.files| && Tells(s.files, matches[i], found[i])
    {
      LocatedTells(s.files, found[i]);
    }
  }

  ghost predicate AllReportable(s: Setup, found: seq<Span>)
    requires ValidSetup(s)
  {
    forall i | 0 <= i < |found| :: Reportable(s.files, s.signal, s.window, found[i])
  }

  ghost predicate AllLocated(s: Setup, found: seq<Span>, matches: seq<MatchPair>)
    requires ValidSetup(s) && AllReportable(s, found)
  {
    |matches| == |found| && forall i | 0 <= i < |found| :: matches[i] == Located(s.files, found[i])
  }

  /** The interval lists cover, per alignment, exactly what the spans found include. */
  ghost predicate TracksFound(covered: map<Alignment, seq<Interval>>, found: seq<Span>) {
    && (forall al <- covered :: Canonical(covered[al]))
    && forall al, p: nat :: Reached(found, al, p) <==> al in covered && Covers(covered[al], p)
  }

  /** Two seeds whose lines are equal have led to a span through the first line of the first one. */
  ghost predicate Followed(s: Setup, found: seq<Span>, o: Occurrence, u: Occurrence)
    requires ValidSetup(s) && o.file < |s.files| && u.file < |s.files|
  {
    EqualRuns(s.files[o.file], o.position, s.files[u.file], u.position, s.window) &&
    (o.file == u.file ==> o.position + s.window <= u.position) ==>
      Reached(found, Alignment(o.file, u.file, u.position - o.position), o.position)
  }

  lemma ReachedMore(found: seq<Span>, span: Span, al: Alignment, p: nat)
    ensures Reached(found + [span], al, p) <==> Reached(found, al, p) || Includes(span, al, p)
  {
    var more := found + [span];
    if Reached(found, al, p) {
      var i :| 0 <= i < |found| && Includes(found[i], al, p);
      assert more[i] == found[i];
    }
    if Includes(span, al, p) {
      assert more[|found|] == span;
    }
    if Reached(more, al, p) {
      var i :| 0 <= i < |more| && Includes(more[i], al, p);
      assert i < |found| ==> found[i] == more[i];
    }
  }

  lemma TrackNew(covered: map<Alignment, seq<Interval>>, found: seq<Span>, span: Span, list: seq<Interval>)
    requires TracksFound(covered, found) && span.size > 0 && Canonical(list)
    requires forall p: nat :: Covers(list, p) <==>
      (AlignmentOf(span) in covered && Covers(covered[AlignmentOf(span)], p))
      || span.start <= p <= span.start + span.size - 1
    ensures TracksFound(covered[AlignmentOf(span) := list], found + [span])
  {
    hide Covers, Canonical, Reached;
    var al := AlignmentOf(span);
    forall a, p: nat
      ensures Reached(found + [span], a, p) <==> a in covered[al := list] && Covers(covered[al := list][a], p)
    {
      ReachedMore(found, span, a, p);
    }
  }

  lemma LookUp(covered: map<Alignment, seq<Interval>>, found: seq<Span>, al: Alignment)
    requires TracksFound(covered, found) && al in covered
    ensures Canonical(covered[al])
  {
  }

  lemma WhetherReached(covered: map<Alignment, seq<Interval>>, found: seq<Span>, al: Alignment, p: nat)
    requires TracksFound(covered, found)
    ensures Reached(found, al, p) <==> al in covered && Covers(covered[al], p)
  {
  }

  lemma SeedFits(files: seq<FileData>, signal: string -> bool, f: nat, p: nat, window: nat)
    requires f < |files| && Seeded(files[f], signal, p, window)
    ensures p + window <= |files[f].indexed|
  {
  }

  lemma SeedAgrees(s: Setup, seed: Span)
    requires ValidSetup(s) && seed.first < |s.files| && seed.second < |s.files| && seed.size == s.window
    requires Seeded(s.files[seed.first], s.signal, seed.start, s.window)
    requires Seeded(s.files[seed.second], s.signal, seed.other, s.window)
    requires EqualRuns(s.files[seed.first], seed.start, s.files[seed.second], seed.other, s.window)
    ensures Agrees(s.files, seed)
  {
  }

  lemma GrownReportable(s: Setup, seed: Span, span: Span)
    requires ValidSetup(s) && Agrees(s.files, seed) && seed.size == s.window && seed.first <= seed.second
    requires Seeded(s.files[seed.first], s.signal, seed.start, s.window)
    requires s.files[seed.first].language == s.files[seed.second].language
    requires Agrees(s.files, span) && KeepsApart(span) && AlignmentOf(span) == AlignmentOf(seed)
    requires span.start <= seed.start && seed.start + seed.size <= span.start + span.size
    requires Maximal(s.files, span) || MeetsItself(span)
    ensures Reportable(s.files, s.signal, s.window, span)
    ensures span.size > 0 && span.start + span.size - 1 <= MAX_POSITION
    ensures Includes(span, AlignmentOf(seed), seed.start)
  {
  }

  lemma AppendFound(s: Setup, found: seq<Span>, matches: seq<MatchPair>, span: Span, al: Alignment, p: nat)
    requires ValidSetup(s) && AllReportable(s, found) && Orders.NoRepeats(found) && AllLocated(s, found, matches)
    requires Reportable(s.files, s.signal, s.window, span) && Agrees(s.files, span)
    requires !Reached(found, al, p) && Includes(span, al, p)
    ensures AllReportable(s, found + [span]) && Orders.NoRepeats(found + [span])
    ensures AllLocated(s, found + [span], matches + [Located(s.files, span)])
  {
    hide Reportable, Agrees, Located;
    forall i | 0 <= i < |found|
      ensures found[i] != span
    {
      assert !Includes(found[i], al, p);
    }
  }

  /** What a stopped search ran into. */
  ghost predicate Exceeds(limit: Limit, limits: Limits, found: seq<Span>, log: Log, compared: seq<Comparison>) {
    match limit
    case WindowOccurrences => false
    case SameFileSeedPairs => |log.same| > limits.sameFileSeedPairs
    case CrossFilePairs => |FilePairs(log.cross)| > limits.crossFilePairs
    case CrossFileSeedPairs => |log.cross| > limits.crossFileSeedPairs
    case ExtensionComparisons => |compared| > limits.extensionComparisons
    case RawMatches => |found| > limits.rawMatches
  }

  ghost predicate NoneExceeded(limits: Limits, found: seq<Span>, log: Log, compared: seq<Comparison>) {
    && |log.same| <= limits.sameFileSeedPairs && |FilePairs(log.cross)| <= limits.crossFilePairs
    && |log.cross| <= limits.crossFileSeedPairs && |compared| <= limits.extensionComparisons
    && |found| <= limits.rawMatches
  }

  ghost predicate SpansSeen(compared: seq<Comparison>, found: seq<Span>) {
    forall i | 0 <= i < |found| :: SpanSeen(compared, found[i])
  }

  lemma SpansSeenMore(before: seq<Comparison>, after: seq<Comparison>, found: seq<Span>)
    requires before <= after && SpansSeen(before, found)
    ensures SpansSeen(after, found)
  {
  }

  lemma AppendSeen(compared: seq<Comparison>, found: seq<Span>, span: Span)
    requires SpansSeen(compared, found) && SpanSeen(compared, span)
    ensures SpansSeen(compared, found + [span])
  {
    hide SpanSeen;
  }

  /** What a span includes has been compared. */
  lemma ReachedIsSeen(compared: seq<Comparison>, found: seq<Span>, al: Alignment, p: nat)
    requires SpansSeen(compared, found) && Reached(found, al, p)
    ensures Comparison(al, p) in compared
  {
    var i :| 0 <= i < |found| && Includes(found[i], al, p);
    assert SpanSeen(compared, found[i]);
  }

  /** Each span was grown from its origin. */
  ghost predicate AllGrown(s: Setup, found: seq<Span>, origins: seq<Visit>)
    requires ValidSetup(s)
  {
    && |origins| == |found|
    && forall i | 0 <= i < |found| :: GrownFrom(s.files, s.window, origins[i].first.position, found[i])
  }

  lemma AppendGrown(s: Setup, found: seq<Span>, origins: seq<Visit>, span: Span, v: Visit)
    requires ValidSetup(s) && AllGrown(s, found, origins)
    requires GrownFrom(s.files, s.window, v.first.position, span)
    ensures AllGrown(s, found + [span], origins + [v])
  {
    hide GrownFrom;
  }

  /** What has been found, visited and compared so far. */
  datatype History = History(found: seq<Span>, log: Log, compared: seq<Comparison>)

  /** Nothing is forgotten. */
  predicate Continues(h: History, next: History) {
    && h.found <= next.found && h.compared <= next.compared
    && h.log.same <= next.log.same && h.log.cross <= next.log.cross
  }

  /** The state of one search: what has been reported and which positions it covers. */
  class RawMatchSearch {
    ghost const setup: Setup
    const budget: ComparisonBudget
    var rawMatches: seq<MatchPair>
    var covered: map<Alignment, seq<Interval>>
    ghost var found: seq<Span>
    ghost var log: Log

    constructor (budget: ComparisonBudget, ghost setup: Setup)
      requires ValidSetup(setup) && budget.files == setup.files && budget.compared == [] && budget.crossFilePairs == {}
      requires budget.sameSeedPairs == budget.crossSeedPairs == budget.comparisons == 0
      ensures this.budget == budget && this.setup == setup && found == [] && log == Log([], [], []) && Valid()
      ensures Within()
    {
      this.budget := budget;
      this.setup := setup;
      rawMatches, covered, found, log := [], map[], [], Log([], [], []);
    }

    /** The counters of the budget are those of the log. */
    ghost predicate Counts()
      reads this, budget
    {
      && budget.Counted()
      && budget.sameSeedPairs == |log.same| && budget.crossSeedPairs == |log.cross|
    }

    ghost predicate Valid()
      reads this, budget
    {
      && ValidSetup(setup) && budget.files == setup.files
      && AllReportable(setup, found) && Orders.NoRepeats(found) && AllLocated(setup, found, rawMatches)
      && TracksFound(covered, found)
      && SoundLog(setup, log) && Originated(found, log.origins) && Warranted(log, budget.compared) && Counts()
      && SpansSeen(budget.compared, found) && AllGrown(setup, found, log.origins)
    }

    ghost function Past(): History
      reads this, budget
    {
      History(found, log, budget.compared)
    }

    /** No bound has been exceeded yet. */
    ghost predicate Within()
      reads this, budget
    {
      budget.crossFilePairs == FilePairs(log.cross) && NoneExceeded(budget.limits, found, log, budget.compared)
    }

    ghost predicate Hit(limit: Limit)
      reads this, budget
    {
      Exceeds(limit, budget.limits, found, log, budget.compared)
    }

    /** `v` has been recorded, and no span has been grown from it or a later pair yet. */
    ghost predicate Current(v: Visit)
      requires ValidSetup(setup)
      reads this
    {
      && (v in log.same || v in log.cross) && IsVisit(setup, v)
      && forall x <- log.origins :: VisitLess(x, v)
    }

    /** Follows one accepted pair of seeds. */
    method FollowSeed(o: Occurrence, u: Occurrence, window: nat, ghost v: Visit) returns (exceeded: bool, limit: Limit)
      requires Valid() && Within() && window == setup.window && Current(v) && v.first == o && v.second == u
      requires o.file < |budget.files| && u.file < |budget.files| && o.file <= u.file
      requires budget.files[o.file].language == budget.files[u.file].language
      requires Seeded(budget.files[o.file], setup.signal, o.position, window)
      requires Seeded(budget.files[u.file], setup.signal, u.position, window)
      requires o.file == u.file ==> o.position + window <= u.position
      modifies this, budget`comparisons, budget`compared
      ensures Valid() && Continues(old(Past()), Past())
      ensures log == old(log) || log == old(log).(origins := old(log).origins + [v])
      ensures !exceeded ==> Followed(setup, found, o, u) && Comparison(VisitAlignment(v), o.position) in budget.compared
      ensures if exceeded then Hit(limit) else Within()
    {
      hide TracksFound, Reached, AllReportable, Orders.NoRepeats, AllLocated, Agrees, GrowsBack, GrowsForward;
      hide SoundLog, Originated, Warranted, FilePairs, IsVisit, VisitLess, Seeded, EqualRuns, Canonical, Covers;
      hide SpansSeen, AllGrown;
      exceeded, limit := false, ExtensionComparisons;
      var al := Alignment(o.file, u.file, u.position - o.position);
      if al in covered {
        LookUp(covered, found, al);
        var contained := IntervalContains(covered[al], o.position);
        if contained {
          WhetherReached(covered, found, al, o.position);
          ReachedIsSeen(budget.compared, found, al, o.position);
          return;
        }
      }
      WhetherReached(covered, found, al, o.position);
      SeedFits(budget.files, setup.signal, o.file, o.position, window);
      SeedFits(budget.files, setup.signal, u.file, u.position, window);
      ghost var before := budget.compared;
      var ok, equal := SeedIsEqual(budget, o.file, o.position, u.file, u.position, window);
      MoreWarranted(log, before, budget.compared, v);
      SpansSeenMore(before, budget.compared, found);
      if !ok || !equal {
        exceeded := !ok;
        return;
      }
      SeedAgrees(setup, Span(o.file, o.position, u.file, u.position, window));
      exceeded, limit := ReportRun(Span(o.file, o.position, u.file, u.position, window), v);
    }

    /** Grows a seed of equal lines that no span reaches yet, and reports the result. */
    method ReportRun(seed: Span, ghost v: Visit) returns (exceeded: bool, limit: Limit)
      requires Valid() && Within() && Agrees(budget.files, seed) && seed.size == setup.window
      requires seed.first <= seed.second
      requires Current(v) && VisitAlignment(v) == AlignmentOf(seed) && v.first.position == seed.start
      requires budget.files[seed.first].language == budget.files[seed.second].language
      requires Seeded(budget.files[seed.first], setup.signal, seed.start, setup.window)
      requires KeepsApart(seed) && !Reached(found, AlignmentOf(seed), seed.start) && SpanSeen(budget.compared, seed)
      modifies this, budget`comparisons, budget`compared
      ensures Valid() && Continues(old(Past()), Past())
      ensures log == old(log) || log == old(log).(origins := old(log).origins + [v])
      ensures !exceeded ==> Reached(found, AlignmentOf(seed), seed.start)
      ensures if exceeded then Hit(limit) else Within()
    {
      hide TracksFound, Reached, AllReportable, Orders.NoRepeats, AllLocated, Agrees, GrowsBack, GrowsForward, Seeded;
      hide Reportable;
      hide Canonical, Covers, KeepsApart, SoundLog, Originated, Warranted, FilePairs, IsVisit, VisitLess;
      hide VisitAlignment, Includes, SpansSeen, SpanSeen, GrownFrom, AllGrown;
      exceeded, limit := false, ExtensionComparisons;
      var al := AlignmentOf(seed);
      ghost var before := budget.compared;
      var ok, span := ExtendSeed(budget, seed);
      MoreWarranted(log, before, budget.compared, v);
      SpansSeenMore(before, budget.compared, found);
      if !ok {
        exceeded := true;
        return;
      }
      GrownReportable(setup, seed, span);
      var intervals := Intervals(covered, found, al);
      intervals := AddInterval(intervals, span.start, span.start + span.size - 1);
      TrackNew(covered, found, span, intervals);
      AppendFound(setup, found, rawMatches, span, al, seed.start);
      ReachedMore(found, span, al, seed.start);
      AppendOrigin(found, log.origins, span, v);
      AppendGrown(setup, found, log.origins, span, v);
      AppendSeen(budget.compared, found, span);
      LogOrigin(setup, log, v, budget.compared);
      covered := covered[al := intervals];
      rawMatches := rawMatches + [Located(budget.files, span)];
      found := found + [span];
      log := log.(origins := log.origins + [v]);
      CountFound(setup, found, rawMatches);
      if |rawMatches| > budget.limits.rawMatches {
        exceeded, limit := true, RawMatches;
      }
    }
  }

  lemma LogOrigin(s: Setup, log: Log, v: Visit, compared: seq<Comparison>)
    requires ValidSetup(s) && SoundLog(s, log) && IsVisit(s, v) && Warranted(log, compared)
    requires forall x <- log.origins :: VisitLess(x, v)
    ensures SoundLog(s, log.(origins := log.origins + [v])) && Warranted(log.(origins := log.origins + [v]), compared)
  {
    hide SoundVisits, VisitLess, IsVisit, VisitAlignment;
    AppendVisit(s, log.origins, v);
    forall c | c in compared
      ensures WarrantedOne(log.(origins := log.origins + [v]), c)
    {
      assert WarrantedOne(log, c);
    }
  }

  lemma CountFound(s: Setup, found: seq<Span>, matches: seq<MatchPair>)
    requires ValidSetup(s) && AllReportable(s, found) && AllLocated(s, found, matches)
    ensures |found| == |matches|
  {
  }

  /** The interval list of an alignment, created on first use. */
  function Intervals(covered: map<Alignment, seq<Interval>>, ghost found: seq<Span>, al: Alignment)
    : (list: seq<Interval>)
    requires TracksFound(covered, found)
    ensures Canonical(list)
    ensures forall p: nat :: Covers(list, p) <==> al in covered && Covers(covered[al], p)
  {
    if al in covered then covered[al] else []
  }

  // ------------------------------------------------------------ pairs of seeds

  /** The visit is on record, and its first lines have been compared unless the two are too close. */
  ghost predicate Recorded(s: Setup, h: History, v: Visit) {
    && (v in h.log.same || v in h.log.cross)
    && ((v.first.file == v.second.file && v.second.position - v.first.position < s.window)
        || Comparison(VisitAlignment(v), v.first.position) in h.compared)
  }

  /** The pair at two places of the bucket under `key` has been visited and followed. */
  ghost predicate PairFollowed(s: Setup, h: History, key: Key, bucket: seq<Occurrence>, i: nat, j: nat)
    requires ValidSetup(s) && i < |bucket| && j < |bucket|
  {
    && bucket[i].file < |s.files| && bucket[j].file < |s.files|
    && Followed(s, h.found, bucket[i], bucket[j])
    && Recorded(s, h, Visit(key, bucket[i], bucket[j]))
  }

  /** All pairs whose first member is among the first `n` of a bucket are followed. */
  ghost predicate BucketFollowed(s: Setup, h: History, key: Key, bucket: seq<Occurrence>, n: nat)
    requires ValidSetup(s)
  {
    forall i: nat, j: nat | i < j < |bucket| && i < n :: PairFollowed(s, h, key, bucket, i, j)
  }

  ghost predicate AllFollowed(s: Setup, h: History, m: WindowMap)
    requires ValidSetup(s)
  {
    forall key <- m :: BucketFollowed(s, h, key, m[key], |m[key]|)
  }

  lemma PairFollowedMore(s: Setup, h: History, next: History, key: Key, bucket: seq<Occurrence>, i: nat, j: nat)
    requires ValidSetup(s) && i < |bucket| && j < |bucket|
    requires Continues(h, next) && PairFollowed(s, h, key, bucket, i, j)
    ensures PairFollowed(s, next, key, bucket, i, j)
  {
    FollowedMore(s, h.found, next.found, bucket[i], bucket[j]);
    hide Followed, VisitAlignment;
  }

  lemma FollowedMore(s: Setup, found: seq<Span>, more: seq<Span>, o: Occurrence, u: Occurrence)
    requires ValidSetup(s) && o.file < |s.files| && u.file < |s.files|
    requires found <= more && Followed(s, found, o, u)
    ensures Followed(s, more, o, u)
  {
  }

  lemma BucketFollowedMore(s: Setup, h: History, next: History, key: Key, bucket: seq<Occurrence>, n: nat)
    requires ValidSetup(s) && Continues(h, next) && BucketFollowed(s, h, key, bucket, n)
    ensures BucketFollowed(s, next, key, bucket, n)
  {
    hide PairFollowed;
    forall i: nat, j: nat | i < j < |bucket| && i < n
      ensures PairFollowed(s, next, key, bucket, i, j)
    {
      assert PairFollowed(s, h, key, bucket, i, j);
      PairFollowedMore(s, h, next, key, bucket, i, j);
    }
  }

  /** One bucket of the index: the seeds under one key, in order. */
  ghost predicate IsBucket(s: Setup, key: Key, bucket: seq<Occurrence>)
    requires ValidSetup(s)
  {
    Ordered(bucket) && forall o <- bucket :: Belongs(s, key, o)
  }

  lemma PairInBucket(s: Setup, key: Key, bucket: seq<Occurrence>, i: nat, j: nat)
    requires ValidSetup(s) && IsBucket(s, key, bucket) && i < j < |bucket|
    ensures IsVisit(s, Visit(key, bucket[i], bucket[j])) && Ordered(bucket)
    ensures bucket[i].file <= bucket[j].file < |s.files|
    ensures s.files[bucket[i].file].language == s.files[bucket[j].file].language
    ensures Seeded(s.files[bucket[i].file], s.signal, bucket[i].position, s.window)
    ensures Seeded(s.files[bucket[j].file], s.signal, bucket[j].position, s.window)
  {
    hide Seeded;
    assert Belongs(s, key, bucket[i]) && Belongs(s, key, bucket[j]);
  }

  /** Counts one pair of seeds and records the visit. */
  method Visited(search: RawMatchSearch, ghost key: Key, bucket: seq<Occurrence>, left: nat, right: nat, window: nat)
    returns (accepted: Acceptance)
    requires search.Valid() && search.Within() && IsBucket(search.setup, key, bucket) && left < right < |bucket|
    requires LogUpto(search.log, key, bucket, left, right)
    modifies search`log, search.budget
    ensures search.Valid()
    ensures search.log == Noted(old(search.log), Visit(key, bucket[left], bucket[right]))
    ensures Continues(old(search.Past()), search.Past())
    ensures search.Current(Visit(key, bucket[left], bucket[right]))
    ensures LogUpto(search.log, key, bucket, left, right + 1)
    ensures var v := Visit(key, bucket[left], bucket[right]);
      LogUpto(search.log.(origins := search.log.origins + [v]), key, bucket, left, right + 1)
    ensures if accepted.Exceeded? then search.Hit(accepted.limit) else search.Within()
    ensures accepted.TooClose? ==>
      bucket[left].file == bucket[right].file && bucket[right].position - bucket[left].position < window
    ensures accepted.Accepted? && bucket[left].file == bucket[right].file ==>
      bucket[left].position + window <= bucket[right].position
  {
    hide IsBucket, TracksFound, AllReportable, Orders.NoRepeats, AllLocated, SoundLog, Originated, Warranted, LogUpto;
    hide FilePairs, IsVisit, VisitLess, SpansSeen, AllGrown;
    ghost var s, log := search.setup, search.log;
    ghost var v := Visit(key, bucket[left], bucket[right]);
    var first, second := bucket[left], bucket[right];
    PairInBucket(s, key, bucket, left, right);
    RecordVisit(s, log, key, bucket, left, right);
    StillWarranted(log, v, search.budget.compared);
    MoreFilePairs(log, v);
    accepted := search.budget.AcceptsSeedPair(first.file, first.position, second.file, second.position, window);
    search.log := Noted(log, v);
  }

  lemma MoreFilePairs(log: Log, v: Visit)
    ensures v.first.file != v.second.file ==>
      FilePairs(Noted(log, v).cross) == FilePairs(log.cross) + {(v.first.file, v.second.file)}
    ensures v in Noted(log, v).same || v in Noted(log, v).cross
    ensures v.first.file == v.second.file ==>
      |Noted(log, v).same| == |log.same| + 1 && Noted(log, v).cross == log.cross
    ensures v.first.file != v.second.file ==>
      |Noted(log, v).cross| == |log.cross| + 1 && Noted(log, v).same == log.same
    ensures Noted(log, v).origins == log.origins
  {
  }

  method FollowFrom(search: RawMatchSearch, ghost key: Key, bucket: seq<Occurrence>, left: nat, window: nat)
    returns (exceeded: bool, limit: Limit)
    requires search.Valid() && search.Within() && IsBucket(search.setup, key, bucket) && left < |bucket|
    requires window == search.setup.window
    requires BucketFollowed(search.setup, search.Past(), key, bucket, left) && LogUpto(search.log, key, bucket, left, 0)
    modifies search, search.budget
    ensures search.Valid() && Continues(old(search.Past()), search.Past())
    ensures !exceeded ==> BucketFollowed(search.setup, search.Past(), key, bucket, left + 1)
    ensures !exceeded ==> LogUpto(search.log, key, bucket, left + 1, 0)
    ensures if exceeded then search.Hit(limit) else search.Within()
  {
    hide PairFollowed, IsBucket, Seeded, Reached, TracksFound, AllReportable, Orders.NoRepeats, AllLocated;
    hide SoundLog, Originated, Warranted, LogUpto, IsVisit, VisitLess, FilePairs, SpansSeen, AllGrown;
    exceeded, limit := false, RawMatches;
    LogUptoSkip(search.log, key, bucket, left);
    for right := left + 1 to |bucket|
      invariant search.Valid() && search.Within() && Continues(old(search.Past()), search.Past()) && !exceeded
      invariant LogUpto(search.log, key, bucket, left, right)
      invariant BucketFollowed(search.setup, search.Past(), key, bucket, left)
      invariant forall j: nat | left < j < right :: PairFollowed(search.setup, search.Past(), key, bucket, left, j)
    {
      ghost var before := search.Past();
      exceeded, limit := FollowPair(search, key, bucket, left, right, window);
      if exceeded {
        return;
      }
      BucketFollowedMore(search.setup, before, search.Past(), key, bucket, left);
      forall j: nat | left < j < right
        ensures PairFollowed(search.setup, search.Past(), key, bucket, left, j)
      {
        assert PairFollowed(search.setup, before, key, bucket, left, j);
        PairFollowedMore(search.setup, before, search.Past(), key, bucket, left, j);
      }
    }
    LogUptoNextLeft(search.log, key, bucket, left);
  }

  /** One pair of a bucket: counted, and followed unless the two are too close. */
  method FollowPair(search: RawMatchSearch, ghost key: Key, bucket: seq<Occurrence>, left: nat, right: nat, window: nat)
    returns (exceeded: bool, limit: Limit)
    requires search.Valid() && search.Within() && IsBucket(search.setup, key, bucket) && left < right < |bucket|
    requires window == search.setup.window && LogUpto(search.log, key, bucket, left, right)
    modifies search, search.budget
    ensures search.Valid() && Continues(old(search.Past()), search.Past())
    ensures !exceeded ==> PairFollowed(search.setup, search.Past(), key, bucket, left, right)
    ensures !exceeded ==> LogUpto(search.log, key, bucket, left, right + 1)
    ensures if exceeded then search.Hit(limit) else search.Within()
  {
    hide Followed, IsBucket, Seeded, Reached, TracksFound, AllReportable, Orders.NoRepeats, AllLocated;
    hide SoundLog, Originated, Warranted, LogUpto, IsVisit, VisitLess, FilePairs, SpansSeen, AllGrown;
    PairInBucket(search.setup, key, bucket, left, right);
    ghost var v := Visit(key, bucket[left], bucket[right]);
    var accepted := Visited(search, key, bucket, left, right, window);
    exceeded, limit := false, RawMatches;
    match accepted {
      case Exceeded(which) =>
        return true, which;
      case TooClose =>
        CloseIsFollowed(search.setup, search.found, bucket[left], bucket[right]);
      case Accepted =>
        exceeded, limit := search.FollowSeed(bucket[left], bucket[right], window, v);
    }
  }

  lemma CloseIsFollowed(s: Setup, found: seq<Span>, o: Occurrence, u: Occurrence)
    requires ValidSetup(s) && o.file < |s.files| && o.file == u.file && u.position - o.position < s.window
    ensures Followed(s, found, o, u)
  {
  }

  method FollowBucket(search: RawMatchSearch, ghost key: Key, bucket: seq<Occurrence>, window: nat)
    returns (exceeded: bool, limit: Limit)
    requires search.Valid() && search.Within() && IsBucket(search.setup, key, bucket) && window == search.setup.window
    requires LogUpto(search.log, key, bucket, 0, 0)
    modifies search, search.budget
    ensures search.Valid() && Continues(old(search.Past()), search.Past())
    ensures !exceeded ==> BucketFollowed(search.setup, search.Past(), key, bucket, |bucket|)
    ensures !exceeded ==> LogUpto(search.log, key, bucket, |bucket|, 0)
    ensures if exceeded then search.Hit(limit) else search.Within()
  {
    hide PairFollowed, IsBucket, Reached, TracksFound, AllReportable, Orders.NoRepeats, AllLocated;
    hide SoundLog, Originated, Warranted, LogUpto, FilePairs, SpansSeen, AllGrown;
    exceeded, limit := false, RawMatches;
    for left := 0 to |bucket|
      invariant search.Valid() && search.Within() && Continues(old(search.Past()), search.Past()) && !exceeded
      invariant LogUpto(search.log, key, bucket, left, 0)
      invariant BucketFollowed(search.setup, search.Past(), key, bucket, left)
    {
      exceeded, limit := FollowFrom(search, key, bucket, left, window);
      if exceeded {
        return;
      }
    }
  }

  method FollowAll(search: RawMatchSearch, m: WindowMap, window: nat) returns (exceeded: bool, limit: Limit)
    requires search.Valid() && search.Within() && window == search.setup.window && search.log == Log([], [], [])
    requires IndexedUpTo(search.setup, m, |search.setup.files|, 0)
    modifies search, search.budget
    ensures search.Valid() && Continues(old(search.Past()), search.Past())
    ensures !exceeded ==> AllFollowed(search.setup, search.Past(), m)
    ensures if exceeded then search.Hit(limit) else search.Within()
  {
    hide BucketFollowed, IsBucket, IndexedUpTo, TracksFound, AllReportable, Orders.NoRepeats, AllLocated;
    hide SoundLog, Originated, Warranted, FilePairs, Upto, KeyLess, SpansSeen, AllGrown;
    KeyLessIsTotal();
    var keys := Orders.SortSet(KeyLess, m.Keys);
    hide Orders.StrictTotalOrder;
    exceeded, limit := false, RawMatches;
    for k := 0 to |keys|
      invariant search.Valid() && search.Within() && Continues(old(search.Past()), search.Past()) && !exceeded
      invariant k == 0 ==> search.log == Log([], [], [])
      invariant k > 0 ==> keys[k - 1] in m && LogUpto(search.log, keys[k - 1], m[keys[k - 1]], |m[keys[k - 1]]|, 0)
      invariant forall j | 0 <= j < k :: KeyFollowed(search.setup, search.Past(), m, keys[j])
    {
      assert keys[k] in Orders.Elements(keys);
      BucketOf(search.setup, m, keys[k]);
      if k > 0 {
        LogUptoNextKey(search.log, keys[k - 1], m[keys[k - 1]], keys[k], m[keys[k]]);
      } else {
        EmptyLogUpto(keys[k], m[keys[k]]);
      }
      ghost var before := search.Past();
      exceeded, limit := FollowBucket(search, keys[k], m[keys[k]], window);
      if exceeded {
        return;
      }
      forall j | 0 <= j < k
        ensures KeyFollowed(search.setup, search.Past(), m, keys[j])
      {
        BucketFollowedMore(search.setup, before, search.Past(), keys[j], m[keys[j]], |m[keys[j]]|);
      }
    }
    forall key | key in m
      ensures KeyFollowed(search.setup, search.Past(), m, key)
    {
      assert key in Orders.Elements(keys);
    }
  }

  ghost predicate KeyFollowed(s: Setup, h: History, m: WindowMap, key: Key)
    requires ValidSetup(s)
  {
    key in m && BucketFollowed(s, h, key, m[key], |m[key]|)
  }

  lemma EmptyLogUpto(key: Key, bucket: seq<Occurrence>)
    ensures LogUpto(Log([], [], []), key, bucket, 0, 0)
  {
  }

  lemma BucketOf(s: Setup, m: WindowMap, key: Key)
    requires ValidSetup(s) && IndexedUpTo(s, m, |s.files|, 0) && key in m
    ensures IsBucket(s, key, m[key])
  {
    hide Belongs;
    forall o | o in m[key]
      ensures Belongs(s, key, o)
    {
      assert Listed(m, key, o);
    }
  }

  // ---------------------------------------------------------------- completeness

  /** Every visit of the index has been followed and recorded. */
  lemma VisitFollowed(s: Setup, m: WindowMap, h: History, v: Visit)
    requires ValidSetup(s) && IndexedUpTo(s, m, |s.files|, 0) && AllFollowed(s, h, m) && IsVisit(s, v)
    ensures v.first.file < |s.files| && v.second.file < |s.files|
    ensures Followed(s, h.found, v.first, v.second) && Recorded(s, h, v)
  {
    SeedIsListed(s, m, v.key, v.first);
    SeedIsListed(s, m, v.key, v.second);
    hide Belongs, Followed, Recorded;
    var bucket := m[v.key];
    var i :| 0 <= i < |bucket| && bucket[i] == v.first;
    var j :| 0 <= j < |bucket| && bucket[j] == v.second;
    assert i < j;
    assert BucketFollowed(s, h, v.key, bucket, |bucket|);
    assert PairFollowed(s, h, v.key, bucket, i, j);
  }

  /** Seeds with equal lines sit in one bucket, so the search has followed them. */
  lemma EqualSeedsFollowed(s: Setup, m: WindowMap, h: History, o: Occurrence, u: Occurrence)
    requires ValidSetup(s) && IndexedUpTo(s, m, |s.files|, 0) && AllFollowed(s, h, m)
    requires o.file < |s.files| && u.file < |s.files| && Before(o, u.file, u.position)
    requires s.files[o.file].language == s.files[u.file].language
    requires Seeded(s.files[o.file], s.signal, o.position, s.window)
    requires Seeded(s.files[u.file], s.signal, u.position, s.window)
    requires EqualRuns(s.files[o.file], o.position, s.files[u.file], u.position, s.window)
    ensures Followed(s, h.found, o, u)
  {
    var a, b := s.files[o.file], s.files[u.file];
    assert o.position + s.window <= |a.indexed| && u.position + s.window <= |b.indexed|;
    EqualWindowsShareDigest(a, o.position, b, u.position, s.window, s.recordHash);
    var key := Key(a.language, WindowDigest(a, s.recordHash, o.position, s.window));
    assert Belongs(s, key, o) && Belongs(s, key, u);
    hide Seeded, Belongs, WindowDigest, EqualRuns, Followed, IndexedUpTo, AllFollowed;
    VisitFollowed(s, m, h, Visit(key, o, u));
  }

  /** Every reportable span across two files has been found. */
  lemma CrossFileComplete(s: Setup, m: WindowMap, h: History, span: Span)
    requires ValidSetup(s) && IndexedUpTo(s, m, |s.files|, 0) && AllReportable(s, h.found) && AllFollowed(s, h, m)
    requires Reportable(s.files, s.signal, s.window, span) && span.first != span.second
    ensures span in h.found
  {
    hide IndexedUpTo, AllFollowed, Seeded, EqualRuns, HoldsSignal, OneRegion, GrowsBack, GrowsForward;
    var p, q := RunHoldsSeed(s.files, s.signal, s.window, span);
    var o, u := Occurrence(span.first, p), Occurrence(span.second, q);
    EqualSeedsFollowed(s, m, h, o, u);
    var al := Alignment(span.first, span.second, q as int - p as int);
    assert Reached(h.found, al, p);
    var i :| 0 <= i < |h.found| && Includes(h.found[i], al, p);
    MaximalRunUnique(s.files, h.found[i], span, p);
  }

  // --------------------------------------------------------------------- driver

  datatype Outcome =
    | InvalidWindowSize
    | InvalidRegions
    | LimitExceeded(limit: Limit)
    | Matches(matches: seq<MatchPair>)

  /** The complete answer.

    The matches returned name the lines of the spans reported. Every span reported is reportable, none
    twice, and across files none is missing; in one file every pair of equal seeds is reached. Each span was
    grown from a pair of seeds no earlier span reached, as far back as it goes, and the pairs come in the
    order of the index. */
  ghost predicate Answers(s: Setup, found: seq<Span>, origins: seq<Visit>, matches: seq<MatchPair>)
    requires ValidSetup(s)
  {
    && AllReportable(s, found) && Orders.NoRepeats(found) && AllTold(s.files, found, matches)
    && (forall span: Span | span.first != span.second && Reportable(s.files, s.signal, s.window, span) :: span in found)
    && (forall f: nat, p: nat, q: nat | FileSeeds(s, f, p, q) :: Reached(found, Alignment(f, f, q - p), p))
    && Originated(found, origins) && SoundVisits(s, origins) && AllGrown(s, found, origins)
  }

  /** Two seeds of one file with equal lines, far enough apart. */
  ghost predicate FileSeeds(s: Setup, f: nat, p: nat, q: nat)
    requires ValidSetup(s)
  {
    && f < |s.files| && p + s.window <= q
    && Seeded(s.files[f], s.signal, p, s.window) && Seeded(s.files[f], s.signal, q, s.window)
    && EqualRuns(s.files[f], p, s.files[f], q, s.window)
  }

  /** The work behind an answer: every pair of seeds of the index was counted, once; the lines compared are
    those of counted pairs, and include the first lines of all pairs that are not too close, and all lines
    of the spans reported. */
  ghost predicate Exhausted(s: Setup, h: History)
    requires ValidSetup(s)
  {
    && SoundLog(s, h.log) && Warranted(h.log, h.compared) && SpansSeen(h.compared, h.found)
    && forall v | IsVisit(s, v) :: Recorded(s, h, v)
  }

  lemma SearchAnswers(s: Setup, m: WindowMap, h: History, matches: seq<MatchPair>)
    requires ValidSetup(s) && IndexedUpTo(s, m, |s.files|, 0)
    requires AllReportable(s, h.found) && Orders.NoRepeats(h.found) && AllLocated(s, h.found, matches)
    requires Originated(h.found, h.log.origins) && SoundLog(s, h.log) && AllGrown(s, h.found, h.log.origins)
    requires Warranted(h.log, h.compared) && SpansSeen(h.compared, h.found)
    requires AllFollowed(s, h, m)
    ensures Answers(s, h.found, h.log.origins, matches) && Exhausted(s, h)
  {
    SoundOrigins(s, h.log);
    LocatedTold(s, h.found, matches);
    hide IndexedUpTo, AllFollowed, AllReportable, Orders.NoRepeats, AllLocated, AllTold, Reportable, Seeded, EqualRuns;
    hide Reached, Originated, SoundVisits, SoundLog, AllGrown, Warranted, SpansSeen, IsVisit, Recorded;
    forall span: Span | span.first != span.second && Reportable(s.files, s.signal, s.window, span)
      ensures span in h.found
    {
      CrossFileComplete(s, m, h, span);
    }
    forall f: nat, p: nat, q: nat | FileSeeds(s, f, p, q)
      ensures Reached(h.found, Alignment(f, f, q - p), p)
    {
      EqualSeedsFollowed(s, m, h, Occurrence(f, p), Occurrence(f, q));
    }
    forall v | IsVisit(s, v)
      ensures Recorded(s, h, v)
    {
      VisitFollowed(s, m, h, v);
    }
  }

  /** What the search knows when it stops at `limit`.

    The pairs counted are different pairs of the index, every comparison was made for one of them, and
    the spans are reportable and different. */
  ghost predicate Stopped(s: Setup, limit: Limit, limits: Limits, found: seq<Span>, log: Log, compared: seq<Comparison>)
    requires ValidSetup(s)
  {
    && Exceeds(limit, limits, found, log, compared)
    && SoundLog(s, log) && Warranted(log, compared)
    && AllReportable(s, found) && Orders.NoRepeats(found)
  }

  /** Finds the maximal duplicate spans, whatever the record hash and the signal test. */
  method FindRawMatches(files: seq<FileData>, windowSize: int, limits: Limits,
                        recordHash: string -> int, signal: string -> bool)
    returns (outcome: Outcome, ghost found: seq<Span>, ghost log: Log, ghost compared: seq<Comparison>,
             ghost crowdKey: Key, ghost crowd: seq<Occurrence>)
    requires forall f | 0 <= f < |files| :: |files[f].indexed| <= MAX_POSITION
    ensures outcome.InvalidWindowSize? <==> windowSize <= 0
    ensures outcome.InvalidRegions? <==> windowSize > 0 && !ValidFiles(files)
    ensures outcome.Matches? ==>
      && Answers(Setup(files, windowSize, recordHash, signal), found, log.origins, outcome.matches)
      && Exhausted(Setup(files, windowSize, recordHash, signal), History(found, log, compared))
      && NoneExceeded(limits, found, log, compared)
      && NoneCrowded(Setup(files, windowSize, recordHash, signal), limits.windowOccurrences)
    ensures outcome.LimitExceeded? ==>
      if outcome.limit == WindowOccurrences
      then Crowded(Setup(files, windowSize, recordHash, signal), crowdKey, crowd, limits.windowOccurrences)
      else Stopped(Setup(files, windowSize, recordHash, signal), outcome.limit, limits, found, log, compared)
  {
    found, log, compared, crowdKey, crowd := [], Log([], [], []), [], Key("", 0), [];
    if windowSize <= 0 {
      return InvalidWindowSize, found, log, compared, crowdKey, crowd;
    }
    for f := 0 to |files|
      invariant forall g | 0 <= g < f :: |files[g].regions| == |files[g].indexed|
    {
      if |files[f].regions| != |files[f].indexed| {
        return InvalidRegions, found, log, compared, crowdKey, crowd;
      }
    }
    var setup := Setup(files, windowSize, recordHash, signal);
    hide IndexedUpTo, AllFollowed, AllReportable, Orders.NoRepeats, AllLocated, TracksFound, Crowded, Answers;
    hide SoundLog, Originated, Warranted, FilePairs, SpansSeen, AllGrown, Exhausted, NoneCrowded;
    var ok, windowMap;
    ok, windowMap, crowdKey, crowd := BuildWindowMap(setup, limits.windowOccurrences);
    if !ok {
      return LimitExceeded(WindowOccurrences), found, log, compared, crowdKey, crowd;
    }
    var budget := new ComparisonBudget(files, limits);
    var search := new RawMatchSearch(budget, setup);
    var exceeded, limit := FollowAll(search, windowMap, windowSize);
    found, log, compared := search.found, search.log, budget.compared;
    if exceeded {
      return LimitExceeded(limit), found, log, compared, crowdKey, crowd;
    }
    SearchAnswers(setup, windowMap, search.Past(), search.rawMatches);
    return Matches(search.rawMatches), found, log, compared, crowdKey, crowd;
  }

  lemma SoundOrigins(s: Setup, log: Log)
    requires ValidSetup(s) && SoundLog(s, log)
    ensures SoundVisits(s, log.origins)
  {
  }
}
