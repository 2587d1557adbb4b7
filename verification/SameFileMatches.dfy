/** Duplicates inside one file: which maximal runs are reported whole, and which only in pieces. */
module SameFileMatches {
  import opened DuplicateRuns
  import opened SeedLog
  import opened SeedMatching
  import opened WindowIndex
  import DuplicateSignal
  import Orders

  /** A maximal run of one file, long enough, far enough apart and with signal, that the search is after. */
  ghost predicate Wanted(s: Setup, run: Span)
    requires ValidSetup(s)
  {
    && Agrees(s.files, run) && Maximal(s.files, run) && run.first == run.second
    && run.size >= s.window && run.start + s.window <= run.other
    && HoldsSignal(s.files, s.signal, s.window, run)
  }

  /** The signal window of a wanted run is a pair of equal seeds, which the search has reached. */
  lemma WantedIsReached(s: Setup, found: seq<Span>, origins: seq<Visit>, matches: seq<MatchPair>, run: Span)
    returns (i: nat, p: nat)
    requires ValidSetup(s) && Answers(s, found, origins, matches) && Wanted(s, run)
    ensures i < |found| && Reportable(s.files, s.signal, s.window, found[i])
    ensures AlignmentOf(found[i]) == AlignmentOf(run)
    ensures Includes(run, AlignmentOf(run), p) && Includes(found[i], AlignmentOf(run), p)
  {
    hide Answers, Maximal;
    var q;
    p, q := SeedsOfRun(s, run);
    AnswersGive(s, found, origins, matches, run.first, p, q);
    i :| 0 <= i < |found| && Includes(found[i], Alignment(run.first, run.first, q - p), p);
  }

  lemma SeedsOfRun(s: Setup, run: Span) returns (p: nat, q: nat)
    requires ValidSetup(s) && Wanted(s, run)
    ensures q - p == run.other - run.start && Includes(run, AlignmentOf(run), p)
    ensures FileSeeds(s, run.first, p, q)
  {
    p :| run.start <= p && p + s.window <= run.start + run.size && HasSignal(s.files[run.first], s.signal, p, s.window);
    q := p + run.other - run.start;
    var file := s.files[run.first];
    forall i: nat | i < s.window
      ensures SameOffset(file, p, file, q, i)
    {
      assert SameOffset(file, run.start, file, run.other, p - run.start + i);
    }
    EqualSignal(file, p, file, q, s.window, s.signal);
  }

  lemma AnswersGive(s: Setup, found: seq<Span>, origins: seq<Visit>, matches: seq<MatchPair>, f: nat, p: nat, q: nat)
    requires ValidSetup(s) && Answers(s, found, origins, matches) && FileSeeds(s, f, p, q)
    ensures Reached(found, Alignment(f, f, q - p), p) && AllReportable(s, found)
  {
    hide FileSeeds, Reached;
  }

  /** A maximal run of one file is reported exactly when it is no longer than its distance; a longer one
    comes in pieces, clipped where the copies would meet. */
  lemma ReportedIffApart(s: Setup, found: seq<Span>, origins: seq<Visit>, matches: seq<MatchPair>, run: Span)
    requires ValidSetup(s) && Answers(s, found, origins, matches) && Wanted(s, run)
    ensures run in found <==> run.start + run.size <= run.other
    ensures run !in found ==> exists piece <- found ::
      AlignmentOf(piece) == AlignmentOf(run) && MeetsItself(piece)
      && run.start <= piece.start && piece.start + piece.size <= run.start + run.size
  {
    var i, p := WantedIsReached(s, found, origins, matches, run);
    hide Agrees, GrowsBack, GrowsForward, HoldsSignal;
    MaximalRunContains(s.files, run, found[i], p);
    if Maximal(s.files, found[i]) {
      MaximalRunUnique(s.files, run, found[i], p);
    }
    if run in found {
      assert Reportable(s.files, s.signal, s.window, run);
    }
  }

  /** Every aligned run of equal lines lies in a maximal one. */
  lemma {:induction false} RunThrough(files: seq<FileData>, t: Span) returns (run: Span)
    requires ValidFiles(files) && Agrees(files, t)
    ensures Agrees(files, run) && Maximal(files, run) && AlignmentOf(run) == AlignmentOf(t)
    ensures run.start <= t.start && t.start + t.size <= run.start + run.size
    decreases |files[t.first].indexed| - t.size
  {
    if GrowsBack(files, t) {
      GrowBack(files, t);
      run := RunThrough(files, GrownBack(t));
    } else if GrowsForward(files, t) {
      GrowForward(files, t);
      run := RunThrough(files, t.(size := t.size + 1));
    } else {
      run := t;
    }
  }

  /** A run of one file that is too long to be reported whole. */
  ghost predicate TooLong(s: Setup, run: Span)
    requires ValidSetup(s)
  {
    && Agrees(s.files, run) && Maximal(s.files, run) && run.first == run.second
    && run.start < run.other < run.start + run.size
  }

  /** Where the piece grown from the seed at `p` starts: at the start of the run, unless the copies meet
    before. */
  function PieceStart(run: Span, window: nat, p: nat): int {
    if p + window <= run.other then run.start else run.start + p + window - run.other
  }

  /** A piece of a long run is as long as the distance of the copies, and its origin says where it lies. */
  lemma PieceLies(s: Setup, found: seq<Span>, origins: seq<Visit>, matches: seq<MatchPair>, run: Span, i: nat, x: nat)
    requires ValidSetup(s) && Answers(s, found, origins, matches) && TooLong(s, run) && i < |found|
    requires Includes(found[i], AlignmentOf(run), x) && Includes(run, AlignmentOf(run), x)
    ensures i < |origins| && VisitAlignment(origins[i]) == AlignmentOf(run)
    ensures found[i].size == run.other - run.start
    ensures found[i].start == PieceStart(run, s.window, origins[i].first.position)
    ensures Includes(run, AlignmentOf(run), origins[i].first.position)
  {
    var piece := found[i];
    PieceFacts(s, found, origins, matches, i);
    hide Answers, Agrees, GrowsBack, GrowsForward, HoldsSignal;
    MaximalRunContains(s.files, run, piece, x);
    LaterStartGrows(s.files, run, piece, x);
    if Maximal(s.files, piece) {
      MaximalRunUnique(s.files, run, piece, x);
    }
  }

  lemma PieceFacts(s: Setup, found: seq<Span>, origins: seq<Visit>, matches: seq<MatchPair>, i: nat)
    requires ValidSetup(s) && Answers(s, found, origins, matches) && i < |found|
    ensures i < |origins| && Reportable(s.files, s.signal, s.window, found[i])
    ensures Includes(found[i], VisitAlignment(origins[i]), origins[i].first.position)
    ensures GrownFrom(s.files, s.window, origins[i].first.position, found[i])
  {
    hide Reportable, GrownFrom, SoundVisits, Includes, VisitAlignment;
    assert FromOrigin(found, origins, i);
  }

  ghost predicate CoveredWhole(found: seq<Span>, al: Alignment, p: nat, window: nat) {
    exists i :: 0 <= i < |found| && Includes(found[i], al, p) && p + window <= found[i].start + found[i].size
  }

  /** Some span was grown from a seed in the run whose piece holds the `window` lines at `p`. */
  ghost predicate PieceHolds(origins: seq<Visit>, run: Span, window: nat, p: nat) {
    exists v :: v in origins && Includes(run, VisitAlignment(v), v.first.position)
      && PieceStart(run, window, v.first.position) <= p
      && p + window <= PieceStart(run, window, v.first.position) + run.other - run.start
  }

  /** What becomes of a pair of equal seeds of one file.

    The maximal run through it covers the pair whole. If the run is no longer than the distance of the
    seeds, it is reported. Otherwise only pieces of it are, each placed by its origin, and the pair is
    covered whole exactly when the piece of some origin holds it; its first line is always covered. */
  lemma SeedOutcome(s: Setup, found: seq<Span>, origins: seq<Visit>, matches: seq<MatchPair>, f: nat, p: nat, q: nat)
    returns (run: Span)
    requires ValidSetup(s) && Answers(s, found, origins, matches) && FileSeeds(s, f, p, q)
    ensures Agrees(s.files, run) && Maximal(s.files, run) && AlignmentOf(run) == Alignment(f, f, q - p)
    ensures run.start <= p && p + s.window <= run.start + run.size
    ensures Reached(found, Alignment(f, f, q - p), p)
    ensures run.size <= q - p ==> run in found && CoveredWhole(found, Alignment(f, f, q - p), p, s.window)
    ensures run.size > q - p ==>
      && run !in found
      && (CoveredWhole(found, Alignment(f, f, q - p), p, s.window) <==> PieceHolds(origins, run, s.window, p))
  {
    hide Answers;
    var seed := Span(f, p, f, q, s.window);
    assert Agrees(s.files, seed);
    run := RunThrough(s.files, seed);
    hide FileSeeds, Agrees, GrowsBack, GrowsForward;
    AnswersGive(s, found, origins, matches, f, p, q);
    ReportedIffApart(s, found, origins, matches, run);
    if run.size <= q - p {
      var i :| 0 <= i < |found| && found[i] == run;
      assert Includes(found[i], Alignment(f, f, q - p), p);
    } else {
      CoveredByPiece(s, found, origins, matches, run, p);
    }
  }

  lemma CoveredByPiece(s: Setup, found: seq<Span>, origins: seq<Visit>, matches: seq<MatchPair>, run: Span, p: nat)
    requires ValidSetup(s) && Answers(s, found, origins, matches) && TooLong(s, run)
    requires Includes(run, AlignmentOf(run), p)
    ensures CoveredWhole(found, AlignmentOf(run), p, s.window) <==> PieceHolds(origins, run, s.window, p)
  {
    hide Answers, TooLong;
    if CoveredWhole(found, AlignmentOf(run), p, s.window) {
      var i :| 0 <= i < |found| && Includes(found[i], AlignmentOf(run), p)
        && p + s.window <= found[i].start + found[i].size;
      PieceLies(s, found, origins, matches, run, i, p);
      assert origins[i] in origins;
    }
    if PieceHolds(origins, run, s.window, p) {
      var v :| v in origins && Includes(run, VisitAlignment(v), v.first.position)
        && PieceStart(run, s.window, v.first.position) <= p
        && p + s.window <= PieceStart(run, s.window, v.first.position) + run.other - run.start;
      var i :| 0 <= i < |origins| && origins[i] == v;
      SpanOfOrigin(s, found, origins, matches, i);
      PieceLies(s, found, origins, matches, run, i, v.first.position);
      assert Includes(found[i], AlignmentOf(run), p);
    }
  }

  lemma SpanOfOrigin(s: Setup, found: seq<Span>, origins: seq<Visit>, matches: seq<MatchPair>, i: nat)
    requires ValidSetup(s) && Answers(s, found, origins, matches) && i < |origins|
    ensures i < |found| && Includes(found[i], VisitAlignment(origins[i]), origins[i].first.position)
  {
    assert |origins| == |found|;
    PieceFacts(s, found, origins, matches, i);
  }

  // -------------------------------------------------------------- a seed covered in part

  function Numbered(line: nat): Record {
    Record(line, "x = 1;")
  }

  const REGION := Region(0, 0)

  const FIVE_LINES :=
    FileData("a.c", "c", [Numbered(1), Numbered(2), Numbered(3), Numbered(4), Numbered(5)],
             [REGION, REGION, REGION, REGION, REGION])

  function FiveLines(recordHash: string -> int): (s: Setup)
    ensures ValidSetup(s)
  {
    Setup([FIVE_LINES], 2, recordHash, _ => true)
  }

  lemma FiveSeeds(recordHash: string -> int, p: nat, q: nat)
    requires p + 2 <= q <= 3
    ensures FileSeeds(FiveLines(recordHash), 0, p, q)
  {
    var s := FiveLines(recordHash);
    forall k: nat | k + 2 <= 5
      ensures HasSignal(FIVE_LINES, s.signal, k, 2)
    {
      assert Flags(FIVE_LINES, s.signal)[k..k + 2] == [true, true];
      assert DuplicateSignal.Count([true, true]) == 2;
    }
  }

  /** What can be reported at distance two: lines 0 and 1, or lines 1 and 2. */
  lemma FivePieces(recordHash: string -> int, piece: Span)
    requires var s := FiveLines(recordHash); Reportable(s.files, s.signal, s.window, piece)
    requires AlignmentOf(piece) == Alignment(0, 0, 2)
    ensures piece.size == 2 && piece.start <= 1
  {
  }

  /** Span `i` at distance two was grown from the seeds at `a` and `a + 2`. */
  ghost predicate GrownAt(found: seq<Span>, origins: seq<Visit>, i: nat, a: nat)
    requires i < |found| && i < |origins|
  {
    && a <= 1 && Includes(found[i], Alignment(0, 0, 2), a) && !Reached(found[..i], Alignment(0, 0, 2), a)
    && origins[i].first == Occurrence(0, a) && origins[i].second == Occurrence(0, a + 2)
  }

  /** A span at distance two was grown from the seed at 0 or from the one at 1; the two are under one key. */
  lemma FiveOrigins(recordHash: string -> int, found: seq<Span>, origins: seq<Visit>, i: nat)
    requires Originated(found, origins) && SoundVisits(FiveLines(recordHash), origins) && i < |found|
    requires AlignmentOf(found[i]) == Alignment(0, 0, 2)
    ensures |origins| == |found| && GrownAt(found, origins, i, origins[i].first.position)
    ensures origins[i].key == Key("c", WindowDigest(FIVE_LINES, recordHash, 0, 2))
  {
    var s, v := FiveLines(recordHash), origins[i];
    assert FromOrigin(found, origins, i);
    assert IsVisit(s, v);
    hide SoundVisits, Originated, Reached, WindowDigest;
    assert v.second.position + 2 <= 5;
    EqualWindowsShareDigest(FIVE_LINES, v.first.position, FIVE_LINES, 0, 2, recordHash);
  }

  lemma EarlierReaches(found: seq<Span>, j: nat, i: nat, al: Alignment, p: nat)
    requires j < i < |found| && Includes(found[j], al, p)
    ensures Reached(found[..i], al, p)
  {
    assert found[..i][j] == found[j];
  }

  lemma EarlierSeed(origins: seq<Visit>, i: nat, j: nat)
    requires Orders.Ascending(VisitLess, origins) && i < j < |origins|
    requires origins[i].key == origins[j].key && origins[i].first.file == origins[j].first.file
    ensures origins[i].first.position <= origins[j].first.position
  {
    InOrder(origins, i, j);
    hide VisitLess, Orders.Ascending;
    UnderOneKey(origins[i], origins[j]);
  }

  /** Once lines 0 and 1 are reported, lines 1 and 2 never are: not afterwards, since line 1 is reached,
    and not before, since their seed comes later in the index. */
  lemma OnlyFirstPiece(found: seq<Span>, origins: seq<Visit>, i: nat, j: nat, a: nat, b: nat)
    requires i < |origins| == |found| && j < |found| && GrownAt(found, origins, i, a) && GrownAt(found, origins, j, b)
    requires i < j ==> a <= b
    requires Includes(found[i], Alignment(0, 0, 2), 1) && Includes(found[j], Alignment(0, 0, 2), 1)
    ensures i != j ==> a == 0
  {
    hide Reached;
    if j < i {
      EarlierReaches(found, j, i, Alignment(0, 0, 2), 1);
    } else if i < j {
      EarlierReaches(found, i, j, Alignment(0, 0, 2), 1);
    }
  }

  /** Five equal lines in windows of two: the seeds at 1 and 3 are equal and far enough apart, but no span
    reported includes line 2 against line 4. */
  lemma PartlyCovered(recordHash: string -> int, found: seq<Span>, origins: seq<Visit>, matches: seq<MatchPair>)
    requires Answers(FiveLines(recordHash), found, origins, matches)
    ensures FileSeeds(FiveLines(recordHash), 0, 1, 3)
    ensures Reached(found, Alignment(0, 0, 2), 1) && !Reached(found, Alignment(0, 0, 2), 2)
  {
    var s, al := FiveLines(recordHash), Alignment(0, 0, 2);
    FiveSeeds(recordHash, 0, 2);
    FiveSeeds(recordHash, 1, 3);
    AnswersGive(s, found, origins, matches, 0, 0, 2);
    AnswersGive(s, found, origins, matches, 0, 1, 3);
    var j :| 0 <= j < |found| && Includes(found[j], al, 0);
    forall i | 0 <= i < |found|
      ensures !Includes(found[i], al, 2)
    {
      if AlignmentOf(found[i]) == al {
        PieceStarts(recordHash, found, origins, i, j);
      }
    }
  }

  lemma PieceStarts(recordHash: string -> int, found: seq<Span>, origins: seq<Visit>, i: nat, j: nat)
    requires Originated(found, origins) && SoundVisits(FiveLines(recordHash), origins) && i < |found| && j < |found|
    requires var s := FiveLines(recordHash);
      Reportable(s.files, s.signal, s.window, found[i]) && Reportable(s.files, s.signal, s.window, found[j])
    requires AlignmentOf(found[i]) == Alignment(0, 0, 2) && Includes(found[j], Alignment(0, 0, 2), 0)
    ensures found[i].start == 0 && found[i].size == 2
  {
    FivePieces(recordHash, found[i]);
    FivePieces(recordHash, found[j]);
    FiveOrigins(recordHash, found, origins, i);
    FiveOrigins(recordHash, found, origins, j);
    var a, b := origins[i].first.position, origins[j].first.position;
    if i < j {
      assert Orders.Ascending(VisitLess, origins);
      EarlierSeed(origins, i, j);
    }
    assert i < j ==> a <= b;
    hide Reportable, Reached, Originated, SoundVisits, FiveLines, GrownAt;
    OnlyFirstPiece(found, origins, i, j, a, b);
    StartsAt(found, origins, i, a);
  }

  lemma StartsAt(found: seq<Span>, origins: seq<Visit>, i: nat, a: nat)
    requires i < |found| && i < |origins| && GrownAt(found, origins, i, a)
    ensures a == 0 && found[i].start <= 1 ==> found[i].start == 0
  {
  }
}
