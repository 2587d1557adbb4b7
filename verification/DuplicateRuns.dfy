/** Aligned runs of equal normalized lines: what the duplicate search is to find. */
module DuplicateRuns {
  import opened CoveredIntervals
  import DuplicateSignal
  import RollingHash

  /** One indexed record: a physical line number and the normalized line. */
  datatype Record = Record(line: nat, normalized: string)

  datatype Region = Region(scope: int, segment: int)

  datatype FileData = FileData(path: string, language: string, indexed: seq<Record>, regions: seq<Region>)

  /** `size` records of file `first` from `start` on, against those of file `second` from `other` on. */
  datatype Span = Span(first: nat, start: nat, second: nat, other: nat, size: nat)

  /** Two files and the distance between aligned positions. */
  datatype Alignment = Alignment(first: nat, second: nat, distance: int)

  /** One region per record; positions fit the sentinel of the interval search. */
  ghost predicate ValidFiles(files: seq<FileData>) {
    forall f | 0 <= f < |files| ::
      |files[f].regions| == |files[f].indexed| && |files[f].indexed| <= MAX_POSITION
  }

  predicate SameLine(a: FileData, p: nat, b: FileData, q: nat) {
    p < |a.indexed| && q < |b.indexed| && a.indexed[p].normalized == b.indexed[q].normalized
  }

  function Flags(file: FileData, signal: string -> bool): (flags: seq<bool>)
    ensures |flags| == |file.indexed|
  {
    seq(|file.indexed|, i requires 0 <= i < |file.indexed| => signal(file.indexed[i].normalized))
  }

  predicate HasSignal(file: FileData, signal: string -> bool, p: nat, w: nat) {
    DuplicateSignal.WindowHasSignal(Flags(file, signal), p, w)
  }

  /** All of `[p, p + n)` lies in the region of `p`. */
  predicate OneRegion(file: FileData, p: nat, n: nat) {
    p + n <= |file.regions| && forall i | p <= i < p + n :: file.regions[i] == file.regions[p]
  }

  predicate SameOffset(a: FileData, p: nat, b: FileData, q: nat, i: nat) {
    SameLine(a, p + i, b, q + i)
  }

  predicate EqualRuns(a: FileData, p: nat, b: FileData, q: nat, n: nat) {
    forall i: nat | i < n :: SameOffset(a, p, b, q, i)
  }

  /** A window that enters the seed index. */
  predicate Seeded(file: FileData, signal: string -> bool, p: nat, w: nat) {
    HasSignal(file, signal, p, w) && OneRegion(file, p, w)
  }

  /** Equal lines throughout, in one region on each side. */
  ghost predicate Agrees(files: seq<FileData>, s: Span)
    requires ValidFiles(files)
  {
    && s.first < |files| && s.second < |files| && s.size > 0
    && s.start + s.size <= |files[s.first].indexed| && s.other + s.size <= |files[s.second].indexed|
    && EqualRuns(files[s.first], s.start, files[s.second], s.other, s.size)
    && OneRegion(files[s.first], s.start, s.size) && OneRegion(files[s.second], s.other, s.size)
  }

  /** The lines before the run also agree, in the regions of the run. */
  ghost predicate GrowsBack(files: seq<FileData>, s: Span)
    requires ValidFiles(files) && Agrees(files, s)
  {
    && s.start > 0 && s.other > 0
    && SameLine(files[s.first], s.start - 1, files[s.second], s.other - 1)
    && files[s.first].regions[s.start - 1] == files[s.first].regions[s.start]
    && files[s.second].regions[s.other - 1] == files[s.second].regions[s.other]
  }

  ghost predicate GrowsForward(files: seq<FileData>, s: Span)
    requires ValidFiles(files) && Agrees(files, s)
  {
    && SameLine(files[s.first], s.start + s.size, files[s.second], s.other + s.size)
    && files[s.first].regions[s.start + s.size] == files[s.first].regions[s.start]
    && files[s.second].regions[s.other + s.size] == files[s.second].regions[s.other]
  }

  ghost predicate Maximal(files: seq<FileData>, s: Span)
    requires ValidFiles(files) && Agrees(files, s)
  {
    !GrowsBack(files, s) && !GrowsForward(files, s)
  }

  ghost predicate HoldsSignal(files: seq<FileData>, signal: string -> bool, w: nat, s: Span)
    requires s.first < |files|
  {
    exists p: nat :: s.start <= p && p + w <= s.start + s.size && HasSignal(files[s.first], signal, p, w)
  }

  /** What every reported span satisfies.

    Two spans of one file do not overlap; such a span may stop where the copies meet
    (`size` equals their distance) instead of being maximal. */
  ghost predicate Reportable(files: seq<FileData>, signal: string -> bool, w: nat, s: Span)
    requires ValidFiles(files)
  {
    && Agrees(files, s) && s.size >= w && s.first <= s.second
    && files[s.first].language == files[s.second].language
    && HoldsSignal(files, signal, w, s)
    && (s.first == s.second ==> s.start + s.size <= s.other)
    && (Maximal(files, s) || (s.first == s.second && s.start + s.size == s.other))
  }

  function AlignmentOf(s: Span): Alignment {
    Alignment(s.first, s.second, s.other - s.start)
  }

  predicate Includes(s: Span, al: Alignment, p: nat) {
    AlignmentOf(s) == al && s.start <= p < s.start + s.size
  }

  /** Some span found on the alignment includes `p`. */
  ghost predicate Reached(found: seq<Span>, al: Alignment, p: nat) {
    exists i :: 0 <= i < |found| && Includes(found[i], al, p)
  }

  // --------------------------------------------------------------------- lemmas

  /** A run that starts inside another one on its alignment can grow back. */
  lemma LaterStartGrows(files: seq<FileData>, s: Span, t: Span, p: nat)
    requires ValidFiles(files) && Agrees(files, s) && Agrees(files, t)
    requires AlignmentOf(s) == AlignmentOf(t) && Includes(s, AlignmentOf(s), p) && Includes(t, AlignmentOf(t), p)
    ensures s.start < t.start ==> GrowsBack(files, t)
  {
    if s.start < t.start {
      var i := t.start - 1 - s.start;
      assert SameOffset(files[s.first], s.start, files[s.second], s.other, i);
      assert t.start - 1 == s.start + i && t.other - 1 == s.other + i;
    }
  }

  lemma EarlierEndGrows(files: seq<FileData>, s: Span, t: Span, p: nat)
    requires ValidFiles(files) && Agrees(files, s) && Agrees(files, t)
    requires AlignmentOf(s) == AlignmentOf(t) && Includes(s, AlignmentOf(s), p) && Includes(t, AlignmentOf(t), p)
    ensures t.start + t.size < s.start + s.size ==> GrowsForward(files, t)
  {
    if t.start + t.size < s.start + s.size {
      var i := t.start + t.size - s.start;
      assert SameOffset(files[s.first], s.start, files[s.second], s.other, i);
      assert t.start + t.size == s.start + i && t.other + t.size == s.other + i;
    }
  }

  /** A maximal run contains every run on its alignment that shares a position with it. */
  lemma MaximalRunContains(files: seq<FileData>, s: Span, t: Span, p: nat)
    requires ValidFiles(files) && Agrees(files, s) && Agrees(files, t) && Maximal(files, s)
    requires AlignmentOf(s) == AlignmentOf(t) && Includes(s, AlignmentOf(s), p) && Includes(t, AlignmentOf(t), p)
    ensures s.start <= t.start && t.start + t.size <= s.start + s.size
  {
    LaterStartGrows(files, t, s, p);
    EarlierEndGrows(files, t, s, p);
  }

  /** Maximal runs on one alignment that share a position are the same run. */
  lemma MaximalRunUnique(files: seq<FileData>, s: Span, t: Span, p: nat)
    requires ValidFiles(files) && Agrees(files, s) && Agrees(files, t)
    requires Maximal(files, s) && Maximal(files, t)
    requires AlignmentOf(s) == AlignmentOf(t) && Includes(s, AlignmentOf(s), p) && Includes(t, AlignmentOf(t), p)
    ensures s == t
  {
    hide Agrees, Maximal;
    MaximalRunContains(files, s, t, p);
    MaximalRunContains(files, t, s, p);
  }

  /** Windows of equal lines carry the same signal. */
  lemma EqualSignal(a: FileData, p: nat, b: FileData, q: nat, w: nat, signal: string -> bool)
    requires EqualRuns(a, p, b, q, w) && HasSignal(a, signal, p, w)
    ensures HasSignal(b, signal, q, w)
  {
    assert SameOffset(a, p, b, q, w - 1);
    var x, y := Flags(a, signal)[p..p + w], Flags(b, signal)[q..q + w];
    forall i | 0 <= i < w
      ensures x[i] == y[i]
    {
      assert SameOffset(a, p, b, q, i);
    }
    assert x == y;
  }

  /** The signal window inside a reportable run is a seed on both sides, with equal lines. */
  lemma RunHoldsSeed(files: seq<FileData>, signal: string -> bool, w: nat, s: Span) returns (p: nat, q: nat)
    requires ValidFiles(files) && Reportable(files, signal, w, s) && w > 0
    ensures p + w <= |files[s.first].indexed| && q + w <= |files[s.second].indexed|
    ensures Seeded(files[s.first], signal, p, w) && Seeded(files[s.second], signal, q, w)
    ensures EqualRuns(files[s.first], p, files[s.second], q, w)
    ensures Includes(s, Alignment(s.first, s.second, q - p), p)
  {
    p :| s.start <= p && p + w <= s.start + s.size && HasSignal(files[s.first], signal, p, w);
    q := p + s.other - s.start;
    forall i: nat | i < w
      ensures SameOffset(files[s.first], p, files[s.second], q, i)
    {
      assert SameOffset(files[s.first], s.start, files[s.second], s.other, p - s.start + i);
    }
    EqualSignal(files[s.first], p, files[s.second], q, w, signal);
  }

  /** The record hashes of a window. */
  function WindowRecords(file: FileData, recordHash: string -> int, p: nat, w: nat): (r: seq<int>)
    requires p + w <= |file.indexed|
    ensures |r| == w
  {
    seq(w, i requires 0 <= i < w => recordHash(file.indexed[p + i].normalized))
  }

  function WindowDigest(file: FileData, recordHash: string -> int, p: nat, w: nat): nat
    requires p + w <= |file.indexed|
  {
    RollingHash.Digest(WindowRecords(file, recordHash, p, w))
  }

  /** Whatever the record hash, windows of equal lines share a digest. */
  lemma EqualWindowsShareDigest(a: FileData, p: nat, b: FileData, q: nat, w: nat, recordHash: string -> int)
    requires p + w <= |a.indexed| && q + w <= |b.indexed| && EqualRuns(a, p, b, q, w)
    ensures WindowDigest(a, recordHash, p, w) == WindowDigest(b, recordHash, q, w)
  {
    forall i | 0 <= i < w
      ensures WindowRecords(a, recordHash, p, w)[i] == WindowRecords(b, recordHash, q, w)[i]
    {
      assert SameOffset(a, p, b, q, i);
    }
    assert WindowRecords(a, recordHash, p, w) == WindowRecords(b, recordHash, q, w);
  }
}
