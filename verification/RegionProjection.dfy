/** Source regions of code lines: the narrowest enclosing scope, and the segment between barriers. */
module RegionProjection {
  import DuplicateRuns
  import opened Orders

  datatype Interval = Interval(start: int, end: int, scope: int)

  /** What the heap orders: narrow scopes first, then early ends, then small identifiers. */
  datatype Entry = Entry(width: int, end: int, scope: int)

  predicate TripleBefore(a: (int, int, int), b: (int, int, int)) {
    a.0 < b.0 || (a.0 == b.0 && (a.1 < b.1 || (a.1 == b.1 && a.2 < b.2)))
  }

  function StartKey(i: Interval): (int, int, int) {
    (i.start, i.end, i.scope)
  }

  function EntryKey(e: Entry): (int, int, int) {
    (e.width, e.end, e.scope)
  }

  function EntryOf(i: Interval): Entry {
    Entry(i.end - i.start, i.end, i.scope)
  }

  predicate Covers(i: Interval, line: int) {
    i.start <= line <= i.end
  }

  /** `i` encloses `line`, and no enclosing interval is narrower, ends earlier or has a smaller
    identifier. */
  ghost predicate Narrowest(intervals: seq<Interval>, line: int, i: Interval) {
    && i in intervals
    && Covers(i, line)
    && forall j | j in intervals && Covers(j, line) :: NoWider(i, j)
  }

  /** Narrower, or as narrow with an earlier end, or with the same end and no greater identifier. */
  predicate NoWider(i: Interval, j: Interval) {
    var width, other := i.end - i.start, j.end - j.start;
    width < other || (width == other && (i.end < j.end || (i.end == j.end && i.scope <= j.scope)))
  }

  lemma EntryOrder(i: Interval, j: Interval)
    ensures NoWider(i, j) <==> !TripleBefore(EntryKey(EntryOf(j)), EntryKey(EntryOf(i)))
  {
  }

  /** The scope of a line: that of its narrowest interval, or 0 outside all of them. */
  ghost predicate IsScope(intervals: seq<Interval>, line: int, scope: int) {
    || (exists i :: Narrowest(intervals, line, i) && scope == i.scope)
    || ((forall i | i in intervals :: !Covers(i, line)) && scope == 0)
  }

  /** The intervals decide the scope; their order does not. */
  lemma ScopeIsUnique(intervals: seq<Interval>, others: seq<Interval>, line: int, scope: int, other: int)
    requires forall i :: i in intervals <==> i in others
    requires IsScope(intervals, line, scope) && IsScope(others, line, other)
    ensures scope == other
  {
  }

  // -------------------------------------------------------------------- segments

  /** How many of the ascending barriers are at most `line` (bisection to the right). */
  function SegmentFor(line: int, barriers: seq<int>): (n: nat)
    ensures n <= |barriers|
    ensures forall k | 0 <= k < n :: barriers[k] <= line
    ensures n < |barriers| ==> line < barriers[n]
  {
    if barriers == [] || line < barriers[0] then 0 else 1 + SegmentFor(line, barriers[1..])
  }

  const INT_LESS: (int, int) -> bool := (a: int, b: int) => a < b

  lemma SegmentCounts(barriers: seq<int>, line: int, k: nat)
    requires Ascending(INT_LESS, barriers) && k < |barriers|
    ensures barriers[k] <= line <==> k < SegmentFor(line, barriers)
  {
  }

  /** Two lines share a segment exactly when no barrier lies in the half-open gap between them. */
  lemma SharedSegment(barriers: seq<int>, first: int, second: int)
    requires Ascending(INT_LESS, barriers) && first <= second
    ensures SegmentFor(first, barriers) == SegmentFor(second, barriers)
      <==> !exists b :: b in barriers && first < b <= second
  {
    var p, q := SegmentFor(first, barriers), SegmentFor(second, barriers);
    if p < |barriers| {
      SegmentCounts(barriers, first, p);
      SegmentCounts(barriers, second, p);
    }
    if q < |barriers| {
      SegmentCounts(barriers, first, q);
      SegmentCounts(barriers, second, q);
    }
    hide SegmentFor;
    assert p < q ==> barriers[p] in barriers;
    forall b | b in barriers && first < b <= second
      ensures p != q
    {
      var k :| 0 <= k < |barriers| && barriers[k] == b;
      SegmentCounts(barriers, first, k);
      SegmentCounts(barriers, second, k);
    }
  }

  /** The segment of a line is the number of barriers at or before it. */
  lemma {:induction false} SegmentIsCount(barriers: seq<int>, line: int)
    requires Ascending(INT_LESS, barriers)
    ensures SegmentFor(line, barriers) == |set b | b in barriers && b <= line|
  {
    var n := SegmentFor(line, barriers);
    forall k | 0 <= k < |barriers|
      ensures barriers[k] <= line <==> k < n
    {
      SegmentCounts(barriers, line, k);
    }
    hide SegmentFor;
    assert (set b | b in barriers && b <= line) == Elements(barriers[..n]) by {
      forall b
        ensures b in barriers && b <= line <==> b in barriers[..n]
      {
        if b in barriers && b <= line {
          var k :| 0 <= k < |barriers| && barriers[k] == b;
          assert barriers[..n][k] == b;
        }
      }
    }
    assert forall i, j | 0 <= i < j < n :: INT_LESS(barriers[i], barriers[j]);
    ElementsSize(barriers[..n]);
  }

  // -------------------------------------------------------------------- the sweep

  /** Both orders are total on triples. */
  lemma TripleOrder()
    ensures StrictTotalOrder(TripleBefore)
  {
  }

  ghost predicate WasPushed(intervals: seq<Interval>, next: nat, e: Entry)
    requires next <= |intervals|
  {
    exists k :: 0 <= k < next && EntryOf(intervals[k]) == e
  }

  /** What is known of the heap after the intervals before `next` were pushed and lines up to `line` read. */
  ghost predicate Swept(intervals: seq<Interval>, next: nat, active: seq<Entry>, line: int)
    requires next <= |intervals|
  {
    && SortedByKey(EntryKey, TripleBefore, active)
    && (forall e | e in active :: WasPushed(intervals, next, e))
    && (forall k | 0 <= k < next && intervals[k].end >= line :: EntryOf(intervals[k]) in active)
  }

  lemma SweptNothing(intervals: seq<Interval>, line: int)
    ensures Swept(intervals, 0, [], line)
  {
  }

  lemma SweptPush(intervals: seq<Interval>, next: nat, active: seq<Entry>, line: int)
    requires next < |intervals| && Swept(intervals, next, active, line)
    ensures Swept(intervals, next + 1, InsertByKey(EntryKey, TripleBefore, active, EntryOf(intervals[next])), line)
  {
    TripleOrder();
    var e := EntryOf(intervals[next]);
    InsertByKeySorts(EntryKey, TripleBefore, active, e);
    var pushed := InsertByKey(EntryKey, TripleBefore, active, e);
    hide InsertByKey, SortedByKey;
    forall x
      ensures x in pushed <==> x in active || x == e
    {
      assert x in pushed <==> x in multiset(pushed);
      assert x in active <==> x in multiset(active);
    }
    assert EntryOf(intervals[next]) == e;
    forall x | WasPushed(intervals, next, x) || x == e
      ensures WasPushed(intervals, next + 1, x)
    {
      if x != e {
        var k :| 0 <= k < next && EntryOf(intervals[k]) == x;
      }
    }
  }

  lemma SweptPop(intervals: seq<Interval>, next: nat, active: seq<Entry>, line: int)
    requires next <= |intervals| && Swept(intervals, next, active, line) && active != [] && active[0].end < line
    ensures Swept(intervals, next, active[1..], line)
  {
  }

  lemma SweptLater(intervals: seq<Interval>, next: nat, active: seq<Entry>, line: int, later: int)
    requires next <= |intervals| && Swept(intervals, next, active, line) && line <= later
    ensures Swept(intervals, next, active, later)
  {
  }

  /** The top of the heap is the narrowest interval around the line. */
  lemma TopIsNarrowest(intervals: seq<Interval>, next: nat, active: seq<Entry>, line: int)
    requires next <= |intervals| && Swept(intervals, next, active, line)
    requires forall k | 0 <= k < |intervals| :: k < next <==> intervals[k].start <= line
    requires active != [] ==> active[0].end >= line
    ensures IsScope(intervals, line, if active != [] then active[0].scope else 0)
  {
    if active == [] {
      forall i | i in intervals
        ensures !Covers(i, line)
      {
        var k :| 0 <= k < |intervals| && intervals[k] == i;
      }
    } else {
      assert WasPushed(intervals, next, active[0]);
      var k :| 0 <= k < next && EntryOf(intervals[k]) == active[0];
      forall j | j in intervals && Covers(j, line)
        ensures NoWider(intervals[k], j)
      {
        var m :| 0 <= m < |intervals| && intervals[m] == j;
        assert EntryOf(j) in active;
        var n :| 0 <= n < |active| && active[n] == EntryOf(j);
        assert n > 0 ==> !TripleBefore(EntryKey(active[n]), EntryKey(active[0]));
        EntryOrder(intervals[k], j);
      }
      assert Narrowest(intervals, line, intervals[k]);
    }
  }

  /** The sweep has not been past line `i` yet. */
  predicate InOrder(lines: seq<int>, i: nat)
    requires i < |lines|
  {
    forall j | 0 <= j < i :: lines[j] <= lines[i]
  }

  /** `top` is the greatest of the first `n` lines. */
  ghost predicate IsTop(lines: seq<int>, n: nat, top: int)
    requires n <= |lines|
  {
    (exists k :: 0 <= k < n && lines[k] == top) && forall k | 0 <= k < n :: lines[k] <= top
  }

  lemma TopNow(lines: seq<int>, i: nat, before: int, top: int)
    requires i < |lines| && (i > 0 ==> IsTop(lines, i, before))
    requires top == if i == 0 || before < lines[i] then lines[i] else before
    ensures IsTop(lines, i + 1, top) && (InOrder(lines, i) ==> top == lines[i])
  {
  }

  /** Pushes the intervals that have started and drops ended ones from the top of the heap. */
  method Advance(ordered: seq<Interval>, first: nat, heap: seq<Entry>, line: int, ghost top: int)
    returns (next: nat, active: seq<Entry>)
    requires first <= |ordered| && Swept(ordered, first, heap, top) && line <= top
    requires forall k | 0 <= k < first :: ordered[k].start <= top
    ensures next <= |ordered| && Swept(ordered, next, active, top)
    ensures forall k | 0 <= k < next :: ordered[k].start <= top
    ensures next < |ordered| ==> line < ordered[next].start
    ensures active != [] ==> active[0].end >= line
  {
    hide Swept, InsertByKey, TripleBefore;
    next, active := first, heap;
    while next < |ordered| && ordered[next].start <= line
      invariant next <= |ordered| && Swept(ordered, next, active, top)
      invariant forall k | 0 <= k < next :: ordered[k].start <= top
    {
      SweptPush(ordered, next, active, top);
      active := InsertByKey(EntryKey, TripleBefore, active, EntryOf(ordered[next]));
      next := next + 1;
    }
    while active != [] && active[0].end < line
      invariant Swept(ordered, next, active, top)
      decreases |active|
    {
      SweptPop(ordered, next, active, top);
      active := active[1..];
    }
  }

  /** One region per line: the scope by the sweep, which must not go back, the segment by bisection. */
  method ProjectRegions(lines: seq<int>, intervals: seq<Interval>, barriers: set<int>)
    returns (projected: seq<DuplicateRuns.Region>)
    ensures |projected| == |lines|
    ensures forall i | 0 <= i < |lines| && InOrder(lines, i) :: IsScope(intervals, lines[i], projected[i].scope)
    ensures forall i | 0 <= i < |lines| :: projected[i].segment == |set b | b in barriers && b <= lines[i]|
    ensures forall i, j | 0 <= i < |lines| && 0 <= j < |lines| && lines[i] <= lines[j] ::
      projected[i].segment == projected[j].segment <==> !exists b :: b in barriers && lines[i] < b <= lines[j]
  {
    hide SegmentFor, Swept, IsScope, InsertByKey, SortByKey, SortedByKey, TripleBefore, Ascending, NoRepeats;
    hide Elements, IsTop, InOrder;
    assert StrictTotalOrder(INT_LESS);
    var orderedBarriers := SortSet(INT_LESS, barriers);
    TripleOrder();
    var ordered := SortByKey(StartKey, TripleBefore, intervals);
    SortByKeySorts(StartKey, TripleBefore, intervals);
    PermutedMembers(ordered, intervals);
    var active: seq<Entry> := [];
    var next: nat := 0;
    projected := [];
    ghost var top := 0;
    for i := 0 to |lines|
      invariant |projected| == i && next <= |ordered|
      invariant i > 0 ==> Swept(ordered, next, active, top) && IsTop(lines, i, top)
      invariant i == 0 ==> next == 0 && active == []
      invariant forall k | 0 <= k < next :: ordered[k].start <= top
      invariant forall k | 0 <= k < i && InOrder(lines, k) :: IsScope(ordered, lines[k], projected[k].scope)
      invariant forall k | 0 <= k < i :: projected[k].segment == SegmentFor(lines[k], orderedBarriers)
    {
      var line := lines[i];
      ghost var before := top;
      if i == 0 {
        top := line;
        SweptNothing(ordered, top);
      } else if top < line {
        SweptLater(ordered, next, active, top, line);
        top := line;
      }
      TopNow(lines, i, before, top);
      next, active := Advance(ordered, next, active, line, top);
      if top == line {
        AllPushed(ordered, next, line);
        TopIsNarrowest(ordered, next, active, line);
      }
      var scope := if active != [] then active[0].scope else 0;
      projected := projected + [DuplicateRuns.Region(scope, SegmentFor(line, orderedBarriers))];
    }
    forall i | 0 <= i < |lines| && InOrder(lines, i)
      ensures IsScope(intervals, lines[i], projected[i].scope)
    {
      ScopeOfPermuted(ordered, intervals, lines[i], projected[i].scope);
    }
    SharedSegments(lines, projected, orderedBarriers, barriers);
  }

  lemma AllPushed(ordered: seq<Interval>, next: nat, line: int)
    requires SortedByKey(StartKey, TripleBefore, ordered) && next <= |ordered|
    requires forall k | 0 <= k < next :: ordered[k].start <= line
    requires next < |ordered| ==> line < ordered[next].start
    ensures forall k | 0 <= k < |ordered| :: k < next <==> ordered[k].start <= line
  {
  }

  lemma ScopeOfPermuted(a: seq<Interval>, b: seq<Interval>, line: int, scope: int)
    requires forall i :: i in a <==> i in b
    requires IsScope(a, line, scope)
    ensures IsScope(b, line, scope)
  {
  }

  lemma SharedSegments(lines: seq<int>, projected: seq<DuplicateRuns.Region>, ordered: seq<int>, barriers: set<int>)
    requires |projected| == |lines| && Ascending(INT_LESS, ordered) && Elements(ordered) == barriers
    requires forall k | 0 <= k < |lines| :: projected[k].segment == SegmentFor(lines[k], ordered)
    ensures forall i | 0 <= i < |lines| :: projected[i].segment == |set b | b in barriers && b <= lines[i]|
    ensures forall i, j | 0 <= i < |lines| && 0 <= j < |lines| && lines[i] <= lines[j] ::
      projected[i].segment == projected[j].segment <==> !exists b :: b in barriers && lines[i] < b <= lines[j]
  {
    hide SegmentFor;
    assert forall b :: b in barriers <==> b in ordered;
    forall i | 0 <= i < |lines|
      ensures projected[i].segment == |set b | b in barriers && b <= lines[i]|
    {
      SegmentIsCount(ordered, lines[i]);
      assert (set b | b in barriers && b <= lines[i]) == set b | b in ordered && b <= lines[i];
    }
    forall i, j | 0 <= i < |lines| && 0 <= j < |lines| && lines[i] <= lines[j]
      ensures projected[i].segment == projected[j].segment
        <==> !exists b :: b in barriers && lines[i] < b <= lines[j]
    {
      SharedSegment(ordered, lines[i], lines[j]);
      assert forall b :: b in barriers <==> b in ordered;
    }
  }
}
