/** The lists of covered positions that keep the seed search from reporting a run twice. */
module CoveredIntervals {
  import opened Basics

  /** An inclusive range of positions. */
  datatype Interval = Interval(lo: nat, hi: nat)

  /** The sentinel the membership test pairs with a position: no list position exceeds it. */
  const MAX_POSITION := 0x7FFF_FFFF_FFFF_FFFF

  /** Sorted, with a gap of at least one uncovered position between neighbours. */
  ghost predicate Canonical(intervals: seq<Interval>) {
    && (forall i | 0 <= i < |intervals| :: intervals[i].lo <= intervals[i].hi <= MAX_POSITION)
    && (forall i, j | 0 <= i < j < |intervals| :: intervals[i].hi + 1 < intervals[j].lo)
  }

  ghost predicate Covers(intervals: seq<Interval>, p: nat) {
    exists i :: 0 <= i < |intervals| && intervals[i].lo <= p <= intervals[i].hi
  }

  /** Tuple comparison: by the first component, then by the second. */
  predicate TupleLess(a: int, b: int, c: int, d: int) {
    a < c || (a == c && b < d)
  }

  /** The index of the first entry that is not before `(x, y)`. */
  function BisectLeft(intervals: seq<Interval>, x: int, y: int): (n: nat)
    ensures n <= |intervals|
    ensures forall i | 0 <= i < n :: TupleLess(intervals[i].lo, intervals[i].hi, x, y)
    ensures n < |intervals| ==> !TupleLess(intervals[n].lo, intervals[n].hi, x, y)
  {
    if intervals == [] || !TupleLess(intervals[0].lo, intervals[0].hi, x, y) then 0
    else 1 + BisectLeft(intervals[1..], x, y)
  }

  /** The index of the first entry that is after `(x, y)`. */
  function BisectRight(intervals: seq<Interval>, x: int, y: int): (n: nat)
    ensures n <= |intervals|
    ensures forall i | 0 <= i < n :: !TupleLess(x, y, intervals[i].lo, intervals[i].hi)
    ensures n < |intervals| ==> TupleLess(x, y, intervals[n].lo, intervals[n].hi)
  {
    if intervals == [] || TupleLess(x, y, intervals[0].lo, intervals[0].hi) then 0
    else 1 + BisectRight(intervals[1..], x, y)
  }

  /** Membership by looking at one candidate entry only. */
  method IntervalContains(intervals: seq<Interval>, position: nat) returns (found: bool)
    requires Canonical(intervals)
    ensures found <==> Covers(intervals, position)
  {
    var index := BisectRight(intervals, position, MAX_POSITION) - 1;
    found := index >= 0 && intervals[index].lo <= position <= intervals[index].hi;
  }

  /** `lo..hi` is the new range joined with the `dropped` entries from `index` on. */
  ghost predicate Merging(intervals: seq<Interval>, index: nat, dropped: nat, start: nat, end: nat, lo: nat, hi: nat) {
    && index + dropped <= |intervals| && lo <= start <= end <= hi <= MAX_POSITION
    && (index > 0 ==> intervals[index - 1].hi + 1 < lo)
    && (index + dropped < |intervals| ==> start <= intervals[index + dropped].lo)
    && (forall i | index <= i < index + dropped :: lo <= intervals[i].lo && intervals[i].hi <= hi)
    && (forall p: nat | lo <= p <= hi :: start <= p <= end || Covers(intervals, p))
  }

  /** The list with the merged entries replaced by their union. */
  ghost function Replaced(intervals: seq<Interval>, index: nat, dropped: nat, lo: nat, hi: nat): seq<Interval>
    requires index + dropped <= |intervals|
  {
    intervals[..index] + [Interval(lo, hi)] + intervals[index + dropped..]
  }

  ghost function Without(intervals: seq<Interval>, index: nat, dropped: nat): seq<Interval>
    requires index + dropped <= |intervals|
  {
    intervals[..index] + intervals[index + dropped..]
  }

  lemma PopEntry(intervals: seq<Interval>, index: nat, dropped: nat)
    requires index + dropped < |intervals|
    ensures var r := Without(intervals, index, dropped);
      index < |r| && r[index] == intervals[index + dropped]
      && r[..index] + r[index + 1..] == Without(intervals, index, dropped + 1)
  {
  }

  lemma InsertEntry(intervals: seq<Interval>, index: nat, dropped: nat, lo: nat, hi: nat)
    requires index + dropped <= |intervals|
    ensures var r := Without(intervals, index, dropped);
      index <= |r| && r[..index] + [Interval(lo, hi)] + r[index..] == Replaced(intervals, index, dropped, lo, hi)
  {
  }

  /** Adds a range, merging every entry that it overlaps or touches. */
  method AddInterval(intervals: seq<Interval>, start: nat, end: nat) returns (r: seq<Interval>)
    requires Canonical(intervals) && start <= end <= MAX_POSITION
    ensures Canonical(r)
    ensures forall p: nat :: Covers(r, p) <==> Covers(intervals, p) || start <= p <= end
  {
    hide Canonical, Merging, Covers, Without, Replaced;
    var index := BisectLeft(intervals, start, -1);
    var lo: nat, hi: nat := start, end;
    r := intervals;
    ghost var dropped := 0;
    MergeNone(intervals, index, start, end);
    if index > 0 && r[index - 1].hi + 1 >= lo {
      index := index - 1;
      lo := Min(lo, r[index].lo);
      hi := Max(hi, r[index].hi);
      BisectNeighbours(intervals, index, start);
      MergeBefore(intervals, index, start, end);
      WithoutNothing(intervals, index);
      PopEntry(intervals, index, 0);
      r := r[..index] + r[index + 1..];
      dropped := 1;
    }
    while index < |r| && r[index].lo <= hi + 1
      invariant Merging(intervals, index, dropped, start, end, lo, hi)
      invariant index + dropped <= |intervals| && |r| == |intervals| - dropped
      invariant r == Without(intervals, index, dropped)
      decreases |r|
    {
      PopEntry(intervals, index, dropped);
      MergeStep(intervals, index, dropped, start, end, lo, hi);
      lo := Min(lo, r[index].lo);
      hi := Max(hi, r[index].hi);
      r := r[..index] + r[index + 1..];
      dropped := dropped + 1;
    }
    if index + dropped < |intervals| {
      PopEntry(intervals, index, dropped);
    }
    InsertEntry(intervals, index, dropped, lo, hi);
    r := r[..index] + [Interval(lo, hi)] + r[index..];
    ReplacedCanonical(intervals, index, dropped, start, end, lo, hi);
    ReplacedCovers(intervals, index, dropped, start, end, lo, hi);
  }

  lemma MergeNone(intervals: seq<Interval>, index: nat, start: nat, end: nat)
    requires Canonical(intervals) && index <= |intervals| && start <= end <= MAX_POSITION
    requires index == BisectLeft(intervals, start, -1)
    ensures Without(intervals, index, 0) == intervals
    ensures index == 0 || intervals[index - 1].hi + 1 < start ==> Merging(intervals, index, 0, start, end, start, end)
  {
    hide BisectLeft, Covers;
    WithoutNothing(intervals, index);
    hide Without;
  }

  lemma WithoutNothing(intervals: seq<Interval>, index: nat)
    requires index <= |intervals|
    ensures Without(intervals, index, 0) == intervals
  {
  }

  lemma MergeBefore(intervals: seq<Interval>, index: nat, start: nat, end: nat)
    requires index < |intervals| && start <= end <= MAX_POSITION
    requires intervals[index].lo < start <= intervals[index].hi + 1 <= MAX_POSITION + 1
    requires index > 0 ==> intervals[index - 1].hi + 1 < intervals[index].lo
    requires index + 1 < |intervals| ==> start <= intervals[index + 1].lo
    ensures Merging(intervals, index, 1, start, end,
                    Min(start, intervals[index].lo), Max(end, intervals[index].hi))
  {
  }

  lemma BisectNeighbours(intervals: seq<Interval>, index: nat, start: nat)
    requires Canonical(intervals) && index < |intervals| && index + 1 == BisectLeft(intervals, start, -1)
    ensures intervals[index].lo < start && intervals[index].lo <= intervals[index].hi <= MAX_POSITION
    ensures index > 0 ==> intervals[index - 1].hi + 1 < intervals[index].lo
    ensures index + 1 < |intervals| ==> start <= intervals[index + 1].lo
  {
  }

  /** Absorbing a touching entry adds only positions that entry covers. */
  lemma MergeStep(intervals: seq<Interval>, index: nat, dropped: nat, start: nat, end: nat, lo: nat, hi: nat)
    requires Canonical(intervals) && Merging(intervals, index, dropped, start, end, lo, hi)
    requires index + dropped < |intervals| && intervals[index + dropped].lo <= hi + 1
    ensures lo <= intervals[index + dropped].lo
    ensures Merging(intervals, index, dropped + 1, start, end, lo,
                    Max(hi, intervals[index + dropped].hi))
  {
  }

  lemma ReplacedCanonical(intervals: seq<Interval>, index: nat, dropped: nat, start: nat, end: nat, lo: nat, hi: nat)
    requires Canonical(intervals) && Merging(intervals, index, dropped, start, end, lo, hi)
    requires index + dropped < |intervals| ==> hi + 1 < intervals[index + dropped].lo
    ensures Canonical(Replaced(intervals, index, dropped, lo, hi))
  {
    var r := Replaced(intervals, index, dropped, lo, hi);
    forall i | 0 <= i < |r|
      ensures r[i].lo <= r[i].hi <= MAX_POSITION
    {
      ReplacedEntry(intervals, index, dropped, lo, hi, i);
    }
    forall i, j | 0 <= i < j < |r|
      ensures r[i].hi + 1 < r[j].lo
    {
      ReplacedEntry(intervals, index, dropped, lo, hi, i);
      ReplacedEntry(intervals, index, dropped, lo, hi, j);
      ApartFromMerged(intervals, index, dropped, start, end, lo, hi, if i < index then i else i - 1 + dropped);
      ApartFromMerged(intervals, index, dropped, start, end, lo, hi, if j < index then j else j - 1 + dropped);
    }
  }

  /** Which entry stands at `i` after the replacement. */
  lemma ReplacedEntry(intervals: seq<Interval>, index: nat, dropped: nat, lo: nat, hi: nat, i: nat)
    requires index + dropped <= |intervals| && i < |Replaced(intervals, index, dropped, lo, hi)|
    ensures Replaced(intervals, index, dropped, lo, hi)[i]
      == if i < index then intervals[i] else if i == index then Interval(lo, hi) else intervals[i - 1 + dropped]
  {
  }

  /** The remaining entries lie apart from the merged one. */
  lemma ApartFromMerged(intervals: seq<Interval>, index: nat, dropped: nat, start: nat, end: nat, lo: nat, hi: nat,
                        i: int)
    requires Canonical(intervals) && Merging(intervals, index, dropped, start, end, lo, hi)
    requires index + dropped < |intervals| ==> hi + 1 < intervals[index + dropped].lo
    ensures 0 <= i < index ==> intervals[i].hi + 1 < lo
    ensures index + dropped <= i < |intervals| ==> hi + 1 < intervals[i].lo
  {
    if 0 <= i < index - 1 {
      assert intervals[i].hi + 1 < intervals[index - 1].lo;
    }
    if index + dropped < i < |intervals| {
      assert intervals[index + dropped].hi + 1 < intervals[i].lo;
    }
  }

  lemma ReplacedCovers(intervals: seq<Interval>, index: nat, dropped: nat, start: nat, end: nat, lo: nat, hi: nat)
    requires Merging(intervals, index, dropped, start, end, lo, hi)
    ensures forall p: nat ::
      Covers(Replaced(intervals, index, dropped, lo, hi), p) <==> Covers(intervals, p) || start <= p <= end
  {
    var r := Replaced(intervals, index, dropped, lo, hi);
    assert r[index] == Interval(lo, hi);
    forall p: nat
      ensures Covers(r, p) ==> Covers(intervals, p) || start <= p <= end
    {
      if i :| 0 <= i < |r| && r[i].lo <= p <= r[i].hi {
        if i < index {
          assert intervals[i] == r[i];
        } else if i > index {
          assert intervals[i - 1 + dropped] == r[i];
        }
      }
    }
    forall p: nat
      ensures Covers(intervals, p) ==> Covers(r, p)
    {
      if i :| 0 <= i < |intervals| && intervals[i].lo <= p <= intervals[i].hi {
        if i < index {
          assert r[i] == intervals[i];
        } else if i >= index + dropped {
          assert r[i + 1 - dropped] == intervals[i];
        }
      }
    }
    forall p: nat | start <= p <= end
      ensures Covers(r, p)
    {
      assert r[index].lo <= p <= r[index].hi;
    }
  }

  /** A canonical list is determined by the positions it covers. */
  lemma {:induction false} CanonicalUnique(a: seq<Interval>, b: seq<Interval>)
    requires Canonical(a) && Canonical(b)
    requires forall p: nat :: Covers(a, p) <==> Covers(b, p)
    ensures a == b
    decreases |a|
  {
    if a == [] {
      if b != [] {
        assert Covers(b, b[0].lo);
      }
    } else {
      assert Covers(a, a[0].lo);
      assert b != [];
      assert Covers(b, b[0].lo);
      SameHead(a, b);
      SameHead(b, a);
      forall p: nat
        ensures Covers(a[1..], p) <==> Covers(b[1..], p)
      {
        TailCovers(a, p);
        TailCovers(b, p);
      }
      CanonicalUnique(a[1..], b[1..]);
    }
  }

  lemma TailCovers(a: seq<Interval>, p: nat)
    requires Canonical(a) && a != []
    ensures Canonical(a[1..])
    ensures Covers(a[1..], p) <==> Covers(a, p) && p > a[0].hi
  {
  }

  /** The first entry of `a` starts no later and ends no later than that of `b`. */
  lemma SameHead(a: seq<Interval>, b: seq<Interval>)
    requires Canonical(a) && Canonical(b) && a != [] && b != []
    requires forall p: nat :: Covers(a, p) <==> Covers(b, p)
    ensures a[0].lo <= b[0].lo && (a[0].lo == b[0].lo ==> a[0].hi <= b[0].hi)
  {
    assert Covers(b, b[0].lo);
    var i :| 0 <= i < |a| && a[i].lo <= b[0].lo <= a[i].hi;
    var p := b[0].hi + 1;
    assert a[0].lo <= p <= a[0].hi ==> Covers(a, p);
  }
}
