/** Dropping matches that a longer match already accounts for. */
module MatchFilter {
  import opened SeedMatching
  import Orders

  /** Same files, and the line ranges overlap on both sides. */
  predicate Redundant(m: MatchPair, kept: MatchPair) {
    && m.firstFile == kept.firstFile && m.secondFile == kept.secondFile
    && !(m.firstEnd < kept.firstStart || m.firstStart > kept.firstEnd)
    && !(m.secondEnd < kept.secondStart || m.secondStart > kept.secondEnd)
  }

  predicate IsOrdered(m: MatchPair) {
    m.firstStart <= m.firstEnd && m.secondStart <= m.secondEnd
  }

  /** Same files, some line in both first ranges, and some line in both second ranges. */
  ghost predicate ShareLines(m: MatchPair, kept: MatchPair) {
    && m.firstFile == kept.firstFile && m.secondFile == kept.secondFile
    && (exists line: nat :: InRange(line, m.firstStart, m.firstEnd) && InRange(line, kept.firstStart, kept.firstEnd))
    && (exists line: nat ::
          InRange(line, m.secondStart, m.secondEnd) && InRange(line, kept.secondStart, kept.secondEnd))
  }

  predicate InRange(line: nat, start: nat, end: nat) {
    start <= line <= end
  }

  lemma RedundantMeans(m: MatchPair, kept: MatchPair)
    requires IsOrdered(m) && IsOrdered(kept)
    ensures Redundant(m, kept) <==> ShareLines(m, kept)
  {
    if Redundant(m, kept) {
      var first := if m.firstStart > kept.firstStart then m.firstStart else kept.firstStart;
      var second := if m.secondStart > kept.secondStart then m.secondStart else kept.secondStart;
      assert InRange(first, m.firstStart, m.firstEnd) && InRange(first, kept.firstStart, kept.firstEnd);
      assert InRange(second, m.secondStart, m.secondEnd) && InRange(second, kept.secondStart, kept.secondEnd);
    }
  }

  // -------------------------------------------------------------- stable sorting

  function SizeOf(m: MatchPair): nat {
    m.size
  }

  predicate Longer(a: nat, b: nat) {
    a > b
  }

  /** `sort(key=size, reverse=True)`, which is stable. */
  function BySize(list: seq<MatchPair>): seq<MatchPair> {
    Orders.SortByKey(SizeOf, Longer, list)
  }

  ghost predicate NonIncreasing(list: seq<MatchPair>) {
    forall i, j | 0 <= i < j < |list| :: list[i].size >= list[j].size
  }

  /** Sorting permutes, orders by falling size, and keeps the order of matches of one size. */
  lemma BySizeSorts(list: seq<MatchPair>)
    ensures multiset(BySize(list)) == multiset(list)
    ensures NonIncreasing(BySize(list))
    ensures forall size: nat :: Orders.WithKey(SizeOf, BySize(list), size) == Orders.WithKey(SizeOf, list, size)
  {
    hide Orders.SortByKey, Orders.WithKey;
    Orders.SortByKeySorts(SizeOf, Longer, list);
    forall size: nat
      ensures Orders.WithKey(SizeOf, BySize(list), size) == Orders.WithKey(SizeOf, list, size)
    {
      Orders.SortByKeyKeepsOrder(SizeOf, Longer, list, size);
    }
  }

  // ------------------------------------------------------------------- filtering

  /** No two kept matches of a file pair overlap on both sides. */
  ghost predicate Independent(kept: seq<MatchPair>) {
    forall i, j | 0 <= i < j < |kept| :: !Redundant(kept[j], kept[i])
  }

  /** `m` is kept, or a kept match at least as long makes it redundant. */
  ghost predicate Accounted(m: MatchPair, kept: seq<MatchPair>) {
    m in kept || exists i :: 0 <= i < |kept| && Redundant(m, kept[i]) && kept[i].size >= m.size
  }

  ghost predicate AllOrdered(list: seq<MatchPair>) {
    forall m <- list :: IsOrdered(m)
  }

  /** What is kept of a list: each match that shares no lines on both sides with one kept before it. */
  ghost function Kept(list: seq<MatchPair>): seq<MatchPair> {
    if list == [] then []
    else
      var before, last := Kept(list[..|list| - 1]), list[|list| - 1];
      if exists k :: k in before && ShareLines(last, k) then before else before + [last]
  }

  lemma {:induction false} KeptAreMembers(list: seq<MatchPair>)
    ensures forall k <- Kept(list) :: k in list
  {
    if list != [] {
      hide ShareLines;
      KeptAreMembers(list[..|list| - 1]);
    }
  }

  lemma KeptStep(sorted: seq<MatchPair>, k: nat, redundant: bool)
    requires k < |sorted| && AllOrdered(sorted)
    requires redundant <==> exists i :: 0 <= i < |Kept(sorted[..k])| && Redundant(sorted[k], Kept(sorted[..k])[i])
    ensures Kept(sorted[..k + 1]) == if redundant then Kept(sorted[..k]) else Kept(sorted[..k]) + [sorted[k]]
  {
    var before := Kept(sorted[..k]);
    assert sorted[..k + 1][..k] == sorted[..k];
    KeptAreMembers(sorted[..k]);
    hide Redundant, ShareLines, IsOrdered;
    forall i | 0 <= i < |before|
      ensures Redundant(sorted[k], before[i]) <==> ShareLines(sorted[k], before[i])
    {
      assert before[i] in sorted[..k] && before[i] in sorted && sorted[k] in sorted;
      RedundantMeans(sorted[k], before[i]);
    }
    if redundant {
      var i :| 0 <= i < |before| && Redundant(sorted[k], before[i]);
      assert before[i] in before;
    }
  }

  /** What is kept shares no lines on both sides; what is dropped shares some with a kept match as long. */
  lemma FilteredApart(rawMatches: seq<MatchPair>, filtered: seq<MatchPair>)
    requires AllOrdered(rawMatches) && Independent(filtered)
    requires (forall m <- filtered :: m in rawMatches) && forall m <- rawMatches :: Accounted(m, filtered)
    ensures forall i, j | 0 <= i < j < |filtered| :: !ShareLines(filtered[j], filtered[i])
    ensures forall m <- rawMatches :: m in filtered || exists k :: k in filtered && ShareLines(m, k) && k.size >= m.size
  {
    hide Redundant, ShareLines, IsOrdered;
    forall i, j | 0 <= i < j < |filtered|
      ensures !ShareLines(filtered[j], filtered[i])
    {
      assert filtered[i] in filtered && filtered[j] in filtered;
      RedundantMeans(filtered[j], filtered[i]);
    }
    forall m | m in rawMatches && m !in filtered
      ensures exists k :: k in filtered && ShareLines(m, k) && k.size >= m.size
    {
      assert Accounted(m, filtered);
      var i :| 0 <= i < |filtered| && Redundant(m, filtered[i]) && filtered[i].size >= m.size;
      assert filtered[i] in filtered;
      RedundantMeans(m, filtered[i]);
    }
  }

  lemma AccountedMore(m: MatchPair, kept: seq<MatchPair>, more: MatchPair)
    requires Accounted(m, kept)
    ensures Accounted(m, kept + [more])
  {
    if i :| 0 <= i < |kept| && Redundant(m, kept[i]) && kept[i].size >= m.size {
      assert (kept + [more])[i] == kept[i];
    }
  }

  method IsSubsumed(m: MatchPair, filtered: seq<MatchPair>) returns (redundant: bool)
    ensures redundant <==> exists i :: 0 <= i < |filtered| && Redundant(m, filtered[i])
  {
    for i := 0 to |filtered|
      invariant forall j | 0 <= j < i :: !Redundant(m, filtered[j])
    {
      if Redundant(m, filtered[i]) {
        return true;
      }
    }
    return false;
  }

  /** What holds once the first `k` matches of the sorted list have been considered. */
  ghost predicate Filtering(sorted: seq<MatchPair>, k: nat, filtered: seq<MatchPair>) {
    && k <= |sorted| && Independent(filtered) && NonIncreasing(filtered)
    && (forall i | 0 <= i < |filtered| :: filtered[i] in sorted[..k])
    && (forall i | 0 <= i < k :: Accounted(sorted[i], filtered))
  }

  lemma KeptAreLonger(sorted: seq<MatchPair>, k: nat, filtered: seq<MatchPair>)
    requires NonIncreasing(sorted) && Filtering(sorted, k, filtered) && k < |sorted|
    ensures forall j | 0 <= j < |filtered| :: filtered[j].size >= sorted[k].size
  {
  }

  lemma Drop(sorted: seq<MatchPair>, k: nat, filtered: seq<MatchPair>)
    requires NonIncreasing(sorted) && Filtering(sorted, k, filtered) && k < |sorted|
    requires exists i :: 0 <= i < |filtered| && Redundant(sorted[k], filtered[i])
    ensures Filtering(sorted, k + 1, filtered)
  {
  }

  lemma Keep(sorted: seq<MatchPair>, k: nat, filtered: seq<MatchPair>)
    requires NonIncreasing(sorted) && Filtering(sorted, k, filtered) && k < |sorted|
    requires forall i | 0 <= i < |filtered| :: !Redundant(sorted[k], filtered[i])
    ensures Filtering(sorted, k + 1, filtered + [sorted[k]])
  {
    KeptAreLonger(sorted, k, filtered);
    hide Redundant, Accounted;
    assert sorted[..k + 1] == sorted[..k] + [sorted[k]];
    forall j | 0 <= j < k + 1
      ensures Accounted(sorted[j], filtered + [sorted[k]])
    {
      if j < k {
        AccountedMore(sorted[j], filtered, sorted[k]);
      } else {
        AccountedLast(filtered, sorted[k]);
      }
    }
  }

  lemma AccountedLast(kept: seq<MatchPair>, m: MatchPair)
    ensures Accounted(m, kept + [m])
  {
  }

  method FilterSubsumedMatches(rawMatches: seq<MatchPair>) returns (filtered: seq<MatchPair>)
    ensures Independent(filtered) && NonIncreasing(filtered)
    ensures forall m <- filtered :: m in rawMatches
    ensures forall m <- rawMatches :: Accounted(m, filtered)
    ensures AllOrdered(rawMatches) ==>
      && filtered == Kept(BySize(rawMatches))
      && (forall i, j | 0 <= i < j < |filtered| :: !ShareLines(filtered[j], filtered[i]))
      && forall m <- rawMatches :: m in filtered || exists k :: k in filtered && ShareLines(m, k) && k.size >= m.size
  {
    var sorted := BySize(rawMatches);
    BySizeSorts(rawMatches);
    SameMembers(rawMatches, sorted);
    assert AllOrdered(rawMatches) ==> AllOrdered(sorted);
    hide Filtering, NonIncreasing, Independent, Accounted, BySize, Orders.WithKey, AllOrdered, ShareLines, Redundant;
    filtered := [];
    FilterStart(sorted);
    for k := 0 to |sorted|
      invariant Filtering(sorted, k, filtered)
      invariant AllOrdered(rawMatches) ==> filtered == Kept(sorted[..k])
    {
      var redundant := IsSubsumed(sorted[k], filtered);
      if AllOrdered(rawMatches) {
        KeptStep(sorted, k, redundant);
      }
      if redundant {
        Drop(sorted, k, filtered);
      } else {
        Keep(sorted, k, filtered);
        filtered := filtered + [sorted[k]];
      }
    }
    FilterEnd(rawMatches, sorted, filtered);
    assert sorted[..|sorted|] == sorted;
    if AllOrdered(rawMatches) {
      FilteredApart(rawMatches, filtered);
    }
  }

  lemma FilterStart(sorted: seq<MatchPair>)
    ensures Filtering(sorted, 0, [])
  {
  }

  lemma FilterEnd(rawMatches: seq<MatchPair>, sorted: seq<MatchPair>, filtered: seq<MatchPair>)
    requires multiset(sorted) == multiset(rawMatches) && Filtering(sorted, |sorted|, filtered)
    ensures Independent(filtered) && NonIncreasing(filtered)
    ensures forall m <- filtered :: m in rawMatches
    ensures forall m <- rawMatches :: Accounted(m, filtered)
  {
    hide Accounted, Independent, NonIncreasing;
    SameMembers(rawMatches, sorted);
    assert sorted[..|sorted|] == sorted;
  }

  lemma SameMembers(a: seq<MatchPair>, b: seq<MatchPair>)
    requires multiset(a) == multiset(b)
    ensures forall m :: m in a <==> m in b
  {
    forall m
      ensures m in a <==> m in b
    {
      assert m in a <==> m in multiset(a);
      assert m in b <==> m in multiset(b);
    }
  }
}
