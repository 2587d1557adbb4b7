/** What the result of clustering says in its own terms: which occurrence is the original, and in which order
  occurrences and groups come. */
module CloneOrder {
  import opened Basics
  import opened CloneGraph
  import opened CloneClustering
  import opened SeedMatching
  import opened DuplicateRuns
  import Orders

  // ------------------------------------------------------------------- locations

  /** By path, then by first line, then by last line. */
  ghost predicate Earlier(files: seq<FileData>, a: Loc, b: Loc)
    requires a.file < |files| && b.file < |files|
  {
    var p, q := files[a.file].path, files[b.file].path;
    || Orders.ComesFirst(p, q)
    || (p == q && (a.start < b.start || (a.start == b.start && a.end < b.end)))
  }

  ghost predicate SamePlace(files: seq<FileData>, a: Loc, b: Loc)
    requires a.file < |files| && b.file < |files|
  {
    files[a.file].path == files[b.file].path && a.start == b.start && a.end == b.end
  }

  lemma KeyOrder(files: seq<FileData>, a: Loc, b: Loc)
    requires a.file < |files| && b.file < |files|
    ensures LocKeyLess(LocKeyOf(files, a), LocKeyOf(files, b)) <==> Earlier(files, a, b)
    ensures LocKeyOf(files, a) == LocKeyOf(files, b) <==> SamePlace(files, a, b)
    ensures Earlier(files, a, b) || SamePlace(files, a, b) || Earlier(files, b, a)
    ensures !(Earlier(files, a, b) && Earlier(files, b, a))
  {
    hide Orders.ComesFirst, Orders.StringLess;
    Orders.StringLessMeans(files[a.file].path, files[b.file].path);
    Orders.StringLessMeans(files[b.file].path, files[a.file].path);
    Orders.StringLessIsTotal();
  }

  ghost predicate LocsInFiles(files: seq<FileData>, list: seq<Loc>) {
    forall a <- list :: a.file < |files|
  }

  /** Occurrences come by path and lines; equal places only if two files share a path. */
  ghost predicate InOrder(files: seq<FileData>, list: seq<Loc>)
    requires LocsInFiles(files, list)
  {
    forall j, k | 0 <= j < k < |list| :: Earlier(files, list[j], list[k]) || SamePlace(files, list[j], list[k])
  }

  lemma SortedIsInOrder(files: seq<FileData>, list: seq<Loc>)
    requires LocsInFiles(files, list) && Orders.SortedByKey(LocKeyBy(files), LocKeyLess, list)
    ensures InOrder(files, list)
  {
    hide LocKeyLess, Earlier, SamePlace;
    forall j, k | 0 <= j < k < |list|
      ensures Earlier(files, list[j], list[k]) || SamePlace(files, list[j], list[k])
    {
      assert list[j] in list && list[k] in list;
      assert !LocKeyLess(LocKeyBy(files)(list[k]), LocKeyBy(files)(list[j]));
      KeyOrder(files, list[j], list[k]);
      KeyOrder(files, list[k], list[j]);
    }
  }

  // --------------------------------------------------------------------- lengths

  /** The greatest size of a match that has one of these occurrences. */
  ghost predicate IsGreatest(matches: seq<MatchPair>, list: seq<Loc>, size: nat) {
    && (forall m, a | m in matches && a in list && Touches(m, a) :: m.size <= size)
    && (exists m, a :: m in matches && a in list && Touches(m, a) && m.size == size)
  }

  lemma {:induction false} LongestMeans(length: map<Loc, nat>, list: seq<Loc>)
    requires list != []
    ensures forall a <- list :: LengthAt(length, a) <= Longest(length, list)
    ensures exists a :: a in list && LengthAt(length, a) == Longest(length, list)
    decreases |list|
  {
    if |list| == 1 {
      assert Longest(length, list[1..]) == 0;
      assert list[0] in list;
    } else {
      LongestMeans(length, list[1..]);
      var b :| b in list[1..] && LengthAt(length, b) == Longest(length, list[1..]);
      assert b in list && list[0] in list;
      assert forall a <- list :: a == list[0] || a in list[1..];
    }
  }

  lemma LengthIs(matches: seq<MatchPair>, length: map<Loc, nat>, a: Loc)
    requires IsLengthOf(length, matches) && a in length
    ensures forall m | m in matches && Touches(m, a) :: m.size <= LengthAt(length, a)
    ensures exists m :: m in matches && Touches(m, a) && m.size == LengthAt(length, a)
  {
  }

  lemma LongestIsGreatest(matches: seq<MatchPair>, length: map<Loc, nat>, list: seq<Loc>)
    requires IsLengthOf(length, matches) && list != [] && forall a <- list :: a in length
    ensures IsGreatest(matches, list, Longest(length, list))
  {
    LongestMeans(length, list);
    hide IsLengthOf, Longest, LengthAt, Touches;
    forall m, a | m in matches && a in list && Touches(m, a)
      ensures m.size <= Longest(length, list)
    {
      LengthIs(matches, length, a);
    }
    var a :| a in list && LengthAt(length, a) == Longest(length, list);
    LengthIs(matches, length, a);
  }

  // ------------------------------------------------------------- representatives

  /** A match of that size has the occurrence. */
  ghost predicate Reaches(matches: seq<MatchPair>, a: Loc, size: nat) {
    exists m :: m in matches && Touches(m, a) && m.size == size
  }

  /** The first occurrence that a match of the greatest size has. */
  ghost predicate IsOriginal(matches: seq<MatchPair>, list: seq<Loc>, size: nat, a: Loc) {
    exists p :: 0 <= p < |list| && list[p] == a && Reaches(matches, a, size)
                && forall q | 0 <= q < p :: !Reaches(matches, list[q], size)
  }

  /** A later occurrence represents its group better only by a longer match. */
  lemma LaterNeedsMore(files: seq<FileData>, length: map<Loc, nat>, list: seq<Loc>, p: nat, q: nat)
    requires LocsInFiles(files, list) && InOrder(files, list) && p < q < |list|
    ensures Represents(files, length, list[q], list[p]) <==> LengthAt(length, list[q]) > LengthAt(length, list[p])
  {
    hide LengthAt, Earlier, SamePlace, LocKeyLess;
    assert list[p] in list && list[q] in list;
    LocKeyLessIsTotal();
    KeyOrder(files, list[p], list[q]);
    KeyOrder(files, list[q], list[p]);
  }

  lemma PrefixInOrder(files: seq<FileData>, list: seq<Loc>, n: nat)
    requires LocsInFiles(files, list) && InOrder(files, list) && n <= |list|
    ensures LocsInFiles(files, list[..n]) && InOrder(files, list[..n])
  {
    hide Earlier, SamePlace;
    assert forall j | 0 <= j < n :: list[..n][j] == list[j];
  }

  lemma {:induction false} RepresentativeIsFirst(files: seq<FileData>, length: map<Loc, nat>, list: seq<Loc>)
    returns (p: nat)
    requires list != [] && LocsInFiles(files, list) && InOrder(files, list)
    ensures p < |list| && list[p] == Representative(files, length, list)
    ensures forall a <- list :: LengthAt(length, a) <= LengthAt(length, list[p])
    ensures forall q | 0 <= q < p :: LengthAt(length, list[q]) < LengthAt(length, list[p])
    decreases |list|
  {
    hide LengthAt, Represents, LocsInFiles, InOrder;
    if |list| == 1 {
      p := 0;
    } else {
      var last := |list| - 1;
      PrefixInOrder(files, list, last);
      p := RepresentativeIsFirst(files, length, list[..last]);
      LaterNeedsMore(files, length, list, p, last);
      assert list == list[..last] + [list[last]];
      if LengthAt(length, list[last]) > LengthAt(length, list[p]) {
        forall q | 0 <= q < last
          ensures LengthAt(length, list[q]) < LengthAt(length, list[last])
        {
          assert list[..last][q] in list[..last];
        }
        p := last;
      }
    }
  }

  lemma RepresentativeIsOriginal(files: seq<FileData>, matches: seq<MatchPair>, length: map<Loc, nat>, list: seq<Loc>)
    requires IsLengthOf(length, matches) && list != [] && forall a <- list :: a in length
    requires LocsInFiles(files, list) && InOrder(files, list)
    ensures IsOriginal(matches, list, Longest(length, list), Representative(files, length, list))
  {
    var p := RepresentativeIsFirst(files, length, list);
    LongestMeans(length, list);
    hide IsLengthOf, Longest, LengthAt, Touches, Representative, InOrder;
    var size := Longest(length, list);
    assert list[p] in list;
    LengthIs(matches, length, list[p]);
    forall q | 0 <= q < p
      ensures !Reaches(matches, list[q], size)
    {
      assert list[q] in list;
      LengthIs(matches, length, list[q]);
    }
  }

  // ----------------------------------------------------------------------- groups

  /** Groups come by falling length, then by falling number of occurrences, then by their first difference. */
  ghost predicate GroupEarlier(files: seq<FileData>, a: CloneGroup, b: CloneGroup)
    requires LocsInFiles(files, a.locations) && LocsInFiles(files, b.locations)
  {
    || a.lineCount > b.lineCount
    || (a.lineCount == b.lineCount
        && (|a.locations| > |b.locations|
            || (|a.locations| == |b.locations| && ListEarlier(files, a.locations, b.locations))))
  }

  ghost predicate ListEarlier(files: seq<FileData>, a: seq<Loc>, b: seq<Loc>)
    requires LocsInFiles(files, a) && LocsInFiles(files, b) && |a| == |b|
  {
    exists n: nat :: ListEarlierAt(files, a, b, n)
  }

  ghost predicate ListEarlierAt(files: seq<FileData>, a: seq<Loc>, b: seq<Loc>, n: nat)
    requires LocsInFiles(files, a) && LocsInFiles(files, b) && |a| == |b|
  {
    n <= |a| && (forall i | 0 <= i < n :: SamePlace(files, a[i], b[i])) && (n == |a| || Earlier(files, a[n], b[n]))
  }

  lemma ListOrder(files: seq<FileData>, a: seq<Loc>, b: seq<Loc>)
    requires LocsInFiles(files, a) && LocsInFiles(files, b) && |a| == |b|
    requires !Orders.LexLess(LocKeyLess, KeysOf(files, b), KeysOf(files, a))
    ensures ListEarlier(files, a, b)
  {
    hide LocKeyLess, Orders.LexLess, Earlier, SamePlace;
    var k, l := KeysOf(files, a), KeysOf(files, b);
    LocKeyLessIsTotal();
    if k == l {
      forall i | 0 <= i < |a|
        ensures SamePlace(files, a[i], b[i])
      {
        assert a[i] in a && b[i] in b && k[i] == l[i];
        KeyOrder(files, a[i], b[i]);
      }
      assert ListEarlierAt(files, a, b, |a|);
    } else {
      Orders.LexConnected(LocKeyLess, k, l);
      Orders.LexMeans(LocKeyLess, k, l);
      var n: nat :| Orders.DiffersAt(LocKeyLess, k, l, n);
      forall i | 0 <= i < n
        ensures SamePlace(files, a[i], b[i])
      {
        assert a[i] in a && b[i] in b && k[..n][i] == l[..n][i];
        KeyOrder(files, a[i], b[i]);
      }
      assert a[n] in a && b[n] in b;
      KeyOrder(files, a[n], b[n]);
      assert ListEarlierAt(files, a, b, n);
    }
  }

  lemma GroupOrder(files: seq<FileData>, length: map<Loc, nat>, clusters: seq<seq<Loc>>, i: nat, j: nat)
    requires i < j < |clusters| && clusters[i] != [] && clusters[j] != []
    requires LocsInFiles(files, clusters[i]) && LocsInFiles(files, clusters[j])
    requires !ClusterKeyLess(ClusterKeyOf(files, length, clusters[j]), ClusterKeyOf(files, length, clusters[i]))
    ensures GroupEarlier(files, GroupOf(files, length, clusters, i), GroupOf(files, length, clusters, j))
  {
    hide Longest, Representative, ListEarlier, Orders.LexLess, LocKeyLess, KeysOf;
    var a, b := clusters[i], clusters[j];
    if Longest(length, a) == Longest(length, b) && |a| == |b| {
      ListOrder(files, a, b);
    }
  }

  // --------------------------------------------------------------------- theorems

  ghost predicate OccursAfterFirst(r: Clustering, f: nat, line: nat) {
    exists i, j {:trigger r.groups[i].locations[j]} ::
      && 0 <= i < |r.groups| && 0 < j < |r.groups[i].locations|
      && r.groups[i].locations[j].file == f
      && r.groups[i].locations[j].start <= line <= r.groups[i].locations[j].end
  }

  ghost predicate IsCodeLine(files: seq<FileData>, f: nat, line: nat) {
    f < |files| && exists r :: r in files[f].indexed && r.line == line
  }

  /** Different occurrences, each of some match. */
  ghost predicate AreMatched(matches: seq<MatchPair>, list: seq<Loc>) {
    list != [] && Orders.NoRepeats(list) && forall a <- list :: exists m :: m in matches && Touches(m, a)
  }

  /** The result in its own terms. */
  ghost predicate Reads(files: seq<FileData>, matches: seq<MatchPair>, r: Clustering) {
    && (forall i | 0 <= i < |r.groups| ::
          var g := r.groups[i];
          && g.index == i + 1 && AreMatched(matches, g.locations)
          && LocsInFiles(files, g.locations) && InOrder(files, g.locations)
          && IsGreatest(matches, g.locations, g.lineCount)
          && IsOriginal(matches, g.locations, g.lineCount, g.representative))
    && (forall i, j | 0 <= i < j < |r.groups| :: GroupEarlier(files, r.groups[i], r.groups[j]))
    && (forall f: nat, line: nat ::
          (f, line) in r.duplicated <==> IsCodeLine(files, f, line) && OccursAfterFirst(r, f, line))
  }

  lemma ClustersRead(files: seq<FileData>, matches: seq<MatchPair>, r: Clustering)
    requires forall m <- matches :: m.firstFile < |files| && m.secondFile < |files|
    requires Clusters(files, matches, r)
    ensures Reads(files, matches, r)
  {
    hide IsGraphOf, IsLengthOf, IsOrdered, IsResult;
    var g, length, clusters :| && IsGraphOf(g, matches) && IsLengthOf(length, matches)
                               && IsOrdered(files, g, length, clusters) && IsResult(files, length, clusters, r);
    ResultGroups(files, length, clusters, r);
    forall i | 0 <= i < |clusters|
      ensures var h := r.groups[i];
        && h.index == i + 1 && AreMatched(matches, h.locations)
        && LocsInFiles(files, h.locations) && InOrder(files, h.locations)
        && IsGreatest(matches, h.locations, h.lineCount)
        && IsOriginal(matches, h.locations, h.lineCount, h.representative)
    {
      hide GroupOf, InOrder, IsGreatest, IsOriginal, AreMatched;
      GroupReads(files, matches, g, length, clusters, i);
    }
    forall i, j | 0 <= i < j < |clusters|
      ensures GroupEarlier(files, r.groups[i], r.groups[j])
    {
      hide GroupOf, GroupEarlier, InOrder;
      GroupsInOrder(files, g, length, clusters, i, j);
    }
    forall f: nat, line: nat
      ensures (f, line) in r.duplicated <==> IsCodeLine(files, f, line) && OccursAfterFirst(r, f, line)
    {
      DuplicatedReads(files, length, clusters, r, f, line);
    }
  }

  lemma ResultGroups(files: seq<FileData>, length: map<Loc, nat>, clusters: seq<seq<Loc>>, r: Clustering)
    requires IsResult(files, length, clusters, r)
    ensures |r.groups| == |clusters|
    ensures forall i | 0 <= i < |clusters| :: clusters[i] != [] && r.groups[i] == GroupOf(files, length, clusters, i)
  {
  }

  /** The members of a cluster are matched occurrences. */
  lemma ClusterMembers(files: seq<FileData>, matches: seq<MatchPair>, g: Graph, length: map<Loc, nat>,
                       clusters: seq<seq<Loc>>, i: nat)
    requires forall m <- matches :: m.firstFile < |files| && m.secondFile < |files|
    requires IsGraphOf(g, matches) && IsLengthOf(length, matches) && Partitions(g, clusters) && i < |clusters|
    ensures LocsInFiles(files, clusters[i]) && forall a <- clusters[i] :: a in length
    ensures AreMatched(matches, clusters[i])
  {
    hide Connected;
    assert clusters[i] in clusters;
    GraphInFiles(files, g, matches);
  }

  lemma GroupReads(files: seq<FileData>, matches: seq<MatchPair>, g: Graph, length: map<Loc, nat>,
                   clusters: seq<seq<Loc>>, i: nat)
    requires forall m <- matches :: m.firstFile < |files| && m.secondFile < |files|
    requires IsGraphOf(g, matches) && IsLengthOf(length, matches) && IsOrdered(files, g, length, clusters)
    requires i < |clusters| && clusters[i] != []
    ensures var h := GroupOf(files, length, clusters, i);
      && h.index == i + 1 && AreMatched(matches, h.locations)
      && LocsInFiles(files, h.locations) && InOrder(files, h.locations)
      && IsGreatest(matches, h.locations, h.lineCount)
      && IsOriginal(matches, h.locations, h.lineCount, h.representative)
  {
    hide IsGraphOf, IsLengthOf, Partitions, Orders.SortedByKey, LocKeyLess, ClusterKeyLess, InOrder, IsGreatest;
    hide IsOriginal, Longest, Representative, Touches, AreMatched;
    assert clusters[i] in clusters;
    ClusterMembers(files, matches, g, length, clusters, i);
    SortedIsInOrder(files, clusters[i]);
    LongestIsGreatest(matches, length, clusters[i]);
    RepresentativeIsOriginal(files, matches, length, clusters[i]);
  }

  lemma GroupsInOrder(files: seq<FileData>, g: Graph, length: map<Loc, nat>, clusters: seq<seq<Loc>>, i: nat, j: nat)
    requires IsOrdered(files, g, length, clusters) && i < j < |clusters|
    requires clusters[i] != [] && clusters[j] != []
    requires LocsInFiles(files, clusters[i]) && LocsInFiles(files, clusters[j])
    ensures GroupEarlier(files, GroupOf(files, length, clusters, i), GroupOf(files, length, clusters, j))
  {
    hide Partitions, LocKeyLess, ClusterKeyLess, GroupOf, GroupEarlier;
    assert !ClusterKeyLess(ClusterKeyBy(files, length)(clusters[j]), ClusterKeyBy(files, length)(clusters[i]));
    GroupOrder(files, length, clusters, i, j);
  }

  lemma DuplicatedReads(files: seq<FileData>, length: map<Loc, nat>, clusters: seq<seq<Loc>>, r: Clustering, f: nat,
                        line: nat)
    requires IsResult(files, length, clusters, r)
    ensures (f, line) in r.duplicated <==> IsCodeLine(files, f, line) && OccursAfterFirst(r, f, line)
  {
    GroupLocations(files, length, clusters, r);
    hide GroupOf;
    if f < |files| {
      CodeLineMeans(files, f, line);
    }
    if i, j {:trigger clusters[i][j]} :|
      0 <= i < |clusters| && 0 < j < |clusters[i]| && Holds(clusters[i][j], f, line)
    {
      assert r.groups[i].locations[j] == clusters[i][j];
    }
    if OccursAfterFirst(r, f, line) {
      var i, j {:trigger r.groups[i].locations[j]} :|
        && 0 <= i < |r.groups| && 0 < j < |r.groups[i].locations|
        && r.groups[i].locations[j].file == f
        && r.groups[i].locations[j].start <= line <= r.groups[i].locations[j].end;
      assert clusters[i][j] == r.groups[i].locations[j];
    }
  }

  lemma CodeLineMeans(files: seq<FileData>, f: nat, line: nat)
    requires f < |files|
    ensures line in CodeLines(files[f]) <==> IsCodeLine(files, f, line)
  {
  }

  /** Both occurrences of a match are in one group. */
  lemma MatchesAreGrouped(files: seq<FileData>, matches: seq<MatchPair>, r: Clustering, m: MatchPair, a: Loc, b: Loc)
    requires Clusters(files, matches, r) && m in matches && IsFirst(m, a) && IsSecond(m, b)
    ensures exists i :: InGroup(r, i, a) && InGroup(r, i, b)
    ensures forall i, j | InGroup(r, i, a) && InGroup(r, j, a) :: i == j
    ensures forall i, j | InGroup(r, i, b) && InGroup(r, j, b) :: i == j
  {
    hide IsLengthOf, IsOrdered, IsResult;
    var g, k, c :| IsGraphOf(g, matches) && IsLengthOf(k, matches) && IsOrdered(files, g, k, c)
      && IsResult(files, k, c, r);
    MatchConnects(g, matches, m, a, b);
    hide IsGraphOf, Connected;
    GroupsAreComponents(files, matches, r, g, a, b);
    GroupsAreComponents(files, matches, r, g, b, a);
  }

  lemma MatchConnects(g: Graph, matches: seq<MatchPair>, m: MatchPair, a: Loc, b: Loc)
    requires IsGraphOf(g, matches) && m in matches && IsFirst(m, a) && IsSecond(m, b)
    ensures a in g && b in g && Connected(g, a, b)
  {
    assert Touches(m, a) && Touches(m, b) && Linked(m, a, b);
    ConnectedSelf(g, a);
    ConnectedStep(g, a, a, b);
  }

  /** With a single match there is a single group, and nothing but its two occurrences in it. */
  lemma OnlyGroup(files: seq<FileData>, m: MatchPair, r: Clustering, a: Loc, b: Loc, i: nat)
    requires Reads(files, [m], r) && IsFirst(m, a) && IsSecond(m, b) && InGroup(r, i, a) && InGroup(r, i, b)
    requires forall i, j | InGroup(r, i, a) && InGroup(r, j, a) :: i == j
    requires forall i, j | InGroup(r, i, b) && InGroup(r, j, b) :: i == j
    ensures |r.groups| == 1 && i == 0 && forall c <- r.groups[0].locations :: c == a || c == b
  {
    hide Reads;
    ThatGroup(files, m, r, a, b, i, 0);
    ThatGroup(files, m, r, a, b, i, |r.groups| - 1);
  }

  lemma ThatGroup(files: seq<FileData>, m: MatchPair, r: Clustering, a: Loc, b: Loc, i: nat, j: nat)
    requires Reads(files, [m], r) && IsFirst(m, a) && IsSecond(m, b) && InGroup(r, i, a) && InGroup(r, i, b)
    requires forall i, j | InGroup(r, i, a) && InGroup(r, j, a) :: i == j
    requires forall i, j | InGroup(r, i, b) && InGroup(r, j, b) :: i == j
    requires j < |r.groups|
    ensures j == i && forall c <- r.groups[j].locations :: c == a || c == b
  {
    hide InOrder, IsGreatest, IsOriginal, GroupEarlier, IsCodeLine, OccursAfterFirst;
    var list := r.groups[j].locations;
    assert AreMatched([m], list);
    forall c | c in list
      ensures c == a || c == b
    {
      assert Touches(m, c);
    }
    assert list[0] in list;
    assert InGroup(r, j, list[0]);
  }

  lemma PairInOrder(files: seq<FileData>, list: seq<Loc>, a: Loc, b: Loc)
    requires LocsInFiles(files, list) && InOrder(files, list) && Orders.NoRepeats(list)
    requires a in list && b in list && (forall c <- list :: c == a || c == b) && a.file == b.file && a.start < b.start
    ensures list == [a, b]
  {
    hide Orders.ComesFirst;
    KeyOrder(files, a, b);
    var i :| 0 <= i < |list| && list[i] == a;
    var j :| 0 <= j < |list| && list[j] == b;
    assert Earlier(files, a, b) && !Earlier(files, b, a) && !SamePlace(files, b, a);
    assert i < j;
    forall k | 0 <= k < |list|
      ensures (list[k] == a && k == i) || (list[k] == b && k == j)
    {
      assert list[k] in list;
    }
    assert Orders.Elements(list) == {a, b};
    Orders.ElementsSize(list);
  }

  lemma FirstIsOriginal(m: MatchPair, a: Loc, b: Loc, size: nat, original: Loc)
    requires IsFirst(m, a) && IsSecond(m, b)
    requires IsGreatest([m], [a, b], size) && IsOriginal([m], [a, b], size, original)
    ensures size == m.size && original == a
  {
    assert Touches(m, a) && a in [a, b] && m in [m];
    assert Reaches([m], [a, b][0], m.size);
  }

  /** One match of two stretches of one file: the stretch that starts first is the original, and the code lines
    of the other one are duplicated. */
  lemma OneMatch(files: seq<FileData>, m: MatchPair, r: Clustering, a: Loc, b: Loc)
    requires IsFirst(m, a) && IsSecond(m, b) && a.file == b.file < |files| && a.start < b.start
    requires Clusters(files, [m], r)
    ensures r.groups == [CloneGroup(1, m.size, a, [a, b])]
    ensures forall f: nat, line: nat ::
      (f, line) in r.duplicated <==> f == b.file && b.start <= line <= b.end && IsCodeLine(files, f, line)
  {
    ClustersRead(files, [m], r);
    MatchesAreGrouped(files, [m], r, m, a, b);
    hide Clusters, IsCodeLine, IsOriginal, InOrder, GroupEarlier;
    var i :| InGroup(r, i, a) && InGroup(r, i, b);
    OnlyGroup(files, m, r, a, b, i);
    var g := r.groups[0];
    PairInOrder(files, g.locations, a, b);
    FirstIsOriginal(m, a, b, g.lineCount, g.representative);
    forall f: nat, line: nat
      ensures OccursAfterFirst(r, f, line) <==> f == b.file && b.start <= line <= b.end
    {
      assert r.groups[0].locations[1] == b;
    }
  }
}
