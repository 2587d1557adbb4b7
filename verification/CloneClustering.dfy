/** Clone groups: ordered connected components of the pairwise matches. */
module CloneClustering {
  import opened Basics
  import opened CloneGraph
  import opened SeedMatching
  import opened DuplicateRuns
  import Orders

  /** One group; the fingerprint, language and snippet of the original are those of `representative`. */
  datatype CloneGroup = CloneGroup(index: nat, lineCount: nat, representative: Loc, locations: seq<Loc>)

  datatype Clustering = Clustering(groups: seq<CloneGroup>, duplicated: set<(nat, nat)>)

  function First(m: MatchPair): Loc {
    Loc(m.firstFile, m.firstStart, m.firstEnd)
  }

  function Second(m: MatchPair): Loc {
    Loc(m.secondFile, m.secondStart, m.secondEnd)
  }

  // ------------------------------------------------------------ the match graph

  predicate IsFirst(m: MatchPair, a: Loc) {
    a.file == m.firstFile && a.start == m.firstStart && a.end == m.firstEnd
  }

  predicate IsSecond(m: MatchPair, a: Loc) {
    a.file == m.secondFile && a.start == m.secondStart && a.end == m.secondEnd
  }

  predicate Linked(m: MatchPair, a: Loc, b: Loc) {
    (IsFirst(m, a) && IsSecond(m, b)) || (IsFirst(m, b) && IsSecond(m, a))
  }

  predicate Touches(m: MatchPair, a: Loc) {
    IsFirst(m, a) || IsSecond(m, a)
  }

  /** Locations are adjacent iff some match pairs them. */
  ghost predicate IsGraphOf(g: Graph, matches: seq<MatchPair>) {
    && (forall a :: a in g <==> exists m :: m in matches && Touches(m, a))
    && (forall a, b | a in g :: b in g[a] <==> exists m :: m in matches && Linked(m, a, b))
  }

  /** The longest match of every location. */
  ghost predicate IsLengthOf(length: map<Loc, nat>, matches: seq<MatchPair>) {
    && (forall a :: a in length <==> exists m :: m in matches && Touches(m, a))
    && (forall m, a | m in matches && Touches(m, a) :: a in length && m.size <= length[a])
    && (forall a <- length :: exists m :: m in matches && Touches(m, a) && m.size == length[a])
  }

  lemma GraphSymmetric(g: Graph, matches: seq<MatchPair>)
    requires IsGraphOf(g, matches)
    ensures Symmetric(g)
  {
  }

  /** The graph and the lengths depend on the matches only as a set. */
  lemma SameMatchesSameGraph(g: Graph, h: Graph, k: map<Loc, nat>, l: map<Loc, nat>,
                             matches: seq<MatchPair>, others: seq<MatchPair>)
    requires IsGraphOf(g, matches) && IsGraphOf(h, others) && IsLengthOf(k, matches) && IsLengthOf(l, others)
    requires forall m :: m in matches <==> m in others
    ensures g == h && k == l
  {
    SameGraph(g, h, matches, others);
    SameLengths(k, l, matches, others);
  }

  lemma SameGraph(g: Graph, h: Graph, matches: seq<MatchPair>, others: seq<MatchPair>)
    requires IsGraphOf(g, matches) && IsGraphOf(h, others)
    requires forall m :: m in matches <==> m in others
    ensures g == h
  {
    assert g.Keys == h.Keys;
    forall a | a in g
      ensures g[a] == h[a]
    {
      forall b
        ensures b in g[a] <==> b in h[a]
      {
        if b in g[a] {
          var m :| m in matches && Linked(m, a, b);
          assert m in others;
        }
        if b in h[a] {
          var m :| m in others && Linked(m, a, b);
          assert m in matches;
        }
      }
    }
  }

  lemma SameLengths(k: map<Loc, nat>, l: map<Loc, nat>, matches: seq<MatchPair>, others: seq<MatchPair>)
    requires IsLengthOf(k, matches) && IsLengthOf(l, others)
    requires forall m :: m in matches <==> m in others
    ensures k == l
  {
    hide Touches;
    assert k.Keys == l.Keys;
    forall a | a in k
      ensures k[a] == l[a]
    {
      var m :| m in matches && Touches(m, a) && m.size == k[a];
      assert m in others;
      var n :| n in others && Touches(n, a) && n.size == l[a];
      assert n in matches;
    }
  }

  function AddNeighbour(g: Graph, a: Loc, b: Loc): Graph {
    g[a := (if a in g then g[a] else {}) + {b}]
  }

  function Lengthen(length: map<Loc, nat>, a: Loc, size: nat): map<Loc, nat> {
    length[a := Max(if a in length then length[a] else 0, size)]
  }

  method BuildGraph(matches: seq<MatchPair>) returns (g: Graph, length: map<Loc, nat>)
    ensures IsGraphOf(g, matches) && IsLengthOf(length, matches)
  {
    g, length := map[], map[];
    hide AddNeighbour, Lengthen, First, Second;
    for k := 0 to |matches|
      invariant IsGraphOf(g, matches[..k]) && IsLengthOf(length, matches[..k])
    {
      hide IsGraphOf, IsLengthOf;
      var m := matches[k];
      GraphStep(g, matches[..k], m);
      LengthStep(length, matches[..k], m);
      assert matches[..k + 1] == matches[..k] + [m];
      g := AddNeighbour(g, First(m), Second(m));
      g := AddNeighbour(g, Second(m), First(m));
      length := Lengthen(length, First(m), m.size);
      length := Lengthen(length, Second(m), m.size);
    }
    assert matches[..|matches|] == matches;
  }

  lemma GraphStep(g: Graph, matches: seq<MatchPair>, m: MatchPair)
    requires IsGraphOf(g, matches)
    ensures IsGraphOf(AddNeighbour(AddNeighbour(g, First(m), Second(m)), Second(m), First(m)), matches + [m])
  {
    var h := AddNeighbour(AddNeighbour(g, First(m), Second(m)), Second(m), First(m));
    var more := matches + [m];
    assert forall x :: x in more <==> x in matches || x == m;
    assert h.Keys == g.Keys + {First(m), Second(m)};
    assert forall a, b | a in h :: b in h[a] <==> (a in g && b in g[a]) || Linked(m, a, b);
    hide AddNeighbour, Linked;
    forall a
      ensures a in h <==> exists x :: x in more && Touches(x, a)
    {
      if a in g {
        var x :| x in matches && Touches(x, a);
        assert x in more;
      } else if a in h {
        assert m in more && Touches(m, a);
      }
    }
    forall a, b | a in h
      ensures b in h[a] <==> exists x :: x in more && Linked(x, a, b)
    {
      if a in g && b in g[a] {
        var x :| x in matches && Linked(x, a, b);
        assert x in more;
      } else if Linked(m, a, b) {
        assert m in more;
      } else if x :| x in more && Linked(x, a, b) {
        LinkTouches(x, a, b);
      }
    }
  }

  lemma LinkTouches(m: MatchPair, a: Loc, b: Loc)
    requires Linked(m, a, b)
    ensures Touches(m, a) && Touches(m, b)
  {
  }

  ghost predicate Lengthened(length: map<Loc, nat>, longer: map<Loc, nat>, m: MatchPair) {
    && (forall a :: a in longer <==> a in length || Touches(m, a))
    && (forall a | a in length :: length[a] <= longer[a])
    && (forall a | Touches(m, a) :: m.size <= longer[a])
    && (forall a | a in longer :: (a in length && longer[a] == length[a]) || (Touches(m, a) && longer[a] == m.size))
  }

  lemma LengthStep(length: map<Loc, nat>, matches: seq<MatchPair>, m: MatchPair)
    requires IsLengthOf(length, matches)
    ensures IsLengthOf(Lengthen(Lengthen(length, First(m), m.size), Second(m), m.size), matches + [m])
  {
    var longer := Lengthen(Lengthen(length, First(m), m.size), Second(m), m.size);
    LengthenBoth(length, m);
    hide Lengthened, Lengthen, IsLengthOf;
    LengthenedKeys(length, longer, matches, m);
    LengthenedBound(length, longer, matches, m);
    LengthenedReached(length, longer, matches, m);
    LengthFrom(longer, matches + [m]);
  }

  lemma LengthFrom(length: map<Loc, nat>, matches: seq<MatchPair>)
    requires forall a :: a in length <==> exists m :: m in matches && Touches(m, a)
    requires forall m, a | m in matches && Touches(m, a) :: a in length && m.size <= length[a]
    requires forall a <- length :: exists m :: m in matches && Touches(m, a) && m.size == length[a]
    ensures IsLengthOf(length, matches)
  {
  }

  lemma LengthenBoth(length: map<Loc, nat>, m: MatchPair)
    ensures Lengthened(length, Lengthen(Lengthen(length, First(m), m.size), Second(m), m.size), m)
  {
  }

  lemma LengthenedKeys(length: map<Loc, nat>, longer: map<Loc, nat>, matches: seq<MatchPair>, m: MatchPair)
    requires IsLengthOf(length, matches) && Lengthened(length, longer, m)
    ensures forall a :: a in longer <==> exists x :: x in matches + [m] && Touches(x, a)
  {
  }

  lemma LengthenedBound(length: map<Loc, nat>, longer: map<Loc, nat>, matches: seq<MatchPair>, m: MatchPair)
    requires IsLengthOf(length, matches) && Lengthened(length, longer, m)
    ensures forall x, a | x in matches + [m] && Touches(x, a) :: a in longer && x.size <= longer[a]
  {
  }

  lemma LengthenedReached(length: map<Loc, nat>, longer: map<Loc, nat>, matches: seq<MatchPair>, m: MatchPair)
    requires IsLengthOf(length, matches) && Lengthened(length, longer, m)
    ensures forall a <- longer :: exists x :: x in matches + [m] && Touches(x, a) && x.size == longer[a]
  {
  }

  // ----------------------------------------------------------------- sort keys

  datatype LocKey = LocKey(path: string, start: nat, end: nat)

  predicate LocKeyLess(a: LocKey, b: LocKey) {
    || Orders.StringLess(a.path, b.path)
    || (a.path == b.path && (a.start < b.start || (a.start == b.start && a.end < b.end)))
  }

  /** Descending longest match, descending size, then the locations. */
  datatype ClusterKey = ClusterKey(minusLongest: int, minusSize: int, locations: seq<LocKey>)

  predicate ClusterKeyLess(a: ClusterKey, b: ClusterKey) {
    || a.minusLongest < b.minusLongest
    || (a.minusLongest == b.minusLongest &&
        (a.minusSize < b.minusSize ||
         (a.minusSize == b.minusSize && Orders.LexLess(LocKeyLess, a.locations, b.locations))))
  }

  lemma LocKeyLessIsTotal()
    ensures Orders.StrictTotalOrder(LocKeyLess)
  {
    Orders.StringLessIsTotal();
    hide Orders.StringLess;
    forall a, b, c | LocKeyLess(a, b) && LocKeyLess(b, c)
      ensures LocKeyLess(a, c)
    {
    }
    forall a: LocKey, b: LocKey | a != b
      ensures LocKeyLess(a, b) || LocKeyLess(b, a)
    {
    }
  }

  lemma ClusterKeyLessIsTotal()
    ensures Orders.StrictTotalOrder(ClusterKeyLess)
  {
    LocKeyLessIsTotal();
    hide Orders.LexLess, LocKeyLess, Orders.StrictTotalOrder;
    forall a
      ensures !ClusterKeyLess(a, a)
    {
      Orders.LexIrreflexive(LocKeyLess, a.locations);
    }
    forall a, b, c | ClusterKeyLess(a, b) && ClusterKeyLess(b, c)
      ensures ClusterKeyLess(a, c)
    {
      if Orders.LexLess(LocKeyLess, a.locations, b.locations) && Orders.LexLess(LocKeyLess, b.locations, c.locations) {
        Orders.LexTransitive(LocKeyLess, a.locations, b.locations, c.locations);
      }
    }
    forall a: ClusterKey, b: ClusterKey | a != b
      ensures ClusterKeyLess(a, b) || ClusterKeyLess(b, a)
    {
      if a.locations != b.locations {
        Orders.LexConnected(LocKeyLess, a.locations, b.locations);
      }
    }
    TotalFrom();
  }

  lemma TotalFrom()
    requires forall a :: !ClusterKeyLess(a, a)
    requires forall a, b, c | ClusterKeyLess(a, b) && ClusterKeyLess(b, c) :: ClusterKeyLess(a, c)
    requires forall a: ClusterKey, b: ClusterKey | a != b :: ClusterKeyLess(a, b) || ClusterKeyLess(b, a)
    ensures Orders.StrictTotalOrder(ClusterKeyLess)
  {
  }

  function LocKeyOf(files: seq<FileData>, loc: Loc): LocKey {
    LocKey(if loc.file < |files| then files[loc.file].path else "", loc.start, loc.end)
  }

  function LocKeyBy(files: seq<FileData>): Loc -> LocKey {
    (loc: Loc) => LocKeyOf(files, loc)
  }

  function LengthAt(length: map<Loc, nat>, loc: Loc): nat {
    if loc in length then length[loc] else 0
  }

  /** The longest match length in a cluster. */
  function Longest(length: map<Loc, nat>, cluster: seq<Loc>): nat {
    if cluster == [] then 0 else Max(LengthAt(length, cluster[0]), Longest(length, cluster[1..]))
  }

  function KeysOf(files: seq<FileData>, cluster: seq<Loc>): seq<LocKey> {
    seq(|cluster|, i requires 0 <= i < |cluster| => LocKeyOf(files, cluster[i]))
  }

  function ClusterKeyOf(files: seq<FileData>, length: map<Loc, nat>, cluster: seq<Loc>): ClusterKey {
    ClusterKey(-(Longest(length, cluster) as int), -(|cluster| as int), KeysOf(files, cluster))
  }

  function ClusterKeyBy(files: seq<FileData>, length: map<Loc, nat>): seq<Loc> -> ClusterKey {
    (cluster: seq<Loc>) => ClusterKeyOf(files, length, cluster)
  }

  // ------------------------------------------------------------- ordered groups

  /** The components, each sorted by location, sorted as groups. */
  ghost predicate IsOrdered(files: seq<FileData>, g: Graph, length: map<Loc, nat>, clusters: seq<seq<Loc>>) {
    && Partitions(g, clusters)
    && (forall c <- clusters :: Orders.SortedByKey(LocKeyBy(files), LocKeyLess, c))
    && Orders.SortedByKey(ClusterKeyBy(files, length), ClusterKeyLess, clusters)
  }

  ghost predicate DistinctPaths(files: seq<FileData>) {
    forall i, j | 0 <= i < j < |files| :: files[i].path != files[j].path
  }

  ghost predicate InFiles(files: seq<FileData>, g: Graph) {
    forall a <- g :: a.file < |files|
  }

  lemma KeyTellsApart(files: seq<FileData>, a: Loc, b: Loc)
    requires DistinctPaths(files) && a.file < |files| && b.file < |files|
    requires LocKeyOf(files, a) == LocKeyOf(files, b)
    ensures a == b
  {
  }

  /** Sorted components that share a location are equal. */
  lemma SharedComponent(files: seq<FileData>, g: Graph, c: seq<Loc>, d: seq<Loc>, a: Loc)
    requires DistinctPaths(files) && InFiles(files, g)
    requires IsComponent(g, c) && IsComponent(g, d) && a in c && a in d
    requires Orders.SortedByKey(LocKeyBy(files), LocKeyLess, c) && Orders.SortedByKey(LocKeyBy(files), LocKeyLess, d)
    ensures c == d
  {
    forall b
      ensures b in Orders.Elements(c) <==> b in Orders.Elements(d)
    {
      assert b in c <==> Connected(g, a, b);
      assert b in d <==> Connected(g, a, b);
    }
    hide Connected, LocKeyLess;
    forall x, y | x in c && y in c && LocKeyBy(files)(x) == LocKeyBy(files)(y)
      ensures x == y
    {
      KeyTellsApart(files, x, y);
    }
    LocKeyLessIsTotal();
    Orders.SortedByKeyUnique(LocKeyBy(files), LocKeyLess, c, d);
  }

  lemma ClusterFound(files: seq<FileData>, g: Graph, length: map<Loc, nat>, a: seq<seq<Loc>>, b: seq<seq<Loc>>,
                     c: seq<Loc>)
    requires DistinctPaths(files) && InFiles(files, g)
    requires IsOrdered(files, g, length, a) && IsOrdered(files, g, length, b) && c in a
    ensures c in b
  {
    hide Orders.SortedByKey, LocKeyLess;
    assert c[0] in c && c[0] in g;
    assert Covered(b, c[0]);
    var i :| 0 <= i < |b| && c[0] in b[i];
    SharedComponent(files, g, c, b[i], c[0]);
  }

  lemma ClusterKeyTellsApart(files: seq<FileData>, g: Graph, length: map<Loc, nat>, c: seq<Loc>, d: seq<Loc>)
    requires DistinctPaths(files) && InFiles(files, g) && IsComponent(g, c) && IsComponent(g, d)
    requires ClusterKeyOf(files, length, c) == ClusterKeyOf(files, length, d)
    ensures c == d
  {
    hide Longest;
    forall i | 0 <= i < |c|
      ensures c[i] == d[i]
    {
      assert KeysOf(files, c)[i] == KeysOf(files, d)[i];
      assert c[i] in c && d[i] in d;
      KeyTellsApart(files, c[i], d[i]);
    }
  }

  /** With distinct paths there is only one way to order the components. */
  lemma OrderedUnique(files: seq<FileData>, g: Graph, length: map<Loc, nat>, a: seq<seq<Loc>>, b: seq<seq<Loc>>)
    requires DistinctPaths(files) && InFiles(files, g)
    requires IsOrdered(files, g, length, a) && IsOrdered(files, g, length, b)
    ensures a == b
  {
    forall c
      ensures c in Orders.Elements(a) <==> c in Orders.Elements(b)
    {
      if c in a {
        ClusterFound(files, g, length, a, b, c);
      }
      if c in b {
        ClusterFound(files, g, length, b, a, c);
      }
    }
    forall c, d | c in a && d in a && ClusterKeyBy(files, length)(c) == ClusterKeyBy(files, length)(d)
      ensures c == d
    {
      ClusterKeyTellsApart(files, g, length, c, d);
    }
    ClusterKeyLessIsTotal();
    hide LocKeyLess, ClusterKeyLess, Partitions, DistinctPaths, InFiles;
    Orders.SortedByKeyUnique(ClusterKeyBy(files, length), ClusterKeyLess, a, b);
  }

  // ------------------------------------------------------------------- results

  /** Whether `a` represents its group better than `b`: longer match, then smaller location. */
  predicate Represents(files: seq<FileData>, length: map<Loc, nat>, a: Loc, b: Loc) {
    || LengthAt(length, a) > LengthAt(length, b)
    || (LengthAt(length, a) == LengthAt(length, b) && LocKeyLess(LocKeyOf(files, a), LocKeyOf(files, b)))
  }

  /** `min(cluster, key=...)`: the first location no other one represents better. */
  function Representative(files: seq<FileData>, length: map<Loc, nat>, cluster: seq<Loc>): Loc
    requires cluster != []
  {
    if |cluster| == 1 then cluster[0]
    else
      var best := Representative(files, length, cluster[..|cluster| - 1]);
      var last := cluster[|cluster| - 1];
      if Represents(files, length, last, best) then last else best
  }

  lemma {:induction false} RepresentativeIsBest(files: seq<FileData>, length: map<Loc, nat>, cluster: seq<Loc>)
    requires cluster != []
    ensures Representative(files, length, cluster) in cluster
    ensures forall a <- cluster :: !Represents(files, length, a, Representative(files, length, cluster))
  {
    LocKeyLessIsTotal();
    if |cluster| > 1 {
      var init, last := cluster[..|cluster| - 1], cluster[|cluster| - 1];
      RepresentativeIsBest(files, length, init);
      assert cluster == init + [last];
      hide LocKeyLess;
    } else {
      hide LocKeyLess;
    }
  }

  function GroupOf(files: seq<FileData>, length: map<Loc, nat>, clusters: seq<seq<Loc>>, i: nat): CloneGroup
    requires i < |clusters| && clusters[i] != []
  {
    CloneGroup(i + 1, Longest(length, clusters[i]), Representative(files, length, clusters[i]), clusters[i])
  }

  function CodeLines(file: FileData): set<nat> {
    set i | 0 <= i < |file.indexed| :: file.indexed[i].line
  }

  /** Line `line` of file `f` is a code line in an occurrence that is not the first of its group. */
  ghost predicate Duplicated(files: seq<FileData>, clusters: seq<seq<Loc>>, f: nat, line: nat) {
    f < |files| && line in CodeLines(files[f]) && exists i, j {:trigger clusters[i][j]} ::
      0 <= i < |clusters| && 0 < j < |clusters[i]| && Holds(clusters[i][j], f, line)
  }

  predicate Holds(loc: Loc, f: nat, line: nat) {
    loc.file == f && loc.start <= line <= loc.end
  }

  /** What `ClusterMatches` returns for the clusters it ordered. */
  ghost predicate IsResult(files: seq<FileData>, length: map<Loc, nat>, clusters: seq<seq<Loc>>, result: Clustering) {
    && (forall i | 0 <= i < |clusters| :: clusters[i] != [])
    && |result.groups| == |clusters|
    && (forall i | 0 <= i < |clusters| :: result.groups[i] == GroupOf(files, length, clusters, i))
    && (forall f: nat, line: nat :: (f, line) in result.duplicated <==> Duplicated(files, clusters, f, line))
  }

  /** The specification of clustering. */
  ghost predicate Clusters(files: seq<FileData>, matches: seq<MatchPair>, result: Clustering) {
    exists g, length, clusters ::
      && IsGraphOf(g, matches) && IsLengthOf(length, matches)
      && IsOrdered(files, g, length, clusters) && IsResult(files, length, clusters, result)
  }

  // --------------------------------------------------------------------- driver

  /** Tuple order of locations. */
  predicate LocLess(a: Loc, b: Loc) {
    a.file < b.file || (a.file == b.file && (a.start < b.start || (a.start == b.start && a.end < b.end)))
  }

  function SortedCluster(files: seq<FileData>, cluster: seq<Loc>): seq<Loc> {
    Orders.SortByKey(LocKeyBy(files), LocKeyLess, cluster)
  }

  lemma SortedComponent(files: seq<FileData>, g: Graph, cluster: seq<Loc>)
    requires IsComponent(g, cluster)
    ensures IsComponent(g, SortedCluster(files, cluster))
    ensures Orders.SortedByKey(LocKeyBy(files), LocKeyLess, SortedCluster(files, cluster))
    ensures forall a :: a in SortedCluster(files, cluster) <==> a in cluster
  {
    LocKeyLessIsTotal();
    hide LocKeyLess, Connected, Orders.SortByKey;
    Orders.SortByKeySorts(LocKeyBy(files), LocKeyLess, cluster);
    Orders.PermutedMembers(cluster, SortedCluster(files, cluster));
  }

  /** Sorting inside the clusters keeps the partition. */
  lemma SortedPartition(files: seq<FileData>, g: Graph, clusters: seq<seq<Loc>>, r: seq<seq<Loc>>)
    requires Partitions(g, clusters) && |r| == |clusters|
    requires forall i | 0 <= i < |r| :: r[i] == SortedCluster(files, clusters[i])
    ensures Partitions(g, r)
    ensures forall c <- r :: Orders.SortedByKey(LocKeyBy(files), LocKeyLess, c)
  {
    hide IsComponent, SortedCluster, Orders.SortedByKey, LocKeyLess;
    forall i | 0 <= i < |r|
      ensures IsComponent(g, r[i]) && Orders.SortedByKey(LocKeyBy(files), LocKeyLess, r[i])
      ensures forall a :: a in r[i] <==> a in clusters[i]
    {
      assert clusters[i] in clusters;
      SortedComponent(files, g, clusters[i]);
    }
    forall i, j | 0 <= i < |r| && 0 <= j < |r| && i != j
      ensures Disjoint(r[i], r[j]) && r[i] != r[j]
    {
      assert clusters[i] in clusters && clusters[j] in clusters && clusters[i] != clusters[j];
      assert Disjoint(clusters[i], clusters[j]);
      ComponentNotEmpty(g, r[i]);
      assert r[i][0] in r[i];
    }
    forall a | a in g
      ensures Covered(r, a)
    {
      assert Covered(clusters, a);
      var i :| 0 <= i < |clusters| && a in clusters[i];
      assert a in r[i];
    }
  }

  lemma ComponentNotEmpty(g: Graph, c: seq<Loc>)
    requires IsComponent(g, c)
    ensures c != []
  {
  }

  lemma PermutedPartition(g: Graph, clusters: seq<seq<Loc>>, r: seq<seq<Loc>>)
    requires Partitions(g, clusters) && multiset(clusters) == multiset(r)
    ensures Partitions(g, r)
  {
    hide IsComponent, Disjoint;
    Orders.PermutedMembers(clusters, r);
    forall a | a in g
      ensures Covered(r, a)
    {
      assert Covered(clusters, a);
      var i :| 0 <= i < |clusters| && a in clusters[i];
      assert clusters[i] in r;
      var j :| 0 <= j < |r| && r[j] == clusters[i];
    }
  }

  method OrderClusters(files: seq<FileData>, g: Graph, length: map<Loc, nat>, clusters: seq<seq<Loc>>)
    returns (ordered: seq<seq<Loc>>)
    requires Partitions(g, clusters)
    ensures IsOrdered(files, g, length, ordered)
  {
    hide Partitions, LocKeyLess, ClusterKeyLess, Orders.SortedByKey, SortedCluster, Orders.SortByKey;
    var r: seq<seq<Loc>> := [];
    for i := 0 to |clusters|
      invariant |r| == i
      invariant forall k | 0 <= k < i :: r[k] == SortedCluster(files, clusters[k])
    {
      r := r + [SortedCluster(files, clusters[i])];
    }
    SortedPartition(files, g, clusters, r);
    ordered := Orders.SortByKey(ClusterKeyBy(files, length), ClusterKeyLess, r);
    ClusterKeyLessIsTotal();
    Orders.SortByKeySorts(ClusterKeyBy(files, length), ClusterKeyLess, r);
    PermutedPartition(g, r, ordered);
    Orders.PermutedMembers(r, ordered);
  }

  /** Adds the code lines of one occurrence. */
  method AddDuplicated(loc: Loc, counted: set<nat>, duplicated: set<(nat, nat)>) returns (r: set<(nat, nat)>)
    ensures forall f: nat, line: nat ::
      (f, line) in r <==> (f, line) in duplicated || (Holds(loc, f, line) && line in counted)
  {
    r := duplicated;
    if loc.start > loc.end {
      return;
    }
    for line := loc.start to loc.end + 1
      invariant forall f: nat, l: nat ::
        (f, l) in r <==> (f, l) in duplicated || (Holds(loc, f, l) && l < line && l in counted)
    {
      if line in counted {
        r := r + {(loc.file, line)};
      }
    }
  }

  /** Like Duplicated, for the first `n` clusters and the first `k` occurrences of the next one. */
  ghost predicate DuplicatedUpTo(files: seq<FileData>, clusters: seq<seq<Loc>>, n: nat, k: nat, f: nat, line: nat) {
    f < |files| && line in CodeLines(files[f]) && exists i, j {:trigger clusters[i][j]} ::
      0 <= i < |clusters| && 0 < j < |clusters[i]| && (i < n || (i == n && j < k)) && Holds(clusters[i][j], f, line)
  }

  lemma DuplicatedStep(files: seq<FileData>, clusters: seq<seq<Loc>>, n: nat, k: nat, f: nat, line: nat)
    requires n < |clusters| && 0 < k < |clusters[n]| && clusters[n][k].file < |files|
    ensures DuplicatedUpTo(files, clusters, n, k + 1, f, line) <==>
      || DuplicatedUpTo(files, clusters, n, k, f, line)
      || (Holds(clusters[n][k], f, line) && line in CodeLines(files[clusters[n][k].file]))
  {
  }

  lemma DuplicatedNext(files: seq<FileData>, clusters: seq<seq<Loc>>, n: nat, f: nat, line: nat)
    requires n < |clusters|
    ensures DuplicatedUpTo(files, clusters, n, |clusters[n]|, f, line) <==>
            DuplicatedUpTo(files, clusters, n + 1, 1, f, line)
  {
  }

  method DuplicatedPositions(files: seq<FileData>, clusters: seq<seq<Loc>>) returns (duplicated: set<(nat, nat)>)
    requires forall i, j | 0 <= i < |clusters| && 0 <= j < |clusters[i]| :: clusters[i][j].file < |files|
    requires forall i | 0 <= i < |clusters| :: clusters[i] != []
    ensures forall f: nat, line: nat :: (f, line) in duplicated <==> Duplicated(files, clusters, f, line)
  {
    duplicated := {};
    for n := 0 to |clusters|
      invariant forall f: nat, line: nat :: (f, line) in duplicated <==> DuplicatedUpTo(files, clusters, n, 1, f, line)
    {
      hide DuplicatedUpTo, CodeLines, Holds;
      for k := 1 to |clusters[n]|
        invariant forall f: nat, line: nat ::
          (f, line) in duplicated <==> DuplicatedUpTo(files, clusters, n, k, f, line)
      {
        ghost var before := duplicated;
        duplicated := AddDuplicated(clusters[n][k], CodeLines(files[clusters[n][k].file]), duplicated);
        forall f: nat, line: nat
          ensures (f, line) in duplicated <==> DuplicatedUpTo(files, clusters, n, k + 1, f, line)
        {
          DuplicatedStep(files, clusters, n, k, f, line);
        }
      }
      forall f: nat, line: nat
        ensures (f, line) in duplicated <==> DuplicatedUpTo(files, clusters, n + 1, 1, f, line)
      {
        DuplicatedNext(files, clusters, n, f, line);
      }
    }
  }

  method ClusterMatches(files: seq<FileData>, matches: seq<MatchPair>) returns (result: Clustering)
    requires forall m <- matches :: m.firstFile < |files| && m.secondFile < |files|
    ensures Clusters(files, matches, result)
  {
    var g, length := BuildGraph(matches);
    GraphSymmetric(g, matches);
    GraphInFiles(files, g, matches);
    hide IsGraphOf, IsLengthOf, Partitions, Orders.SortedByKey, Duplicated, Longest, Representative, Symmetric;
    var nodes := Orders.SortSet(LocLess, g.Keys);
    assert forall a :: a in nodes <==> a in Orders.Elements(nodes);
    var clusters := CollectComponents(g, nodes);
    clusters := OrderClusters(files, g, length, clusters);
    ClustersInFiles(files, g, clusters);
    var groups: seq<CloneGroup> := [];
    for i := 0 to |clusters|
      invariant |groups| == i
      invariant forall k | 0 <= k < i :: groups[k] == GroupOf(files, length, clusters, k)
    {
      groups := groups + [GroupOf(files, length, clusters, i)];
    }
    var duplicated := DuplicatedPositions(files, clusters);
    result := Clustering(groups, duplicated);
    assert IsResult(files, length, clusters, result);
  }

  lemma GraphInFiles(files: seq<FileData>, g: Graph, matches: seq<MatchPair>)
    requires IsGraphOf(g, matches)
    requires forall m <- matches :: m.firstFile < |files| && m.secondFile < |files|
    ensures InFiles(files, g)
  {
  }

  lemma ClustersInFiles(files: seq<FileData>, g: Graph, clusters: seq<seq<Loc>>)
    requires InFiles(files, g) && Partitions(g, clusters)
    ensures forall i | 0 <= i < |clusters| :: clusters[i] != []
    ensures forall i, j | 0 <= i < |clusters| && 0 <= j < |clusters[i]| :: clusters[i][j].file < |files|
  {
    forall i | 0 <= i < |clusters|
      ensures clusters[i] != [] && forall j | 0 <= j < |clusters[i]| :: clusters[i][j].file < |files|
    {
      assert clusters[i] in clusters;
      assert forall j | 0 <= j < |clusters[i]| :: clusters[i][j] in clusters[i];
    }
  }

  // ------------------------------------------------------------------- theorems

  /** The clusters determine the result. */
  lemma ResultDetermined(files: seq<FileData>, length: map<Loc, nat>, clusters: seq<seq<Loc>>, r: Clustering,
                         s: Clustering)
    requires IsResult(files, length, clusters, r) && IsResult(files, length, clusters, s)
    ensures r == s
  {
    hide Duplicated, GroupOf;
    assert r.groups == s.groups;
    forall p
      ensures p in r.duplicated <==> p in s.duplicated
    {
      assert (p.0, p.1) in r.duplicated <==> (p.0, p.1) in s.duplicated;
    }
    assert r.duplicated == s.duplicated;
  }

  /** With distinct paths the result depends on the matches only as a set: any order, any repetition. */
  lemma ResultIsCanonical(files: seq<FileData>, matches: seq<MatchPair>, others: seq<MatchPair>, r: Clustering,
                          s: Clustering)
    requires DistinctPaths(files)
    requires forall m <- matches :: m.firstFile < |files| && m.secondFile < |files|
    requires forall m :: m in matches <==> m in others
    requires Clusters(files, matches, r) && Clusters(files, others, s)
    ensures r == s
  {
    hide IsGraphOf, IsLengthOf, IsOrdered, IsResult, DistinctPaths, InFiles;
    var g, k, a :| IsGraphOf(g, matches) && IsLengthOf(k, matches) && IsOrdered(files, g, k, a)
      && IsResult(files, k, a, r);
    var h, l, b :| IsGraphOf(h, others) && IsLengthOf(l, others) && IsOrdered(files, h, l, b)
      && IsResult(files, l, b, s);
    SameMatchesSameGraph(g, h, k, l, matches, others);
    GraphInFiles(files, g, matches);
    OrderedUnique(files, g, k, a, b);
    ResultDetermined(files, k, a, r, s);
  }

  ghost predicate InGroup(r: Clustering, i: nat, a: Loc) {
    i < |r.groups| && a in r.groups[i].locations
  }

  lemma ClustersAreComponents(g: Graph, clusters: seq<seq<Loc>>, a: Loc, b: Loc)
    requires Partitions(g, clusters) && a in g
    ensures Covered(clusters, a)
    ensures forall i | 0 <= i < |clusters| && a in clusters[i] :: b in clusters[i] <==> Connected(g, a, b)
    ensures forall i, j | 0 <= i < |clusters| && 0 <= j < |clusters| && a in clusters[i] && a in clusters[j] :: i == j
  {
    hide Connected;
    forall i | 0 <= i < |clusters| && a in clusters[i]
      ensures b in clusters[i] <==> Connected(g, a, b)
    {
      assert clusters[i] in clusters;
    }
    forall i, j | 0 <= i < |clusters| && 0 <= j < |clusters| && a in clusters[i] && a in clusters[j]
      ensures i == j
    {
      assert clusters[i] in clusters && clusters[j] in clusters;
    }
  }

  lemma GroupLocations(files: seq<FileData>, length: map<Loc, nat>, clusters: seq<seq<Loc>>, r: Clustering)
    requires IsResult(files, length, clusters, r)
    ensures |r.groups| == |clusters| && forall i | 0 <= i < |clusters| :: r.groups[i].locations == clusters[i]
  {
  }

  /** Two matched locations are in one group exactly when a chain of matches joins them. */
  lemma GroupsAreComponents(files: seq<FileData>, matches: seq<MatchPair>, r: Clustering, g: Graph, a: Loc, b: Loc)
    requires Clusters(files, matches, r) && IsGraphOf(g, matches) && a in g
    ensures exists i :: InGroup(r, i, a)
    ensures forall i | InGroup(r, i, a) :: InGroup(r, i, b) <==> Connected(g, a, b)
    ensures forall i, j | InGroup(r, i, a) && InGroup(r, j, a) :: i == j
  {
    hide IsGraphOf, IsLengthOf, Connected, Orders.SortedByKey, Partitions, IsResult;
    var h, k, c :| IsGraphOf(h, matches) && IsLengthOf(k, matches) && IsOrdered(files, h, k, c)
      && IsResult(files, k, c, r);
    SameGraph(g, h, matches, matches);
    ClustersAreComponents(g, c, a, b);
    GroupLocations(files, k, c, r);
    var i :| 0 <= i < |c| && a in c[i];
    assert InGroup(r, i, a);
  }

  function TotalCodeLines(files: seq<FileData>): nat {
    if files == [] then 0 else TotalCodeLines(files[..|files| - 1]) + |files[|files| - 1].indexed|
  }

  function AllPositions(files: seq<FileData>): set<(nat, nat)> {
    set f, line | 0 <= f < |files| && line in CodeLines(files[f]) :: (f, line)
  }

  lemma {:induction false} CodeLinesBound(file: FileData, n: nat)
    requires n <= |file.indexed|
    ensures |set i | 0 <= i < n :: file.indexed[i].line| <= n
  {
    if n > 0 {
      CodeLinesBound(file, n - 1);
      var before := set i | 0 <= i < n - 1 :: file.indexed[i].line;
      assert (set i | 0 <= i < n :: file.indexed[i].line) == before + {file.indexed[n - 1].line};
    }
  }

  lemma {:induction false} PositionsBound(files: seq<FileData>)
    ensures |AllPositions(files)| <= TotalCodeLines(files)
  {
    if files != [] {
      var n := |files| - 1;
      var init, last := files[..n], files[n];
      PositionsBound(init);
      CodeLinesBound(last, |last.indexed|);
      PairsBound(n, CodeLines(last));
      assert AllPositions(files) == AllPositions(init) + Pairs(n, CodeLines(last));
    } else {
      assert AllPositions(files) == {};
    }
  }

  function Pairs(n: nat, lines: set<nat>): set<(nat, nat)> {
    set line | line in lines :: (n, line)
  }

  lemma {:induction false} PairsBound(n: nat, lines: set<nat>)
    ensures |Pairs(n, lines)| <= |lines|
    decreases |lines|
  {
    if x :| x in lines {
      PairsBound(n, lines - {x});
      assert Pairs(n, lines) == Pairs(n, lines - {x}) + {(n, x)};
      assert lines == (lines - {x}) + {x};
    } else {
      assert Pairs(n, lines) == {};
    }
  }

  /** Duplicated positions are indexed code lines, so there are at most as many as code lines. */
  lemma RateAtMostOne(files: seq<FileData>, matches: seq<MatchPair>, r: Clustering)
    requires Clusters(files, matches, r)
    ensures r.duplicated <= AllPositions(files)
    ensures |r.duplicated| <= TotalCodeLines(files)
  {
    var g, k, c :| IsGraphOf(g, matches) && IsLengthOf(k, matches) && IsOrdered(files, g, k, c)
      && IsResult(files, k, c, r);
    hide IsGraphOf, IsLengthOf, IsOrdered, CodeLines, GroupOf;
    forall p | p in r.duplicated
      ensures p in AllPositions(files)
    {
      assert (p.0, p.1) in r.duplicated;
    }
    PositionsBound(files);
    SubsetSize(r.duplicated, AllPositions(files));
  }
}
