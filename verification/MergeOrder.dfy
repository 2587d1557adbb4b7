/** The merge of function boundaries does not depend on the order of the observations, as long as no
  start column is 0. */
module MergeOrder {
  import opened Basics
  import opened Orders
  import opened BoundaryMerge

  // ------------------------------------------------------------- what a merge is

  ghost predicate Agree(observations: seq<Boundary>) {
    forall a, b | a in observations && b in observations :: a.shape == b.shape
  }

  ghost predicate IsMax(observations: seq<Boundary>, value: Boundary -> nat, m: nat) {
    && (forall o | o in observations :: value(o) <= m)
    && (exists o :: o in observations && value(o) == m)
  }

  ghost function AllConfigurations(observations: seq<Boundary>): set<string> {
    set o, c | o in observations && c in o.configurations :: c
  }

  ghost function AllMetrics(observations: seq<Boundary>): set<Metric> {
    set o, m | o in observations && m in o.metrics :: m
  }

  ghost predicate VariesIn(metrics: set<Metric>) {
    exists a, b | a in metrics && b in metrics :: MetricTriple(a) != MetricTriple(b)
  }

  ghost predicate Flagged(observations: seq<Boundary>) {
    exists o :: o in observations && o.variant
  }

  ghost predicate Conditional(observations: seq<Boundary>) {
    exists o :: o in observations && o.conditional
  }

  ghost predicate Maxima(observations: seq<Boundary>, b: Boundary) {
    && IsMax(observations, LINES, b.lines)
    && IsMax(observations, STATEMENTS, b.statements)
    && IsMax(observations, PARAMETERS, b.parameters)
  }

  const LINES: Boundary -> nat := (o: Boundary) => o.lines
  const STATEMENTS: Boundary -> nat := (o: Boundary) => o.statements
  const PARAMETERS: Boundary -> nat := (o: Boundary) => o.parameters

  /** `b` is what the observations of one location amount to: their common location and shape, the
    greatest metrics, the unions of configurations and their metrics, and the flags any of them sets;
    differing metrics of two or more observations set the variant flag. One observation stays as it is. */
  ghost predicate IsMerge(observations: seq<Boundary>, b: Boundary) {
    && (forall o | o in observations :: o.key == b.key && o.shape == b.shape)
    && Maxima(observations, b)
    && Elements(b.configurations) == AllConfigurations(observations)
    && Elements(b.metrics) == AllMetrics(observations)
    && b.conditional == Conditional(observations)
    && (|observations| == 1 ==> b == observations[0])
    && (|observations| > 1 ==>
          && Ascending(StringLess, b.configurations)
          && Ascending(MetricLess, b.metrics)
          && b.variant == (Flagged(observations) || VariesIn(AllMetrics(observations))))
  }

  // ---------------------------------------------------------- the fold computes it

  lemma MaxStep(observations: seq<Boundary>, value: Boundary -> nat, m: nat, b: Boundary)
    requires IsMax(observations, value, m)
    ensures IsMax(observations + [b], value, Max(m, value(b)))
  {
  }

  lemma MaximaStep(observations: seq<Boundary>, e: Boundary, b: Boundary, next: Boundary)
    requires Maxima(observations, e)
    requires next.lines == Max(e.lines, b.lines) && next.statements == Max(e.statements, b.statements)
    requires next.parameters == Max(e.parameters, b.parameters)
    ensures Maxima(observations + [b], next)
  {
    hide IsMax, Max;
    MaxStep(observations, LINES, e.lines, b);
    MaxStep(observations, STATEMENTS, e.statements, b);
    MaxStep(observations, PARAMETERS, e.parameters, b);
  }

  lemma UnionStep(observations: seq<Boundary>, b: Boundary)
    ensures AllConfigurations(observations + [b]) == AllConfigurations(observations) + Elements(b.configurations)
    ensures AllMetrics(observations + [b]) == AllMetrics(observations) + Elements(b.metrics)
  {
  }

  lemma FlagStep(observations: seq<Boundary>, b: Boundary)
    ensures Flagged(observations + [b]) == (Flagged(observations) || b.variant)
    ensures Conditional(observations + [b]) == (Conditional(observations) || b.conditional)
  {
  }

  lemma JoinElements<T>(a: seq<T>, b: seq<T>)
    ensures Elements(a + b) == Elements(a) + Elements(b)
  {
  }

  /** The collected lists of an absorbed observation. */
  lemma AbsorbCollects(e: Boundary, b: Boundary)
    ensures var r := Absorb(e, b);
      && Ascending(StringLess, r.configurations)
      && Elements(r.configurations) == Elements(e.configurations) + Elements(b.configurations)
      && Ascending(MetricLess, r.metrics)
      && Elements(r.metrics) == Elements(e.metrics) + Elements(b.metrics)
  {
    StringLessIsTotal();
    MetricLessIsTotal();
    hide StringLess, MetricLess, Collect, Ascending, Elements, Varies;
    CollectSorts(StringLess, e.configurations + b.configurations);
    CollectSorts(MetricLess, e.metrics + b.metrics);
    JoinElements(e.configurations, b.configurations);
    JoinElements(e.metrics, b.metrics);
  }

  lemma AbsorbVariant(observations: seq<Boundary>, e: Boundary, b: Boundary)
    requires observations != [] && IsMerge(observations, e)
    ensures Absorb(e, b).variant == (Flagged(observations + [b]) || VariesIn(AllMetrics(observations + [b])))
  {
    AbsorbCollects(e, b);
    UnionStep(observations, b);
    FlagStep(observations, b);
    var metrics := Absorb(e, b).metrics;
    hide Collect, Maxima, Ascending, AllConfigurations, AllMetrics, MetricTriple, Conditional;
    assert Elements(metrics) == AllMetrics(observations + [b]);
    VariesSame(metrics);
    assert |observations| == 1 ==> e in observations;
    assert VariesIn(AllMetrics(observations)) ==> VariesIn(AllMetrics(observations + [b]));
  }

  lemma VariesSame(metrics: seq<Metric>)
    ensures Varies(metrics) == VariesIn(Elements(metrics))
  {
  }

  lemma MergeStep(observations: seq<Boundary>, e: Boundary, b: Boundary)
    requires observations != [] && IsMerge(observations, e) && b.key == e.key && b.shape == e.shape
    ensures IsMerge(observations + [b], Absorb(e, b))
  {
    var r := Absorb(e, b);
    AbsorbVariant(observations, e, b);
    AbsorbCollects(e, b);
    UnionStep(observations, b);
    FlagStep(observations, b);
    MaximaStep(observations, e, b, r);
    hide Collect, Maxima, Ascending, AllConfigurations, AllMetrics, Varies, VariesIn, Conditional, Flagged, Elements;
    hide Max;
  }

  lemma OneMerges(b: Boundary)
    ensures IsMerge([b], b)
  {
  }

  /** The observations of one location are grouped exactly when they agree, and then as their merge. */
  lemma {:induction false} StatusMeans(observations: seq<Boundary>, key: Key)
    requires observations != [] && forall o | o in observations :: o.key == key
    ensures Agree(observations) <==> StatusOf(observations).Grouped?
    ensures StatusOf(observations).Grouped? ==> IsMerge(observations, StatusOf(observations).boundary)
  {
    hide IsMerge, Absorb;
    var init, last := observations[..|observations| - 1], observations[|observations| - 1];
    assert observations == init + [last];
    if init == [] {
      OneMerges(last);
      assert StatusOf(init) == Unseen;
    } else {
      StatusMeans(init, key);
      StatusSeen(init);
      AgreeStep(init, last);
      if StatusOf(init).Grouped? {
        var e := StatusOf(init).boundary;
        MergeShape(init, e);
        if e.shape == last.shape {
          MergeStep(init, e, last);
        }
      }
    }
  }

  lemma AgreeStep(init: seq<Boundary>, last: Boundary)
    requires init != []
    ensures Agree(init + [last]) <==> Agree(init) && init[0].shape == last.shape
  {
  }

  lemma MergeShape(observations: seq<Boundary>, e: Boundary)
    requires observations != [] && IsMerge(observations, e)
    ensures e.key == observations[0].key && e.shape == observations[0].shape
  {
  }

  // --------------------------------------------------------- what is kept of a location

  lemma {:induction false} AtCounts(boundaries: seq<Boundary>, key: Key, x: Boundary)
    ensures multiset(At(boundaries, key))[x] == if x.key == key then multiset(boundaries)[x] else 0
  {
    if boundaries != [] {
      var init, last := boundaries[..|boundaries| - 1], boundaries[|boundaries| - 1];
      assert boundaries == init + [last];
      AtCounts(init, key, x);
    }
  }

  /** Permuting the observations permutes those of each location. */
  lemma AtPermuted(a: seq<Boundary>, b: seq<Boundary>, key: Key)
    requires multiset(a) == multiset(b)
    ensures multiset(At(a, key)) == multiset(At(b, key))
  {
    forall x
      ensures multiset(At(a, key))[x] == multiset(At(b, key))[x]
    {
      AtCounts(a, key, x);
      AtCounts(b, key, x);
    }
  }

  lemma AtHasKey(boundaries: seq<Boundary>, key: Key)
    ensures forall o | o in At(boundaries, key) :: o.key == key
  {
    forall o | o in At(boundaries, key)
      ensures o.key == key
    {
      AtCounts(boundaries, key, o);
      assert o in multiset(At(boundaries, key));
    }
  }

  lemma MaxUnique(a: seq<Boundary>, b: seq<Boundary>, value: Boundary -> nat, m: nat, n: nat)
    requires IsMax(a, value, m) && IsMax(b, value, n) && forall o :: o in a <==> o in b
    ensures m == n
  {
  }

  /** The merge of a location depends only on which observations there are. */
  lemma MergeIsUnique(a: seq<Boundary>, b: seq<Boundary>, x: Boundary, y: Boundary)
    requires a != [] && multiset(a) == multiset(b) && IsMerge(a, x) && IsMerge(b, y)
    ensures x == y
  {
    PermutedMembers(a, b);
    MergeShape(a, x);
    MergeShape(b, y);
    assert a[0] in b;
    SameSets(a, b);
    hide IsMax, AllConfigurations, AllMetrics, VariesIn, Flagged, Conditional, Ascending, Elements, NoRepeats;
    MaxUnique(a, b, LINES, x.lines, y.lines);
    MaxUnique(a, b, STATEMENTS, x.statements, y.statements);
    MaxUnique(a, b, PARAMETERS, x.parameters, y.parameters);
    if |a| == 1 {
      assert b[0] in multiset(b);
      assert a[0] == b[0];
    } else {
      StringLessIsTotal();
      MetricLessIsTotal();
      hide StringLess, MetricLess;
      AscendingUnique(StringLess, x.configurations, y.configurations);
      AscendingUnique(MetricLess, x.metrics, y.metrics);
    }
  }

  lemma SameSets(a: seq<Boundary>, b: seq<Boundary>)
    requires forall o :: o in a <==> o in b
    ensures AllConfigurations(a) == AllConfigurations(b) && AllMetrics(a) == AllMetrics(b)
    ensures Flagged(a) == Flagged(b) && Conditional(a) == Conditional(b) && Agree(a) == Agree(b)
  {
  }

  /** All configurations that compiled the file observed the location, and no other did. */
  ghost predicate Complete(observations: seq<Boundary>, successful: Coverage, key: Key) {
    key.filePath in successful ==> AllConfigurations(observations) == successful[key.filePath]
  }

  /** A location is kept exactly when it was observed, its observations agree, and their configurations
    are those that succeeded on its file; what is kept is their merge. */
  lemma KeptIff(boundaries: seq<Boundary>, successful: Coverage, key: Key)
    ensures var observations := At(boundaries, key);
      && (KeptAt(boundaries, successful, key).Some?
          <==> observations != [] && Agree(observations) && Complete(observations, successful, key))
      && (KeptAt(boundaries, successful, key).Some? ==>
            IsMerge(observations, KeptAt(boundaries, successful, key).value)
            && KeptAt(boundaries, successful, key).value.key == key)
  {
    var observations := At(boundaries, key);
    AtHasKey(boundaries, key);
    if observations != [] {
      StatusMeans(observations, key);
      hide StatusOf, At, Agree;
      if StatusOf(observations).Grouped? {
        var b := StatusOf(observations).boundary;
        MergeShape(observations, b);
        assert (set c | c in b.configurations) == Elements(b.configurations);
        assert observations[0] in observations;
      }
    }
  }

  lemma KeptPermuted(a: seq<Boundary>, b: seq<Boundary>, successful: Coverage, key: Key)
    requires multiset(a) == multiset(b)
    ensures KeptAt(a, successful, key) == KeptAt(b, successful, key)
  {
    hide KeptAt, IsMerge, Agree, AllConfigurations, AllMetrics, Flagged, Conditional, NoRepeats;
    KeptIff(a, successful, key);
    KeptIff(b, successful, key);
    AtPermuted(a, b, key);
    PermutedMembers(At(a, key), At(b, key));
    SameSets(At(a, key), At(b, key));
    if KeptAt(a, successful, key).Some? {
      MergeIsUnique(At(a, key), At(b, key), KeptAt(a, successful, key).value, KeptAt(b, successful, key).value);
    }
  }

  // ---------------------------------------------------------------- the returned list

  lemma {:induction false} KeysAreDistinct(boundaries: seq<Boundary>)
    ensures NoRepeats(KeysOf(boundaries))
  {
    if boundaries != [] {
      KeysAreDistinct(boundaries[..|boundaries| - 1]);
    }
  }

  lemma {:induction false} ValuesMembers(boundaries: seq<Boundary>, successful: Coverage, keys: seq<Key>)
    requires NoRepeats(keys)
    ensures NoRepeats(Values(boundaries, successful, keys))
    ensures forall b ::
      b in Values(boundaries, successful, keys) <==> b.key in keys && KeptAt(boundaries, successful, b.key) == Some(b)
  {
    if keys != [] {
      var init, last := keys[..|keys| - 1], keys[|keys| - 1];
      assert keys == init + [last];
      hide KeptAt;
      ValuesMembers(boundaries, successful, init);
      KeptIff(boundaries, successful, last);
      assert last !in init;
    }
  }

  /** The returned list holds each kept location once, sorted. */
  lemma MergedMembers(boundaries: seq<Boundary>, successful: Coverage)
    ensures NoRepeats(Merged(boundaries, successful))
    ensures SortedByKey(SortKeyOf, SortKeyLess, Merged(boundaries, successful))
    ensures forall b :: b in Merged(boundaries, successful) <==> KeptAt(boundaries, successful, b.key) == Some(b)
  {
    hide NoRepeats, SortedByKey, SortByKey, SortKeyLess, Values, KeptAt;
    KeysAreDistinct(boundaries);
    var keys := KeysOf(boundaries);
    ValuesMembers(boundaries, successful, keys);
    SortKeyLessIsTotal();
    SortByKeySorts(SortKeyOf, SortKeyLess, Values(boundaries, successful, keys));
    PermutedMembers(Values(boundaries, successful, keys), Merged(boundaries, successful));
    forall b: Boundary | KeptAt(boundaries, successful, b.key) == Some(b)
      ensures b.key in keys
    {
      KeptIff(boundaries, successful, b.key);
      KeysObserved(boundaries, b.key);
    }
  }

  /** Two kept boundaries that the sort cannot tell apart. */
  ghost predicate Tied(boundaries: seq<Boundary>, successful: Coverage) {
    exists a, b | a in Merged(boundaries, successful) && b in Merged(boundaries, successful) ::
      a != b && SortKeyOf(a) == SortKeyOf(b)
  }

  /** Without ties, every order of the observations gives the same list. */
  lemma OrderIndependent(boundaries: seq<Boundary>, permuted: seq<Boundary>, successful: Coverage)
    requires multiset(boundaries) == multiset(permuted) && !Tied(boundaries, successful)
    ensures Merged(permuted, successful) == Merged(boundaries, successful)
  {
    hide Merged, KeptAt, NoRepeats, SortedByKey, SortKeyLess;
    MergedMembers(boundaries, successful);
    MergedMembers(permuted, successful);
    forall b
      ensures b in Merged(boundaries, successful) <==> b in Merged(permuted, successful)
    {
      KeptPermuted(boundaries, permuted, successful, b.key);
    }
    SortKeyLessIsTotal();
    SortedByKeyUnique(SortKeyOf, SortKeyLess, Merged(boundaries, successful), Merged(permuted, successful));
  }

  // ------------------------------------------------------------------------- ties

  /** `x` stands before `y`. */
  ghost predicate Before<T>(s: seq<T>, x: T, y: T) {
    exists i, j :: 0 <= i < j < |s| && s[i] == x && s[j] == y
  }

  lemma NotBoth<T>(s: seq<T>, x: T, y: T)
    requires NoRepeats(s) && Before(s, x, y)
    ensures !Before(s, y, x)
  {
    var i, j :| 0 <= i < j < |s| && s[i] == x && s[j] == y;
  }

  /** Sorting by key is stable. */
  lemma {:induction false} SortIsStable<T, K(!new)>(key: T -> K, less: (K, K) -> bool, s: seq<T>, x: T, y: T)
    requires StrictTotalOrder(less) && Before(s, x, y) && key(x) == key(y)
    ensures Before(SortByKey(key, less, s), x, y)
  {
    var init, last := s[..|s| - 1], s[|s| - 1];
    var r := SortByKey(key, less, init);
    SortByKeySorts(key, less, init);
    hide SortByKey, SortedByKey, PlaceByKey, InsertByKey, StrictTotalOrder;
    assert SortByKey(key, less, s) == InsertByKey(key, less, r, last) by { SortUnfolds(key, less, s); }
    var i, j :| 0 <= i < j < |s| && s[i] == x && s[j] == y;
    assert init[i] == x;
    if j == |s| - 1 {
      PermutedMembers(init, r);
      InsertedLast(key, less, r, x, last);
    } else {
      assert init[j] == y;
      SortIsStable(key, less, init, x, y);
      InsertKeeps(key, less, r, x, y, last);
    }
  }

  lemma SortUnfolds<T, K>(key: T -> K, less: (K, K) -> bool, s: seq<T>)
    requires s != []
    ensures SortByKey(key, less, s) == InsertByKey(key, less, SortByKey(key, less, s[..|s| - 1]), s[|s| - 1])
  {
  }

  lemma InsertedLast<T, K(!new)>(key: T -> K, less: (K, K) -> bool, r: seq<T>, x: T, last: T)
    requires StrictTotalOrder(less) && SortedByKey(key, less, r) && x in r && key(x) == key(last)
    ensures Before(InsertByKey(key, less, r, last), x, last)
  {
    var n := PlaceByKey(key, less, r, last);
    var k :| 0 <= k < |r| && r[k] == x;
    assert n < |r| ==> less(key(x), key(r[n]));
    var inserted := InsertByKey(key, less, r, last);
    hide PlaceByKey;
    assert k < n;
    assert inserted[k] == x && inserted[n] == last;
  }

  lemma InsertKeeps<T, K>(key: T -> K, less: (K, K) -> bool, r: seq<T>, x: T, y: T, last: T)
    requires Before(r, x, y)
    ensures Before(InsertByKey(key, less, r, last), x, y)
  {
    hide PlaceByKey;
    var n := PlaceByKey(key, less, r, last);
    var inserted := InsertByKey(key, less, r, last);
    var i, j :| 0 <= i < j < |r| && r[i] == x && r[j] == y;
    var k, m := if i < n then i else i + 1, if j < n then j else j + 1;
    assert inserted[k] == x && inserted[m] == y && k < m;
  }

  /** The observations of one location first, then the others. */
  function MovedToFront(boundaries: seq<Boundary>, key: Key): seq<Boundary> {
    At(boundaries, key) + Others(boundaries, key)
  }

  function Others(boundaries: seq<Boundary>, key: Key): seq<Boundary> {
    if boundaries == [] then []
    else
      var rest, last := Others(boundaries[..|boundaries| - 1], key), boundaries[|boundaries| - 1];
      if last.key == key then rest else rest + [last]
  }

  lemma {:induction false} MovedIsPermutation(boundaries: seq<Boundary>, key: Key)
    ensures multiset(MovedToFront(boundaries, key)) == multiset(boundaries)
  {
    if boundaries != [] {
      var init, last := boundaries[..|boundaries| - 1], boundaries[|boundaries| - 1];
      assert boundaries == init + [last];
      MovedIsPermutation(init, key);
    }
  }

  lemma {:induction false} FirstKey(boundaries: seq<Boundary>)
    requires boundaries != []
    ensures KeysOf(boundaries) != [] && KeysOf(boundaries)[0] == boundaries[0].key
  {
    if |boundaries| > 1 {
      FirstKey(boundaries[..|boundaries| - 1]);
    } else {
      assert boundaries[..0] == [];
    }
  }

  lemma {:induction false} ValuesBefore(boundaries: seq<Boundary>, successful: Coverage, keys: seq<Key>, a: Boundary,
                                        b: Boundary)
    requires NoRepeats(keys) && Before(keys, a.key, b.key)
    requires KeptAt(boundaries, successful, a.key) == Some(a) && KeptAt(boundaries, successful, b.key) == Some(b)
    ensures Before(Values(boundaries, successful, keys), a, b)
  {
    hide KeptAt;
    var init, last := keys[..|keys| - 1], keys[|keys| - 1];
    var values := Values(boundaries, successful, init);
    var i, j :| 0 <= i < j < |keys| && keys[i] == a.key && keys[j] == b.key;
    assert init[i] == a.key;
    ValuesMembers(boundaries, successful, init);
    if j == |keys| - 1 {
      assert a in values;
      BeforeLast(values, a, b);
    } else {
      assert init[j] == b.key;
      ValuesBefore(boundaries, successful, init, a, b);
      BeforeGrows(values, a, b, Values(boundaries, successful, keys));
    }
  }

  lemma BeforeLast<T>(s: seq<T>, x: T, y: T)
    requires x in s
    ensures Before(s + [y], x, y)
  {
    var i :| 0 <= i < |s| && s[i] == x;
    assert (s + [y])[i] == x && (s + [y])[|s|] == y;
  }

  lemma BeforeGrows<T>(s: seq<T>, x: T, y: T, t: seq<T>)
    requires Before(s, x, y) && s <= t
    ensures Before(t, x, y)
  {
    var i, j :| 0 <= i < j < |s| && s[i] == x && s[j] == y;
    assert t[i] == x && t[j] == y;
  }

  /** With the observations of `b` in front, `b` comes before any boundary it ties with. */
  lemma MovedComesFirst(boundaries: seq<Boundary>, successful: Coverage, a: Boundary, b: Boundary)
    requires a in Merged(boundaries, successful) && b in Merged(boundaries, successful)
    requires a != b && SortKeyOf(a) == SortKeyOf(b)
    ensures Before(Merged(MovedToFront(boundaries, b.key), successful), b, a)
  {
    var moved := MovedToFront(boundaries, b.key);
    MovedIsPermutation(boundaries, b.key);
    MergedMembers(boundaries, successful);
    KeptPermuted(boundaries, moved, successful, a.key);
    KeptPermuted(boundaries, moved, successful, b.key);
    KeptIff(boundaries, successful, b.key);
    KeptIff(moved, successful, a.key);
    KeysObserved(moved, a.key);
    AtHasKey(boundaries, b.key);
    var keys := KeysOf(moved);
    FirstKey(moved);
    hide Merged, KeptAt, SortKeyLess, MovedToFront, KeysOf, At, IsMerge, Agree, Complete;
    assert keys[0] == b.key;
    assert a.key in keys && a.key != b.key;
    var k :| 0 <= k < |keys| && keys[k] == a.key;
    assert Before(keys, b.key, a.key);
    KeysAreDistinct(moved);
    ValuesBefore(moved, successful, keys, b, a);
    SortKeyLessIsTotal();
    SortIsStable(SortKeyOf, SortKeyLess, Values(moved, successful, keys), b, a);
    MergedIs(moved, successful);
  }

  lemma MergedIs(boundaries: seq<Boundary>, successful: Coverage)
    ensures Merged(boundaries, successful)
      == SortByKey(SortKeyOf, SortKeyLess, Values(boundaries, successful, KeysOf(boundaries)))
  {
  }

  /** Some order of the observations gives another list. */
  ghost predicate OrderMatters(boundaries: seq<Boundary>, successful: Coverage) {
    exists permuted: seq<Boundary> :: multiset(permuted) == multiset(boundaries)
      && Merged(permuted, successful) != Merged(boundaries, successful)
  }

  /** The returned list depends on the order of the observations exactly when two kept boundaries tie. */
  lemma OrderMattersIffTied(boundaries: seq<Boundary>, successful: Coverage)
    ensures OrderMatters(boundaries, successful) <==> Tied(boundaries, successful)
  {
    hide Merged, SortKeyOf;
    if OrderMatters(boundaries, successful) {
      var permuted: seq<Boundary> :| multiset(permuted) == multiset(boundaries)
        && Merged(permuted, successful) != Merged(boundaries, successful);
      if !Tied(boundaries, successful) {
        OrderIndependent(boundaries, permuted, successful);
      }
    }
    if Tied(boundaries, successful) {
      var a, b :| a in Merged(boundaries, successful) && b in Merged(boundaries, successful)
        && a != b && SortKeyOf(a) == SortKeyOf(b);
      var first, second := Ordered(Merged(boundaries, successful), a, b);
      MergedMembers(boundaries, successful);
      NotBoth(Merged(boundaries, successful), first, second);
      MovedComesFirst(boundaries, successful, first, second);
      MovedIsPermutation(boundaries, second.key);
      assert Merged(MovedToFront(boundaries, second.key), successful) != Merged(boundaries, successful);
    }
  }

  lemma Ordered(s: seq<Boundary>, a: Boundary, b: Boundary) returns (first: Boundary, second: Boundary)
    requires a in s && b in s && a != b
    ensures (first == a && second == b) || (first == b && second == a)
    ensures Before(s, first, second)
  {
    var i :| 0 <= i < |s| && s[i] == a;
    var j :| 0 <= j < |s| && s[j] == b;
    if i < j {
      first, second := a, b;
    } else {
      first, second := b, a;
    }
  }

  /** A tie is a column left out against column 0, on the same line of the same file, under one name. */
  lemma TieMeans(boundaries: seq<Boundary>, successful: Coverage, a: Boundary, b: Boundary)
    requires a in Merged(boundaries, successful) && b in Merged(boundaries, successful) && a != b
    ensures SortKeyOf(a) == SortKeyOf(b)
      <==> a.key.filePath == b.key.filePath && a.key.startLine == b.key.startLine && a.shape.name == b.shape.name
           && {a.key.startColumn, b.key.startColumn} == {None, Some(0)}
  {
    MergedMembers(boundaries, successful);
    hide Merged, KeptAt;
    assert a.key != b.key;
    if SortKeyOf(a) == SortKeyOf(b) {
      assert a.key.startColumn != b.key.startColumn;
    }
    if {a.key.startColumn, b.key.startColumn} == {None, Some(0)} {
      assert a.key.startColumn in {None, Some(0)} && b.key.startColumn in {None, Some(0)};
    }
  }

  /** Where columns count from 1, the returned list depends only on which observations there are. */
  lemma MergedIsOrderFree(a: seq<Boundary>, b: seq<Boundary>, successful: Coverage)
    requires multiset(a) == multiset(b) && forall o | o in a :: o.key.startColumn != Some(0)
    ensures Merged(a, successful) == Merged(b, successful)
  {
    hide Merged, SortKeyOf;
    forall x, y | x in Merged(a, successful) && y in Merged(a, successful) && x != y
      ensures SortKeyOf(x) != SortKeyOf(y)
    {
      TieMeans(a, successful, x, y);
      KeptColumn(a, successful, x);
      KeptColumn(a, successful, y);
      assert Some(0) !in {x.key.startColumn, y.key.startColumn};
    }
    OrderIndependent(a, b, successful);
  }

  /** A kept boundary has the location of some observation. */
  lemma KeptColumn(boundaries: seq<Boundary>, successful: Coverage, x: Boundary)
    requires x in Merged(boundaries, successful)
    ensures exists o :: o in boundaries && o.key == x.key
  {
    hide Merged, At;
    MergedMembers(boundaries, successful);
    KeptIff(boundaries, successful, x.key);
    var observations := At(boundaries, x.key);
    AtHasKey(boundaries, x.key);
    var o := observations[0];
    AtCounts(boundaries, x.key, o);
    assert o in multiset(observations);
    assert o in multiset(boundaries);
  }

  lemma AtStep(boundaries: seq<Boundary>, b: Boundary, key: Key)
    ensures At(boundaries + [b], key) == if b.key == key then At(boundaries, key) + [b] else At(boundaries, key)
  {
    assert (boundaries + [b])[..|boundaries|] == boundaries;
  }
}
