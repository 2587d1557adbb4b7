/** Strict total orders, sorted lists without repetition, and lexicographic comparison. */
module Orders {

  ghost predicate StrictTotalOrder<T(!new)>(less: (T, T) -> bool) {
    && (forall x :: !less(x, x))
    && (forall x, y, z :: less(x, y) && less(y, z) ==> less(x, z))
    && (forall x, y :: x != y ==> less(x, y) || less(y, x))
  }

  ghost predicate StrictOrder<T(!new)>(less: (T, T) -> bool) {
    && (forall x :: !less(x, x))
    && (forall x, y, z :: less(x, y) && less(y, z) ==> less(x, z))
  }

  ghost predicate Ascending<T>(less: (T, T) -> bool, s: seq<T>) {
    forall i, j | 0 <= i < j < |s| :: less(s[i], s[j])
  }

  ghost function Elements<T>(s: seq<T>): set<T> {
    set x | x in s
  }

  lemma NoElements<T>(s: seq<T>)
    requires |s| > 0
    ensures Elements(s) != {}
  {
    assert s[0] in Elements(s);
  }

  /** A set has only one ascending listing. */
  lemma {:induction false} AscendingUnique<T(!new)>(less: (T, T) -> bool, a: seq<T>, b: seq<T>)
    requires StrictOrder(less) && Ascending(less, a) && Ascending(less, b)
    requires Elements(a) == Elements(b)
    ensures a == b
  {
    if a == [] {
      if b != [] {
        NoElements(b);
      }
    } else {
      SameFirst(less, a, b);
      forall x
        ensures x in Elements(a[1..]) <==> x in Elements(b[1..])
      {
        RestOf(less, a, x);
        RestOf(less, b, x);
        assert x in Elements(a) <==> x in Elements(b);
      }
      AscendingUnique(less, a[1..], b[1..]);
    }
  }

  lemma SameFirst<T(!new)>(less: (T, T) -> bool, a: seq<T>, b: seq<T>)
    requires StrictOrder(less) && Ascending(less, a) && Ascending(less, b)
    requires Elements(a) == Elements(b) && a != []
    ensures b != [] && a[0] == b[0]
  {
    assert a[0] in Elements(a);
    assert a[0] in Elements(b);
    assert b[0] in Elements(b);
    assert b[0] in Elements(a);
    var i :| 0 <= i < |b| && b[i] == a[0];
    var j :| 0 <= j < |a| && a[j] == b[0];
    assert i == 0 || j == 0;
  }

  lemma RestOf<T(!new)>(less: (T, T) -> bool, a: seq<T>, x: T)
    requires StrictOrder(less) && Ascending(less, a) && a != []
    ensures x in a[1..] <==> x in a && x != a[0]
  {
  }

  /** Where `x` belongs in an ascending list. */
  function InsertionPoint<T>(less: (T, T) -> bool, s: seq<T>, x: T): (n: nat)
    ensures n <= |s|
    ensures forall i | 0 <= i < n :: less(s[i], x)
    ensures n < |s| ==> !less(s[n], x)
  {
    if s == [] || !less(s[0], x) then 0 else 1 + InsertionPoint(less, s[1..], x)
  }

  function Insert<T>(less: (T, T) -> bool, s: seq<T>, x: T): seq<T> {
    var n := InsertionPoint(less, s, x);
    s[..n] + [x] + s[n..]
  }

  lemma InsertAscending<T(!new)>(less: (T, T) -> bool, s: seq<T>, x: T)
    requires StrictTotalOrder(less) && Ascending(less, s) && x !in s
    ensures Ascending(less, Insert(less, s, x))
    ensures Elements(Insert(less, s, x)) == Elements(s) + {x}
  {
  }

  /** `sorted(...)` on a collection of distinct elements. */
  method SortSet<T(==,!new)>(less: (T, T) -> bool, elements: set<T>) returns (r: seq<T>)
    requires StrictTotalOrder(less)
    ensures Ascending(less, r) && Elements(r) == elements && |r| == |elements|
  {
    r := [];
    var rest := elements;
    while rest != {}
      invariant rest <= elements && Ascending(less, r) && Elements(r) == elements - rest
      invariant |r| == |elements| - |rest|
      decreases rest
    {
      var x :| x in rest;
      assert x !in r by {
        assert x !in Elements(r);
      }
      InsertAscending(less, r, x);
      r := Insert(less, r, x);
      rest := rest - {x};
    }
  }

  // ------------------------------------------------------------ sorting by key

  /** `x` goes behind everything whose key is not greater. */
  function PlaceByKey<T, K>(key: T -> K, less: (K, K) -> bool, s: seq<T>, x: T): (n: nat)
    ensures n <= |s|
    ensures forall i | 0 <= i < n :: !less(key(x), key(s[i]))
    ensures n < |s| ==> less(key(x), key(s[n]))
  {
    if s == [] || less(key(x), key(s[0])) then 0 else 1 + PlaceByKey(key, less, s[1..], x)
  }

  function InsertByKey<T, K>(key: T -> K, less: (K, K) -> bool, s: seq<T>, x: T): seq<T> {
    var n := PlaceByKey(key, less, s, x);
    s[..n] + [x] + s[n..]
  }

  /** `list.sort(key=...)`: stable, by key. */
  function SortByKey<T, K>(key: T -> K, less: (K, K) -> bool, s: seq<T>): seq<T> {
    if s == [] then [] else InsertByKey(key, less, SortByKey(key, less, s[..|s| - 1]), s[|s| - 1])
  }

  /** No key is less than an earlier one. */
  ghost predicate SortedByKey<T, K>(key: T -> K, less: (K, K) -> bool, s: seq<T>) {
    forall i, j | 0 <= i < j < |s| :: !less(key(s[j]), key(s[i]))
  }

  lemma NotLessThrough<K(!new)>(less: (K, K) -> bool, a: K, b: K, c: K)
    requires StrictTotalOrder(less) && less(a, b) && !less(c, b)
    ensures !less(c, a)
  {
  }

  lemma InsertByKeySorts<T, K(!new)>(key: T -> K, less: (K, K) -> bool, s: seq<T>, x: T)
    requires StrictTotalOrder(less) && SortedByKey(key, less, s)
    ensures SortedByKey(key, less, InsertByKey(key, less, s, x))
    ensures multiset(InsertByKey(key, less, s, x)) == multiset(s) + multiset{x}
  {
    var n := PlaceByKey(key, less, s, x);
    hide PlaceByKey, StrictTotalOrder;
    var r := s[..n] + [x] + s[n..];
    forall i, j | 0 <= i < j < |r|
      ensures !less(key(r[j]), key(r[i]))
    {
      if i == n {
        assert r[j] == s[j - 1];
        if j - 1 > n {
          NotLessThrough(less, key(x), key(s[n]), key(s[j - 1]));
        } else {
          NotLessBack(less, key(x), key(s[n]));
        }
      } else if i > n {
        assert r[i] == s[i - 1] && r[j] == s[j - 1];
      } else if j > n {
        assert r[j] == s[j - 1];
      }
    }
    assert s == s[..n] + s[n..];
  }

  lemma NotLessBack<K(!new)>(less: (K, K) -> bool, a: K, b: K)
    requires StrictTotalOrder(less) && less(a, b)
    ensures !less(b, a)
  {
  }

  /** Sorting by key permutes the list and orders it. */
  lemma {:induction false} SortByKeySorts<T, K(!new)>(key: T -> K, less: (K, K) -> bool, s: seq<T>)
    requires StrictTotalOrder(less)
    ensures SortedByKey(key, less, SortByKey(key, less, s))
    ensures multiset(SortByKey(key, less, s)) == multiset(s)
  {
    if s != [] {
      var init := s[..|s| - 1];
      SortByKeySorts(key, less, init);
      InsertByKeySorts(key, less, SortByKey(key, less, init), s[|s| - 1]);
      assert s == init + [s[|s| - 1]];
    }
  }

  /** The members with key `k`, in order. */
  function WithKey<T, K(==)>(key: T -> K, s: seq<T>, k: K): seq<T> {
    if s == [] then []
    else
      var rest, last := WithKey(key, s[..|s| - 1], k), s[|s| - 1];
      if key(last) == k then rest + [last] else rest
  }

  lemma {:induction false} WithKeyConcat<T, K>(key: T -> K, a: seq<T>, b: seq<T>, k: K)
    ensures WithKey(key, a + b, k) == WithKey(key, a, k) + WithKey(key, b, k)
  {
    if b == [] {
      assert a + b == a;
    } else {
      assert (a + b)[..|a + b| - 1] == a + b[..|b| - 1];
      WithKeyConcat(key, a, b[..|b| - 1], k);
    }
  }

  lemma {:induction false} NoneWithKey<T, K>(key: T -> K, s: seq<T>, k: K)
    requires forall i | 0 <= i < |s| :: key(s[i]) != k
    ensures WithKey(key, s, k) == []
  {
    if s != [] {
      NoneWithKey(key, s[..|s| - 1], k);
    }
  }

  /** What goes behind everything not greater keeps the order of its equals. */
  lemma InsertKeepsOrder<T, K(!new)>(key: T -> K, less: (K, K) -> bool, s: seq<T>, x: T, k: K)
    requires StrictTotalOrder(less) && SortedByKey(key, less, s)
    ensures WithKey(key, InsertByKey(key, less, s, x), k)
      == if key(x) == k then WithKey(key, s, k) + [x] else WithKey(key, s, k)
  {
    var n := PlaceByKey(key, less, s, x);
    hide WithKey, PlaceByKey;
    var a, b := s[..n], s[n..];
    WithKeyConcat(key, a + [x], b, k);
    WithKeyConcat(key, a, [x], k);
    WithKeyConcat(key, a, b, k);
    assert s == a + b;
    OneWithKey(key, x, k);
    if key(x) == k {
      forall i | 0 <= i < |b|
        ensures key(b[i]) != k
      {
        assert b[i] == s[n + i] && (i > 0 ==> !less(key(s[n + i]), key(s[n])));
      }
      NoneWithKey(key, b, k);
    }
  }

  lemma OneWithKey<T, K>(key: T -> K, x: T, k: K)
    ensures WithKey(key, [x], k) == if key(x) == k then [x] else []
  {
    assert [x][..0] == [];
  }

  /** Sorting by key is stable. */
  lemma {:induction false} SortByKeyKeepsOrder<T, K(!new)>(key: T -> K, less: (K, K) -> bool, s: seq<T>, k: K)
    requires StrictTotalOrder(less)
    ensures WithKey(key, SortByKey(key, less, s), k) == WithKey(key, s, k)
  {
    if s != [] {
      var init := s[..|s| - 1];
      SortByKeySorts(key, less, init);
      SortByKeyKeepsOrder(key, less, init, k);
      hide SortedByKey, InsertByKey, StrictTotalOrder;
      InsertKeepsOrder(key, less, SortByKey(key, less, init), s[|s| - 1], k);
    }
  }

  ghost predicate NoRepeats<T>(s: seq<T>) {
    forall i, j | 0 <= i < j < |s| :: s[i] != s[j]
  }

  lemma {:induction false} NoRepeatsCounts<T>(s: seq<T>)
    ensures NoRepeats(s) <==> forall x :: multiset(s)[x] <= 1
  {
    if s != [] {
      var init, last := s[..|s| - 1], s[|s| - 1];
      NoRepeatsCounts(init);
      assert s == init + [last];
      assert forall x :: multiset(s)[x] == multiset(init)[x] + if x == last then 1 else 0;
      if NoRepeats(s) {
        assert last !in init;
      } else {
        var i, j :| 0 <= i < j < |s| && s[i] == s[j];
        if j == |s| - 1 {
          assert last in init;
        } else {
          assert init[i] == init[j];
        }
      }
    }
  }

  /** A list has at most as many different elements as places, and as many if none repeats. */
  lemma {:induction false} ElementsSize<T>(s: seq<T>)
    ensures |Elements(s)| <= |s|
    ensures NoRepeats(s) ==> |Elements(s)| == |s|
  {
    if s != [] {
      var init, last := s[..|s| - 1], s[|s| - 1];
      ElementsSize(init);
      assert s == init + [last];
      assert Elements(s) == Elements(init) + {last};
      if NoRepeats(s) {
        assert last !in init;
      }
    }
  }

  /** A permutation repeats nothing and loses nothing. */
  lemma PermutedMembers<T>(a: seq<T>, b: seq<T>)
    requires multiset(a) == multiset(b)
    ensures NoRepeats(a) ==> NoRepeats(b)
    ensures forall x :: x in a <==> x in b
    ensures |a| == |b|
  {
    NoRepeatsCounts(a);
    NoRepeatsCounts(b);
    forall x
      ensures x in a <==> x in b
    {
      assert x in a <==> x in multiset(a);
      assert x in b <==> x in multiset(b);
    }
    assert |multiset(a)| == |a| && |multiset(b)| == |b|;
  }

  /** Two listings of one set, sorted by a key that tells its members apart, are the same. */
  lemma SortedByKeyUnique<T(!new), K(!new)>(key: T -> K, less: (K, K) -> bool, a: seq<T>, b: seq<T>)
    requires StrictTotalOrder(less)
    requires SortedByKey(key, less, a) && SortedByKey(key, less, b)
    requires NoRepeats(a) && NoRepeats(b) && Elements(a) == Elements(b)
    requires forall x, y | x in a && y in a && key(x) == key(y) :: x == y
    ensures a == b
  {
    var byKey := (x: T, y: T) => less(key(x), key(y));
    forall i, j | 0 <= i < j < |a|
      ensures byKey(a[i], a[j])
    {
      assert key(a[i]) != key(a[j]);
    }
    forall i, j | 0 <= i < j < |b|
      ensures byKey(b[i], b[j])
    {
      assert b[i] in Elements(b) && b[j] in Elements(b);
      assert b[i] in Elements(a) && b[j] in Elements(a);
      assert key(b[i]) != key(b[j]);
    }
    AscendingUnique(byKey, a, b);
  }

  // ------------------------------------------------------- lexicographic order

  /** Sequence comparison as for strings and tuples: the first difference decides, a prefix is less. */
  predicate LexLess<T(==)>(less: (T, T) -> bool, a: seq<T>, b: seq<T>) {
    if b == [] then false
    else if a == [] then true
    else less(a[0], b[0]) || (a[0] == b[0] && LexLess(less, a[1..], b[1..]))
  }

  lemma {:induction false} LexIrreflexive<T(!new)>(less: (T, T) -> bool, a: seq<T>)
    requires StrictTotalOrder(less)
    ensures !LexLess(less, a, a)
  {
    if a != [] {
      LexIrreflexive(less, a[1..]);
    }
  }

  lemma {:induction false} LexTransitive<T(!new)>(less: (T, T) -> bool, a: seq<T>, b: seq<T>, c: seq<T>)
    requires StrictTotalOrder(less) && LexLess(less, a, b) && LexLess(less, b, c)
    ensures LexLess(less, a, c)
  {
    if a != [] && a[0] == b[0] && b[0] == c[0] {
      LexTransitive(less, a[1..], b[1..], c[1..]);
    }
  }

  lemma {:induction false} LexConnected<T(!new)>(less: (T, T) -> bool, a: seq<T>, b: seq<T>)
    requires StrictTotalOrder(less) && a != b
    ensures LexLess(less, a, b) || LexLess(less, b, a)
  {
    if a != [] && b != [] && a[0] == b[0] {
      assert a == [a[0]] + a[1..] && b == [b[0]] + b[1..];
      LexConnected(less, a[1..], b[1..]);
    }
  }

  const CHAR_LESS: (char, char) -> bool := (a: char, b: char) => a < b

  /** String comparison by code points. */
  predicate StringLess(a: string, b: string) {
    LexLess(CHAR_LESS, a, b)
  }

  lemma StringLessIsTotal()
    ensures StrictTotalOrder(StringLess)
  {
    assert StrictTotalOrder(CHAR_LESS);
    forall a: string
      ensures !StringLess(a, a)
    {
      LexIrreflexive(CHAR_LESS, a);
    }
    forall a: string, b: string, c: string | StringLess(a, b) && StringLess(b, c)
      ensures StringLess(a, c)
    {
      LexTransitive(CHAR_LESS, a, b, c);
    }
    forall a: string, b: string | a != b
      ensures StringLess(a, b) || StringLess(b, a)
    {
      LexConnected(CHAR_LESS, a, b);
    }
  }

  /** `a` and `b` agree on their first `n` members, where `a` ends or has the smaller member. */
  ghost predicate DiffersAt<T>(less: (T, T) -> bool, a: seq<T>, b: seq<T>, n: nat) {
    n <= |a| && n < |b| && a[..n] == b[..n] && (n == |a| || less(a[n], b[n]))
  }

  lemma {:induction false} LexMeans<T>(less: (T, T) -> bool, a: seq<T>, b: seq<T>)
    ensures LexLess(less, a, b) <==> exists n: nat :: DiffersAt(less, a, b, n)
  {
    if b != [] && a != [] {
      LexMeans(less, a[1..], b[1..]);
      if less(a[0], b[0]) {
        assert DiffersAt(less, a, b, 0);
      } else {
        if a[0] == b[0] && LexLess(less, a[1..], b[1..]) {
          var n: nat :| DiffersAt(less, a[1..], b[1..], n);
          assert a[..n + 1] == [a[0]] + a[1..][..n] && b[..n + 1] == [b[0]] + b[1..][..n];
          assert DiffersAt(less, a, b, n + 1);
        }
        if n: nat :| DiffersAt(less, a, b, n) {
          assert n > 0 && a[..n][0] == b[..n][0];
          assert a[1..][..n - 1] == a[..n][1..] && b[1..][..n - 1] == b[..n][1..];
          assert DiffersAt(less, a[1..], b[1..], n - 1);
        }
      }
    } else if b != [] {
      assert DiffersAt(less, a, b, 0);
    }
  }

  /** A string is less than another when it has the smaller character at the first difference, or ends there. */
  ghost predicate ComesFirst(a: string, b: string) {
    exists n :: 0 <= n <= |a| && n < |b| && a[..n] == b[..n] && (n == |a| || (a[n] as int) < b[n] as int)
  }

  lemma StringLessMeans(a: string, b: string)
    ensures StringLess(a, b) <==> ComesFirst(a, b)
  {
    LexMeans(CHAR_LESS, a, b);
    if n: nat :| DiffersAt(CHAR_LESS, a, b, n) {
      assert a[..n] == b[..n] && (n == |a| || (a[n] as int) < b[n] as int);
    }
    if ComesFirst(a, b) {
      var n :| 0 <= n <= |a| && n < |b| && a[..n] == b[..n] && (n == |a| || (a[n] as int) < b[n] as int);
      assert DiffersAt(CHAR_LESS, a, b, n);
    }
  }
}
