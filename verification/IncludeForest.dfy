/** Include forests and their preorder listings, as compilers print them. */
module IncludeForest {
  import opened Basics

  type Path = string

  datatype Entry = Entry(depth: nat, path: string)

  /** A list of include trees: the first one, what it includes, and the trees after it. */
  datatype Forest = Empty | Include(path: string, inner: Forest, next: Forest)

  /** The listing of a forest whose trees stand at `depth`. */
  function Preorder(f: Forest, depth: nat): seq<Entry> {
    match f
    case Empty => []
    case Include(path, inner, next) => [Entry(depth, path)] + Preorder(inner, depth + 1) + Preorder(next, depth)
  }

  /** `<built-in>` and its like. */
  predicate IsPseudo(path: string) {
    path != [] && path[0] == '<' && path[|path| - 1] == '>'
  }

  /** The file a listed path stands for; None for a pseudo file. */
  function FileOf(path: string, resolve: string -> Option<Path>): Option<Path> {
    if IsPseudo(path) then None else resolve(path)
  }

  /** The edges from each file to the files it includes, in listing order, without those that touch a
    pseudo file. */
  function Edges(f: Forest, parent: Option<Path>, resolve: string -> Option<Path>): seq<(Path, Path)> {
    match f
    case Empty => []
    case Include(path, inner, next) =>
      var child := FileOf(path, resolve);
      (if parent.Some? && child.Some? then [(parent.value, child.value)] else [])
      + Edges(inner, child, resolve) + Edges(next, parent, resolve)
  }

  /** Every listed file still exists. */
  predicate Known(f: Forest, resolve: string -> Option<Path>) {
    match f
    case Empty => true
    case Include(path, inner, next) =>
      (IsPseudo(path) || resolve(path).Some?) && Known(inner, resolve) && Known(next, resolve)
  }

  function Height(f: Forest): nat {
    match f
    case Empty => 0
    case Include(_, inner, next) =>
      var below, beside := 1 + Height(inner), Height(next);
      if below > beside then below else beside
  }

  // ------------------------------------------------------------- depths and listings

  /** The first entry is at depth 1 and none goes more than one level deeper than the one before. */
  predicate Climbs(es: seq<Entry>) {
    forall i: nat | i < |es| :: ClimbsAt(es, i)
  }

  predicate ClimbsAt(es: seq<Entry>, i: nat)
    requires i < |es|
  {
    1 <= es[i].depth <= (if i == 0 then 1 else es[i - 1].depth + 1)
  }

  /** The depth of the last entry listed. */
  function LastDepth(f: Forest, depth: nat): nat
    requires f.Include?
  {
    if f.next.Include? then LastDepth(f.next, depth)
    else if f.inner.Include? then LastDepth(f.inner, depth + 1)
    else depth
  }

  lemma {:induction false} LastOfPreorder(f: Forest, depth: nat)
    requires f.Include?
    ensures var es := Preorder(f, depth); es != [] && es[|es| - 1].depth == LastDepth(f, depth)
  {
    if f.next.Include? {
      LastOfPreorder(f.next, depth);
    } else if f.inner.Include? {
      LastOfPreorder(f.inner, depth + 1);
    }
  }

  /** The forest with one more entry at its right edge. */
  function Append(f: Forest, depth: nat, e: Entry): Forest {
    match f
    case Empty => Include(e.path, Empty, Empty)
    case Include(path, inner, next) =>
      if next.Include? || e.depth == depth then Include(path, inner, Append(next, depth, e))
      else Include(path, Append(inner, depth + 1, e), next)
  }

  lemma {:induction false} AppendLists(f: Forest, depth: nat, e: Entry)
    requires if f.Include? then depth <= e.depth <= LastDepth(f, depth) + 1 else e.depth == depth
    ensures Preorder(Append(f, depth, e), depth) == Preorder(f, depth) + [e]
  {
    match f
    case Empty =>
    case Include(path, inner, next) =>
      if next.Include? || e.depth == depth {
        AppendLists(next, depth, e);
      } else {
        AppendLists(inner, depth + 1, e);
      }
  }

  lemma {:induction false} PreorderDepths(f: Forest, depth: nat)
    ensures forall i | 0 <= i < |Preorder(f, depth)| ::
      && depth <= Preorder(f, depth)[i].depth
      && Preorder(f, depth)[i].depth <= (if i == 0 then depth else Preorder(f, depth)[i - 1].depth + 1)
  {
    match f
    case Empty =>
    case Include(path, inner, next) =>
      PreorderDepths(inner, depth + 1);
      PreorderDepths(next, depth);
      var head, below := [Entry(depth, path)], Preorder(inner, depth + 1);
      var es := head + below + Preorder(next, depth);
      forall i | 0 <= i < |es|
        ensures depth <= es[i].depth && es[i].depth <= (if i == 0 then depth else es[i - 1].depth + 1)
      {
        var m := 1 + |below|;
        assert 0 < i < m ==> es[i] == below[i - 1];
        assert 1 < i < m ==> es[i - 1] == below[i - 2];
        assert i >= m ==> es[i] == Preorder(next, depth)[i - m];
        assert i > m ==> es[i - 1] == Preorder(next, depth)[i - m - 1];
        assert i == m && i > 1 ==> es[i - 1] == below[i - 2];
      }
  }

  /** A list of entries is the listing of some forest exactly when its depths climb one by one. */
  lemma {:induction false} ClimbsIffPreorder(es: seq<Entry>)
    ensures Climbs(es) <==> exists f :: Preorder(f, 1) == es
  {
    if Climbs(es) {
      var f := ForestOf(es);
      assert Preorder(f, 1) == es;
    }
    if exists f :: Preorder(f, 1) == es {
      var f :| Preorder(f, 1) == es;
      PreorderDepths(f, 1);
    }
  }

  lemma ClimbsInit(es: seq<Entry>)
    requires es != [] && Climbs(es)
    ensures Climbs(es[..|es| - 1])
    ensures var k := |es| - 1; 1 <= es[k].depth <= (if k == 0 then 1 else es[k - 1].depth + 1)
  {
    var init := es[..|es| - 1];
    forall i: nat | i < |init|
      ensures ClimbsAt(init, i)
    {
      assert ClimbsAt(es, i);
    }
    assert ClimbsAt(es, |es| - 1);
  }

  lemma {:induction false} ForestOf(es: seq<Entry>) returns (f: Forest)
    requires Climbs(es)
    ensures Preorder(f, 1) == es
  {
    if es == [] {
      f := Empty;
    } else {
      var init, last := es[..|es| - 1], es[|es| - 1];
      assert es == init + [last];
      ClimbsInit(es);
      hide Climbs;
      f := ForestOf(init);
      if f.Include? {
        LastOfPreorder(f, 1);
      }
      AppendLists(f, 1, last);
      f := Append(f, 1, last);
    }
  }

  /** No two forests have the same listing. */
  lemma {:induction false} PreorderIsUnique(f: Forest, g: Forest, depth: nat)
    requires Preorder(f, depth) == Preorder(g, depth)
    ensures f == g
  {
    if f.Include? && g.Include? {
      PreorderSplits(f, depth);
      PreorderSplits(g, depth);
      SameSplit(Preorder(f.inner, depth + 1), Preorder(f.next, depth), Preorder(g.inner, depth + 1),
                Preorder(g.next, depth), depth);
      PreorderIsUnique(f.inner, g.inner, depth + 1);
      PreorderIsUnique(f.next, g.next, depth);
    }
  }

  lemma PreorderSplits(f: Forest, depth: nat)
    requires f.Include?
    ensures Preorder(f, depth) != [] && Preorder(f, depth)[0].path == f.path
    ensures Preorder(f, depth)[1..] == Preorder(f.inner, depth + 1) + Preorder(f.next, depth)
    ensures forall e | e in Preorder(f.inner, depth + 1) :: e.depth > depth
    ensures Preorder(f.next, depth) != [] ==> Preorder(f.next, depth)[0].depth == depth
  {
    PreorderDepths(f.inner, depth + 1);
    PreorderDepths(f.next, depth);
  }

  /** The first `n` entries are deeper than `depth`, the one after them is not. */
  predicate DeepUntil(es: seq<Entry>, n: nat, depth: nat) {
    n <= |es| && (forall i | 0 <= i < n :: es[i].depth > depth) && (n < |es| ==> es[n].depth <= depth)
  }

  lemma SameSplit(a: seq<Entry>, b: seq<Entry>, c: seq<Entry>, d: seq<Entry>, depth: nat)
    requires a + b == c + d
    requires (forall e | e in a :: e.depth > depth) && (b != [] ==> b[0].depth == depth)
    requires (forall e | e in c :: e.depth > depth) && (d != [] ==> d[0].depth == depth)
    ensures a == c && b == d
  {
    assert DeepUntil(a + b, |a|, depth);
    assert DeepUntil(c + d, |c|, depth);
    assert a == (a + b)[..|a|] && c == (c + d)[..|c|];
    assert b == (a + b)[|a|..] && d == (c + d)[|c|..];
  }
}
