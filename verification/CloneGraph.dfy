/** Connected components of the graph of matched locations. */
module CloneGraph {
  import opened Basics
  import Orders

  /** A line range of one file. */
  datatype Loc = Loc(file: nat, start: nat, end: nat)

  /** Neighbours of every location. */
  type Graph = map<Loc, set<Loc>>

  ghost predicate Symmetric(g: Graph) {
    forall a, b | a in g && b in g[a] :: b in g && a in g[b]
  }

  ghost predicate StepAt(g: Graph, path: seq<Loc>, i: nat)
    requires i + 1 < |path|
  {
    path[i] in g && path[i + 1] in g[path[i]]
  }

  /** A walk along neighbours. */
  ghost predicate IsPath(g: Graph, path: seq<Loc>) {
    path != [] && path[0] in g && forall i: nat | i + 1 < |path| :: StepAt(g, path, i)
  }

  ghost predicate Joins(g: Graph, path: seq<Loc>, a: Loc, b: Loc) {
    IsPath(g, path) && path[0] == a && path[|path| - 1] == b
  }

  ghost predicate Connected(g: Graph, a: Loc, b: Loc) {
    exists path :: Joins(g, path, a, b)
  }

  ghost predicate ClosedUnder(g: Graph, s: set<Loc>) {
    forall a | a in s && a in g :: g[a] <= s
  }

  lemma ConnectedSelf(g: Graph, a: Loc)
    requires a in g
    ensures Connected(g, a, a)
  {
    assert Joins(g, [a], a, a);
  }

  lemma ConnectedStep(g: Graph, a: Loc, b: Loc, c: Loc)
    requires Connected(g, a, b) && b in g && c in g[b]
    ensures Connected(g, a, c)
  {
    var path :| Joins(g, path, a, b);
    forall i: nat | i + 1 < |path + [c]|
      ensures StepAt(g, path + [c], i)
    {
      if i + 1 < |path| {
        assert StepAt(g, path, i);
      }
    }
    assert Joins(g, path + [c], a, c);
  }

  lemma {:induction false} PathStaysInside(g: Graph, s: set<Loc>, path: seq<Loc>, i: nat)
    requires ClosedUnder(g, s) && IsPath(g, path) && path[0] in s && i < |path|
    ensures path[i] in s
  {
    if i > 0 {
      PathStaysInside(g, s, path, i - 1);
      assert StepAt(g, path, i - 1);
    }
  }

  lemma ConnectedInside(g: Graph, s: set<Loc>, a: Loc, b: Loc)
    requires ClosedUnder(g, s) && a in s && Connected(g, a, b)
    ensures b in s
  {
    var path :| Joins(g, path, a, b);
    PathStaysInside(g, s, path, |path| - 1);
  }

  lemma {:induction false} ConnectedBack(g: Graph, path: seq<Loc>, a: Loc, b: Loc)
    requires Symmetric(g) && Joins(g, path, a, b)
    ensures Connected(g, b, a) && b in g
    decreases |path|
  {
    if |path| == 1 {
      ConnectedSelf(g, a);
    } else {
      var second := path[1];
      assert StepAt(g, path, 0);
      forall i: nat | i + 1 < |path[1..]|
        ensures StepAt(g, path[1..], i)
      {
        assert StepAt(g, path, i + 1);
      }
      assert Joins(g, path[1..], second, b);
      ConnectedBack(g, path[1..], second, b);
      ConnectedStep(g, b, second, a);
    }
  }

  lemma ConnectedSymmetric(g: Graph, a: Loc, b: Loc)
    requires Symmetric(g) && Connected(g, a, b)
    ensures Connected(g, b, a)
  {
    var path :| Joins(g, path, a, b);
    ConnectedBack(g, path, a, b);
  }

  lemma ConnectedTransitive(g: Graph, a: Loc, b: Loc, c: Loc)
    requires Connected(g, a, b) && Connected(g, b, c)
    ensures Connected(g, a, c)
  {
    var p :| Joins(g, p, a, b);
    var q :| Joins(g, q, b, c);
    var r := p + q[1..];
    forall i: nat | i + 1 < |r|
      ensures StepAt(g, r, i)
    {
      if i + 1 < |p| {
        assert StepAt(g, p, i);
      } else {
        assert StepAt(g, q, i - |p| + 1);
      }
    }
    assert r[|r| - 1] == c;
    assert Joins(g, r, a, c);
  }

  /** `list` is the whole component of each of its members. */
  ghost predicate IsComponent(g: Graph, list: seq<Loc>) {
    && list != [] && (forall a <- list :: a in g)
    && Orders.NoRepeats(list)
    && forall a, b | a in list :: b in list <==> Connected(g, a, b)
  }

  /** What the search from `node` has reached: collected in `component`, waiting in `queue`. */
  ghost predicate Searching(g: Graph, node: Loc, earlier: set<Loc>, visited: set<Loc>,
                            component: seq<Loc>, queue: seq<Loc>)
  {
    && visited <= g.Keys
    && (forall a :: a in visited <==> a in earlier || a in component || a in queue)
    && (forall a | a in component || a in queue :: a !in earlier && Connected(g, node, a))
    && Orders.NoRepeats(component) && Orders.NoRepeats(queue) && (forall a <- component :: a !in queue)
    && (forall a <- component :: g[a] <= visited)
  }

  lemma SearchPop(g: Graph, node: Loc, earlier: set<Loc>, visited: set<Loc>, component: seq<Loc>, queue: seq<Loc>)
    requires Searching(g, node, earlier, visited, component, queue) && queue != []
    ensures var current, rest := queue[|queue| - 1], queue[..|queue| - 1];
      && current in g && Connected(g, node, current)
      && Expanding(g, node, earlier, visited, component + [current], rest)
  {
  }

  /** Like Searching, while the neighbours of the last collected location are still being queued. */
  ghost predicate Expanding(g: Graph, node: Loc, earlier: set<Loc>, visited: set<Loc>,
                            component: seq<Loc>, queue: seq<Loc>)
  {
    && component != [] && visited <= g.Keys
    && (forall a :: a in visited <==> a in earlier || a in component || a in queue)
    && (forall a | a in component || a in queue :: a !in earlier && Connected(g, node, a))
    && Orders.NoRepeats(component) && Orders.NoRepeats(queue) && (forall a <- component :: a !in queue)
    && (forall a <- component[..|component| - 1] :: g[a] <= visited)
  }

  lemma SearchPush(g: Graph, node: Loc, earlier: set<Loc>, visited: set<Loc>, component: seq<Loc>, queue: seq<Loc>,
                   next: Loc)
    requires Symmetric(g) && Expanding(g, node, earlier, visited, component, queue)
    requires component[|component| - 1] in g && next in g[component[|component| - 1]] && next !in visited
    requires Connected(g, node, component[|component| - 1])
    ensures Expanding(g, node, earlier, visited + {next}, component, queue + [next])
  {
    ConnectedStep(g, node, component[|component| - 1], next);
    hide Connected;
  }

  lemma SearchExpanded(g: Graph, node: Loc, earlier: set<Loc>, visited: set<Loc>, component: seq<Loc>, queue: seq<Loc>)
    requires Expanding(g, node, earlier, visited, component, queue)
    requires component[|component| - 1] in g && g[component[|component| - 1]] <= visited
    ensures Searching(g, node, earlier, visited, component, queue)
  {
  }

  lemma SearchDone(g: Graph, node: Loc, earlier: set<Loc>, visited: set<Loc>, component: seq<Loc>)
    requires Symmetric(g) && ClosedUnder(g, earlier) && node in g && node in visited && node !in earlier
    requires Searching(g, node, earlier, visited, component, [])
    ensures IsComponent(g, component) && ClosedUnder(g, visited)
    ensures forall a :: a in visited <==> a in earlier || a in component
    ensures forall a <- component :: a !in earlier
  {
    var s := set a | a in component;
    forall a | a in component
      ensures g[a] <= s
    {
      forall b | b in g[a]
        ensures b in s
      {
        // A neighbour visited earlier would have brought `a` in earlier.
        assert a in g[b];
      }
    }
    assert ClosedUnder(g, s);
    hide IsPath;
    forall a, b | a in component
      ensures b in component <==> Connected(g, a, b)
    {
      if Connected(g, a, b) {
        ConnectedInside(g, s, a, b);
      }
      if b in component {
        ConnectedSymmetric(g, node, a);
        ConnectedTransitive(g, a, node, b);
      }
    }
  }

  /** The depth-first search from `node` over locations not visited earlier. */
  method CollectComponent(g: Graph, node: Loc, earlier: set<Loc>) returns (component: seq<Loc>, visited: set<Loc>)
    requires Symmetric(g) && ClosedUnder(g, earlier) && earlier <= g.Keys
    requires node in g && node !in earlier
    ensures IsComponent(g, component) && node in component
    ensures ClosedUnder(g, visited) && visited <= g.Keys
    ensures forall a :: a in visited <==> a in earlier || a in component
    ensures forall a <- component :: a !in earlier
  {
    component := [];
    var queue := [node];
    visited := earlier + {node};
    ConnectedSelf(g, node);
    hide Connected, IsComponent, ClosedUnder;
    assert Searching(g, node, earlier, visited, component, queue);
    hide Searching, Expanding;
    while queue != []
      invariant Searching(g, node, earlier, visited, component, queue) && node in visited && visited <= g.Keys
      decreases |g.Keys - visited|, |queue|
    {
      SearchPop(g, node, earlier, visited, component, queue);
      var current := queue[|queue| - 1];
      queue := queue[..|queue| - 1];
      component := component + [current];
      ghost var seen, waiting := visited, |queue|;
      var neighbours := g[current];
      while neighbours != {}
        invariant Expanding(g, node, earlier, visited, component, queue)
        invariant neighbours <= g[current] && g[current] - neighbours <= visited
        invariant node in visited && visited <= g.Keys && seen <= visited
        invariant visited == seen ==> |queue| == waiting
        decreases neighbours
      {
        var neighbour :| neighbour in neighbours;
        neighbours := neighbours - {neighbour};
        if neighbour !in visited {
          SearchPush(g, node, earlier, visited, component, queue, neighbour);
          visited := visited + {neighbour};
          queue := queue + [neighbour];
        }
      }
      SearchExpanded(g, node, earlier, visited, component, queue);
      if visited != seen {
        FewerLeft(g.Keys, seen, visited);
      }
    }
    SearchDone(g, node, earlier, visited, component);
    NodeCollected(component, node, earlier, visited);
  }

  lemma NodeCollected(component: seq<Loc>, node: Loc, earlier: set<Loc>, visited: set<Loc>)
    requires node in visited && node !in earlier
    requires forall a :: a in visited <==> a in earlier || a in component
    ensures node in component
  {
  }

  lemma FewerLeft(all: set<Loc>, before: set<Loc>, after: set<Loc>)
    requires before <= after <= all && before != after
    ensures |all - after| < |all - before|
  {
    var x :| x in after && x !in before;
    assert all - before == (all - before - {x}) + {x};
    assert all - after <= all - before - {x};
    SubsetSize(all - after, all - before - {x});
  }

  ghost predicate Disjoint(c: seq<Loc>, d: seq<Loc>) {
    forall a <- c :: a !in d
  }

  ghost predicate Covered(clusters: seq<seq<Loc>>, a: Loc) {
    exists i :: 0 <= i < |clusters| && a in clusters[i]
  }

  /** Every location is in exactly one listed component. */
  ghost predicate Partitions(g: Graph, clusters: seq<seq<Loc>>) {
    && (forall c <- clusters :: IsComponent(g, c))
    && Orders.NoRepeats(clusters)
    && (forall c, d | c in clusters && d in clusters && c != d :: Disjoint(c, d))
    && (forall a <- g :: Covered(clusters, a))
  }

  /** Components found so far cover exactly what has been visited. */
  ghost predicate Collected(g: Graph, clusters: seq<seq<Loc>>, visited: set<Loc>) {
    && (forall c <- clusters :: IsComponent(g, c))
    && Orders.NoRepeats(clusters)
    && (forall c, d | c in clusters && d in clusters && c != d :: Disjoint(c, d))
    && (forall a :: a in visited <==> Covered(clusters, a))
  }

  lemma CollectStep(g: Graph, clusters: seq<seq<Loc>>, earlier: set<Loc>, component: seq<Loc>, visited: set<Loc>)
    requires Collected(g, clusters, earlier) && IsComponent(g, component)
    requires forall a :: a in visited <==> a in earlier || a in component
    requires forall a <- component :: a !in earlier
    ensures Collected(g, clusters + [component], visited)
  {
    var more := clusters + [component];
    forall c | c in clusters
      ensures Disjoint(c, component) && Disjoint(component, c) && c != component
    {
      assert forall a <- c :: Covered(clusters, a);
      assert component[0] in component;
    }
    hide IsComponent, Disjoint;
    assert forall c :: c in more <==> c in clusters || c == component;
    forall a
      ensures a in visited <==> Covered(more, a)
    {
      if i :| 0 <= i < |clusters| && a in clusters[i] {
        assert more[i] == clusters[i];
      }
      if a in component {
        assert more[|clusters|] == component;
      }
      if i :| 0 <= i < |more| && a in more[i] {
        assert i < |clusters| ==> clusters[i] == more[i];
      }
    }
    assert forall i | 0 <= i < |clusters| :: more[i] in clusters;
  }

  method CollectComponents(g: Graph, nodes: seq<Loc>) returns (clusters: seq<seq<Loc>>)
    requires Symmetric(g) && forall a :: a in nodes <==> a in g
    ensures Partitions(g, clusters)
  {
    hide IsComponent, ClosedUnder, Symmetric;
    clusters := [];
    var visited: set<Loc> := {};
    assert ClosedUnder(g, visited) by {
      NothingVisited(g);
    }
    for k := 0 to |nodes|
      invariant ClosedUnder(g, visited) && visited <= g.Keys
      invariant Collected(g, clusters, visited)
      invariant forall i | 0 <= i < k :: nodes[i] in visited
    {
      hide Collected;
      if nodes[k] in visited {
        continue;
      }
      assert nodes[k] in nodes;
      var component, now := CollectComponent(g, nodes[k], visited);
      CollectStep(g, clusters, visited, component, now);
      visited := now;
      clusters := clusters + [component];
    }
    forall a | a in g
      ensures Covered(clusters, a)
    {
      var i :| 0 <= i < |nodes| && nodes[i] == a;
    }
  }

  lemma NothingVisited(g: Graph)
    ensures ClosedUnder(g, {})
  {
  }
}
