/** Grouping linked memories: the connected components of the link graph, found with an explicit stack. */
module Clusters {
  import opened Sorting
  import opened Ordering

  // Connection.

  ghost predicate Linked(links: seq<(int, int)>, a: int, b: int) {
    (a, b) in links || (b, a) in links
  }

  ghost predicate Path(links: seq<(int, int)>, p: seq<int>) {
    |p| > 0 && forall i :: 0 <= i < |p| - 1 ==> Linked(links, p[i], p[i + 1])
  }

  ghost predicate Joins(links: seq<(int, int)>, p: seq<int>, a: int, b: int) {
    Path(links, p) && p[0] == a && p[|p| - 1] == b
  }

  ghost predicate Connected(links: seq<(int, int)>, a: int, b: int) {
    exists p :: Joins(links, p, a, b)
  }

  lemma ConnectedToItself(links: seq<(int, int)>, a: int)
    ensures Connected(links, a, a)
  {
    assert Joins(links, [a], a, a);
  }

  lemma ConnectedOnward(links: seq<(int, int)>, a: int, b: int, c: int)
    requires Connected(links, a, b) && Linked(links, b, c)
    ensures Connected(links, a, c)
  {
    var p :| Joins(links, p, a, b);
    assert Joins(links, p + [c], a, c);
  }

  lemma ConnectedBack(links: seq<(int, int)>, a: int, b: int)
    requires Connected(links, a, b)
    ensures Connected(links, b, a)
  {
    var p :| Joins(links, p, a, b);
    var q := seq(|p|, i requires 0 <= i < |p| => p[|p| - 1 - i]);
    forall i | 0 <= i < |q| - 1
      ensures Linked(links, q[i], q[i + 1])
    {
      assert Linked(links, p[|p| - 2 - i], p[|p| - 2 - i + 1]);
    }
    assert Joins(links, q, b, a);
  }

  lemma ConnectedThrough(links: seq<(int, int)>, a: int, b: int, c: int)
    requires Connected(links, a, b) && Connected(links, b, c)
    ensures Connected(links, a, c)
  {
    var p :| Joins(links, p, a, b);
    var q :| Joins(links, q, b, c);
    var r := p + q[1..];
    forall i | 0 <= i < |r| - 1
      ensures Linked(links, r[i], r[i + 1])
    {
      if i >= |p| - 1 {
        assert r[i] == q[i - (|p| - 1)] && r[i + 1] == q[i - (|p| - 1) + 1];
      }
    }
    assert Joins(links, r, a, c);
  }

  /** No link leads out of the set. */
  ghost predicate Closed(links: seq<(int, int)>, s: set<int>) {
    forall a, b :: a in s && Linked(links, a, b) ==> b in s
  }

  lemma {:induction false} ClosedHoldsPaths(links: seq<(int, int)>, s: set<int>, p: seq<int>)
    requires Closed(links, s) && Path(links, p) && p[0] in s
    ensures p[|p| - 1] in s
    decreases |p|
  {
    if |p| > 1 {
      assert Linked(links, p[0], p[1]);
      forall i | 0 <= i < |p[1..]| - 1
        ensures Linked(links, p[1..][i], p[1..][i + 1])
      {
        assert Linked(links, p[i + 1], p[i + 1 + 1]);
      }
      ClosedHoldsPaths(links, s, p[1..]);
    }
  }

  lemma ClosedHoldsConnected(links: seq<(int, int)>, s: set<int>, a: int, b: int)
    requires Closed(links, s) && a in s && Connected(links, a, b)
    ensures b in s
  {
    var p :| Joins(links, p, a, b);
    ClosedHoldsPaths(links, s, p);
  }

  // What the clusters are.

  predicate Ascending(s: seq<int>) {
    forall i, j :: 0 <= i < j < |s| ==> s[i] < s[j]
  }

  /** The list is the connected component of each of its members, in order. */
  ghost predicate IsComponent(nodes: seq<int>, links: seq<(int, int)>, c: seq<int>) {
    && |c| >= 2 && Ascending(c)
    && forall a :: a in c ==> (a in nodes && forall b :: b in c <==> Connected(links, a, b))
  }

  ghost predicate Clustered(clusters: seq<seq<int>>, a: int) {
    exists i :: 0 <= i < |clusters| && a in clusters[i]
  }

  /** Exactly the components of at least two nodes, listed by their first members. */
  ghost predicate IsClustering(nodes: seq<int>, links: seq<(int, int)>, clusters: seq<seq<int>>) {
    && (forall i :: 0 <= i < |clusters| ==> IsComponent(nodes, links, clusters[i]))
    && (forall i, j :: 0 <= i < j < |clusters|
         ==> |clusters[i]| > 0 && |clusters[j]| > 0 && clusters[i][0] < clusters[j][0])
    && (forall a, b :: a in nodes && a != b && Connected(links, a, b) ==> Clustered(clusters, a))
  }

  lemma {:induction false} AscendingSame(s: seq<int>, t: seq<int>)
    requires Ascending(s) && Ascending(t) && forall x :: x in s <==> x in t
    ensures s == t
  {
    if |s| == 0 {
      HasMember(t);
    } else {
      var m := s[0];
      assert m in s && m in t;
      var k :| 0 <= k < |t| && t[k] == m;
      var y := t[0];
      assert y in t && y in s;
      var l :| 0 <= l < |s| && s[l] == y;
      assert s[0] == t[0];
      forall x
        ensures x in s[1..] <==> x in t[1..]
      {
        assert x in s <==> x == s[0] || x in s[1..];
        assert x in t <==> x == t[0] || x in t[1..];
        assert s[0] !in s[1..] && t[0] !in t[1..];
      }
      AscendingSame(s[1..], t[1..]);
    }
  }

  function Firsts(clusters: seq<seq<int>>): (r: seq<int>)
    requires forall i :: 0 <= i < |clusters| ==> |clusters[i]| > 0
    ensures |r| == |clusters| && forall i :: 0 <= i < |r| ==> r[i] == clusters[i][0]
  {
    seq(|clusters|, i requires 0 <= i < |clusters| => clusters[i][0])
  }

  /** A component of one clustering is a component of the other. */
  lemma ComponentShared(nodes: seq<int>, links: seq<(int, int)>, one: seq<seq<int>>, two: seq<seq<int>>, i: nat)
    requires IsClustering(nodes, links, one) && IsClustering(nodes, links, two) && i < |one|
    ensures one[i] in two
  {
    var c := one[i];
    assert IsComponent(nodes, links, c);
    var a, b := c[0], c[1];
    assert a in c && b in c;
    assert Clustered(two, a);
    var j :| 0 <= j < |two| && a in two[j];
    assert IsComponent(nodes, links, two[j]);
    AscendingSame(c, two[j]);
    assert two[j] in two;
  }

  lemma SharedFirsts(nodes: seq<int>, links: seq<(int, int)>, one: seq<seq<int>>, two: seq<seq<int>>, x: int)
    requires IsClustering(nodes, links, one) && IsClustering(nodes, links, two)
    requires x in Firsts(one)
    ensures x in Firsts(two)
  {
    var k :| 0 <= k < |one| && Firsts(one)[k] == x;
    ComponentShared(nodes, links, one, two, k);
    var j :| 0 <= j < |two| && two[j] == one[k];
    assert Firsts(two)[j] == x;
  }

  /** There is only one clustering. */
  lemma ClusteringIsUnique(nodes: seq<int>, links: seq<(int, int)>, one: seq<seq<int>>, two: seq<seq<int>>)
    requires IsClustering(nodes, links, one) && IsClustering(nodes, links, two)
    ensures one == two
  {
    var s, t := Firsts(one), Firsts(two);
    forall x
      ensures x in s <==> x in t
    {
      if x in s {
        SharedFirsts(nodes, links, one, two, x);
      }
      if x in t {
        SharedFirsts(nodes, links, two, one, x);
      }
    }
    AscendingSame(s, t);
    forall i | 0 <= i < |one|
      ensures one[i] == two[i]
    {
      ComponentShared(nodes, links, one, two, i);
      var j :| 0 <= j < |two| && two[j] == one[i];
      assert t[j] == s[i] == t[i];
    }
  }

  lemma ConnectedAlike(links: seq<(int, int)>, other: seq<(int, int)>, a: int, b: int)
    requires forall x, y :: Linked(links, x, y) == Linked(other, x, y)
    ensures Connected(links, a, b) == Connected(other, a, b)
  {
    if Connected(links, a, b) {
      var p :| Joins(links, p, a, b);
      assert Joins(other, p, a, b);
    }
    if Connected(other, a, b) {
      var p :| Joins(other, p, a, b);
      assert Joins(links, p, a, b);
    }
  }

  /** The order, direction and repetition of links, and the order and repetition of nodes, do not matter. */
  lemma SameGraphSameClusters(nodes: seq<int>, links: seq<(int, int)>, clusters: seq<seq<int>>,
                              otherNodes: seq<int>, otherLinks: seq<(int, int)>, others: seq<seq<int>>)
    requires forall x, y :: Linked(links, x, y) == Linked(otherLinks, x, y)
    requires forall x :: x in nodes <==> x in otherNodes
    requires IsClustering(nodes, links, clusters) && IsClustering(otherNodes, otherLinks, others)
    ensures clusters == others
  {
    forall a, b
      ensures Connected(links, a, b) == Connected(otherLinks, a, b)
    {
      ConnectedAlike(links, otherLinks, a, b);
    }
    hide Connected, Linked;
    forall i | 0 <= i < |others|
      ensures IsComponent(nodes, links, others[i])
    {
      assert IsComponent(otherNodes, otherLinks, others[i]);
    }
    assert IsClustering(nodes, links, others);
    ClusteringIsUnique(nodes, links, clusters, others);
  }

  // The algorithm.

  method SortedSet(s: set<int>) returns (r: seq<int>)
    ensures Ascending(r) && forall x :: x in r <==> x in s
  {
    var items: seq<int> := [];
    var left := s;
    while left != {}
      invariant left <= s && Distinct(items)
      invariant forall x :: x in items <==> x in s && x !in left
      decreases |left|
    {
      Inhabited(left);
      var x :| x in left;
      items := items + [x];
      left := left - {x};
    }
    r := SortBy(IntLess, items);
    SortKeepsDistinct(IntLess, items);
    SortSorts(IntLess, items);
    forall x
      ensures x in r <==> x in s
    {
      SortSameMembers(IntLess, items, x);
    }
    hide SortBy;
    forall i, j | 0 <= i < j < |r|
      ensures r[i] < r[j]
    {
      assert !IntLess(r[j], r[i]) && r[i] != r[j];
    }
  }

  ghost predicate Neighbours(nodes: seq<int>, links: seq<(int, int)>, neighbours: map<int, set<int>>) {
    && (forall a :: a in neighbours <==> a in nodes)
    && forall a, b :: a in neighbours ==> (b in neighbours[a] <==> Linked(links, a, b))
  }

  ghost predicate Within(nodes: seq<int>, links: seq<(int, int)>) {
    forall k :: 0 <= k < |links| ==> links[k].0 in nodes && links[k].1 in nodes
  }

  method BuildNeighbours(nodes: seq<int>, links: seq<(int, int)>) returns (neighbours: map<int, set<int>>)
    requires Within(nodes, links)
    ensures Neighbours(nodes, links, neighbours)
  {
    neighbours := map node | node in nodes :: {};
    for k := 0 to |links|
      invariant Neighbours(nodes, links[..k], neighbours)
    {
      assert links[..k + 1] == links[..k] + [links[k]];
      var (left, right) := links[k];
      assert left in nodes && right in nodes;
      ghost var before := neighbours;
      neighbours := neighbours[left := neighbours[left] + {right}];
      neighbours := neighbours[right := neighbours[right] + {left}];
      forall a, b | a in neighbours
        ensures b in neighbours[a] <==> Linked(links[..k + 1], a, b)
      {
        assert b in neighbours[a] <==> b in before[a] || (a, b) == links[k] || (b, a) == links[k];
        assert b in before[a] <==> Linked(links[..k], a, b);
      }
    }
    assert links[..|links|] == links;
  }

  /** Depth first from the start, the stack holding nodes to visit, some perhaps more than once. */
  method Component(nodes: seq<int>, links: seq<(int, int)>, neighbours: map<int, set<int>>, start: int)
    returns (component: set<int>)
    requires Neighbours(nodes, links, neighbours) && Within(nodes, links) && start in nodes
    ensures forall b :: b in component <==> Connected(links, start, b)
    ensures forall b :: b in component ==> b in nodes
  {
    ConnectedToItself(links, start);
    var stack := [start];
    component := {};
    ghost var all := set node | node in nodes;
    while |stack| > 0
      invariant component <= all && forall x :: x in stack ==> x in all
      invariant start in component || start in stack
      invariant forall b :: b in component || b in stack ==> Connected(links, start, b)
      invariant forall a, b :: a in component && Linked(links, a, b) ==> b in component || b in stack
      decreases |all - component|, |stack|
    {
      hide Connected, Linked;
      var current := stack[|stack| - 1];
      assert current in stack;
      ghost var before := stack;
      stack := stack[..|stack| - 1];
      assert forall x :: x in before <==> x in stack || x == current;
      if current !in component {
        ghost var known := component;
        component := component + {current};
        assert all - component == (all - known) - {current};
        var next := SortedSet(neighbours[current] - component);
        Reachable(links, neighbours, nodes, start, current, next);
        ghost var popped := stack;
        stack := stack + seq(|next|, i requires 0 <= i < |next| => next[|next| - 1 - i]);
        StackHolds(popped, next, stack);
        forall a, b | a in component && Linked(links, a, b)
          ensures b in component || b in stack
        {
          if a == current {
            assert b in neighbours[current];
          }
        }
      }
    }
    ClosedIsConnected(links, component, start);
  }

  lemma ClosedIsConnected(links: seq<(int, int)>, s: set<int>, start: int)
    requires start in s && Closed(links, s) && forall b :: b in s ==> Connected(links, start, b)
    ensures forall b :: b in s <==> Connected(links, start, b)
  {
    forall b | Connected(links, start, b)
      ensures b in s
    {
      ClosedHoldsConnected(links, s, start, b);
    }
  }

  lemma Reachable(links: seq<(int, int)>, neighbours: map<int, set<int>>, nodes: seq<int>, start: int, current: int,
                  next: seq<int>)
    requires Neighbours(nodes, links, neighbours) && Within(nodes, links) && current in neighbours
      && Connected(links, start, current)
    requires forall x :: x in next ==> x in neighbours[current]
    ensures forall x :: x in next ==> Connected(links, start, x) && x in nodes
  {
    forall x | x in next
      ensures Connected(links, start, x) && x in nodes
    {
      assert Linked(links, current, x);
      ConnectedOnward(links, start, current, x);
      assert (current, x) in links || (x, current) in links;
    }
  }

  lemma StackHolds(popped: seq<int>, next: seq<int>, stack: seq<int>)
    requires stack == popped + seq(|next|, i requires 0 <= i < |next| => next[|next| - 1 - i])
    ensures forall x :: x in stack <==> x in popped || x in next
  {
    forall x | x in next
      ensures x in stack
    {
      var i :| 0 <= i < |next| && next[i] == x;
      assert stack[|popped| + |next| - 1 - i] == x;
    }
  }

  predicate ClusterLess(a: seq<int>, b: seq<int>) {
    LexLess(IntLess, a, b)
  }

  /** What has been found when the nodes that remain are these. */
  ghost predicate Progress(nodes: seq<int>, links: seq<(int, int)>, result: seq<seq<int>>, remaining: set<int>) {
    && (forall i :: 0 <= i < |result| ==> IsComponent(nodes, links, result[i]))
    && (forall i, j :: 0 <= i < j < |result| ==> |result[i]| > 0 && |result[j]| > 0 && result[i][0] < result[j][0])
    && (forall i, x :: 0 <= i < |result| && x in remaining ==> |result[i]| > 0 && result[i][0] < x)
    && (forall x :: x in remaining ==> x in nodes)
    && Closed(links, remaining)
    && (forall a, b :: a in nodes && a !in remaining && a != b && Connected(links, a, b) ==> Clustered(result, a))
  }

  method FindClusters(nodes: seq<int>, links: seq<(int, int)>) returns (clusters: seq<seq<int>>)
    requires Within(nodes, links)
    ensures IsClustering(nodes, links, clusters)
  {
    var neighbours := BuildNeighbours(nodes, links);
    var remaining := set node | node in nodes;
    var result: seq<seq<int>> := [];
    assert Progress(nodes, links, result, remaining) by { AllRemain(nodes, links, remaining); }
    while remaining != {}
      invariant Progress(nodes, links, result, remaining)
      decreases |remaining|
    {
      hide Connected, Linked, Clustered, IsComponent;
      var start := Least(remaining);
      var component := Component(nodes, links, neighbours, start);
      ComponentRemains(nodes, links, result, remaining, start, component);
      ghost var before := remaining;
      remaining := remaining - component;
      if |component| > 1 {
        var sorted := SortedSet(component);
        Found(nodes, links, result, before, start, component, sorted);
        result := result + [sorted];
      } else {
        Alone(nodes, links, result, before, start, component);
      }
    }
    FirstsSortClusters(nodes, links, result);
    clusters := SortBy(ClusterLess, result);
  }

  method Least(s: set<int>) returns (m: int)
    requires s != {}
    ensures m in s && forall x :: x in s ==> m <= x
  {
    Inhabited(s);
    m :| m in s;
    var left := s - {m};
    while left != {}
      invariant left <= s && m in s
      invariant forall x :: x in s && x !in left ==> m <= x
      decreases |left|
    {
      Inhabited(left);
      var x :| x in left;
      left := left - {x};
      if x < m {
        m := x;
      }
    }
  }

  lemma AllRemain(nodes: seq<int>, links: seq<(int, int)>, remaining: set<int>)
    requires Within(nodes, links) && remaining == set node | node in nodes
    ensures Progress(nodes, links, [], remaining)
  {
  }

  lemma ComponentRemains(nodes: seq<int>, links: seq<(int, int)>, result: seq<seq<int>>, remaining: set<int>,
                         start: int, component: set<int>)
    requires Progress(nodes, links, result, remaining) && start in remaining
    requires forall b :: b in component <==> Connected(links, start, b)
    ensures component <= remaining && start in component && Closed(links, remaining - component)
  {
    ConnectedToItself(links, start);
    forall b | b in component
      ensures b in remaining
    {
      ClosedHoldsConnected(links, remaining, start, b);
    }
    forall a, b | a in remaining - component && Linked(links, a, b)
      ensures b in remaining - component
    {
      if b in component {
        ConnectedOnward(links, start, b, a);
      }
    }
  }

  lemma ComponentOfEach(links: seq<(int, int)>, start: int, component: set<int>, a: int)
    requires forall b :: b in component <==> Connected(links, start, b)
    requires a in component
    ensures forall b :: b in component <==> Connected(links, a, b)
  {
    forall b
      ensures b in component <==> Connected(links, a, b)
    {
      if b in component {
        ConnectedBack(links, start, a);
        ConnectedThrough(links, a, start, b);
      }
      if Connected(links, a, b) {
        ConnectedThrough(links, start, a, b);
      }
    }
  }

  lemma Found(nodes: seq<int>, links: seq<(int, int)>, result: seq<seq<int>>, remaining: set<int>, start: int,
              component: set<int>, sorted: seq<int>)
    requires Progress(nodes, links, result, remaining) && start in remaining
    requires forall x :: x in remaining ==> start <= x
    requires forall b :: b in component <==> Connected(links, start, b)
    requires component <= remaining && start in component && Closed(links, remaining - component) && |component| > 1
    requires Ascending(sorted) && forall x :: x in sorted <==> x in component
    ensures Progress(nodes, links, result + [sorted], remaining - component)
  {
    forall a | a in sorted
      ensures forall b :: b in sorted <==> Connected(links, a, b)
    {
      ComponentOfEach(links, start, component, a);
    }
    SizeKept(sorted, component);
    assert IsComponent(nodes, links, sorted);
    var first := sorted[0];
    assert first in sorted && start in sorted;
    var k :| 0 <= k < |sorted| && sorted[k] == start;
    assert sorted[0] == start;
    var more := result + [sorted];
    hide IsComponent, Connected, Closed, Ascending;
    forall a, b | a in nodes && a !in remaining - component && a != b && Connected(links, a, b)
      ensures Clustered(more, a)
    {
      if a in remaining {
        assert more[|result|] == sorted && a in sorted;
      } else {
        assert Clustered(result, a);
        var i :| 0 <= i < |result| && a in result[i];
        assert more[i] == result[i];
      }
    }
  }

  lemma SizeKept(s: seq<int>, t: set<int>)
    requires forall x :: x in s <==> x in t
    ensures |t| <= |s|
    decreases |s|
  {
    if |s| == 0 {
      assert forall x :: x in t ==> x in s;
      assert t == {};
    } else {
      var m := s[0];
      assert m in s;
      if m in s[1..] {
        assert forall x :: x in s[1..] <==> x in s;
        SizeKept(s[1..], t);
      } else {
        forall x
          ensures x in s[1..] <==> x in t - {m}
        {
          assert x in s <==> x == m || x in s[1..];
        }
        SizeKept(s[1..], t - {m});
        assert t == (t - {m}) + {m};
      }
    }
  }

  lemma Alone(nodes: seq<int>, links: seq<(int, int)>, result: seq<seq<int>>, remaining: set<int>, start: int,
              component: set<int>)
    requires Progress(nodes, links, result, remaining) && start in component && |component| <= 1
    requires forall b :: b in component <==> Connected(links, start, b)
    requires Closed(links, remaining - component)
    ensures Progress(nodes, links, result, remaining - component)
  {
    assert component == {start} by {
      assert |component - {start}| == |component| - 1;
    }
    hide IsComponent, Closed, Clustered, Connected;
    forall a, b | a in nodes && a !in remaining - component && a != b && Connected(links, a, b)
      ensures Clustered(result, a)
    {
      assert a in component ==> b in component;
      assert b in component ==> b == start;
    }
  }

  /** The clusters are found in order already. */
  lemma FirstsSortClusters(nodes: seq<int>, links: seq<(int, int)>, result: seq<seq<int>>)
    requires Progress(nodes, links, result, {})
    ensures SortBy(ClusterLess, result) == result && IsClustering(nodes, links, result)
  {
    hide IsComponent, Connected, Clustered;
    forall i, j | 0 <= i < j < |result|
      ensures !ClusterLess(result[j], result[i])
    {
      assert |result[i]| > 0 && |result[j]| > 0 && result[i][0] < result[j][0];
    }
    SortFixesSorted(ClusterLess, result);
  }
}
