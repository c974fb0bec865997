/**
 Finite directed graphs: paths, cycles, and the fact that a finite set of nodes
 that each point back into the set leads to a cycle.
 */
module FiniteGraph {

  type Graph<T> = map<T, set<T>>

  ghost predicate Edge<T(!new)>(g: Graph<T>, x: T, y: T) {
    x in g && y in g[x]
  }

  /** A nonempty sequence of nodes, each with an edge to the next. */
  ghost predicate Path<T(!new)>(g: Graph<T>, p: seq<T>) {
    p != [] && forall k :: 0 <= k < |p| - 1 ==> Edge(g, p[k], p[k + 1])
  }

  ghost predicate PathFromTo<T(!new)>(g: Graph<T>, p: seq<T>, x: T, y: T) {
    Path(g, p) && p[0] == x && p[|p| - 1] == y
  }

  ghost predicate OnCycle<T(!new)>(g: Graph<T>, x: T) {
    exists p :: PathFromTo(g, p, x, x) && |p| >= 2
  }

  ghost predicate Acyclic<T(!new)>(g: Graph<T>) {
    forall x :: !OnCycle(g, x)
  }

  ghost predicate ReachesCycle<T(!new)>(g: Graph<T>, x: T) {
    exists p, y :: PathFromTo(g, p, x, y) && OnCycle(g, y)
  }

  ghost predicate HasNext<T(!new)>(g: Graph<T>, s: set<T>, x: T) {
    exists y :: y in s && Edge(g, x, y)
  }

  /** Every node of `s` has an edge to a node of `s`. */
  ghost predicate PointsBack<T(!new)>(g: Graph<T>, s: set<T>) {
    forall x {:trigger HasNext(g, s, x)} :: x in s ==> HasNext(g, s, x)
  }

  lemma NextInside<T(!new)>(g: Graph<T>, s: set<T>, x: T) returns (y: T)
    requires PointsBack(g, s) && x in s
    ensures y in s && Edge(g, x, y)
  {
    assert HasNext(g, s, x);
    y :| y in s && Edge(g, x, y);
  }

  /** A walk inside `s` with `n` edges. */
  lemma {:induction false} Walk<T(!new)>(g: Graph<T>, s: set<T>, x: T, n: nat) returns (p: seq<T>)
    requires PointsBack(g, s) && x in s
    ensures Path(g, p) && p[0] == x && |p| == n + 1
    ensures forall k :: 0 <= k < |p| ==> p[k] in s
  {
    hide PointsBack;
    if n == 0 {
      p := [x];
    } else {
      var y := NextInside(g, s, x);
      var q := Walk(g, s, y, n - 1);
      p := [x] + q;
      hide Edge;
      forall k | 0 <= k < |p| - 1
        ensures Edge(g, p[k], p[k + 1])
      {
        assert k > 0 ==> Edge(g, q[k - 1], q[k]);
      }
    }
  }

  /** A sequence longer than the set its elements come from repeats one. */
  lemma {:induction false} Pigeonhole<T>(p: seq<T>, s: set<T>) returns (i: nat, j: nat)
    requires |p| > |s|
    requires forall k :: 0 <= k < |p| ==> p[k] in s
    ensures i < j < |p| && p[i] == p[j]
  {
    var last := p[|p| - 1];
    if k :| 0 <= k < |p| - 1 && p[k] == last {
      i, j := k, |p| - 1;
    } else {
      assert |s - {last}| == |s| - 1;
      i, j := Pigeonhole(p[..|p| - 1], s - {last});
    }
  }

  lemma Subpath<T(!new)>(g: Graph<T>, p: seq<T>, i: nat, j: nat)
    requires Path(g, p) && i <= j < |p|
    ensures PathFromTo(g, p[i..j + 1], p[i], p[j])
  {
    hide Edge;
    var q := p[i..j + 1];
    forall k | 0 <= k < |q| - 1
      ensures Edge(g, q[k], q[k + 1])
    {
      assert Edge(g, p[i + k], p[i + k + 1]);
    }
  }

  /** From every node of a finite set that points back into itself a cycle is reachable. */
  lemma PointingBackReachesCycle<T(!new)>(g: Graph<T>, s: set<T>, x: T)
    requires PointsBack(g, s) && x in s
    ensures ReachesCycle(g, x)
  {
    hide PointsBack, Path, Edge;
    var p := Walk(g, s, x, |s|);
    var i, j := Pigeonhole(p, s);
    Subpath(g, p, i, j);
    Subpath(g, p, 0, i);
    assert OnCycle(g, p[i]);
  }

  lemma AcyclicReachesNoCycle<T(!new)>(g: Graph<T>, x: T)
    requires Acyclic(g)
    ensures !ReachesCycle(g, x)
  {
    hide Path, Edge;
  }

  /** In an acyclic graph every nonempty finite set has a node without an edge into it. */
  lemma AcyclicHasSink<T(!new)>(g: Graph<T>, s: set<T>) returns (x: T)
    requires Acyclic(g) && s != {}
    ensures x in s && forall y :: y in s ==> !Edge(g, x, y)
  {
    hide Edge;
    var z :| z in s;
    AcyclicReachesNoCycle(g, z);
    assert !PointsBack(g, s) by {
      hide PointsBack;
      if PointsBack(g, s) {
        PointingBackReachesCycle(g, s, z);
      }
    }
    x :| x in s && !HasNext(g, s, x);
  }

  /** Edges that always lead to a smaller index cannot reach a cycle. */
  lemma {:induction false} DescendingPath<T(!new)>(g: Graph<T>, index: map<T, nat>, p: seq<T>)
    requires Path(g, p) && p[0] in index
    requires forall x, y :: x in index && Edge(g, x, y) ==> y in index && index[y] < index[x]
    ensures forall k :: 0 <= k < |p| ==> p[k] in index
    ensures |p| >= 2 ==> index[p[|p| - 1]] < index[p[0]]
  {
    hide Edge;
    if |p| >= 2 {
      var q := p[..|p| - 1];
      forall k | 0 <= k < |q| - 1
        ensures Edge(g, q[k], q[k + 1])
      {
        assert Edge(g, p[k], p[k + 1]);
      }
      DescendingPath(g, index, q);
      assert Edge(g, p[|p| - 2], p[|p| - 1]);
    }
  }

  lemma DescendingReachesNoCycle<T(!new)>(g: Graph<T>, index: map<T, nat>, x: T)
    requires x in index
    requires forall x, y :: x in index && Edge(g, x, y) ==> y in index && index[y] < index[x]
    ensures !ReachesCycle(g, x)
  {
    hide Edge, Path;
    forall p, y | PathFromTo(g, p, x, y)
      ensures !OnCycle(g, y)
    {
      PathStaysInside(g, index, p, x, y);
      forall q | PathFromTo(g, q, y, y)
        ensures |q| < 2
      {
        PathStaysInside(g, index, q, y, y);
      }
    }
  }

  lemma PathStaysInside<T(!new)>(g: Graph<T>, index: map<T, nat>, p: seq<T>, x: T, y: T)
    requires PathFromTo(g, p, x, y) && x in index
    requires forall x, y :: x in index && Edge(g, x, y) ==> y in index && index[y] < index[x]
    ensures y in index
    ensures |p| >= 2 ==> index[y] < index[x]
  {
    hide Edge;
    DescendingPath(g, index, p);
  }
}
