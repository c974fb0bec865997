/**
 The r-tree itself: built bottom-up, generation by generation, and searched from the
 root. A search finds exactly the rectangles that meet the query, in their order.
 */
module DisplayListTree {
  import opened DisplayListTypes

  const MAX_CHILDREN := 11

  /** Leaves come first, branches after them; a branch names consecutive nodes before it. */
  datatype Node = Leaf(bounds: Rect, id: nat) | Branch(bounds: Rect, first: nat, count: nat)

  /** The leaves under a node. */
  datatype Span = Span(lo: nat, hi: nat)

  function Union(a: Rect, b: Rect): Rect {
    if a.IsEmpty() then b
    else if b.IsEmpty() then a
    else Rect(Min(a.left, b.left), Min(a.top, b.top), Max(a.right, b.right), Max(a.bottom, b.bottom))
  }

  // ------------------------------------------------------------ the shape

  ghost predicate Consecutive(spans: seq<Span>, a: nat, b: nat)
    requires b <= |spans|
  {
    forall k :: a <= k < b - 1 ==> spans[k].hi == spans[k + 1].lo
  }

  ghost predicate BranchOk(nodes: seq<Node>, spans: seq<Span>, i: nat)
    requires i < |nodes| == |spans| && nodes[i].Branch?
  {
    var first, count := nodes[i].first, nodes[i].count;
    && 0 < count <= MAX_CHILDREN && first + count <= i
    && spans[i] == Span(spans[first].lo, spans[first + count - 1].hi)
    && Consecutive(spans, first, first + count)
    && (forall k :: first <= k < first + count ==> nodes[i].bounds.Contains(nodes[k].bounds))
  }

  ghost predicate NodeOk(nodes: seq<Node>, spans: seq<Span>, leaves: nat, i: nat)
    requires i < |nodes| == |spans|
  {
    && spans[i].lo < spans[i].hi <= leaves
    && !nodes[i].bounds.IsEmpty()
    && if i < leaves then nodes[i].Leaf? && spans[i] == Span(i, i + 1)
       else nodes[i].Branch? && BranchOk(nodes, spans, i)
  }

  ghost predicate NodesOk(nodes: seq<Node>, spans: seq<Span>, leaves: nat) {
    && leaves <= |nodes| == |spans|
    && (forall i :: 0 <= i < |nodes| ==> NodeOk(nodes, spans, leaves, i))
  }

  /** The nodes from `start` on stand for all leaves, in order. */
  ghost predicate Generation(nodes: seq<Node>, spans: seq<Span>, leaves: nat, start: nat) {
    && NodesOk(nodes, spans, leaves) && start < |nodes|
    && Consecutive(spans, start, |spans|) && spans[start].lo == 0 && spans[|spans| - 1].hi == leaves
  }

  // ------------------------------------------------------------ searching

  /** The leaves from `lo` to `hi` that meet the query, in order. */
  function Matches(nodes: seq<Node>, query: Rect, lo: nat, hi: nat): seq<nat>
    requires hi <= |nodes|
  {
    if hi <= lo then []
    else Matches(nodes, query, lo, hi - 1) + (if nodes[hi - 1].bounds.Intersects(query) then [hi - 1] else [])
  }

  predicate Meets(nodes: seq<Node>, query: Rect, lo: nat, hi: nat, k: nat) {
    lo <= k < hi && k < |nodes| && nodes[k].bounds.Intersects(query)
  }

  lemma {:induction false} MatchesExactly(nodes: seq<Node>, query: Rect, lo: nat, hi: nat, k: nat)
    requires hi <= |nodes|
    ensures k in Matches(nodes, query, lo, hi) <==> Meets(nodes, query, lo, hi, k)
  {
    if lo < hi {
      MatchesExactly(nodes, query, lo, hi - 1, k);
    }
  }

  lemma {:induction false} MatchesAscend(nodes: seq<Node>, query: Rect, lo: nat, hi: nat)
    requires hi <= |nodes|
    ensures StrictlyAscending(Matches(nodes, query, lo, hi))
  {
    if lo < hi {
      MatchesAscend(nodes, query, lo, hi - 1);
      var before := Matches(nodes, query, lo, hi - 1);
      forall j | 0 <= j < |before|
        ensures before[j] < hi - 1
      {
        MatchesExactly(nodes, query, lo, hi - 1, before[j]);
      }
      assert StrictlyAscending(before);
      assert StrictlyAscending(before + [hi - 1]);
    }
  }

  lemma {:induction false} MatchesSplit(nodes: seq<Node>, query: Rect, lo: nat, mid: nat, hi: nat)
    requires lo <= mid <= hi <= |nodes|
    ensures Matches(nodes, query, lo, hi) == Matches(nodes, query, lo, mid) + Matches(nodes, query, mid, hi)
  {
    if mid < hi {
      hide Rect.Intersects;
      MatchesSplit(nodes, query, lo, mid, hi - 1);
    }
  }

  lemma {:induction false} NoMatches(nodes: seq<Node>, query: Rect, lo: nat, hi: nat)
    requires hi <= |nodes| && forall k :: lo <= k < hi ==> !nodes[k].bounds.Intersects(query)
    ensures Matches(nodes, query, lo, hi) == []
  {
    if lo < hi {
      NoMatches(nodes, query, lo, hi - 1);
    }
  }

  lemma {:induction false} FindChild(spans: seq<Span>, first: nat, last: nat, leaf: nat) returns (k: nat)
    requires first <= last < |spans| && Consecutive(spans, first, last + 1)
    requires spans[first].lo <= leaf < spans[last].hi
    ensures first <= k <= last && spans[k].lo <= leaf < spans[k].hi
    decreases last - first
  {
    if first == last || leaf < spans[first].hi {
      k := first;
    } else {
      k := FindChild(spans, first + 1, last, leaf);
    }
  }

  lemma ContainsIsTransitive(a: Rect, b: Rect, c: Rect)
    requires a.Contains(b) && b.Contains(c)
    ensures a.Contains(c)
  {
  }

  /** The bounds of a node contain those of every leaf under it. */
  lemma {:induction false} LeavesInBounds(nodes: seq<Node>, spans: seq<Span>, leaves: nat, i: nat, leaf: nat)
    requires NodesOk(nodes, spans, leaves) && i < |nodes| && spans[i].lo <= leaf < spans[i].hi
    ensures leaf < leaves && nodes[i].bounds.Contains(nodes[leaf].bounds)
    decreases i
  {
    assert NodeOk(nodes, spans, leaves, i);
    if i >= leaves {
      hide Rect.Contains, Rect.IsEmpty;
      var first, count := nodes[i].first, nodes[i].count;
      var k := FindChild(spans, first, first + count - 1, leaf);
      LeavesInBounds(nodes, spans, leaves, k, leaf);
      ContainsIsTransitive(nodes[i].bounds, nodes[k].bounds, nodes[leaf].bounds);
    }
  }

  lemma ContainedIntersects(a: Rect, b: Rect, query: Rect)
    requires a.Contains(b) && b.Intersects(query)
    ensures a.Intersects(query)
  {
  }

  /** A node that misses the query has no match under it. */
  lemma MissedNode(nodes: seq<Node>, spans: seq<Span>, leaves: nat, i: nat, query: Rect)
    requires NodesOk(nodes, spans, leaves) && i < |nodes| && !nodes[i].bounds.Intersects(query)
    ensures spans[i].hi <= |nodes| && Matches(nodes, query, spans[i].lo, spans[i].hi) == []
  {
    assert NodeOk(nodes, spans, leaves, i);
    forall leaf | spans[i].lo <= leaf < spans[i].hi
      ensures leaf < leaves && !nodes[leaf].bounds.Intersects(query)
    {
      LeavesInBounds(nodes, spans, leaves, i, leaf);
      if nodes[leaf].bounds.Intersects(query) {
        ContainedIntersects(nodes[i].bounds, nodes[leaf].bounds, query);
      }
    }
    NoMatches(nodes, query, spans[i].lo, spans[i].hi);
  }

  // ------------------------------------------------------------- building

  lemma UnionContains(a: Rect, b: Rect)
    requires !b.IsEmpty()
    ensures !Union(a, b).IsEmpty() && Union(a, b).Contains(b) && (!a.IsEmpty() ==> Union(a, b).Contains(a))
  {
  }

  lemma UnionStillContains(a: Rect, b: Rect, c: Rect)
    requires a.Contains(c) && !b.IsEmpty()
    ensures Union(a, b).Contains(c)
  {
    UnionContains(a, b);
    ContainsIsTransitive(Union(a, b), a, c);
  }

  /** A new branch over one node keeps the tree in shape. */
  lemma NewBranch(nodes: seq<Node>, spans: seq<Span>, leaves: nat, child: nat)
    requires NodesOk(nodes, spans, leaves) && child < |nodes|
    ensures var more := nodes + [Branch(Union(EMPTY_RECT, nodes[child].bounds), child, 1)];
      NodesOk(more, spans + [spans[child]], leaves)
  {
    hide Rect.Contains, Rect.IsEmpty, Union;
    var more := nodes + [Branch(Union(EMPTY_RECT, nodes[child].bounds), child, 1)];
    var moreSpans := spans + [spans[child]];
    assert NodeOk(nodes, spans, leaves, child);
    UnionContains(EMPTY_RECT, nodes[child].bounds);
    forall i | 0 <= i < |more|
      ensures NodeOk(more, moreSpans, leaves, i)
    {
      if i < |nodes| {
        assert NodeOk(nodes, spans, leaves, i);
      }
    }
  }

  /** The node with one more child under it. */
  function WithChild(branch: Node, child: Rect): Node
    requires branch.Branch?
  {
    Branch(Union(branch.bounds, child), branch.first, branch.count + 1)
  }

  /** The next node can be taken under the last branch. */
  ghost predicate CanGrow(nodes: seq<Node>, spans: seq<Span>, leaves: nat, child: nat) {
    && NodesOk(nodes, spans, leaves) && |nodes| > leaves && 0 < child < |nodes| - 1
    && var last := nodes[|nodes| - 1];
    && last.Branch? && last.first + last.count == child && last.count < MAX_CHILDREN
    && spans[child - 1].hi == spans[child].lo
  }

  /** The bounds of the grown branch contain those of all its children. */
  lemma GrownBounds(nodes: seq<Node>, spans: seq<Span>, leaves: nat, child: nat)
    requires CanGrow(nodes, spans, leaves, child)
    ensures var last := nodes[|nodes| - 1];
      var grown := WithChild(last, nodes[child].bounds);
      && !grown.bounds.IsEmpty()
      && forall k :: last.first <= k <= child ==> grown.bounds.Contains(nodes[k].bounds)
  {
    hide Rect.Contains, Rect.IsEmpty, Union;
    var last := nodes[|nodes| - 1];
    assert NodeOk(nodes, spans, leaves, |nodes| - 1) && NodeOk(nodes, spans, leaves, child);
    UnionContains(last.bounds, nodes[child].bounds);
    forall k | last.first <= k < child
      ensures Union(last.bounds, nodes[child].bounds).Contains(nodes[k].bounds)
    {
      UnionStillContains(last.bounds, nodes[child].bounds, nodes[k].bounds);
    }
  }

  lemma GrownSpans(nodes: seq<Node>, spans: seq<Span>, leaves: nat, child: nat)
    requires CanGrow(nodes, spans, leaves, child)
    ensures var i, last := |nodes| - 1, nodes[|nodes| - 1];
      && spans[i].lo < spans[child].hi <= leaves
      && last.first < child && last.first + last.count < i
      && Consecutive(spans, last.first, child + 1)
      && spans[last.first].lo == spans[i].lo
  {
    hide Rect.Contains, Rect.IsEmpty;
    var i, last := |nodes| - 1, nodes[|nodes| - 1];
    assert NodeOk(nodes, spans, leaves, i) && NodeOk(nodes, spans, leaves, child);
    SpansIncrease(spans, leaves, nodes, last.first, child);
  }

  lemma GrownBranchOk(nodes: seq<Node>, spans: seq<Span>, leaves: nat, child: nat)
    requires CanGrow(nodes, spans, leaves, child)
    ensures var i := |nodes| - 1;
      BranchOk(nodes[i := WithChild(nodes[i], nodes[child].bounds)], spans[i := Span(spans[i].lo, spans[child].hi)], i)
  {
    GrownBounds(nodes, spans, leaves, child);
    GrownSpans(nodes, spans, leaves, child);
    hide NodesOk, Rect.Contains, Rect.IsEmpty, Union;
  }

  /** One more child under the last branch keeps the tree in shape. */
  lemma GrowBranch(nodes: seq<Node>, spans: seq<Span>, leaves: nat, child: nat)
    requires CanGrow(nodes, spans, leaves, child)
    ensures var i := |nodes| - 1;
      NodesOk(nodes[i := WithChild(nodes[i], nodes[child].bounds)], spans[i := Span(spans[i].lo, spans[child].hi)],
              leaves)
  {
    var i := |nodes| - 1;
    var grown, grownSpans :=
      nodes[i := WithChild(nodes[i], nodes[child].bounds)], spans[i := Span(spans[i].lo, spans[child].hi)];
    GrownBounds(nodes, spans, leaves, child);
    GrownSpans(nodes, spans, leaves, child);
    GrownBranchOk(nodes, spans, leaves, child);
    hide Rect.Contains, Rect.IsEmpty, Union, WithChild;
    forall j | 0 <= j < |grown|
      ensures NodeOk(grown, grownSpans, leaves, j)
    {
      assert NodeOk(nodes, spans, leaves, j);
      if j == i {
        hide BranchOk;
      } else {
        SameBranchOk(nodes, spans, leaves, j, grown, grownSpans);
      }
    }
  }

  /** Other nodes only look at nodes before them. */
  lemma SameBranchOk(nodes: seq<Node>, spans: seq<Span>, leaves: nat, j: nat, more: seq<Node>, moreSpans: seq<Span>)
    requires |more| == |nodes| == |spans| == |moreSpans| && j < |nodes| && NodeOk(nodes, spans, leaves, j)
    requires forall k :: 0 <= k <= j ==> more[k] == nodes[k] && moreSpans[k] == spans[k]
    ensures NodeOk(more, moreSpans, leaves, j)
  {
    hide Rect.Contains, Rect.IsEmpty;
  }

  lemma {:induction false} SpansIncrease(spans: seq<Span>, leaves: nat, nodes: seq<Node>, a: nat, b: nat)
    requires NodesOk(nodes, spans, leaves) && a <= b < |spans| && Consecutive(spans, a, b + 1)
    ensures spans[a].lo < spans[b].hi
    decreases b - a
  {
    assert NodeOk(nodes, spans, leaves, b);
    if a < b {
      SpansIncrease(spans, leaves, nodes, a, b - 1);
    }
  }

  /** The number of parents for a generation. */
  function Families(count: nat): nat {
    (count + MAX_CHILDREN - 1) / MAX_CHILDREN
  }

  /** The fewest that have room for all of them, eleven each. */
  lemma FewestFamilies(count: nat, families: nat)
    ensures Families(count) <= families <==> count <= 11 * families
  {
  }

  lemma FewerFamilies(count: nat)
    requires count > 1
    ensures 0 < Families(count) < count && count <= MAX_CHILDREN * Families(count)
  {
  }

  /** The slow axis stays within its steps: a new parent is due only while some are left. */
  lemma ParentIsLeft(steps: nat, total: nat, families: nat, parents: nat)
    requires steps < total && steps * families - parents * total + families > 0
    ensures parents < families
  {
    assert (steps + 1) * families == steps * families + families;
    assert (steps + 1) * families <= total * families by { Grows(steps + 1, total, families); }
    if parents >= families {
      Grows(families, parents, total);
    }
  }

  lemma Grows(a: nat, b: nat, c: nat)
    requires a <= b
    ensures a * c <= b * c
  {
  }

  /** At the end of a generation the steps of both axes are used up. */
  lemma StepsEnd(total: int, families: int, parents: int, d: int)
    requires d == total * families - parents * total && -total < d <= 0 && total > 0
    ensures d == 0 && parents == families
  {
    SmallMultiple(total, families - parents);
  }

  lemma SmallMultiple(total: int, n: int)
    requires total > 0 && -total < total * n <= 0
    ensures n == 0
  {
  }

  /** Counts of children stay within the maximum. */
  lemma ChildrenFit(children: nat, families: nat, total: nat)
    requires children * families < total && total <= MAX_CHILDREN * families
    ensures children < MAX_CHILDREN
  {
    if children >= MAX_CHILDREN {
      Grows(MAX_CHILDREN, children, families);
    }
  }

  lemma NodesLengths(nodes: seq<Node>, spans: seq<Span>, leaves: nat)
    requires NodesOk(nodes, spans, leaves)
    ensures leaves <= |nodes| == |spans|
  {
  }

  /** One generation: its nodes are spread over the fewest parents that can hold them. */
  method AddGeneration(old_: seq<Node>, ghost oldSpans: seq<Span>, leaves: nat, start: nat)
    returns (nodes: seq<Node>, ghost spans: seq<Span>)
    requires Generation(old_, oldSpans, leaves, start) && |old_| - start > 1
    ensures Generation(nodes, spans, leaves, |old_|)
    ensures old_ <= nodes && |nodes| == |old_| + Families(|old_| - start)
  {
    NodesLengths(old_, oldSpans, leaves);
    hide NodesOk, Union;
    nodes, spans := old_, oldSpans;
    var total := |old_| - start;
    var families := Families(total);
    FewerFamilies(total);
    var d := 0;
    var sibling := start;
    ghost var parents, children := 0, 0;
    while sibling < |old_|
      invariant start <= sibling <= |old_|
      invariant parents <= families && |nodes| == |spans| == |old_| + parents && (sibling > start ==> parents > 0)
      invariant old_ <= nodes && oldSpans <= spans && |old_| == |oldSpans|
      invariant NodesOk(nodes, spans, leaves) && leaves <= |old_|
      invariant d == (sibling - start) * families - parents * total && -total < d <= 0
      invariant sibling == start ==> parents == 0 && d == 0
      invariant parents > 0 ==>
        var last := nodes[|nodes| - 1];
        && last.Branch? && last.count == children > 0 && last.first >= start && last.first + last.count == sibling
        && spans[|spans| - 1].hi == oldSpans[sibling - 1].hi && (children - 1) * families < total + d
        && Consecutive(spans, |old_|, |spans|) && spans[|old_|].lo == 0
    {
      ghost var before := spans;
      ghost var beforeNodes := nodes;
      assert d + families == (sibling - start) * families - parents * total + families;
      if d + families > 0 {
        ParentIsLeft(sibling - start, total, families, parents);
        NewBranch(nodes, spans, leaves, sibling);
        d := d + families - total;
        nodes := nodes + [Branch(Union(EMPTY_RECT, nodes[sibling].bounds), sibling, 1)];
        spans := spans + [spans[sibling]];
        NewSpan(before, spans, |old_|, oldSpans, start, sibling);
        parents, children := parents + 1, 1;
      } else {
        d := d + families;
        ChildrenFit(children - 1, families, total);
        ManyChildren(children, families, total, d);
        ghost var i := |nodes| - 1;
        assert spans[sibling - 1].hi == spans[sibling].lo by { OldSpansMeet(oldSpans, spans, start, sibling); }
        GrowBranch(nodes, spans, leaves, sibling);
        var last := nodes[|nodes| - 1];
        nodes := nodes[|nodes| - 1 := Branch(Union(last.bounds, nodes[sibling].bounds), last.first, last.count + 1)];
        spans := spans[i := Span(spans[i].lo, spans[sibling].hi)];
        children := children + 1;
      }
      StepProduct(sibling - start, families, parents, total);
      sibling := sibling + 1;
    }
    StepsEnd(total, families, parents, d);
  }

  lemma StepProduct(steps: nat, families: nat, parents: nat, total: nat)
    ensures (steps + 1) * families == steps * families + families
    ensures parents > 0 ==> parents * total == (parents - 1) * total + total
  {
  }

  lemma ManyChildren(children: nat, families: nat, total: nat, d: int)
    requires children > 0 && (children - 1) * families < total + d - families && d <= 0
    requires total <= MAX_CHILDREN * families
    ensures children * families < total + d && children < MAX_CHILDREN
  {
    assert children * families == (children - 1) * families + families;
    ChildrenFit(children, families, total);
  }

  lemma OldSpansMeet(oldSpans: seq<Span>, spans: seq<Span>, start: nat, sibling: nat)
    requires oldSpans <= spans && start < sibling < |oldSpans| && Consecutive(oldSpans, start, |oldSpans|)
    ensures spans[sibling - 1].hi == spans[sibling].lo
  {
    assert oldSpans[sibling - 1].hi == oldSpans[sibling].lo;
  }

  lemma NewSpan(before: seq<Span>, spans: seq<Span>, newStart: nat, oldSpans: seq<Span>, start: nat, sibling: nat)
    requires oldSpans <= before && |oldSpans| == newStart && start <= sibling < newStart
    requires spans == before + [before[sibling]]
    requires Consecutive(oldSpans, start, |oldSpans|) && oldSpans[start].lo == 0
    requires if sibling == start then |before| == newStart
             else |before| > newStart && Consecutive(before, newStart, |before|) && before[newStart].lo == 0
                  && before[|before| - 1].hi == oldSpans[sibling - 1].hi
    ensures Consecutive(spans, newStart, |spans|) && spans[newStart].lo == 0
    ensures spans[|spans| - 1].hi == oldSpans[sibling].hi
  {
    if sibling > start {
      OldSpansMeet(oldSpans, before, start, sibling);
    }
  }

  /** The leaves: the rectangles with an area, in order. */
  function Leaves(rects: seq<Rect>, ids: seq<nat>): seq<Node>
    requires |rects| == |ids|
  {
    if rects == [] then []
    else
      var n := |rects| - 1;
      Leaves(rects[..n], ids[..n]) + (if rects[n].IsEmpty() then [] else [Leaf(rects[n], ids[n])])
  }

  /** Every rectangle that has a point is a leaf, with its id, and nothing else is. */
  lemma {:induction false} LeavesExactly(rects: seq<Rect>, ids: seq<nat>)
    requires |rects| == |ids|
    ensures forall k :: 0 <= k < |rects| && !rects[k].IsEmpty() ==> Leaf(rects[k], ids[k]) in Leaves(rects, ids)
    ensures forall k :: 0 <= k < |Leaves(rects, ids)| ==>
      Leaves(rects, ids)[k].Leaf? && !Leaves(rects, ids)[k].bounds.IsEmpty() && Leaves(rects, ids)[k].id in ids
  {
    if rects != [] {
      hide Rect.IsEmpty;
      var n := |rects| - 1;
      LeavesExactly(rects[..n], ids[..n]);
      var before := Leaves(rects[..n], ids[..n]);
      assert forall k :: 0 <= k < n ==> rects[..n][k] == rects[k] && ids[..n][k] == ids[k];
      assert forall id :: id in ids[..n] ==> id in ids;
    }
  }

  function LeafSpans(n: nat): seq<Span> {
    seq(n, i requires 0 <= i < n => Span(i, i + 1))
  }

  lemma LeavesAreAGeneration(leaves: seq<Node>)
    requires leaves != [] && forall k :: 0 <= k < |leaves| ==> leaves[k].Leaf? && !leaves[k].bounds.IsEmpty()
    ensures Generation(leaves, LeafSpans(|leaves|), |leaves|, 0)
  {
    hide Rect.IsEmpty;
  }

  /** `DlRTree`: its nodes are made once, from the rectangles of a list and their ids. */
  class DlRTree {
    const rects: seq<Rect>
    const ids: seq<nat>
    var nodes: seq<Node>
    var leafCount: nat
    ghost var spans: seq<Span>

    ghost predicate Valid()
      reads this
    {
      && |rects| == |ids|
      && leafCount <= |nodes| && nodes[..leafCount] == Leaves(rects, ids)
      && NodesOk(nodes, spans, leafCount)
      && (if leafCount == 0 then nodes == [] else nodes != [] && spans[|nodes| - 1] == Span(0, leafCount))
    }

    constructor (rects: seq<Rect>, ids: seq<nat>)
      requires |rects| == |ids|
      ensures Valid() && this.rects == rects && this.ids == ids
    {
      this.rects, this.ids := rects, ids;
      var leaves := PlaceLeaves(rects, ids);
      var built: seq<Node>;
      ghost var builtSpans: seq<Span>;
      built, builtSpans := BuildUp(rects, ids, leaves);
      nodes, leafCount, spans := built, |leaves|, builtSpans;
    }

    static method PlaceLeaves(rects: seq<Rect>, ids: seq<nat>) returns (leaves: seq<Node>)
      requires |rects| == |ids|
      ensures leaves == Leaves(rects, ids)
    {
      hide Rect.IsEmpty;
      leaves := [];
      for i := 0 to |rects|
        invariant leaves == Leaves(rects[..i], ids[..i])
      {
        assert rects[..i + 1][..i] == rects[..i] && ids[..i + 1][..i] == ids[..i];
        if !rects[i].IsEmpty() {
          leaves := leaves + [Leaf(rects[i], ids[i])];
        }
      }
      assert rects[..|rects|] == rects && ids[..|ids|] == ids;
    }

    /** Generations of parents, until one node stands for all. */
    static method BuildUp(rects: seq<Rect>, ids: seq<nat>, leaves: seq<Node>) returns (nodes: seq<Node>,
        ghost spans: seq<Span>)
      requires |rects| == |ids| && leaves == Leaves(rects, ids)
      ensures leaves <= nodes && NodesOk(nodes, spans, |leaves|)
      ensures if leaves == [] then nodes == [] else nodes != [] && spans[|nodes| - 1] == Span(0, |leaves|)
    {
      LeavesExactly(rects, ids);
      nodes, spans := leaves, LeafSpans(|leaves|);
      if leaves != [] {
        LeavesAreAGeneration(leaves);
        var start := 0;
        while |nodes| - start > 1
          invariant leaves <= nodes && start < |nodes| && Generation(nodes, spans, |leaves|, start)
          decreases |nodes| - start
        {
          FewerFamilies(|nodes| - start);
          var end := |nodes|;
          nodes, spans := AddGeneration(nodes, spans, |leaves|, start);
          start := end;
        }
      }
    }

    /** The leaves that meet the query, in order. */
    method Search(query: Rect) returns (results: seq<nat>)
      requires Valid()
      ensures results == Matches(nodes, query, 0, leafCount)
    {
      results := [];
      if query.IsEmpty() || |nodes| == 0 {
        NoMatches(nodes, query, 0, leafCount);
        return;
      }
      var root := |nodes| - 1;
      if nodes[root].bounds.Intersects(query) {
        if |nodes| == 1 {
          OneLeaf(nodes, spans, leafCount, query);
          results := [0];
        } else {
          assert NodeOk(nodes, spans, leafCount, root);
          results := SearchUnder(root, query, []);
        }
      } else {
        MissedNode(nodes, spans, leafCount, root, query);
      }
    }

    /** Adds what a search of one branch finds to what was found before it. */
    method SearchUnder(parent: nat, query: Rect, found: seq<nat>) returns (results: seq<nat>)
      requires Valid() && leafCount <= parent < |nodes|
      ensures spans[parent].hi <= |nodes|
      ensures results == found + Matches(nodes, query, spans[parent].lo, spans[parent].hi)
      decreases parent
    {
      hide Rect.Intersects, Rect.Contains, Rect.IsEmpty, Matches;
      assert NodeOk(nodes, spans, leafCount, parent);
      results := found;
      var start := nodes[parent].first;
      var end := start + nodes[parent].count;
      ghost var lo := spans[parent].lo;
      NothingYet(nodes, query, lo);
      for i := start to end
        invariant lo <= Reached(spans, start, i) <= leafCount
        invariant results == found + Matches(nodes, query, lo, Reached(spans, start, i))
      {
        assert NodeOk(nodes, spans, leafCount, i);
        assert Reached(spans, start, i) == spans[i].lo;
        MatchesSplit(nodes, query, lo, spans[i].lo, spans[i].hi);
        if nodes[i].bounds.Intersects(query) {
          if i < leafCount {
            LeafMatches(nodes, query, i);
            results := results + [i];
          } else {
            results := SearchUnder(i, query, results);
          }
        } else {
          MissedNode(nodes, spans, leafCount, i, query);
        }
      }
    }
  }

  ghost function Reached(spans: seq<Span>, start: nat, i: nat): nat
    requires start <= i && start < |spans| && i <= |spans|
  {
    if i == start then spans[start].lo else spans[i - 1].hi
  }

  lemma NothingYet(nodes: seq<Node>, query: Rect, lo: nat)
    requires lo <= |nodes|
    ensures Matches(nodes, query, lo, lo) == []
  {
  }

  lemma LeafMatches(nodes: seq<Node>, query: Rect, i: nat)
    requires i < |nodes| && nodes[i].bounds.Intersects(query)
    ensures Matches(nodes, query, i, i + 1) == [i]
  {
    assert Matches(nodes, query, i, i) == [];
    hide Rect.Intersects;
  }

  lemma OneLeaf(nodes: seq<Node>, spans: seq<Span>, leaves: nat, query: Rect)
    requires NodesOk(nodes, spans, leaves) && |nodes| == 1 && leaves > 0 && nodes[0].bounds.Intersects(query)
    ensures Matches(nodes, query, 0, leaves) == [0]
  {
    LeafMatches(nodes, query, 0);
  }
}
