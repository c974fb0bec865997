/**
 Culled dispatch from end to end: the query of the r-tree, the selection of records, and
 the promise that what is left out cannot change a pixel of the query.
 */
module DisplayListCulledDispatch {
  import opened DisplayListTypes
  import opened DisplayListReplay
  import Culling = DisplayListCulling
  import CulledCanvas = DisplayListCulledCanvas
  import Selection = DisplayListSelection
  import Faithful = DisplayListFaithful
  import Spec = DisplayListBuilderSpec
  import Nesting = DisplayListNesting
  import RTree = DisplayListRTree
  import opened DisplayListTree
  import opened DisplayListCanvas
  import opened DisplayListUsedFilters
  import Visibility = DisplayListVisibility
  import Layers = DisplayListLayers

  /** The ids of the rectangles that meet the query, in order. */
  function HitIds(rects: seq<Rect>, ids: seq<nat>, query: Rect): seq<nat>
    requires |rects| == |ids|
  {
    if rects == [] then []
    else
      var n := |rects| - 1;
      HitIds(rects[..n], ids[..n], query) + (if rects[n].Intersects(query) then [ids[n]] else [])
  }

  /** The ids of some leaves. */
  function IdsAt(nodes: seq<Node>, found: seq<nat>): seq<nat> {
    if found == [] then []
    else
      var last := found[|found| - 1];
      IdsAt(nodes, found[..|found| - 1]) + (if last < |nodes| && nodes[last].Leaf? then [nodes[last].id] else [])
  }

  lemma IdsAtMore(nodes: seq<Node>, found: seq<nat>, leaf: nat)
    requires leaf < |nodes| && nodes[leaf].Leaf?
    ensures IdsAt(nodes, found + [leaf]) == IdsAt(nodes, found) + [nodes[leaf].id]
  {
    assert (found + [leaf])[..|found|] == found;
  }

  /** What a search finds are the rectangles that meet the query. */
  lemma {:induction false} SearchFindsHits(rects: seq<Rect>, ids: seq<nat>, nodes: seq<Node>, query: Rect)
    requires |rects| == |ids|
    requires var leaves := Leaves(rects, ids); |leaves| <= |nodes| && nodes[..|leaves|] == leaves
    ensures IdsAt(nodes, Matches(nodes, query, 0, |Leaves(rects, ids)|)) == HitIds(rects, ids, query)
  {
    if rects != [] {
      hide Rect.Intersects, Rect.IsEmpty, Matches, IdsAt;
      var n := |rects| - 1;
      var before := Leaves(rects[..n], ids[..n]);
      assert before == nodes[..|Leaves(rects, ids)|][..|before|] == nodes[..|before|];
      SearchFindsHits(rects[..n], ids[..n], nodes, query);
      EmptyMeetsNothing(rects[n], query);
      if !rects[n].IsEmpty() {
        assert nodes[|before|] == nodes[..|before| + 1][|before|] == Leaf(rects[n], ids[n]);
        OneMoreLeaf(nodes, query, |before|);
      }
    } else {
      NoLeaves(nodes, query);
    }
  }

  lemma NoLeaves(nodes: seq<Node>, query: Rect)
    ensures IdsAt(nodes, Matches(nodes, query, 0, 0)) == []
  {
  }

  lemma OneMoreLeaf(nodes: seq<Node>, query: Rect, k: nat)
    requires k < |nodes| && nodes[k].Leaf?
    ensures IdsAt(nodes, Matches(nodes, query, 0, k + 1))
         == IdsAt(nodes, Matches(nodes, query, 0, k))
            + (if nodes[k].bounds.Intersects(query) then [nodes[k].id] else [])
  {
    hide Rect.Intersects, IdsAt;
    var found := Matches(nodes, query, 0, k);
    IdsAtMore(nodes, found, k);
    assert Matches(nodes, query, 0, k + 1) == if nodes[k].bounds.Intersects(query) then found + [k] else found;
  }

  lemma EmptyMeetsNothing(r: Rect, query: Rect)
    ensures r.Intersects(query) ==> !r.IsEmpty() && !query.IsEmpty()
  {
  }

  lemma {:induction false} EmptyQueryHitsNothing(rects: seq<Rect>, ids: seq<nat>, query: Rect)
    requires |rects| == |ids| && query.IsEmpty()
    ensures HitIds(rects, ids, query) == []
  {
    if rects != [] {
      EmptyQueryHitsNothing(rects[..|rects| - 1], ids[..|rects| - 1], query);
    }
  }

  /** Every entry that shares a point with the query is a hit. */
  lemma {:induction false} SharedPointIsHit(rects: seq<Rect>, ids: seq<nat>, query: Rect, r: nat, p: Point)
    requires |rects| == |ids| && r < |rects| && rects[r].Inside(p) && query.Inside(p)
    ensures ids[r] in HitIds(rects, ids, query)
  {
    var n := |rects| - 1;
    if r < n {
      hide Rect.Intersects, Rect.Inside;
      SharedPointIsHit(rects[..n], ids[..n], query, r, p);
    }
  }

  /** Hits are among the ids, and sorted when those are. */
  lemma {:induction false} HitsAreSorted(rects: seq<Rect>, ids: seq<nat>, query: Rect, n: nat)
    requires |rects| == |ids| && Ascending(ids) && forall id :: id in ids ==> id < n
    ensures Culling.Hits(HitIds(rects, ids, query), n)
    ensures forall id :: id in HitIds(rects, ids, query) ==> id in ids
  {
    if rects != [] {
      hide Rect.Intersects;
      var k := |rects| - 1;
      assert forall id :: id in ids[..k] ==> id in ids;
      HitsAreSorted(rects[..k], ids[..k], query, n);
      var before := HitIds(rects[..k], ids[..k], query);
      forall j | 0 <= j < |before|
        ensures before[j] <= ids[k]
      {
        assert before[j] in ids[..k];
        var i :| 0 <= i < k && ids[..k][i] == before[j];
        assert ids[i] <= ids[k];
      }
      assert ids[k] in ids;
    }
  }

  /** `GetCulledIndices`: the records to dispatch for a query. */
  method GetCulledIndices(ops: seq<Record>, rtree: DlRTree, query: Rect) returns (indices: seq<nat>)
    requires WellNested(ops) && |ops| <= Culling.NO_RESTORE
    requires rtree.Valid() && Ascending(rtree.ids) && forall id :: id in rtree.ids ==> id < |ops|
    ensures Culling.Selected(ops, HitIds(rtree.rects, rtree.ids, query), indices)
    ensures CulledCanvas.PaintsHits(ops, HitIds(rtree.rects, rtree.ids, query), indices)
  {
    hide Culling.Selected, CulledCanvas.PaintsHits, WellNested, HitIds;
    indices := [];
    if query.IsEmpty() {
      EmptyQueryHitsNothing(rtree.rects, rtree.ids, query);
      Culling.NoHitsSelectNothing(ops, []);
      CulledCanvas.NoHitsPaintNothing(ops, []);
      return;
    }
    var found := rtree.Search(query);
    assert rtree.leafCount == |Leaves(rtree.rects, rtree.ids)|;
    SearchFindsHits(rtree.rects, rtree.ids, rtree.nodes, query);
    HitsAreSorted(rtree.rects, rtree.ids, query, |ops|);
    var results := IdsOf(rtree, found);
    indices := Selection.RTreeResultsToIndexVector(ops, results);
  }

  /** The record that each result stands for. */
  method IdsOf(rtree: DlRTree, found: seq<nat>) returns (results: seq<nat>)
    ensures results == IdsAt(rtree.nodes, found)
  {
    results := [];
    for k := 0 to |found|
      invariant results == IdsAt(rtree.nodes, found[..k])
    {
      assert found[..k + 1][..k] == found[..k];
      var leaf := found[k];
      if leaf < |rtree.nodes| && rtree.nodes[leaf].Leaf? {
        results := results + [rtree.nodes[leaf].id];
      }
    }
    assert found[..|found|] == found;
  }

  // ----------------------------------------------------- a built list

  lemma BuiltTreeIsOrdered(fx: Spec.FilterBounds, cull: Rect, calls: seq<Spec.Call>)
    ensures var built := Spec.Finished(fx, cull, calls);
      && WellNested(built.records) && |built.rtree.rects| == |built.rtree.indices|
      && Ascending(built.rtree.indices) && forall id :: id in built.rtree.indices ==> id < |built.records|
  {
    Nesting.BuiltListIsWellNested(fx, cull, calls);
    Nesting.RunIsWellFormed(fx, cull, calls);
    RTree.RunIsBookkept(fx, cull, calls);
    RTree.RestoreToCountKeepsBooks(fx, Spec.Run(fx, cull, calls), 1);
    OrderedBooks(Spec.Finished(fx, cull, calls));
    hide *;
  }

  lemma OrderedBooks(s: Spec.BuilderState)
    requires RTree.Bookkept(s)
    ensures |s.rtree.rects| == |s.rtree.indices|
    ensures Ascending(s.rtree.indices) && forall id :: id in s.rtree.indices ==> id < |s.records|
  {
    forall id | id in s.rtree.indices
      ensures id < |s.records|
    {
      var k :| 0 <= k < |s.rtree.indices| && s.rtree.indices[k] == id;
      assert RTree.NamesOwner(s.records, s.rtree.indices[k]);
    }
  }

  /** A drawing can change a pixel of the surface, under some meaning of the filters that
      their bounds functions are sound for: a drawing made where drawings are recorded, or
      any drawing of a run that never resets a singular matrix. */
  ghost predicate ChangesPixel(fx: Spec.FilterBounds, fm: FilterMeaning, cull: Rect, calls: seq<Spec.Call>, m: Mark) {
    && FiltersAreSound(fx, fm, calls) && cull.Inside(m.point)
    && (m in Layers.KeptFinished(fx, fm, cull, calls).marks ||
        (ResetsInvertible(fx, fm, cull, calls) && m in CanvasFinished(fx, fm, cull, calls).marks))
  }

  /** The records of a run paint what its calls paint, and the r-tree holds it. */
  ghost predicate IsFaithful(fx: Spec.FilterBounds, fm: FilterMeaning, cull: Rect, calls: seq<Spec.Call>) {
    FiltersAreSound(fx, fm, calls) && ResetsInvertible(fx, fm, cull, calls) && Faithful.NoCallerBounds(calls)
  }

  /** Inside the query the selected records change exactly the points that the calls change,
      by the same drawings with the same paints. */
  ghost predicate PaintsTheQuery(fx: Spec.FilterBounds, fm: FilterMeaning, cull: Rect, calls: seq<Spec.Call>,
                                 query: Rect, records: seq<Record>, indices: seq<nat>)
  {
    InRange(indices, |records|) && forall m: Mark :: cull.Inside(m.point) && query.Inside(m.point) ==>
      var selected, all := CulledCanvas.SelectedCanvas(fm, cull, records, indices), CanvasFinished(fx, fm, cull, calls);
      m in selected.marks <==> m in all.marks
  }

  lemma HeldIsHit(rtree: Spec.RTreeData, query: Rect, m: Mark)
    requires |rtree.rects| == |rtree.indices| && query.Inside(m.point) && Layers.HoldsMark(rtree, m)
    ensures m.id in HitIds(rtree.rects, rtree.indices, query)
  {
    hide HitIds, Rect.Inside;
    var r :| 0 <= r < |rtree.rects| && Visibility.HeldAt(rtree, r, m);
    SharedPointIsHit(rtree.rects, rtree.indices, query, r, m.point);
  }

  /** So do culled records of a list whose calls are recorded faithfully. */
  lemma SelectionPaintsTheQuery(fx: Spec.FilterBounds, fm: FilterMeaning, cull: Rect, calls: seq<Spec.Call>,
                                query: Rect, indices: seq<nat>)
    requires IsFaithful(fx, fm, cull, calls)
    requires var built := Spec.Finished(fx, cull, calls);
      && |built.rtree.rects| == |built.rtree.indices|
      && CulledCanvas.PaintsHits(built.records, HitIds(built.rtree.rects, built.rtree.indices, query), indices)
    ensures PaintsTheQuery(fx, fm, cull, calls, query, Spec.Finished(fx, cull, calls).records, indices)
  {
    var built := Spec.Finished(fx, cull, calls);
    var hits := HitIds(built.rtree.rects, built.rtree.indices, query);
    hide Spec.Finished, CanvasFinished, Faithful.CanvasOf, CulledCanvas.SelectedCanvas, HitIds, Rect.Inside,
      FiltersAreSound,
      ResetsInvertible, Faithful.NoCallerBounds, Layers.HoldsMark;
    assert CulledCanvas.HitsOf(hits, Faithful.CanvasOf(fm, cull, built.records).marks,
                               CulledCanvas.SelectedCanvas(fm, cull, built.records, indices).marks);
    forall m: Mark | cull.Inside(m.point) && query.Inside(m.point)
      ensures m in CulledCanvas.SelectedCanvas(fm, cull, built.records, indices).marks
         <==> m in CanvasFinished(fx, fm, cull, calls).marks
    {
      Faithful.RecordsPaintWhatCallsPaint(fx, fm, cull, calls, m);
      if m in CanvasFinished(fx, fm, cull, calls).marks {
        Layers.RTreeHoldsEveryPixel(fx, fm, cull, calls, m);
        HeldIsHit(built.rtree, query, m);
      }
    }
  }

  /** The record of a drawing is selected whenever the drawing can change a pixel of the
      query; what is selected draws its hits exactly as the whole list does; and inside the
      query it paints exactly what the calls paint, if those are recorded faithfully. */
  method CullBuiltList(fx: Spec.FilterBounds, cull: Rect, ghost calls: seq<Spec.Call>, list: Spec.DisplayList,
                       query: Rect)
    returns (indices: seq<nat>)
    requires list == Spec.Packed(Spec.Finished(fx, cull, calls)) && |list.records| <= Culling.NO_RESTORE
    ensures |list.rtree.rects| == |list.rtree.indices|
    ensures Culling.Selected(list.records, HitIds(list.rtree.rects, list.rtree.indices, query), indices)
    ensures CulledCanvas.PaintsHits(list.records, HitIds(list.rtree.rects, list.rtree.indices, query), indices)
    ensures forall fm, m :: ChangesPixel(fx, fm, cull, calls, m) && query.Inside(m.point) ==> m.id in indices
    ensures forall fm :: IsFaithful(fx, fm, cull, calls) ==>
      PaintsTheQuery(fx, fm, cull, calls, query, list.records, indices)
  {
    hide Spec.Finished, Culling.Selected, CulledCanvas.PaintsHits, PaintsTheQuery, WellNested, IsFaithful,
      Layers.HoldsMark, FiltersAreSound, ResetsInvertible, CanvasFinished, Layers.KeptFinished,
      Rect.Inside, HitIds;
    BuiltTreeIsOrdered(fx, cull, calls);
    var rtree := new DlRTree(list.rtree.rects, list.rtree.indices);
    indices := GetCulledIndices(list.records, rtree, query);
    forall fm, m | ChangesPixel(fx, fm, cull, calls, m) && query.Inside(m.point)
      ensures m.id in indices
    {
      if m in Layers.KeptFinished(fx, fm, cull, calls).marks {
        Layers.RTreeHoldsKeptPixels(fx, fm, cull, calls, m);
      } else {
        Layers.RTreeHoldsEveryPixel(fx, fm, cull, calls, m);
      }
      HeldIsHit(list.rtree, query, m);
      HitIsSelected(list.records, HitIds(list.rtree.rects, list.rtree.indices, query), indices, m.id);
    }
    forall fm | IsFaithful(fx, fm, cull, calls)
      ensures PaintsTheQuery(fx, fm, cull, calls, query, list.records, indices)
    {
      SelectionPaintsTheQuery(fx, fm, cull, calls, query, indices);
    }
  }

  lemma HitIsSelected(ops: seq<Record>, hits: seq<nat>, indices: seq<nat>, id: nat)
    requires Culling.Selected(ops, hits, indices) && id in hits
    ensures id in indices
  {
  }
}
