/**
 The bookkeeping of the r-tree entries: rectangles and record indices stay paired,
 indices are in order and name records that render, and the entries of a layer
 start where its save-layer call found the list.
 */
module DisplayListRTree {
  import opened Options
  import opened DisplayListTypes
  import opened DisplayListPaint
  import opened DisplayListBuilderSpec
  import opened DisplayListNesting

  // ----------------------------------------- adjusting in place by a filter

  /** `AdjustRTreeRects` on the two vectors: one pass that maps each entry of the
      suffix and moves what survives to the front. The result says whether the filter
      could not bound some entry. */
  method AdjustInPlace(fx: FilterBounds, data: RTreeData, filter: ImageFilter, matrix: Matrix, clip: Rect, start: nat)
    returns (adjusted: RTreeData, flooded: bool)
    requires CanAdjust(data, start)
    ensures adjusted == AdjustRTreeRects(fx, filter, matrix, clip, data, start, |data.rects|)
    ensures flooded == AnyRectFloods(fx, filter, matrix, data, start)
  {
    hide RectFloods, AdjustRect, AdjustRTreeRects;
    var rects, indices := data.rects, data.indices;
    var rectKeep := start;
    NothingAdjusted(fx, filter, matrix, clip, data, start);
    flooded := false;
    for i := start to |data.rects|
      invariant start <= rectKeep <= i && |rects| == |indices| == |data.rects|
      invariant rects[i..] == data.rects[i..] && indices[i..] == data.indices[i..]
      invariant RTreeData(rects[..rectKeep], indices[..rectKeep])
             == AdjustRTreeRects(fx, filter, matrix, clip, data, start, i)
      invariant flooded <==> exists k :: start <= k < i && RectFloods(fx, filter, matrix, data.rects[k])
    {
      var before := rects[i];
      assert before == rects[i..][0] == data.rects[i..][0] == data.rects[i];
      assert indices[i] == indices[i..][0] == data.indices[i..][0] == data.indices[i];
      OneMoreAdjusted(fx, filter, matrix, clip, data, start, i);
      var bounds, unbounded := MapOrFlood(fx, filter, matrix, clip, before);
      flooded := flooded || unbounded;
      if bounds.Some? {
        var id := indices[i];
        indices := indices[rectKeep := id];
        rects := rects[rectKeep := bounds.value];
        assert rects[..rectKeep + 1] == rects[..rectKeep] + [bounds.value];
        assert indices[..rectKeep + 1] == indices[..rectKeep] + [id];
        rectKeep := rectKeep + 1;
      }
    }
    adjusted := RTreeData(rects[..rectKeep], indices[..rectKeep]);
  }

  lemma NothingAdjusted(fx: FilterBounds, filter: ImageFilter, matrix: Matrix, clip: Rect, data: RTreeData, start: nat)
    requires CanAdjust(data, start)
    ensures AdjustRTreeRects(fx, filter, matrix, clip, data, start, start)
         == RTreeData(data.rects[..start], data.indices[..start])
  {
  }

  lemma OneMoreAdjusted(fx: FilterBounds, filter: ImageFilter, matrix: Matrix, clip: Rect, data: RTreeData, start: nat,
                        i: nat)
    requires CanAdjust(data, start) && start <= i < |data.rects|
    ensures var before := AdjustRTreeRects(fx, filter, matrix, clip, data, start, i);
      AdjustRTreeRects(fx, filter, matrix, clip, data, start, i + 1) ==
        match AdjustRect(fx, filter, matrix, clip, data.rects[i])
        case Some(r) => before.Add(r, data.indices[i])
        case None => before
  {
    hide AdjustRect;
  }

  method MapOrFlood(fx: FilterBounds, filter: ImageFilter, matrix: Matrix, clip: Rect, r: Rect)
    returns (clipped: Option<Rect>, flooded: bool)
    ensures clipped == AdjustRect(fx, filter, matrix, clip, r)
    ensures flooded == RectFloods(fx, filter, matrix, r)
  {
    var mapped := (fx.mapDevice)(filter, r.RoundOut(), matrix);
    flooded := mapped.None?;
    var bounds := if flooded then clip else mapped.value;
    clipped := bounds.Intersection(clip);
  }

  // --------------------------------------------- what the adjustment means

  /** Entry `to` of the result is the adjusted entry `from` of the list before. */
  predicate ComesFrom(fx: FilterBounds, filter: ImageFilter, matrix: Matrix, clip: Rect,
                      before: RTreeData, from: nat, after: RTreeData, to: nat)
  {
    && from < |before.rects| && from < |before.indices|
    && to < |after.rects| && to < |after.indices|
    && after.indices[to] == before.indices[from]
    && AdjustRect(fx, filter, matrix, clip, before.rects[from]) == Some(after.rects[to])
  }

  /** The result is paired, keeps the entries before `start`, and `sources` lists where
      its other entries come from: in order, every survivor once, and nothing else. */
  ghost predicate IsFilterMap(fx: FilterBounds, filter: ImageFilter, matrix: Matrix, clip: Rect,
                              before: RTreeData, start: nat, n: nat, after: RTreeData, sources: seq<nat>)
    requires start <= n <= |before.rects| == |before.indices|
  {
    && |after.rects| == |after.indices| == start + |sources|
    && after.rects[..start] == before.rects[..start]
    && after.indices[..start] == before.indices[..start]
    && (forall j :: 0 <= j < |sources| ==> start <= sources[j] < n)
    && (forall j, k :: 0 <= j < k < |sources| ==> sources[j] < sources[k])
    && (forall j :: 0 <= j < |sources| ==> ComesFrom(fx, filter, matrix, clip, before, sources[j], after, start + j))
    && (forall i :: start <= i < n && i !in sources ==> AdjustRect(fx, filter, matrix, clip, before.rects[i]).None?)
  }

  function Sources(fx: FilterBounds, filter: ImageFilter, matrix: Matrix, clip: Rect,
                   data: RTreeData, start: nat, n: nat): seq<nat>
    requires start <= n <= |data.rects| == |data.indices|
  {
    if n == start then []
    else
      var before := Sources(fx, filter, matrix, clip, data, start, n - 1);
      if AdjustRect(fx, filter, matrix, clip, data.rects[n - 1]).Some? then before + [n - 1] else before
  }

  /** The adjustment is a stable filter-map of the suffix. */
  lemma {:induction false} AdjustIsFilterMap(fx: FilterBounds, filter: ImageFilter, matrix: Matrix, clip: Rect,
                                             data: RTreeData, start: nat, n: nat)
    requires start <= n <= |data.rects| == |data.indices|
    ensures IsFilterMap(fx, filter, matrix, clip, data, start, n,
                        AdjustRTreeRects(fx, filter, matrix, clip, data, start, n),
                        Sources(fx, filter, matrix, clip, data, start, n))
  {
    if n > start {
      hide AdjustRect, IsFilterMap;
      AdjustIsFilterMap(fx, filter, matrix, clip, data, start, n - 1);
      var before := AdjustRTreeRects(fx, filter, matrix, clip, data, start, n - 1);
      OneMoreEntry(fx, filter, matrix, clip, data, start, n, before,
                   Sources(fx, filter, matrix, clip, data, start, n - 1));
    } else {
      hide AdjustRect;
      assert data.rects[..start] == AdjustRTreeRects(fx, filter, matrix, clip, data, start, n).rects;
    }
  }

  lemma OneMoreEntry(fx: FilterBounds, filter: ImageFilter, matrix: Matrix, clip: Rect,
                     data: RTreeData, start: nat, n: nat, after: RTreeData, sources: seq<nat>)
    requires start < n <= |data.rects| == |data.indices|
    requires IsFilterMap(fx, filter, matrix, clip, data, start, n - 1, after, sources)
    ensures var r := AdjustRect(fx, filter, matrix, clip, data.rects[n - 1]);
      if r.Some? then IsFilterMap(fx, filter, matrix, clip, data, start, n, after.Add(r.value, data.indices[n - 1]),
                                  sources + [n - 1])
      else IsFilterMap(fx, filter, matrix, clip, data, start, n, after, sources)
  {
    hide AdjustRect;
    var r := AdjustRect(fx, filter, matrix, clip, data.rects[n - 1]);
    if r.Some? {
      var more := after.Add(r.value, data.indices[n - 1]);
      assert more.rects[..start] == after.rects[..start] && more.indices[..start] == after.indices[..start];
      var longer := sources + [n - 1];
      forall j | 0 <= j < |longer|
        ensures ComesFrom(fx, filter, matrix, clip, data, longer[j], more, start + j)
      {
        assert j < |sources| ==> ComesFrom(fx, filter, matrix, clip, data, sources[j], after, start + j);
      }
      forall i | start <= i < n && i !in sources + [n - 1]
        ensures AdjustRect(fx, filter, matrix, clip, data.rects[i]).None?
      {
        assert i != n - 1 && i !in sources;
      }
    }
  }

  // ---------------------------------------------------------- the invariant

  /** The records that may own an r-tree entry. */
  predicate OwnsEntries(r: Record) {
    r.IsRendering() || r.SaveLayerRecord? || r.RestoreRecord?
  }

  predicate NamesOwner(ops: seq<Record>, id: nat) {
    id < |ops| && OwnsEntries(ops[id])
  }

  ghost predicate Ordered(indices: seq<nat>) {
    forall j, k :: 0 <= j < k < |indices| ==> indices[j] <= indices[k]
  }

  ghost predicate TreeOk(rtree: RTreeData, ops: seq<Record>) {
    && |rtree.rects| == |rtree.indices|
    && Ordered(rtree.indices)
    && (forall k :: 0 <= k < |rtree.indices| ==> NamesOwner(ops, rtree.indices[k]))
  }

  ghost predicate StartsOk(outer: seq<LayerInfo>, layer: LayerInfo, len: nat) {
    && (forall j, k :: 0 <= j < k < |outer| ==> outer[j].rtreeStart <= outer[k].rtreeStart)
    && (forall k :: 0 <= k < |outer| ==> outer[k].rtreeStart <= layer.rtreeStart)
    && layer.rtreeStart <= len
  }

  ghost predicate Bookkept(s: BuilderState) {
    && TreeOk(s.rtree, s.records)
    && StartsOk(s.outer, s.layer, |s.rtree.rects|)
  }

  // ------------------------------------------------------------ steps

  /** `t` adds some entries for `id` to `s`. */
  ghost predicate Grows(s: RTreeData, t: RTreeData, id: nat) {
    && |s.rects| <= |t.rects| && |t.indices| - |s.indices| == |t.rects| - |s.rects|
    && t.rects[..|s.rects|] == s.rects
    && |s.indices| <= |t.indices| && t.indices[..|s.indices|] == s.indices
    && (forall k :: |s.indices| <= k < |t.indices| ==> t.indices[k] == id)
  }

  lemma UnboundedGrows(layer: LayerInfo, rtree: RTreeData, info: SaveInfo, id: nat)
    ensures var acc := AccumulateUnbounded(layer, rtree, info, id);
      Grows(rtree, acc.rtree, id) && acc.layer.rtreeStart == layer.rtreeStart && acc.layer.filter == layer.filter
      && (!acc.ok ==> acc.rtree == rtree)
  {
    hide Tracker.MapAndClip, Tracker.LocalCullCoverage, Accumulation.Add;
  }

  lemma BoundsGrow(layer: LayerInfo, rtree: RTreeData, info: SaveInfo, id: nat, r: Rect)
    ensures var acc := AccumulateBounds(layer, rtree, info, id, r);
      Grows(rtree, acc.rtree, id) && acc.layer.rtreeStart == layer.rtreeStart && acc.layer.filter == layer.filter
      && (!acc.ok ==> acc.rtree == rtree)
  {
    hide Tracker.MapAndClip, Accumulation.Add;
  }

  lemma GrowsTrans(a: RTreeData, b: RTreeData, c: RTreeData, id: nat)
    requires Grows(a, b, id) && Grows(b, c, id)
    ensures Grows(a, c, id)
  {
    assert c.rects[..|a.rects|] == c.rects[..|b.rects|][..|a.rects|];
    assert c.indices[..|a.indices|] == c.indices[..|b.indices|][..|a.indices|];
    forall k | |a.indices| <= k < |c.indices|
      ensures c.indices[k] == id
    {
      if k < |b.indices| {
        assert c.indices[k] == c.indices[..|b.indices|][k];
      }
    }
  }

  lemma {:induction false} RectsGrow(layer: LayerInfo, rtree: RTreeData, info: SaveInfo, id: nat, rects: seq<Rect>)
    ensures var acc := AccumulateRects(layer, rtree, info, id, rects);
      Grows(rtree, acc.rtree, id) && acc.layer.rtreeStart == layer.rtreeStart && acc.layer.filter == layer.filter
      && (!acc.ok ==> acc.rtree == rtree)
  {
    if rects != [] {
      hide AccumulateBounds, Grows;
      RectsGrow(layer, rtree, info, id, rects[..|rects| - 1]);
      var before := AccumulateRects(layer, rtree, info, id, rects[..|rects| - 1]);
      BoundsGrow(before.layer, before.rtree, info, id, rects[|rects| - 1]);
      GrowsTrans(rtree, before.rtree, AccumulateRects(layer, rtree, info, id, rects).rtree, id);
    } else {
      assert Grows(rtree, rtree, id);
    }
  }

  lemma GeometryGrows(fx: FilterBounds, s: BuilderState, d: Draw)
    ensures var acc := AccumulateGeometry(fx, s, d);
      Grows(s.rtree, acc.rtree, |s.records|) && acc.layer.rtreeStart == s.layer.rtreeStart
        && acc.layer.filter == s.layer.filter
      && (!acc.ok ==> acc.rtree == s.rtree)
  {
    hide Grows, AccumulateBounds, AccumulateUnbounded, AdjustBoundsForPaint;
    UnboundedGrows(s.layer, s.rtree, s.top, |s.records|);
    if d.geometry.Box? {
      var adjusted := AdjustBoundsForPaint(fx, PaintOf(s.paint, d), d.flags, d.geometry.bounds);
      if adjusted.Some? {
        BoundsGrow(s.layer, s.rtree, s.top, |s.records|, adjusted.value);
      }
    }
  }

  lemma LayerGrows(s: BuilderState, withPaint: bool, backdrop: Option<ImageFilter>)
    ensures var acc := AccumulateLayer(s, withPaint, backdrop);
      Grows(s.rtree, acc.rtree, |s.records|) && acc.layer.rtreeStart == s.layer.rtreeStart
        && acc.layer.filter == s.layer.filter
  {
    hide Grows, AccumulateUnbounded, PaintResult, IsOpacityCompatible, LayerFloods;
    assert Grows(s.rtree, s.rtree, |s.records|) by { GrowsNot(s.rtree, |s.records|); }
    var layer := s.layer.MarkBackdrop(backdrop.Some?)
                        .UpdateOpacityCompatibility(!withPaint || IsOpacityCompatible(s.paint))
                        .UpdateResult(PaintResult(s.paint, SaveLayerFlags(withPaint)), BlendModeOf(s.paint, withPaint));
    UnboundedGrows(layer, s.rtree, s.top, |s.records|);
  }

  lemma GrowsNot(s: RTreeData, id: nat)
    ensures Grows(s, s, id)
  {
  }

  lemma GrowthIsOk(rtree: RTreeData, more: RTreeData, ops: seq<Record>, op: Record)
    requires TreeOk(rtree, ops) && Grows(rtree, more, |ops|) && OwnsEntries(op)
    ensures TreeOk(more, ops + [op])
  {
    forall k | 0 <= k < |more.indices|
      ensures NamesOwner(ops + [op], more.indices[k])
    {
      if k < |rtree.indices| {
        assert more.indices[k] == more.indices[..|rtree.indices|][k] == rtree.indices[k];
        assert NamesOwner(ops, rtree.indices[k]);
      }
    }
    forall j, k | 0 <= j < k < |more.indices|
      ensures more.indices[j] <= more.indices[k]
    {
      if j < |rtree.indices| {
        assert more.indices[j] == more.indices[..|rtree.indices|][j] == rtree.indices[j];
        assert NamesOwner(ops, rtree.indices[j]);
      }
      if k < |rtree.indices| {
        assert more.indices[k] == more.indices[..|rtree.indices|][k] == rtree.indices[k];
      }
    }
  }

  lemma MoreRecordsAreOk(rtree: RTreeData, ops: seq<Record>, op: Record)
    requires TreeOk(rtree, ops)
    ensures TreeOk(rtree, ops + [op])
  {
    forall id | NamesOwner(ops, id)
      ensures NamesOwner(ops + [op], id)
    {
    }
  }

  lemma AdjustKeepsTree(fx: FilterBounds, filter: ImageFilter, matrix: Matrix, clip: Rect,
                        data: RTreeData, start: nat, ops: seq<Record>)
    requires TreeOk(data, ops) && start <= |data.rects|
    ensures var adjusted := AdjustRTreeRects(fx, filter, matrix, clip, data, start, |data.rects|);
      TreeOk(adjusted, ops) && start <= |adjusted.rects|
  {
    hide AdjustRTreeRects, Sources, AdjustRect;
    var n := |data.rects|;
    var after := AdjustRTreeRects(fx, filter, matrix, clip, data, start, n);
    var sources := Sources(fx, filter, matrix, clip, data, start, n);
    AdjustIsFilterMap(fx, filter, matrix, clip, data, start, n);
    forall k | 0 <= k < |after.indices|
      ensures exists i :: 0 <= i < n && after.indices[k] == data.indices[i]
                       && (k < start ==> i == k) && (k >= start ==> i == sources[k - start])
    {
      if k < start {
        assert after.indices[k] == after.indices[..start][k] == data.indices[k];
      } else {
        assert ComesFrom(fx, filter, matrix, clip, data, sources[k - start], after, start + (k - start));
      }
    }
  }

  lemma SettledRecordsAreOk(rtree: RTreeData, ops: seq<Record>, k: nat, patched: Record)
    requires TreeOk(rtree, ops) && k < |ops| && (OwnsEntries(ops[k]) ==> OwnsEntries(patched))
    ensures TreeOk(rtree, ops[k := patched])
  {
    forall id | NamesOwner(ops, id)
      ensures NamesOwner(ops[k := patched], id)
    {
    }
  }

  lemma TransferKeepsTree(fx: FilterBounds, layer: LayerInfo, rtree: RTreeData, parent: SaveInfo,
                          parentLayer: LayerInfo, ops: seq<Record>, content: Rect)
    requires TreeOk(rtree, ops) && layer.rtreeStart <= |rtree.rects|
    ensures var acc := TransferLayerBounds(fx, layer, rtree, parent, parentLayer, |ops|, content);
      && TreeOk(acc.rtree, ops + [RestoreRecord])
      && layer.rtreeStart <= |acc.rtree.rects|
      && acc.layer.rtreeStart == parentLayer.rtreeStart
  {
    hide TreeOk, AccumulateUnbounded, AdjustRTreeRects, Grows, AnyRectFloods, Tracker.MapAndClip, Accumulation.Add;
    MoreRecordsAreOk(rtree, ops, RestoreRecord);
    if layer.filter.Some? {
      assert |rtree.rects| == |rtree.indices| by { Paired(rtree, ops); }
      var adjusted :=
        AdjustRTreeRects(fx, layer.filter.value, parent.global.matrix, parent.global.cull, rtree, layer.rtreeStart,
                         |rtree.rects|);
      AdjustKeepsTree(fx, layer.filter.value, parent.global.matrix, parent.global.cull, rtree, layer.rtreeStart, ops);
      MoreRecordsAreOk(adjusted, ops, RestoreRecord);
      UnboundedGrows(parentLayer, adjusted, parent, |ops|);
      var flooded := AccumulateUnbounded(parentLayer, adjusted, parent, |ops|);
      GrowthIsOk(adjusted, flooded.rtree, ops, RestoreRecord);
      GrowthIsLonger(adjusted, flooded.rtree, |ops|);
    }
  }

  lemma GrowthIsLonger(s: RTreeData, t: RTreeData, id: nat)
    requires Grows(s, t, id)
    ensures |s.rects| <= |t.rects|
  {
  }

  lemma Paired(rtree: RTreeData, ops: seq<Record>)
    requires TreeOk(rtree, ops)
    ensures |rtree.rects| == |rtree.indices|
  {
  }

  // ------------------------------------------------------------ calls

  lemma PlainKeepsBooks(s: BuilderState, t: BuilderState)
    requires Bookkept(s)
    requires t.rtree == s.rtree && t.outer == s.outer && t.layer.rtreeStart == s.layer.rtreeStart
    requires t.records == s.records || (|t.records| > |s.records| && t.records == s.records + [t.records[|s.records|]])
    ensures Bookkept(t)
  {
    if t.records != s.records {
      MoreRecordsAreOk(s.rtree, s.records, t.records[|s.records|]);
    }
  }

  lemma DrawKeepsBooks(s: BuilderState, t: BuilderState, op: Record)
    requires Bookkept(s) && OwnsEntries(op)
    requires Grows(s.rtree, t.rtree, |s.records|) && t.records == s.records + [op]
    requires t.outer == s.outer && t.layer.rtreeStart == s.layer.rtreeStart
    ensures Bookkept(t)
  {
    hide Ordered;
    GrowthIsOk(s.rtree, t.rtree, s.records, op);
    hide TreeOk;
  }

  lemma SaveLayerKeepsBooks(fx: FilterBounds, s: BuilderState, bounds: Option<Rect>, withPaint: bool,
                            backdrop: Option<ImageFilter>)
    requires Bookkept(s)
    ensures Bookkept(SaveLayer(fx, s, bounds, withPaint, backdrop))
  {
    hide PaintResult, AccumulateLayer, IsOpacityCompatible, LayerCull, Tracker.ClipRect, TreeOk, Grows;
    if ResultOf(s.top, s.paint, SaveLayerFlags(withPaint)) != NoEffect {
      var t := SaveLayer(fx, s, bounds, withPaint, backdrop);
      LayerGrows(s, withPaint, backdrop);
      GrowthIsOk(s.rtree, t.rtree, s.records, NewSaveLayerRecord(withPaint, bounds, backdrop));
      GrowthIsLonger(s.rtree, t.rtree, |s.records|);
    }
  }

  lemma RestoreKeepsBooks(fx: FilterBounds, s: BuilderState)
    requires Bookkept(s) && WellFormed(s)
    ensures Bookkept(Restore(fx, s))
  {
    if s.below != [] && !s.top.mark.deferred {
      hide TreeOk, WellFormed, TransferLayerBounds, ContentBounds, SettledLayer, PatchSave;
      RestoreIsReady(s);
      var k := s.top.mark.saveOffset;
      var t := Restore(fx, s);
      RestorePatches(fx, s);
      SettledRecordsAreOk(s.rtree, s.records, k, t.records[k]);
      var settled := s.records[k := t.records[k]];
      if s.top.mark.isSaveLayer {
        RestoreTransfers(fx, s);
        var content := ContentBounds(s.layer, PatchSave(s.records[k], |s.records|, s.depth - s.top.mark.saveDepth));
        TransferKeepsTree(fx, s.layer, s.rtree, s.below[|s.below| - 1], s.outer[|s.outer| - 1], settled, content);
      } else {
        MoreRecordsAreOk(s.rtree, settled, RestoreRecord);
      }
    }
  }

  /** What a restore does to the layers and the r-tree. */
  lemma RestoreTransfers(fx: FilterBounds, s: BuilderState)
    requires s.below != [] && !s.top.mark.deferred && NamesItsSave(s) && s.top.mark.isSaveLayer && s.outer != []
    ensures var patched := PatchSave(s.records[s.top.mark.saveOffset], |s.records|, s.depth - s.top.mark.saveDepth);
      var acc := TransferLayerBounds(fx, s.layer, s.rtree, s.below[|s.below| - 1], s.outer[|s.outer| - 1], |s.records|,
                                     ContentBounds(s.layer, patched));
      Restore(fx, s).layer == acc.layer && Restore(fx, s).rtree == acc.rtree
  {
    hide TransferLayerBounds, ContentBounds, ContentIsClipped, DepthCost, LayerInfo.IsGroupOpacityCompatible;
  }

  lemma {:induction false} RestoreToCountKeepsBooks(fx: FilterBounds, s: BuilderState, count: int)
    requires Bookkept(s) && WellFormed(s)
    ensures Bookkept(RestoreToCount(fx, s, count))
    decreases |s.below|
  {
    if s.below != [] && |s.below| + 1 > count {
      hide WellFormed, Restore, Bookkept;
      RestoreKeepsBooks(fx, s);
      RestoreKeepsForm(fx, s);
      RestoreShrinks(fx, s);
      RestoreToCountKeepsBooks(fx, Restore(fx, s), count);
    }
  }

  lemma ClipKeepsBooks(s: BuilderState, r: Rect, op: ClipOp)
    requires Bookkept(s)
    ensures Bookkept(Clip(s, r, op))
  {
    hide ClipIsRedundant, CullIsEmpty, Tracker.ClipRect, Bookkept;
    if !s.top.isNop && !ClipIsRedundant(s.top, r, op) {
      var clipped := Clipped(s.top, r, op);
      var t := s.(top := clipped.(hasValidClip := true));
      PlainKeepsBooks(s, t);
      PlainKeepsBooks(t, CheckForDeferredSave(t));
      if CullIsEmpty(clipped) {
        PlainKeepsBooks(s, Clip(s, r, op));
      } else {
        PlainKeepsBooks(CheckForDeferredSave(t), Clip(s, r, op));
      }
    }
  }

  lemma DrawOpKeepsBooks(fx: FilterBounds, s: BuilderState, d: Draw)
    requires Bookkept(s)
    ensures Bookkept(DrawOp(fx, s, d))
  {
    hide Bookkept, AccumulateGeometry, ResultOf, IsOpacityCompatible, Grows;
    GeometryGrows(fx, s, d);
    if ResultOf(s.top, PaintOf(s.paint, d), d.flags) != NoEffect {
      if AccumulateGeometry(fx, s, d).ok {
        DrawKeepsBooks(s, DrawOp(fx, s, d), DrawRecord(d));
      } else {
        PlainKeepsBooks(s, DrawOp(fx, s, d));
      }
    }
  }

  lemma DrawListKeepsBooks(s: BuilderState, list: ChildList, opacity: real)
    requires Bookkept(s)
    ensures Bookkept(DrawDisplayList(s, list, opacity))
  {
    hide Bookkept, AccumulateRects, AccumulateUnbounded, ListIsVisible, Grows;
    UnboundedGrows(s.layer, s.rtree, s.top, |s.records|);
    RectsGrow(s.layer, s.rtree, s.top, |s.records|, list.rects);
    var t := DrawDisplayList(s, list, opacity);
    if t.records == s.records {
      PlainKeepsBooks(s, t);
    } else {
      DrawKeepsBooks(s, t, DrawListRecord(list, Min(opacity, 1.0)));
    }
  }

  lemma StepKeepsBooks(fx: FilterBounds, s: BuilderState, call: Call)
    requires Bookkept(s) && WellFormed(s)
    ensures Bookkept(Step(fx, s, call))
  {
    hide WellFormed, Bookkept, ChangesMatrix;
    match call
    case SetAttributeCall(a) => PlainKeepsBooks(s, SetAttribute(s, a));
    case SaveCall => PlainKeepsBooks(s, Save(s));
    case SaveLayerCall(bounds, withPaint, backdrop) => SaveLayerKeepsBooks(fx, s, bounds, withPaint, backdrop);
    case RestoreCall => RestoreKeepsBooks(fx, s);
    case RestoreToCountCall(count) => RestoreToCountKeepsBooks(fx, s, count);
    case TransformCall(t) =>
      if ChangesMatrix(t) {
        PlainKeepsBooks(s, CheckForDeferredSave(s));
        PlainKeepsBooks(CheckForDeferredSave(s), Transform(s, t));
      }
    case ClipCall(r, op) => ClipKeepsBooks(s, r, op);
    case DrawCall(d) => DrawOpKeepsBooks(fx, s, d);
    case DrawListCall(list, opacity) => DrawListKeepsBooks(s, list, opacity);
  }

  /** In every run the entries are paired, in order, name records that render, and the
      open layers' shares of them start in order. */
  lemma {:induction false} RunIsBookkept(fx: FilterBounds, cull: Rect, calls: seq<Call>)
    ensures Bookkept(Run(fx, cull, calls))
  {
    if calls != [] {
      hide WellFormed, Step, Bookkept;
      RunIsBookkept(fx, cull, calls[..|calls| - 1]);
      RunIsWellFormed(fx, cull, calls[..|calls| - 1]);
      StepKeepsBooks(fx, Run(fx, cull, calls[..|calls| - 1]), calls[|calls| - 1]);
    }
  }
}
