/**
 Layers and child lists keep `Sees`, so it holds in every run; and with it the r-tree
 of a built list holds every pixel that its drawings can change.
 */
module DisplayListLayers {
  import opened Options
  import opened DisplayListTypes
  import opened DisplayListPaint
  import opened DisplayListBuilderSpec
  import opened DisplayListNesting
  import opened DisplayListRTree
  import opened DisplayListGeometry
  import opened DisplayListCanvas
  import opened DisplayListUsedFilters
  import opened DisplayListVisibility

  // ------------------------------------------------------------ child lists

  lemma {:induction false} RectsHold(strict: bool, layer: LayerInfo, rtree: RTreeData, info: SaveInfo, e: CanvasEntry,
                                     id: nat, rects: seq<Rect>, k: nat, m: Mark)
    requires |rtree.rects| == |rtree.indices| && k < |rects|
    requires Tracks(strict, info, e) && !info.isNop && OwnSpace(strict, info)
    requires Shows(e, m.point) && Within(e.matrix, rects[k], m.point) && m.id == id
    ensures var acc := AccumulateRects(layer, rtree, info, id, rects);
      acc.ok && HeldBetween(acc.rtree, |rtree.rects|, |acc.rtree.rects|, m)
  {
    hide Tracks, Shows, AccumulateBounds, HeldBetween, Grows, Within;
    var n := |rects| - 1;
    var before := AccumulateRects(layer, rtree, info, id, rects[..n]);
    RectsGrow(layer, rtree, info, id, rects[..n]);
    BoundsGrow(before.layer, before.rtree, info, id, rects[n]);
    var now := AccumulateBounds(before.layer, before.rtree, info, id, rects[n]);
    GrowsLengths(rtree, before.rtree, id);
    GrowsLengths(before.rtree, now.rtree, id);
    if k == n {
      BoundsAccumulate(strict, before.layer, before.rtree, info, e, id, rects[n], m);
      HeldEarlier(now.rtree, |before.rtree.rects|, |rtree.rects|, |now.rtree.rects|, m);
    } else {
      RectsHold(strict, layer, rtree, info, e, id, rects[..n], k, m);
      HeldStays(before.rtree, now.rtree, |rtree.rects|, id, m);
    }
  }

  lemma GrowsLengths(a: RTreeData, b: RTreeData, id: nat)
    requires Grows(a, b, id) && |a.rects| == |a.indices|
    ensures |b.rects| == |b.indices| && |a.rects| <= |b.rects|
  {
  }

  lemma HeldEarlier(rtree: RTreeData, lo: nat, earlier: nat, hi: nat, m: Mark)
    requires HeldBetween(rtree, lo, hi, m) && earlier <= lo
    ensures HeldBetween(rtree, earlier, hi, m)
  {
  }

  lemma HeldStays(a: RTreeData, b: RTreeData, lo: nat, id: nat, m: Mark)
    requires HeldBetween(a, lo, |a.rects|, m) && Grows(a, b, id) && |a.rects| == |a.indices|
    ensures HeldBetween(b, lo, |b.rects|, m)
  {
    var r :| lo <= r < |a.rects| && HeldAt(a, r, m);
    assert b.rects[r] == b.rects[..|a.rects|][r] && b.indices[r] == b.indices[..|a.indices|][r];
    assert HeldAt(b, r, m);
  }

  lemma ListHolds(strict: bool, s: BuilderState, e: CanvasEntry, list: ChildList, opacity: real, m: Mark)
    requires |s.rtree.rects| == |s.rtree.indices|
    requires Tracks(strict, s.top, e) && !s.top.isNop && OwnSpace(strict, s.top)
    requires Shows(e, m.point) && ListTouches(e, list, opacity, m.point) && m.id == |s.records|
    ensures var after := DrawDisplayList(s, list, opacity).rtree;
      HeldBetween(after, |s.rtree.rects|, |after.rects|, m)
  {
    hide Tracks, Shows, AccumulateUnbounded, AccumulateRects, LayerAfterList, HeldBetween, Matrix.Invert,
      Matrix.IsInvertible, Matrix.Apply;
    if list.root.isUnbounded {
      UnboundedHolds(strict, s.layer, s.rtree, s.top, e, |s.records|, m);
    } else {
      var k :| 0 <= k < |list.rects| && list.rects[k].Inside(e.matrix.Invert().Apply(m.point));
      RectsHold(strict, s.layer, s.rtree, s.top, e, |s.records|, list.rects, k, m);
    }
  }

  lemma ListTop(s: BuilderState, list: ChildList, opacity: real)
    ensures var u := DrawDisplayList(s, list, opacity);
      && u.below == s.below && u.top == s.top && u.outer == s.outer && u.paint == s.paint
      && SameKey(s.layer, u.layer) && Grows(s.rtree, u.rtree, |s.records|)
      && (s.top.isNop ==> u.rtree == s.rtree)
  {
    hide AccumulateUnbounded, AccumulateRects, ListIsVisible, Grows;
    UnboundedGrows(s.layer, s.rtree, s.top, |s.records|);
    RectsGrow(s.layer, s.rtree, s.top, |s.records|, list.rects);
    GrowsNot(s.rtree, |s.records|);
  }

  lemma ListMarksHeld(strict: bool, s: BuilderState, c: Canvas, list: ChildList, opacity: real, kept: bool)
    requires Tracks(strict, s.top, c.top) && |s.rtree.rects| == |s.rtree.indices| && MayKeep(strict, s.top, kept)
    ensures NewMarksHeld(strict, c.top, KeptMarks(kept, ListMarks(c, list, opacity, |s.records|)),
                         s.rtree, DrawDisplayList(s, list, opacity).rtree)
  {
    var marks := ListMarks(c, list, opacity, |s.records|);
    var after := DrawDisplayList(s, list, opacity).rtree;
    assert forall m :: m in marks ==> Paintable(c.top, m.point);
    if !kept {
      NoMarksHeld(strict, c.top.spec, after, |s.rtree.rects|, |after.rects|);
      hide *;
    } else if s.top.isNop {
      HiddenMarksHeld(s.top, c.top, marks, s.rtree);
      hide *;
      DroppedList(s, list, opacity);
    } else {
      forall m | m in marks && Shows(c.top, m.point)
        ensures HeldBetween(after, |s.rtree.rects|, |after.rects|, m)
      {
        ListHolds(strict, s, c.top, list, opacity, m);
      }
      hide *;
      LiveMarksHeld(strict, s.top, c.top, marks, s.rtree, after);
    }
  }

  lemma DroppedList(s: BuilderState, list: ChildList, opacity: real)
    requires s.top.isNop
    ensures DrawDisplayList(s, list, opacity) == s
  {
  }

  lemma ListSees(strict: bool, fm: FilterMeaning, s: BuilderState, c: Canvas, list: ChildList, opacity: real,
                 kept: bool)
    requires Sees(strict, fm, s, c) && |s.rtree.rects| == |s.rtree.indices| && MayKeep(strict, s.top, kept)
    ensures Sees(strict, fm, DrawDisplayList(s, list, opacity),
                 c.(marks := c.marks + KeptMarks(kept, ListMarks(c, list, opacity, |s.records|))))
  {
    TopTracks(strict, fm, s, c);
    ListTop(s, list, opacity);
    ListMarksHeld(strict, s, c, list, opacity, kept);
    hide *;
    DrawingSees(strict, fm, s, c, DrawDisplayList(s, list, opacity),
                KeptMarks(kept, ListMarks(c, list, opacity, |s.records|)));
  }

  // ------------------------------------------------------------ saves

  lemma CopyTracks(strict: bool, info: SaveInfo, e: CanvasEntry, mark: SaveMark)
    requires Tracks(strict, info, e)
    ensures Tracks(strict, info.(mark := mark), e.(isLayer := false))
  {
    hide Matrix.Times, Matrix.IsInvertible, Matrix.Invert;
    assert forall p :: Shows(e.(isLayer := false), p) <==> Shows(e, p);
  }

  lemma SaveSees(strict: bool, fm: FilterMeaning, s: BuilderState, c: Canvas)
    requires Sees(strict, fm, s, c)
    ensures Sees(strict, fm, Save(s), c.(below := c.below + [c.top], top := c.top.(isLayer := false)))
  {
    TopTracks(strict, fm, s, c);
    CopyTracks(strict, s.top, c.top, SaveMark(false, true, 0, 0));
    hide Tracks, MarksHeld, SpecOf;
    HeldStartsBelow(strict, fm, s, c);
    assert (s.below + [s.top])[..|s.below|] == s.below && (c.below + [c.top])[..|c.below|] == c.below;
  }

  lemma HeldStartsBelow(strict: bool, fm: FilterMeaning, s: BuilderState, c: Canvas)
    requires Sees(strict, fm, s, c)
    ensures s.layer.rtreeStart <= |s.rtree.rects|
  {
  }

  /** A layer pushed where nothing can be seen, or composed without effect, hides all it holds. */
  lemma DroppedLayerTracks(strict: bool, fm: FilterMeaning, info: SaveInfo, e: CanvasEntry, filter: Option<ImageFilter>,
                           effective: bool, part: Part, bounds: Option<Rect>, clip: iset<Point>, mark: SaveMark)
    requires Tracks(strict, info, e) && (info.isNop || !effective)
    ensures Tracks(strict, info.(mark := mark, isNop := true),
                   CanvasEntry(true, SpecOf(fm, e, filter, effective, part, bounds), e.matrix, clip))
  {
    hide Matrix.Times, Matrix.IsInvertible, Matrix.Invert;
    var spec := SpecOf(fm, e, filter, effective, part, bounds);
    var entry := CanvasEntry(true, spec, e.matrix, clip);
    if strict && e.matrix.IsInvertible() && info.isNop {
      forall p
        ensures !Shows(entry, p)
      {
        assert !LeadsToSurface(fm, e, filter, p);
      }
    }
  }

  lemma TimesIdentity(m: Matrix)
    ensures m.Times(IDENTITY) == m
  {
  }

  /** The cull box a layer starts with holds every point that can reach the surface. */
  lemma LayerCullHolds(strict: bool, fx: FilterBounds, fm: FilterMeaning, info: SaveInfo, e: CanvasEntry,
                       filter: Option<ImageFilter>, bounds: Option<Rect>, q: Point)
    requires (filter.Some? ==> SoundFilter(fx, fm, filter.value)) && Tracks(strict, info, e) && !info.isNop
    requires InExtent(filter, e.matrix, bounds, q) && LeadsToSurface(fm, e, filter, q)
    ensures LayerCull(fx, info.global, filter).cull.Inside(q)
  {
    hide Matrix.Times, Matrix.IsInvertible, Matrix.Invert, Rect.RoundOut;
    var p :| Composed(fm, filter, e.matrix, q, p) && Shows(e, p);
    assert info.global.cull.Inside(p);
    if filter.Some? {
      RoundOutCovers(info.global.cull, p);
      assert NeedsDevice(fx, filter.value, e.matrix, info.global.cull.RoundOut(), q, p);
    }
  }

  lemma LayerCullMatrix(fx: FilterBounds, global: Tracker, filter: Option<ImageFilter>)
    ensures LayerCull(fx, global, filter).matrix == global.matrix
  {
  }

  lemma NewLayerTracks(strict: bool, fx: FilterBounds, fm: FilterMeaning, s: BuilderState, e: CanvasEntry,
                       filter: Option<ImageFilter>, part: Part, bounds: Option<Rect>)
    requires Sound(fx, fm) && Tracks(strict, s.top, e) && !s.top.isNop
    ensures Tracks(strict, LayerEntry(fx, s, filter, bounds),
                   CanvasEntry(true, SpecOf(fm, e, filter, true, part, bounds), e.matrix, Everywhere()))
  {
    hide Matrix.Times, Matrix.IsInvertible, Matrix.Invert, LayerCull, SoundFilter, Tracker.ClipRect, Within;
    var info := LayerEntry(fx, s, filter, bounds);
    var entry := CanvasEntry(true, SpecOf(fm, e, filter, true, part, bounds), e.matrix, Everywhere());
    TimesIdentity(e.matrix);
    LayerCullMatrix(fx, s.top.global, filter);
    ClipRectKeepsMatrix(LayerCull(fx, s.top.global, filter), bounds);
    forall p | Shows(entry, p)
      ensures info.global.cull.Inside(p)
      ensures entry.spec.matrix.IsInvertible() ==> info.layer.cull.Inside(entry.spec.matrix.Invert().Apply(p))
    {
      LayerCullHolds(strict, fx, fm, s.top, e, filter, bounds, p);
      if bounds.Some? {
        ClipKeepsPoint(LayerCull(fx, s.top.global, filter), bounds.value, Intersect, p);
      }
    }
  }

  lemma ClipRectKeepsMatrix(t: Tracker, bounds: Option<Rect>)
    ensures bounds.Some? ==> t.ClipRect(bounds.value, Intersect).matrix == t.matrix
  {
  }

  lemma LayerMarksHeld(strict: bool, s: BuilderState, c: Canvas, withPaint: bool, backdrop: Option<ImageFilter>,
                       kept: bool)
    requires Tracks(strict, s.top, c.top) && s.paint == c.paint && |s.rtree.rects| == |s.rtree.indices| && !s.top.isNop
    requires MayKeep(strict, s.top, kept)
    ensures NewMarksHeld(strict, c.top, KeptMarks(kept, LayerMarks(c, withPaint, backdrop, |s.records|)),
                         s.rtree, AccumulateLayer(s, withPaint, backdrop).rtree)
  {
    var marks := LayerMarks(c, withPaint, backdrop, |s.records|);
    var after := AccumulateLayer(s, withPaint, backdrop).rtree;
    assert forall m :: m in marks ==> Paintable(c.top, m.point);
    if !kept {
      NoMarksHeld(strict, c.top.spec, after, |s.rtree.rects|, |after.rects|);
      hide *;
    } else {
      forall m | m in marks && Shows(c.top, m.point)
        ensures HeldBetween(after, |s.rtree.rects|, |after.rects|, m)
      {
        LayerHolds(strict, s, c.top, withPaint, backdrop, m);
      }
      hide *;
      LiveMarksHeld(strict, s.top, c.top, marks, s.rtree, after);
    }
  }

  /** What a saveLayer adds to the layer below before it opens its own. */
  lemma AccumulatedLayerSees(strict: bool, fm: FilterMeaning, s: BuilderState, c: Canvas, withPaint: bool,
                             backdrop: Option<ImageFilter>, kept: bool)
    requires Sees(strict, fm, s, c) && |s.rtree.rects| == |s.rtree.indices| && !s.top.isNop
    requires MayKeep(strict, s.top, kept)
    ensures var acc := AccumulateLayer(s, withPaint, backdrop);
      Sees(strict, fm, s.(layer := acc.layer, rtree := acc.rtree),
           c.(marks := c.marks + KeptMarks(kept, LayerMarks(c, withPaint, backdrop, |s.records|))))
  {
    TopTracks(strict, fm, s, c);
    SamePaint(strict, fm, s, c);
    LayerGrows(s, withPaint, backdrop);
    LayerMarksHeld(strict, s, c, withPaint, backdrop, kept);
    var acc := AccumulateLayer(s, withPaint, backdrop);
    hide *;
    DrawingSees(strict, fm, s, c, s.(layer := acc.layer, rtree := acc.rtree),
                KeptMarks(kept, LayerMarks(c, withPaint, backdrop, |s.records|))) by {
      assert SameKey(s.layer, acc.layer) by { SameKeyFrom(s.layer, acc.layer); }
    }
  }

  lemma SameKeyFrom(a: LayerInfo, b: LayerInfo)
    requires a.filter == b.filter && a.rtreeStart == b.rtreeStart
    ensures SameKey(a, b)
  {
  }

  lemma LayerHolds(strict: bool, s: BuilderState, e: CanvasEntry, withPaint: bool, backdrop: Option<ImageFilter>,
                   m: Mark)
    requires |s.rtree.rects| == |s.rtree.indices|
    requires Tracks(strict, s.top, e) && !s.top.isNop && OwnSpace(strict, s.top) && Shows(e, m.point)
    requires m.id == |s.records|
    requires LayerTouches(s.paint, e, withPaint, backdrop, m.point)
    ensures var acc := AccumulateLayer(s, withPaint, backdrop);
      HeldBetween(acc.rtree, |s.rtree.rects|, |acc.rtree.rects|, m)
  {
    hide Tracks, Shows, AccumulateUnbounded, HeldBetween, PaintResult, IsOpacityCompatible, LayerFloods;
    var layer := s.layer.MarkBackdrop(backdrop.Some?)
                        .UpdateOpacityCompatibility(!withPaint || IsOpacityCompatible(s.paint))
                        .UpdateResult(PaintResult(s.paint, SaveLayerFlags(withPaint)), BlendModeOf(s.paint, withPaint));
    UnboundedHolds(strict, layer, s.rtree, s.top, e, |s.records|, m);
  }

  lemma EnteredLayerSees(strict: bool, fx: FilterBounds, fm: FilterMeaning, s: BuilderState, c: Canvas,
                         bounds: Option<Rect>, withPaint: bool, backdrop: Option<ImageFilter>, part: Part)
    requires Sound(fx, fm) && Sees(strict, fm, s, c) && !s.top.isNop
    ensures Sees(strict, fm, EnterLayer(fx, s, bounds, withPaint, backdrop),
                 Canvas(c.paint, c.below + [c.top],
                        CanvasEntry(true, SpecOf(fm, c.top, LayerFilter(c.paint, withPaint), true, part, bounds),
                        c.top.matrix, Everywhere()), c.outer + [c.marks], iset{}))
  {
    TopTracks(strict, fm, s, c);
    HeldStartsBelow(strict, fm, s, c);
    var filter := LayerFilter(s.paint, withPaint);
    NewLayerTracks(strict, fx, fm, s, c.top, filter, part, bounds);
    EnteredEntry(fx, s, bounds, withPaint, backdrop);
    var spec := SpecOf(fm, c.top, filter, true, part, bounds);
    NoMarksHeld(strict, spec, s.rtree, |s.rtree.rects|, |s.rtree.rects|);
    SpecKeeps(fm, c.top, filter, true, part, bounds);
    hide Tracks, MarksHeld, SpecOf, EnterLayer;
    assert (s.below + [s.top])[..|s.below|] == s.below && (c.below + [c.top])[..|c.below|] == c.below;
    assert (s.outer + [s.layer])[..|s.outer|] == s.outer && (c.outer + [c.marks])[..|c.outer|] == c.outer;
  }

  lemma SpecKeeps(fm: FilterMeaning, e: CanvasEntry, filter: Option<ImageFilter>, effective: bool, part: Part,
                  bounds: Option<Rect>)
    ensures var spec := SpecOf(fm, e, filter, effective, part, bounds);
      spec.filter == filter && spec.effective == effective && spec.part == part && spec.bounds == bounds
  {
  }

  lemma EnteredEntry(fx: FilterBounds, s: BuilderState, bounds: Option<Rect>, withPaint: bool,
                     backdrop: Option<ImageFilter>)
    ensures var t := EnterLayer(fx, s, bounds, withPaint, backdrop);
      var filter := LayerFilter(s.paint, withPaint);
      && t.below == s.below + [s.top] && t.top == LayerEntry(fx, s, filter, bounds) && t.top.mark.isSaveLayer
      && t.outer == s.outer + [s.layer] && t.layer.filter == filter && t.layer.rtreeStart == |s.rtree.rects|
      && t.rtree == s.rtree && t.paint == s.paint
  {
    hide LayerCull, Tracker.ClipRect, IsOpacityCompatible;
  }

  /** The canvas after a saveLayer whose flood of the layer below may be left out. */
  ghost function KeptSaveLayer(fm: FilterMeaning, c: Canvas, bounds: Option<Rect>, withPaint: bool,
                               backdrop: Option<ImageFilter>, id: nat, kept: bool): Canvas
  {
    KeptStep(fm, c, SaveLayerCall(bounds, withPaint, backdrop), id, kept)
  }

  lemma SaveLayerSees(strict: bool, fx: FilterBounds, fm: FilterMeaning, s: BuilderState, c: Canvas,
                      bounds: Option<Rect>, withPaint: bool, backdrop: Option<ImageFilter>, kept: bool)
    requires Sound(fx, fm) && Sees(strict, fm, s, c) && |s.rtree.rects| == |s.rtree.indices|
    requires MayKeep(strict, s.top, kept)
    ensures Sees(strict, fm, SaveLayer(fx, s, bounds, withPaint, backdrop),
                 KeptSaveLayer(fm, c, bounds, withPaint, backdrop, |s.records|, kept))
  {
    if ResultOf(s.top, s.paint, SaveLayerFlags(withPaint)) == NoEffect {
      DroppedLayerSees(strict, fx, fm, s, c, bounds, withPaint, backdrop, kept);
    } else {
      hide Sees, PaintResult, SpecOf, LayerMarks, EnterLayer, AccumulateLayer, Sound, KeptMarks;
      AccumulatedLayerSees(strict, fm, s, c, withPaint, backdrop, kept);
      var acc := AccumulateLayer(s, withPaint, backdrop);
      var t := s.(layer := acc.layer, rtree := acc.rtree);
      var d := c.(marks := c.marks + KeptMarks(kept, LayerMarks(c, withPaint, backdrop, |s.records|)));
      EnteredLayerSees(strict, fx, fm, t, d, bounds, withPaint, backdrop,
                       LayerPart(c.paint, withPaint, |s.records|, true));
      SamePaint(strict, fm, s, c);
    }
  }

  lemma SamePaint(strict: bool, fm: FilterMeaning, s: BuilderState, c: Canvas)
    requires Sees(strict, fm, s, c)
    ensures s.paint == c.paint
  {
  }

  /** An entry that the builder pushes in place of a layer. */
  function DroppedTop(s: BuilderState): SaveInfo {
    s.top.(mark := SaveMark(false, true, 0, 0), isNop := true)
  }

  lemma DroppedSave(fx: FilterBounds, s: BuilderState, bounds: Option<Rect>, withPaint: bool,
                    backdrop: Option<ImageFilter>)
    requires ResultOf(s.top, s.paint, SaveLayerFlags(withPaint)) == NoEffect
    ensures SaveLayer(fx, s, bounds, withPaint, backdrop) == s.(below := s.below + [s.top], top := DroppedTop(s))
  {
    hide PaintResult;
  }

  lemma DroppedEntryHeld(strict: bool, fm: FilterMeaning, s: BuilderState, c: Canvas, e: CanvasEntry)
    requires Sees(strict, fm, s, c) && Tracks(strict, DroppedTop(s), e) && e.isLayer
    requires e.spec == SpecOf(fm, c.top, e.spec.filter, e.spec.effective, e.spec.part, e.spec.bounds)
    ensures Held(strict, fm, s.below + [s.top], DroppedTop(s), c.below + [c.top], e, s.outer, s.layer,
                 c.outer + [c.marks], iset{}, s.rtree, |s.rtree.rects|)
  {
    HeldStartsBelow(strict, fm, s, c);
    NoMarksHeld(strict, e.spec, s.rtree, |s.rtree.rects|, |s.rtree.rects|);
    hide Tracks, MarksHeld, SpecOf;
    assert (s.below + [s.top])[..|s.below|] == s.below && (c.below + [c.top])[..|c.below|] == c.below;
    assert (c.outer + [c.marks])[..|c.outer|] == c.outer;
  }

  lemma DroppedLayerSees(strict: bool, fx: FilterBounds, fm: FilterMeaning, s: BuilderState, c: Canvas,
                         bounds: Option<Rect>, withPaint: bool, backdrop: Option<ImageFilter>, kept: bool)
    requires Sees(strict, fm, s, c) && |s.rtree.rects| == |s.rtree.indices| && MayKeep(strict, s.top, kept)
    requires ResultOf(s.top, s.paint, SaveLayerFlags(withPaint)) == NoEffect
    ensures Sees(strict, fm, SaveLayer(fx, s, bounds, withPaint, backdrop),
                 KeptSaveLayer(fm, c, bounds, withPaint, backdrop, |s.records|, kept))
  {
    TopTracks(strict, fm, s, c);
    SamePaint(strict, fm, s, c);
    var effective := PaintResult(c.paint, SaveLayerFlags(withPaint)) != NoEffect;
    var filter := ContentFilter(c.paint, withPaint);
    var part := LayerPart(c.paint, withPaint, |s.records|, true);
    DroppedLayerTracks(strict, fm, s.top, c.top, filter, effective, part, bounds, Everywhere(),
                       SaveMark(false, true, 0, 0));
    DroppedMarksSee(strict, fm, s, c, withPaint, backdrop, kept);
    var d := c.(marks := c.marks + KeptMarks(kept, LayerMarks(c, withPaint, backdrop, |s.records|)));
    SpecKeeps(fm, c.top, filter, effective, part, bounds);
    DroppedSave(fx, s, bounds, withPaint, backdrop);
    hide Tracks, SpecOf, PaintResult, LayerMarks, KeptMarks, SaveLayer, LayerFilter, ContentFilter, Held, ResultOf;
    DroppedEntryHeld(strict, fm, s, d,
                     CanvasEntry(true, SpecOf(fm, c.top, filter, effective, part, bounds), c.top.matrix, Everywhere()));
  }

  lemma DroppedMarksSee(strict: bool, fm: FilterMeaning, s: BuilderState, c: Canvas, withPaint: bool,
                        backdrop: Option<ImageFilter>, kept: bool)
    requires Sees(strict, fm, s, c) && |s.rtree.rects| == |s.rtree.indices| && MayKeep(strict, s.top, kept)
    requires ResultOf(s.top, s.paint, SaveLayerFlags(withPaint)) == NoEffect
    ensures Sees(strict, fm, s, c.(marks := c.marks + KeptMarks(kept, LayerMarks(c, withPaint, backdrop, |s.records|))))
  {
    TopTracks(strict, fm, s, c);
    SamePaint(strict, fm, s, c);
    var marks := LayerMarks(c, withPaint, backdrop, |s.records|);
    assert forall m :: m in marks ==> Paintable(c.top, m.point);
    if kept && s.top.isNop {
      HiddenMarksHeld(s.top, c.top, marks, s.rtree);
    } else {
      assert KeptMarks(kept, marks) == iset{};
      NoMarksHeld(strict, c.top.spec, s.rtree, |s.rtree.rects|, |s.rtree.rects|);
    }
    GrowsNot(s.rtree, |s.records|);
    DrawingSees(strict, fm, s, c, s, KeptMarks(kept, marks));
    hide *;
  }

  // ------------------------------------------------------------ restores

  /** A mark that surfaces where it shows comes from one that leads to the surface. */
  lemma SurfacedComesFrom(strict: bool, fm: FilterMeaning, parent: CanvasEntry, closing: CanvasEntry, marks: iset<Mark>,
                          rtree: RTreeData, lo: nat, hi: nat, m: Mark) returns (q: Point, part: Part)
    requires closing.spec == SpecOf(fm, parent, closing.spec.filter, closing.spec.effective, closing.spec.part,
                                    closing.spec.bounds)
    requires MarksHeld(strict, marks, closing.spec, rtree, lo, hi) && m in Surfaced(fm, closing, parent, marks)
    ensures (strict ==> closing.spec.matrix.IsInvertible()) && closing.spec.matrix == parent.matrix
    ensures m.point in parent.clip && m.point in parent.spec.extent
    ensures Composed(fm, closing.spec.filter, parent.matrix, q, m.point)
    ensures m.point in parent.spec.relevant ==>
      Shows(parent, m.point) && HeldBetween(rtree, lo, hi, Mark(m.id, part, m.paint, q))
  {
    hide Matrix.IsInvertible, HeldBetween;
    q, part :|
      Mark(m.id, part, m.paint, q) in marks && Composed(fm, closing.spec.filter, closing.spec.matrix, q, m.point);
    var was := Mark(m.id, part, m.paint, q);
    assert was in marks;
    if m.point in parent.spec.relevant {
      assert Shows(parent, m.point);
      assert LeadsToSurface(fm, parent, closing.spec.filter, q);
      assert q in closing.spec.relevant;
    }
  }

  /** Without a filter, or in a dropped layer, what held the mark before holds it still. */
  lemma UnfilteredMarksHeld(strict: bool, fm: FilterMeaning, info: SaveInfo, parent: CanvasEntry, closing: CanvasEntry,
                            marks: iset<Mark>, rtree: RTreeData, lo: nat, hi: nat)
    requires Tracks(strict, info, parent)
    requires closing.spec == SpecOf(fm, parent, closing.spec.filter, closing.spec.effective, closing.spec.part,
                                    closing.spec.bounds)
    requires MarksHeld(strict, marks, closing.spec, rtree, lo, hi)
    requires closing.spec.filter.None? || lo == hi
    ensures MarksHeld(strict, Surfaced(fm, closing, parent, marks), parent.spec, rtree, lo, hi)
  {
    forall m | m in Surfaced(fm, closing, parent, marks)
      ensures (strict ==> parent.spec.matrix.IsInvertible()) && m.point in parent.spec.extent
      ensures m.point in parent.spec.relevant ==> HeldBetween(rtree, lo, hi, m)
    {
      hide MarksHeld, Surfaced, SpecOf, Matrix.IsInvertible, Hidden, LiveTracks, Matrix.Times;
      var q, part := SurfacedComesFrom(strict, fm, parent, closing, marks, rtree, lo, hi, m);
      if m.point in parent.spec.relevant && closing.spec.filter.None? {
        HeldAlike(rtree, lo, hi, Mark(m.id, part, m.paint, q), m);
      }
    }
  }

  lemma HeldAlike(rtree: RTreeData, lo: nat, hi: nat, a: Mark, b: Mark)
    requires HeldBetween(rtree, lo, hi, a) && a.id == b.id && a.point == b.point
    ensures HeldBetween(rtree, lo, hi, b)
  {
    var r :| lo <= r < hi && HeldAt(rtree, r, a);
    assert HeldAt(rtree, r, b);
  }

  lemma AdjustedHolds(fx: FilterBounds, fm: FilterMeaning, f: ImageFilter, matrix: Matrix, clip: Rect, rtree: RTreeData,
                      start: nat, m: Mark, part: Part, q: Point)
    requires SoundFilter(fx, fm, f) && start <= |rtree.rects| == |rtree.indices|
    requires HeldBetween(rtree, start, |rtree.rects|, Mark(m.id, part, m.paint, q))
    requires fm.reaches(f, matrix, q, m.point) && clip.Inside(m.point)
    ensures var after := AdjustRTreeRects(fx, f, matrix, clip, rtree, start, |rtree.rects|);
      HeldBetween(after, start, |after.rects|, m)
  {
    var n := |rtree.rects|;
    var r :| start <= r < n && HeldAt(rtree, r, Mark(m.id, part, m.paint, q));
    AdjustIsFilterMap(fx, f, matrix, clip, rtree, start, n);
    var sources := Sources(fx, f, matrix, clip, rtree, start, n);
    var after := AdjustRTreeRects(fx, f, matrix, clip, rtree, start, n);
    AdjustedRectHolds(fx, fm, f, matrix, clip, rtree.rects[r], q, m.point);
    hide AdjustRTreeRects, Sources, AdjustRect, SoundFilter;
    assert r in sources;
    var j :| 0 <= j < |sources| && sources[j] == r;
    assert ComesFrom(fx, f, matrix, clip, rtree, sources[j], after, start + j);
    assert HeldAt(after, start + j, m);
  }

  lemma AdjustedRectHolds(fx: FilterBounds, fm: FilterMeaning, f: ImageFilter, matrix: Matrix, clip: Rect, r: Rect,
                          q: Point, p: Point)
    requires SoundFilter(fx, fm, f) && fm.reaches(f, matrix, q, p) && r.Inside(q) && clip.Inside(p)
    ensures var adjusted := AdjustRect(fx, f, matrix, clip, r);
      adjusted.Some? && adjusted.value.Inside(p)
  {
    hide Rect.RoundOut, Rect.Intersection;
    RoundOutCovers(r, q);
    assert MapsDevice(fx, f, matrix, r.RoundOut(), q, p);
    IntersectionCovers(clip, clip, p);
    match fx.mapDevice(f, r.RoundOut(), matrix)
    case Some(mapped) => IntersectionCovers(mapped, clip, p);
    case None =>
  }

  lemma FilteredMarksHeld(strict: bool, fx: FilterBounds, fm: FilterMeaning, info: SaveInfo, parent: CanvasEntry,
                          closing: CanvasEntry, marks: iset<Mark>, rtree: RTreeData, start: nat)
    requires Sound(fx, fm) && Tracks(strict, info, parent) && !info.isNop && closing.spec.filter.Some?
    requires closing.spec == SpecOf(fm, parent, closing.spec.filter, closing.spec.effective, closing.spec.part,
                                    closing.spec.bounds)
    requires start <= |rtree.rects| == |rtree.indices|
    requires MarksHeld(strict, marks, closing.spec, rtree, start, |rtree.rects|)
    ensures var after :=
      AdjustRTreeRects(fx, closing.spec.filter.value, info.global.matrix, info.global.cull, rtree, start,
                       |rtree.rects|);
      MarksHeld(strict, Surfaced(fm, closing, parent, marks), parent.spec, after, start, |after.rects|)
  {
    var f := closing.spec.filter.value;
    var after := AdjustRTreeRects(fx, f, info.global.matrix, info.global.cull, rtree, start, |rtree.rects|);
    forall m | m in Surfaced(fm, closing, parent, marks)
      ensures (strict ==> parent.spec.matrix.IsInvertible()) && m.point in parent.spec.extent
      ensures m.point in parent.spec.relevant ==> HeldBetween(after, start, |after.rects|, m)
    {
      hide MarksHeld, Surfaced, SpecOf, Matrix.IsInvertible, Matrix.Times, SoundFilter, AdjustRTreeRects, HeldBetween;
      var q, part := SurfacedComesFrom(strict, fm, parent, closing, marks, rtree, start, |rtree.rects|, m);
      if m.point in parent.spec.relevant {
        AdjustedHolds(fx, fm, f, info.global.matrix, info.global.cull, rtree, start, m, part, q);
      }
    }
  }

  lemma MoreEntriesHold(strict: bool, marks: iset<Mark>, spec: LayerSpec, a: RTreeData, b: RTreeData, lo: nat, id: nat)
    requires MarksHeld(strict, marks, spec, a, lo, |a.rects|) && Grows(a, b, id) && |a.rects| == |a.indices|
    ensures MarksHeld(strict, marks, spec, b, lo, |b.rects|)
  {
    forall m | m in marks && m.point in spec.relevant
      ensures HeldBetween(b, lo, |b.rects|, m)
    {
      assert HeldBetween(a, lo, |a.rects|, m);
      HeldStays(a, b, lo, id, m);
    }
  }

  /** Closing a layer of the builder: the r-tree keeps what lies below the layer's own
      entries, and holds what surfaces in the others. */
  lemma TransferHolds(strict: bool, fx: FilterBounds, fm: FilterMeaning, layer: LayerInfo, rtree: RTreeData,
                      info: SaveInfo, parentLayer: LayerInfo, id: nat, content: Rect, parent: CanvasEntry,
                      closing: CanvasEntry, marks: iset<Mark>)
    requires Sound(fx, fm) && Tracks(strict, info, parent) && !info.isNop && CanAdjust(rtree, layer.rtreeStart)
    requires closing.spec == SpecOf(fm, parent, closing.spec.filter, closing.spec.effective, closing.spec.part,
                                    closing.spec.bounds) && closing.spec.filter == layer.filter
    requires MarksHeld(strict, marks, closing.spec, rtree, layer.rtreeStart, |rtree.rects|)
    ensures var acc := TransferLayerBounds(fx, layer, rtree, info, parentLayer, id, content);
      && MarksHeld(strict, Surfaced(fm, closing, parent, marks), parent.spec, acc.rtree, layer.rtreeStart,
                   |acc.rtree.rects|)
      && SamePrefix(rtree, acc.rtree, layer.rtreeStart) && layer.rtreeStart <= |acc.rtree.rects|
      && SameKey(parentLayer, acc.layer)
  {
    var start := layer.rtreeStart;
    var acc := TransferLayerBounds(fx, layer, rtree, info, parentLayer, id, content);
    if layer.filter.None? {
      UnfilteredMarksHeld(strict, fm, info, parent, closing, marks, rtree, start, |rtree.rects|);
      hide *;
      UnfilteredTransfer(fx, layer, rtree, info, parentLayer, id, content);
    } else {
      var f := layer.filter.value;
      var adjusted := AdjustRTreeRects(fx, f, info.global.matrix, info.global.cull, rtree, start, |rtree.rects|);
      FilteredMarksHeld(strict, fx, fm, info, parent, closing, marks, rtree, start);
      FilteredTransfer(fx, layer, rtree, info, parentLayer, id, content);
      hide *;
      MoreEntriesHold(strict, Surfaced(fm, closing, parent, marks), parent.spec, adjusted, acc.rtree, start, id);
    }
  }

  lemma UnfilteredTransfer(fx: FilterBounds, layer: LayerInfo, rtree: RTreeData, info: SaveInfo, parentLayer: LayerInfo,
                           id: nat, content: Rect)
    requires layer.filter.None? && CanAdjust(rtree, layer.rtreeStart)
    ensures var acc := TransferLayerBounds(fx, layer, rtree, info, parentLayer, id, content);
      acc.rtree == rtree && SamePrefix(rtree, acc.rtree, layer.rtreeStart) && layer.rtreeStart <= |rtree.rects|
        && SameKey(parentLayer, acc.layer)
  {
    hide Tracker.MapAndClip, Accumulation.Add;
  }

  lemma FilteredTransfer(fx: FilterBounds, layer: LayerInfo, rtree: RTreeData, info: SaveInfo, parentLayer: LayerInfo,
                         id: nat, content: Rect)
    requires layer.filter.Some? && CanAdjust(rtree, layer.rtreeStart)
    ensures var start := layer.rtreeStart;
      var adjusted :=
        AdjustRTreeRects(fx, layer.filter.value, info.global.matrix, info.global.cull, rtree, start, |rtree.rects|);
      var acc := TransferLayerBounds(fx, layer, rtree, info, parentLayer, id, content);
      && |adjusted.rects| == |adjusted.indices| && Grows(adjusted, acc.rtree, id)
      && SamePrefix(rtree, acc.rtree, start) && start <= |acc.rtree.rects| && SameKey(parentLayer, acc.layer)
  {
    hide AccumulateUnbounded, AdjustRTreeRects, AnyRectFloods, Grows, Tracker.MapAndClip, Accumulation.Add, IsFilterMap;
    var start := layer.rtreeStart;
    var f := layer.filter.value;
    var adjusted := AdjustRTreeRects(fx, f, info.global.matrix, info.global.cull, rtree, start, |rtree.rects|);
    AdjustedPrefix(fx, f, info.global.matrix, info.global.cull, rtree, start);
    UnboundedGrows(parentLayer, adjusted, info, id);
    GrowsNot(adjusted, id);
    var acc := TransferLayerBounds(fx, layer, rtree, info, parentLayer, id, content);
    GrowthKeepsPrefix(adjusted, acc.rtree, id);
    PrefixChains(rtree, adjusted, acc.rtree, start);
  }

  lemma AdjustedPrefix(fx: FilterBounds, f: ImageFilter, matrix: Matrix, clip: Rect, rtree: RTreeData, start: nat)
    requires start <= |rtree.rects| == |rtree.indices|
    ensures var adjusted := AdjustRTreeRects(fx, f, matrix, clip, rtree, start, |rtree.rects|);
      |adjusted.rects| == |adjusted.indices| && start <= |adjusted.rects| && SamePrefix(rtree, adjusted, start)
  {
    AdjustIsFilterMap(fx, f, matrix, clip, rtree, start, |rtree.rects|);
    hide AdjustRTreeRects, Sources, ComesFrom;
  }

  lemma PrefixChains(a: RTreeData, b: RTreeData, c: RTreeData, start: nat)
    requires SamePrefix(a, b, start) && SamePrefix(b, c, |b.rects|) && start <= |b.rects| == |b.indices|
    ensures SamePrefix(a, c, start) && start <= |c.rects|
  {
    PrefixShrinks(b, c, |b.rects|, start);
  }

  /** The entry below the top one, with the marks that a closing layer leaves in it. */
  lemma ClosedPlainSees(strict: bool, fm: FilterMeaning, s: BuilderState, c: Canvas)
    requires Sees(strict, fm, s, c) && s.below != [] && !c.top.isLayer
    ensures var n := |s.below| - 1;
      !s.top.mark.isSaveLayer &&
      Held(strict, fm, s.below[..n], s.below[n], c.below[..n], c.below[n], s.outer, s.layer, c.outer, c.marks, s.rtree,
           |s.rtree.rects|)
  {
    hide Tracks, MarksHeld, SpecOf;
  }

  lemma ClosedDroppedSees(strict: bool, fm: FilterMeaning, s: BuilderState, c: Canvas)
    requires Sees(strict, fm, s, c) && s.below != [] && c.top.isLayer && !s.top.mark.isSaveLayer
    requires |s.rtree.rects| == |s.rtree.indices|
    ensures var n := |s.below| - 1;
      c.outer != [] &&
      Held(strict, fm, s.below[..n], s.below[n], c.below[..n], c.below[n], s.outer, s.layer, c.outer[..|c.outer| - 1],
           c.outer[|c.outer| - 1] + Surfaced(fm, c.top, c.below[n], c.marks), s.rtree, |s.rtree.rects|)
  {
    hide MarksHeld, SpecOf, Surfaced, Tracks;
    var n, hi := |s.below| - 1, |s.rtree.rects|;
    HeldTracks(strict, fm, s.below[..n], s.below[n], c.below[..n], c.below[n], s.outer, s.layer,
               c.outer[..|c.outer| - 1], c.outer[|c.outer| - 1], s.rtree, hi);
    UnfilteredMarksHeld(strict, fm, s.below[n], c.below[n], c.top, c.marks, s.rtree, hi, hi);
    AddMarks(strict, fm, s.below[..n], s.below[n], c.below[..n], c.below[n], s.outer, s.layer, c.outer[..|c.outer| - 1],
             c.outer[|c.outer| - 1], s.rtree, hi, s.layer, Surfaced(fm, c.top, c.below[n], c.marks), s.rtree, hi);
  }

  lemma HeldTracks(strict: bool, fm: FilterMeaning, below: seq<SaveInfo>, top: SaveInfo, canvasBelow: seq<CanvasEntry>,
                   e: CanvasEntry, outer: seq<LayerInfo>, layer: LayerInfo, outerMarks: seq<iset<Mark>>,
                   marks: iset<Mark>, rtree: RTreeData, hi: nat)
    requires Held(strict, fm, below, top, canvasBelow, e, outer, layer, outerMarks, marks, rtree, hi)
    ensures Tracks(strict, top, e) && layer.rtreeStart <= hi
  {
    hide Tracks, MarksHeld, SpecOf;
  }

  lemma ClosedLayerSees(strict: bool, fx: FilterBounds, fm: FilterMeaning, s: BuilderState, c: Canvas, id: nat,
                        content: Rect)
    requires Sound(fx, fm) && Sees(strict, fm, s, c) && s.below != [] && s.top.mark.isSaveLayer
    requires |s.rtree.rects| == |s.rtree.indices|
    ensures var n := |s.below| - 1;
      s.outer != [] && c.outer != [] && c.top.isLayer &&
      var acc := TransferLayerBounds(fx, s.layer, s.rtree, s.below[n], s.outer[|s.outer| - 1], id, content);
      Held(strict, fm, s.below[..n], s.below[n], c.below[..n], c.below[n], s.outer[..|s.outer| - 1], acc.layer,
           c.outer[..|c.outer| - 1], c.outer[|c.outer| - 1] + Surfaced(fm, c.top, c.below[n], c.marks), acc.rtree,
           |acc.rtree.rects|)
  {
    hide MarksHeld, SpecOf, Surfaced, Tracks, TransferLayerBounds, Sound, SamePrefix, SameKey;
    var n, start := |s.below| - 1, s.layer.rtreeStart;
    var outer, outerMarks := s.outer[..|s.outer| - 1], c.outer[..|c.outer| - 1];
    var parentLayer, parentMarks := s.outer[|s.outer| - 1], c.outer[|c.outer| - 1];
    HeldTracks(strict, fm, s.below[..n], s.below[n], c.below[..n], c.below[n], outer, parentLayer, outerMarks,
               parentMarks, s.rtree, start);
    TransferHolds(strict, fx, fm, s.layer, s.rtree, s.below[n], parentLayer, id, content, c.below[n], c.top, c.marks);
    var acc := TransferLayerBounds(fx, s.layer, s.rtree, s.below[n], parentLayer, id, content);
    AddMarks(strict, fm, s.below[..n], s.below[n], c.below[..n], c.below[n], outer, parentLayer, outerMarks,
             parentMarks, s.rtree, start, acc.layer, Surfaced(fm, c.top, c.below[n], c.marks), acc.rtree,
             |acc.rtree.rects|);
  }

  lemma RestoreSees(strict: bool, fx: FilterBounds, fm: FilterMeaning, s: BuilderState, c: Canvas)
    requires Sound(fx, fm) && Sees(strict, fm, s, c) && WellFormed(s) && Bookkept(s)
    ensures Sees(strict, fm, Restore(fx, s), CanvasRestore(fm, c))
  {
    BookkeptIsPaired(s);
    TopTracks(strict, fm, s, c);
    SamePaint(strict, fm, s, c);
    if s.below != [] {
      if s.top.mark.isSaveLayer {
        RestoreLayerSees(strict, fx, fm, s, c);
      } else {
        RestorePlainIsPop(fx, s);
        if c.top.isLayer {
          ClosedDroppedSees(strict, fm, s, c);
        } else {
          ClosedPlainSees(strict, fm, s, c);
        }
        hide Held, Restore, Surfaced, WellFormed, Bookkept;
      }
    }
  }

  lemma RestorePlainIsPop(fx: FilterBounds, s: BuilderState)
    requires s.below != [] && !s.top.mark.isSaveLayer
    ensures var t := Restore(fx, s);
      && t.below == s.below[..|s.below| - 1] && t.top == s.below[|s.below| - 1]
      && t.outer == s.outer && t.layer == s.layer && t.rtree == s.rtree && t.paint == s.paint
  {
  }

  lemma RestoreLayerSees(strict: bool, fx: FilterBounds, fm: FilterMeaning, s: BuilderState, c: Canvas)
    requires Sound(fx, fm) && Sees(strict, fm, s, c) && WellFormed(s) && Bookkept(s) && s.below != []
    requires s.top.mark.isSaveLayer
    requires |c.below| == |s.below|
    ensures Sees(strict, fm, Restore(fx, s), CanvasRestore(fm, c))
  {
    assert !s.top.mark.deferred;
    RestoreIsReady(s);
    RestoreTransfers(fx, s);
    RestorePatches(fx, s);
    BookkeptIsPaired(s);
    SamePaint(strict, fm, s, c);
    RestorePopsEntry(fx, s);
    hide Sees, WellFormed, Bookkept, Restore, Held, Surfaced, TransferLayerBounds, ContentBounds, Sound;
    var patched := PatchSave(s.records[s.top.mark.saveOffset], |s.records|, s.depth - s.top.mark.saveDepth);
    ClosedLayerSees(strict, fx, fm, s, c, |s.records|, ContentBounds(s.layer, patched));
    var t, d := Restore(fx, s), CanvasRestore(fm, c);
    assert Held(strict, fm, t.below, t.top, d.below, d.top, t.outer, t.layer, d.outer, d.marks, t.rtree,
                |t.rtree.rects|);
    SeesFrom(strict, fm, t, d);
  }

  lemma SeesFrom(strict: bool, fm: FilterMeaning, s: BuilderState, c: Canvas)
    requires c.paint == s.paint
    requires Held(strict, fm, s.below, s.top, c.below, c.top, s.outer, s.layer, c.outer, c.marks, s.rtree,
                  |s.rtree.rects|)
    ensures Sees(strict, fm, s, c)
  {
  }

  lemma {:induction false} RestoreToCountSees(strict: bool, fx: FilterBounds, fm: FilterMeaning, s: BuilderState,
                                              c: Canvas, count: int)
    requires Sound(fx, fm) && Sees(strict, fm, s, c) && WellFormed(s) && Bookkept(s)
    ensures Sees(strict, fm, RestoreToCount(fx, s, count), CanvasRestoreToCount(fm, c, count))
    decreases |s.below|
  {
    TopTracks(strict, fm, s, c);
    if s.below != [] && |s.below| + 1 > count {
      hide Sees, WellFormed, Bookkept, Restore, CanvasRestore, Sound;
      RestoreSees(strict, fx, fm, s, c);
      RestoreKeepsForm(fx, s);
      RestoreKeepsBooks(fx, s);
      RestoreShrinks(fx, s);
      RestoreToCountSees(strict, fx, fm, Restore(fx, s), CanvasRestore(fm, c), count);
    }
  }

  // ------------------------------------------------------------- all runs

  lemma StepSees(strict: bool, fx: FilterBounds, fm: FilterMeaning, s: BuilderState, c: Canvas, call: Call, kept: bool)
    requires Sound(fx, fm) && Sees(strict, fm, s, c) && WellFormed(s) && Bookkept(s) && MayKeep(strict, s.top, kept)
    requires strict && call == TransformCall(TransformReset) ==> c.top.matrix.IsInvertible()
    ensures Sees(strict, fm, Step(fx, s, call), KeptStep(fm, c, call, |s.records|, kept))
  {
    hide WellFormed, Bookkept, Sound, Held, SaveLayer, CanvasSaveLayer, Restore, CanvasRestore, RestoreToCount,
      CanvasRestoreToCount,
      Transform, Clip, DrawOp, DrawDisplayList, DrawMarks, ListMarks, LayerMarks, KeptMarks, MayKeep;
    BookkeptIsPaired(s);
    match call
    case SetAttributeCall(a) => SamePaint(strict, fm, s, c);
    case SaveCall => SaveSees(strict, fm, s, c);
    case SaveLayerCall(bounds, withPaint, backdrop) =>
      SaveLayerSees(strict, fx, fm, s, c, bounds, withPaint, backdrop, kept);
    case RestoreCall => RestoreSees(strict, fx, fm, s, c);
    case RestoreToCountCall(count) => RestoreToCountSees(strict, fx, fm, s, c, count);
    case TransformCall(t) => TransformSees(strict, fm, s, c, t, |s.records|);
    case ClipCall(r, op) => ClipSees(strict, fm, s, c, r, op, |s.records|);
    case DrawCall(d) => DrawSees(strict, fx, fm, s, c, d, kept);
    case DrawListCall(list, opacity) => ListSees(strict, fm, s, c, list, opacity, kept);
  }

  lemma InitSees(strict: bool, fm: FilterMeaning, cull: Rect)
    ensures Sees(strict, fm, Init(cull), StartCanvas(cull))
  {
    var s, c := Init(cull), StartCanvas(cull);
    RootTracks(strict, cull);
    hide Tracks, MarksHeld;
    RootMarks(strict, cull);
    HeldAlone(strict, fm, s.top, c.top, s.layer, s.rtree);
  }

  lemma HeldAlone(strict: bool, fm: FilterMeaning, info: SaveInfo, e: CanvasEntry, layer: LayerInfo, rtree: RTreeData)
    requires Tracks(strict, info, e) && e.isLayer && layer.rtreeStart == 0
    requires MarksHeld(strict, iset{}, e.spec, rtree, 0, |rtree.rects|)
    ensures Held(strict, fm, [], info, [], e, [], layer, [], iset{}, rtree, |rtree.rects|)
  {
    hide Tracks, MarksHeld;
  }

  lemma RootMarks(strict: bool, cull: Rect)
    ensures MarksHeld(strict, iset{}, StartCanvas(cull).top.spec, RTreeData([], []), 0, 0)
  {
  }

  lemma RootTracks(strict: bool, cull: Rect)
    ensures Tracks(strict, Init(cull).top, StartCanvas(cull).top)
  {
    hide Matrix.Times, Matrix.Apply, Matrix.Invert;
    TimesIdentity(IDENTITY);
    if cull.IsEmpty() {
      EmptyRootHides(cull);
    } else {
      RootCulls(strict, cull);
    }
    hide CullsHold, Hidden;
    assert Tracks(strict, Init(cull).top, StartCanvas(cull).top);
  }

  lemma EmptyRootHides(cull: Rect)
    requires cull.IsEmpty()
    ensures Hidden(StartCanvas(cull).top)
  {
    assert forall p :: !Shows(StartCanvas(cull).top, p);
    hide Shows;
  }

  lemma RootCulls(strict: bool, cull: Rect)
    requires !cull.IsEmpty()
    ensures CullsHold(strict, Init(cull).top, StartCanvas(cull).top)
  {
    hide Matrix.Apply, Matrix.Invert;
    var info, e := Init(cull).top, StartCanvas(cull).top;
    forall p | Shows(e, p)
      ensures info.global.cull.Inside(p) && info.layer.cull.Inside(e.spec.matrix.Invert().Apply(p))
    {
      IdentityInverse(p);
    }
  }

  lemma InitIsWellFormed(cull: Rect)
    ensures WellFormed(Init(cull)) && Bookkept(Init(cull))
  {
    assert Layers([Init(cull).top]) == 1;
  }

  lemma {:induction false} RunSees(fx: FilterBounds, fm: FilterMeaning, cull: Rect, calls: seq<Call>)
    requires Sound(fx, fm) && ResetsInvertible(fx, fm, cull, calls)
    ensures Sees(true, fm, Run(fx, cull, calls), CanvasRun(fx, fm, cull, calls))
  {
    if calls == [] {
      InitSees(true, fm, cull);
    } else {
      var init := calls[..|calls| - 1];
      InitResets(fx, fm, cull, calls);
      hide Sees, Sound, ResetsInvertible, Step, CanvasStep, KeptStep;
      RunSees(fx, fm, cull, init);
      RunIsWellFormed(fx, cull, init);
      RunIsBookkept(fx, cull, init);
      var s, c := Run(fx, cull, init), CanvasRun(fx, fm, cull, init);
      StepSees(true, fx, fm, s, c, calls[|calls| - 1], true);
      KeepingAll(fm, c, calls[|calls| - 1], |s.records|);
    }
  }

  /** What the canvas shows of the calls whose entry records what is drawn under it. */
  ghost function KeptRun(fx: FilterBounds, fm: FilterMeaning, cull: Rect, calls: seq<Call>): Canvas {
    if calls == [] then StartCanvas(cull)
    else
      var init := calls[..|calls| - 1];
      var s := Run(fx, cull, init);
      KeptStep(fm, KeptRun(fx, fm, cull, init), calls[|calls| - 1], |s.records|, Keeps(s.top))
  }

  ghost function KeptFinished(fx: FilterBounds, fm: FilterMeaning, cull: Rect, calls: seq<Call>): Canvas {
    CanvasRestoreToCount(fm, KeptRun(fx, fm, cull, calls), 1)
  }

  lemma {:induction false} KeptRunSees(fx: FilterBounds, fm: FilterMeaning, cull: Rect, calls: seq<Call>)
    requires Sound(fx, fm)
    ensures Sees(false, fm, Run(fx, cull, calls), KeptRun(fx, fm, cull, calls))
  {
    if calls == [] {
      InitSees(false, fm, cull);
    } else {
      var init := calls[..|calls| - 1];
      hide Sees, Sound, Step, KeptStep, Keeps;
      KeptRunSees(fx, fm, cull, init);
      RunIsWellFormed(fx, cull, init);
      RunIsBookkept(fx, cull, init);
      var s := Run(fx, cull, init);
      StepSees(false, fx, fm, s, KeptRun(fx, fm, cull, init), calls[|calls| - 1], Keeps(s.top));
    }
  }

  /** The two canvases differ in their marks only. */
  predicate SameStacks(a: Canvas, b: Canvas) {
    a.paint == b.paint && a.below == b.below && a.top == b.top && |a.outer| == |b.outer|
  }

  lemma RestoreKeepsStacks(fm: FilterMeaning, a: Canvas, b: Canvas)
    requires SameStacks(a, b)
    ensures SameStacks(CanvasRestore(fm, a), CanvasRestore(fm, b))
  {
    hide Surfaced;
  }

  lemma {:induction false} RestoresKeepStacks(fm: FilterMeaning, a: Canvas, b: Canvas, count: int)
    requires SameStacks(a, b)
    ensures SameStacks(CanvasRestoreToCount(fm, a, count), CanvasRestoreToCount(fm, b, count))
    decreases |a.below|
  {
    if a.below != [] && |a.below| + 1 > count {
      hide CanvasRestore;
      RestoreKeepsStacks(fm, a, b);
      RestoreShrinksCanvas(fm, a);
      RestoresKeepStacks(fm, CanvasRestore(fm, a), CanvasRestore(fm, b), count);
    }
  }

  lemma StepKeepsStacks(fm: FilterMeaning, a: Canvas, b: Canvas, call: Call, id: nat, kept: bool)
    requires SameStacks(a, b)
    ensures SameStacks(CanvasStep(fm, a, call, id), KeptStep(fm, b, call, id, kept))
  {
    hide DrawMarks, ListMarks, LayerMarks, SpecOf, PaintResult, CanvasRestore, CanvasRestoreToCount, ClipPoints,
      ConcatMatrix,
      KeptMarks;
    RestoreKeepsStacks(fm, a, b);
    if call.RestoreToCountCall? {
      RestoresKeepStacks(fm, a, b, call.count);
    }
  }

  lemma {:induction false} KeptRunHasStacks(fx: FilterBounds, fm: FilterMeaning, cull: Rect, calls: seq<Call>)
    ensures SameStacks(CanvasRun(fx, fm, cull, calls), KeptRun(fx, fm, cull, calls))
  {
    if calls != [] {
      hide CanvasStep, KeptStep, SameStacks;
      var init := calls[..|calls| - 1];
      var s := Run(fx, cull, init);
      KeptRunHasStacks(fx, fm, cull, init);
      StepKeepsStacks(fm, CanvasRun(fx, fm, cull, init), KeptRun(fx, fm, cull, init), calls[|calls| - 1], |s.records|,
                      Keeps(s.top));
    }
  }

  lemma InitResets(fx: FilterBounds, fm: FilterMeaning, cull: Rect, calls: seq<Call>)
    requires ResetsInvertible(fx, fm, cull, calls) && calls != []
    ensures ResetsInvertible(fx, fm, cull, calls[..|calls| - 1])
    ensures calls[|calls| - 1] == TransformCall(TransformReset) ==>
      CanvasRun(fx, fm, cull, calls[..|calls| - 1]).top.matrix.IsInvertible()
  {
    hide CanvasRun, Matrix.IsInvertible;
    var init := calls[..|calls| - 1];
    forall k | 0 <= k < |init| && init[k] == TransformCall(TransformReset)
      ensures CanvasRun(fx, fm, cull, init[..k]).top.matrix.IsInvertible()
    {
      assert init[..k] == calls[..k] && calls[k] == init[k];
    }
  }

  /** Culling loses nothing: every point inside the cull rectangle that a drawing of a
      built list can change, through all filters and clips above it, lies in a
      rectangle that the r-tree holds under the index of that drawing's record. */
  lemma RTreeHoldsEveryPixel(fx: FilterBounds, fm: FilterMeaning, cull: Rect, calls: seq<Call>, m: Mark)
    requires FiltersAreSound(fx, fm, calls) && ResetsInvertible(fx, fm, cull, calls)
    requires m in CanvasFinished(fx, fm, cull, calls).marks && cull.Inside(m.point)
    ensures HoldsMark(Finished(fx, cull, calls).rtree, m)
  {
    var used := UsedMeaning(fm, calls);
    UsedFiltersDecide(fx, fm, cull, calls);
    RunSees(fx, used, cull, calls);
    RunKeepsRoot(fx, used, cull, calls);
    hide *;
    assert m in CanvasRestoreToCount(used, CanvasRun(fx, used, cull, calls), 1).marks by {
      FinishedIs(fx, used, cull, calls);
    }
    FinishedHolds(true, fx, used, cull, calls, CanvasRun(fx, used, cull, calls), m);
  }

  /** In every run whatever: the same for what is drawn under entries that record, which
      are the live ones whose layer matrix is invertible when the drawing is made. */
  lemma RTreeHoldsKeptPixels(fx: FilterBounds, fm: FilterMeaning, cull: Rect, calls: seq<Call>, m: Mark)
    requires FiltersAreSound(fx, fm, calls)
    requires m in KeptFinished(fx, fm, cull, calls).marks && cull.Inside(m.point)
    ensures HoldsMark(Finished(fx, cull, calls).rtree, m)
  {
    var used := UsedMeaning(fm, calls);
    UsedFiltersDecide(fx, fm, cull, calls);
    UsedFiltersKeep(fx, fm, cull, calls);
    KeptRunSees(fx, used, cull, calls);
    RunKeepsRoot(fx, used, cull, calls);
    KeptRunHasStacks(fx, used, cull, calls);
    FinishedHolds(false, fx, used, cull, calls, KeptRun(fx, used, cull, calls), m);
    hide *;
  }

  lemma FinishedIs(fx: FilterBounds, fm: FilterMeaning, cull: Rect, calls: seq<Call>)
    ensures CanvasFinished(fx, fm, cull, calls) == CanvasRestoreToCount(fm, CanvasRun(fx, fm, cull, calls), 1)
  {
    hide CanvasRun, CanvasRestoreToCount;
  }

  /** What is kept in a run also depends on the filters that it uses only. */
  lemma UsedFiltersKeep(fx: FilterBounds, fm: FilterMeaning, cull: Rect, calls: seq<Call>)
    requires FiltersAreSound(fx, fm, calls)
    ensures var used := UsedMeaning(fm, calls);
      && KeptRun(fx, used, cull, calls) == KeptRun(fx, fm, cull, calls)
      && KeptFinished(fx, used, cull, calls) == KeptFinished(fx, fm, cull, calls)
  {
    var filters := FiltersOf(calls);
    CallsSetTheirOwn(calls);
    KeptRunsAlike(fx, fm, filters, cull, calls);
    RestoresToCountAlike(fm, filters, KeptRun(fx, fm, cull, calls), 1);
    hide KeptRun, CanvasRestoreToCount, UsesOnly;
  }

  lemma {:induction false} KeptRunsAlike(fx: FilterBounds, fm: FilterMeaning, filters: iset<ImageFilter>, cull: Rect,
                                         calls: seq<Call>)
    requires AllSetAmong(calls, filters)
    ensures KeptRun(fx, Only(fm, filters), cull, calls) == KeptRun(fx, fm, cull, calls)
    ensures UsesOnly(KeptRun(fx, fm, cull, calls), filters)
  {
    if calls == [] {
      StartUsesNone(cull, filters);
    } else {
      hide KeptStep, UsesOnly, SetsAmong, Keeps;
      var init := calls[..|calls| - 1];
      var s := Run(fx, cull, init);
      KeptRunsAlike(fx, fm, filters, cull, init);
      StepsAlike(fm, filters, KeptRun(fx, fm, cull, init), calls[|calls| - 1], |s.records|, Keeps(s.top));
    }
  }

  predicate HoldsMark(rtree: RTreeData, m: Mark) {
    exists r :: 0 <= r < |rtree.rects| && HeldAt(rtree, r, m)
  }

  lemma FinishedHolds(strict: bool, fx: FilterBounds, fm: FilterMeaning, cull: Rect, calls: seq<Call>, c: Canvas,
                      m: Mark)
    requires Sound(fx, fm) && Sees(strict, fm, Run(fx, cull, calls), c) && Root(c).spec == StartCanvas(cull).top.spec
    requires m in CanvasRestoreToCount(fm, c, 1).marks && cull.Inside(m.point)
    ensures HoldsMark(Finished(fx, cull, calls).rtree, m)
  {
    hide Sees, Root, Sound, HoldsMark;
    var s := Run(fx, cull, calls);
    RunIsWellFormed(fx, cull, calls);
    RunIsBookkept(fx, cull, calls);
    RestoreToCountSees(strict, fx, fm, s, c, 1);
    RestoreToCountKeepsForm(fx, s, 1);
    RestoresKeepRoot(fm, c, 1);
    ClosedHolds(strict, fm, Finished(fx, cull, calls), CanvasRestoreToCount(fm, c, 1), cull, m);
  }

  /** The entry at the bottom of the canvas stack. */
  function Root(c: Canvas): CanvasEntry {
    if c.below == [] then c.top else c.below[0]
  }

  lemma StepKeepsRoot(fm: FilterMeaning, c: Canvas, call: Call, id: nat)
    ensures Root(CanvasStep(fm, c, call, id)).spec == Root(c).spec
  {
    hide Surfaced, SpecOf, LayerMarks, DrawMarks, ListMarks, ClipPoints, ConcatMatrix, PaintResult,
      CanvasRestoreToCount;
    if call.RestoreToCountCall? {
      RestoresKeepRoot(fm, c, call.count);
    }
  }

  lemma {:induction false} RestoresKeepRoot(fm: FilterMeaning, c: Canvas, count: int)
    ensures Root(CanvasRestoreToCount(fm, c, count)).spec == Root(c).spec
    decreases |c.below|
  {
    hide Surfaced;
    if c.below != [] && |c.below| + 1 > count {
      RestoresKeepRoot(fm, CanvasRestore(fm, c), count);
    }
  }

  lemma {:induction false} RunKeepsRoot(fx: FilterBounds, fm: FilterMeaning, cull: Rect, calls: seq<Call>)
    ensures Root(CanvasRun(fx, fm, cull, calls)).spec == StartCanvas(cull).top.spec
  {
    if calls != [] {
      hide CanvasStep, Root;
      var init := calls[..|calls| - 1];
      RunKeepsRoot(fx, fm, cull, init);
      StepKeepsRoot(fm, CanvasRun(fx, fm, cull, init), calls[|calls| - 1], |Run(fx, cull, init).records|);
    }
  }

  lemma RootSpec(fx: FilterBounds, fm: FilterMeaning, cull: Rect, calls: seq<Call>)
    ensures Root(CanvasFinished(fx, fm, cull, calls)).spec == StartCanvas(cull).top.spec
  {
    hide CanvasRun, CanvasRestoreToCount, Root;
    RunKeepsRoot(fx, fm, cull, calls);
    RestoresKeepRoot(fm, CanvasRun(fx, fm, cull, calls), 1);
  }

  lemma ClosedHolds(strict: bool, fm: FilterMeaning, s: BuilderState, c: Canvas, cull: Rect, m: Mark)
    requires Sees(strict, fm, s, c) && s.below == [] && Root(c).spec == StartCanvas(cull).top.spec
    requires m in c.marks && cull.Inside(m.point)
    ensures HoldsMark(s.rtree, m)
  {
    assert MarksHeld(strict, c.marks, c.top.spec, s.rtree, s.layer.rtreeStart, |s.rtree.rects|);
    assert m.point in c.top.spec.relevant;
    assert HeldBetween(s.rtree, s.layer.rtreeStart, |s.rtree.rects|, m);
  }
}
