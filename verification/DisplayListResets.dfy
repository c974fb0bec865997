/**
 The one place where recording loses pixels: `TransformReset` under a singular matrix
 leaves the layer's own matrix singular, although the matrix that drawings are made under
 is the identity again. What would be seen is then not recorded, until a restore brings
 back an invertible layer matrix or a new layer starts with one of its own.
 */
module DisplayListResets {
  import opened Options
  import opened DisplayListTypes
  import opened DisplayListPaint
  import opened DisplayListBuilderSpec
  import opened DisplayListNesting
  import opened DisplayListRTree
  import opened DisplayListGeometry
  import opened DisplayListCanvas
  import opened DisplayListUsedFilters
  import opened DisplayListVisibility
  import opened DisplayListLayers

  lemma SingularCoversNothing(t: Tracker, r: Rect)
    requires !t.matrix.IsInvertible()
    ensures t.MapAndClip(r).None?
  {
    SingularFlattens(t.matrix, r);
    hide Matrix.MapBounds;
  }

  /** Under a singular layer matrix no drawing is recorded, whatever it is. */
  lemma SingularLayerDropsDrawings(fx: FilterBounds, s: BuilderState, d: Draw)
    requires !s.top.layer.matrix.IsInvertible()
    ensures DrawOp(fx, s, d).records == s.records && DrawOp(fx, s, d).rtree == s.rtree
  {
    hide PaintResult, IsOpacityCompatible, Tracker.MapAndClip, Tracker.LocalCullCoverage, AdjustBoundsForPaint,
      Matrix.IsInvertible;
    forall r
      ensures s.top.layer.MapAndClip(r).None?
    {
      SingularCoversNothing(s.top.layer, r);
    }
  }

  lemma {:induction false} SingularRects(layer: LayerInfo, rtree: RTreeData, info: SaveInfo, id: nat, rects: seq<Rect>)
    requires !info.layer.matrix.IsInvertible()
    ensures AccumulateRects(layer, rtree, info, id, rects) == Accumulated(layer, rtree, false)
  {
    if rects != [] {
      SingularRects(layer, rtree, info, id, rects[..|rects| - 1]);
      SingularCoversNothing(info.layer, rects[|rects| - 1]);
      hide Tracker.MapAndClip, AccumulateRects, Matrix.IsInvertible;
      assert AccumulateBounds(layer, rtree, info, id, rects[|rects| - 1]) == Accumulated(layer, rtree, false);
      RectsStep(layer, rtree, info, id, rects);
    }
  }

  lemma RectsStep(layer: LayerInfo, rtree: RTreeData, info: SaveInfo, id: nat, rects: seq<Rect>)
    requires rects != []
    ensures var before := AccumulateRects(layer, rtree, info, id, rects[..|rects| - 1]);
      var now := AccumulateBounds(before.layer, before.rtree, info, id, rects[|rects| - 1]);
      AccumulateRects(layer, rtree, info, id, rects) == now.(ok := before.ok || now.ok)
  {
    hide AccumulateBounds;
  }

  /** Nor is a child list, whether it floods the clip or not. */
  lemma SingularLayerDropsLists(s: BuilderState, list: ChildList, opacity: real)
    requires !s.top.layer.matrix.IsInvertible()
    ensures var u := DrawDisplayList(s, list, opacity);
      u.records == s.records && u.rtree == s.rtree
  {
    hide Tracker.MapAndClip, Tracker.LocalCullCoverage, AccumulateRects, ListIsVisible, Matrix.IsInvertible;
    SingularRects(s.layer, s.rtree, s.top, |s.records|, list.rects);
    SingularCoversNothing(s.top.layer, s.top.global.LocalCullCoverage());
  }

  /** A layer is recorded, but what it floods below it has no entry in the r-tree. */
  lemma SingularLayerDropsFloods(fx: FilterBounds, s: BuilderState, bounds: Option<Rect>, withPaint: bool,
                                 backdrop: Option<ImageFilter>)
    requires !s.top.layer.matrix.IsInvertible()
    ensures SaveLayer(fx, s, bounds, withPaint, backdrop).rtree == s.rtree
  {
    hide Tracker.MapAndClip, Tracker.LocalCullCoverage, PaintResult, IsOpacityCompatible, LayerFloods, LayerEntry,
      Matrix.IsInvertible;
    SingularCoversNothing(s.top.layer, s.top.global.LocalCullCoverage());
  }

  /** And what such a layer holds is missing from the bounds of the one below it, which
      can then neither hold its content nor notice that it overlaps. */
  lemma SingularLayerLosesBounds(fx: FilterBounds, layer: LayerInfo, rtree: RTreeData, parent: SaveInfo,
                                 parentLayer: LayerInfo, id: nat, content: Rect)
    requires !parent.layer.matrix.IsInvertible()
    ensures TransferLayerBounds(fx, layer, rtree, parent, parentLayer, id, content).layer.localBounds
      == parentLayer.localBounds
  {
    hide Tracker.MapAndClip, Tracker.LocalCullCoverage, AdjustRTreeRects, AnyRectFloods, Matrix.IsInvertible;
    forall r
      ensures parent.layer.MapAndClip(r).None?
    {
      SingularCoversNothing(parent.layer, r);
    }
  }

  /** A new layer records again, whatever the matrix of the one below it. */
  lemma NewLayerKeeps(fx: FilterBounds, s: BuilderState, bounds: Option<Rect>, withPaint: bool,
                      backdrop: Option<ImageFilter>)
    requires ResultOf(s.top, s.paint, SaveLayerFlags(withPaint)) != NoEffect
    ensures Keeps(SaveLayer(fx, s, bounds, withPaint, backdrop).top)
  {
    hide PaintResult, IsOpacityCompatible, AccumulateLayer, LayerCull, Tracker.ClipRect;
  }

  /** A singular layer matrix stays singular under every further transform. */
  lemma SingularLayerStays(info: SaveInfo, t: TransformOp)
    requires !info.layer.matrix.IsInvertible()
    ensures !Transformed(info, t).layer.matrix.IsInvertible()
  {
    if t.TransformReset? {
      if info.global.matrix.IsInvertible() {
        TimesIsInvertible(info.layer.matrix, info.global.matrix.Invert());
      }
    } else {
      TimesIsInvertible(info.layer.matrix, MatrixOf(t));
    }
    hide Matrix.Times, Matrix.Invert;
  }

  /** The builder's entry in every run, against the canvas of all calls. */
  lemma RunTracks(fx: FilterBounds, fm: FilterMeaning, cull: Rect, calls: seq<Call>)
    requires FiltersAreSound(fx, fm, calls)
    ensures var s, c := Run(fx, cull, calls), CanvasRun(fx, fm, cull, calls);
      Tracks(false, s.top, c.top) && s.paint == c.paint && |s.rtree.rects| == |s.rtree.indices|
  {
    var used := UsedMeaning(fm, calls);
    UsedFiltersDecide(fx, fm, cull, calls);
    var s, c := Run(fx, cull, calls), KeptRun(fx, used, cull, calls);
    KeptRunSees(fx, used, cull, calls);
    KeptRunHasStacks(fx, used, cull, calls);
    TopTracks(false, used, s, c);
    SamePaint(false, used, s, c);
    RunIsBookkept(fx, cull, calls);
    BookkeptIsPaired(s);
    hide Tracks, Run, CanvasRun, KeptRun, Bookkept, Sees;
  }

  /** In every run: a drawing that would be seen is recorded, and has an entry in the
      r-tree around each point where it is seen, if and only if its entry on the save
      stack is live and has an invertible layer matrix. Otherwise nothing is added. */
  lemma SeenDrawingIsKeptExactly(fx: FilterBounds, fm: FilterMeaning, cull: Rect, calls: seq<Call>, d: Draw, m: Mark)
    requires FiltersAreSound(fx, fm, calls + [DrawCall(d)])
    requires var c := CanvasRun(fx, fm, cull, calls);
      DrawTouches(fm, c.paint, c.top, d, m.point) && Shows(c.top, m.point) && m.id == |Run(fx, cull, calls).records|
    ensures var s := Run(fx, cull, calls);
      var u := DrawOp(fx, s, d);
      && u.records == (if Keeps(s.top) then s.records + [DrawRecord(d)] else s.records)
      && (if Keeps(s.top) then HeldBetween(u.rtree, |s.rtree.rects|, |u.rtree.rects|, m) else u.rtree == s.rtree)
  {
    var s, c := Run(fx, cull, calls), CanvasRun(fx, fm, cull, calls);
    NextIsSound(fx, fm, cull, calls, d);
    RunTracks(fx, fm, cull, calls);
    hide Run, CanvasRun, Tracks, Shows, DrawTouches, HeldBetween, FiltersAreSound, DrawIsSound, DrawOp;
    if Keeps(s.top) {
      SeenIsRecorded(false, fx, fm, s, c.top, d, m);
    } else if s.top.isNop {
      DroppedDraw(fx, s, d);
    } else {
      SingularLayerDropsDrawings(fx, s, d);
    }
  }

  /** The filters of a run and one more drawing, which may use the current paint. */
  lemma NextIsSound(fx: FilterBounds, fm: FilterMeaning, cull: Rect, calls: seq<Call>, d: Draw)
    requires FiltersAreSound(fx, fm, calls + [DrawCall(d)])
    ensures FiltersAreSound(fx, fm, calls) && DrawIsSound(fx, fm, CanvasRun(fx, fm, cull, calls).paint, d)
  {
    var more := calls + [DrawCall(d)];
    forall f | f in FiltersOf(calls)
      ensures f in FiltersOf(more)
    {
      var k :| 0 <= k < |calls| && Sets(calls[k], f);
      assert Sets(more[k], f);
    }
    CallsSetTheirOwn(calls);
    RunsAlike(fx, fm, FiltersOf(calls), cull, calls);
    hide CanvasRun, SoundFilter;
    if d.own.Some? && d.own.value.imageFilter.Some? {
      assert Sets(more[|calls|], d.own.value.imageFilter.value);
    }
  }

  /** The same for a child list. */
  lemma SeenListIsKeptExactly(fx: FilterBounds, fm: FilterMeaning, cull: Rect, calls: seq<Call>, list: ChildList,
                              opacity: real, m: Mark)
    requires FiltersAreSound(fx, fm, calls)
    requires var c := CanvasRun(fx, fm, cull, calls);
      ListTouches(c.top, list, opacity, m.point) && Shows(c.top, m.point) && m.id == |Run(fx, cull, calls).records|
    ensures var s := Run(fx, cull, calls);
      var u := DrawDisplayList(s, list, opacity);
      && u.records == (if Keeps(s.top) then s.records + [DrawListRecord(list, Min(opacity, 1.0))] else s.records)
      && (if Keeps(s.top) then HeldBetween(u.rtree, |s.rtree.rects|, |u.rtree.rects|, m) else u.rtree == s.rtree)
  {
    var s, c := Run(fx, cull, calls), CanvasRun(fx, fm, cull, calls);
    RunTracks(fx, fm, cull, calls);
    hide Run, CanvasRun, Tracks, Shows, ListTouches, HeldBetween, FiltersAreSound, DrawDisplayList;
    if Keeps(s.top) {
      ListHolds(false, s, c.top, list, opacity, m);
      SeenListIsRecorded(s, c.top, list, opacity, m);
    } else if s.top.isNop {
      DroppedList(s, list, opacity);
    } else {
      SingularLayerDropsLists(s, list, opacity);
    }
  }

  /** A list shows nothing, and is not recorded, from an opacity of 1/4096 down, or without
      operations or a point in its bounds. */
  lemma FaintListsAreDropped(s: BuilderState, c: Canvas, list: ChildList, opacity: real, id: nat)
    ensures ListIsVisible(list, opacity)
       <==> 4096.0 * opacity > 1.0 && list.opCount > 0 && exists p :: list.bounds.Inside(p)
    ensures !ListIsVisible(list, opacity) ==>
      DrawDisplayList(s, list, opacity) == s && ListMarks(c, list, opacity, id) == iset{}
  {
    var b := list.bounds;
    if !b.IsEmpty() {
      assert b.Inside(Point((b.left + b.right) / 2.0, (b.top + b.bottom) / 2.0));
    }
    hide AccumulateRects, AccumulateUnbounded, Paintable, AnyInside;
  }

  /** The same for what a layer floods below it; the layer itself is recorded anyway. */
  lemma SeenFloodIsKeptExactly(fx: FilterBounds, fm: FilterMeaning, cull: Rect, calls: seq<Call>, bounds: Option<Rect>,
                               withPaint: bool, backdrop: Option<ImageFilter>, m: Mark)
    requires FiltersAreSound(fx, fm, calls)
    requires var c := CanvasRun(fx, fm, cull, calls);
      LayerTouches(c.paint, c.top, withPaint, backdrop, m.point) && Shows(c.top, m.point)
        && m.id == |Run(fx, cull, calls).records|
    ensures var s := Run(fx, cull, calls);
      var u := SaveLayer(fx, s, bounds, withPaint, backdrop);
      if Keeps(s.top) then HeldBetween(u.rtree, |s.rtree.rects|, |u.rtree.rects|, m) else u.rtree == s.rtree
  {
    var s, c := Run(fx, cull, calls), CanvasRun(fx, fm, cull, calls);
    RunTracks(fx, fm, cull, calls);
    hide Run, CanvasRun, Tracks, Shows, HeldBetween, FiltersAreSound, SaveLayer, PaintResult, LayerFloods;
    if Keeps(s.top) {
      LayerHolds(false, s, c.top, withPaint, backdrop, m);
      EffectiveLayerRTree(fx, s, bounds, withPaint, backdrop);
    } else if s.top.isNop {
      DroppedSave(fx, s, bounds, withPaint, backdrop);
    } else {
      SingularLayerDropsFloods(fx, s, bounds, withPaint, backdrop);
    }
  }

  /** Without a reset under a singular matrix every entry records that lets something be seen. */
  lemma InvertibleResetsKeepAll(fx: FilterBounds, fm: FilterMeaning, cull: Rect, calls: seq<Call>, p: Point)
    requires FiltersAreSound(fx, fm, calls) && ResetsInvertible(fx, fm, cull, calls)
    requires var e := CanvasRun(fx, fm, cull, calls).top;
      e.matrix.IsInvertible() && Shows(e, p)
    ensures Keeps(Run(fx, cull, calls).top)
  {
    var s, c := Run(fx, cull, calls), CanvasRun(fx, fm, cull, calls);
    UsedFiltersDecide(fx, fm, cull, calls);
    RunSees(fx, UsedMeaning(fm, calls), cull, calls);
    TopTracks(true, UsedMeaning(fm, calls), s, c);
    hide Run, CanvasRun, Sees, FiltersAreSound, ResetsInvertible, Shows, Matrix.Times, Matrix.IsInvertible;
    NotHidden(s.top, c.top, p);
    TimesIsInvertible(c.top.spec.matrix, s.top.layer.matrix);
  }

  lemma EffectiveLayerRTree(fx: FilterBounds, s: BuilderState, bounds: Option<Rect>, withPaint: bool,
                            backdrop: Option<ImageFilter>)
    requires ResultOf(s.top, s.paint, SaveLayerFlags(withPaint)) != NoEffect
    ensures SaveLayer(fx, s, bounds, withPaint, backdrop).rtree == AccumulateLayer(s, withPaint, backdrop).rtree
  {
    hide PaintResult, AccumulateLayer, LayerEntry, IsOpacityCompatible;
  }

  lemma SeenListIsRecorded(s: BuilderState, e: CanvasEntry, list: ChildList, opacity: real, m: Mark)
    requires ListTouches(e, list, opacity, m.point) && !s.top.isNop
    requires var after := DrawDisplayList(s, list, opacity).rtree;
      |s.rtree.rects| == |s.rtree.indices| && HeldBetween(after, |s.rtree.rects|, |after.rects|, m)
    ensures DrawDisplayList(s, list, opacity).records == s.records + [DrawListRecord(list, Min(opacity, 1.0))]
  {
    UnboundedGrows(s.layer, s.rtree, s.top, |s.records|);
    RectsGrow(s.layer, s.rtree, s.top, |s.records|, list.rects);
    hide AccumulateUnbounded, AccumulateRects, LayerAfterList;
  }

  lemma ResetTop(s: BuilderState)
    ensures Transform(s, TransformReset).top.layer ==
      if s.top.global.matrix.IsInvertible() then s.top.layer.Concat(s.top.global.matrix.Invert())
      else s.top.layer.(matrix := SINGULAR)
  {
    hide Matrix.Times, Matrix.Invert;
  }

  /** A drawing that would be seen right after a reset is recorded if and only if the
      matrix was invertible when it was reset. */
  lemma ResetKeepsDrawingsExactly(fx: FilterBounds, fm: FilterMeaning, s: BuilderState, c: Canvas, d: Draw, p: Point,
                                  id: nat)
    requires DrawIsSound(fx, fm, s.paint, d) && Sees(true, fm, s, c) && Bookkept(s)
    requires var e := CanvasStep(fm, c, TransformCall(TransformReset), id).top;
      DrawTouches(fm, c.paint, e, d, p) && Shows(e, p)
    ensures var t := Transform(s, TransformReset);
      DrawOp(fx, t, d).records == t.records + [DrawRecord(d)] <==> c.top.matrix.IsInvertible()
  {
    TopTracks(true, fm, s, c);
    ResetTop(s);
    var t := Transform(s, TransformReset);
    if c.top.matrix.IsInvertible() {
      var after := CanvasStep(fm, c, TransformCall(TransformReset), id);
      TransformSees(true, fm, s, c, TransformReset, id);
      TopTracks(true, fm, t, after);
      ResetKeepsBooks(s);
      BookkeptIsPaired(t);
      NotHidden(t.top, after.top, p) by { TouchesHasEffect(fm, c.paint, after.top, d, p); }
      SeenIsRecorded(true, fx, fm, t, after.top, d, Mark(|t.records|, LayerPart(t.paint, false, 0, false), t.paint, p));
    } else {
      SingularIsSingular();
      SingularLayerDropsDrawings(fx, t, d);
    }
    hide *;
  }

  lemma ResetKeepsBooks(s: BuilderState)
    requires Bookkept(s)
    ensures Bookkept(Transform(s, TransformReset))
    ensures Transform(s, TransformReset).paint == s.paint
  {
    hide Bookkept;
    PlainKeepsBooks(s, CheckForDeferredSave(s));
    PlainKeepsBooks(CheckForDeferredSave(s), Transform(s, TransformReset));
  }

  lemma SeenIsRecorded(strict: bool, fx: FilterBounds, fm: FilterMeaning, s: BuilderState, e: CanvasEntry, d: Draw,
                       m: Mark)
    requires DrawIsSound(fx, fm, s.paint, d) && |s.rtree.rects| == |s.rtree.indices|
    requires !s.top.isNop && OwnSpace(strict, s.top)
    requires Tracks(strict, s.top, e) && Shows(e, m.point) && DrawTouches(fm, s.paint, e, d, m.point)
    requires m.id == |s.records|
    ensures var u := DrawOp(fx, s, d);
      u.records == s.records + [DrawRecord(d)] && HeldBetween(u.rtree, |s.rtree.rects|, |u.rtree.rects|, m)
  {
    DrawHolds(strict, fx, fm, s, e, d, m);
    TouchesHasEffect(fm, s.paint, e, d, m.point);
    hide AccumulateGeometry, PaintResult, IsOpacityCompatible, DrawIsSound, Tracks, Shows, DrawTouches, HeldBetween;
  }

  lemma TouchesHasEffect(fm: FilterMeaning, paint: Paint, e: CanvasEntry, d: Draw, p: Point)
    requires DrawTouches(fm, paint, e, d, p)
    ensures PaintResult(PaintOf(paint, d), d.flags) != NoEffect && e.matrix.IsInvertible()
  {
  }

  lemma NotHidden(info: SaveInfo, e: CanvasEntry, p: Point)
    requires Tracks(true, info, e) && Shows(e, p) && e.matrix.IsInvertible()
    ensures !info.isNop
  {
  }

  const LOST := Draw(0, Flood, 1, DRAW_FLAGS, None, false, false)

  /** A concrete loss: scale by zero, reset, draw. The canvas shows the drawing in the
      middle of a ten by ten surface; the built list has no drawing at all. */
  lemma ResetLosesADrawing(fx: FilterBounds, fm: FilterMeaning)
    ensures var cull := Rect(0.0, 0.0, 10.0, 10.0);
      var s := Transform(Transform(Init(cull), Scale(0.0, 1.0)), TransformReset);
      var c := CanvasStep(fm, CanvasStep(fm, StartCanvas(cull), TransformCall(Scale(0.0, 1.0)), 0),
                          TransformCall(TransformReset), 1);
      && DrawTouches(fm, c.paint, c.top, LOST, Point(5.0, 5.0)) && Shows(c.top, Point(5.0, 5.0))
      && DrawOp(fx, s, LOST).records == s.records
  {
    var cull := Rect(0.0, 0.0, 10.0, 10.0);
    var s := Transform(Init(cull), Scale(0.0, 1.0));
    assert !s.top.global.matrix.IsInvertible();
    ResetTop(s);
    SingularIsSingular();
    SingularLayerDropsDrawings(fx, Transform(s, TransformReset), LOST);
    IdentityApplies(Point(5.0, 5.0));
    hide *;
    LostIsTouched(fm);
  }

  lemma LostIsTouched(fm: FilterMeaning)
    ensures var cull := Rect(0.0, 0.0, 10.0, 10.0);
      var c := CanvasStep(fm, CanvasStep(fm, StartCanvas(cull), TransformCall(Scale(0.0, 1.0)), 0),
                          TransformCall(TransformReset), 1);
      DrawTouches(fm, c.paint, c.top, LOST, Point(5.0, 5.0)) && Shows(c.top, Point(5.0, 5.0))
  {
    hide Matrix.Apply, Matrix.Invert, Matrix.Times;
  }

  // --------------------------------------- content outside of its layer's bounds

  const SPOT := Draw(0, Box(Rect(1.0, 1.0, 3.0, 3.0)), 1, DRAW_FLAGS, None, false, false)
  const SURFACE := Rect(0.0, 0.0, 10.0, 10.0)
  const HERE := Point(2.0, 2.0)
  const OPEN := SaveLayerCall(None, false, None)

  /** A layer in which a singular matrix is reset, and in it a closed layer with a drawing. */
  const ESCAPING :=
    [OPEN, TransformCall(Scale(0.0, 1.0)), TransformCall(TransformReset), OPEN, DrawCall(SPOT), RestoreCall]

  /** An open layer without content. */
  predicate IsBare(s: BuilderState) {
    && s.below != [] && s.top.mark.isSaveLayer && !s.top.mark.deferred && !s.top.isNop && s.paint == DEFAULT_PAINT
    && s.layer.localBounds == Accumulation(None, false)
  }

  lemma OpensBare(fx: FilterBounds, s: BuilderState)
    requires !s.top.isNop && s.paint == DEFAULT_PAINT
    ensures var t := SaveLayer(fx, s, None, false, None);
      && IsBare(t) && t.top.global.matrix == s.top.global.matrix
      && t.below == s.below + [s.top] && |t.outer| == |s.outer| + 1
      && t.outer[|s.outer|].localBounds == s.layer.localBounds
  {
    hide Matrix.Times;
  }

  lemma TransformedIsBare(s: BuilderState, t: TransformOp)
    requires IsBare(s) && ChangesMatrix(t)
    ensures IsBare(Transform(s, t)) && Transform(s, t).top == Transformed(s.top, t)
  {
    hide ChangesMatrix, Matrix.Times, Matrix.Invert, Matrix.IsInvertible;
  }

  lemma RunMore(fx: FilterBounds, fm: FilterMeaning, cull: Rect, calls: seq<Call>, call: Call)
    ensures Run(fx, cull, calls + [call]) == Step(fx, Run(fx, cull, calls), call)
    ensures CanvasRun(fx, fm, cull, calls + [call])
         == CanvasStep(fm, CanvasRun(fx, fm, cull, calls), call, |Run(fx, cull, calls).records|)
  {
    assert (calls + [call])[..|calls|] == calls;
    hide Step, CanvasStep;
  }

  /** The outer layer of the example once its matrix was reset. */
  lemma ResetLayer(fx: FilterBounds, fm: FilterMeaning)
    ensures var s := Run(fx, SURFACE, ESCAPING[..3]);
      IsBare(s) && !s.top.layer.matrix.IsInvertible()
  {
    hide SaveLayer, Transform, CanvasStep, Init, CanvasRun, Matrix.Times;
    RunMore(fx, fm, SURFACE, [], ESCAPING[0]);
    RunMore(fx, fm, SURFACE, ESCAPING[..1], ESCAPING[1]);
    RunMore(fx, fm, SURFACE, ESCAPING[..2], ESCAPING[2]);
    assert [] + [ESCAPING[0]] == ESCAPING[..1] && ESCAPING[..1] + [ESCAPING[1]] == ESCAPING[..2]
      && ESCAPING[..2] + [ESCAPING[2]] == ESCAPING[..3];
    var s0 := Run(fx, SURFACE, []);
    StartsPlainly(fx);
    OpensBare(fx, s0);
    var s1 := Run(fx, SURFACE, ESCAPING[..1]);
    TransformedIsBare(s1, Scale(0.0, 1.0));
    var s2 := Run(fx, SURFACE, ESCAPING[..2]);
    ScaledAway(s1.top);
    TransformedIsBare(s2, TransformReset);
    ResetTop(s2);
    SingularIsSingular();
  }

  lemma StartsPlainly(fx: FilterBounds)
    ensures var s := Run(fx, SURFACE, []);
      !s.top.isNop && s.paint == DEFAULT_PAINT
  {
  }

  lemma ScaledAway(info: SaveInfo)
    ensures !Transformed(info, Scale(0.0, 1.0)).global.matrix.IsInvertible()
  {
    TimesIsInvertible(info.global.matrix, MatrixOf(Scale(0.0, 1.0)));
    hide Matrix.Times;
  }

  /** The outer layer after the inner one was closed: it still has no bounds. */
  lemma EscapedLayer(fx: FilterBounds, fm: FilterMeaning)
    ensures var s := Run(fx, SURFACE, ESCAPING);
      s.below != [] && s.top.mark.isSaveLayer && s.layer.localBounds == Accumulation(None, false)
  {
    hide SaveLayer, DrawOp, CanvasStep, CanvasRun, Run, Restore, Matrix.IsInvertible, TransferLayerBounds,
      ContentBounds;
    ResetLayer(fx, fm);
    var s3 := Run(fx, SURFACE, ESCAPING[..3]);
    RunMore(fx, fm, SURFACE, ESCAPING[..3], OPEN);
    RunMore(fx, fm, SURFACE, ESCAPING[..4], DrawCall(SPOT));
    RunMore(fx, fm, SURFACE, ESCAPING[..5], RestoreCall);
    assert ESCAPING[..3] + [OPEN] == ESCAPING[..4] && ESCAPING[..4] + [DrawCall(SPOT)] == ESCAPING[..5]
      && ESCAPING[..5] + [RestoreCall] == ESCAPING;
    OpensBare(fx, s3);
    var s5 := Run(fx, SURFACE, ESCAPING[..5]);
    DrawTop(fx, Run(fx, SURFACE, ESCAPING[..4]), SPOT);
    RunIsWellFormed(fx, SURFACE, ESCAPING[..5]);
    RestoreIsReady(s5);
    RestoredLayer(fx, s5);
    hide WellFormed;
  }

  lemma RestoredLayer(fx: FilterBounds, s: BuilderState)
    requires s.below != [] && !s.top.mark.deferred && s.top.mark.isSaveLayer && NamesItsSave(s) && s.outer != []
    requires !s.below[|s.below| - 1].layer.matrix.IsInvertible()
    ensures Restore(fx, s).top == s.below[|s.below| - 1] && Restore(fx, s).below == s.below[..|s.below| - 1]
    ensures Restore(fx, s).layer.localBounds == s.outer[|s.outer| - 1].localBounds
  {
    var k := s.top.mark.saveOffset;
    var patched := PatchSave(s.records[k], |s.records|, s.depth - s.top.mark.saveDepth);
    SingularLayerLosesBounds(fx, s.layer, s.rtree, s.below[|s.below| - 1], s.outer[|s.outer| - 1], |s.records|,
                             ContentBounds(s.layer, patched));
    hide TransferLayerBounds, ContentBounds, SettledLayer, DepthCost, Matrix.IsInvertible;
  }

  /** An entry that shows the point of the example, under the identity. */
  ghost predicate ShowsHere(e: CanvasEntry) {
    e.matrix == IDENTITY && e.spec.matrix == IDENTITY && Shows(e, HERE)
  }

  lemma NewLayerShowsHere(fm: FilterMeaning, c: Canvas, id: nat)
    requires ShowsHere(c.top)
    ensures ShowsHere(CanvasStep(fm, c, OPEN, id).top)
    ensures CanvasStep(fm, c, OPEN, id).top.spec.filter.None? && CanvasStep(fm, c, OPEN, id).top.spec.effective
  {
    IdentityInverse(HERE);
    hide LayerMarks, Matrix.Invert, Matrix.Apply;
    assert Composed(fm, None, c.top.matrix, HERE, HERE);
    assert LeadsToSurface(fm, c.top, None, HERE);
  }

  lemma StartShowsHere(fx: FilterBounds, fm: FilterMeaning)
    ensures ShowsHere(CanvasRun(fx, fm, SURFACE, []).top) && CanvasRun(fx, fm, SURFACE, []).paint == DEFAULT_PAINT
  {
  }

  lemma ResetShowsHere(fm: FilterMeaning, c: Canvas, t: TransformOp, id: nat, more: nat)
    requires ShowsHere(c.top)
    ensures ShowsHere(CanvasStep(fm, CanvasStep(fm, c, TransformCall(t), id), TransformCall(TransformReset), more).top)
  {
    hide Matrix.Times;
  }

  lemma SpotMarks(fm: FilterMeaning, c: Canvas, id: nat)
    requires ShowsHere(c.top) && c.paint == DEFAULT_PAINT
    ensures Mark(id, DrawnPart(DEFAULT_PAINT, SPOT, id), DEFAULT_PAINT, HERE) in CanvasStep(fm, c, DrawCall(SPOT),
        id).marks
  {
    IdentityInverse(HERE);
    hide Matrix.Invert, Matrix.Apply;
    assert SPOT.geometry.bounds.Inside(HERE) && Blurred(DEFAULT_PAINT, DRAW_FLAGS, HERE, HERE)
      && FilteredTo(fm, DEFAULT_PAINT, DRAW_FLAGS, HERE, HERE);
    assert Reached(fm, DEFAULT_PAINT, DRAW_FLAGS, SPOT.geometry.bounds, HERE);
  }

  /** A mark that shows surfaces when its layer, which has no filter, is closed. */
  lemma MarkSurfaces(fm: FilterMeaning, c: Canvas, m: Mark)
    requires m in c.marks && m.point == HERE && c.below != [] && c.outer != [] && c.top.isLayer
    requires c.top.spec.filter.None? && c.top.spec.effective && ShowsHere(c.below[|c.below| - 1])
    ensures Mark(m.id, c.top.spec.part, m.paint, HERE) in CanvasRestore(fm, c).marks
    ensures CanvasRestore(fm, c).top == c.below[|c.below| - 1]
  {
    var parent, up := c.below[|c.below| - 1], Mark(m.id, c.top.spec.part, m.paint, HERE);
    assert Mark(m.id, m.part, m.paint, HERE) in c.marks && Composed(fm, c.top.spec.filter, c.top.spec.matrix, HERE,
                                                                    HERE);
    assert Surfaces(fm, c.top, parent, c.marks, up);
  }

  /** Bounds of a layer's record can miss content that is seen: here they are empty. */
  lemma ContentEscapesBounds(fx: FilterBounds, fm: FilterMeaning) returns (m: Mark)
    ensures var s, c := Run(fx, SURFACE, ESCAPING), CanvasRun(fx, fm, SURFACE, ESCAPING);
      var built, k := Restore(fx, s).records, s.top.mark.saveOffset;
      && s.below != [] && s.top.mark.isSaveLayer && m in c.marks && Shows(c.top, m.point)
        && c.top.spec.matrix == IDENTITY
      && k < |built| && built[k].SaveLayerRecord? && built[k].bounds.IsEmpty()
  {
    EscapedLayer(fx, fm);
    var s := Run(fx, SURFACE, ESCAPING);
    RunIsWellFormed(fx, SURFACE, ESCAPING);
    LayerIsTriggered(s);
    RestoreIsReady(s);
    EmptyBounds(fx, s);
    m := EscapedMark(fx, fm);
    hide Run, CanvasRun, Restore, WellFormed, Shows;
  }

  lemma EmptyBounds(fx: FilterBounds, s: BuilderState)
    requires s.below != [] && !s.top.mark.deferred && s.top.mark.isSaveLayer && NamesItsSave(s) && s.outer != []
    requires s.layer.localBounds == Accumulation(None, false)
    ensures var built, k := Restore(fx, s).records, s.top.mark.saveOffset;
      k < |built| && built[k].SaveLayerRecord? && built[k].bounds.IsEmpty()
  {
    hide TransferLayerBounds, DepthCost, LayerInfo.IsGroupOpacityCompatible;
  }

  lemma EscapedMark(fx: FilterBounds, fm: FilterMeaning) returns (m: Mark)
    ensures var c := CanvasRun(fx, fm, SURFACE, ESCAPING);
      m in c.marks && m.point == HERE && ShowsHere(c.top)
  {
    hide Run, CanvasRun, CanvasStep, Step, ShowsHere, CanvasRestore;
    RunMore(fx, fm, SURFACE, [], ESCAPING[0]);
    RunMore(fx, fm, SURFACE, ESCAPING[..1], ESCAPING[1]);
    RunMore(fx, fm, SURFACE, ESCAPING[..2], ESCAPING[2]);
    RunMore(fx, fm, SURFACE, ESCAPING[..3], OPEN);
    RunMore(fx, fm, SURFACE, ESCAPING[..4], DrawCall(SPOT));
    RunMore(fx, fm, SURFACE, ESCAPING[..5], RestoreCall);
    assert [] + [ESCAPING[0]] == ESCAPING[..1] && ESCAPING[..1] + [ESCAPING[1]] == ESCAPING[..2]
      && ESCAPING[..2] + [ESCAPING[2]] == ESCAPING[..3];
    assert ESCAPING[..3] + [OPEN] == ESCAPING[..4] && ESCAPING[..4] + [DrawCall(SPOT)] == ESCAPING[..5]
      && ESCAPING[..5] + [RestoreCall] == ESCAPING;
    var c0, c1, c2, c3 := CanvasRun(fx, fm, SURFACE, []), CanvasRun(fx, fm, SURFACE, ESCAPING[..1]),
      CanvasRun(fx, fm, SURFACE, ESCAPING[..2]), CanvasRun(fx, fm, SURFACE, ESCAPING[..3]);
    var c4, c5 := CanvasRun(fx, fm, SURFACE, ESCAPING[..4]), CanvasRun(fx, fm, SURFACE, ESCAPING[..5]);
    var n1, n2, n3, n4 := |Run(fx, SURFACE, ESCAPING[..1]).records|, |Run(fx, SURFACE, ESCAPING[..2]).records|,
      |Run(fx, SURFACE, ESCAPING[..3]).records|, |Run(fx, SURFACE, ESCAPING[..4]).records|;
    StartShowsHere(fx, fm);
    NewLayerShowsHere(fm, c0, |Run(fx, SURFACE, []).records|);
    ResetShowsHere(fm, c1, Scale(0.0, 1.0), n1, n2);
    NewLayerShowsHere(fm, c3, n3);
    StepsKeepPaint(fm, c0, |Run(fx, SURFACE, []).records|, c1, n1, c2, n2, c3, n3);
    SpotMarks(fm, c4, n4);
    OpenedOver(fm, c3, n3);
    DrawnOver(fm, c4, n4);
    m := Mark(n4, c4.top.spec.part, DEFAULT_PAINT, HERE);
    MarkSurfaces(fm, c5, Mark(n4, DrawnPart(DEFAULT_PAINT, SPOT, n4), DEFAULT_PAINT, HERE));
    RestoreStep(fm, c5, |Run(fx, SURFACE, ESCAPING[..5]).records|);
  }

  lemma StepsKeepPaint(fm: FilterMeaning, a: Canvas, i: nat, b: Canvas, j: nat, c: Canvas, k: nat, d: Canvas, l: nat)
    requires b == CanvasStep(fm, a, OPEN, i) && c == CanvasStep(fm, b, TransformCall(Scale(0.0, 1.0)), j)
    requires d == CanvasStep(fm, c, TransformCall(TransformReset), k)
    ensures CanvasStep(fm, d, OPEN, l).paint == a.paint
  {
    hide SpecOf, LayerMarks, PaintResult, ConcatMatrix;
  }

  lemma OpenedOver(fm: FilterMeaning, c: Canvas, id: nat)
    ensures var d := CanvasStep(fm, c, OPEN, id);
      d.below == c.below + [c.top] && |d.outer| == |c.outer| + 1 && d.top.isLayer
  {
    hide SpecOf, LayerMarks, PaintResult;
  }

  lemma DrawnOver(fm: FilterMeaning, c: Canvas, id: nat)
    ensures var d := CanvasStep(fm, c, DrawCall(SPOT), id);
      d.below == c.below && d.outer == c.outer && d.top == c.top
  {
    hide DrawMarks;
  }

  lemma RestoreStep(fm: FilterMeaning, c: Canvas, id: nat)
    ensures CanvasStep(fm, c, RestoreCall, id) == CanvasRestore(fm, c)
  {
    hide CanvasRestore;
  }
}
