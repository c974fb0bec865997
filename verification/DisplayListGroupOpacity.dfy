/**
 Every run keeps its layers flat. So a layer record's bounds hold all that its layer can
 show, and `can_distribute_opacity` is justified: drawing each part with the opacity gives
 the pixels of the layer composed with it.
 */
module DisplayListGroupOpacity {
  import opened Options
  import opened DisplayListTypes
  import opened DisplayListPaint
  import opened DisplayListBuilderSpec
  import opened DisplayListNesting
  import opened DisplayListRTree
  import opened DisplayListGeometry
  import opened DisplayListCanvas
  import opened DisplayListUsedFilters
  import opened DisplayListVisibility
  import opened DisplayListLayers
  import opened DisplayListOpacity

  ghost predicate Good(fm: FilterMeaning, s: BuilderState, c: Canvas) {
    Sees(true, fm, s, c) && WellFormed(s) && Bookkept(s) && StateFlat(s, c)
  }

  lemma StateNopsInherit(fm: FilterMeaning, s: BuilderState, c: Canvas)
    requires Sees(true, fm, s, c)
    ensures NopsInherit(s.below, s.top, c.below, c.top)
  {
    HeldNopsInherit(fm, s.below, s.top, c.below, c.top, s.outer, s.layer, c.outer, c.marks, s.rtree, |s.rtree.rects|);
  }

  lemma DroppedLayersAreNops(fm: FilterMeaning, s: BuilderState, c: Canvas)
    requires Sees(true, fm, s, c)
    ensures c.top.isLayer && !s.top.mark.isSaveLayer && s.below != [] ==> s.top.isNop
  {
    hide Tracks, MarksHeld, SpecOf;
  }

  /** A step that draws into the current layer and may add one record. */
  lemma DrawKeepsFlat(fm: FilterMeaning, s: BuilderState, c: Canvas, u: BuilderState, more: iset<Mark>)
    requires Good(fm, s, c) && StaysFlat(s.layer, u.layer, c.top.spec, c.marks, more)
    requires s.top.isNop ==> u.layer == s.layer
    requires u.below == s.below && u.top == s.top && u.outer == s.outer
    requires u.records == s.records || (|u.records| > |s.records| && u.records == s.records + [u.records[|s.records|]])
    ensures StateFlat(u, c.(marks := c.marks + more))
  {
    StateNopsInherit(fm, s, c);
    DroppedLayersAreNops(fm, s, c);
    hide Sees, WellFormed, Bookkept, StaysFlat, NopsInherit, AllFlat;
    var ops := u.records;
    if u.records != s.records {
      MoreRecordsFlat(s, c, [u.records[|s.records|]]);
    }
    DrawIntoFlat(s.below, s.top, c.below, c.top, s.outer, s.layer, c.outer, c.marks, ops, u.layer, more);
  }

  /** Marks that cannot be seen, in a layer that stays as it is. */
  lemma UnseenStaysFlat(layer: LayerInfo, after: LayerInfo, spec: LayerSpec, marks: iset<Mark>, more: iset<Mark>)
    requires forall m :: m in more ==> !Seen(spec, m)
    requires after.localBounds == layer.localBounds
    requires after.flags.opacityIncompatible == layer.flags.opacityIncompatible
    ensures StaysFlat(layer, after, spec, marks, more)
  {
    hide Flat, Seen;
    if Flat(layer, spec, marks) {
      UnseenPartIsFlat(layer, spec, marks, more, after);
    }
  }

  // ------------------------------------------------------------ drawings

  lemma FlaggedStaysFlat(layer: LayerInfo, flagged: LayerInfo, after: LayerInfo, last: LayerInfo, spec: LayerSpec,
                         marks: iset<Mark>, more: iset<Mark>, compatible: bool)
    requires flagged == Flagged(layer, compatible) && StaysFlat(flagged, after, spec, marks, more)
    requires last.localBounds == after.localBounds && last.flags.opacityIncompatible == after.flags.opacityIncompatible
    ensures StaysFlat(layer, last, spec, marks, more)
  {
    hide Flat;
    if Flat(layer, spec, marks) {
      FlaggedIsFlat(layer, spec, marks, compatible);
      FlatByBounds(after, last, spec, marks + more);
    }
  }

  /** The layer after a drawing that was recorded. */
  lemma DrawnLayer(fx: FilterBounds, s: BuilderState, d: Draw)
    requires ResultOf(s.top, PaintOf(s.paint, d), d.flags) != NoEffect
    ensures var acc := AccumulateGeometry(fx, s, d);
      var u := DrawOp(fx, s, d);
      if acc.ok then
        u.layer.localBounds == acc.layer.localBounds
        && u.layer.flags.opacityIncompatible
             == Flagged(acc.layer, DrawIsOpacityCompatible(s.paint, d)).flags.opacityIncompatible
      else u.layer == acc.layer
  {
    hide AccumulateGeometry, PaintResult, IsOpacityCompatible, BlendMode.Rank;
  }

  lemma RejectedKeepsBounds(fx: FilterBounds, s: BuilderState, d: Draw)
    requires !AccumulateGeometry(fx, s, d).ok
    ensures var after := AccumulateGeometry(fx, s, d).layer;
      after.localBounds == s.layer.localBounds && after.flags.opacityIncompatible == s.layer.flags.opacityIncompatible
  {
    hide Tracker.MapAndClip, Tracker.LocalCullCoverage, Accumulation.Add, AdjustBoundsForPaint;
  }

  lemma AccumulatedStaysFlat(fx: FilterBounds, fm: FilterMeaning, s: BuilderState, c: Canvas, d: Draw, more: iset<Mark>)
    requires Sound(fx, fm) && Tracks(true, s.top, c.top) && !s.top.isNop && s.paint == c.paint
    requires more == DrawMarks(fm, c, d, |s.records|)
    ensures var compatible := DrawIsOpacityCompatible(s.paint, d);
      var flagged := s.(layer := Flagged(s.layer, compatible));
      StaysFlat(flagged.layer, AccumulateGeometry(fx, flagged, d).layer, c.top.spec, c.marks, more)
  {
    var compatible := DrawIsOpacityCompatible(s.paint, d);
    var flagged := s.(layer := Flagged(s.layer, compatible));
    var part := DrawnPart(s.paint, d, |s.records|);
    forall m | m in more
      ensures Paintable(c.top, m.point) && m.part == part
      ensures d.geometry.Box? && AdjustBoundsForPaint(fx, PaintOf(s.paint, d), d.flags, d.geometry.bounds).Some? ==>
        Within(c.top.matrix, AdjustBoundsForPaint(fx, PaintOf(s.paint, d), d.flags, d.geometry.bounds).value, m.point)
    {
      if d.geometry.Box? {
        ReachedIsAdjusted(fx, fm, PaintOf(s.paint, d), d.flags, d.geometry.bounds,
                          c.top.matrix.Invert().Apply(m.point));
      }
    }
    hide Sound, Tracks, AccumulateBounds, AccumulateUnbounded, StaysFlat, AdjustBoundsForPaint, Within, DrawMarks,
      Matrix.Invert, Matrix.Apply, Matrix.IsInvertible, IsOpacityCompatible;
    if d.geometry.Flood? || AdjustBoundsForPaint(fx, PaintOf(s.paint, d), d.flags, d.geometry.bounds).None? {
      UnboundedStaysFlat(flagged.layer, s.rtree, s.top, c.top, |s.records|, c.marks, more, part);
    } else {
      BoundedStaysFlat(flagged.layer, s.rtree, s.top, c.top, |s.records|,
                       AdjustBoundsForPaint(fx, PaintOf(s.paint, d), d.flags, d.geometry.bounds).value, c.marks, more,
                       part);
    }
  }

  lemma FlaggedGeometry(fx: FilterBounds, s: BuilderState, d: Draw, compatible: bool)
    ensures Flagged(AccumulateGeometry(fx, s, d).layer, compatible)
         == AccumulateGeometry(fx, s.(layer := Flagged(s.layer, compatible)), d).layer
  {
    hide AccumulateBounds, AccumulateUnbounded, AdjustBoundsForPaint, Flagged;
    FlaggingCommutes(s.layer, s.rtree, s.top, |s.records|, EMPTY_RECT, compatible);
    if d.geometry.Box? {
      var adjusted := AdjustBoundsForPaint(fx, PaintOf(s.paint, d), d.flags, d.geometry.bounds);
      if adjusted.Some? {
        FlaggingCommutes(s.layer, s.rtree, s.top, |s.records|, adjusted.value, compatible);
      }
    }
  }

  lemma DrawStaysFlat(fx: FilterBounds, fm: FilterMeaning, s: BuilderState, c: Canvas, d: Draw)
    requires Sound(fx, fm) && Good(fm, s, c)
    ensures StaysFlat(s.layer, DrawOp(fx, s, d).layer, c.top.spec, c.marks, DrawMarks(fm, c, d, |s.records|))
  {
    var more := DrawMarks(fm, c, d, |s.records|);
    var u := DrawOp(fx, s, d);
    TopTracks(true, fm, s, c);
    SamePaint(true, fm, s, c);
    BookkeptIsPaired(s);
    if s.top.isNop {
      assert forall m :: m in more ==> Paintable(c.top, m.point);
      NopMarksUnseen(s.top, c.top, more);
      DroppedDraw(fx, s, d);
      hide *;
      UnseenStaysFlat(s.layer, u.layer, c.top.spec, c.marks, more);
    } else if PaintResult(PaintOf(s.paint, d), d.flags) == NoEffect {
      assert more == iset{};
      hide StaysFlat, Good, Tracks;
      UnseenStaysFlat(s.layer, u.layer, c.top.spec, c.marks, more);
    } else {
      EffectiveDrawStaysFlat(fx, fm, s, c, d);
    }
  }

  lemma EffectiveDrawStaysFlat(fx: FilterBounds, fm: FilterMeaning, s: BuilderState, c: Canvas, d: Draw)
    requires Sound(fx, fm) && Tracks(true, s.top, c.top) && s.paint == c.paint && |s.rtree.rects| == |s.rtree.indices|
    requires !s.top.isNop && PaintResult(PaintOf(s.paint, d), d.flags) != NoEffect
    ensures StaysFlat(s.layer, DrawOp(fx, s, d).layer, c.top.spec, c.marks, DrawMarks(fm, c, d, |s.records|))
  {
    var more := DrawMarks(fm, c, d, |s.records|);
    var u := DrawOp(fx, s, d);
    var compatible := DrawIsOpacityCompatible(s.paint, d);
    var acc := AccumulateGeometry(fx, s, d);
    DrawnLayer(fx, s, d);
    if acc.ok {
      AccumulatedStaysFlat(fx, fm, s, c, d, more);
      FlaggedGeometry(fx, s, d, compatible);
      FlaggedKeepsBounds(acc.layer, compatible);
      hide *;
      FlaggedStaysFlat(s.layer, Flagged(s.layer, compatible), Flagged(acc.layer, compatible), u.layer, c.top.spec,
                       c.marks, more, compatible);
    } else {
      RejectedKeepsBounds(fx, s, d);
      forall m | m in more
        ensures Paintable(c.top, m.point) && !Shows(c.top, m.point)
      {
        if Shows(c.top, m.point) {
          DrawHolds(true, fx, fm, s, c.top, d, m);
          assert false;
        }
      }
      hide *;
      UnshownUnseen(c.top, more);
      UnseenStaysFlat(s.layer, u.layer, c.top.spec, c.marks, more);
    }
  }

  lemma FlaggedKeepsBounds(layer: LayerInfo, compatible: bool)
    ensures Flagged(layer, compatible).localBounds == layer.localBounds
  {
  }

  lemma DrawGood(fx: FilterBounds, fm: FilterMeaning, s: BuilderState, c: Canvas, d: Draw)
    requires Sound(fx, fm) && Good(fm, s, c)
    ensures StateFlat(DrawOp(fx, s, d), c.(marks := c.marks + DrawMarks(fm, c, d, |s.records|)))
  {
    DrawStaysFlat(fx, fm, s, c, d);
    DrawTop(fx, s, d);
    DrawShape(fx, s, d);
    hide *;
    DrawKeepsFlat(fm, s, c, DrawOp(fx, s, d), DrawMarks(fm, c, d, |s.records|));
  }

  lemma DrawShape(fx: FilterBounds, s: BuilderState, d: Draw)
    ensures var u := DrawOp(fx, s, d);
      && (u.records == s.records || (|u.records| > |s.records| && u.records == s.records + [u.records[|s.records|]]))
      && (s.top.isNop ==> u.layer == s.layer)
  {
    hide AccumulateGeometry, PaintResult, IsOpacityCompatible;
  }

  // --------------------------------------------------------- child lists

  lemma {:induction false} RectsStayFlat(layer: LayerInfo, rtree: RTreeData, info: SaveInfo, e: CanvasEntry, id: nat,
                                         rects: seq<Rect>, marks: iset<Mark>, more: iset<Mark>, part: Part)
    requires Tracks(true, info, e) && !info.isNop && (layer.flags.opacityIncompatible || part.Compatible())
    requires forall m ::
      m in more ==> Paintable(e, m.point) && m.part == part && AnyInside(rects, e.matrix.Invert().Apply(m.point))
    ensures StaysFlat(layer, AccumulateRects(layer, rtree, info, id, rects).layer, e.spec, marks, more)
  {
    if rects == [] {
      assert more == iset{};
      UnseenStaysFlat(layer, layer, e.spec, marks, more);
    } else {
      var init, last := rects[..|rects| - 1], rects[|rects| - 1];
      var early := iset m | m in more && AnyInside(init, e.matrix.Invert().Apply(m.point));
      var late := iset m | m in more && Within(e.matrix, last, m.point);
      SplitsBetween(e, rects, more, early, late);
      hide Tracks, StaysFlat, AccumulateBounds, Within, AnyInside, Matrix.Invert, Matrix.Apply;
      RectsStayFlat(layer, rtree, info, e, id, init, marks, early, part);
      var before := AccumulateRects(layer, rtree, info, id, init);
      StaysIncompatible(layer, before.layer, e.spec, marks, early);
      BoundedStaysFlat(before.layer, before.rtree, info, e, id, last, marks + early, late, part);
      StaysFlatTwice(layer, before.layer, AccumulateRects(layer, rtree, info, id, rects).layer, e.spec, marks, early,
                     late);
    }
  }

  lemma StaysIncompatible(layer: LayerInfo, after: LayerInfo, spec: LayerSpec, marks: iset<Mark>, more: iset<Mark>)
    requires StaysFlat(layer, after, spec, marks, more)
    ensures layer.flags.opacityIncompatible ==> after.flags.opacityIncompatible
  {
  }

  lemma StaysFlatTwice(a: LayerInfo, b: LayerInfo, c: LayerInfo, spec: LayerSpec, marks: iset<Mark>, early: iset<Mark>,
                       late: iset<Mark>)
    requires StaysFlat(a, b, spec, marks, early) && StaysFlat(b, c, spec, marks + early, late)
    ensures StaysFlat(a, c, spec, marks, early + late)
  {
    hide Flat;
    assert marks + early + late == marks + (early + late);
  }

  lemma SplitsBetween(e: CanvasEntry, rects: seq<Rect>, more: iset<Mark>, early: iset<Mark>, late: iset<Mark>)
    requires rects != []
    requires forall m :: m in more ==> Paintable(e, m.point) && AnyInside(rects, e.matrix.Invert().Apply(m.point))
    requires forall m ::
      m in early <==> m in more && e.matrix.IsInvertible() && AnyInside(rects[..|rects| - 1],
          e.matrix.Invert().Apply(m.point))
    requires forall m :: m in late <==> m in more && Within(e.matrix, rects[|rects| - 1], m.point)
    ensures more == early + late
  {
    hide Matrix.Invert, Matrix.Apply, Matrix.IsInvertible, Rect.Inside;
    forall m | m in more
      ensures m in early || m in late
    {
      var p := e.matrix.Invert().Apply(m.point);
      var k :| 0 <= k < |rects| && rects[k].Inside(p);
      if k < |rects| - 1 {
        assert rects[..|rects| - 1][k].Inside(p);
      }
    }
  }

  lemma ListedLayer(s: BuilderState, list: ChildList, opacity: real)
    requires ListIsVisible(list, opacity) && !s.top.isNop
    ensures var acc := ListAccumulated(s, s.layer, list);
      var u := DrawDisplayList(s, list, opacity);
      if acc.ok then
        u.layer.localBounds == acc.layer.localBounds
        && u.layer.flags.opacityIncompatible
             == Flagged(acc.layer, list.root.canApplyGroupOpacity).flags.opacityIncompatible
      else u.layer == acc.layer
  {
    hide AccumulateUnbounded, AccumulateRects, ListIsVisible, BlendMode.Rank;
  }

  function ListAccumulated(s: BuilderState, layer: LayerInfo, list: ChildList): Accumulated {
    if list.root.isUnbounded then AccumulateUnbounded(layer, s.rtree, s.top, |s.records|)
    else AccumulateRects(layer, s.rtree, s.top, |s.records|, list.rects)
  }

  lemma {:induction false} FlaggingRects(layer: LayerInfo, rtree: RTreeData, info: SaveInfo, id: nat, rects: seq<Rect>,
                                         compatible: bool)
    ensures var x, y := AccumulateRects(layer, rtree, info, id, rects),
                        AccumulateRects(Flagged(layer, compatible), rtree, info, id, rects);
      y.layer == Flagged(x.layer, compatible) && y.rtree == x.rtree && y.ok == x.ok
  {
    if rects != [] {
      hide Tracker.MapAndClip, Accumulation.Add;
      FlaggingRects(layer, rtree, info, id, rects[..|rects| - 1], compatible);
      var x := AccumulateRects(layer, rtree, info, id, rects[..|rects| - 1]);
      FlaggingCommutes(x.layer, x.rtree, info, id, rects[|rects| - 1], compatible);
    }
  }

  lemma FlaggedList(s: BuilderState, list: ChildList, compatible: bool)
    ensures Flagged(ListAccumulated(s, s.layer, list).layer, compatible)
      == ListAccumulated(s, Flagged(s.layer, compatible), list).layer
  {
    hide AccumulateUnbounded, AccumulateRects, Flagged;
    FlaggingCommutes(s.layer, s.rtree, s.top, |s.records|, EMPTY_RECT, compatible);
    FlaggingRects(s.layer, s.rtree, s.top, |s.records|, list.rects, compatible);
  }

  lemma {:induction false} RejectedRects(layer: LayerInfo, rtree: RTreeData, info: SaveInfo, id: nat, rects: seq<Rect>)
    ensures var acc := AccumulateRects(layer, rtree, info, id, rects);
      !acc.ok ==> acc.layer == layer && acc.rtree == rtree
  {
    if rects != [] {
      hide Tracker.MapAndClip, Accumulation.Add;
      RejectedRects(layer, rtree, info, id, rects[..|rects| - 1]);
    }
  }

  lemma RejectedList(s: BuilderState, list: ChildList)
    requires !ListAccumulated(s, s.layer, list).ok
    ensures var after := ListAccumulated(s, s.layer, list).layer;
      after.localBounds == s.layer.localBounds && after.flags.opacityIncompatible == s.layer.flags.opacityIncompatible
  {
    hide Tracker.MapAndClip, Tracker.LocalCullCoverage, Accumulation.Add, AccumulateRects;
    RejectedRects(s.layer, s.rtree, s.top, |s.records|, list.rects);
  }

  lemma ListAccumulatedStaysFlat(s: BuilderState, c: Canvas, list: ChildList, opacity: real)
    requires Tracks(true, s.top, c.top) && !s.top.isNop
    ensures StaysFlat(Flagged(s.layer, list.root.canApplyGroupOpacity),
                      ListAccumulated(s, Flagged(s.layer, list.root.canApplyGroupOpacity), list).layer, c.top.spec,
                      c.marks, ListMarks(c, list, opacity, |s.records|))
  {
    var more := ListMarks(c, list, opacity, |s.records|);
    var part := ListPart(c.paint, list, |s.records|);
    forall m | m in more
      ensures Paintable(c.top, m.point) && m.part == part
      ensures !list.root.isUnbounded ==> AnyInside(list.rects, c.top.matrix.Invert().Apply(m.point))
    {
    }
    hide Tracks, AccumulateRects, AccumulateUnbounded, StaysFlat, ListMarks, Matrix.Invert, Matrix.Apply,
      Matrix.IsInvertible, AnyInside;
    if list.root.isUnbounded {
      UnboundedStaysFlat(Flagged(s.layer, part.Compatible()), s.rtree, s.top, c.top, |s.records|, c.marks, more, part);
    } else {
      RectsStayFlat(Flagged(s.layer, part.Compatible()), s.rtree, s.top, c.top, |s.records|, list.rects, c.marks, more,
                    part);
    }
  }

  lemma ListAccumulates(s: BuilderState, e: CanvasEntry, list: ChildList, opacity: real, m: Mark)
    requires |s.rtree.rects| == |s.rtree.indices|
    requires Tracks(true, s.top, e) && !s.top.isNop && Shows(e, m.point) && ListTouches(e, list, opacity, m.point)
    requires m.id == |s.records|
    ensures ListAccumulated(s, s.layer, list).ok
  {
    hide Tracks, Shows, AccumulateUnbounded, AccumulateRects, HeldBetween, Matrix.Invert, Matrix.IsInvertible,
      Matrix.Apply;
    if list.root.isUnbounded {
      UnboundedHolds(true, s.layer, s.rtree, s.top, e, |s.records|, m);
    } else {
      var k :| 0 <= k < |list.rects| && list.rects[k].Inside(e.matrix.Invert().Apply(m.point));
      RectsHold(true, s.layer, s.rtree, s.top, e, |s.records|, list.rects, k, m);
    }
  }

  lemma ListStaysFlat(fm: FilterMeaning, s: BuilderState, c: Canvas, list: ChildList, opacity: real)
    requires Good(fm, s, c)
    ensures StaysFlat(s.layer, DrawDisplayList(s, list, opacity).layer, c.top.spec, c.marks,
                      ListMarks(c, list, opacity, |s.records|))
  {
    var more := ListMarks(c, list, opacity, |s.records|);
    var u := DrawDisplayList(s, list, opacity);
    TopTracks(true, fm, s, c);
    BookkeptIsPaired(s);
    assert forall m :: m in more ==> Paintable(c.top, m.point) && ListTouches(c.top, list, opacity, m.point);
    if !ListIsVisible(list, opacity) || s.top.isNop {
      if s.top.isNop {
        NopMarksUnseen(s.top, c.top, more);
      }
      hide StaysFlat, Good, Tracks;
      UnseenStaysFlat(s.layer, u.layer, c.top.spec, c.marks, more);
    } else {
      VisibleListStaysFlat(s, c, list, opacity);
    }
  }

  lemma VisibleListStaysFlat(s: BuilderState, c: Canvas, list: ChildList, opacity: real)
    requires Tracks(true, s.top, c.top) && |s.rtree.rects| == |s.rtree.indices| && !s.top.isNop
    requires ListIsVisible(list, opacity)
    ensures StaysFlat(s.layer, DrawDisplayList(s, list, opacity).layer, c.top.spec, c.marks,
                      ListMarks(c, list, opacity, |s.records|))
  {
    var more := ListMarks(c, list, opacity, |s.records|);
    var u := DrawDisplayList(s, list, opacity);
    var acc := ListAccumulated(s, s.layer, list);
    ListedLayer(s, list, opacity);
    var compatible := list.root.canApplyGroupOpacity;
    if acc.ok {
      ListAccumulatedStaysFlat(s, c, list, opacity);
      FlaggedList(s, list, compatible);
      FlaggedKeepsBounds(acc.layer, compatible);
      hide *;
      FlaggedStaysFlat(s.layer, Flagged(s.layer, compatible), Flagged(acc.layer, compatible), u.layer, c.top.spec,
                       c.marks, more, compatible);
    } else {
      RejectedList(s, list);
      forall m | m in more
        ensures Paintable(c.top, m.point) && !Shows(c.top, m.point)
      {
        if Shows(c.top, m.point) {
          ListAccumulates(s, c.top, list, opacity, m);
          assert false;
        }
      }
      hide *;
      UnshownUnseen(c.top, more);
      UnseenStaysFlat(s.layer, u.layer, c.top.spec, c.marks, more);
    }
  }

  lemma ListGood(fm: FilterMeaning, s: BuilderState, c: Canvas, list: ChildList, opacity: real)
    requires Good(fm, s, c)
    ensures StateFlat(DrawDisplayList(s, list, opacity),
                      c.(marks := c.marks + ListMarks(c, list, opacity, |s.records|)))
  {
    ListStaysFlat(fm, s, c, list, opacity);
    ListTop(s, list, opacity);
    ListShape(s, list, opacity);
    hide *;
    DrawKeepsFlat(fm, s, c, DrawDisplayList(s, list, opacity), ListMarks(c, list, opacity, |s.records|));
  }

  lemma ListShape(s: BuilderState, list: ChildList, opacity: real)
    ensures var u := DrawDisplayList(s, list, opacity);
      && (u.records == s.records || (|u.records| > |s.records| && u.records == s.records + [u.records[|s.records|]]))
      && (s.top.isNop ==> u.layer == s.layer)
  {
    hide AccumulateUnbounded, AccumulateRects, ListIsVisible, LayerAfterList;
  }

  // ---------------------------------------------------------------- saves

  lemma SaveFlat(s: BuilderState, c: Canvas)
    requires StateFlat(s, c)
    ensures StateFlat(Save(s), c.(below := c.below + [c.top], top := c.top.(isLayer := false)))
  {
    hide Flat, KnowsBounds;
    StackHeights(s, c);
    assert (s.below + [s.top])[..|s.below|] == s.below && (c.below + [c.top])[..|c.below|] == c.below;
  }

  lemma StackHeights(s: BuilderState, c: Canvas)
    requires StateFlat(s, c)
    ensures |c.below| == |s.below|
  {
    hide Flat, KnowsBounds;
  }

  lemma NothingIsFlat(layer: LayerInfo, spec: LayerSpec)
    requires layer.flags.opacityIncompatible || (spec.part.Compatible() && spec.filter.None?)
    ensures Flat(layer, spec, iset{})
  {
  }

  /** What opening a layer does to the one below it. */
  lemma OpenedStaysFlat(s: BuilderState, c: Canvas, withPaint: bool, backdrop: Option<ImageFilter>)
    requires Tracks(true, s.top, c.top) && !s.top.isNop && s.paint == c.paint
    ensures var acc := AccumulateLayer(s, withPaint, backdrop);
      && StaysFlat(s.layer, acc.layer, c.top.spec, c.marks, LayerMarks(c, withPaint, backdrop, |s.records|))
      && (LayerPart(s.paint, withPaint, |s.records|, true).Compatible() || acc.layer.flags.opacityIncompatible)
  {
    var more := LayerMarks(c, withPaint, backdrop, |s.records|);
    var compatible := !withPaint || IsOpacityCompatible(s.paint);
    var part := LayerPart(s.paint, withPaint, |s.records|, false);
    assert forall m ::
      m in more ==> Paintable(c.top, m.point) && m.part == part && LayerFloods(c.paint, withPaint, backdrop);
    hide Tracks, Flat, PaintResult, IsOpacityCompatible, BlendMode.Rank, Tracker.MapAndClip, Tracker.LocalCullCoverage,
      Accumulation.Add, LayerMarks;
    var layer := s.layer.MarkBackdrop(backdrop.Some?).UpdateOpacityCompatibility(compatible)
                        .UpdateResult(PaintResult(s.paint, SaveLayerFlags(withPaint)), BlendModeOf(s.paint, withPaint));
    UnseenStaysFlat(Flagged(s.layer, compatible), layer, c.top.spec, c.marks, iset{});
    var acc := AccumulateLayer(s, withPaint, backdrop);
    if LayerFloods(s.paint, withPaint, backdrop) {
      UnboundedStaysFlat(layer, s.rtree, s.top, c.top, |s.records|, c.marks, more, part);
      UnboundedLayer(layer, s.rtree, s.top, |s.records|);
      hide AccumulateUnbounded;
      FlaggedThen(s.layer, layer, acc.layer, c.top.spec, c.marks, more, compatible);
    } else {
      assert more == iset{};
      FlaggedStaysFlat(s.layer, Flagged(s.layer, compatible), layer, acc.layer, c.top.spec, c.marks, more, compatible);
    }
  }

  lemma FlaggedThen(layer: LayerInfo, flagged: LayerInfo, after: LayerInfo, spec: LayerSpec, marks: iset<Mark>,
                    more: iset<Mark>, compatible: bool)
    requires StaysFlat(flagged, after, spec, marks, more)
    requires flagged.localBounds == layer.localBounds
    requires flagged.flags.opacityIncompatible == Flagged(layer, compatible).flags.opacityIncompatible
    ensures StaysFlat(layer, after, spec, marks, more)
  {
    hide Flat;
    if Flat(layer, spec, marks) {
      FlaggedIsFlat(layer, spec, marks, compatible);
      FlaggedKeepsBounds(layer, compatible);
      FlatByBounds(Flagged(layer, compatible), flagged, spec, marks);
    }
  }

  lemma EnteredIsFlat(fx: FilterBounds, fm: FilterMeaning, s: BuilderState, c: Canvas, bounds: Option<Rect>,
                      withPaint: bool, backdrop: Option<ImageFilter>, part: Part)
    requires StateFlat(s, c) && s.paint == c.paint && (part.Compatible() || s.layer.flags.opacityIncompatible)
    requires part.Compatible() <==> !withPaint || IsOpacityCompatible(s.paint)
    ensures StateFlat(EnterLayer(fx, s, bounds, withPaint, backdrop),
                      Canvas(c.paint, c.below + [c.top],
                             CanvasEntry(true, SpecOf(fm, c.top, LayerFilter(c.paint, withPaint), true, part, bounds),
                             c.top.matrix, Everywhere()), c.outer + [c.marks], iset{}))
  {
    var spec := SpecOf(fm, c.top, LayerFilter(c.paint, withPaint), true, part, bounds);
    var u := EnterLayer(fx, s, bounds, withPaint, backdrop);
    StackHeights(s, c);
    EnteredEntry(fx, s, bounds, withPaint, backdrop);
    EnteredRecord(fx, s, bounds, withPaint, backdrop);
    SpecKeeps(fm, c.top, LayerFilter(c.paint, withPaint), true, part, bounds);
    EnteredFlag(fx, s, bounds, withPaint, backdrop);
    NothingIsFlat(u.layer, spec);
    MoreRecordsFlat(s, c, [NewSaveLayerRecord(withPaint, bounds, backdrop)]);
    hide Flat, SpecOf, EnterLayer, LayerEntry, IsOpacityCompatible;
    assert (s.below + [s.top])[..|s.below|] == s.below && (c.below + [c.top])[..|c.below|] == c.below;
    assert (s.outer + [s.layer])[..|s.outer|] == s.outer && (c.outer + [c.marks])[..|c.outer|] == c.outer;
  }

  /** A new layer is incompatible from the start if its own paint or filter is. */
  lemma EnteredFlag(fx: FilterBounds, s: BuilderState, bounds: Option<Rect>, withPaint: bool,
                    backdrop: Option<ImageFilter>)
    ensures EnterLayer(fx, s, bounds, withPaint, backdrop).layer.flags.opacityIncompatible ==
      !(!withPaint || (IsOpacityCompatible(s.paint) && LayerFilter(s.paint, withPaint).None?))
  {
    hide LayerCull, Tracker.ClipRect, IsOpacityCompatible;
  }

  lemma EnteredRecord(fx: FilterBounds, s: BuilderState, bounds: Option<Rect>, withPaint: bool,
                      backdrop: Option<ImageFilter>)
    ensures var u := EnterLayer(fx, s, bounds, withPaint, backdrop);
      && u.records == s.records + [NewSaveLayerRecord(withPaint, bounds, backdrop)]
      && u.top.mark.saveOffset == |s.records|
      && KnowsBounds(u.records, u.top.mark.saveOffset, bounds)
  {
    hide LayerCull, Tracker.ClipRect, IsOpacityCompatible;
  }

  lemma SaveLayerFlat(fx: FilterBounds, fm: FilterMeaning, s: BuilderState, c: Canvas, bounds: Option<Rect>,
                      withPaint: bool, backdrop: Option<ImageFilter>)
    requires Good(fm, s, c)
    ensures StateFlat(SaveLayer(fx, s, bounds, withPaint, backdrop),
                      CanvasSaveLayer(fm, c, bounds, withPaint, backdrop, |s.records|))
  {
    TopTracks(true, fm, s, c);
    SamePaint(true, fm, s, c);
    if ResultOf(s.top, s.paint, SaveLayerFlags(withPaint)) == NoEffect {
      DroppedLayerFlat(fx, fm, s, c, bounds, withPaint, backdrop);
    } else {
      OpenedStaysFlat(s, c, withPaint, backdrop);
      LayerGrows(s, withPaint, backdrop);
      hide Tracks, StaysFlat, PaintResult, AccumulateLayer, LayerMarks, EnterLayer, StateFlat, Sees, WellFormed,
        Bookkept, SpecOf, Grows;
      var acc := AccumulateLayer(s, withPaint, backdrop);
      var t := s.(layer := acc.layer, rtree := acc.rtree);
      DrawKeepsFlat(fm, s, c, t, LayerMarks(c, withPaint, backdrop, |s.records|));
      EnteredIsFlat(fx, fm, t, c.(marks := c.marks + LayerMarks(c, withPaint, backdrop, |s.records|)), bounds,
                    withPaint, backdrop, LayerPart(c.paint, withPaint, |s.records|, true));
    }
  }

  lemma DroppedLayerFlat(fx: FilterBounds, fm: FilterMeaning, s: BuilderState, c: Canvas, bounds: Option<Rect>,
                         withPaint: bool, backdrop: Option<ImageFilter>)
    requires Good(fm, s, c) && Tracks(true, s.top, c.top) && s.paint == c.paint
    requires ResultOf(s.top, s.paint, SaveLayerFlags(withPaint)) == NoEffect
    ensures StateFlat(SaveLayer(fx, s, bounds, withPaint, backdrop),
                      CanvasSaveLayer(fm, c, bounds, withPaint, backdrop, |s.records|))
  {
    var more := LayerMarks(c, withPaint, backdrop, |s.records|);
    assert forall m :: m in more ==> Paintable(c.top, m.point);
    if s.top.isNop {
      NopMarksUnseen(s.top, c.top, more);
    } else {
      assert more == iset{};
    }
    UnseenStaysFlat(s.layer, s.layer, c.top.spec, c.marks, more);
    hide Tracks, StaysFlat, PaintResult, LayerMarks, StateFlat, Sees, WellFormed, Bookkept, SpecOf;
    DrawKeepsFlat(fm, s, c, s, more);
    DroppedEntryFlat(fx, fm, s, c, bounds, withPaint, backdrop, more);
  }

  lemma DroppedEntryFlat(fx: FilterBounds, fm: FilterMeaning, s: BuilderState, c: Canvas, bounds: Option<Rect>,
                         withPaint: bool, backdrop: Option<ImageFilter>, more: iset<Mark>)
    requires StateFlat(s, c.(marks := c.marks + more)) && more == LayerMarks(c, withPaint, backdrop, |s.records|)
    requires ResultOf(s.top, s.paint, SaveLayerFlags(withPaint)) == NoEffect
    ensures StateFlat(SaveLayer(fx, s, bounds, withPaint, backdrop),
                      CanvasSaveLayer(fm, c, bounds, withPaint, backdrop, |s.records|))
  {
    hide PaintResult, LayerMarks, SpecOf, Flat, KnowsBounds;
    StackHeights(s, c.(marks := c.marks + more));
    assert (s.below + [s.top])[..|s.below|] == s.below && (c.below + [c.top])[..|c.below|] == c.below;
    assert (c.outer + [c.marks + more])[..|c.outer|] == c.outer;
  }

  // -------------------------------------------------------------- restores

  /** What surfaces where it can be seen was seen in the closing layer, and belongs to its part. */
  lemma SurfacedWasSeen(fm: FilterMeaning, parent: CanvasEntry, closing: CanvasEntry, marks: iset<Mark>, m: Mark)
    returns (was: Mark)
    requires closing.spec == SpecOf(fm, parent, closing.spec.filter, closing.spec.effective, closing.spec.part,
                                    closing.spec.bounds)
    requires forall n :: n in marks ==> closing.spec.matrix.IsInvertible() && n.point in closing.spec.extent
    requires m in Surfaced(fm, closing, parent, marks) && m.point in parent.spec.relevant
    ensures was in marks && Seen(closing.spec, was) && was.point in closing.spec.extent && m.part == closing.spec.part
    ensures Composed(fm, closing.spec.filter, parent.matrix, was.point, m.point)
    ensures Paintable(parent, m.point) && closing.spec.matrix == parent.matrix
  {
    hide Matrix.IsInvertible;
    var q, part :|
      Mark(m.id, part, m.paint, q) in marks && Composed(fm, closing.spec.filter, closing.spec.matrix, q, m.point);
    was := Mark(m.id, part, m.paint, q);
    assert was in marks;
    assert Shows(parent, m.point);
    assert LeadsToSurface(fm, parent, closing.spec.filter, q);
  }

  /** The content bounds of a closing layer hold all that was seen in it. */
  lemma ContentHolds(layer: LayerInfo, spec: LayerSpec, marks: iset<Mark>, record: Record, was: Mark)
    requires Flat(layer, spec, marks) && was in marks && Seen(spec, was)
    requires record.SaveLayerRecord? && (record.options.boundsFromCaller ==> spec.bounds == Some(record.bounds))
    requires spec.bounds.Some? ==> Within(spec.matrix, spec.bounds.value, was.point)
    ensures ContentBounds(layer, record).Inside(InLayer(spec, was.point))
  {
    hide PartsAreDisjoint, PartsAreCompatible, Matrix.Invert, Matrix.Apply, Matrix.IsInvertible;
    var p := InLayer(spec, was.point);
    assert Holds(layer.localBounds, p);
    IntersectionCovers(layer.localBounds.GetBounds(), record.bounds, p);
    hide Rect.IntersectionOrEmpty, Rect.Contains;
  }

  /** Local bounds handed to the parent keep it flat. */
  lemma LocalStaysFlat(layer: LayerInfo, info: SaveInfo, e: CanvasEntry, r: Rect, marks: iset<Mark>, more: iset<Mark>,
                       part: Part)
    requires Tracks(true, info, e) && !info.isNop
    requires forall m ::
      m in more && Seen(e.spec, m) ==> Paintable(e, m.point) && m.part == part && Within(e.matrix, r, m.point)
    requires layer.flags.opacityIncompatible || part.Compatible()
    ensures StaysFlat(layer, AccumulateBoundsLocal(layer, info, r), e.spec, marks, more)
  {
    var local := info.layer.MapAndClip(r);
    var after := AccumulateBoundsLocal(layer, info, r);
    forall m | m in more && Seen(e.spec, m)
      ensures !r.IsEmpty() && local.Some? && m.part == part && local.value.Inside(InLayer(e.spec, m.point))
    {
      assert Paintable(e, m.point) && Within(e.matrix, r, m.point);
      BoundsHold(true, info, e, r, m.point);
      WithinIsInvertible(e.matrix, r, m.point);
    }
    hide Tracks, Flat, Tracker.MapAndClip, Matrix.Invert, Matrix.Apply, Matrix.IsInvertible, Rect.Inside, Rect.IsEmpty,
      Within, Accumulation.Add, Seen, InLayer;
    if Flat(layer, e.spec, marks) {
      if !r.IsEmpty() && local.Some? {
        CompatibleOrNone(layer, e.spec, marks, more, local.value, part, after);
      } else {
        UnseenPartIsFlat(layer, e.spec, marks, more, after);
      }
    }
  }

  /** A closing layer is drawn into its parent as one part. */
  lemma TransferStaysFlat(fx: FilterBounds, fm: FilterMeaning, layer: LayerInfo, rtree: RTreeData, info: SaveInfo,
                          parentLayer: LayerInfo, id: nat, record: Record, parent: CanvasEntry, closing: CanvasEntry,
                          parentMarks: iset<Mark>, marks: iset<Mark>, lo: nat, hi: nat)
    requires Sound(fx, fm) && Tracks(true, info, parent) && !info.isNop && CanAdjust(rtree, layer.rtreeStart)
    requires closing.spec == SpecOf(fm, parent, closing.spec.filter, closing.spec.effective, closing.spec.part,
                                    closing.spec.bounds)
    requires closing.spec.filter == layer.filter && MarksHeld(true, marks, closing.spec, rtree, lo, hi)
    requires Flat(layer, closing.spec, marks)
    requires (closing.spec.part.Compatible() || parentLayer.flags.opacityIncompatible)
    requires record.SaveLayerRecord? && (record.options.boundsFromCaller ==> closing.spec.bounds == Some(record.bounds))
    ensures StaysFlat(parentLayer, TransferLayerBounds(fx, layer, rtree, info, parentLayer, id,
                      ContentBounds(layer, record)).layer, parent.spec, parentMarks,
                      Surfaced(fm, closing, parent, marks))
  {
    var content, more, part := ContentBounds(layer, record), Surfaced(fm, closing, parent, marks), closing.spec.part;
    SurfacedAreParts(fm, closing, parent, marks, rtree, lo, hi);
    forall m | m in more && Seen(parent.spec, m)
      ensures Paintable(parent, m.point) && m.part == part && !content.IsEmpty()
      ensures layer.filter.None? ==> Within(parent.matrix, content, m.point)
      ensures layer.filter.Some? && fx.mapLocal(layer.filter.value, content).Some? ==>
        Within(parent.matrix, fx.mapLocal(layer.filter.value, content).value, m.point)
    {
      SurfacedInContent(fx, fm, layer, record, parent, closing, marks, rtree, lo, hi, m);
    }
    hide Sound, Tracks, Flat, StaysFlat, MarksHeld, Surfaced, SpecOf, ContentBounds, AccumulateUnbounded,
      AccumulateBoundsLocal, AdjustRTreeRects,
      AnyRectFloods, Seen, Within, Paintable, Rect.IsEmpty;
    if layer.filter.None? {
      LocalStaysFlat(parentLayer, info, parent, content, parentMarks, more, part);
    } else {
      var f := layer.filter.value;
      var adjusted :=
        AdjustRTreeRects(fx, f, info.global.matrix, info.global.cull, rtree, layer.rtreeStart, |rtree.rects|);
      var mapped := (fx.mapLocal)(f, content);
      if AnyRectFloods(fx, f, info.global.matrix, rtree, layer.rtreeStart) || (!content.IsEmpty() && mapped.None?) {
        UnboundedStaysFlat(parentLayer, adjusted, info, parent, id, parentMarks, more, part);
      } else {
        LocalStaysFlat(parentLayer, info, parent, if content.IsEmpty() then content else mapped.value,
                       parentMarks, more, part);
      }
    }
  }

  lemma SurfacedAreParts(fm: FilterMeaning, closing: CanvasEntry, parent: CanvasEntry, marks: iset<Mark>,
                         rtree: RTreeData, lo: nat, hi: nat)
    requires closing.spec.matrix == parent.matrix && MarksHeld(true, marks, closing.spec, rtree, lo, hi)
    ensures forall m ::
      m in Surfaced(fm, closing, parent, marks) ==> Paintable(parent, m.point) && m.part == closing.spec.part
  {
    hide Matrix.IsInvertible, HeldBetween;
  }

  lemma SurfacedInContent(fx: FilterBounds, fm: FilterMeaning, layer: LayerInfo, record: Record, parent: CanvasEntry,
                          closing: CanvasEntry, marks: iset<Mark>, rtree: RTreeData, lo: nat, hi: nat, m: Mark)
    requires Sound(fx, fm)
    requires closing.spec == SpecOf(fm, parent, closing.spec.filter, closing.spec.effective, closing.spec.part,
                                    closing.spec.bounds)
    requires closing.spec.filter == layer.filter && MarksHeld(true, marks, closing.spec, rtree, lo, hi)
    requires Flat(layer, closing.spec, marks)
    requires record.SaveLayerRecord? && (record.options.boundsFromCaller ==> closing.spec.bounds == Some(record.bounds))
    requires m in Surfaced(fm, closing, parent, marks) && Seen(parent.spec, m)
    ensures var content := ContentBounds(layer, record);
      && !content.IsEmpty()
      && (layer.filter.None? ==> Within(parent.matrix, content, m.point))
      && (layer.filter.Some? && fx.mapLocal(layer.filter.value, content).Some? ==>
            Within(parent.matrix, fx.mapLocal(layer.filter.value, content).value, m.point))
  {
    var content := ContentBounds(layer, record);
    var was := SurfacedWasSeen(fm, parent, closing, marks, m);
    assert closing.spec.bounds.Some? ==> Within(closing.spec.matrix, closing.spec.bounds.value, was.point);
    ContentHolds(layer, closing.spec, marks, record, was);
    InsideIsSolid(content, InLayer(closing.spec, was.point));
    hide Flat, MarksHeld, Surfaced, SpecOf, ContentBounds, Matrix.Invert, Matrix.Apply, Matrix.IsInvertible,
      Rect.Inside, Rect.IsEmpty;
    if layer.filter.Some? {
      var f := layer.filter.value;
      assert SoundFilter(fx, fm, f);
      var q, p := InLayer(closing.spec, was.point), parent.matrix.Invert().Apply(m.point);
      assert fm.reaches(f, parent.matrix, was.point, m.point);
      assert fm.reachesLocal(f, q, p);
      assert MapsLocal(fx, f, content, q, p);
    }
  }

  /** Entries below the top one keep their records when the top one is settled. */
  lemma SettledRecordsFlat(s: BuilderState, c: Canvas, patched: Record)
    requires WellFormed(s) && StateFlat(s, c) && s.below != [] && !s.top.mark.deferred
    requires s.top.mark.saveOffset < |s.records|
    ensures forall i :: 1 <= i < |s.below| ==>
      SameAt(s.records, s.records[s.top.mark.saveOffset := patched] + [RestoreRecord], s.below[i].mark)
  {
    hide LayersMatch, Nested, AllFlat;
    var other := s.records[s.top.mark.saveOffset := patched] + [RestoreRecord];
    forall i | 1 <= i < |s.below|
      ensures SameAt(s.records, other, s.below[i].mark)
    {
      if s.below[i].mark.isSaveLayer {
        LayersAreTriggered(s, i);
        TopRecordIsLast(s.records, s.below, s.top, i);
      }
    }
  }

  lemma PopFlat(s: BuilderState, c: Canvas, canvasTop: CanvasEntry, outer: seq<LayerInfo>, layer: LayerInfo,
                outerMarks: seq<iset<Mark>>, marks: iset<Mark>, other: seq<Record>)
    requires s.below != [] && |c.below| == |s.below|
    requires var n := |s.below| - 1;
      AllFlat(s.below[..n], s.below[n], c.below[..n], c.below[n], outer, layer, outerMarks, marks, s.records)
    requires forall i :: 1 <= i < |s.below| ==> SameAt(s.records, other, s.below[i].mark)
    ensures var n := |s.below| - 1;
      AllFlat(s.below[..n], s.below[n], c.below[..n], c.below[n], outer, layer, outerMarks, marks, other)
  {
    hide AllFlat;
    var n := |s.below| - 1;
    OtherRecordsFlat(s.below[..n], s.below[n], c.below[..n], c.below[n], outer, layer, outerMarks, marks, s.records,
                     other);
  }

  lemma RecordsAfterRestore(fx: FilterBounds, s: BuilderState, c: Canvas)
    requires WellFormed(s) && StateFlat(s, c) && s.below != []
    ensures forall i :: 1 <= i < |s.below| ==> SameAt(s.records, Restore(fx, s).records, s.below[i].mark)
  {
    hide StateFlat;
    if !s.top.mark.deferred {
      RestoreIsReady(s);
      RestorePatches(fx, s);
      SettledRecordsFlat(s, c, Restore(fx, s).records[s.top.mark.saveOffset]);
      hide Restore;
    }
  }

  lemma RestorePlainFlat(fx: FilterBounds, fm: FilterMeaning, s: BuilderState, c: Canvas)
    requires Good(fm, s, c) && s.below != [] && !s.top.mark.isSaveLayer
    ensures StateFlat(Restore(fx, s), CanvasRestore(fm, c))
  {
    var n := |s.below| - 1;
    StackHeights(s, c);
    RecordsAfterRestore(fx, s, c);
    RestorePlainIsPop(fx, s);
    var t := Restore(fx, s);
    if c.top.isLayer {
      DroppedUnseen(fm, s, c);
      hide Flat, KnowsBounds, Restore, Surfaced, Sees, WellFormed, Bookkept, Seen;
      var outerMarks, marks := c.outer[..|c.outer| - 1], c.outer[|c.outer| - 1];
      var more := Surfaced(fm, c.top, c.below[n], c.marks);
      PopFlat(s, c, c.below[n], s.outer, s.layer, outerMarks, marks, t.records);
      UnseenStaysFlat(s.layer, s.layer, c.below[n].spec, marks, more);
      StateNopsInherit(fm, s, c);
      hide StaysFlat;
      DrawIntoFlat(s.below[..n], s.below[n], c.below[..n], c.below[n], s.outer, s.layer, outerMarks, marks, t.records,
                   s.layer, more);
    } else {
      hide Flat, KnowsBounds, Restore, Sees, WellFormed, Bookkept;
      PopFlat(s, c, c.below[n], s.outer, s.layer, c.outer, c.marks, t.records);
    }
  }

  lemma DroppedUnseen(fm: FilterMeaning, s: BuilderState, c: Canvas)
    requires Sees(true, fm, s, c) && s.below != [] && c.top.isLayer && !s.top.mark.isSaveLayer && |c.below| == |s.below|
    ensures var parent := c.below[|c.below| - 1];
      forall m :: m in Surfaced(fm, c.top, parent, c.marks) ==> !Seen(parent.spec, m)
  {
    var n, hi := |s.below| - 1, |s.rtree.rects|;
    hide Tracks, SpecOf, Surfaced, HeldBetween;
    HeldTracks(true, fm, s.below[..n], s.below[n], c.below[..n], c.below[n], s.outer, s.layer, c.outer[..|c.outer| - 1],
               c.outer[|c.outer| - 1], s.rtree, hi);
    UnfilteredMarksHeld(true, fm, s.below[n], c.below[n], c.top, c.marks, s.rtree, hi, hi);
    EmptyRangeHoldsNone(s.rtree, hi);
  }

  lemma EmptyRangeHoldsNone(rtree: RTreeData, hi: nat)
    ensures forall m :: !HeldBetween(rtree, hi, hi, m)
  {
  }

  lemma RestoreLayerFlat(fx: FilterBounds, fm: FilterMeaning, s: BuilderState, c: Canvas)
    requires Sound(fx, fm) && Good(fm, s, c) && s.below != [] && s.top.mark.isSaveLayer
    ensures StateFlat(Restore(fx, s), CanvasRestore(fm, c))
  {
    var n := |s.below| - 1;
    StackHeights(s, c);
    RecordsAfterRestore(fx, s, c);
    LayerIsTriggered(s);
    RestoreIsReady(s);
    RestoreTransfers(fx, s);
    RestorePatches(fx, s);
    BookkeptIsPaired(s);
    hide Restore, TransferLayerBounds, ContentBounds, Surfaced, WellFormed, Bookkept, Sound, StaysFlat;
    LayerFacts(fm, s, c);
    var t := Restore(fx, s);
    var record := PatchSave(s.records[s.top.mark.saveOffset], |s.records|, s.depth - s.top.mark.saveDepth);
    var outer, parentLayer := s.outer[..|s.outer| - 1], s.outer[|s.outer| - 1];
    var outerMarks, parentMarks := c.outer[..|c.outer| - 1], c.outer[|c.outer| - 1];
    TransferStaysFlat(fx, fm, s.layer, s.rtree, s.below[n], parentLayer, |s.records|, record, c.below[n], c.top,
                      parentMarks, c.marks, s.layer.rtreeStart, |s.rtree.rects|);
    hide Sees, Held, Flat, MarksHeld, Tracks, SpecOf, PatchSave;
    ClosedLayerFlat(fm, s, c, outer, parentLayer, outerMarks, parentMarks, t);
  }

  /** What the two relations say about an open layer at the top. */
  lemma LayerFacts(fm: FilterMeaning, s: BuilderState, c: Canvas)
    requires Sees(true, fm, s, c) && StateFlat(s, c) && s.below != [] && s.top.mark.isSaveLayer
    requires |s.rtree.rects| == |s.rtree.indices|
    ensures |c.below| == |s.below| && s.outer != [] && c.outer != [] && c.top.isLayer
    ensures var n := |s.below| - 1;
      && Tracks(true, s.below[n], c.below[n]) && !s.below[n].isNop && CanAdjust(s.rtree, s.layer.rtreeStart)
      && c.top.spec == SpecOf(fm, c.below[n], c.top.spec.filter, c.top.spec.effective, c.top.spec.part,
                              c.top.spec.bounds)
      && c.top.spec.filter == s.layer.filter
      && MarksHeld(true, c.marks, c.top.spec, s.rtree, s.layer.rtreeStart, |s.rtree.rects|)
      && Flat(s.layer, c.top.spec, c.marks) && (c.top.spec.part.Compatible()
                                                || s.outer[|s.outer| - 1].flags.opacityIncompatible)
      && KnowsBounds(s.records, s.top.mark.saveOffset, c.top.spec.bounds)
      && AllFlat(s.below[..n], s.below[n], c.below[..n], c.below[n], s.outer[..|s.outer| - 1], s.outer[|s.outer| - 1],
                 c.outer[..|c.outer| - 1], c.outer[|c.outer| - 1], s.records)
  {
    hide Tracks, MarksHeld, SpecOf, Flat, KnowsBounds;
    var n := |s.below| - 1;
    HeldTracks(true, fm, s.below[..n], s.below[n], c.below[..n], c.below[n], s.outer[..|s.outer| - 1],
               s.outer[|s.outer| - 1], c.outer[..|c.outer| - 1], c.outer[|c.outer| - 1], s.rtree, s.layer.rtreeStart);
  }

  lemma ClosedLayerFlat(fm: FilterMeaning, s: BuilderState, c: Canvas, outer: seq<LayerInfo>, parentLayer: LayerInfo,
                        outerMarks: seq<iset<Mark>>, parentMarks: iset<Mark>, t: BuilderState)
    requires Sees(true, fm, s, c) && s.below != [] && |c.below| == |s.below| && c.top.isLayer && c.outer != []
    requires s.top.mark.isSaveLayer
    requires var n := |s.below| - 1;
      && AllFlat(s.below[..n], s.below[n], c.below[..n], c.below[n], outer, parentLayer, outerMarks, parentMarks,
                 s.records)
      && StaysFlat(parentLayer, t.layer, c.below[n].spec, parentMarks, Surfaced(fm, c.top, c.below[n], c.marks))
      && !s.below[n].isNop
    requires forall i :: 1 <= i < |s.below| ==> SameAt(s.records, t.records, s.below[i].mark)
    requires t.below == s.below[..|s.below| - 1] && t.top == s.below[|s.below| - 1] && t.outer == outer
    requires outerMarks == c.outer[..|c.outer| - 1] && parentMarks == c.outer[|c.outer| - 1]
    ensures StateFlat(t, CanvasRestore(fm, c))
  {
    var n := |s.below| - 1;
    StateNopsInherit(fm, s, c);
    hide Surfaced, Sees, StaysFlat, AllFlat, Flat;
    PopFlat(s, c, c.below[n], outer, parentLayer, outerMarks, parentMarks, t.records);
    BelowNopsInherit(s.below, s.top, c.below, c.top);
    DrawIntoFlat(s.below[..n], s.below[n], c.below[..n], c.below[n], outer, parentLayer, outerMarks, parentMarks,
                 t.records, t.layer, Surfaced(fm, c.top, c.below[n], c.marks));
  }

  lemma BelowNopsInherit(below: seq<SaveInfo>, top: SaveInfo, canvasBelow: seq<CanvasEntry>, e: CanvasEntry)
    requires NopsInherit(below, top, canvasBelow, e) && below != []
    ensures var n := |below| - 1;
      NopsInherit(below[..n], below[n], canvasBelow[..n], canvasBelow[n])
      && (n > 0 && canvasBelow[n].isLayer && !below[n].mark.isSaveLayer ==> below[n].isNop)
  {
  }

  lemma RestoreFlat(fx: FilterBounds, fm: FilterMeaning, s: BuilderState, c: Canvas)
    requires Sound(fx, fm) && Good(fm, s, c)
    ensures Good(fm, Restore(fx, s), CanvasRestore(fm, c))
  {
    RestoreSees(true, fx, fm, s, c);
    RestoreKeepsForm(fx, s);
    RestoreKeepsBooks(fx, s);
    StackHeights(s, c);
    if s.below == [] {
      hide StateFlat, Sees, WellFormed, Bookkept;
    } else if s.top.mark.isSaveLayer {
      RestoreLayerFlat(fx, fm, s, c);
      hide *;
      GoodFrom(fm, Restore(fx, s), CanvasRestore(fm, c));
    } else {
      RestorePlainFlat(fx, fm, s, c);
      hide *;
      GoodFrom(fm, Restore(fx, s), CanvasRestore(fm, c));
    }
  }

  lemma GoodFrom(fm: FilterMeaning, s: BuilderState, c: Canvas)
    requires Sees(true, fm, s, c) && WellFormed(s) && Bookkept(s) && StateFlat(s, c)
    ensures Good(fm, s, c)
  {
  }

  lemma {:induction false} RestoreToCountFlat(fx: FilterBounds, fm: FilterMeaning, s: BuilderState, c: Canvas,
                                              count: int)
    requires Sound(fx, fm) && Good(fm, s, c)
    ensures Good(fm, RestoreToCount(fx, s, count), CanvasRestoreToCount(fm, c, count))
    decreases |s.below|
  {
    StackHeights(s, c);
    if s.below != [] && |s.below| + 1 > count {
      hide Good, Restore, CanvasRestore, Sound;
      RestoreFlat(fx, fm, s, c);
      RestoreShrinks(fx, s);
      RestoreToCountFlat(fx, fm, Restore(fx, s), CanvasRestore(fm, c), count);
    }
  }

  // ------------------------------------------------------------ all runs

  lemma TransformFlat(fm: FilterMeaning, s: BuilderState, c: Canvas, t: TransformOp, id: nat)
    requires Good(fm, s, c)
    ensures StateFlat(Transform(s, t), CanvasStep(fm, c, TransformCall(t), id))
  {
    var e := c.top.(matrix := ConcatMatrix(c.top.matrix, t));
    var u := Transform(s, t);
    TransformShape(s, t);
    MoreRecordsFlat(s, c, u.records[|s.records|..]);
    assert s.records + u.records[|s.records|..] == u.records;
    hide AllFlat, Transform, Sees, WellFormed, Bookkept, ConcatMatrix;
    NewTopFlat(s.below, s.top, c.below, c.top, s.outer, s.layer, c.outer, c.marks, u.records, u.top, e);
  }

  lemma TransformShape(s: BuilderState, t: TransformOp)
    requires WellFormed(s)
    ensures var u := Transform(s, t);
      && u.below == s.below && u.outer == s.outer && u.layer == s.layer
      && |s.records| <= |u.records| && u.records[..|s.records|] == s.records
      && u.top.mark.isSaveLayer == s.top.mark.isSaveLayer && (s.top.mark.isSaveLayer ==> u.top.mark == s.top.mark)
  {
    hide ChangesMatrix, Nested, LayersMatch;
    LayerIsTriggered(s);
  }

  lemma ClipFlat(fm: FilterMeaning, s: BuilderState, c: Canvas, r: Rect, op: ClipOp, id: nat)
    requires Good(fm, s, c)
    ensures StateFlat(Clip(s, r, op), CanvasStep(fm, c, ClipCall(r, op), id))
  {
    var e := c.top.(clip := ClipPoints(c.top, r, op));
    var u := Clip(s, r, op);
    ClipShape(s, r, op);
    MoreRecordsFlat(s, c, u.records[|s.records|..]);
    assert s.records + u.records[|s.records|..] == u.records;
    hide AllFlat, Clip, Sees, WellFormed, Bookkept, ClipPoints;
    NewTopFlat(s.below, s.top, c.below, c.top, s.outer, s.layer, c.outer, c.marks, u.records, u.top, e);
  }

  lemma ClipShape(s: BuilderState, r: Rect, op: ClipOp)
    requires WellFormed(s)
    ensures var u := Clip(s, r, op);
      && u.below == s.below && u.outer == s.outer && u.layer == s.layer
      && |s.records| <= |u.records| && u.records[..|s.records|] == s.records
      && u.top.mark.isSaveLayer == s.top.mark.isSaveLayer && (s.top.mark.isSaveLayer ==> u.top.mark == s.top.mark)
  {
    hide ClipIsRedundant, CullIsEmpty, Tracker.ClipRect, Nested, LayersMatch;
    LayerIsTriggered(s);
  }

  lemma AttributeFlat(s: BuilderState, c: Canvas, a: Attribute)
    requires StateFlat(s, c)
    ensures StateFlat(SetAttribute(s, a), c.(paint := a.ApplyTo(c.paint)))
  {
    MoreRecordsFlat(s, c, [AttributeOp(a)]);
    hide AllFlat, Attribute.ApplyTo;
  }

  lemma StepFlat(fx: FilterBounds, fm: FilterMeaning, s: BuilderState, c: Canvas, call: Call)
    requires Sound(fx, fm) && Good(fm, s, c)
    ensures StateFlat(Step(fx, s, call), CanvasStep(fm, c, call, |s.records|))
  {
    hide WellFormed, Bookkept, Sound, Sees, StateFlat, SaveLayer, CanvasSaveLayer, Restore, CanvasRestore,
      RestoreToCount, CanvasRestoreToCount,
      Transform, Clip, DrawOp, DrawDisplayList, DrawMarks, ListMarks, SetAttribute, Save;
    match call
    case SetAttributeCall(a) => AttributeFlat(s, c, a);
    case SaveCall => SaveFlat(s, c);
    case SaveLayerCall(bounds, withPaint, backdrop) => SaveLayerFlat(fx, fm, s, c, bounds, withPaint, backdrop);
    case RestoreCall => RestoreFlat(fx, fm, s, c);
    case RestoreToCountCall(count) => RestoreToCountFlat(fx, fm, s, c, count);
    case TransformCall(t) => TransformFlat(fm, s, c, t, |s.records|);
    case ClipCall(r, op) => ClipFlat(fm, s, c, r, op, |s.records|);
    case DrawCall(d) => DrawGood(fx, fm, s, c, d);
    case DrawListCall(list, opacity) => ListGood(fm, s, c, list, opacity);
  }

  lemma StepGood(fx: FilterBounds, fm: FilterMeaning, s: BuilderState, c: Canvas, call: Call)
    requires Sound(fx, fm) && Good(fm, s, c)
    requires call == TransformCall(TransformReset) ==> c.top.matrix.IsInvertible()
    ensures Good(fm, Step(fx, s, call), CanvasStep(fm, c, call, |s.records|))
  {
    hide WellFormed, Bookkept, Sound, Sees, StateFlat, Step, CanvasStep, KeptStep;
    StepFlat(fx, fm, s, c, call);
    StepSees(true, fx, fm, s, c, call, true);
    KeepingAll(fm, c, call, |s.records|);
    StepKeepsForm(fx, s, call);
    StepKeepsBooks(fx, s, call);
  }

  lemma InitGood(fm: FilterMeaning, cull: Rect)
    ensures Good(fm, Init(cull), StartCanvas(cull))
  {
    InitSees(true, fm, cull);
    InitIsWellFormed(cull);
    NothingIsFlat(Init(cull).layer, StartCanvas(cull).top.spec);
    hide Sees, Flat, WellFormed, Bookkept, StartCanvas;
    InitStateFlat(cull);
  }

  lemma InitStateFlat(cull: Rect)
    requires Flat(Init(cull).layer, StartCanvas(cull).top.spec, iset{})
    ensures StateFlat(Init(cull), StartCanvas(cull))
  {
    hide Flat;
  }

  lemma {:induction false} RunGood(fx: FilterBounds, fm: FilterMeaning, cull: Rect, calls: seq<Call>)
    requires Sound(fx, fm) && ResetsInvertible(fx, fm, cull, calls)
    ensures Good(fm, Run(fx, cull, calls), CanvasRun(fx, fm, cull, calls))
  {
    if calls == [] {
      InitGood(fm, cull);
    } else {
      var init := calls[..|calls| - 1];
      InitResets(fx, fm, cull, calls);
      hide Good, Sound, ResetsInvertible, Step, CanvasStep;
      RunGood(fx, fm, cull, init);
      StepGood(fx, fm, Run(fx, cull, init), CanvasRun(fx, fm, cull, init), calls[|calls| - 1]);
    }
  }

  /** Every run is good, if the filters that it uses are sound. */
  lemma RunIsGood(fx: FilterBounds, fm: FilterMeaning, cull: Rect, calls: seq<Call>)
    requires FiltersAreSound(fx, fm, calls) && ResetsInvertible(fx, fm, cull, calls)
    ensures Good(UsedMeaning(fm, calls), Run(fx, cull, calls), CanvasRun(fx, fm, cull, calls))
  {
    UsedFiltersDecide(fx, fm, cull, calls);
    RunGood(fx, UsedMeaning(fm, calls), cull, calls);
    hide *;
  }

  // ------------------------------------------------------- what it is for

  /** When a run closes a layer and its record says that an opacity can be distributed,
      every point that can be seen belongs to one part of the layer, and that part can
      take the opacity over. */
  lemma OpacityCanBeDistributed(fx: FilterBounds, fm: FilterMeaning, cull: Rect, calls: seq<Call>)
    requires FiltersAreSound(fx, fm, calls) && ResetsInvertible(fx, fm, cull, calls)
    ensures var s, c := Run(fx, cull, calls), CanvasRun(fx, fm, cull, calls);
      var built, k := Restore(fx, s).records, s.top.mark.saveOffset;
      s.below != [] && s.top.mark.isSaveLayer ==>
        && k < |built| && built[k].SaveLayerRecord?
        && (built[k].options.canDistributeOpacity ==>
              forall m, n ::
                m in c.marks && n in c.marks && Seen(c.top.spec, m) && Seen(c.top.spec, n) && m.point == n.point ==>
                m.part == n.part && m.part.Compatible())
  {
    var s, c := Run(fx, cull, calls), CanvasRun(fx, fm, cull, calls);
    if s.below != [] && s.top.mark.isSaveLayer {
      RunIsGood(fx, fm, cull, calls);
      ClosesGood(fx, UsedMeaning(fm, calls), s, c);
    }
    hide *;
  }

  lemma ClosesGood(fx: FilterBounds, fm: FilterMeaning, s: BuilderState, c: Canvas)
    requires Good(fm, s, c) && s.below != [] && s.top.mark.isSaveLayer
    ensures var built, k := Restore(fx, s).records, s.top.mark.saveOffset;
      && k < |built| && built[k].SaveLayerRecord?
      && (built[k].options.canDistributeOpacity ==>
            forall m, n ::
              m in c.marks && n in c.marks && Seen(c.top.spec, m) && Seen(c.top.spec, n) && m.point == n.point ==>
              m.part == n.part && m.part.Compatible())
      && (forall m :: m in c.marks && Seen(c.top.spec, m) ==> built[k].bounds.Inside(InLayer(c.top.spec, m.point)))
  {
    BookkeptIsPaired(s);
    LayerIsTriggered(s);
    RestoreIsReady(s);
    LayerFacts(fm, s, c);
    hide Sees, WellFormed, Bookkept, StateFlat, AllFlat, Tracks, SpecOf, Restore, ContentBounds;
    SettledOptions(fx, s);
    var k := s.top.mark.saveOffset;
    var patched := PatchSave(s.records[k], |s.records|, s.depth - s.top.mark.saveDepth);
    forall m | m in c.marks && Seen(c.top.spec, m)
      ensures Restore(fx, s).records[k].bounds.Inside(InLayer(c.top.spec, m.point))
    {
      InCallerBounds(fm, c.below[|c.below| - 1], c.top.spec, m.point);
      ContentHolds(s.layer, c.top.spec, c.marks, patched, m);
    }
    hide MarksHeld, BoundsHoldAll;
  }

  lemma InCallerBounds(fm: FilterMeaning, parent: CanvasEntry, spec: LayerSpec, p: Point)
    requires spec == SpecOf(fm, parent, spec.filter, spec.effective, spec.part, spec.bounds) && p in spec.extent
    ensures spec.bounds.Some? ==> Within(spec.matrix, spec.bounds.value, p)
  {
  }

  /** What a restore writes into the record of its layer. */
  lemma SettledOptions(fx: FilterBounds, s: BuilderState)
    requires s.below != [] && !s.top.mark.deferred && s.top.mark.isSaveLayer && NamesItsSave(s) && s.outer != []
    ensures var k := s.top.mark.saveOffset;
      var built := Restore(fx, s).records;
      && k < |built| && built[k].SaveLayerRecord?
      && built[k].options.canDistributeOpacity ==
           (s.records[k].options.canDistributeOpacity || s.layer.IsGroupOpacityCompatible())
      && built[k].bounds == ContentBounds(s.layer, PatchSave(s.records[k], |s.records|, s.depth - s.top.mark.saveDepth))
  {
    hide TransferLayerBounds, ContentBounds, ContentIsClipped, DepthCost;
  }

  /** And the bounds of its record hold every point of it that can be seen. */
  lemma LayerBoundsHoldContent(fx: FilterBounds, fm: FilterMeaning, cull: Rect, calls: seq<Call>, m: Mark)
    requires FiltersAreSound(fx, fm, calls) && ResetsInvertible(fx, fm, cull, calls)
    ensures var s, c := Run(fx, cull, calls), CanvasRun(fx, fm, cull, calls);
      var built, k := Restore(fx, s).records, s.top.mark.saveOffset;
      s.below != [] && s.top.mark.isSaveLayer && m in c.marks && Seen(c.top.spec, m) ==>
        k < |built| && built[k].SaveLayerRecord? && built[k].bounds.Inside(InLayer(c.top.spec, m.point))
  {
    var s, c := Run(fx, cull, calls), CanvasRun(fx, fm, cull, calls);
    if s.below != [] && s.top.mark.isSaveLayer {
      RunIsGood(fx, fm, cull, calls);
      ClosesGood(fx, UsedMeaning(fm, calls), s, c);
    }
    hide Run, CanvasRun, Restore;
  }
}
