/**
 Layers that can distribute an opacity: everything a layer can show lies in its bounds,
 and in a layer marked `can_distribute_opacity` each point belongs to a single part that
 can take the opacity over, so that every part can be drawn with it instead of the layer.
 */
module DisplayListOpacity {
  import opened Options
  import opened DisplayListTypes
  import opened DisplayListBuilderSpec
  import opened DisplayListGeometry
  import opened DisplayListCanvas
  import opened DisplayListVisibility

  // --------------------------------------------------- one layer's content

  predicate Seen(spec: LayerSpec, m: Mark) {
    m.point in spec.relevant && spec.matrix.IsInvertible()
  }

  function InLayer(spec: LayerSpec, p: Point): Point
    requires spec.matrix.IsInvertible()
  {
    spec.matrix.Invert().Apply(p)
  }

  predicate Holds(a: Accumulation, p: Point) {
    a.bounds.Some? && a.bounds.value.Inside(p)
  }

  /** All that can be seen lies in the local bounds. */
  ghost predicate BoundsHoldAll(layer: LayerInfo, spec: LayerSpec, marks: iset<Mark>) {
    forall m :: m in marks && Seen(spec, m) ==> Holds(layer.localBounds, InLayer(spec, m.point))
  }

  /** Unless an overlap was detected, no point belongs to two parts. */
  ghost predicate PartsAreDisjoint(layer: LayerInfo, spec: LayerSpec, marks: iset<Mark>) {
    !layer.localBounds.overlaps ==>
      forall m, n ::
        m in marks && n in marks && Seen(spec, m) && Seen(spec, n) && m.point == n.point ==> m.part == n.part
  }

  /** Unless something incompatible was detected, all that can be seen is compatible, and so
      is the layer itself, which then has no filter. */
  ghost predicate PartsAreCompatible(layer: LayerInfo, spec: LayerSpec, marks: iset<Mark>) {
    !layer.flags.opacityIncompatible ==>
      && spec.part.Compatible() && spec.filter.None?
      && forall m :: m in marks && Seen(spec, m) ==> m.part.Compatible()
  }

  ghost predicate Flat(layer: LayerInfo, spec: LayerSpec, marks: iset<Mark>) {
    BoundsHoldAll(layer, spec, marks) && PartsAreDisjoint(layer, spec, marks) && PartsAreCompatible(layer, spec, marks)
  }

  // ------------------------------------------------ the accumulation rect

  /** Adding a rectangle keeps every point held, and holds those of the rectangle. */
  lemma AddHolds(a: Accumulation, r: Rect, p: Point)
    ensures Holds(a, p) ==> Holds(a.Add(r), p)
    ensures r.Inside(p) ==> Holds(a.Add(r), p)
    ensures a.overlaps ==> a.Add(r).overlaps
  {
  }

  /** If no overlap is detected, the new rectangle has no point in common with the bounds. */
  lemma AddIsDisjoint(a: Accumulation, r: Rect, p: Point)
    requires !a.Add(r).overlaps && r.Inside(p)
    ensures !Holds(a, p)
  {
  }

  /** The marks of one part, held by one rectangle. */
  ghost predicate PartIn(spec: LayerSpec, more: iset<Mark>, r: Rect, part: Part) {
    forall m :: m in more && Seen(spec, m) ==> m.part == part && r.Inside(InLayer(spec, m.point))
  }

  lemma AddedPartIsFlat(layer: LayerInfo, spec: LayerSpec, marks: iset<Mark>, more: iset<Mark>, r: Rect, part: Part,
                        after: LayerInfo)
    requires Flat(layer, spec, marks) && PartIn(spec, more, r, part)
    requires after.localBounds == layer.localBounds.Add(r)
    requires layer.flags.opacityIncompatible || !part.Compatible() ==> after.flags.opacityIncompatible
    ensures Flat(after, spec, marks + more)
  {
    hide Seen, InLayer, Accumulation.Add, Holds;
    hide Rect.Inside;
    AddHolds(layer.localBounds, r, Point(0.0, 0.0));
    forall p {:trigger r.Inside(p)} | !after.localBounds.overlaps && r.Inside(p)
      ensures !Holds(layer.localBounds, p)
    {
      AddIsDisjoint(layer.localBounds, r, p);
    }
    forall p
      ensures Holds(layer.localBounds, p) || r.Inside(p) ==> Holds(after.localBounds, p)
    {
      AddHolds(layer.localBounds, r, p);
    }
    NewPartsAreDisjoint(layer, spec, marks, more, r, part, after);
    hide PartsAreDisjoint;
  }

  lemma NewPartsAreDisjoint(layer: LayerInfo, spec: LayerSpec, marks: iset<Mark>, more: iset<Mark>, r: Rect, part: Part,
                            after: LayerInfo)
    requires BoundsHoldAll(layer, spec, marks) && PartsAreDisjoint(layer, spec, marks) && PartIn(spec, more, r, part)
    requires layer.localBounds.overlaps ==> after.localBounds.overlaps
    requires forall p {:trigger r.Inside(p)} ::
      !after.localBounds.overlaps && r.Inside(p) ==> !Holds(layer.localBounds, p)
    ensures PartsAreDisjoint(after, spec, marks + more)
  {
    hide Rect.Inside, Holds;
    if !after.localBounds.overlaps {
      forall m, n | m in marks + more && n in marks + more && Seen(spec, m) && Seen(spec, n) && m.point == n.point
        ensures m.part == n.part
      {
        assert m in more ==> r.Inside(InLayer(spec, m.point));
        assert n in more ==> r.Inside(InLayer(spec, n.point));
        assert m in marks ==> Holds(layer.localBounds, InLayer(spec, m.point));
        assert n in marks ==> Holds(layer.localBounds, InLayer(spec, n.point));
      }
    }
  }

  /** Marks that cannot be seen change nothing, and neither do more bounds or flags. */
  lemma UnseenPartIsFlat(layer: LayerInfo, spec: LayerSpec, marks: iset<Mark>, more: iset<Mark>, after: LayerInfo)
    requires Flat(layer, spec, marks) && forall m :: m in more ==> !Seen(spec, m)
    requires after.localBounds == layer.localBounds
    requires layer.flags.opacityIncompatible ==> after.flags.opacityIncompatible
    ensures Flat(after, spec, marks + more)
  {
    hide Seen, Holds;
  }

  /** The same parts, with more bounds. */
  lemma WiderIsFlat(layer: LayerInfo, spec: LayerSpec, marks: iset<Mark>, r: Rect, after: LayerInfo)
    requires Flat(layer, spec, marks) && after.localBounds == layer.localBounds.Add(r)
    requires layer.flags.opacityIncompatible ==> after.flags.opacityIncompatible
    ensures Flat(after, spec, marks)
  {
    NoPart(spec, r);
    AddedPartIsFlat(layer, spec, marks, iset{}, r, LayerPart(DEFAULT_PAINT, false, 0, true), after);
    assert marks + iset{} == marks;
  }

  lemma NoPart(spec: LayerSpec, r: Rect)
    ensures PartIn(spec, iset{}, r, LayerPart(DEFAULT_PAINT, false, 0, true))
  {
  }

  // --------------------------------------------------------- all layers

  /** The record of an open layer holds the bounds that its caller gave, and no promise yet. */
  predicate KnowsBounds(ops: seq<Record>, k: nat, bounds: Option<Rect>) {
    && k < |ops| && ops[k].SaveLayerRecord? && !ops[k].options.canDistributeOpacity
    && (ops[k].options.boundsFromCaller ==> bounds == Some(ops[k].bounds))
  }

  ghost predicate AllFlat(below: seq<SaveInfo>, top: SaveInfo, canvasBelow: seq<CanvasEntry>, e: CanvasEntry,
                          outer: seq<LayerInfo>, layer: LayerInfo, outerMarks: seq<iset<Mark>>, marks: iset<Mark>,
                          ops: seq<Record>)
    decreases |below|
  {
    && |canvasBelow| == |below|
    && if below == [] then
         e.isLayer && Flat(layer, e.spec, marks)
       else
         var n := |below| - 1;
         if !e.isLayer then
           && e.spec == canvasBelow[n].spec && !top.mark.isSaveLayer
           && AllFlat(below[..n], below[n], canvasBelow[..n], canvasBelow[n], outer, layer, outerMarks, marks, ops)
         else if top.mark.isSaveLayer then
           && Flat(layer, e.spec, marks) && KnowsBounds(ops, top.mark.saveOffset, e.spec.bounds)
           && outer != [] && outerMarks != []
           && (e.spec.part.Compatible() || outer[|outer| - 1].flags.opacityIncompatible)
           && AllFlat(below[..n], below[n], canvasBelow[..n], canvasBelow[n], outer[..|outer| - 1], outer[|outer| - 1],
                      outerMarks[..|outerMarks| - 1], outerMarks[|outerMarks| - 1], ops)
         else
           && outerMarks != []
           && AllFlat(below[..n], below[n], canvasBelow[..n], canvasBelow[n], outer, layer,
                      outerMarks[..|outerMarks| - 1], outerMarks[|outerMarks| - 1], ops)
  }

  ghost predicate StateFlat(s: BuilderState, c: Canvas) {
    AllFlat(s.below, s.top, c.below, c.top, s.outer, s.layer, c.outer, c.marks, s.records)
  }

  /** Other records, as long as those of the open layers stay. */
  predicate SameAt(ops: seq<Record>, other: seq<Record>, mark: SaveMark) {
    mark.isSaveLayer && mark.saveOffset < |ops| ==>
      mark.saveOffset < |other| && ops[mark.saveOffset] == other[mark.saveOffset]
  }

  lemma {:induction false} OtherRecordsFlat(below: seq<SaveInfo>, top: SaveInfo, canvasBelow: seq<CanvasEntry>,
                                            e: CanvasEntry, outer: seq<LayerInfo>, layer: LayerInfo,
                                            outerMarks: seq<iset<Mark>>, marks: iset<Mark>, ops: seq<Record>,
                                            other: seq<Record>)
    requires AllFlat(below, top, canvasBelow, e, outer, layer, outerMarks, marks, ops)
    requires below != [] ==> SameAt(ops, other, top.mark)
    requires forall i :: 1 <= i < |below| ==> SameAt(ops, other, below[i].mark)
    ensures AllFlat(below, top, canvasBelow, e, outer, layer, outerMarks, marks, other)
    decreases |below|
  {
    hide Flat;
    if below != [] {
      var n := |below| - 1;
      assert n >= 1 ==> SameAt(ops, other, below[n].mark);
      if !e.isLayer {
        OtherRecordsFlat(below[..n], below[n], canvasBelow[..n], canvasBelow[n], outer, layer, outerMarks, marks, ops,
                         other);
      } else if top.mark.isSaveLayer {
        OtherRecordsFlat(below[..n], below[n], canvasBelow[..n], canvasBelow[n], outer[..|outer| - 1],
                         outer[|outer| - 1], outerMarks[..|outerMarks| - 1], outerMarks[|outerMarks| - 1], ops, other);
      } else {
        OtherRecordsFlat(below[..n], below[n], canvasBelow[..n], canvasBelow[n], outer, layer,
                         outerMarks[..|outerMarks| - 1], outerMarks[|outerMarks| - 1], ops, other);
      }
    }
  }

  lemma MoreRecordsFlat(s: BuilderState, c: Canvas, more: seq<Record>)
    requires StateFlat(s, c)
    ensures AllFlat(s.below, s.top, c.below, c.top, s.outer, s.layer, c.outer, c.marks, s.records + more)
  {
    OtherRecordsFlat(s.below, s.top, c.below, c.top, s.outer, s.layer, c.outer, c.marks, s.records, s.records + more);
  }

  /** What a drawing may do to the layer it is drawn into, for all layers at once: the
      flat layer of the current content is replaced by a flat one. */
  ghost predicate StaysFlat(layer: LayerInfo, after: LayerInfo, spec: LayerSpec, marks: iset<Mark>, more: iset<Mark>) {
    && (Flat(layer, spec, marks) ==> Flat(after, spec, marks + more))
    && (layer.flags.opacityIncompatible ==> after.flags.opacityIncompatible)
  }

  lemma {:induction false} DrawIntoFlat(below: seq<SaveInfo>, top: SaveInfo, canvasBelow: seq<CanvasEntry>,
                                        e: CanvasEntry, outer: seq<LayerInfo>, layer: LayerInfo,
                                        outerMarks: seq<iset<Mark>>, marks: iset<Mark>, ops: seq<Record>,
                                        after: LayerInfo, more: iset<Mark>)
    requires AllFlat(below, top, canvasBelow, e, outer, layer, outerMarks, marks, ops)
    requires StaysFlat(layer, after, e.spec, marks, more)
    requires e.isLayer && !top.mark.isSaveLayer && below != [] ==> after == layer
    requires top.isNop ==> after == layer
    requires NopsInherit(below, top, canvasBelow, e)
    ensures AllFlat(below, top, canvasBelow, e, outer, after, outerMarks, marks + more, ops)
    decreases |below|
  {
    hide Flat, KnowsBounds;
    if below != [] {
      var n := |below| - 1;
      if !e.isLayer {
        DrawIntoFlat(below[..n], below[n], canvasBelow[..n], canvasBelow[n], outer, layer, outerMarks, marks, ops,
                     after, more);
      }
    }
  }

  /** A nop entry makes those above it nops, and a dropped layer is one. */
  ghost predicate NopsInherit(below: seq<SaveInfo>, top: SaveInfo, canvasBelow: seq<CanvasEntry>, e: CanvasEntry)
    decreases |below|
  {
    && |canvasBelow| == |below|
    && (below != [] ==>
          var n := |below| - 1;
          && (e.isLayer && !top.mark.isSaveLayer ==> top.isNop)
          && (!e.isLayer && below[n].isNop ==> top.isNop)
          && NopsInherit(below[..n], below[n], canvasBelow[..n], canvasBelow[n]))
  }

  lemma {:induction false} HeldNopsInherit(fm: FilterMeaning, below: seq<SaveInfo>, top: SaveInfo,
                                           canvasBelow: seq<CanvasEntry>, e: CanvasEntry, outer: seq<LayerInfo>,
                                           layer: LayerInfo, outerMarks: seq<iset<Mark>>, marks: iset<Mark>,
                                           rtree: RTreeData, hi: nat)
    requires Held(true, fm, below, top, canvasBelow, e, outer, layer, outerMarks, marks, rtree, hi)
    ensures NopsInherit(below, top, canvasBelow, e)
    decreases |below|
  {
    hide Tracks, MarksHeld, SpecOf;
    if below != [] {
      var n := |below| - 1;
      if !e.isLayer {
        HeldNopsInherit(fm, below[..n], below[n], canvasBelow[..n], canvasBelow[n], outer, layer, outerMarks, marks,
                        rtree, hi);
      } else if top.mark.isSaveLayer {
        HeldNopsInherit(fm, below[..n], below[n], canvasBelow[..n], canvasBelow[n], outer[..|outer| - 1],
                        outer[|outer| - 1], outerMarks[..|outerMarks| - 1], outerMarks[|outerMarks| - 1], rtree,
                        layer.rtreeStart);
      } else {
        HeldNopsInherit(fm, below[..n], below[n], canvasBelow[..n], canvasBelow[n], outer, layer,
                        outerMarks[..|outerMarks| - 1], outerMarks[|outerMarks| - 1], rtree, hi);
      }
    }
  }

  lemma NewTopFlat(below: seq<SaveInfo>, top: SaveInfo, canvasBelow: seq<CanvasEntry>, e: CanvasEntry,
                   outer: seq<LayerInfo>, layer: LayerInfo, outerMarks: seq<iset<Mark>>, marks: iset<Mark>,
                   ops: seq<Record>, newTop: SaveInfo, newEntry: CanvasEntry)
    requires AllFlat(below, top, canvasBelow, e, outer, layer, outerMarks, marks, ops)
    requires newTop.mark.isSaveLayer == top.mark.isSaveLayer && (top.mark.isSaveLayer ==> newTop.mark == top.mark)
    requires newEntry.isLayer == e.isLayer && newEntry.spec == e.spec
    ensures AllFlat(below, newTop, canvasBelow, newEntry, outer, layer, outerMarks, marks, ops)
  {
    hide Flat, KnowsBounds;
  }

  // ----------------------------------------------------------- drawing

  /** Marks made by one part under the top entry; the local rectangle holds what is seen. */
  lemma PaintedPartIn(info: SaveInfo, e: CanvasEntry, more: iset<Mark>, r: Rect, part: Part)
    requires forall m :: m in more ==> Paintable(e, m.point) && m.part == part
    requires forall m ::
      m in more && Shows(e, m.point) && e.spec.matrix.IsInvertible() ==> r.Inside(e.spec.matrix.Invert().Apply(m.point))
    ensures PartIn(e.spec, more, r, part)
  {
    hide Matrix.IsInvertible, Matrix.Invert, Matrix.Apply, Rect.Inside;
    forall m | m in more && Seen(e.spec, m)
      ensures m.part == part && r.Inside(InLayer(e.spec, m.point))
    {
      assert Paintable(e, m.point);
      assert Shows(e, m.point);
    }
  }

  lemma NopMarksUnseen(info: SaveInfo, e: CanvasEntry, more: iset<Mark>)
    requires Tracks(true, info, e) && info.isNop
    requires forall m :: m in more ==> Paintable(e, m.point)
    ensures forall m :: m in more ==> !Seen(e.spec, m)
  {
    hide Matrix.IsInvertible, Matrix.Times;
    forall m | m in more
      ensures !Seen(e.spec, m)
    {
      assert Paintable(e, m.point);
      assert !Shows(e, m.point) || !e.spec.matrix.IsInvertible();
    }
  }

  /** An unbounded drawing keeps its layer flat. */
  lemma UnboundedStaysFlat(layer: LayerInfo, rtree: RTreeData, info: SaveInfo, e: CanvasEntry, id: nat,
                           marks: iset<Mark>, more: iset<Mark>, part: Part)
    requires Tracks(true, info, e) && !info.isNop
    requires forall m :: m in more ==> Paintable(e, m.point) && m.part == part
    requires layer.flags.opacityIncompatible || part.Compatible() || more == iset{}
    ensures StaysFlat(layer, AccumulateUnbounded(layer, rtree, info, id).layer, e.spec, marks, more)
  {
    var local := info.layer.MapAndClip(info.global.LocalCullCoverage());
    var after := AccumulateUnbounded(layer, rtree, info, id).layer;
    forall m | m in more && Shows(e, m.point) && e.spec.matrix.IsInvertible()
      ensures local.Some? && !info.global.cull.IsEmpty() && local.value.Inside(e.spec.matrix.Invert().Apply(m.point))
    {
      assert Paintable(e, m.point);
      FloodHolds(true, info, e, m.point);
      InsideIsSolid(info.global.cull, m.point);
    }
    UnboundedLayer(layer, rtree, info, id);
    hide Tracks, Flat, Tracker.MapAndClip, Tracker.LocalCullCoverage, AccumulateUnbounded, Matrix.Invert, Matrix.Apply,
      Matrix.IsInvertible, Rect.Inside, Rect.IsEmpty;
    if Flat(layer, e.spec, marks) {
      if local.Some? && !info.global.cull.IsEmpty() {
        PaintedPartIn(info, e, more, local.value, part);
        CompatibleOrNone(layer, e.spec, marks, more, local.value, part, after);
      } else {
        UnshownUnseen(e, more);
        UnseenPartIsFlat(layer, e.spec, marks, more, after);
      }
    }
  }

  lemma UnshownUnseen(e: CanvasEntry, more: iset<Mark>)
    requires forall m :: m in more ==> Paintable(e, m.point)
    requires forall m :: m in more ==> !(Shows(e, m.point) && e.spec.matrix.IsInvertible())
    ensures forall m :: m in more ==> !Seen(e.spec, m)
  {
    hide Matrix.IsInvertible;
    forall m | m in more
      ensures !Seen(e.spec, m)
    {
      assert Paintable(e, m.point);
      assert !(Shows(e, m.point) && e.spec.matrix.IsInvertible());
    }
  }

  lemma CompatibleOrNone(layer: LayerInfo, spec: LayerSpec, marks: iset<Mark>, more: iset<Mark>, r: Rect, part: Part,
                         after: LayerInfo)
    requires Flat(layer, spec, marks) && PartIn(spec, more, r, part)
    requires after.localBounds == layer.localBounds.Add(r)
    requires after.flags.opacityIncompatible == layer.flags.opacityIncompatible
    requires layer.flags.opacityIncompatible || part.Compatible() || more == iset{}
    ensures Flat(after, spec, marks + more)
  {
    hide Flat, PartIn;
    if layer.flags.opacityIncompatible || part.Compatible() {
      AddedPartIsFlat(layer, spec, marks, more, r, part, after);
    } else {
      WiderIsFlat(layer, spec, marks, r, after);
      assert marks + more == marks;
    }
  }

  lemma UnboundedLayer(layer: LayerInfo, rtree: RTreeData, info: SaveInfo, id: nat)
    ensures var after := AccumulateUnbounded(layer, rtree, info, id).layer;
      var local := info.layer.MapAndClip(info.global.LocalCullCoverage());
      && after.flags.opacityIncompatible == layer.flags.opacityIncompatible
      && after.localBounds ==
           if local.Some? && !info.global.cull.IsEmpty() then layer.localBounds.Add(local.value) else layer.localBounds
  {
    hide Tracker.MapAndClip, Tracker.LocalCullCoverage, Accumulation.Add;
  }

  /** A bounded drawing keeps its layer flat. */
  lemma BoundedStaysFlat(layer: LayerInfo, rtree: RTreeData, info: SaveInfo, e: CanvasEntry, id: nat, r: Rect,
                         marks: iset<Mark>, more: iset<Mark>, part: Part)
    requires Tracks(true, info, e) && !info.isNop
    requires forall m :: m in more ==> Paintable(e, m.point) && m.part == part && Within(e.matrix, r, m.point)
    requires layer.flags.opacityIncompatible || part.Compatible()
    ensures StaysFlat(layer, AccumulateBounds(layer, rtree, info, id, r).layer, e.spec, marks, more)
  {
    var global, local := info.global.MapAndClip(r), info.layer.MapAndClip(r);
    var after := AccumulateBounds(layer, rtree, info, id, r).layer;
    forall m | m in more && Shows(e, m.point) && e.spec.matrix.IsInvertible()
      ensures !r.IsEmpty() && global.Some? && local.Some? && local.value.Inside(e.spec.matrix.Invert().Apply(m.point))
    {
      BoundsHold(true, info, e, r, m.point);
      WithinIsInvertible(e.matrix, r, m.point);
    }
    hide Tracks, Flat, Tracker.MapAndClip, Matrix.Invert, Matrix.Apply, Matrix.IsInvertible, Rect.Inside, Rect.IsEmpty,
      Within, Accumulation.Add;
    if Flat(layer, e.spec, marks) {
      if !r.IsEmpty() && global.Some? && local.Some? {
        PaintedPartIn(info, e, more, local.value, part);
        CompatibleOrNone(layer, e.spec, marks, more, local.value, part, after);
      } else {
        UnshownUnseen(e, more);
        UnseenPartIsFlat(layer, e.spec, marks, more, after);
      }
    }
  }

  // The flag of an incompatible drawing is set after its bounds are added; setting it
  // first gives the same layer.

  function Flagged(layer: LayerInfo, compatible: bool): LayerInfo {
    layer.UpdateOpacityCompatibility(compatible)
  }

  lemma FlaggingCommutes(layer: LayerInfo, rtree: RTreeData, info: SaveInfo, id: nat, r: Rect, compatible: bool)
    ensures Flagged(AccumulateUnbounded(layer, rtree, info, id).layer, compatible)
         == AccumulateUnbounded(Flagged(layer, compatible), rtree, info, id).layer
    ensures Flagged(AccumulateBounds(layer, rtree, info, id, r).layer, compatible)
         == AccumulateBounds(Flagged(layer, compatible), rtree, info, id, r).layer
  {
    hide Tracker.MapAndClip, Tracker.LocalCullCoverage, Accumulation.Add;
  }

  lemma FlaggedIsFlat(layer: LayerInfo, spec: LayerSpec, marks: iset<Mark>, compatible: bool)
    requires Flat(layer, spec, marks)
    ensures Flat(Flagged(layer, compatible), spec, marks)
  {
  }

  /** Only the local bounds and the flag of incompatible parts decide whether a layer is flat. */
  lemma FlatByBounds(a: LayerInfo, b: LayerInfo, spec: LayerSpec, marks: iset<Mark>)
    requires Flat(a, spec, marks) && a.localBounds == b.localBounds
    requires a.flags.opacityIncompatible == b.flags.opacityIncompatible
    ensures Flat(b, spec, marks)
  {
  }
}
