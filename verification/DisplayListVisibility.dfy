/**
 The r-tree never loses a visible pixel: whatever a drawing may change on the surface,
 through all clips, layers and filters above it, lies in a rectangle that the r-tree
 holds under the index of its record.
 */
module DisplayListVisibility {
  import opened DisplayListTypes
  import opened DisplayListPaint
  import opened DisplayListBuilderSpec
  import opened DisplayListRTree
  import opened DisplayListGeometry
  import opened DisplayListCanvas

  // ------------------------------------------------ one entry of the stacks

  /** Nothing drawn here can be seen. */
  ghost predicate Hidden(e: CanvasEntry) {
    !e.spec.matrix.IsInvertible() || forall p :: !Shows(e, p)
  }

  /** The layer's own matrix still leads from the layer to the device: always, as long as
      no matrix is reset while it is singular, and otherwise wherever it is invertible. */
  predicate OwnSpace(strict: bool, info: SaveInfo) {
    strict || info.layer.matrix.IsInvertible()
  }

  ghost predicate CullsHold(strict: bool, info: SaveInfo, e: CanvasEntry) {
    forall p :: Shows(e, p) ==>
      && info.global.cull.Inside(p)
      && (OwnSpace(strict, info) && e.spec.matrix.IsInvertible() ==>
            info.layer.cull.Inside(e.spec.matrix.Invert().Apply(p)))
  }

  ghost predicate LiveTracks(strict: bool, info: SaveInfo, e: CanvasEntry) {
    && !info.layer.cull.IsEmpty()
    && (OwnSpace(strict, info) ==> e.matrix == e.spec.matrix.Times(info.layer.matrix))
    && CullsHold(strict, info, e)
  }

  /** The matrices are the canvas's, and the two cull boxes hold what can be seen. A run
      is `strict` when no matrix is reset while it is singular; then nothing at all can be
      seen in a nop entry, or under a singular matrix. */
  ghost predicate Tracks(strict: bool, info: SaveInfo, e: CanvasEntry) {
    && info.global.matrix == e.matrix
    && (strict && e.matrix.IsInvertible() ==> e.spec.matrix.IsInvertible())
    && (if info.isNop then strict ==> Hidden(e) else LiveTracks(strict, info, e))
  }

  /** The entry records what is drawn under it: it is live, with a layer matrix that is
      invertible. */
  predicate Keeps(info: SaveInfo) {
    !info.isNop && info.layer.matrix.IsInvertible()
  }

  // -------------------------------------------------------- marks and rects

  predicate HeldAt(rtree: RTreeData, r: nat, m: Mark) {
    r < |rtree.rects| && r < |rtree.indices| && rtree.rects[r].Inside(m.point) && rtree.indices[r] == m.id
  }

  ghost predicate HeldBetween(rtree: RTreeData, lo: nat, hi: nat, m: Mark) {
    exists r :: lo <= r < hi && HeldAt(rtree, r, m)
  }

  /** Each mark of a layer that can be seen lies in one of the layer's rectangles. */
  ghost predicate MarksHeld(strict: bool, marks: iset<Mark>, spec: LayerSpec, rtree: RTreeData, lo: nat, hi: nat) {
    forall m :: m in marks ==>
      && (strict ==> spec.matrix.IsInvertible()) && m.point in spec.extent
      && (m.point in spec.relevant ==> HeldBetween(rtree, lo, hi, m))
  }

  /** The builder's stack against the canvas's, entry by entry. A canvas layer without a
      layer of the builder is one that the builder dropped, where nothing can be seen. */
  ghost predicate Held(strict: bool, fm: FilterMeaning, below: seq<SaveInfo>, top: SaveInfo,
                       canvasBelow: seq<CanvasEntry>, e: CanvasEntry, outer: seq<LayerInfo>, layer: LayerInfo,
                       outerMarks: seq<iset<Mark>>, marks: iset<Mark>, rtree: RTreeData, hi: nat)
    decreases |below|
  {
    && |canvasBelow| == |below|
    && Tracks(strict, top, e)
    && layer.rtreeStart <= hi
    && if below == [] then
         e.isLayer && outer == [] && outerMarks == [] && MarksHeld(strict, marks, e.spec, rtree, layer.rtreeStart, hi)
       else
         var n := |below| - 1;
         if !e.isLayer then
           && e.spec == canvasBelow[n].spec && !top.mark.isSaveLayer && (below[n].isNop ==> top.isNop)
           && Held(strict, fm, below[..n], below[n], canvasBelow[..n], canvasBelow[n], outer, layer, outerMarks, marks,
                   rtree, hi)
         else
           && e.spec == SpecOf(fm, canvasBelow[n], e.spec.filter, e.spec.effective, e.spec.part, e.spec.bounds)
             && outerMarks != []
           && if top.mark.isSaveLayer then
                && !below[n].isNop && e.spec.filter == layer.filter && outer != []
                && MarksHeld(strict, marks, e.spec, rtree, layer.rtreeStart, hi)
                && Held(strict, fm, below[..n], below[n], canvasBelow[..n], canvasBelow[n], outer[..|outer| - 1],
                        outer[|outer| - 1], outerMarks[..|outerMarks| - 1], outerMarks[|outerMarks| - 1], rtree,
                        layer.rtreeStart)
              else
                && top.isNop && MarksHeld(strict, marks, e.spec, rtree, hi, hi)
                && Held(strict, fm, below[..n], below[n], canvasBelow[..n], canvasBelow[n], outer, layer,
                        outerMarks[..|outerMarks| - 1], outerMarks[|outerMarks| - 1], rtree, hi)
  }

  ghost predicate Sees(strict: bool, fm: FilterMeaning, s: BuilderState, c: Canvas) {
    && c.paint == s.paint
    && Held(strict, fm, s.below, s.top, c.below, c.top, s.outer, s.layer, c.outer, c.marks, s.rtree, |s.rtree.rects|)
  }

  // --------------------------------------------------- the stacks as a whole

  ghost predicate SamePrefix(a: RTreeData, b: RTreeData, hi: nat) {
    && hi <= |a.rects| && hi <= |a.indices| && hi <= |b.rects| && hi <= |b.indices|
    && a.rects[..hi] == b.rects[..hi] && a.indices[..hi] == b.indices[..hi]
  }

  lemma MarksHeldPrefix(strict: bool, marks: iset<Mark>, spec: LayerSpec, a: RTreeData, b: RTreeData, lo: nat, hi: nat)
    requires MarksHeld(strict, marks, spec, a, lo, hi) && SamePrefix(a, b, hi)
    ensures MarksHeld(strict, marks, spec, b, lo, hi)
  {
    forall m | m in marks && m.point in spec.relevant
      ensures HeldBetween(b, lo, hi, m)
    {
      assert HeldBetween(a, lo, hi, m);
      var r :| lo <= r < hi && HeldAt(a, r, m);
      assert a.rects[r] == a.rects[..hi][r] && b.rects[r] == b.rects[..hi][r];
      assert a.indices[r] == a.indices[..hi][r] && b.indices[r] == b.indices[..hi][r];
      assert HeldAt(b, r, m);
    }
  }

  lemma PrefixShrinks(a: RTreeData, b: RTreeData, hi: nat, lo: nat)
    requires SamePrefix(a, b, hi) && lo <= hi
    ensures SamePrefix(a, b, lo)
  {
    assert a.rects[..lo] == a.rects[..hi][..lo] && b.rects[..lo] == b.rects[..hi][..lo];
    assert a.indices[..lo] == a.indices[..hi][..lo] && b.indices[..lo] == b.indices[..hi][..lo];
  }

  lemma {:induction false} HeldPrefix(strict: bool, fm: FilterMeaning, below: seq<SaveInfo>, top: SaveInfo,
                                      canvasBelow: seq<CanvasEntry>, e: CanvasEntry, outer: seq<LayerInfo>,
                                      layer: LayerInfo, outerMarks: seq<iset<Mark>>, marks: iset<Mark>, a: RTreeData,
                                      b: RTreeData, hi: nat)
    requires Held(strict, fm, below, top, canvasBelow, e, outer, layer, outerMarks, marks, a, hi)
    requires SamePrefix(a, b, hi)
    ensures Held(strict, fm, below, top, canvasBelow, e, outer, layer, outerMarks, marks, b, hi)
    decreases |below|
  {
    hide Tracks, MarksHeld, SpecOf, SamePrefix;
    var lo := if e.isLayer && !top.mark.isSaveLayer && below != [] then hi else layer.rtreeStart;
    if e.isLayer {
      MarksHeldPrefix(strict, marks, e.spec, a, b, lo, hi);
    }
    if below != [] {
      var n := |below| - 1;
      if !e.isLayer {
        HeldPrefix(strict, fm, below[..n], below[n], canvasBelow[..n], canvasBelow[n], outer, layer, outerMarks, marks,
                   a, b, hi);
      } else if top.mark.isSaveLayer {
        PrefixShrinks(a, b, hi, layer.rtreeStart);
        HeldPrefix(strict, fm, below[..n], below[n], canvasBelow[..n], canvasBelow[n], outer[..|outer| - 1],
                   outer[|outer| - 1], outerMarks[..|outerMarks| - 1], outerMarks[|outerMarks| - 1], a, b,
                   layer.rtreeStart);
      } else {
        HeldPrefix(strict, fm, below[..n], below[n], canvasBelow[..n], canvasBelow[n], outer, layer,
                   outerMarks[..|outerMarks| - 1], outerMarks[|outerMarks| - 1], a, b, hi);
      }
    }
  }

  lemma MoreMarksHeld(strict: bool, marks: iset<Mark>, more: iset<Mark>, spec: LayerSpec, a: RTreeData, b: RTreeData,
                      lo: nat, hi: nat, newHi: nat)
    requires MarksHeld(strict, marks, spec, a, lo, hi) && SamePrefix(a, b, hi) && lo <= hi <= newHi
    requires MarksHeld(strict, more, spec, b, hi, newHi)
    ensures MarksHeld(strict, marks + more, spec, b, lo, newHi)
  {
    MarksHeldPrefix(strict, marks, spec, a, b, lo, hi);
    forall m | m in marks + more && m.point in spec.relevant
      ensures HeldBetween(b, lo, newHi, m)
    {
      if m in marks {
        assert HeldBetween(b, lo, hi, m);
      } else {
        assert HeldBetween(b, hi, newHi, m);
      }
    }
  }

  predicate SameKey(a: LayerInfo, b: LayerInfo) {
    a.filter == b.filter && a.rtreeStart == b.rtreeStart
  }

  /** New marks in the current layer, with new rectangles that hold them. */
  lemma {:induction false} AddMarks(strict: bool, fm: FilterMeaning, below: seq<SaveInfo>, top: SaveInfo,
                                    canvasBelow: seq<CanvasEntry>, e: CanvasEntry, outer: seq<LayerInfo>,
                                    layer: LayerInfo, outerMarks: seq<iset<Mark>>, marks: iset<Mark>, a: RTreeData,
                                    hi: nat, newLayer: LayerInfo, more: iset<Mark>, b: RTreeData, newHi: nat)
    requires Held(strict, fm, below, top, canvasBelow, e, outer, layer, outerMarks, marks, a, hi)
    requires SamePrefix(a, b, hi) && hi <= newHi && SameKey(layer, newLayer)
    requires MarksHeld(strict, more, e.spec, b, hi, newHi)
    requires top.isNop ==> newHi == hi
    ensures Held(strict, fm, below, top, canvasBelow, e, outer, newLayer, outerMarks, marks + more, b, newHi)
    decreases |below|
  {
    hide Tracks, MarksHeld, SpecOf, SamePrefix;
    if below == [] {
      MoreMarksHeld(strict, marks, more, e.spec, a, b, layer.rtreeStart, hi, newHi);
    } else {
      var n := |below| - 1;
      if !e.isLayer {
        AddMarks(strict, fm, below[..n], below[n], canvasBelow[..n], canvasBelow[n], outer, layer, outerMarks, marks,
                 a, hi, newLayer, more, b, newHi);
      } else if top.mark.isSaveLayer {
        MoreMarksHeld(strict, marks, more, e.spec, a, b, layer.rtreeStart, hi, newHi);
        PrefixShrinks(a, b, hi, layer.rtreeStart);
        HeldPrefix(strict, fm, below[..n], below[n], canvasBelow[..n], canvasBelow[n], outer[..|outer| - 1],
                   outer[|outer| - 1], outerMarks[..|outerMarks| - 1], outerMarks[|outerMarks| - 1], a, b,
                   layer.rtreeStart);
      } else {
        MoreMarksHeld(strict, marks, more, e.spec, a, b, hi, hi, newHi);
        HeldPrefix(strict, fm, below[..n], below[n], canvasBelow[..n], canvasBelow[n], outer, layer,
                   outerMarks[..|outerMarks| - 1], outerMarks[|outerMarks| - 1], a, b, hi);
        SameKeyHeld(strict, fm, below[..n], below[n], canvasBelow[..n], canvasBelow[n], outer, layer,
                    outerMarks[..|outerMarks| - 1], outerMarks[|outerMarks| - 1], b, hi, newLayer);
      }
    }
  }

  lemma {:induction false} SameKeyHeld(strict: bool, fm: FilterMeaning, below: seq<SaveInfo>, top: SaveInfo,
                                       canvasBelow: seq<CanvasEntry>, e: CanvasEntry, outer: seq<LayerInfo>,
                                       layer: LayerInfo, outerMarks: seq<iset<Mark>>, marks: iset<Mark>,
                                       rtree: RTreeData, hi: nat, newLayer: LayerInfo)
    requires Held(strict, fm, below, top, canvasBelow, e, outer, layer, outerMarks, marks, rtree, hi)
    requires SameKey(layer, newLayer)
    ensures Held(strict, fm, below, top, canvasBelow, e, outer, newLayer, outerMarks, marks, rtree, hi)
    decreases |below|
  {
    hide Tracks, MarksHeld, SpecOf;
    if below != [] {
      var n := |below| - 1;
      if !e.isLayer {
        SameKeyHeld(strict, fm, below[..n], below[n], canvasBelow[..n], canvasBelow[n], outer, layer, outerMarks, marks,
                    rtree, hi, newLayer);
      } else if !top.mark.isSaveLayer {
        SameKeyHeld(strict, fm, below[..n], below[n], canvasBelow[..n], canvasBelow[n], outer, layer,
                    outerMarks[..|outerMarks| - 1], outerMarks[|outerMarks| - 1], rtree, hi, newLayer);
      }
    }
  }

  lemma NewTopHeld(strict: bool, fm: FilterMeaning, below: seq<SaveInfo>, top: SaveInfo, canvasBelow: seq<CanvasEntry>,
                   e: CanvasEntry, outer: seq<LayerInfo>, layer: LayerInfo, outerMarks: seq<iset<Mark>>,
                   marks: iset<Mark>, rtree: RTreeData, hi: nat, newTop: SaveInfo, newEntry: CanvasEntry)
    requires Held(strict, fm, below, top, canvasBelow, e, outer, layer, outerMarks, marks, rtree, hi)
    requires Tracks(strict, newTop, newEntry) && (top.isNop ==> newTop.isNop)
    requires newTop.mark.isSaveLayer == top.mark.isSaveLayer && newEntry.isLayer == e.isLayer && newEntry.spec == e.spec
    ensures Held(strict, fm, below, newTop, canvasBelow, newEntry, outer, layer, outerMarks, marks, rtree, hi)
  {
    hide Tracks, MarksHeld, SpecOf;
  }

  lemma TopTracks(strict: bool, fm: FilterMeaning, s: BuilderState, c: Canvas)
    requires Sees(strict, fm, s, c)
    ensures Tracks(strict, s.top, c.top) && |c.below| == |s.below|
  {
    hide Tracks, MarksHeld, SpecOf;
  }

  // ------------------------------------------------------- transforms

  lemma IdentityTransform(m: Matrix, t: TransformOp)
    requires !ChangesMatrix(t)
    ensures ConcatMatrix(m, t) == m
  {
  }

  lemma TransformedTracks(strict: bool, info: SaveInfo, e: CanvasEntry, t: TransformOp)
    requires Tracks(strict, info, e) && (strict && t.TransformReset? ==> e.matrix.IsInvertible())
    ensures Tracks(strict, Transformed(info, t), e.(matrix := ConcatMatrix(e.matrix, t)))
  {
    hide Matrix.Times, Matrix.Invert, Matrix.IsInvertible;
    var moved := e.(matrix := ConcatMatrix(e.matrix, t));
    assert forall p :: Shows(moved, p) <==> Shows(e, p);
    if !t.TransformReset? {
      TimesAssociates(e.spec.matrix, info.layer.matrix, MatrixOf(t));
      TimesIsInvertible(e.matrix, MatrixOf(t));
      TimesIsInvertible(info.layer.matrix, MatrixOf(t));
    } else if e.matrix.IsInvertible() {
      TimesAssociates(e.spec.matrix, info.layer.matrix, e.matrix.Invert());
      TimesInverseIsIdentity(e.matrix);
      TimesIsInvertible(info.layer.matrix, e.matrix.Invert());
    } else {
      SingularIsSingular();
    }
  }

  lemma SingularIsSingular()
    ensures !SINGULAR.IsInvertible()
  {
  }

  lemma TransformSees(strict: bool, fm: FilterMeaning, s: BuilderState, c: Canvas, t: TransformOp, id: nat)
    requires Sees(strict, fm, s, c) && (strict && t.TransformReset? ==> c.top.matrix.IsInvertible())
    ensures Sees(strict, fm, Transform(s, t), CanvasStep(fm, c, TransformCall(t), id))
  {
    TopTracks(strict, fm, s, c);
    if ChangesMatrix(t) {
      TransformedTracks(strict, s.top, c.top, t);
      TransformTop(strict, s, t);
      hide Held, Transform, Transformed, ConcatMatrix, Tracks;
      NewTopHeld(strict, fm, s.below, s.top, c.below, c.top, s.outer, s.layer, c.outer, c.marks, s.rtree,
                 |s.rtree.rects|, Transformed(s.top, t), c.top.(matrix := ConcatMatrix(c.top.matrix, t)));
      NewTopHeld(strict, fm, s.below, Transformed(s.top, t), c.below, c.top.(matrix := ConcatMatrix(c.top.matrix, t)),
                 s.outer, s.layer, c.outer, c.marks, s.rtree, |s.rtree.rects|, Transform(s, t).top,
                 c.top.(matrix := ConcatMatrix(c.top.matrix, t)));
      assert Sees(strict, fm, Transform(s, t), CanvasStep(fm, c, TransformCall(t), id));
    } else {
      IdentityTransform(c.top.matrix, t);
    }
  }

  /** What a recorded transform does to the parts of the state that matter here. */
  lemma TransformTop(strict: bool, s: BuilderState, t: TransformOp)
    requires ChangesMatrix(t)
    ensures var u := Transform(s, t);
      && u.below == s.below && u.outer == s.outer && u.layer == s.layer && u.rtree == s.rtree && u.paint == s.paint
      && u.top.mark.isSaveLayer == s.top.mark.isSaveLayer && u.top == Transformed(s.top, t).(mark := u.top.mark)
    ensures Transformed(s.top, t).isNop == s.top.isNop && Transformed(s.top, t).mark == s.top.mark
    ensures forall e :: Tracks(strict, Transformed(s.top, t), e) ==> Tracks(strict, Transform(s, t).top, e)
  {
    hide ChangesMatrix;
  }

  // -------------------------------------------------------------- clips

  /** A cull box that holds a point still holds it after a clip that lets it through. */
  lemma ClipKeepsPoint(t: Tracker, r: Rect, op: ClipOp, p: Point)
    requires t.cull.Inside(p)
    requires if op == Intersect then Within(t.matrix, r, p) else !WithinClosed(t.matrix, r, p)
    ensures t.ClipRect(r, op).cull.Inside(p)
  {
    hide Matrix.MapBounds, Matrix.Invert, Matrix.IsInvertible, Matrix.Apply, Rect.CutoutOrEmpty,
      Rect.IntersectionOrEmpty;
    if op == Intersect {
      MappedCovers(t.matrix, r, p);
      IntersectionCovers(t.cull, t.matrix.MapBounds(r), p);
    } else if !r.IsEmpty() {
      if t.matrix.IsInvertible() {
        MappedCovers(t.matrix, r, p);
        CutoutCovers(t.cull, t.matrix.MapBounds(r), p);
      } else {
        SingularFlattens(t.matrix, r);
        MappedIsOrdered(t.matrix, r);
        FlatCutsNothing(t.cull, t.matrix.MapBounds(r), p);
      }
    }
  }

  /** The same local rectangle, seen from the device and from the layer. */
  lemma WithinLayer(base: Matrix, m: Matrix, r: Rect, p: Point)
    requires base.IsInvertible()
    ensures Within(base.Times(m), r, p) <==> Within(m, r, base.Invert().Apply(p))
    ensures WithinClosed(base.Times(m), r, p) <==> WithinClosed(m, r, base.Invert().Apply(p))
  {
    hide Matrix.Times, Matrix.Invert, Matrix.IsInvertible, Matrix.Apply;
    TimesIsInvertible(base, m);
    if m.IsInvertible() {
      TimesInverts(base, m, p);
    }
  }

  lemma ClippedCulls(strict: bool, info: SaveInfo, e: CanvasEntry, r: Rect, op: ClipOp)
    requires Tracks(strict, info, e) && !info.isNop
    ensures CullsHold(strict, Clipped(info, r, op), e.(clip := ClipPoints(e, r, op)))
  {
    hide Matrix.Times, Matrix.Invert, Matrix.IsInvertible, Matrix.Apply, Within, WithinClosed, Tracker.ClipRect;
    ClipKeepsMatrices(info, r, op);
    var clipped := e.(clip := ClipPoints(e, r, op));
    forall p | Shows(clipped, p)
      ensures info.global.ClipRect(r, op).cull.Inside(p)
      ensures OwnSpace(strict, info) && e.spec.matrix.IsInvertible() ==>
        info.layer.ClipRect(r, op).cull.Inside(e.spec.matrix.Invert().Apply(p))
    {
      assert Shows(e, p);
      ClipKeepsPoint(info.global, r, op, p);
      if OwnSpace(strict, info) && e.spec.matrix.IsInvertible() {
        WithinLayer(e.spec.matrix, info.layer.matrix, r, p);
        ClipKeepsPoint(info.layer, r, op, e.spec.matrix.Invert().Apply(p));
      }
    }
  }

  lemma ClipKeepsMatrices(info: SaveInfo, r: Rect, op: ClipOp)
    ensures var t := Clipped(info, r, op);
      t.global.matrix == info.global.matrix && t.layer.matrix == info.layer.matrix && t.isNop == info.isNop
        && t.mark == info.mark
  {
  }

  /** When a cull box becomes empty, nothing drawn under the clip can be seen. */
  lemma EmptyCullHides(info: SaveInfo, e: CanvasEntry)
    requires CullsHold(true, info, e) && CullIsEmpty(info)
    ensures Hidden(e)
  {
  }

  lemma ClippedTracks(strict: bool, info: SaveInfo, e: CanvasEntry, r: Rect, op: ClipOp)
    requires Tracks(strict, info, e) && !info.isNop
    ensures var clipped := Clipped(info, r, op);
      var after := e.(clip := ClipPoints(e, r, op));
      if CullIsEmpty(clipped) then Tracks(strict, clipped.(isNop := true), after)
      else Tracks(strict, clipped.(hasValidClip := true), after)
  {
    hide Matrix.Times, Matrix.Invert, Matrix.IsInvertible, ClipPoints, Clipped;
    ClippedCulls(strict, info, e, r, op);
    ClipKeepsMatrices(info, r, op);
    var clipped := Clipped(info, r, op);
    var after := e.(clip := ClipPoints(e, r, op));
    if strict && CullIsEmpty(clipped) {
      EmptyCullHides(clipped, after);
    }
  }

  /** A smaller clip shows less, so the entry may stay as it is. */
  lemma NarrowerTracks(strict: bool, info: SaveInfo, e: CanvasEntry, r: Rect, op: ClipOp)
    requires Tracks(strict, info, e)
    ensures Tracks(strict, info, e.(clip := ClipPoints(e, r, op)))
  {
    var after := e.(clip := ClipPoints(e, r, op));
    hide Within, WithinClosed, Matrix.Times, Matrix.Invert, Matrix.IsInvertible;
    assert forall p :: Shows(after, p) ==> Shows(e, p);
  }

  lemma ClipSees(strict: bool, fm: FilterMeaning, s: BuilderState, c: Canvas, r: Rect, op: ClipOp, id: nat)
    requires Sees(strict, fm, s, c)
    ensures Sees(strict, fm, Clip(s, r, op), CanvasStep(fm, c, ClipCall(r, op), id))
  {
    TopTracks(strict, fm, s, c);
    var after := c.top.(clip := ClipPoints(c.top, r, op));
    NarrowerTracks(strict, s.top, c.top, r, op);
    if !s.top.isNop {
      ClippedTracks(strict, s.top, c.top, r, op);
    }
    ClipTop(strict, s, r, op, after);
    hide Held, Clip, Clipped, ClipPoints, Tracks;
    NewTopHeld(strict, fm, s.below, s.top, c.below, c.top, s.outer, s.layer, c.outer, c.marks, s.rtree, |s.rtree.rects|,
               Clip(s, r, op).top, after);
    assert Sees(strict, fm, Clip(s, r, op), CanvasStep(fm, c, ClipCall(r, op), id));
  }

  lemma ClipTop(strict: bool, s: BuilderState, r: Rect, op: ClipOp, e: CanvasEntry)
    requires Tracks(strict, s.top, e)
    requires !s.top.isNop ==>
      if CullIsEmpty(Clipped(s.top, r, op)) then Tracks(strict, Clipped(s.top, r, op).(isNop := true), e)
      else Tracks(strict, Clipped(s.top, r, op).(hasValidClip := true), e)
    ensures var u := Clip(s, r, op);
      && u.below == s.below && u.outer == s.outer && u.layer == s.layer && u.rtree == s.rtree && u.paint == s.paint
      && u.top.mark.isSaveLayer == s.top.mark.isSaveLayer && (s.top.isNop ==> u.top.isNop)
      && Tracks(strict, u.top, e)
  {
    hide ClipIsRedundant, CullIsEmpty, Tracker.ClipRect;
    if !s.top.isNop && !ClipIsRedundant(s.top, r, op) && !CullIsEmpty(Clipped(s.top, r, op)) {
      var t := Clipped(s.top, r, op).(hasValidClip := true);
      assert Clip(s, r, op).top == t.(mark := Clip(s, r, op).top.mark);
    }
  }

  // ----------------------------------------------------------- drawing

  /** Points that a drawing with local bounds `r` can show are within what the builder
      accumulates for them. */
  lemma BoundsHold(strict: bool, info: SaveInfo, e: CanvasEntry, r: Rect, p: Point)
    requires Tracks(strict, info, e) && !info.isNop && OwnSpace(strict, info) && Shows(e, p) && Within(e.matrix, r, p)
    ensures e.spec.matrix.IsInvertible()
    ensures info.global.MapAndClip(r).Some? && info.global.MapAndClip(r).value.Inside(p)
    ensures info.layer.MapAndClip(r).Some? && info.layer.MapAndClip(r).value.Inside(e.spec.matrix.Invert().Apply(p))
  {
    hide Matrix.Times, Matrix.Invert, Matrix.IsInvertible, Matrix.Apply, Matrix.MapBounds, Rect.Intersection;
    WithinIsInvertible(e.matrix, r, p);
    TimesIsInvertible(e.spec.matrix, info.layer.matrix);
    MappedCovers(e.matrix, r, p);
    IntersectionCovers(info.global.matrix.MapBounds(r), info.global.cull, p);
    var q := e.spec.matrix.Invert().Apply(p);
    WithinLayer(e.spec.matrix, info.layer.matrix, r, p);
    WithinIsInvertible(info.layer.matrix, r, q);
    MappedCovers(info.layer.matrix, r, q);
    IntersectionCovers(info.layer.matrix.MapBounds(r), info.layer.cull, q);
  }

  lemma WithinIsInvertible(m: Matrix, r: Rect, p: Point)
    requires Within(m, r, p)
    ensures m.IsInvertible() && !r.IsEmpty()
  {
  }

  /** A flood shows only within the device cull box, and is accumulated if it shows. */
  lemma FloodHolds(strict: bool, info: SaveInfo, e: CanvasEntry, p: Point)
    requires Tracks(strict, info, e) && !info.isNop && OwnSpace(strict, info) && Shows(e, p) && e.matrix.IsInvertible()
    ensures info.global.cull.Inside(p) && e.spec.matrix.IsInvertible()
    ensures var local := info.layer.MapAndClip(info.global.LocalCullCoverage());
      local.Some? && local.value.Inside(e.spec.matrix.Invert().Apply(p))
  {
    hide Matrix.Times, Matrix.Invert, Matrix.IsInvertible, Matrix.Apply, Matrix.MapBounds, Rect.Intersection;
    var m := e.matrix;
    var local := m.Invert().MapBounds(info.global.cull);
    InverseIsInvertible(m);
    MapInside(m.Invert(), info.global.cull, p);
    assert local.Inside(m.Invert().Apply(p));
    BoundsHold(strict, info, e, local, p);
    InsideIsSolid(info.global.cull, p);
  }

  lemma InsideIsSolid(r: Rect, p: Point)
    requires r.Inside(p)
    ensures !r.IsEmpty()
  {
  }

  lemma InverseIsInvertible(m: Matrix)
    requires m.IsInvertible()
    ensures m.Invert().IsInvertible()
  {
    NonzeroInverse(m.sx);
    NonzeroInverse(m.sy);
  }

  lemma NonzeroInverse(s: real)
    requires s != 0.0
    ensures 1.0 / s != 0.0
  {
    assert s * (1.0 / s) == 1.0;
  }

  /** The entry an accumulation adds holds `m`, when it adds one for a point it shows. */
  lemma UnboundedHolds(strict: bool, layer: LayerInfo, rtree: RTreeData, info: SaveInfo, e: CanvasEntry, id: nat,
                       m: Mark)
    requires |rtree.rects| == |rtree.indices|
    requires Tracks(strict, info, e) && !info.isNop && OwnSpace(strict, info)
    requires Shows(e, m.point) && e.matrix.IsInvertible() && m.id == id
    ensures var acc := AccumulateUnbounded(layer, rtree, info, id);
      acc.ok && HeldBetween(acc.rtree, |rtree.rects|, |acc.rtree.rects|, m)
  {
    FloodHolds(strict, info, e, m.point);
    hide Tracks, Shows, Tracker.MapAndClip, Tracker.LocalCullCoverage, LayerInfo.AddLocal, LayerInfo.MarkUnbounded;
    InsideIsSolid(info.global.cull, m.point);
    var acc := AccumulateUnbounded(layer, rtree, info, id);
    assert HeldAt(acc.rtree, |rtree.rects|, m);
  }

  lemma BoundsAccumulate(strict: bool, layer: LayerInfo, rtree: RTreeData, info: SaveInfo, e: CanvasEntry, id: nat,
                         r: Rect, m: Mark)
    requires |rtree.rects| == |rtree.indices|
    requires Tracks(strict, info, e) && !info.isNop && OwnSpace(strict, info)
    requires Shows(e, m.point) && Within(e.matrix, r, m.point) && m.id == id
    ensures var acc := AccumulateBounds(layer, rtree, info, id, r);
      acc.ok && HeldBetween(acc.rtree, |rtree.rects|, |acc.rtree.rects|, m)
  {
    BoundsHold(strict, info, e, r, m.point);
    WithinIsInvertible(e.matrix, r, m.point);
    hide Tracks, Shows, Tracker.MapAndClip, LayerInfo.AddLocal;
    var acc := AccumulateBounds(layer, rtree, info, id, r);
    assert HeldAt(acc.rtree, |rtree.rects|, m);
  }

  lemma ReachedIsAdjusted(fx: FilterBounds, fm: FilterMeaning, paint: Paint, flags: AttributeFlags, r: Rect, p: Point)
    requires paint.imageFilter.Some? ==> SoundFilter(fx, fm, paint.imageFilter.value)
    requires Reached(fm, paint, flags, r, p)
    ensures var bounds := AdjustBoundsForPaint(fx, paint, flags, r);
      bounds.Some? ==> bounds.value.Inside(p)
  {
    var q, blurred :| r.Inside(q) && Blurred(paint, flags, q, blurred) && FilteredTo(fm, paint, flags, blurred, p);
    var masked := if flags.appliesMaskFilter && paint.maskBlur.Some? then r.Expand(paint.maskBlur.value * 3.0) else r;
    assert masked.Inside(blurred);
    if flags.appliesImageFilter && paint.imageFilter.Some? {
      assert MapsLocal(fx, paint.imageFilter.value, masked, blurred, p);
    }
  }

  lemma BookkeptIsPaired(s: BuilderState)
    requires Bookkept(s)
    ensures |s.rtree.rects| == |s.rtree.indices|
  {
  }

  lemma DrawHolds(strict: bool, fx: FilterBounds, fm: FilterMeaning, s: BuilderState, e: CanvasEntry, d: Draw, m: Mark)
    requires DrawIsSound(fx, fm, s.paint, d) && |s.rtree.rects| == |s.rtree.indices|
    requires Tracks(strict, s.top, e) && !s.top.isNop && OwnSpace(strict, s.top)
    requires Shows(e, m.point) && DrawTouches(fm, s.paint, e, d, m.point) && m.id == |s.records|
    ensures var acc := AccumulateGeometry(fx, s, d);
      acc.ok && HeldBetween(acc.rtree, |s.rtree.rects|, |acc.rtree.rects|, m)
  {
    hide Tracks, Shows, AccumulateBounds, AccumulateUnbounded, AdjustBoundsForPaint, Reached, SoundFilter, HeldBetween,
      Matrix.Invert, Matrix.IsInvertible, Matrix.Apply;
    if d.geometry.Flood? {
      UnboundedHolds(strict, s.layer, s.rtree, s.top, e, |s.records|, m);
    } else {
      var r := d.geometry.bounds;
      ReachedIsAdjusted(fx, fm, PaintOf(s.paint, d), d.flags, r, e.matrix.Invert().Apply(m.point));
      var bounds := AdjustBoundsForPaint(fx, PaintOf(s.paint, d), d.flags, r);
      if bounds.Some? {
        BoundsAccumulate(strict, s.layer, s.rtree, s.top, e, |s.records|, bounds.value, m);
      } else {
        UnboundedHolds(strict, s.layer, s.rtree, s.top, e, |s.records|, m);
      }
    }
  }

  /** The marks a call adds are held by the entries it adds. */
  ghost predicate NewMarksHeld(strict: bool, e: CanvasEntry, marks: iset<Mark>, before: RTreeData, after: RTreeData) {
    MarksHeld(strict, marks, e.spec, after, |before.rects|, |after.rects|)
  }

  /** Marks of a drawing under an entry that hides everything cannot be seen. */
  lemma HiddenMarksHeld(info: SaveInfo, e: CanvasEntry, marks: iset<Mark>, rtree: RTreeData)
    requires Tracks(true, info, e) && info.isNop
    requires forall m :: m in marks ==> Paintable(e, m.point)
    ensures NewMarksHeld(true, e, marks, rtree, rtree)
  {
    hide Matrix.Times;
    forall m | m in marks
      ensures e.spec.matrix.IsInvertible() && m.point in e.spec.extent && m.point !in e.spec.relevant
    {
      assert Paintable(e, m.point);
      assert !Shows(e, m.point);
    }
  }

  /** Marks of a drawing under a live entry are held if each one that shows is. */
  lemma LiveMarksHeld(strict: bool, info: SaveInfo, e: CanvasEntry, marks: iset<Mark>, before: RTreeData,
                      after: RTreeData)
    requires Tracks(strict, info, e)
    requires forall m :: m in marks ==> Paintable(e, m.point)
    requires forall m :: m in marks && Shows(e, m.point) ==> HeldBetween(after, |before.rects|, |after.rects|, m)
    ensures NewMarksHeld(strict, e, marks, before, after)
  {
    hide Hidden, CullsHold;
    forall m | m in marks
      ensures m.point in e.spec.relevant ==> Shows(e, m.point)
    {
      assert Paintable(e, m.point);
    }
  }

  /** The marks of a drawing, if they are kept. Keeping them is always right in a strict
      run, and in any run under an entry that records what is drawn. */
  predicate MayKeep(strict: bool, info: SaveInfo, kept: bool) {
    kept ==> strict || Keeps(info)
  }

  lemma NoMarksHeld(strict: bool, spec: LayerSpec, rtree: RTreeData, lo: nat, hi: nat)
    ensures MarksHeld(strict, iset{}, spec, rtree, lo, hi)
  {
  }

  lemma DrawMarksHeld(strict: bool, fx: FilterBounds, fm: FilterMeaning, s: BuilderState, c: Canvas, d: Draw,
                      kept: bool)
    requires Sound(fx, fm) && Tracks(strict, s.top, c.top) && s.paint == c.paint && |s.rtree.rects| == |s.rtree.indices|
    requires MayKeep(strict, s.top, kept)
    ensures NewMarksHeld(strict, c.top, KeptMarks(kept, DrawMarks(fm, c, d, |s.records|)), s.rtree,
                         DrawOp(fx, s, d).rtree)
  {
    var marks := DrawMarks(fm, c, d, |s.records|);
    var after := DrawOp(fx, s, d).rtree;
    assert forall m :: m in marks ==> Paintable(c.top, m.point);
    if !kept {
      NoMarksHeld(strict, c.top.spec, after, |s.rtree.rects|, |after.rects|);
      hide *;
    } else if s.top.isNop {
      HiddenMarksHeld(s.top, c.top, marks, s.rtree);
      hide *;
      DroppedDraw(fx, s, d);
    } else {
      forall m | m in marks && Shows(c.top, m.point)
        ensures HeldBetween(after, |s.rtree.rects|, |after.rects|, m)
      {
        DrawHolds(strict, fx, fm, s, c.top, d, m);
        DrawnRTree(fx, s, d);
      }
      hide *;
      LiveMarksHeld(strict, s.top, c.top, marks, s.rtree, after);
    }
  }

  lemma DroppedDraw(fx: FilterBounds, s: BuilderState, d: Draw)
    requires s.top.isNop
    ensures DrawOp(fx, s, d) == s
  {
  }

  lemma DrawnRTree(fx: FilterBounds, s: BuilderState, d: Draw)
    requires !s.top.isNop && PaintResult(PaintOf(s.paint, d), d.flags) != NoEffect
    ensures DrawOp(fx, s, d).rtree == AccumulateGeometry(fx, s, d).rtree
  {
    hide AccumulateGeometry, PaintResult, IsOpacityCompatible;
  }

  /** What every drawing leaves alone. */
  lemma DrawTop(fx: FilterBounds, s: BuilderState, d: Draw)
    ensures var u := DrawOp(fx, s, d);
      && u.below == s.below && u.top == s.top && u.outer == s.outer && u.paint == s.paint
      && SameKey(s.layer, u.layer) && Grows(s.rtree, u.rtree, |s.records|)
      && (s.top.isNop ==> u.rtree == s.rtree)
  {
    hide AccumulateGeometry, PaintResult, IsOpacityCompatible, Grows;
    GeometryGrows(fx, s, d);
    GrowsNot(s.rtree, |s.records|);
  }

  lemma GrowthKeepsPrefix(a: RTreeData, b: RTreeData, id: nat)
    requires Grows(a, b, id) && |a.rects| == |a.indices|
    ensures SamePrefix(a, b, |a.rects|)
  {
  }

  /** Any step that only adds marks and entries for them. */
  lemma DrawingSees(strict: bool, fm: FilterMeaning, s: BuilderState, c: Canvas, u: BuilderState, marks: iset<Mark>)
    requires Sees(strict, fm, s, c) && |s.rtree.rects| == |s.rtree.indices|
    requires u.below == s.below && u.top == s.top && u.outer == s.outer && u.paint == s.paint
    requires SameKey(s.layer, u.layer) && Grows(s.rtree, u.rtree, |s.records|)
    requires s.top.isNop ==> u.rtree == s.rtree
    requires NewMarksHeld(strict, c.top, marks, s.rtree, u.rtree)
    ensures Sees(strict, fm, u, c.(marks := c.marks + marks))
  {
    GrowthKeepsPrefix(s.rtree, u.rtree, |s.records|);
    GrowthIsLonger(s.rtree, u.rtree, |s.records|);
    hide Held, MarksHeld, SamePrefix, Grows;
    AddMarks(strict, fm, s.below, s.top, c.below, c.top, s.outer, s.layer, c.outer, c.marks, s.rtree, |s.rtree.rects|,
             u.layer, marks, u.rtree, |u.rtree.rects|);
  }

  lemma DrawSees(strict: bool, fx: FilterBounds, fm: FilterMeaning, s: BuilderState, c: Canvas, d: Draw, kept: bool)
    requires Sound(fx, fm) && Sees(strict, fm, s, c) && |s.rtree.rects| == |s.rtree.indices|
    requires MayKeep(strict, s.top, kept)
    ensures Sees(strict, fm, DrawOp(fx, s, d), c.(marks := c.marks + KeptMarks(kept, DrawMarks(fm, c, d, |s.records|))))
  {
    TopTracks(strict, fm, s, c);
    DrawTop(fx, s, d);
    DrawMarksHeld(strict, fx, fm, s, c, d, kept);
    hide *;
    DrawingSees(strict, fm, s, c, DrawOp(fx, s, d), KeptMarks(kept, DrawMarks(fm, c, d, |s.records|)));
  }
}
