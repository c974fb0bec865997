/**
 The recorded stream paints what the calls paint: deferring saves, skipping clips that
 cover the cull box, dropping what a nop entry or an empty clip hides, and leaving out
 redundant attributes change no pixel inside the cull rectangle.
 */
module DisplayListFaithful {
  import opened Options
  import opened DisplayListTypes
  import opened DisplayListPaint
  import opened DisplayListBuilderSpec
  import opened DisplayListNesting
  import opened DisplayListRTree
  import opened DisplayListGeometry
  import opened DisplayListCanvas
  import opened DisplayListUsedFilters
  import opened DisplayListVisibility
  import opened DisplayListLayers

  // ------------------------------------------------ the stream as calls

  /** The call a record makes when it is dispatched. Bounds that no caller gave are not passed on. */
  function AsCall(op: Record): Call {
    match op
    case AttributeOp(a) => SetAttributeCall(a)
    case TransformRecord(t) => TransformCall(t)
    case ClipRecord(r, clipOp) => ClipCall(r, clipOp)
    case SaveRecord(_, _) => SaveCall
    case SaveLayerRecord(_, _, options, bounds, _, backdrop) =>
      SaveLayerCall(if options.boundsFromCaller then Some(bounds) else None, options.rendersWithAttributes, backdrop)
    case RestoreRecord => RestoreCall
    case DrawRecord(d) => DrawCall(d)
    case DrawListRecord(list, opacity) => DrawListCall(list, opacity)
  }

  ghost function CanvasOf(fm: FilterMeaning, cull: Rect, ops: seq<Record>): Canvas {
    if ops == [] then StartCanvas(cull)
    else CanvasStep(fm, CanvasOf(fm, cull, ops[..|ops| - 1]), AsCall(ops[|ops| - 1]), |ops| - 1)
  }

  lemma CanvasMore(fm: FilterMeaning, cull: Rect, ops: seq<Record>, op: Record)
    ensures CanvasOf(fm, cull, ops + [op]) == CanvasStep(fm, CanvasOf(fm, cull, ops), AsCall(op), |ops|)
  {
    assert (ops + [op])[..|ops|] == ops;
  }

  lemma {:induction false} CanvasPatched(fm: FilterMeaning, cull: Rect, ops: seq<Record>, k: nat, r: Record)
    requires k < |ops| && AsCall(ops[k]) == AsCall(r)
    ensures CanvasOf(fm, cull, ops[k := r]) == CanvasOf(fm, cull, ops)
  {
    hide CanvasStep, AsCall;
    var n := |ops| - 1;
    if k < n {
      CanvasPatched(fm, cull, ops[..n], k, r);
      assert ops[k := r][..n] == ops[..n][k := r];
    } else {
      assert ops[k := r][..n] == ops[..n];
    }
  }

  // ------------------------------------------------------- two canvases

  ghost predicate SpecsAgree(a: LayerSpec, b: LayerSpec) {
    && a.filter == b.filter && a.matrix == b.matrix && a.effective == b.effective && a.part == b.part
      && a.bounds == b.bounds && a.extent == b.extent
    && (a.matrix.IsInvertible() ==> a.relevant == b.relevant)
  }

  ghost predicate ShowSame(e: CanvasEntry, r: CanvasEntry) {
    && SpecsAgree(e.spec, r.spec)
    && (e.spec.matrix.IsInvertible() ==> forall p :: Shows(e, p) <==> Shows(r, p))
  }

  /** Marks lie in the layer, and those that can be seen are the same. */
  ghost predicate MarksAgree(spec: LayerSpec, marks: iset<Mark>, recorded: iset<Mark>) {
    && (forall m :: m in marks ==> spec.matrix.IsInvertible() && m.point in spec.extent)
    && (forall m :: m in recorded ==> spec.matrix.IsInvertible() && m.point in spec.extent)
    && (forall m: Mark :: m.point in spec.relevant ==> (m in marks <==> m in recorded))
  }

  /** The canvas of the calls has an entry per entry of the builder; the canvas of the
      records has one per entry with a record, and a layer per layer of the builder. */
  ghost predicate Follows(below: seq<SaveInfo>, top: SaveInfo, canvasBelow: seq<CanvasEntry>, e: CanvasEntry,
                          outer: seq<iset<Mark>>, marks: iset<Mark>,
                          recordedBelow: seq<CanvasEntry>, r: CanvasEntry, recordedOuter: seq<iset<Mark>>,
                          recorded: iset<Mark>)
    decreases |below|
  {
    && |canvasBelow| == |below|
    && r.matrix == e.matrix
    && (!top.isNop ==> ShowSame(e, r))
    && if below == [] then
         e.isLayer && recordedBelow == [] && recordedOuter == [] && outer == [] && MarksAgree(e.spec, marks, recorded)
       else
         var n := |below| - 1;
         if top.mark.isSaveLayer then
           && e.isLayer && r.isLayer && recordedBelow != [] && recordedOuter != [] && outer != [] && !below[n].isNop
           && !top.mark.deferred
           && e.spec.filter == r.spec.filter && e.spec.matrix == r.spec.matrix && e.spec.effective == r.spec.effective
           && e.spec.part == r.spec.part
           && MarksAgree(e.spec, marks, recorded)
           && Follows(below[..n], below[n], canvasBelow[..n], canvasBelow[n], outer[..|outer| - 1], outer[|outer| - 1],
                      recordedBelow[..|recordedBelow| - 1], recordedBelow[|recordedBelow| - 1],
                      recordedOuter[..|recordedOuter| - 1], recordedOuter[|recordedOuter| - 1])
         else
           && (below[n].isNop ==> top.isNop)
           && (if e.isLayer then top.isNop && outer != [] && MarksAgree(e.spec, marks, iset{})
               else e.spec == canvasBelow[n].spec)
           && (!top.mark.deferred ==> recordedBelow != [] && !r.isLayer)
           && Follows(below[..n], below[n], canvasBelow[..n], canvasBelow[n],
                      if e.isLayer then outer[..|outer| - 1] else outer,
                      if e.isLayer then outer[|outer| - 1] else marks,
                      if top.mark.deferred then recordedBelow else recordedBelow[..|recordedBelow| - 1],
                      if top.mark.deferred then r else recordedBelow[|recordedBelow| - 1],
                      recordedOuter, recorded)
  }

  ghost predicate Paints(s: BuilderState, c: Canvas, r: Canvas) {
    && c.paint == s.paint && r.paint == s.paint
    && Follows(s.below, s.top, c.below, c.top, c.outer, c.marks, r.below, r.top, r.outer, r.marks)
  }

  lemma TopFollows(s: BuilderState, c: Canvas, r: Canvas)
    requires Paints(s, c, r)
    ensures |c.below| == |s.below| && r.top.matrix == c.top.matrix && (!s.top.isNop ==> ShowSame(c.top, r.top))
  {
    hide ShowSame, MarksAgree;
  }

  lemma MoreMarksAgree(spec: LayerSpec, marks: iset<Mark>, recorded: iset<Mark>, more: iset<Mark>,
                       recordedMore: iset<Mark>)
    requires MarksAgree(spec, marks, recorded) && MarksAgree(spec, more, recordedMore)
    ensures MarksAgree(spec, marks + more, recorded + recordedMore)
  {
  }

  /** New marks in the current layer of both canvases. */
  lemma {:induction false} AddBoth(below: seq<SaveInfo>, top: SaveInfo, canvasBelow: seq<CanvasEntry>, e: CanvasEntry,
                                   outer: seq<iset<Mark>>, marks: iset<Mark>, recordedBelow: seq<CanvasEntry>,
                                   r: CanvasEntry, recordedOuter: seq<iset<Mark>>, recorded: iset<Mark>,
                                   more: iset<Mark>, recordedMore: iset<Mark>)
    requires Follows(below, top, canvasBelow, e, outer, marks, recordedBelow, r, recordedOuter, recorded)
    requires MarksAgree(e.spec, more, recordedMore) && (top.isNop ==> recordedMore == iset{})
    ensures Follows(below, top, canvasBelow, e, outer, marks + more, recordedBelow, r, recordedOuter,
                    recorded + recordedMore)
    decreases |below|
  {
    hide MarksAgree, ShowSame;
    if below == [] || top.mark.isSaveLayer {
      MoreMarksAgree(e.spec, marks, recorded, more, recordedMore);
    } else {
      var n := |below| - 1;
      if e.isLayer {
        MoreMarksAgree(e.spec, marks, iset{}, more, iset{});
        assert recordedMore + recordedMore == recordedMore;
        assert recorded + recordedMore == recorded;
      } else {
        AddBoth(below[..n], below[n], canvasBelow[..n], canvasBelow[n], outer, marks,
                if top.mark.deferred then recordedBelow else recordedBelow[..|recordedBelow| - 1],
                if top.mark.deferred then r else recordedBelow[|recordedBelow| - 1],
                recordedOuter, recorded, more, recordedMore);
      }
    }
  }

  /** A new top, with the same marks. */
  lemma NewTopFollows(below: seq<SaveInfo>, top: SaveInfo, canvasBelow: seq<CanvasEntry>, e: CanvasEntry,
                      outer: seq<iset<Mark>>, marks: iset<Mark>, recordedBelow: seq<CanvasEntry>, r: CanvasEntry,
                      recordedOuter: seq<iset<Mark>>, recorded: iset<Mark>, newTop: SaveInfo, newEntry: CanvasEntry,
                      newRecorded: CanvasEntry)
    requires Follows(below, top, canvasBelow, e, outer, marks, recordedBelow, r, recordedOuter, recorded)
    requires newTop.mark.isSaveLayer == top.mark.isSaveLayer && newTop.mark.deferred == top.mark.deferred
    requires (top.isNop ==> newTop.isNop)
    requires newEntry.isLayer == e.isLayer && newEntry.spec == e.spec
    requires newRecorded.isLayer == r.isLayer && newRecorded.spec == r.spec
    requires newRecorded.matrix == newEntry.matrix && (!newTop.isNop ==> ShowSame(newEntry, newRecorded))
    requires top.mark.deferred ==> newRecorded == r
    ensures Follows(below, newTop, canvasBelow, newEntry, outer, marks, recordedBelow, newRecorded, recordedOuter,
                    recorded)
  {
    hide ShowSame, MarksAgree;
  }

  /** Recording a deferred save: the canvas of the records gets the entry's copy. */
  lemma TriggerPaints(fm: FilterMeaning, s: BuilderState, c: Canvas, r: Canvas, id: nat)
    requires Paints(s, c, r) && s.top.mark.deferred && !s.top.mark.isSaveLayer && s.below != []
    ensures Paints(CheckForDeferredSave(s), c, CanvasStep(fm, r, SaveCall, id))
  {
    var t := CanvasStep(fm, r, SaveCall, id);
    CopyShows(c.top, r.top);
    hide MarksAgree, ShowSame;
    assert t.below[..|t.below| - 1] == r.below && t.below[|t.below| - 1] == r.top;
  }

  lemma CopyShows(e: CanvasEntry, r: CanvasEntry)
    ensures ShowSame(e, r) ==> ShowSame(e, r.(isLayer := false)) && ShowSame(e.(isLayer := false), r)
  {
    hide Matrix.IsInvertible;
    assert forall p :: Shows(r.(isLayer := false), p) <==> Shows(r, p);
    assert forall p :: Shows(e.(isLayer := false), p) <==> Shows(e, p);
  }

  // --------------------------------------------------- the whole relation

  predicate HasNoBounds(op: Record) {
    op.SaveLayerRecord? ==> !op.options.boundsFromCaller
  }

  ghost predicate NoRecordBounds(ops: seq<Record>) {
    forall k :: 0 <= k < |ops| ==> HasNoBounds(ops[k])
  }

  ghost predicate Faithful(fm: FilterMeaning, cull: Rect, s: BuilderState, c: Canvas) {
    Sees(true, fm, s, c) && WellFormed(s) && Bookkept(s) && NoRecordBounds(s.records)
      && Paints(s, c, CanvasOf(fm, cull, s.records))
  }

  lemma TriggeredPaints(fm: FilterMeaning, cull: Rect, s: BuilderState, c: Canvas)
    requires WellFormed(s) && Paints(s, c, CanvasOf(fm, cull, s.records))
    ensures var t := CheckForDeferredSave(s);
      Paints(t, c, CanvasOf(fm, cull, t.records)) && !t.top.mark.deferred
  {
    hide Paints;
    if s.top.mark.deferred {
      DeferredIsPlain(s);
      CanvasMore(fm, cull, s.records, SaveRecord(0, 0));
      TriggerPaints(fm, s, c, CanvasOf(fm, cull, s.records), |s.records|);
    }
  }

  // ----------------------------------------------------- transforms, clips

  lemma MovedShow(e: CanvasEntry, r: CanvasEntry, m: Matrix)
    requires ShowSame(e, r)
    ensures ShowSame(e.(matrix := m), r.(matrix := m))
  {
    hide Matrix.IsInvertible;
    assert forall p :: Shows(r.(matrix := m), p) <==> Shows(r, p);
    assert forall p :: Shows(e.(matrix := m), p) <==> Shows(e, p);
  }

  lemma TransformPaints(fm: FilterMeaning, cull: Rect, s: BuilderState, c: Canvas, t: TransformOp, id: nat)
    requires WellFormed(s) && Paints(s, c, CanvasOf(fm, cull, s.records))
    ensures Paints(Transform(s, t), CanvasStep(fm, c, TransformCall(t), id),
                   CanvasOf(fm, cull, Transform(s, t).records))
  {
    hide Follows, ShowSame, Transformed, ConcatMatrix, WellFormed, CheckForDeferredSave, ChangesMatrix, CanvasOf;
    if !ChangesMatrix(t) {
      IdentityTransform(c.top.matrix, t);
    } else {
      TriggeredPaints(fm, cull, s, c);
      var u := CheckForDeferredSave(s);
      var r := CanvasOf(fm, cull, u.records);
      CanvasMore(fm, cull, u.records, TransformRecord(t));
      TopFollows(u, c, r);
      var m := ConcatMatrix(c.top.matrix, t);
      if !u.top.isNop {
        MovedShow(c.top, r.top, m);
      }
      TransformedMarks(u.top, t);
      NewTopFollows(u.below, u.top, c.below, c.top, c.outer, c.marks, r.below, r.top, r.outer, r.marks,
                    Transformed(u.top, t), c.top.(matrix := m), r.top.(matrix := m));
    }
  }

  lemma TransformedMarks(info: SaveInfo, t: TransformOp)
    ensures Transformed(info, t).mark == info.mark && Transformed(info, t).isNop == info.isNop
  {
  }

  /** A clip that covers the layer's cull box lets everything through that can be seen. */
  lemma RedundantClipShowsAll(info: SaveInfo, e: CanvasEntry, r: Rect, op: ClipOp)
    requires Tracks(true, info, e) && !info.isNop && ClipIsRedundant(info, r, op)
    ensures e.spec.matrix.IsInvertible() ==> forall p :: Shows(e, p) ==> Shows(e.(clip := ClipPoints(e, r, op)), p)
  {
    hide Matrix.Times, Matrix.Invert, Matrix.IsInvertible, Matrix.Apply, Matrix.MapBounds, Within, WithinClosed;
    var after := e.(clip := ClipPoints(e, r, op));
    if e.spec.matrix.IsInvertible() {
      forall p | Shows(e, p)
        ensures Shows(after, p)
      {
        var q := e.spec.matrix.Invert().Apply(p);
        CoveringClipHolds(info.layer, r, q);
        WithinLayer(e.spec.matrix, info.layer.matrix, r, p);
      }
    }
  }

  /** Which clips are skipped: under an invertible layer matrix and a cull box with points in
      it exactly the intersections, once a clip is in force, that let through every point of
      the box. */
  lemma ClipIsSkippedExactly(info: SaveInfo, r: Rect, op: ClipOp)
    requires info.layer.matrix.IsInvertible() && !info.layer.cull.IsEmpty()
    ensures ClipIsRedundant(info, r, op) <==> info.hasValidClip && op == Intersect && LetsThrough(info.layer, r)
  {
    var m, cull := info.layer.matrix, info.layer.cull;
    ContainsExactly(m.MapBounds(r), cull);
    forall p
      ensures m.MapBounds(r).Inside(p) <==> Within(m, r, p)
    {
      MappedCovers(m, r, p);
    }
    EmptyLetsNothing(info.layer, r);
    hide Matrix.MapBounds, Matrix.IsInvertible, Rect.Contains, Rect.IsEmpty, Within;
  }

  ghost predicate LetsThrough(t: Tracker, r: Rect) {
    forall p :: t.cull.Inside(p) ==> Within(t.matrix, r, p)
  }

  lemma EmptyLetsNothing(t: Tracker, r: Rect)
    requires !t.cull.IsEmpty()
    ensures r.IsEmpty() ==> !LetsThrough(t, r)
  {
    var p := Point((t.cull.left + t.cull.right) / 2.0, (t.cull.top + t.cull.bottom) / 2.0);
    assert t.cull.Inside(p);
    assert r.IsEmpty() ==> !Within(t.matrix, r, p);
  }

  lemma CoveringClipHolds(t: Tracker, r: Rect, q: Point)
    requires t.RectCoversCull(r) && t.cull.Inside(q)
    ensures Within(t.matrix, r, q)
  {
    hide Matrix.MapBounds, Matrix.Invert, Matrix.IsInvertible, Matrix.Apply, Within;
    ContainsCovers(t.matrix.MapBounds(r), t.cull, q);
    InsideIsSolid(t.matrix.MapBounds(r), q);
    if t.matrix.IsInvertible() {
      MappedCovers(t.matrix, r, q);
    } else {
      SingularFlattens(t.matrix, r);
    }
  }

  lemma ClippedShow(e: CanvasEntry, r: CanvasEntry, rect: Rect, op: ClipOp)
    requires ShowSame(e, r) && e.matrix == r.matrix
    ensures ShowSame(e.(clip := ClipPoints(e, rect, op)), r.(clip := ClipPoints(r, rect, op)))
  {
    hide Matrix.IsInvertible, Within, WithinClosed;
    var after, recorded := e.(clip := ClipPoints(e, rect, op)), r.(clip := ClipPoints(r, rect, op));
    forall p | e.spec.matrix.IsInvertible()
      ensures Shows(after, p) <==> Shows(recorded, p)
    {
      assert Shows(e, p) <==> Shows(r, p);
    }
  }

  lemma SkippedClipShows(e: CanvasEntry, r: CanvasEntry, rect: Rect, op: ClipOp)
    requires ShowSame(e, r)
    requires e.spec.matrix.IsInvertible() ==> forall p :: Shows(e, p) ==> Shows(e.(clip := ClipPoints(e, rect, op)), p)
    ensures ShowSame(e.(clip := ClipPoints(e, rect, op)), r)
  {
    hide Matrix.IsInvertible, Within, WithinClosed;
    var after := e.(clip := ClipPoints(e, rect, op));
    assert forall p :: Shows(after, p) ==> Shows(e, p);
  }

  /** A clip that the builder does not record changes only what cannot be seen. */
  lemma UnrecordedClipPaints(s: BuilderState, c: Canvas, r: Canvas, rect: Rect, op: ClipOp, id: nat, top: SaveInfo)
    requires Paints(s, c, r) && (s.top.isNop ==> top.isNop)
    requires top.mark.isSaveLayer == s.top.mark.isSaveLayer && top.mark.deferred == s.top.mark.deferred
    requires var after := c.top.(clip := ClipPoints(c.top, rect, op));
      r.top.matrix == c.top.matrix && (!top.isNop ==> ShowSame(after, r.top))
    ensures forall fm :: Paints(s.(top := top), CanvasStep(fm, c, ClipCall(rect, op), id), r)
  {
    hide Follows, ShowSame, ClipPoints;
    NewTopFollows(s.below, s.top, c.below, c.top, c.outer, c.marks, r.below, r.top, r.outer, r.marks, top,
                  c.top.(clip := ClipPoints(c.top, rect, op)), r.top);
  }

  lemma ClipPaints(fm: FilterMeaning, cull: Rect, s: BuilderState, c: Canvas, rect: Rect, op: ClipOp, id: nat)
    requires Faithful(fm, cull, s, c)
    ensures Paints(Clip(s, rect, op), CanvasStep(fm, c, ClipCall(rect, op), id),
                   CanvasOf(fm, cull, Clip(s, rect, op).records))
  {
    var r := CanvasOf(fm, cull, s.records);
    TopTracks(true, fm, s, c);
    TopFollows(s, c, r);
    ClipKeepsMatrices(s.top, rect, op);
    hide Paints, CanvasOf, CanvasStep, ClipPoints, Sees, WellFormed, Bookkept, NoRecordBounds, Clipped, CullIsEmpty,
      ShowSame;
    if s.top.isNop {
      UnrecordedClipPaints(s, c, r, rect, op, id, s.top);
    } else if ClipIsRedundant(s.top, rect, op) {
      RedundantClipShowsAll(s.top, c.top, rect, op);
      SkippedClipShows(c.top, r.top, rect, op);
      UnrecordedClipPaints(s, c, r, rect, op, id, s.top);
    } else if CullIsEmpty(Clipped(s.top, rect, op)) {
      UnrecordedClipPaints(s, c, r, rect, op, id, Clipped(s.top, rect, op).(isNop := true));
    } else {
      RecordedClipPaints(fm, cull, s, c, rect, op, id);
    }
  }

  lemma RecordedClipPaints(fm: FilterMeaning, cull: Rect, s: BuilderState, c: Canvas, rect: Rect, op: ClipOp, id: nat)
    requires Faithful(fm, cull, s, c)
    requires !s.top.isNop && !ClipIsRedundant(s.top, rect, op) && !CullIsEmpty(Clipped(s.top, rect, op))
    ensures Paints(Clip(s, rect, op), CanvasStep(fm, c, ClipCall(rect, op), id),
                   CanvasOf(fm, cull, Clip(s, rect, op).records))
  {
    hide Tracks, ClipIsRedundant, Clipped, CullIsEmpty, ShowSame, ClipPoints, CanvasOf, Held;
    ClipKeepsMatrices(s.top, rect, op);
    var clipped := Clipped(s.top, rect, op).(hasValidClip := true);
    var t := s.(top := clipped);
    var r0 := CanvasOf(fm, cull, s.records);
    TopFollows(s, c, r0);
    NewTopFollows(s.below, s.top, c.below, c.top, c.outer, c.marks, r0.below, r0.top, r0.outer, r0.marks, clipped,
                  c.top, r0.top);
    PlainKeepsForm(s, t);
    hide Follows, WellFormed;
    TriggeredPaints(fm, cull, t, c);
    var u := CheckForDeferredSave(t);
    var r := CanvasOf(fm, cull, u.records);
    CanvasMore(fm, cull, u.records, ClipRecord(rect, op));
    TopFollows(u, c, r);
    ClippedShow(c.top, r.top, rect, op);
    NewTopFollows(u.below, u.top, c.below, c.top, c.outer, c.marks, r.below, r.top, r.outer, r.marks,
                  u.top, c.top.(clip := ClipPoints(c.top, rect, op)), r.top.(clip := ClipPoints(r.top, rect, op)));
    assert Clip(s, rect, op) == Push(u, ClipRecord(rect, op));
  }

  // ------------------------------------------------------------- drawing

  /** Marks that cannot be seen need no record. */
  lemma UnseenMarksAgree(fm: FilterMeaning, s: BuilderState, c: Canvas, marks: iset<Mark>, before: RTreeData)
    requires NewMarksHeld(true, c.top, marks, before, before)
    ensures MarksAgree(c.top.spec, marks, iset{})
  {
    hide Matrix.IsInvertible;
    assert forall m :: !HeldBetween(before, |before.rects|, |before.rects|, m);
    hide HeldBetween;
  }

  /** Marks made in the same way by two entries that show the same. */
  lemma SameMarksAgree(info: SaveInfo, e: CanvasEntry, r: CanvasEntry, marks: iset<Mark>, recorded: iset<Mark>)
    requires Tracks(true, info, e) && ShowSame(e, r) && e.matrix == r.matrix
    requires forall m :: m in marks ==> Paintable(e, m.point)
    requires forall m :: m in recorded ==> Paintable(r, m.point)
    requires forall m: Mark :: Paintable(e, m.point) && Paintable(r, m.point) ==> (m in marks <==> m in recorded)
    ensures MarksAgree(e.spec, marks, recorded)
  {
    hide Matrix.IsInvertible, Matrix.Times, Hidden, CullsHold;
    forall m: Mark | m in marks || m in recorded
      ensures e.spec.matrix.IsInvertible() && m.point in e.spec.extent
      ensures m.point in e.spec.relevant ==> (m in marks <==> m in recorded)
    {
      assert m in marks ==> Paintable(e, m.point);
      assert m in recorded ==> Paintable(r, m.point);
      assert Shows(e, m.point) <==> Shows(r, m.point);
    }
  }

  /** A drawing that adds marks to both canvases, or unseen ones to that of the calls. */
  lemma DrawingPaints(s: BuilderState, c: Canvas, r: Canvas, u: BuilderState, marks: iset<Mark>, recorded: iset<Mark>)
    requires Paints(s, c, r) && u.below == s.below && u.top == s.top && u.paint == s.paint
    requires MarksAgree(c.top.spec, marks, recorded) && (s.top.isNop ==> recorded == iset{})
    ensures Paints(u, c.(marks := c.marks + marks), r.(marks := r.marks + recorded))
  {
    hide Follows, MarksAgree;
    AddBoth(s.below, s.top, c.below, c.top, c.outer, c.marks, r.below, r.top, r.outer, r.marks, marks, recorded);
  }

  lemma DrawPaints(fx: FilterBounds, fm: FilterMeaning, cull: Rect, s: BuilderState, c: Canvas, d: Draw)
    requires Sound(fx, fm) && Faithful(fm, cull, s, c)
    ensures Paints(DrawOp(fx, s, d), c.(marks := c.marks + DrawMarks(fm, c, d, |s.records|)),
                   CanvasOf(fm, cull, DrawOp(fx, s, d).records))
  {
    var r := CanvasOf(fm, cull, s.records);
    var u := DrawOp(fx, s, d);
    var marks := DrawMarks(fm, c, d, |s.records|);
    TopTracks(true, fm, s, c);
    TopFollows(s, c, r);
    BookkeptIsPaired(s);
    DrawTop(fx, s, d);
    DrawRecords(fx, s, d);
    if u.records == s.records {
      DrawMarksHeld(true, fx, fm, s, c, d, true);
      UnrecordedDraw(fx, s, d);
      UnseenMarksAgree(fm, s, c, marks, s.rtree);
      hide *;
      DrawingPaints(s, c, r, u, marks, iset{});
      assert r.(marks := r.marks + iset{}) == r by { NoMoreMarks(r); }
    } else {
      CanvasMore(fm, cull, s.records, DrawRecord(d));
      var recorded := DrawMarks(fm, r, d, |s.records|);
      DrawnAlike(fm, s, c, r, d, |s.records|);
      hide *;
      DrawingPaints(s, c, r, u, marks, recorded);
      assert CanvasOf(fm, cull, u.records) == r.(marks := r.marks + recorded) by { DrawStepOf(fm, cull, s.records, d); }
    }
  }

  lemma NoMoreMarks(r: Canvas)
    ensures r.(marks := r.marks + iset{}) == r
  {
    assert r.marks + iset{} == r.marks;
  }

  lemma DrawStepOf(fm: FilterMeaning, cull: Rect, ops: seq<Record>, d: Draw)
    ensures var r := CanvasOf(fm, cull, ops);
      CanvasOf(fm, cull, ops + [DrawRecord(d)]) == r.(marks := r.marks + DrawMarks(fm, r, d, |ops|))
  {
    CanvasMore(fm, cull, ops, DrawRecord(d));
    hide DrawMarks, CanvasOf;
  }

  lemma DrawRecords(fx: FilterBounds, s: BuilderState, d: Draw)
    ensures var u := DrawOp(fx, s, d);
      if u.records == s.records then true else u.records == s.records + [DrawRecord(d)] && !s.top.isNop
  {
    hide AccumulateGeometry, PaintResult, IsOpacityCompatible;
  }

  lemma UnrecordedDraw(fx: FilterBounds, s: BuilderState, d: Draw)
    requires DrawOp(fx, s, d).records == s.records
    ensures DrawOp(fx, s, d).rtree == s.rtree
  {
    hide AccumulateGeometry, PaintResult, IsOpacityCompatible, Grows;
    GeometryGrows(fx, s, d);
  }

  lemma DrawnAlike(fm: FilterMeaning, s: BuilderState, c: Canvas, r: Canvas, d: Draw, id: nat)
    requires Tracks(true, s.top, c.top) && ShowSame(c.top, r.top) && c.top.matrix == r.top.matrix && c.paint == r.paint
    ensures MarksAgree(c.top.spec, DrawMarks(fm, c, d, id), DrawMarks(fm, r, d, id))
  {
    hide PaintResult, Reached, Matrix.IsInvertible, Matrix.Invert, Matrix.Apply, Tracks, ShowSame;
    SameMarksAgree(s.top, c.top, r.top, DrawMarks(fm, c, d, id), DrawMarks(fm, r, d, id));
  }

  lemma ListPaints(fm: FilterMeaning, cull: Rect, s: BuilderState, c: Canvas, list: ChildList, opacity: real)
    requires Faithful(fm, cull, s, c)
    ensures var u := DrawDisplayList(s, list, opacity);
      Paints(u, c.(marks := c.marks + ListMarks(c, list, opacity, |s.records|)), CanvasOf(fm, cull, u.records))
  {
    var r := CanvasOf(fm, cull, s.records);
    var u := DrawDisplayList(s, list, opacity);
    var marks := ListMarks(c, list, opacity, |s.records|);
    TopTracks(true, fm, s, c);
    TopFollows(s, c, r);
    BookkeptIsPaired(s);
    ListTop(s, list, opacity);
    ListRecords(s, list, opacity);
    if u.records == s.records {
      ListMarksHeld(true, s, c, list, opacity, true);
      UnrecordedList(s, list, opacity);
      UnseenMarksAgree(fm, s, c, marks, s.rtree);
      hide *;
      DrawingPaints(s, c, r, u, marks, iset{});
      assert r.(marks := r.marks + iset{}) == r by { NoMoreMarks(r); }
    } else {
      var recorded := ListMarks(r, list, Min(opacity, 1.0), |s.records|);
      ListedAlike(s, c, r, list, opacity, |s.records|);
      hide *;
      DrawingPaints(s, c, r, u, marks, recorded);
      assert CanvasOf(fm, cull, u.records) == r.(marks := r.marks + recorded) by {
        ListStepOf(fm, cull, s.records, list, Min(opacity, 1.0));
      }
    }
  }

  lemma ListStepOf(fm: FilterMeaning, cull: Rect, ops: seq<Record>, list: ChildList, opacity: real)
    ensures var r := CanvasOf(fm, cull, ops);
      CanvasOf(fm, cull, ops + [DrawListRecord(list, opacity)])
        == r.(marks := r.marks + ListMarks(r, list, opacity, |ops|))
  {
    CanvasMore(fm, cull, ops, DrawListRecord(list, opacity));
    hide ListMarks, CanvasOf;
  }

  lemma ListRecords(s: BuilderState, list: ChildList, opacity: real)
    ensures var u := DrawDisplayList(s, list, opacity);
      if u.records == s.records then true
      else u.records == s.records + [DrawListRecord(list, Min(opacity, 1.0))] && !s.top.isNop
  {
    hide AccumulateUnbounded, AccumulateRects, ListIsVisible, LayerAfterList;
  }

  lemma UnrecordedList(s: BuilderState, list: ChildList, opacity: real)
    requires DrawDisplayList(s, list, opacity).records == s.records
    ensures DrawDisplayList(s, list, opacity).rtree == s.rtree
  {
    hide AccumulateUnbounded, AccumulateRects, ListIsVisible, LayerAfterList, Grows;
    UnboundedGrows(s.layer, s.rtree, s.top, |s.records|);
    RectsGrow(s.layer, s.rtree, s.top, |s.records|, list.rects);
  }

  lemma ListedAlike(s: BuilderState, c: Canvas, r: Canvas, list: ChildList, opacity: real, id: nat)
    requires Tracks(true, s.top, c.top) && ShowSame(c.top, r.top) && c.top.matrix == r.top.matrix && c.paint == r.paint
    ensures MarksAgree(c.top.spec, ListMarks(c, list, opacity, id), ListMarks(r, list, Min(opacity, 1.0), id))
  {
    hide Matrix.IsInvertible, Matrix.Invert, Matrix.Apply, Tracks, ShowSame;
    SameMarksAgree(s.top, c.top, r.top, ListMarks(c, list, opacity, id), ListMarks(r, list, Min(opacity, 1.0), id));
  }

  // --------------------------------------------------------------- saves

  lemma SavePaints(fm: FilterMeaning, cull: Rect, s: BuilderState, c: Canvas)
    requires Paints(s, c, CanvasOf(fm, cull, s.records))
    ensures Paints(Save(s), c.(below := c.below + [c.top], top := c.top.(isLayer := false)),
                   CanvasOf(fm, cull, s.records))
  {
    var r := CanvasOf(fm, cull, s.records);
    TopFollows(s, c, r);
    CopyShows(c.top, r.top);
    hide ShowSame, MarksAgree, CanvasOf;
    assert (s.below + [s.top])[..|s.below|] == s.below && (c.below + [c.top])[..|c.below|] == c.below;
  }

  /** A layer the builder drops: the canvas of the calls opens one that shows nothing. */
  lemma DroppedLayerPaints(fx: FilterBounds, fm: FilterMeaning, cull: Rect, s: BuilderState, c: Canvas, withPaint: bool,
                           backdrop: Option<ImageFilter>)
    requires Faithful(fm, cull, s, c) && ResultOf(s.top, s.paint, SaveLayerFlags(withPaint)) == NoEffect
    ensures var u := SaveLayer(fx, s, None, withPaint, backdrop);
      Paints(u, CanvasSaveLayer(fm, c, None, withPaint, backdrop, |s.records|), CanvasOf(fm, cull, u.records))
  {
    var r := CanvasOf(fm, cull, s.records);
    var marks := LayerMarks(c, withPaint, backdrop, |s.records|);
    var u := SaveLayer(fx, s, None, withPaint, backdrop);
    TopFollows(s, c, r);
    TopTracks(true, fm, s, c);
    DroppedMarksUnseen(fm, s, c, withPaint, backdrop);
    DrawingPaints(s, c, r, s, marks, iset{});
    NoMoreMarks(r);
    EmptyMarksAgree(CanvasSaveLayer(fm, c, None, withPaint, backdrop, |s.records|).top.spec);
    DroppedEntry(fx, s, withPaint, backdrop);
    hide ShowSame, MarksAgree, CanvasOf, SpecOf, LayerMarks, PaintResult, Held, WellFormed, Bookkept, Tracks, SaveLayer;
    assert (s.below + [s.top])[..|s.below|] == s.below && (c.below + [c.top])[..|c.below|] == c.below;
    assert (c.outer + [c.marks + marks])[..|c.outer|] == c.outer;
  }

  lemma EmptyMarksAgree(spec: LayerSpec)
    ensures MarksAgree(spec, iset{}, iset{})
  {
  }

  lemma DroppedEntry(fx: FilterBounds, s: BuilderState, withPaint: bool, backdrop: Option<ImageFilter>)
    requires ResultOf(s.top, s.paint, SaveLayerFlags(withPaint)) == NoEffect
    ensures var u := SaveLayer(fx, s, None, withPaint, backdrop);
      && u.below == s.below + [s.top] && u.records == s.records && u.paint == s.paint
      && u.top.isNop && u.top.mark == SaveMark(false, true, 0, 0)
  {
    hide PaintResult;
  }

  lemma DroppedMarksUnseen(fm: FilterMeaning, s: BuilderState, c: Canvas, withPaint: bool,
                           backdrop: Option<ImageFilter>)
    requires Tracks(true, s.top, c.top) && s.paint == c.paint
    requires ResultOf(s.top, s.paint, SaveLayerFlags(withPaint)) == NoEffect
    ensures MarksAgree(c.top.spec, LayerMarks(c, withPaint, backdrop, |s.records|), iset{})
  {
    var marks := LayerMarks(c, withPaint, backdrop, |s.records|);
    assert forall m :: m in marks ==> Paintable(c.top, m.point);
    if s.top.isNop {
      HiddenMarksHeld(s.top, c.top, marks, s.rtree);
      UnseenMarksAgree(fm, s, c, marks, s.rtree);
      hide *;
    } else {
      assert marks == iset{};
      EmptyMarksAgree(c.top.spec);
    }
  }

  /** Two entries that show the same open layers from which the same reaches the surface. */
  lemma NewSpecsAgree(fm: FilterMeaning, e: CanvasEntry, r: CanvasEntry, filter: Option<ImageFilter>, effective: bool,
                      part: Part, bounds: Option<Rect>)
    requires e.matrix == r.matrix && (e.matrix.IsInvertible() ==> e.spec.matrix.IsInvertible())
    requires ShowSame(e, r)
    ensures SpecsAgree(SpecOf(fm, e, filter, effective, part, bounds), SpecOf(fm, r, filter, effective, part, bounds))
  {
    hide Matrix.IsInvertible, InExtent, Composed;
    if e.matrix.IsInvertible() {
      forall q
        ensures LeadsToSurface(fm, e, filter, q) <==> LeadsToSurface(fm, r, filter, q)
      {
        assert forall p :: Shows(e, p) <==> Shows(r, p);
      }
    }
  }

  lemma NewEntriesShow(fm: FilterMeaning, e: CanvasEntry, r: CanvasEntry, filter: Option<ImageFilter>, effective: bool,
                      part: Part, bounds: Option<Rect>)
    requires e.matrix == r.matrix && (e.matrix.IsInvertible() ==> e.spec.matrix.IsInvertible())
    requires ShowSame(e, r)
    ensures ShowSame(CanvasEntry(true, SpecOf(fm, e, filter, effective, part, bounds), e.matrix, Everywhere()),
                     CanvasEntry(true, SpecOf(fm, r, filter, effective, part, bounds), r.matrix, Everywhere()))
  {
    NewSpecsAgree(fm, e, r, filter, effective, part, bounds);
    hide Matrix.IsInvertible, SpecOf;
    var a := CanvasEntry(true, SpecOf(fm, e, filter, effective, part, bounds), e.matrix, Everywhere());
    var b := CanvasEntry(true, SpecOf(fm, r, filter, effective, part, bounds), r.matrix, Everywhere());
    if a.spec.matrix.IsInvertible() {
      assert forall p :: Shows(a, p) <==> Shows(b, p);
    }
  }

  lemma LayersDrawnAlike(s: BuilderState, c: Canvas, r: Canvas, withPaint: bool, backdrop: Option<ImageFilter>, id: nat)
    requires Tracks(true, s.top, c.top) && ShowSame(c.top, r.top) && c.top.matrix == r.top.matrix && c.paint == r.paint
    ensures MarksAgree(c.top.spec, LayerMarks(c, withPaint, backdrop, id), LayerMarks(r, withPaint, backdrop, id))
  {
    hide PaintResult, Matrix.IsInvertible, Tracks, ShowSame, LayerFloods;
    SameMarksAgree(s.top, c.top, r.top, LayerMarks(c, withPaint, backdrop, id), LayerMarks(r, withPaint, backdrop, id));
  }

  lemma LayerPaints(fx: FilterBounds, fm: FilterMeaning, cull: Rect, s: BuilderState, c: Canvas, withPaint: bool,
                    backdrop: Option<ImageFilter>)
    requires Faithful(fm, cull, s, c) && ResultOf(s.top, s.paint, SaveLayerFlags(withPaint)) != NoEffect
    ensures var u := SaveLayer(fx, s, None, withPaint, backdrop);
      Paints(u, CanvasSaveLayer(fm, c, None, withPaint, backdrop, |s.records|), CanvasOf(fm, cull, u.records))
  {
    var r := CanvasOf(fm, cull, s.records);
    var marks, recorded :=
      LayerMarks(c, withPaint, backdrop, |s.records|), LayerMarks(r, withPaint, backdrop, |s.records|);
    var u := SaveLayer(fx, s, None, withPaint, backdrop);
    TopFollows(s, c, r);
    TopTracks(true, fm, s, c);
    LayersDrawnAlike(s, c, r, withPaint, backdrop, |s.records|);
    DrawingPaints(s, c, r, s, marks, recorded);
    var filter := LayerFilter(s.paint, withPaint);
    TrackedIsInvertible(s.top, c.top);
    var part := LayerPart(s.paint, withPaint, |s.records|, true);
    NewEntriesShow(fm, c.top, r.top, filter, true, part, None);
    EmptyMarksAgree(SpecOf(fm, c.top, filter, true, part, None));
    RecordedLayer(fx, s, withPaint, backdrop);
    LayerStepOf(fm, cull, s.records, withPaint, backdrop);
    EnteredBoth(fm, s, c, r, u, filter, part, marks, recorded);
    hide *;
    assert Paints(u, CanvasSaveLayer(fm, c, None, withPaint, backdrop, |s.records|), CanvasOf(fm, cull, u.records)) by {
      CanvasLayers(fm, s, c, r, withPaint, backdrop);
    }
  }

  lemma TrackedIsInvertible(info: SaveInfo, e: CanvasEntry)
    requires Tracks(true, info, e)
    ensures e.matrix.IsInvertible() ==> e.spec.matrix.IsInvertible()
  {
  }

  ghost function Entered(fm: FilterMeaning, c: Canvas, filter: Option<ImageFilter>, part: Part,
                         marks: iset<Mark>): Canvas {
    Canvas(c.paint, c.below + [c.top],
           CanvasEntry(true, SpecOf(fm, c.top, filter, true, part, None), c.top.matrix, Everywhere()),
           c.outer + [c.marks + marks], iset{})
  }

  lemma CanvasLayers(fm: FilterMeaning, s: BuilderState, c: Canvas, r: Canvas, withPaint: bool,
                     backdrop: Option<ImageFilter>)
    requires c.paint == s.paint && r.paint == s.paint && PaintResult(s.paint, SaveLayerFlags(withPaint)) != NoEffect
    ensures var filter := LayerFilter(s.paint, withPaint);
      var part := LayerPart(s.paint, withPaint, |s.records|, true);
      && CanvasSaveLayer(fm, c, None, withPaint, backdrop, |s.records|)
           == Entered(fm, c, filter, part, LayerMarks(c, withPaint, backdrop, |s.records|))
      && CanvasSaveLayer(fm, r, None, withPaint, backdrop, |s.records|)
           == Entered(fm, r, filter, part, LayerMarks(r, withPaint, backdrop, |s.records|))
  {
    hide LayerMarks, SpecOf, PaintResult;
  }

  lemma LayerStepOf(fm: FilterMeaning, cull: Rect, ops: seq<Record>, withPaint: bool, backdrop: Option<ImageFilter>)
    ensures CanvasOf(fm, cull, ops + [NewSaveLayerRecord(withPaint, None, backdrop)])
         == CanvasSaveLayer(fm, CanvasOf(fm, cull, ops), None, withPaint, backdrop, |ops|)
  {
    CanvasMore(fm, cull, ops, NewSaveLayerRecord(withPaint, None, backdrop));
    hide CanvasSaveLayer, CanvasOf;
  }

  lemma RecordedLayer(fx: FilterBounds, s: BuilderState, withPaint: bool, backdrop: Option<ImageFilter>)
    requires ResultOf(s.top, s.paint, SaveLayerFlags(withPaint)) != NoEffect
    ensures var u := SaveLayer(fx, s, None, withPaint, backdrop);
      && u.below == s.below + [s.top] && u.paint == s.paint
      && u.records == s.records + [NewSaveLayerRecord(withPaint, None, backdrop)]
      && !u.top.isNop && u.top.mark.isSaveLayer && !u.top.mark.deferred
    ensures !s.top.isNop && PaintResult(s.paint, SaveLayerFlags(withPaint)) != NoEffect
  {
    hide PaintResult, AccumulateLayer, LayerCull, IsOpacityCompatible;
  }

  lemma EnteredBoth(fm: FilterMeaning, s: BuilderState, c: Canvas, r: Canvas, u: BuilderState,
                    filter: Option<ImageFilter>, part: Part, marks: iset<Mark>, recorded: iset<Mark>)
    requires Paints(s, c.(marks := c.marks + marks), r.(marks := r.marks + recorded)) && !s.top.isNop
    requires u.below == s.below + [s.top] && u.paint == s.paint && u.top.mark.isSaveLayer && !u.top.mark.deferred
    requires MarksAgree(SpecOf(fm, c.top, filter, true, part, None), iset{}, iset{})
    requires ShowSame(Entered(fm, c, filter, part, marks).top, Entered(fm, r, filter, part, recorded).top)
    ensures Paints(u, Entered(fm, c, filter, part, marks), Entered(fm, r, filter, part, recorded))
  {
    TopFollows(s, c.(marks := c.marks + marks), r.(marks := r.marks + recorded));
    EnteredSpecs(fm, c, filter, part, marks);
    EnteredSpecs(fm, r, filter, part, recorded);
    hide ShowSame, MarksAgree, SpecOf;
    var cc, rr := Entered(fm, c, filter, part, marks), Entered(fm, r, filter, part, recorded);
    assert u.below[..|s.below|] == s.below && cc.below[..|c.below|] == c.below;
    assert cc.outer[..|c.outer|] == c.outer && cc.outer[|c.outer|] == c.marks + marks;
    assert rr.below[..|r.below|] == r.below && rr.outer[..|r.outer|] == r.outer
      && rr.outer[|r.outer|] == r.marks + recorded;
    assert Follows(u.below, u.top, cc.below, cc.top, cc.outer, cc.marks, rr.below, rr.top, rr.outer, rr.marks);
  }

  lemma EnteredSpecs(fm: FilterMeaning, c: Canvas, filter: Option<ImageFilter>, part: Part, marks: iset<Mark>)
    ensures var spec := Entered(fm, c, filter, part, marks).top.spec;
      spec.filter == filter && spec.matrix == c.top.matrix && spec.effective && spec.part == part
  {
  }

  // ------------------------------------------------------------- restores

  /** What surfaces from two layers that agree, through entries that show the same. */
  lemma SurfacedAgree(fm: FilterMeaning, info: SaveInfo, parent: CanvasEntry, recordedParent: CanvasEntry,
                      closing: CanvasEntry, recordedClosing: CanvasEntry, marks: iset<Mark>, recorded: iset<Mark>)
    requires Tracks(true, info, parent) && ShowSame(parent, recordedParent)
    requires closing.spec == SpecOf(fm, parent, closing.spec.filter, closing.spec.effective, closing.spec.part,
                                    closing.spec.bounds)
    requires closing.spec.filter == recordedClosing.spec.filter && closing.spec.matrix == recordedClosing.spec.matrix
    requires closing.spec.effective == recordedClosing.spec.effective && closing.spec.part == recordedClosing.spec.part
    requires MarksAgree(closing.spec, marks, recorded)
    ensures MarksAgree(parent.spec, Surfaced(fm, closing, parent, marks),
                       Surfaced(fm, recordedClosing, recordedParent, recorded))
  {
    hide Matrix.IsInvertible, Matrix.Times, Hidden, CullsHold, InExtent, Composed;
    var a, b := Surfaced(fm, closing, parent, marks), Surfaced(fm, recordedClosing, recordedParent, recorded);
    forall m: Mark | m in a || m in b
      ensures parent.spec.matrix.IsInvertible() && m.point in parent.spec.extent
      ensures m.point in parent.spec.relevant ==> (m in a <==> m in b)
    {
      if m.point in parent.spec.relevant {
        SurfacesAlike(fm, parent, recordedParent, closing, recordedClosing, marks, recorded, m);
      }
    }
  }

  lemma SurfacesAlike(fm: FilterMeaning, parent: CanvasEntry, recordedParent: CanvasEntry,
                      closing: CanvasEntry, recordedClosing: CanvasEntry, marks: iset<Mark>, recorded: iset<Mark>,
                      m: Mark)
    requires ShowSame(parent, recordedParent) && parent.spec.matrix.IsInvertible() && m.point in parent.spec.relevant
    requires closing.spec == SpecOf(fm, parent, closing.spec.filter, closing.spec.effective, closing.spec.part,
                                    closing.spec.bounds)
    requires closing.spec.filter == recordedClosing.spec.filter && closing.spec.matrix == recordedClosing.spec.matrix
    requires closing.spec.effective == recordedClosing.spec.effective && closing.spec.part == recordedClosing.spec.part
    requires MarksAgree(closing.spec, marks, recorded)
    ensures Surfaces(fm, closing, parent, marks, m) <==> Surfaces(fm, recordedClosing, recordedParent, recorded, m)
  {
    hide Matrix.IsInvertible, InExtent, Composed;
    assert Shows(parent, m.point) <==> Shows(recordedParent, m.point);
    forall q, part | Composed(fm, closing.spec.filter, closing.spec.matrix, q, m.point) && Shows(parent, m.point)
      && closing.spec.effective
      ensures Mark(m.id, part, m.paint, q) in marks <==> Mark(m.id, part, m.paint, q) in recorded
    {
      var was := Mark(m.id, part, m.paint, q);
      assert LeadsToSurface(fm, parent, closing.spec.filter, q);
      if was in marks || was in recorded {
        assert q in closing.spec.extent;
        assert q in closing.spec.relevant;
      }
    }
  }

  lemma DroppedSurfacedUnseen(fm: FilterMeaning, info: SaveInfo, parent: CanvasEntry, closing: CanvasEntry,
                              marks: iset<Mark>)
    requires Tracks(true, info, parent)
    requires closing.spec == SpecOf(fm, parent, closing.spec.filter, closing.spec.effective, closing.spec.part,
                                    closing.spec.bounds)
    requires MarksAgree(closing.spec, marks, iset{})
    ensures MarksAgree(parent.spec, Surfaced(fm, closing, parent, marks), iset{})
  {
    hide Matrix.IsInvertible, Matrix.Times, Hidden, CullsHold, InExtent, Composed;
    forall m | m in Surfaced(fm, closing, parent, marks)
      ensures parent.spec.matrix.IsInvertible() && m.point in parent.spec.extent && m.point !in parent.spec.relevant
    {
      var q, part :|
        Mark(m.id, part, m.paint, q) in marks && Composed(fm, closing.spec.filter, closing.spec.matrix, q, m.point);
      assert Mark(m.id, part, m.paint, q) in marks;
      LeadsBack(fm, parent, closing.spec.filter, closing.spec.effective, closing.spec.part, closing.spec.bounds, q,
                m.point);
    }
  }

  lemma LeadsBack(fm: FilterMeaning, parent: CanvasEntry, filter: Option<ImageFilter>, effective: bool, part: Part,
                  bounds: Option<Rect>, q: Point, p: Point)
    ensures var spec := SpecOf(fm, parent, filter, effective, part, bounds);
      Composed(fm, filter, parent.matrix, q, p) && Shows(parent, p) && effective && q in spec.extent ==>
        q in spec.relevant
  {
    assert Composed(fm, filter, parent.matrix, q, p) && Shows(parent, p) ==> LeadsToSurface(fm, parent, filter, q);
  }

  /** What `Sees` says about the two topmost entries. */
  lemma ParentTracks(fm: FilterMeaning, s: BuilderState, c: Canvas)
    requires Sees(true, fm, s, c) && s.below != []
    ensures |c.below| == |s.below| && Tracks(true, s.below[|s.below| - 1], c.below[|c.below| - 1])
    ensures c.top.isLayer ==>
      c.top.spec == SpecOf(fm, c.below[|c.below| - 1], c.top.spec.filter, c.top.spec.effective, c.top.spec.part,
                           c.top.spec.bounds)
  {
    hide Tracks, MarksHeld, SpecOf;
    var n, hi := |s.below| - 1, |s.rtree.rects|;
    if !c.top.isLayer {
      HeldTracks(true, fm, s.below[..n], s.below[n], c.below[..n], c.below[n], s.outer, s.layer, c.outer, c.marks,
                 s.rtree, hi);
    } else {
      var outer, marks := c.outer[..|c.outer| - 1], c.outer[|c.outer| - 1];
      if s.top.mark.isSaveLayer {
        HeldTracks(true, fm, s.below[..n], s.below[n], c.below[..n], c.below[n], s.outer[..|s.outer| - 1],
                   s.outer[|s.outer| - 1], outer, marks, s.rtree, s.layer.rtreeStart);
      } else {
        HeldTracks(true, fm, s.below[..n], s.below[n], c.below[..n], c.below[n], s.outer, s.layer, outer, marks,
                   s.rtree, hi);
      }
    }
  }

  /** Closing a plain entry: the canvas of the records pops only what it pushed. */
  lemma PlainCloses(fx: FilterBounds, fm: FilterMeaning, cull: Rect, s: BuilderState, c: Canvas)
    requires Faithful(fm, cull, s, c) && s.below != [] && !s.top.mark.isSaveLayer
    ensures Paints(Restore(fx, s), CanvasRestore(fm, c), CanvasOf(fm, cull, Restore(fx, s).records))
  {
    var r := CanvasOf(fm, cull, s.records);
    var n := |s.below| - 1;
    TopFollows(s, c, r);
    ParentTracks(fm, s, c);
    RestorePlainIsPop(fx, s);
    RestoredCanvas(fx, fm, cull, s);
    hide WellFormed, Bookkept, Restore, Surfaced, CanvasOf, MarksAgree, ShowSame, Held, Tracks, SpecOf;
    var recordedBelow := if s.top.mark.deferred then r.below else r.below[..|r.below| - 1];
    var recordedTop := if s.top.mark.deferred then r.top else r.below[|r.below| - 1];
    if c.top.isLayer {
      var more := Surfaced(fm, c.top, c.below[n], c.marks);
      DroppedSurfacedUnseen(fm, s.below[n], c.below[n], c.top, c.marks);
      AddBoth(s.below[..n], s.below[n], c.below[..n], c.below[n], c.outer[..|c.outer| - 1], c.outer[|c.outer| - 1],
              recordedBelow, recordedTop, r.outer, r.marks, more, iset{});
      assert r.marks + iset{} == r.marks;
    }
  }

  lemma RestoredCanvas(fx: FilterBounds, fm: FilterMeaning, cull: Rect, s: BuilderState)
    requires WellFormed(s) && s.below != [] && NoRecordBounds(s.records)
    ensures var r := CanvasOf(fm, cull, s.records);
      CanvasOf(fm, cull, Restore(fx, s).records) ==
      if s.top.mark.deferred then r else CanvasRestore(fm, r)
  {
    if s.top.mark.deferred {
      assert Restore(fx, s).records == s.records;
    } else {
      hide WellFormed, CanvasRestore, CanvasOf;
      RestoreIsReady(s);
      RestorePatches(fx, s);
      assert HasNoBounds(s.records[s.top.mark.saveOffset]);
      PatchedCall(fx, s);
      var k := s.top.mark.saveOffset;
      CanvasPatched(fm, cull, s.records, k, Restore(fx, s).records[k]);
      CanvasMore(fm, cull, s.records[k := Restore(fx, s).records[k]], RestoreRecord);
    }
  }

  /** A patched record still makes the same call when no caller gave bounds. */
  lemma PatchedCall(fx: FilterBounds, s: BuilderState)
    requires s.below != [] && !s.top.mark.deferred && NamesItsSave(s) && (s.top.mark.isSaveLayer ==> s.outer != [])
    requires HasNoBounds(s.records[s.top.mark.saveOffset])
    ensures var k := s.top.mark.saveOffset;
      |Restore(fx, s).records| > k && HasNoBounds(Restore(fx, s).records[k])
        && AsCall(s.records[k]) == AsCall(Restore(fx, s).records[k])
  {
    hide TransferLayerBounds, ContentIsClipped, DepthCost, LayerInfo.IsGroupOpacityCompatible;
  }

  /** Closing a layer: the same surfaces in both canvases. */
  lemma LayerCloses(fx: FilterBounds, fm: FilterMeaning, cull: Rect, s: BuilderState, c: Canvas)
    requires Faithful(fm, cull, s, c) && s.below != [] && s.top.mark.isSaveLayer
    ensures Paints(Restore(fx, s), CanvasRestore(fm, c), CanvasOf(fm, cull, Restore(fx, s).records))
  {
    var r := CanvasOf(fm, cull, s.records);
    var n := |s.below| - 1;
    ParentTracks(fm, s, c);
    RestoredCanvas(fx, fm, cull, s);
    RestorePopsEntry(fx, s);
    hide WellFormed, Bookkept, Restore, Surfaced, CanvasOf, MarksAgree, ShowSame, Held, Tracks, SpecOf;
    ParentShows(s, c, r);
    var parent, recordedParent := c.below[n], r.below[|r.below| - 1];
    var more, recordedMore := Surfaced(fm, c.top, parent, c.marks), Surfaced(fm, r.top, recordedParent, r.marks);
    SurfacedAgree(fm, s.below[n], parent, recordedParent, c.top, r.top, c.marks, r.marks);
    AddBoth(s.below[..n], s.below[n], c.below[..n], parent, c.outer[..|c.outer| - 1], c.outer[|c.outer| - 1],
            r.below[..|r.below| - 1], recordedParent, r.outer[..|r.outer| - 1], r.outer[|r.outer| - 1], more,
            recordedMore);
  }

  lemma ParentShows(s: BuilderState, c: Canvas, r: Canvas)
    requires Paints(s, c, r) && s.below != [] && s.top.mark.isSaveLayer
    ensures |c.below| == |s.below| && r.below != []
    ensures ShowSame(c.below[|c.below| - 1], r.below[|r.below| - 1])
  {
    hide ShowSame, MarksAgree;
    var n, k, j := |s.below| - 1, |r.below| - 1, |r.outer| - 1;
    FollowsTop(s.below[..n], s.below[n], c.below[..n], c.below[n], c.outer[..|c.outer| - 1], c.outer[|c.outer| - 1],
               r.below[..k], r.below[k], r.outer[..j], r.outer[j]);
  }

  lemma FollowsTop(below: seq<SaveInfo>, top: SaveInfo, canvasBelow: seq<CanvasEntry>, e: CanvasEntry,
                   outer: seq<iset<Mark>>, marks: iset<Mark>,
                   recordedBelow: seq<CanvasEntry>, r: CanvasEntry, recordedOuter: seq<iset<Mark>>,
                   recorded: iset<Mark>)
    requires Follows(below, top, canvasBelow, e, outer, marks, recordedBelow, r, recordedOuter, recorded)
    ensures !top.isNop ==> ShowSame(e, r)
  {
    hide ShowSame, MarksAgree;
  }

  lemma RestorePaints(fx: FilterBounds, fm: FilterMeaning, cull: Rect, s: BuilderState, c: Canvas)
    requires Faithful(fm, cull, s, c)
    ensures Paints(Restore(fx, s), CanvasRestore(fm, c), CanvasOf(fm, cull, Restore(fx, s).records))
  {
    if s.below == [] {
      TopFollows(s, c, CanvasOf(fm, cull, s.records));
      hide WellFormed, Bookkept, Sees, Paints;
    } else if s.top.mark.isSaveLayer {
      LayerCloses(fx, fm, cull, s, c);
    } else {
      PlainCloses(fx, fm, cull, s, c);
    }
  }

  lemma RestoreAddsNoBounds(fx: FilterBounds, s: BuilderState)
    requires WellFormed(s) && NoRecordBounds(s.records)
    ensures NoRecordBounds(Restore(fx, s).records)
  {
    if s.below != [] && !s.top.mark.deferred {
      hide WellFormed;
      RestoreIsReady(s);
      RestorePatches(fx, s);
      assert HasNoBounds(s.records[s.top.mark.saveOffset]);
      PatchedCall(fx, s);
      hide Restore;
    }
  }

  lemma RestoreIsFaithful(fx: FilterBounds, fm: FilterMeaning, cull: Rect, s: BuilderState, c: Canvas)
    requires Sound(fx, fm) && Faithful(fm, cull, s, c)
    ensures Faithful(fm, cull, Restore(fx, s), CanvasRestore(fm, c))
  {
    hide WellFormed, Bookkept, Sees, Paints, Sound, Restore, CanvasRestore, NoRecordBounds;
    RestoreAddsNoBounds(fx, s);
    RestorePaints(fx, fm, cull, s, c);
    RestoreSees(true, fx, fm, s, c);
    RestoreKeepsForm(fx, s);
    RestoreKeepsBooks(fx, s);
  }

  lemma {:induction false} RestoreToCountIsFaithful(fx: FilterBounds, fm: FilterMeaning, cull: Rect, s: BuilderState,
                                                    c: Canvas, count: int)
    requires Sound(fx, fm) && Faithful(fm, cull, s, c)
    ensures Faithful(fm, cull, RestoreToCount(fx, s, count), CanvasRestoreToCount(fm, c, count))
    decreases |s.below|
  {
    TopTracks(true, fm, s, c);
    if s.below != [] && |s.below| + 1 > count {
      hide Faithful, Restore, CanvasRestore, Sound;
      RestoreIsFaithful(fx, fm, cull, s, c);
      RestoreShrinks(fx, s);
      RestoreToCountIsFaithful(fx, fm, cull, Restore(fx, s), CanvasRestore(fm, c), count);
    }
  }

  // ------------------------------------------------------------- all runs

  lemma AttributePaints(fm: FilterMeaning, cull: Rect, s: BuilderState, c: Canvas, a: Attribute)
    requires Faithful(fm, cull, s, c)
    ensures Paints(SetAttribute(s, a), c.(paint := a.ApplyTo(c.paint)), CanvasOf(fm, cull, SetAttribute(s, a).records))
  {
    hide WellFormed, Bookkept, Sees, Follows, CanvasOf, Attribute.ApplyTo;
    CanvasMore(fm, cull, s.records, AttributeOp(a));
  }

  lemma StepPaints(fx: FilterBounds, fm: FilterMeaning, cull: Rect, s: BuilderState, c: Canvas, call: Call)
    requires Sound(fx, fm) && Faithful(fm, cull, s, c) && (call.SaveLayerCall? ==> call.bounds.None?)
    ensures Paints(Step(fx, s, call), CanvasStep(fm, c, call, |s.records|),
                   CanvasOf(fm, cull, Step(fx, s, call).records))
  {
    hide WellFormed, Bookkept, Sees, Paints, Sound, SaveLayer, CanvasSaveLayer, Restore, CanvasRestore, RestoreToCount,
      CanvasRestoreToCount,
      Transform, Clip, DrawOp, DrawDisplayList, DrawMarks, ListMarks, SetAttribute, ResultOf, Save;
    match call
    case SetAttributeCall(a) => AttributePaints(fm, cull, s, c, a);
    case SaveCall =>
      SavePaints(fm, cull, s, c);
      SaveKeepsRecords(s);
    case SaveLayerCall(bounds, withPaint, backdrop) =>
      if ResultOf(s.top, s.paint, SaveLayerFlags(withPaint)) == NoEffect {
        DroppedLayerPaints(fx, fm, cull, s, c, withPaint, backdrop);
      } else {
        LayerPaints(fx, fm, cull, s, c, withPaint, backdrop);
      }
    case RestoreCall => RestorePaints(fx, fm, cull, s, c);
    case RestoreToCountCall(count) => RestoreToCountIsFaithful(fx, fm, cull, s, c, count);
    case TransformCall(t) => TransformPaints(fm, cull, s, c, t, |s.records|);
    case ClipCall(r, op) => ClipPaints(fm, cull, s, c, r, op, |s.records|);
    case DrawCall(d) => DrawPaints(fx, fm, cull, s, c, d);
    case DrawListCall(list, opacity) => ListPaints(fm, cull, s, c, list, opacity);
  }

  lemma SaveKeepsRecords(s: BuilderState)
    ensures Save(s).records == s.records
  {
  }

  /** Pushing records without bounds, under a top entry that may have been deferred. */
  lemma PushesAddNoBounds(s: BuilderState, u: BuilderState, op: Record)
    requires NoRecordBounds(s.records) && HasNoBounds(op)
    requires || u.records == s.records || u.records == s.records + [op]
      || u.records == s.records + [SaveRecord(0, 0)] + [op]
    ensures NoRecordBounds(u.records)
  {
  }

  lemma {:induction false} RestoresAddNoBounds(fx: FilterBounds, s: BuilderState, count: int)
    requires WellFormed(s) && NoRecordBounds(s.records)
    ensures NoRecordBounds(RestoreToCount(fx, s, count).records)
    decreases |s.below|
  {
    if s.below != [] && |s.below| + 1 > count {
      hide WellFormed, NoRecordBounds, Restore;
      RestoreAddsNoBounds(fx, s);
      RestoreKeepsForm(fx, s);
      RestoreShrinks(fx, s);
      RestoresAddNoBounds(fx, Restore(fx, s), count);
    }
  }

  lemma StepAddsNoBounds(fx: FilterBounds, s: BuilderState, call: Call)
    requires WellFormed(s) && NoRecordBounds(s.records) && (call.SaveLayerCall? ==> call.bounds.None?)
    ensures NoRecordBounds(Step(fx, s, call).records)
  {
    hide WellFormed, NoRecordBounds, AccumulateGeometry, AccumulateRects, AccumulateUnbounded, PaintResult,
      ListIsVisible,
      ClipIsRedundant, CullIsEmpty, Tracker.ClipRect, Restore, RestoreToCount, AccumulateLayer, LayerEntry,
      IsOpacityCompatible, ChangesMatrix;
    var u := Step(fx, s, call);
    match call
    case SetAttributeCall(a) => PushesAddNoBounds(s, u, AttributeOp(a));
    case SaveCall =>
    case SaveLayerCall(bounds, withPaint, backdrop) =>
      PushesAddNoBounds(s, u, NewSaveLayerRecord(withPaint, None, backdrop));
    case RestoreCall => RestoreAddsNoBounds(fx, s);
    case RestoreToCountCall(count) => RestoresAddNoBounds(fx, s, count);
    case TransformCall(t) => PushesAddNoBounds(s, u, TransformRecord(t));
    case ClipCall(r, op) => PushesAddNoBounds(s, u, ClipRecord(r, op));
    case DrawCall(d) => PushesAddNoBounds(s, u, DrawRecord(d));
    case DrawListCall(list, opacity) => PushesAddNoBounds(s, u, DrawListRecord(list, Min(opacity, 1.0)));
  }

  lemma StepIsFaithful(fx: FilterBounds, fm: FilterMeaning, cull: Rect, s: BuilderState, c: Canvas, call: Call)
    requires Sound(fx, fm) && Faithful(fm, cull, s, c) && (call.SaveLayerCall? ==> call.bounds.None?)
    requires call == TransformCall(TransformReset) ==> c.top.matrix.IsInvertible()
    ensures Faithful(fm, cull, Step(fx, s, call), CanvasStep(fm, c, call, |s.records|))
  {
    hide WellFormed, Bookkept, Sees, Paints, Sound, Step, CanvasStep, KeptStep, NoRecordBounds;
    StepPaints(fx, fm, cull, s, c, call);
    StepAddsNoBounds(fx, s, call);
    StepSees(true, fx, fm, s, c, call, true);
    KeepingAll(fm, c, call, |s.records|);
    StepKeepsForm(fx, s, call);
    StepKeepsBooks(fx, s, call);
  }

  lemma InitPaints(cull: Rect)
    ensures Paints(Init(cull), StartCanvas(cull), StartCanvas(cull))
  {
    EmptyMarksAgree(StartCanvas(cull).top.spec);
    hide MarksAgree;
  }

  lemma InitIsFaithful(fm: FilterMeaning, cull: Rect)
    ensures Faithful(fm, cull, Init(cull), StartCanvas(cull))
  {
    InitSees(true, fm, cull);
    InitPaints(cull);
    InitIsWellFormed(cull);
    hide Sees, Paints, WellFormed, Bookkept, StartCanvas;
  }

  /** No caller gives bounds for a layer. */
  ghost predicate NoCallerBounds(calls: seq<Call>) {
    forall k :: 0 <= k < |calls| ==> calls[k].SaveLayerCall? ==> calls[k].bounds.None?
  }

  lemma {:induction false} RunIsFaithful(fx: FilterBounds, fm: FilterMeaning, cull: Rect, calls: seq<Call>)
    requires Sound(fx, fm) && ResetsInvertible(fx, fm, cull, calls) && NoCallerBounds(calls)
    ensures Faithful(fm, cull, Run(fx, cull, calls), CanvasRun(fx, fm, cull, calls))
  {
    if calls == [] {
      InitIsFaithful(fm, cull);
    } else {
      var init := calls[..|calls| - 1];
      InitResets(fx, fm, cull, calls);
      hide Faithful, Sound, ResetsInvertible, Step, CanvasStep;
      RunIsFaithful(fx, fm, cull, init);
      StepIsFaithful(fx, fm, cull, Run(fx, cull, init), CanvasRun(fx, fm, cull, init), calls[|calls| - 1]);
    }
  }

  // ------------------------------------------- the filters that a run uses

  /** Records use no filters but those of the calls. */
  ghost predicate RecordsAmong(ops: seq<Record>, filters: iset<ImageFilter>) {
    forall k :: 0 <= k < |ops| ==> SetsAmong(AsCall(ops[k]), filters)
  }

  lemma PushesAreAmong(s: BuilderState, u: BuilderState, op: Record, filters: iset<ImageFilter>)
    requires RecordsAmong(s.records, filters) && SetsAmong(AsCall(op), filters)
    requires || u.records == s.records || u.records == s.records + [op]
      || u.records == s.records + [SaveRecord(0, 0)] + [op]
    ensures RecordsAmong(u.records, filters)
  {
  }

  lemma RestoreIsAmong(fx: FilterBounds, s: BuilderState, filters: iset<ImageFilter>)
    requires WellFormed(s) && RecordsAmong(s.records, filters)
    ensures RecordsAmong(Restore(fx, s).records, filters)
  {
    if s.below != [] && !s.top.mark.deferred {
      hide WellFormed;
      RestoreIsReady(s);
      RestorePatches(fx, s);
      hide Restore;
    }
  }

  lemma {:induction false} RestoresAreAmong(fx: FilterBounds, s: BuilderState, count: int, filters: iset<ImageFilter>)
    requires WellFormed(s) && RecordsAmong(s.records, filters)
    ensures RecordsAmong(RestoreToCount(fx, s, count).records, filters)
    decreases |s.below|
  {
    if s.below != [] && |s.below| + 1 > count {
      hide WellFormed, RecordsAmong, Restore;
      RestoreIsAmong(fx, s, filters);
      RestoreKeepsForm(fx, s);
      RestoreShrinks(fx, s);
      RestoresAreAmong(fx, Restore(fx, s), count, filters);
    }
  }

  lemma StepIsAmong(fx: FilterBounds, s: BuilderState, call: Call, filters: iset<ImageFilter>)
    requires WellFormed(s) && RecordsAmong(s.records, filters) && SetsAmong(call, filters)
    ensures RecordsAmong(Step(fx, s, call).records, filters)
  {
    hide WellFormed, RecordsAmong, AccumulateGeometry, AccumulateRects, AccumulateUnbounded, PaintResult, ListIsVisible,
      ClipIsRedundant, CullIsEmpty, Tracker.ClipRect, Restore, RestoreToCount, AccumulateLayer, LayerEntry,
      IsOpacityCompatible, ChangesMatrix, IsAmong;
    var u := Step(fx, s, call);
    match call
    case SetAttributeCall(a) => PushesAreAmong(s, u, AttributeOp(a), filters);
    case SaveCall =>
    case SaveLayerCall(bounds, withPaint, backdrop) =>
      PushesAreAmong(s, u, NewSaveLayerRecord(withPaint, bounds, backdrop), filters);
    case RestoreCall => RestoreIsAmong(fx, s, filters);
    case RestoreToCountCall(count) => RestoresAreAmong(fx, s, count, filters);
    case TransformCall(t) => PushesAreAmong(s, u, TransformRecord(t), filters);
    case ClipCall(r, op) => PushesAreAmong(s, u, ClipRecord(r, op), filters);
    case DrawCall(d) => PushesAreAmong(s, u, DrawRecord(d), filters);
    case DrawListCall(list, opacity) => PushesAreAmong(s, u, DrawListRecord(list, Min(opacity, 1.0)), filters);
  }

  lemma {:induction false} RunIsAmong(fx: FilterBounds, cull: Rect, calls: seq<Call>, filters: iset<ImageFilter>)
    requires AllSetAmong(calls, filters)
    ensures RecordsAmong(Run(fx, cull, calls).records, filters)
  {
    if calls != [] {
      hide Step, RecordsAmong, SetsAmong, WellFormed;
      var init := calls[..|calls| - 1];
      RunIsAmong(fx, cull, init, filters);
      RunIsWellFormed(fx, cull, init);
      StepIsAmong(fx, Run(fx, cull, init), calls[|calls| - 1], filters);
    }
  }

  /** The canvas of records does not depend on filters that they do not use. */
  lemma {:induction false} CanvasesOfAlike(fm: FilterMeaning, cull: Rect, ops: seq<Record>, filters: iset<ImageFilter>)
    requires RecordsAmong(ops, filters)
    ensures CanvasOf(Only(fm, filters), cull, ops) == CanvasOf(fm, cull, ops)
    ensures UsesOnly(CanvasOf(fm, cull, ops), filters)
  {
    if ops == [] {
      StartUsesNone(cull, filters);
    } else {
      hide CanvasStep, UsesOnly, SetsAmong, AsCall;
      var n := |ops| - 1;
      CanvasesOfAlike(fm, cull, ops[..n], filters);
      StepsAlike(fm, filters, CanvasOf(fm, cull, ops[..n]), AsCall(ops[n]), n, true);
    }
  }

  lemma BuiltCanvasAlike(fx: FilterBounds, fm: FilterMeaning, cull: Rect, calls: seq<Call>)
    ensures var ops := Finished(fx, cull, calls).records;
      CanvasOf(UsedMeaning(fm, calls), cull, ops) == CanvasOf(fm, cull, ops)
  {
    var filters := FiltersOf(calls);
    CallsSetTheirOwn(calls);
    RunIsAmong(fx, cull, calls, filters);
    RunIsWellFormed(fx, cull, calls);
    hide WellFormed, RecordsAmong, Run, RestoreToCount, CanvasOf;
    RestoresAreAmong(fx, Run(fx, cull, calls), 1, filters);
    CanvasesOfAlike(fm, cull, Finished(fx, cull, calls).records, filters);
  }

  /** For every list of calls: inside the cull rectangle the built records mark exactly
      the points that the calls mark, for the same drawings with the same paints. */
  lemma RecordsPaintWhatCallsPaint(fx: FilterBounds, fm: FilterMeaning, cull: Rect, calls: seq<Call>, m: Mark)
    requires FiltersAreSound(fx, fm, calls) && ResetsInvertible(fx, fm, cull, calls) && NoCallerBounds(calls)
    requires cull.Inside(m.point)
    ensures m in CanvasFinished(fx, fm, cull, calls).marks
      <==> m in CanvasOf(fm, cull, Finished(fx, cull, calls).records).marks
  {
    var used := UsedMeaning(fm, calls);
    UsedFiltersDecide(fx, fm, cull, calls);
    BuiltCanvasAlike(fx, fm, cull, calls);
    hide *;
    FinishedPaints(fx, used, cull, calls, m);
  }

  lemma FinishedPaints(fx: FilterBounds, fm: FilterMeaning, cull: Rect, calls: seq<Call>, m: Mark)
    requires Sound(fx, fm) && ResetsInvertible(fx, fm, cull, calls) && NoCallerBounds(calls) && cull.Inside(m.point)
    ensures m in CanvasFinished(fx, fm, cull, calls).marks
      <==> m in CanvasOf(fm, cull, Finished(fx, cull, calls).records).marks
  {
    var s, c := Run(fx, cull, calls), CanvasRun(fx, fm, cull, calls);
    RunIsFaithful(fx, fm, cull, calls);
    RestoreToCountIsFaithful(fx, fm, cull, s, c, 1);
    FaithfulForm(fm, cull, s, c);
    RestoreToCountKeepsForm(fx, s, 1);
    RootSpec(fx, fm, cull, calls);
    ClosedPaints(fm, cull, Finished(fx, cull, calls), CanvasFinished(fx, fm, cull, calls), m);
    hide *;
  }

  lemma FaithfulForm(fm: FilterMeaning, cull: Rect, s: BuilderState, c: Canvas)
    requires Faithful(fm, cull, s, c)
    ensures WellFormed(s)
  {
  }

  lemma ClosedPaints(fm: FilterMeaning, cull: Rect, s: BuilderState, c: Canvas, m: Mark)
    requires Faithful(fm, cull, s, c) && s.below == [] && Root(c).spec == StartCanvas(cull).top.spec
    requires cull.Inside(m.point)
    ensures m in c.marks <==> m in CanvasOf(fm, cull, s.records).marks
  {
    var r := CanvasOf(fm, cull, s.records);
    assert MarksAgree(c.top.spec, c.marks, r.marks);
    assert m.point in c.top.spec.relevant;
    hide CanvasOf;
  }
}
