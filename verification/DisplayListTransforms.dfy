/**
 Where transforms move points. Each call is stated on points, and in every run the matrices
 of the builder and of the canvas move each point as the transforms in force do, one after
 the other, with the scopes of saves and restores.
 */
module DisplayListTransforms {
  import opened Options
  import opened DisplayListTypes
  import opened DisplayListPaint
  import opened DisplayListBuilderSpec
  import opened DisplayListNesting
  import opened DisplayListGeometry
  import opened DisplayListCanvas

  // ---------------------------------------------------------- one transform

  function Translated(tx: real, ty: real, p: Point): Point {
    Point(p.x + tx, p.y + ty)
  }

  function Scaled(sx: real, sy: real, p: Point): Point {
    Point(p.x * sx, p.y * sy)
  }

  lemma TranslationMoves(tx: real, ty: real, p: Point)
    ensures MatrixOf(Translate(tx, ty)).Apply(p) == Translated(tx, ty, p)
  {
  }

  lemma ScaleMoves(sx: real, sy: real, p: Point)
    ensures MatrixOf(Scale(sx, sy)).Apply(p) == Scaled(sx, sy, p)
  {
  }

  /** What a transform does to a point of the drawing. */
  function Moved(t: TransformOp, p: Point): Point
    requires !t.TransformReset?
  {
    match t
    case Translate(tx, ty) => Translated(tx, ty, p)
    case Scale(sx, sy) => Scaled(sx, sy, p)
  }

  /** A matrix that a transform was appended to: the transform moves a point first. */
  ghost predicate MovesBy(before: Matrix, after: Matrix, t: TransformOp) {
    forall p :: after.Apply(p) == if t.TransformReset? then p else before.Apply(Moved(t, p))
  }

  lemma ConcatMoves(m: Matrix, t: TransformOp)
    ensures MovesBy(m, if t.TransformReset? then IDENTITY else m.Times(MatrixOf(t)), t)
  {
    hide Matrix.Times, Matrix.Apply;
    forall p
      ensures t.TransformReset? ==> IDENTITY.Apply(p) == p
      ensures !t.TransformReset? ==> m.Times(MatrixOf(t)).Apply(p) == m.Apply(Moved(t, p))
    {
      IdentityApplies(p);
      match t {
        case Translate(tx, ty) =>
          TimesApplies(m, MatrixOf(t), p);
          TranslationMoves(tx, ty, p);
        case Scale(sx, sy) =>
          TimesApplies(m, MatrixOf(t), p);
          ScaleMoves(sx, sy, p);
        case TransformReset =>
      }
    }
    hide MatrixOf, Moved;
  }

  /** Transforms that are not recorded move nothing. */
  lemma SkippedMoves(m: Matrix, t: TransformOp)
    requires !ChangesMatrix(t)
    ensures MovesBy(m, m, t)
  {
    hide Matrix.Apply;
    assert forall p :: Translated(0.0, 0.0, p) == p && Scaled(1.0, 1.0, p) == p;
  }

  /** What a transform does to the matrices of the builder. The device matrix, and the
      matrix of the layer, move a point by it first. A reset leaves every point on the
      device where it is, and the layer's matrix takes a point of the device to where it
      took the point of the drawing that was shown there. */
  lemma TransformMovesPoints(s: BuilderState, t: TransformOp)
    ensures var u := Transform(s, t);
      && MovesBy(s.top.global.matrix, u.top.global.matrix, t)
      && (!t.TransformReset? ==> MovesBy(s.top.layer.matrix, u.top.layer.matrix, t))
      && (t.TransformReset? && s.top.global.matrix.IsInvertible() ==>
            forall p :: u.top.layer.matrix.Apply(s.top.global.matrix.Apply(p)) == s.top.layer.matrix.Apply(p))
      && (t.TransformReset? && !s.top.global.matrix.IsInvertible() ==>
            forall p :: u.top.layer.matrix.Apply(p) == Point(0.0, 0.0))
  {
    var device, layer := s.top.global.matrix, s.top.layer.matrix;
    if !ChangesMatrix(t) {
      SkippedMoves(device, t);
      SkippedMoves(layer, t);
    } else {
      TransformedTop(s, t);
      ConcatMoves(device, t);
      ConcatMoves(layer, t);
      if t.TransformReset? {
        ResetMoves(device, layer);
      }
    }
    hide *;
  }

  ghost predicate MovesSome(t: TransformOp) {
    t.TransformReset? || exists p :: Moved(t, p) != p
  }

  /** A transform is recorded if and only if it is a reset or moves some point. */
  lemma TransformIsRecordedExactly(s: BuilderState, t: TransformOp)
    ensures var u := Transform(s, t);
      if MovesSome(t) then u.records == CheckForDeferredSave(s).records + [TransformRecord(t)] else u == s
  {
    if ChangesMatrix(t) && !t.TransformReset? {
      assert Moved(t, Point(1.0, 1.0)) != Point(1.0, 1.0);
    }
    hide Transformed, CheckForDeferredSave;
  }

  lemma TransformedTop(s: BuilderState, t: TransformOp)
    requires ChangesMatrix(t)
    ensures var u, device, layer := Transform(s, t), s.top.global.matrix, s.top.layer.matrix;
      if t.TransformReset? then
        && u.top.global.matrix == IDENTITY
        && u.top.layer.matrix == if device.IsInvertible() then layer.Times(device.Invert()) else SINGULAR
      else u.top.global.matrix == device.Times(MatrixOf(t)) && u.top.layer.matrix == layer.Times(MatrixOf(t))
  {
    hide Matrix.Times, Matrix.Invert, Matrix.IsInvertible, ChangesMatrix, MatrixOf;
  }

  lemma ResetMoves(device: Matrix, layer: Matrix)
    ensures forall p :: SINGULAR.Apply(p) == Point(0.0, 0.0)
    ensures device.IsInvertible() ==>
      forall p :: layer.Times(device.Invert()).Apply(device.Apply(p)) == layer.Apply(p)
  {
    hide Matrix.Times, Matrix.Invert, Matrix.IsInvertible;
    assert forall p :: SINGULAR.Apply(p) == Point(0.0, 0.0);
    hide Matrix.Apply;
    forall p | device.IsInvertible()
      ensures layer.Times(device.Invert()).Apply(device.Apply(p)) == layer.Apply(p)
    {
      TimesApplies(layer, device.Invert(), device.Apply(p));
      InverseIsUndone(device, p);
    }
  }

  // --------------------------------------------------- the transforms in force

  /** Where a list of transforms takes a point: the last one first. */
  function Placed(ts: seq<TransformOp>, p: Point): Point {
    if ts == [] then p
    else
      var last := ts[|ts| - 1];
      if last.TransformReset? then p else Placed(ts[..|ts| - 1], Moved(last, p))
  }

  /** The transforms of every open scope. */
  datatype Scopes = Scopes(below: seq<seq<TransformOp>>, top: seq<TransformOp>)

  function Popped(sc: Scopes): Scopes {
    if sc.below == [] then sc else Scopes(sc.below[..|sc.below| - 1], sc.below[|sc.below| - 1])
  }

  function PoppedTo(sc: Scopes, count: int): Scopes
    decreases |sc.below|
  {
    if sc.below == [] || |sc.below| + 1 <= count then sc else PoppedTo(Popped(sc), count)
  }

  function ScopesAfter(sc: Scopes, call: Call): Scopes {
    match call
    case TransformCall(t) => sc.(top := sc.top + [t])
    case SaveCall => sc.(below := sc.below + [sc.top])
    case SaveLayerCall(_, _, _) => sc.(below := sc.below + [sc.top])
    case RestoreCall => Popped(sc)
    case RestoreToCountCall(count) => PoppedTo(sc, count)
    case _ => sc
  }

  function ScopesOf(calls: seq<Call>): Scopes {
    if calls == [] then Scopes([], []) else ScopesAfter(ScopesOf(calls[..|calls| - 1]), calls[|calls| - 1])
  }

  ghost predicate Places(m: Matrix, ts: seq<TransformOp>) {
    forall p :: m.Apply(p) == Placed(ts, p)
  }

  lemma PlacesMore(m: Matrix, after: Matrix, ts: seq<TransformOp>, t: TransformOp)
    requires Places(m, ts) && MovesBy(m, after, t)
    ensures Places(after, ts + [t])
  {
    hide Matrix.Apply, Moved;
    assert (ts + [t])[..|ts|] == ts;
  }

  /** The matrices of a stack of entries. */
  ghost predicate AllPlace(below: seq<Matrix>, top: Matrix, sc: Scopes) {
    && |below| == |sc.below| && Places(top, sc.top)
    && (forall k :: 0 <= k < |below| ==> Places(below[k], sc.below[k]))
  }

  function DeviceMatrices(below: seq<SaveInfo>): seq<Matrix> {
    seq(|below|, k requires 0 <= k < |below| => below[k].global.matrix)
  }

  ghost predicate BuilderPlaces(s: BuilderState, sc: Scopes) {
    AllPlace(DeviceMatrices(s.below), s.top.global.matrix, sc)
  }

  function CanvasMatrices(below: seq<CanvasEntry>): seq<Matrix> {
    seq(|below|, k requires 0 <= k < |below| => below[k].matrix)
  }

  ghost predicate CanvasPlaces(c: Canvas, sc: Scopes) {
    AllPlace(CanvasMatrices(c.below), c.top.matrix, sc)
  }

  lemma PushPlaces(below: seq<Matrix>, top: Matrix, sc: Scopes)
    requires AllPlace(below, top, sc)
    ensures AllPlace(below + [top], top, Scopes(sc.below + [sc.top], sc.top))
  {
    hide Places;
  }

  lemma PopPlaces(below: seq<Matrix>, top: Matrix, sc: Scopes)
    requires AllPlace(below, top, sc) && below != []
    ensures AllPlace(below[..|below| - 1], below[|below| - 1], Popped(sc))
  {
    hide Places;
  }

  // ------------------------------------------------------------ the builder

  lemma SavedMatrices(fx: FilterBounds, s: BuilderState, call: Call)
    requires call.SaveCall? || call.SaveLayerCall?
    ensures var u := Step(fx, s, call);
      DeviceMatrices(u.below) == DeviceMatrices(s.below) + [s.top.global.matrix]
        && u.top.global.matrix == s.top.global.matrix
  {
    hide PaintResult, AccumulateLayer, IsOpacityCompatible, Tracker.MapAndClip, ProtectEmpty;
    assert Step(fx, s, call).below == s.below + [s.top];
    if call.SaveLayerCall? {
      LayerMatrix(fx, s, LayerFilter(s.paint, call.withPaint), call.bounds);
    }
    hide LayerEntry;
  }

  lemma LayerMatrix(fx: FilterBounds, s: BuilderState, filter: Option<ImageFilter>, bounds: Option<Rect>)
    ensures LayerEntry(fx, s, filter, bounds).global.matrix == s.top.global.matrix
  {
    hide Matrix.MapBounds;
  }

  lemma RestoredMatrices(fx: FilterBounds, s: BuilderState)
    ensures var u := Restore(fx, s);
      if s.below == [] then u == s else u.below == s.below[..|s.below| - 1] && u.top == s.below[|s.below| - 1]
  {
    hide TransferLayerBounds, SettledLayer, ContentBounds, PatchSave, NamesItsSave;
  }

  lemma {:induction false} RestoresPlace(fx: FilterBounds, s: BuilderState, sc: Scopes, count: int)
    requires BuilderPlaces(s, sc)
    ensures BuilderPlaces(RestoreToCount(fx, s, count), PoppedTo(sc, count))
    decreases |s.below|
  {
    assert |s.below| == |sc.below|;
    if s.below != [] && |s.below| + 1 > count {
      hide Restore, AllPlace, Popped;
      RestorePlaces(fx, s, sc);
      RestoreShrinks(fx, s);
      RestoresPlace(fx, Restore(fx, s), Popped(sc), count);
    }
  }

  lemma RestorePlaces(fx: FilterBounds, s: BuilderState, sc: Scopes)
    requires BuilderPlaces(s, sc)
    ensures BuilderPlaces(Restore(fx, s), Popped(sc))
  {
    RestoredMatrices(fx, s);
    hide Restore, Places;
    if s.below != [] {
      PopPlaces(DeviceMatrices(s.below), s.top.global.matrix, sc);
      assert DeviceMatrices(s.below[..|s.below| - 1]) == DeviceMatrices(s.below)[..|s.below| - 1];
    }
  }

  lemma OthersKeepMatrices(fx: FilterBounds, s: BuilderState, call: Call)
    requires call.SetAttributeCall? || call.ClipCall? || call.DrawCall? || call.DrawListCall?
    ensures var u := Step(fx, s, call);
      u.below == s.below && u.top.global.matrix == s.top.global.matrix
  {
    hide AccumulateGeometry, AccumulateRects, AccumulateUnbounded, PaintResult, IsOpacityCompatible, ClipIsRedundant,
      CullIsEmpty, Attribute.ApplyTo, Matrix.MapBounds;
  }

  lemma TransformedBelow(s: BuilderState, t: TransformOp)
    ensures Transform(s, t).below == s.below
  {
    hide Transformed, ChangesMatrix;
  }

  lemma StepPlaces(fx: FilterBounds, s: BuilderState, call: Call, sc: Scopes)
    requires BuilderPlaces(s, sc)
    ensures BuilderPlaces(Step(fx, s, call), ScopesAfter(sc, call))
  {
    hide Places, Transform, Save, SaveLayer, Restore, RestoreToCount, DrawOp, DrawDisplayList, Clip, SetAttribute;
    match call
    case TransformCall(t) =>
      TransformMovesPoints(s, t);
      TransformedBelow(s, t);
      PlacesMore(s.top.global.matrix, Transform(s, t).top.global.matrix, sc.top, t);
    case SaveCall =>
      SavedMatrices(fx, s, call);
      PushPlaces(DeviceMatrices(s.below), s.top.global.matrix, sc);
    case SaveLayerCall(_, _, _) =>
      SavedMatrices(fx, s, call);
      PushPlaces(DeviceMatrices(s.below), s.top.global.matrix, sc);
    case RestoreCall => RestorePlaces(fx, s, sc);
    case RestoreToCountCall(count) => RestoresPlace(fx, s, sc, count);
    case _ => OthersKeepMatrices(fx, s, call);
  }

  // ------------------------------------------------------------- the canvas

  lemma SavedCanvasMatrices(fm: FilterMeaning, c: Canvas, call: Call, id: nat)
    requires call.SaveCall? || call.SaveLayerCall?
    ensures var d := CanvasStep(fm, c, call, id);
      CanvasMatrices(d.below) == CanvasMatrices(c.below) + [c.top.matrix] && d.top.matrix == c.top.matrix
  {
    hide PaintResult, LayerMarks, SpecOf;
    assert CanvasStep(fm, c, call, id).below == c.below + [c.top];
  }

  lemma CanvasRestorePlaces(fm: FilterMeaning, c: Canvas, sc: Scopes)
    requires CanvasPlaces(c, sc)
    ensures CanvasPlaces(CanvasRestore(fm, c), Popped(sc))
  {
    hide Surfaced, Places;
    if c.below != [] {
      PopPlaces(CanvasMatrices(c.below), c.top.matrix, sc);
      assert CanvasMatrices(c.below[..|c.below| - 1]) == CanvasMatrices(c.below)[..|c.below| - 1];
    }
  }

  lemma {:induction false} CanvasRestoresPlace(fm: FilterMeaning, c: Canvas, sc: Scopes, count: int)
    requires CanvasPlaces(c, sc)
    ensures CanvasPlaces(CanvasRestoreToCount(fm, c, count), PoppedTo(sc, count))
    decreases |c.below|
  {
    assert |c.below| == |sc.below|;
    if c.below != [] && |c.below| + 1 > count {
      hide CanvasRestore, AllPlace, Popped;
      CanvasRestorePlaces(fm, c, sc);
      RestoreShrinksCanvas(fm, c);
      CanvasRestoresPlace(fm, CanvasRestore(fm, c), Popped(sc), count);
    }
  }

  lemma OthersKeepCanvasMatrices(fm: FilterMeaning, c: Canvas, call: Call, id: nat)
    requires call.SetAttributeCall? || call.ClipCall? || call.DrawCall? || call.DrawListCall?
    ensures var d := CanvasStep(fm, c, call, id);
      d.below == c.below && d.top.matrix == c.top.matrix
  {
    hide DrawMarks, ListMarks, ClipPoints, Attribute.ApplyTo;
  }

  lemma CanvasTransformPlaces(fm: FilterMeaning, c: Canvas, t: TransformOp, id: nat)
    ensures var d := CanvasStep(fm, c, TransformCall(t), id);
      d.below == c.below && MovesBy(c.top.matrix, d.top.matrix, t)
  {
    ConcatMoves(c.top.matrix, t);
    hide MovesBy, Matrix.Times, MatrixOf;
  }

  lemma CanvasStepPlaces(fm: FilterMeaning, c: Canvas, call: Call, id: nat, sc: Scopes)
    requires CanvasPlaces(c, sc)
    ensures CanvasPlaces(CanvasStep(fm, c, call, id), ScopesAfter(sc, call))
  {
    hide Places, CanvasRestore, CanvasRestoreToCount, CanvasSaveLayer, DrawMarks, ListMarks, ClipPoints, ConcatMatrix;
    match call
    case TransformCall(t) =>
      CanvasTransformPlaces(fm, c, t, id);
      PlacesMore(c.top.matrix, CanvasStep(fm, c, call, id).top.matrix, sc.top, t);
    case SaveCall =>
      SavedCanvasMatrices(fm, c, call, id);
      PushPlaces(CanvasMatrices(c.below), c.top.matrix, sc);
    case SaveLayerCall(_, _, _) =>
      SavedCanvasMatrices(fm, c, call, id);
      PushPlaces(CanvasMatrices(c.below), c.top.matrix, sc);
    case RestoreCall => CanvasRestorePlaces(fm, c, sc);
    case RestoreToCountCall(count) => CanvasRestoresPlace(fm, c, sc, count);
    case _ => OthersKeepCanvasMatrices(fm, c, call, id);
  }

  // ------------------------------------------------------------------- runs

  lemma StartPlaces(cull: Rect)
    ensures BuilderPlaces(Init(cull), Scopes([], [])) && CanvasPlaces(StartCanvas(cull), Scopes([], []))
  {
    hide Matrix.Apply;
    forall p
      ensures IDENTITY.Apply(p) == p
    {
      IdentityApplies(p);
    }
  }

  lemma {:induction false} RunPlaces(fx: FilterBounds, fm: FilterMeaning, cull: Rect, calls: seq<Call>)
    ensures BuilderPlaces(Run(fx, cull, calls), ScopesOf(calls))
    ensures CanvasPlaces(CanvasRun(fx, fm, cull, calls), ScopesOf(calls))
  {
    hide BuilderPlaces, CanvasPlaces, Step, CanvasStep, ScopesAfter, Init, StartCanvas;
    if calls == [] {
      StartPlaces(cull);
    } else {
      var init, last := calls[..|calls| - 1], calls[|calls| - 1];
      RunPlaces(fx, fm, cull, init);
      StepPlaces(fx, Run(fx, cull, init), last, ScopesOf(init));
      CanvasStepPlaces(fm, CanvasRun(fx, fm, cull, init), last, |Run(fx, cull, init).records|, ScopesOf(init));
    }
  }

  /** In every run the builder and the canvas put each point where the transforms in force
      take it. */
  lemma RunPlacesPoints(fx: FilterBounds, fm: FilterMeaning, cull: Rect, calls: seq<Call>, p: Point)
    ensures Run(fx, cull, calls).top.global.matrix.Apply(p) == Placed(ScopesOf(calls).top, p)
    ensures CanvasRun(fx, fm, cull, calls).top.matrix.Apply(p) == Placed(ScopesOf(calls).top, p)
  {
    RunPlaces(fx, fm, cull, calls);
    hide Run, CanvasRun, Placed, ScopesOf, Matrix.Apply;
  }
}
