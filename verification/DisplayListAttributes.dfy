/**
 What the attribute setters do, field by field, and that attributes have no scope: in every
 run the last value that was set wins, whatever is saved and restored in between.
 */
module DisplayListAttributes {
  import opened DisplayListTypes
  import opened DisplayListPaint
  import opened DisplayListBuilderSpec
  import opened DisplayListNesting
  import opened DisplayListCanvas

  /** The paint has the value that the attribute gives. */
  predicate HasValue(p: Paint, a: Attribute) {
    match a
    case SetAntiAlias(v) => p.antiAlias == v
    case SetInvertColors(v) => p.invertColors == v
    case SetDrawStyle(v) => p.style == v
    case SetStrokeWidth(v) => p.strokeWidth == v
    case SetColor(v) => p.color == v
    case SetBlendMode(v) => p.blendMode == v
    case SetColorSource(v) => p.colorSource == v
    case SetImageFilter(v) => p.imageFilter == v
    case SetColorFilter(v) => p.colorFilter == v
    case SetMaskFilter(v) => p.maskBlur == v
  }

  /** Both set the same field. */
  predicate SameField(a: Attribute, b: Attribute) {
    || (a.SetAntiAlias? && b.SetAntiAlias?)
    || (a.SetInvertColors? && b.SetInvertColors?)
    || (a.SetDrawStyle? && b.SetDrawStyle?)
    || (a.SetStrokeWidth? && b.SetStrokeWidth?)
    || (a.SetColor? && b.SetColor?)
    || (a.SetBlendMode? && b.SetBlendMode?)
    || (a.SetColorSource? && b.SetColorSource?)
    || (a.SetImageFilter? && b.SetImageFilter?)
    || (a.SetColorFilter? && b.SetColorFilter?)
    || (a.SetMaskFilter? && b.SetMaskFilter?)
  }

  /** The field is set, and no other one changes. */
  ghost predicate SetsOnly(before: Paint, after: Paint, a: Attribute) {
    && HasValue(after, a)
    && (forall b :: !SameField(a, b) ==> (HasValue(after, b) <==> HasValue(before, b)))
  }

  lemma AppliedSetsOnly(p: Paint, a: Attribute)
    ensures SetsOnly(p, a.ApplyTo(p), a)
    ensures a.ApplyTo(p) == p <==> HasValue(p, a)
  {
  }

  /** Nothing else makes up a paint. */
  lemma ValuesDecide(p: Paint, q: Paint)
    ensures p == q <==> forall a :: HasValue(p, a) <==> HasValue(q, a)
  {
    if forall a :: HasValue(p, a) <==> HasValue(q, a) {
      assert HasValue(q, SetAntiAlias(p.antiAlias)) && HasValue(q, SetInvertColors(p.invertColors));
      assert HasValue(q, SetDrawStyle(p.style)) && HasValue(q, SetStrokeWidth(p.strokeWidth));
      assert HasValue(q, SetColor(p.color)) && HasValue(q, SetBlendMode(p.blendMode));
      assert HasValue(q, SetColorSource(p.colorSource)) && HasValue(q, SetImageFilter(p.imageFilter));
      assert HasValue(q, SetColorFilter(p.colorFilter)) && HasValue(q, SetMaskFilter(p.maskBlur));
    }
  }

  /** A setter sets its field and no other, and is recorded if and only if that changes it. */
  lemma AttributeIsRecordedExactly(s: BuilderState, a: Attribute)
    ensures var u := SetAttribute(s, a);
      && SetsOnly(s.paint, u.paint, a)
      && u.records == s.records + (if HasValue(s.paint, a) then [] else [AttributeOp(a)])
      && u == s.(paint := u.paint, records := u.records)
  {
    AppliedSetsOnly(s.paint, a);
    hide HasValue, SetsOnly, Attribute.ApplyTo;
  }

  // ------------------------------------------------------------------- runs

  /** The call sets the field of the attribute. */
  predicate SetsField(call: Call, a: Attribute) {
    call.SetAttributeCall? && SameField(call.attribute, a)
  }

  lemma RestoreKeepsValues(fx: FilterBounds, s: BuilderState)
    ensures Restore(fx, s).paint == s.paint
  {
    hide TransferLayerBounds, SettledLayer, ContentBounds, PatchSave, NamesItsSave;
  }

  lemma {:induction false} RestoresKeepValues(fx: FilterBounds, s: BuilderState, count: int)
    ensures RestoreToCount(fx, s, count).paint == s.paint
    decreases |s.below|
  {
    if s.below != [] && |s.below| + 1 > count {
      hide Restore;
      RestoreKeepsValues(fx, s);
      RestoreShrinks(fx, s);
      RestoresKeepValues(fx, Restore(fx, s), count);
    }
  }

  /** Only the setters change the paint. */
  lemma OthersKeepPaint(fx: FilterBounds, s: BuilderState, call: Call)
    requires !call.SetAttributeCall?
    ensures Step(fx, s, call).paint == s.paint
  {
    hide Restore, RestoreToCount, AccumulateGeometry, AccumulateRects, AccumulateUnbounded, PaintResult, LayerFloods,
      LayerEntry, Transformed, ChangesMatrix, Clipped, ClipIsRedundant, CullIsEmpty, IsOpacityCompatible,
      BlendMode.Rank;
    if call.RestoreCall? {
      RestoreKeepsValues(fx, s);
    } else if call.RestoreToCountCall? {
      RestoresKeepValues(fx, s, call.count);
    }
  }

  lemma RestoreKeepsCanvasPaint(fm: FilterMeaning, c: Canvas)
    ensures CanvasRestore(fm, c).paint == c.paint
  {
    hide Surfaced;
  }

  lemma {:induction false} RestoresKeepCanvasPaint(fm: FilterMeaning, c: Canvas, count: int)
    ensures CanvasRestoreToCount(fm, c, count).paint == c.paint
    decreases |c.below|
  {
    if c.below != [] && |c.below| + 1 > count {
      hide CanvasRestore;
      RestoreKeepsCanvasPaint(fm, c);
      RestoreShrinksCanvas(fm, c);
      RestoresKeepCanvasPaint(fm, CanvasRestore(fm, c), count);
    }
  }

  lemma OthersKeepCanvasPaint(fm: FilterMeaning, c: Canvas, call: Call, id: nat)
    requires !call.SetAttributeCall?
    ensures CanvasStep(fm, c, call, id).paint == c.paint
  {
    hide CanvasRestore, CanvasRestoreToCount, DrawMarks, ListMarks, LayerMarks, SpecOf, PaintResult, ClipPoints,
      ConcatMatrix;
    if call.RestoreCall? {
      RestoreKeepsCanvasPaint(fm, c);
    } else if call.RestoreToCountCall? {
      RestoresKeepCanvasPaint(fm, c, call.count);
    }
  }

  /** The value of one field, as the calls leave it: set by the last of them that sets it. */
  ghost predicate LastValue(calls: seq<Call>, a: Attribute) {
    if calls == [] then HasValue(DEFAULT_PAINT, a)
    else
      var last := calls[|calls| - 1];
      if SetsField(last, a) then last.attribute == a else LastValue(calls[..|calls| - 1], a)
  }

  lemma OneSetter(p: Paint, q: Paint, a: Attribute, b: Attribute)
    requires SetsOnly(p, q, a)
    ensures HasValue(q, b) <==> if SameField(a, b) then a == b else HasValue(p, b)
  {
  }

  /** In every run each field of the paint has the value that was set last, for the builder
      and for the canvas, across all saves and restores. */
  lemma {:induction false} LastSetterWins(fx: FilterBounds, fm: FilterMeaning, cull: Rect, calls: seq<Call>,
                                          a: Attribute)
    ensures HasValue(Run(fx, cull, calls).paint, a) <==> LastValue(calls, a)
    ensures HasValue(CanvasRun(fx, fm, cull, calls).paint, a) <==> LastValue(calls, a)
  {
    if calls != [] {
      hide Step, CanvasStep, HasValue, SameField;
      var init, last := calls[..|calls| - 1], calls[|calls| - 1];
      LastSetterWins(fx, fm, cull, init, a);
      var s, c, id := Run(fx, cull, init), CanvasRun(fx, fm, cull, init), |Run(fx, cull, init).records|;
      if last.SetAttributeCall? {
        SetterSteps(fx, fm, s, c, last.attribute, id);
        OneSetter(s.paint, Step(fx, s, last).paint, last.attribute, a);
        OneSetter(c.paint, CanvasStep(fm, c, last, id).paint, last.attribute, a);
      } else {
        OthersKeepPaint(fx, s, last);
        OthersKeepCanvasPaint(fm, c, last, id);
      }
    }
  }

  lemma SetterSteps(fx: FilterBounds, fm: FilterMeaning, s: BuilderState, c: Canvas, a: Attribute, id: nat)
    ensures SetsOnly(s.paint, Step(fx, s, SetAttributeCall(a)).paint, a)
    ensures SetsOnly(c.paint, CanvasStep(fm, c, SetAttributeCall(a), id).paint, a)
  {
    AttributeIsRecordedExactly(s, a);
    AppliedSetsOnly(c.paint, a);
    hide SetsOnly, Attribute.ApplyTo;
  }
}
