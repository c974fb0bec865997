/**
 A run depends only on the filters it uses: so the theorems about pixels ask the contract
 of those, whatever other filters do.
 */
module DisplayListUsedFilters {
  import opened Options
  import opened DisplayListTypes
  import opened DisplayListPaint
  import opened DisplayListBuilderSpec
  import opened DisplayListCanvas

  /** The call makes the filter part of a paint: of the current one, or of its own. */
  predicate Sets(call: Call, f: ImageFilter) {
    match call
    case SetAttributeCall(a) => a == SetImageFilter(Some(f))
    case DrawCall(d) => d.own.Some? && d.own.value.imageFilter == Some(f)
    case _ => false
  }

  predicate SomeSets(calls: seq<Call>, f: ImageFilter) {
    exists k :: 0 <= k < |calls| && Sets(calls[k], f)
  }

  ghost function FiltersOf(calls: seq<Call>): iset<ImageFilter> {
    iset f: ImageFilter | SomeSets(calls, f)
  }

  /** The filters that a run uses keep the contract: something a caller can look up. */
  ghost predicate FiltersAreSound(fx: FilterBounds, fm: FilterMeaning, calls: seq<Call>) {
    SoundFor(fx, fm, FiltersOf(calls))
  }

  /** The meaning of these filters; the others have no output. */
  ghost function Only(fm: FilterMeaning, filters: iset<ImageFilter>): FilterMeaning {
    FilterMeaning((f: ImageFilter, m: Matrix, q: Point, p: Point) => f in filters && fm.reaches(f, m, q, p),
                  (f: ImageFilter, q: Point, p: Point) => f in filters && fm.reachesLocal(f, q, p))
  }

  lemma OnlyIsSound(fx: FilterBounds, fm: FilterMeaning, filters: iset<ImageFilter>)
    requires SoundFor(fx, fm, filters)
    ensures Sound(fx, Only(fm, filters))
  {
    hide Matrix.Invert, Matrix.Apply, Matrix.IsInvertible;
    forall f: ImageFilter
      ensures SoundFilter(fx, Only(fm, filters), f)
    {
      assert f in filters ==> SoundFilter(fx, fm, f);
      hide MapsDevice, NeedsDevice, MapsLocal;
    }
  }

  // ----------------------------------------------------- the same canvases

  predicate IsAmong(filter: Option<ImageFilter>, filters: iset<ImageFilter>) {
    filter.Some? ==> filter.value in filters
  }

  predicate SetsAmong(call: Call, filters: iset<ImageFilter>) {
    && (call.SetAttributeCall? && call.attribute.SetImageFilter? ==> IsAmong(call.attribute.imageFilter, filters))
    && (call.DrawCall? && call.draw.own.Some? ==> IsAmong(call.draw.own.value.imageFilter, filters))
  }

  /** The current paint and all open layers use these filters only. */
  ghost predicate UsesOnly(c: Canvas, filters: iset<ImageFilter>) {
    && IsAmong(c.paint.imageFilter, filters)
    && IsAmong(c.top.spec.filter, filters)
    && (forall k :: 0 <= k < |c.below| ==> IsAmong(c.below[k].spec.filter, filters))
  }

  lemma DrawnAlike(fm: FilterMeaning, filters: iset<ImageFilter>, c: Canvas, d: Draw, id: nat)
    requires IsAmong(PaintOf(c.paint, d).imageFilter, filters)
    ensures DrawMarks(Only(fm, filters), c, d, id) == DrawMarks(fm, c, d, id)
  {
    hide PaintResult, Paintable, Matrix.Invert, Matrix.Apply, Blurred;
    var paint := PaintOf(c.paint, d);
    forall q, p
      ensures FilteredTo(Only(fm, filters), paint, d.flags, q, p) == FilteredTo(fm, paint, d.flags, q, p)
    {
    }
    hide FilteredTo;
    forall r, p
      ensures Reached(Only(fm, filters), paint, d.flags, r, p) == Reached(fm, paint, d.flags, r, p)
    {
    }
    hide Reached;
  }

  lemma SpecsAlike(fm: FilterMeaning, filters: iset<ImageFilter>, parent: CanvasEntry, filter: Option<ImageFilter>,
                   effective: bool, part: Part, bounds: Option<Rect>)
    requires IsAmong(filter, filters)
    ensures SpecOf(Only(fm, filters), parent, filter, effective, part, bounds)
         == SpecOf(fm, parent, filter, effective, part, bounds)
    ensures SpecOf(fm, parent, filter, effective, part, bounds).filter == filter
  {
    hide InExtent, Shows;
    forall q
      ensures LeadsToSurface(Only(fm, filters), parent, filter, q) == LeadsToSurface(fm, parent, filter, q)
    {
      assert forall p ::
        Composed(Only(fm, filters), filter, parent.matrix, q, p) == Composed(fm, filter, parent.matrix, q, p);
    }
    hide LeadsToSurface;
  }

  lemma SurfacedAlike(fm: FilterMeaning, filters: iset<ImageFilter>, closing: CanvasEntry, parent: CanvasEntry,
                      marks: iset<Mark>)
    requires IsAmong(closing.spec.filter, filters)
    ensures Surfaced(Only(fm, filters), closing, parent, marks) == Surfaced(fm, closing, parent, marks)
  {
    assert forall q, p ::
      Composed(Only(fm, filters), closing.spec.filter, closing.spec.matrix, q, p)
        == Composed(fm, closing.spec.filter, closing.spec.matrix, q, p);
    hide Composed;
  }

  lemma RestoresAlike(fm: FilterMeaning, filters: iset<ImageFilter>, c: Canvas)
    requires UsesOnly(c, filters)
    ensures CanvasRestore(Only(fm, filters), c) == CanvasRestore(fm, c)
    ensures UsesOnly(CanvasRestore(fm, c), filters)
  {
    if c.below != [] {
      SurfacedAlike(fm, filters, c.top, c.below[|c.below| - 1], c.marks);
    }
    hide Surfaced, IsAmong;
  }

  lemma {:induction false} RestoresToCountAlike(fm: FilterMeaning, filters: iset<ImageFilter>, c: Canvas, count: int)
    requires UsesOnly(c, filters)
    ensures CanvasRestoreToCount(Only(fm, filters), c, count) == CanvasRestoreToCount(fm, c, count)
    ensures UsesOnly(CanvasRestoreToCount(fm, c, count), filters)
    decreases |c.below|
  {
    if c.below != [] && |c.below| + 1 > count {
      RestoresAlike(fm, filters, c);
      RestoreShrinksCanvas(fm, c);
      hide UsesOnly, CanvasRestore;
      RestoresToCountAlike(fm, filters, CanvasRestore(fm, c), count);
    }
  }

  lemma LayersAlike(fm: FilterMeaning, filters: iset<ImageFilter>, c: Canvas, bounds: Option<Rect>, withPaint: bool,
                    backdrop: Option<ImageFilter>, id: nat)
    requires UsesOnly(c, filters)
    ensures CanvasSaveLayer(Only(fm, filters), c, bounds, withPaint, backdrop, id)
         == CanvasSaveLayer(fm, c, bounds, withPaint, backdrop, id)
    ensures UsesOnly(CanvasSaveLayer(fm, c, bounds, withPaint, backdrop, id), filters)
  {
    var effective := PaintResult(c.paint, SaveLayerFlags(withPaint)) != NoEffect;
    var part := LayerPart(c.paint, withPaint, id, true);
    SpecsAlike(fm, filters, c.top, LayerFilter(c.paint, withPaint), effective, part, bounds);
    hide SpecOf, LayerMarks, PaintResult;
  }

  lemma StepsAlike(fm: FilterMeaning, filters: iset<ImageFilter>, c: Canvas, call: Call, id: nat, kept: bool)
    requires UsesOnly(c, filters) && SetsAmong(call, filters)
    ensures CanvasStep(Only(fm, filters), c, call, id) == CanvasStep(fm, c, call, id)
    ensures KeptStep(Only(fm, filters), c, call, id, kept) == KeptStep(fm, c, call, id, kept)
    ensures UsesOnly(CanvasStep(fm, c, call, id), filters) && UsesOnly(KeptStep(fm, c, call, id, kept), filters)
  {
    hide DrawMarks, ListMarks, LayerMarks, CanvasSaveLayer, CanvasRestore, CanvasRestoreToCount, ClipPoints,
      ConcatMatrix,
      KeptMarks;
    match call
    case SaveLayerCall(bounds, withPaint, backdrop) => LayersAlike(fm, filters, c, bounds, withPaint, backdrop, id);
    case RestoreCall => RestoresAlike(fm, filters, c);
    case RestoreToCountCall(count) => RestoresToCountAlike(fm, filters, c, count);
    case DrawCall(d) => DrawnAlike(fm, filters, c, d, id);
    case _ =>
  }

  lemma StartUsesNone(cull: Rect, filters: iset<ImageFilter>)
    ensures UsesOnly(StartCanvas(cull), filters)
  {
  }

  ghost predicate AllSetAmong(calls: seq<Call>, filters: iset<ImageFilter>) {
    forall k :: 0 <= k < |calls| ==> SetsAmong(calls[k], filters)
  }

  lemma CallsSetTheirOwn(calls: seq<Call>)
    ensures AllSetAmong(calls, FiltersOf(calls))
  {
    var filters := FiltersOf(calls);
    forall k | 0 <= k < |calls|
      ensures SetsAmong(calls[k], filters)
    {
      assert forall f :: Sets(calls[k], f) ==> SomeSets(calls, f);
    }
  }

  lemma {:induction false} RunsAlike(fx: FilterBounds, fm: FilterMeaning, filters: iset<ImageFilter>, cull: Rect,
                                     calls: seq<Call>)
    requires AllSetAmong(calls, filters)
    ensures CanvasRun(fx, Only(fm, filters), cull, calls) == CanvasRun(fx, fm, cull, calls)
    ensures UsesOnly(CanvasRun(fx, fm, cull, calls), filters)
  {
    if calls == [] {
      StartUsesNone(cull, filters);
    } else {
      hide CanvasStep, UsesOnly, SetsAmong;
      var init := calls[..|calls| - 1];
      RunsAlike(fx, fm, filters, cull, init);
      StepsAlike(fm, filters, CanvasRun(fx, fm, cull, init), calls[|calls| - 1], |Run(fx, cull, init).records|, true);
    }
  }

  lemma ResetsAlike(fx: FilterBounds, fm: FilterMeaning, filters: iset<ImageFilter>, cull: Rect, calls: seq<Call>)
    requires AllSetAmong(calls, filters)
    ensures ResetsInvertible(fx, Only(fm, filters), cull, calls) == ResetsInvertible(fx, fm, cull, calls)
  {
    forall k | 0 <= k < |calls|
      ensures CanvasRun(fx, Only(fm, filters), cull, calls[..k]) == CanvasRun(fx, fm, cull, calls[..k])
    {
      RunsAlike(fx, fm, filters, cull, calls[..k]);
    }
    hide CanvasRun, Matrix.IsInvertible;
  }

  /** A sound meaning of all filters that gives this run the same canvas. */
  ghost function UsedMeaning(fm: FilterMeaning, calls: seq<Call>): FilterMeaning {
    Only(fm, FiltersOf(calls))
  }

  lemma UsedFiltersDecide(fx: FilterBounds, fm: FilterMeaning, cull: Rect, calls: seq<Call>)
    requires FiltersAreSound(fx, fm, calls)
    ensures var used := UsedMeaning(fm, calls);
      && Sound(fx, used)
      && CanvasRun(fx, used, cull, calls) == CanvasRun(fx, fm, cull, calls)
      && CanvasFinished(fx, used, cull, calls) == CanvasFinished(fx, fm, cull, calls)
      && ResetsInvertible(fx, used, cull, calls) == ResetsInvertible(fx, fm, cull, calls)
  {
    var filters := FiltersOf(calls);
    OnlyIsSound(fx, fm, filters);
    CallsSetTheirOwn(calls);
    RunsAlike(fx, fm, filters, cull, calls);
    ResetsAlike(fx, fm, filters, cull, calls);
    RestoresToCountAlike(fm, filters, CanvasRun(fx, fm, cull, calls), 1);
    hide Sound, CanvasRun, CanvasRestoreToCount, ResetsInvertible, UsesOnly;
  }
}
