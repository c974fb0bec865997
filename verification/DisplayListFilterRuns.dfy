/**
 Three concrete runs that image filters spoil: a layer that is marked to distribute its
 opacity although its pixels change, a drawing that a dilation would spread into the surface
 but is not recorded, and an edge between two drawings that an erosion keeps but the r-tree
 does not hold.
 */
module DisplayListFilterRuns {
  import opened Options
  import opened DisplayListTypes
  import opened DisplayListPaint
  import opened DisplayListBuilderSpec
  import opened DisplayListNesting
  import opened DisplayListGeometry
  import opened DisplayListCanvas
  import opened DisplayListUsedFilters
  import opened DisplayListVisibility
  import opened DisplayListLayers
  import opened DisplayListGroupOpacity
  import opened DisplayListOpacityPixels
  import opened DisplayListPartPixels
  import opened DisplayListGroupPixels
  import opened DisplayListFilters
  import opened DisplayListResets

  // ------------------------------------------------------ runs call by call

  lemma FirstStep(fx: FilterBounds, fm: FilterMeaning, cull: Rect, call: Call)
    ensures Run(fx, cull, [call]) == Step(fx, Init(cull), call)
    ensures CanvasRun(fx, fm, cull, [call]) == CanvasStep(fm, StartCanvas(cull), call, 0)
  {
    assert [] + [call] == [call];
    RunMore(fx, fm, cull, [], call);
    hide Step, CanvasStep;
  }

  /** An attribute changes the paint and nothing that a layer knows. */
  lemma AttributeStep(fx: FilterBounds, fm: FilterMeaning, cull: Rect, calls: seq<Call>, a: Attribute)
    ensures var s, t := Run(fx, cull, calls), Run(fx, cull, calls + [SetAttributeCall(a)]);
      t.paint == a.ApplyTo(s.paint) && t.layer == s.layer && t.top == s.top && t.below == s.below && t.rtree == s.rtree
    ensures var c, d := CanvasRun(fx, fm, cull, calls), CanvasRun(fx, fm, cull, calls + [SetAttributeCall(a)]);
      d == c.(paint := a.ApplyTo(c.paint))
  {
    RunMore(fx, fm, cull, calls, SetAttributeCall(a));
    hide Run, CanvasRun, Attribute.ApplyTo;
  }

  // ------------------------------------- an opacity that is not shared

  /** The filter of a colour matrix that takes its red from the alpha: it changes colours
      only and keeps transparent black, but does not commute with opacity. */
  const TINT := ImageFilter(0, false, false, false)
  const COLOURS := (f: ImageFilter) => Colour(false)

  function Tinted(s: Pixel): Pixel {
    Pixel(s.a * s.a, s.a)
  }

  function TintedImage(f: ImageFilter, image: Image): Image {
    if f == TINT then Mapped(image, (s: Pixel) => Tinted(s)) else image
  }

  const TINTING := Effects((part: Part, unit: Image, alpha: real) => ScaledImage(alpha, unit),
                           (c: ColorSource, unit: Image, alpha: real) => ScaledImage(alpha, unit),
                           (f: ColorFilter, s: Pixel) => s, (s: Pixel) => s,
                           (f: ImageFilter, image: Image) => TintedImage(f, image))

  lemma TintingIsConsistent()
    ensures Consistent(TINTING, iset{})
  {
    hide Scaled, Tinted;
  }

  const TINT_PAINT := DEFAULT_PAINT.(color := WHITE, imageFilter := Some(TINT))

  /** A layer, and a white box in it with the filter. */
  const OPENED := [OPEN]
  const WHITENED := OPENED + [SetAttributeCall(SetColor(WHITE))]
  const FILTERED := WHITENED + [SetAttributeCall(SetImageFilter(Some(TINT)))]
  const TINTED := FILTERED + [DrawCall(SPOT)]

  lemma FirstDrawingIsCompatible(fx: FilterBounds, s: BuilderState, d: Draw)
    requires s.layer.localBounds == Accumulation(None, false) && !s.layer.flags.opacityIncompatible
    requires DrawIsOpacityCompatible(s.paint, d)
    ensures DrawOp(fx, s, d).layer.IsGroupOpacityCompatible()
  {
    hide PaintResult, Tracker.MapAndClip, Tracker.LocalCullCoverage, AdjustBoundsForPaint, IsOpacityCompatible;
  }

  lemma OpensCompatible(fx: FilterBounds, s: BuilderState)
    requires !s.top.isNop && s.paint == DEFAULT_PAINT
    ensures !SaveLayer(fx, s, None, false, None).layer.flags.opacityIncompatible
  {
    hide LayerEntry, BlendMode.Rank;
  }

  /** An open layer on the surface, without content yet. */
  lemma OpenedState(fx: FilterBounds, fm: FilterMeaning)
    ensures var s := Run(fx, SURFACE, OPENED);
      IsBare(s) && !s.layer.flags.opacityIncompatible
    ensures var c := CanvasRun(fx, fm, SURFACE, OPENED);
      ShowsHere(c.top) && c.paint == DEFAULT_PAINT
  {
    hide SaveLayer, CanvasStep, IsBare;
    FirstStep(fx, fm, SURFACE, OPEN);
    OpensBare(fx, Init(SURFACE));
    OpensCompatible(fx, Init(SURFACE));
    NewLayerShowsHere(fm, StartCanvas(SURFACE), 0);
    OpenKeepsPaint(fm, StartCanvas(SURFACE), 0);
  }

  lemma OpenKeepsPaint(fm: FilterMeaning, c: Canvas, id: nat)
    ensures CanvasStep(fm, c, OPEN, id).paint == c.paint
  {
    hide SpecOf, LayerMarks, PaintResult;
  }

  lemma FilteredState(fx: FilterBounds, fm: FilterMeaning)
    ensures var s := Run(fx, SURFACE, FILTERED);
      && s.paint == TINT_PAINT && s.below != [] && s.top.mark.isSaveLayer && !s.top.mark.deferred
      && s.layer.localBounds == Accumulation(None, false) && !s.layer.flags.opacityIncompatible
    ensures var c := CanvasRun(fx, fm, SURFACE, FILTERED);
      ShowsHere(c.top) && c.paint == TINT_PAINT
  {
    OpenedState(fx, fm);
    AttributeStep(fx, fm, SURFACE, OPENED, SetColor(WHITE));
    AttributeStep(fx, fm, SURFACE, WHITENED, SetImageFilter(Some(TINT)));
    hide Run, CanvasRun, ShowsHere;
  }

  lemma DrawnStaysOpen(fx: FilterBounds, s: BuilderState, d: Draw)
    ensures DrawOp(fx, s, d).top == s.top && DrawOp(fx, s, d).below == s.below
  {
    hide PaintResult, AccumulateGeometry, IsOpacityCompatible;
  }

  lemma TintedState(fx: FilterBounds, fm: FilterMeaning)
    ensures var s := Run(fx, SURFACE, TINTED);
      && s.below != [] && s.top.mark.isSaveLayer && !s.top.mark.deferred && s.layer.IsGroupOpacityCompatible()
  {
    FilteredState(fx, fm);
    var s := Run(fx, SURFACE, FILTERED);
    RunMore(fx, fm, SURFACE, FILTERED, DrawCall(SPOT));
    TintIsCompatible();
    hide Run, CanvasRun, CanvasStep, DrawOp, LayerInfo.IsGroupOpacityCompatible, DrawIsOpacityCompatible;
    FirstDrawingIsCompatible(fx, s, SPOT);
    DrawnStaysOpen(fx, s, SPOT);
  }

  lemma TintIsCompatible()
    ensures DrawIsOpacityCompatible(TINT_PAINT, SPOT)
  {
  }

  /** A layer that the builder calls compatible is marked when it is closed. */
  lemma CompatibleIsMarked(fx: FilterBounds, s: BuilderState)
    requires WellFormed(s)
    requires s.below != [] && s.top.mark.isSaveLayer && !s.top.mark.deferred && s.layer.IsGroupOpacityCompatible()
    ensures ClosesDistributing(fx, s)
  {
    LayerIsTriggered(s);
    RestoreIsReady(s);
    hide WellFormed, Restore, LayerInfo.IsGroupOpacityCompatible;
    SettledOptions(fx, s);
  }

  /** The layer is marked: its only drawing is compatible by the builder's test. */
  lemma TintedIsMarked(fx: FilterBounds, fm: FilterMeaning)
    ensures ClosesDistributing(fx, Run(fx, SURFACE, TINTED))
  {
    TintedState(fx, fm);
    RunIsWellFormed(fx, SURFACE, TINTED);
    hide *;
    CompatibleIsMarked(fx, Run(fx, SURFACE, TINTED));
  }

  lemma TintMarks(fm: FilterMeaning, c: Canvas, id: nat)
    requires ShowsHere(c.top) && c.paint == TINT_PAINT && fm == TableMeaning(COLOURS)
    ensures Mark(id, DrawnPart(TINT_PAINT, SPOT, id), TINT_PAINT, HERE) in CanvasStep(fm, c, DrawCall(SPOT), id).marks
    ensures CanvasStep(fm, c, DrawCall(SPOT), id).top == c.top
  {
    IdentityInverse(HERE);
    hide Matrix.Invert, Matrix.Apply;
    assert SPOT.geometry.bounds.Inside(HERE) && Blurred(TINT_PAINT, DRAW_FLAGS, HERE, HERE)
      && FilteredTo(fm, TINT_PAINT, DRAW_FLAGS, HERE, HERE);
    assert Reached(fm, TINT_PAINT, DRAW_FLAGS, SPOT.geometry.bounds, HERE);
  }

  lemma TintedIsSeen(fx: FilterBounds) returns (part: Part)
    ensures var c := CanvasRun(fx, TableMeaning(COLOURS), SURFACE, TINTED);
      part.look == Look(TINT_PAINT, true, true, false) && SeenAt(c.top.spec, HERE) && Touches(c.marks, part, HERE)
  {
    var fm := TableMeaning(COLOURS);
    FilteredState(fx, fm);
    RunMore(fx, fm, SURFACE, FILTERED, DrawCall(SPOT));
    var id := |Run(fx, SURFACE, FILTERED).records|;
    TintMarks(fm, CanvasRun(fx, fm, SURFACE, FILTERED), id);
    part := DrawnPart(TINT_PAINT, SPOT, id);
    hide Run, CanvasRun, CanvasStep, Step;
    assert Mark(id, part, TINT_PAINT, HERE).part == part;
  }

  /** White with an alpha, tinted. */
  lemma TintedSource(part: Part, alpha: real)
    requires part.look == Look(TINT_PAINT, true, true, false)
    ensures SourceOf(TINTING, part, WHITE_IMAGE, HERE, alpha) == Tinted(Scaled(alpha, WHITE_PIXEL))
  {
    assert AlphaWith(part.look, alpha) == alpha;
    hide Scaled, Tinted, AlphaWith;
  }

  lemma TintedWhites()
    ensures Tinted(Scaled(0.5, WHITE_PIXEL)) == Pixel(0.25, 0.5) && Tinted(Scaled(1.0, WHITE_PIXEL)) == WHITE_PIXEL
  {
    HalfWhite();
    Halves();
    ScaledTwice(1.0, 1.0, WHITE_PIXEL);
    hide Scaled;
  }

  lemma Halves()
    ensures 0.5 * 0.5 == 0.25
  {
  }

  /** White, drawn with half an opacity and tinted then, and tinted first. */
  lemma TintedPixels(part: Part)
    requires part.look == Look(TINT_PAINT, true, true, false)
    ensures var samples := [[Sample(WHITE_IMAGE, 0.0)]];
      && PaintedParts(TINTING, [part], samples, HERE, 0.5, CLEAR_PIXEL) == Pixel(0.25, 0.5)
      && PaintedParts(TINTING, [part], samples, HERE, 1.0, CLEAR_PIXEL) == WHITE_PIXEL
  {
    var s := Sample(WHITE_IMAGE, 0.0);
    OnePartPainted(TINTING, part, [s], HERE, 0.5, CLEAR_PIXEL);
    OnePartPainted(TINTING, part, [s], HERE, 1.0, CLEAR_PIXEL);
    PaintedOver(TINTING, part, s, HERE, 0.5, CLEAR_PIXEL);
    TintedSource(part, 0.5);
    TintedSource(part, 1.0);
    TintedWhites();
    OverClear(Pixel(0.25, 0.5));
    hide *;
  }

  /** Nothing but one part of its own. */
  lemma OnePartPaints(marks: iset<Mark>, p: Point, part: Part, s: Sample)
    requires Touches(marks, part, p)
    ensures Paints(marks, p, [part], [[s]])
  {
    hide Touches;
  }

  lemma ColoursKeepTheContract(calls: seq<Call>)
    ensures FiltersAreSound(TableBounds(COLOURS), TableMeaning(COLOURS), calls)
  {
    hide SoundFilter;
    forall f: ImageFilter
      ensures SoundFilter(TableBounds(COLOURS), TableMeaning(COLOURS), f)
    {
      TableIsSoundExactly(COLOURS, f);
    }
  }

  /** A layer that is marked although it does not share an opacity: with a half, its box has
      a quarter of red where the layer has a half. All that the theorems ask besides holds. */
  lemma MarkedLayerDoesNotShare() returns (part: Part)
    ensures FiltersAreSound(TableBounds(COLOURS), TableMeaning(COLOURS), TINTED)
    ensures ResetsInvertible(TableBounds(COLOURS), TableMeaning(COLOURS), SURFACE, TINTED)
    ensures ClosesDistributing(TableBounds(COLOURS), Run(TableBounds(COLOURS), SURFACE, TINTED))
    ensures var c, samples := CanvasRun(TableBounds(COLOURS), TableMeaning(COLOURS), SURFACE, TINTED),
                              [[Sample(WHITE_IMAGE, 0.0)]];
      && Consistent(TINTING, iset{}) && SeenAt(c.top.spec, HERE) && Paints(c.marks, HERE, [part], samples)
      && PaintedParts(TINTING, [part], samples, HERE, 0.5, CLEAR_PIXEL) == Pixel(0.25, 0.5)
      && SourceOver(Scaled(0.5, PaintedParts(TINTING, [part], samples, HERE, 1.0, CLEAR_PIXEL)), CLEAR_PIXEL)
           == Pixel(0.5, 0.5)
  {
    var fx, fm := TableBounds(COLOURS), TableMeaning(COLOURS);
    ColoursKeepTheContract(TINTED);
    TintedIsMarked(fx, fm);
    part := TintedIsSeen(fx);
    OnePartPaints(CanvasRun(fx, fm, SURFACE, TINTED).marks, HERE, part, Sample(WHITE_IMAGE, 0.0));
    TintingIsConsistent();
    TintedPixels(part);
    HalfWhite();
    OverClear(Pixel(0.5, 0.5));
    NoReset(fx, fm);
    hide *;
  }

  lemma NoReset(fx: FilterBounds, fm: FilterMeaning)
    ensures ResetsInvertible(fx, fm, SURFACE, TINTED)
  {
    hide CanvasRun;
    assert TransformCall(TransformReset) !in TINTED;
  }

  // --------------------------------------------- layers with a filter

  const LARGE := Rect(0.0, 0.0, 100.0, 100.0)
  const DILATION := ImageFilter(1, false, false, true)
  const EROSION := ImageFilter(2, false, false, true)
  const TEN := Radius(10.0, 10.0)
  const KINDS := (f: ImageFilter) =>
    if f == DILATION then Dilate(TEN) else if f == EROSION then Erode(TEN) else Colour(false)

  function FilterSet(f: ImageFilter): seq<Call> {
    [SetAttributeCall(SetImageFilter(Some(f)))]
  }

  function FilterOpened(f: ImageFilter): seq<Call> {
    FilterSet(f) + [SaveLayerCall(None, true, None)]
  }

  /** A layer on the whole surface with the filter, which its drawings do not have. */
  function FilterLayer(f: ImageFilter): seq<Call> {
    FilterOpened(f) + [SetAttributeCall(SetImageFilter(None))]
  }

  function Boxed(r: Rect): Draw {
    Draw(0, Box(r), 1, DRAW_FLAGS, None, false, false)
  }

  /** The entry of such a layer, and what is recorded with it. */
  predicate IsFilterLayer(fx: FilterBounds, f: ImageFilter, s: BuilderState) {
    && s.paint == DEFAULT_PAINT && !s.top.isNop && s.top.mark.isSaveLayer && !s.top.mark.deferred
    && s.top.global == LayerCull(fx, Tracker(LARGE, IDENTITY), Some(f))
    && s.top.layer == Tracker(MAX_CULL_RECT, IDENTITY)
    && s.below == [Init(LARGE).top] && s.layer.filter == Some(f) && s.layer.rtreeStart == 0
  }

  lemma FilterPaints(f: ImageFilter)
    ensures var paint := DEFAULT_PAINT.(imageFilter := Some(f));
      PaintResult(paint, SaveLayerFlags(true)) == AffectsAll
    ensures var paint := DEFAULT_PAINT.(imageFilter := Some(f));
      !f.modifiesTransparentBlack ==> !LayerFloods(paint, true, None)
  {
  }

  lemma OpensFilterLayer(fx: FilterBounds, f: ImageFilter, s: BuilderState)
    requires s.paint == DEFAULT_PAINT.(imageFilter := Some(f)) && !f.modifiesTransparentBlack
    requires s.top == Init(LARGE).top && s.below == [] && s.rtree == RTreeData([], [])
    ensures var t := SaveLayer(fx, s, None, true, None);
      IsFilterLayer(fx, f, t.(paint := DEFAULT_PAINT)) && t.rtree == RTreeData([], []) && t.paint == s.paint
  {
    FilterPaints(f);
    hide PaintResult, LayerFloods, IsOpacityCompatible, BlendMode.Rank;
  }

  lemma FilterLayerState(fx: FilterBounds, fm: FilterMeaning, f: ImageFilter)
    requires !f.modifiesTransparentBlack
    ensures var s := Run(fx, LARGE, FilterLayer(f));
      IsFilterLayer(fx, f, s) && s.rtree == RTreeData([], [])
  {
    var using := SetImageFilter(Some(f));
    FirstStep(fx, fm, LARGE, SetAttributeCall(using));
    RunMore(fx, fm, LARGE, FilterSet(f), SaveLayerCall(None, true, None));
    AttributeStep(fx, fm, LARGE, FilterOpened(f), SetImageFilter(None));
    hide CanvasStep, CanvasRun, SaveLayer, LayerCull;
    OpensFilterLayer(fx, f, Run(fx, LARGE, FilterSet(f)));
  }

  /** The same on the canvas: what the filter takes from a point of it to a point of the
      surface can be seen. */
  ghost predicate IsFilterCanvas(fm: FilterMeaning, f: ImageFilter, c: Canvas) {
    && c.paint == DEFAULT_PAINT && c.below == [StartCanvas(LARGE).top] && |c.outer| == 1
    && c.top.isLayer && c.top.matrix == IDENTITY && c.top.clip == Everywhere()
    && c.top.spec.effective && c.top.spec.filter == Some(f) && c.top.spec.matrix == IDENTITY
    && (forall q :: MAX_CULL_RECT.Inside(q) ==> q in c.top.spec.extent)
    && (forall q, p :: MAX_CULL_RECT.Inside(q) && LARGE.Inside(p) && fm.reaches(f, IDENTITY, q, p) ==>
          q in c.top.spec.relevant)
  }

  lemma FilterSpec(fm: FilterMeaning, f: ImageFilter, part: Part)
    ensures var parent := StartCanvas(LARGE).top;
      var spec := SpecOf(fm, parent, Some(f), true, part, None);
      && (forall q :: MAX_CULL_RECT.Inside(q) ==> q in spec.extent)
      && (forall q, p :: MAX_CULL_RECT.Inside(q) && LARGE.Inside(p) && fm.reaches(f, IDENTITY, q, p) ==>
            q in spec.relevant)
  {
    var parent := StartCanvas(LARGE).top;
    forall q | MAX_CULL_RECT.Inside(q)
      ensures InExtent(Some(f), IDENTITY, None, q)
    {
      IdentityInverse(q);
    }
    forall q, p | LARGE.Inside(p) && fm.reaches(f, IDENTITY, q, p)
      ensures LeadsToSurface(fm, parent, Some(f), q)
    {
      assert Composed(fm, Some(f), parent.matrix, q, p) && Shows(parent, p);
    }
    hide InExtent, LeadsToSurface, Rect.Inside;
  }

  lemma OpensFilterCanvas(fm: FilterMeaning, f: ImageFilter, c: Canvas, id: nat)
    requires c == StartCanvas(LARGE).(paint := DEFAULT_PAINT.(imageFilter := Some(f)))
    ensures IsFilterCanvas(fm, f, CanvasStep(fm, c, SaveLayerCall(None, true, None), id).(paint := DEFAULT_PAINT))
  {
    FilterPaints(f);
    FilterSpec(fm, f, LayerPart(c.paint, true, id, true));
    OpensWithSpec(fm, f, c, id);
    hide SpecOf, CanvasStep, PaintResult, Rect.Inside;
    SpecFields(fm, f, c, id);
  }

  lemma OpensWithSpec(fm: FilterMeaning, f: ImageFilter, c: Canvas, id: nat)
    requires c == StartCanvas(LARGE).(paint := DEFAULT_PAINT.(imageFilter := Some(f)))
    ensures var d := CanvasStep(fm, c, SaveLayerCall(None, true, None), id);
      && d.below == [c.top] && |d.outer| == 1
      && d.top == CanvasEntry(true, SpecOf(fm, c.top, Some(f), true, LayerPart(c.paint, true, id, true), None),
                              IDENTITY, Everywhere())
  {
    FilterPaints(f);
    hide SpecOf, LayerMarks, PaintResult;
  }

  lemma SpecFields(fm: FilterMeaning, f: ImageFilter, c: Canvas, id: nat)
    ensures var spec := SpecOf(fm, c.top, Some(f), true, LayerPart(c.paint, true, id, true), None);
      spec.filter == Some(f) && spec.effective && spec.matrix == c.top.matrix
  {
    hide InExtent, LeadsToSurface;
  }

  lemma FilterLayerCanvas(fx: FilterBounds, fm: FilterMeaning, f: ImageFilter)
    ensures IsFilterCanvas(fm, f, CanvasRun(fx, fm, LARGE, FilterLayer(f)))
  {
    var using := SetImageFilter(Some(f));
    FirstStep(fx, fm, LARGE, SetAttributeCall(using));
    RunMore(fx, fm, LARGE, FilterSet(f), SaveLayerCall(None, true, None));
    AttributeStep(fx, fm, LARGE, FilterOpened(f), SetImageFilter(None));
    hide Run, CanvasRun, Step, CanvasSaveLayer, IsFilterCanvas;
    var c, d := CanvasRun(fx, fm, LARGE, FilterSet(f)), CanvasRun(fx, fm, LARGE, FilterOpened(f));
    OpensFilterCanvas(fm, f, c, |Run(fx, LARGE, FilterSet(f)).records|);
    OpenedPaint(fm, c, |Run(fx, LARGE, FilterSet(f)).records|);
  }

  lemma OpenedPaint(fm: FilterMeaning, c: Canvas, id: nat)
    ensures CanvasStep(fm, c, SaveLayerCall(None, true, None), id).paint == c.paint
  {
    hide SpecOf, LayerMarks, PaintResult;
  }

  // ------------------------------------------- a drawing that is not recorded

  /** A box at the left edge of the surface, which the dilation makes larger. */
  const EDGE := Rect(4.0, 49.0, 6.0, 51.0)
  const AT_EDGE := Point(5.0, 50.0)

  lemma DilationCull()
    ensures LayerCull(TableBounds(KINDS), Tracker(LARGE, IDENTITY), Some(DILATION))
         == Tracker(Rect(10.0, 10.0, 90.0, 90.0), IDENTITY)
  {
    assert LARGE.RoundOut() == LARGE;
    assert RadiusAlong(10.0, 1.0) == 10.0;
  }

  lemma OutsideIsDropped(fx: FilterBounds, s: BuilderState, r: Rect)
    requires s.paint == DEFAULT_PAINT && s.top.global.MapAndClip(r).None?
    ensures DrawOp(fx, s, Boxed(r)).records == s.records
  {
    hide Tracker.MapAndClip, PaintResult, IsOpacityCompatible;
  }

  lemma BoxTouches(fm: FilterMeaning, e: CanvasEntry, r: Rect, p: Point)
    requires e.matrix == IDENTITY && p in e.clip && p in e.spec.extent && r.Inside(p)
    ensures DrawTouches(fm, DEFAULT_PAINT, e, Boxed(r), p)
  {
    IdentityInverse(p);
    hide Matrix.Invert, Matrix.Apply, Rect.Inside;
    assert Blurred(DEFAULT_PAINT, DRAW_FLAGS, p, p) && FilteredTo(fm, DEFAULT_PAINT, DRAW_FLAGS, p, p);
    assert Reached(fm, DEFAULT_PAINT, DRAW_FLAGS, r, p);
  }

  lemma ReachesItself(f: ImageFilter, p: Point)
    requires f == DILATION || f == EROSION
    ensures TableMeaning(KINDS).reaches(f, IDENTITY, p, p)
  {
  }

  /** A box in a layer with a dilation, well inside the surface: it can be seen where it is
      drawn, and its entry is live, but it is not recorded. */
  lemma DilationLosesADrawing()
    ensures var fx, fm := TableBounds(KINDS), TableMeaning(KINDS);
      var s, c := Run(fx, LARGE, FilterLayer(DILATION)), CanvasRun(fx, fm, LARGE, FilterLayer(DILATION));
      && DrawTouches(fm, c.paint, c.top, Boxed(EDGE), AT_EDGE) && Shows(c.top, AT_EDGE) && Keeps(s.top)
      && DrawOp(fx, s, Boxed(EDGE)).records == s.records
  {
    var fx, fm := TableBounds(KINDS), TableMeaning(KINDS);
    var s, c := Run(fx, LARGE, FilterLayer(DILATION)), CanvasRun(fx, fm, LARGE, FilterLayer(DILATION));
    FilterLayerState(fx, fm, DILATION);
    FilterLayerCanvas(fx, fm, DILATION);
    DilationCull();
    EdgeIsCulled();
    IdentityInverse(AT_EDGE);
    ReachesItself(DILATION, AT_EDGE);
    assert MAX_CULL_RECT.Inside(AT_EDGE) && LARGE.Inside(AT_EDGE) && EDGE.Inside(AT_EDGE) && Anywhere(AT_EDGE);
    hide Run, CanvasRun, Reaches, Rect.Inside, LayerCull, DrawOp, DrawTouches, Matrix.IsInvertible, Tracker.MapAndClip;
    OutsideIsDropped(fx, s, EDGE);
    BoxTouches(fm, c.top, EDGE, AT_EDGE);
  }

  lemma EdgeIsCulled()
    ensures Tracker(Rect(10.0, 10.0, 90.0, 90.0), IDENTITY).MapAndClip(EDGE).None?
  {
  }

  // --------------------------------------- an edge that the r-tree does not hold

  /** Two boxes that overlap; around the point between them all is covered. */
  const WEST := Rect(20.0, 20.0, 55.0, 80.0)
  const EAST := Rect(45.0, 20.0, 80.0, 80.0)
  const MIDDLE := Point(50.0, 50.0)

  const WEST_DRAWN := FilterLayer(EROSION) + [DrawCall(Boxed(WEST))]
  const ERODED := WEST_DRAWN + [DrawCall(Boxed(EAST))]

  lemma MiddleIsCovered(q: Point)
    requires Near(q, MIDDLE, 10.0, 10.0)
    ensures WEST.Inside(q) || EAST.Inside(q)
  {
  }

  lemma ErosionCull()
    ensures LayerCull(TableBounds(KINDS), Tracker(LARGE, IDENTITY), Some(EROSION))
         == Tracker(Rect(-10.0, -10.0, 110.0, 110.0), IDENTITY)
  {
    assert LARGE.RoundOut() == LARGE;
    assert RadiusAlong(10.0, 1.0) == 10.0;
  }

  /** A box inside the cull of such a layer is added as it is. */
  lemma BoxIsAdded(fx: FilterBounds, s: BuilderState, r: Rect)
    requires s.paint == DEFAULT_PAINT && !s.top.isNop && !r.IsEmpty()
    requires s.top.global.MapAndClip(r) == Some(r) && s.top.layer.MapAndClip(r).Some?
    ensures DrawOp(fx, s, Boxed(r)).rtree == s.rtree.Add(r, |s.records|)
    ensures DrawOp(fx, s, Boxed(r)).top == s.top && DrawOp(fx, s, Boxed(r)).below == s.below
    ensures DrawOp(fx, s, Boxed(r)).paint == s.paint
    ensures DrawOp(fx, s, Boxed(r)).layer.filter == s.layer.filter
    ensures DrawOp(fx, s, Boxed(r)).layer.rtreeStart == s.layer.rtreeStart
    ensures |DrawOp(fx, s, Boxed(r)).records| == |s.records| + 1
  {
    hide Tracker.MapAndClip, IsOpacityCompatible, Accumulation.Add, BlendMode.Rank;
  }

  lemma BoxesAreInside(r: Rect)
    requires r == WEST || r == EAST
    ensures !r.IsEmpty() && Tracker(Rect(-10.0, -10.0, 110.0, 110.0), IDENTITY).MapAndClip(r) == Some(r)
    ensures Tracker(MAX_CULL_RECT, IDENTITY).MapAndClip(r).Some?
  {
  }

  /** A layer with the erosion and some boxes in it, all recorded. */
  predicate IsErosionLayer(s: BuilderState) {
    IsFilterLayer(TableBounds(KINDS), EROSION, s)
  }

  lemma BoxStays(s: BuilderState, r: Rect)
    requires IsErosionLayer(s) && (r == WEST || r == EAST)
    ensures var t := DrawOp(TableBounds(KINDS), s, Boxed(r));
      IsErosionLayer(t) && t.rtree == s.rtree.Add(r, |s.records|) && |t.records| == |s.records| + 1
  {
    ErosionCull();
    BoxesAreInside(r);
    hide LayerCull, Tracker.MapAndClip, DrawOp, Rect.IsEmpty, RTreeData.Add;
    BoxIsAdded(TableBounds(KINDS), s, r);
  }

  lemma BoxRuns(fm: FilterMeaning, calls: seq<Call>, r: Rect)
    requires IsErosionLayer(Run(TableBounds(KINDS), LARGE, calls)) && (r == WEST || r == EAST)
    ensures var s, t :=
      Run(TableBounds(KINDS), LARGE, calls), Run(TableBounds(KINDS), LARGE, calls + [DrawCall(Boxed(r))]);
      IsErosionLayer(t) && t.rtree == s.rtree.Add(r, |s.records|) && |t.records| == |s.records| + 1
  {
    RunMore(TableBounds(KINDS), fm, LARGE, calls, DrawCall(Boxed(r)));
    hide Run, CanvasRun, CanvasStep, DrawOp, IsErosionLayer, RTreeData.Add;
    BoxStays(Run(TableBounds(KINDS), LARGE, calls), r);
  }

  lemma AddedTwo(id: nat)
    ensures RTreeData([], []).Add(WEST, id).Add(EAST, id + 1) == RTreeData([WEST, EAST], [id, id + 1])
  {
  }

  lemma ErosionOpens(fm: FilterMeaning)
    ensures var s := Run(TableBounds(KINDS), LARGE, FilterLayer(EROSION));
      IsErosionLayer(s) && s.rtree == RTreeData([], [])
  {
    FilterLayerState(TableBounds(KINDS), fm, EROSION);
    hide Run, IsFilterLayer;
  }

  lemma ErodedState(fm: FilterMeaning)
    ensures var s, id := Run(TableBounds(KINDS), LARGE, ERODED),
                         |Run(TableBounds(KINDS), LARGE, FilterLayer(EROSION)).records|;
      IsErosionLayer(s) && s.rtree == RTreeData([WEST, EAST], [id, id + 1])
  {
    ErosionOpens(fm);
    BoxRuns(fm, FilterLayer(EROSION), WEST);
    BoxRuns(fm, WEST_DRAWN, EAST);
    AddedTwo(|Run(TableBounds(KINDS), LARGE, FilterLayer(EROSION)).records|);
    hide *;
  }

  // ---- closing it

  lemma AdjustedTwo(fx: FilterBounds, f: ImageFilter, clip: Rect, a: Rect, b: Rect, i: nat, j: nat)
    requires AdjustRect(fx, f, IDENTITY, clip, a).Some? && AdjustRect(fx, f, IDENTITY, clip, b).Some?
    ensures AdjustRTreeRects(fx, f, IDENTITY, clip, RTreeData([a, b], [i, j]), 0, 2) ==
      RTreeData([AdjustRect(fx, f, IDENTITY, clip, a).value, AdjustRect(fx, f, IDENTITY, clip, b).value], [i, j])
  {
    hide AdjustRect;
    var data := RTreeData([a, b], [i, j]);
    assert AdjustRTreeRects(fx, f, IDENTITY, clip, data, 0, 0) == RTreeData([], []);
    assert AdjustRTreeRects(fx, f, IDENTITY, clip, data, 0, 1)
        == RTreeData([], []).Add(AdjustRect(fx, f, IDENTITY, clip, a).value, i);
  }

  lemma ErodedBoxes()
    ensures AdjustRect(TableBounds(KINDS), EROSION, IDENTITY, LARGE, WEST) == Some(Rect(30.0, 30.0, 45.0, 70.0))
    ensures AdjustRect(TableBounds(KINDS), EROSION, IDENTITY, LARGE, EAST) == Some(Rect(55.0, 30.0, 70.0, 70.0))
  {
    assert WEST.RoundOut() == WEST && EAST.RoundOut() == EAST;
    assert RadiusAlong(10.0, 1.0) == 10.0;
  }

  /** A filter that always answers hands the adjusted entries down, and no others. */
  lemma ClosedRTree(fx: FilterBounds, s: BuilderState, f: ImageFilter)
    requires s.below != [] && !s.top.mark.deferred && s.top.mark.isSaveLayer && NamesItsSave(s) && s.outer != []
    requires s.layer.filter == Some(f) && CanAdjust(s.rtree, s.layer.rtreeStart)
    requires var m := s.below[|s.below| - 1].global.matrix;
      !AnyRectFloods(fx, f, m, s.rtree, s.layer.rtreeStart)
    requires forall r :: fx.mapLocal(f, r).Some?
    ensures var parent := s.below[|s.below| - 1].global;
      Restore(fx, s).rtree ==
        AdjustRTreeRects(fx, f, parent.matrix, parent.cull, s.rtree, s.layer.rtreeStart, |s.rtree.rects|)
    ensures Restore(fx, s).below == s.below[..|s.below| - 1]
  {
    hide AdjustRTreeRects, AnyRectFloods, ContentBounds, AccumulateBoundsLocal, SettledLayer, DepthCost;
  }

  lemma FinishesOnce(fx: FilterBounds, s: BuilderState)
    requires |s.below| == 1 && Restore(fx, s).below == []
    ensures RestoreToCount(fx, s, 1) == Restore(fx, s)
  {
    hide Restore;
  }

  lemma ErosionAnswers(data: RTreeData)
    ensures !AnyRectFloods(TableBounds(KINDS), EROSION, IDENTITY, data, 0)
    ensures forall r :: TableBounds(KINDS).mapLocal(EROSION, r).Some?
  {
    hide Rect.RoundOut;
  }

  lemma ErodedRTree(fm: FilterMeaning)
    ensures var fx := TableBounds(KINDS);
      var id := |Run(fx, LARGE, FilterLayer(EROSION)).records|;
      Finished(fx, LARGE, ERODED).rtree
        == RTreeData([Rect(30.0, 30.0, 45.0, 70.0), Rect(55.0, 30.0, 70.0, 70.0)], [id, id + 1])
  {
    var fx := TableBounds(KINDS);
    var s, id := Run(fx, LARGE, ERODED), |Run(fx, LARGE, FilterLayer(EROSION)).records|;
    ErodedState(fm);
    RunIsWellFormed(fx, LARGE, ERODED);
    RestoreIsReady(s);
    ErosionAnswers(s.rtree);
    hide Run, WellFormed, NamesItsSave, LayerCull, AnyRectFloods, AdjustRTreeRects, AdjustRect, Restore, RestoreToCount;
    ClosedRTree(fx, s, EROSION);
    FinishesOnce(fx, s);
    ErodedBoxes();
    AdjustedTwo(fx, EROSION, LARGE, WEST, EAST, id, id + 1);
  }

  // ---- and what can be seen of it

  lemma BoxMarks(fm: FilterMeaning, c: Canvas, r: Rect, q: Point, id: nat)
    requires IsFilterCanvas(fm, EROSION, c) && r.Inside(q) && MAX_CULL_RECT.Inside(q)
    ensures var d := CanvasStep(fm, c, DrawCall(Boxed(r)), id);
      && Mark(id, DrawnPart(DEFAULT_PAINT, Boxed(r), id), DEFAULT_PAINT, q) in d.marks
      && IsFilterCanvas(fm, EROSION, d)
  {
    assert Anywhere(q);
    hide Rect.Inside, DrawTouches;
    BoxTouches(fm, c.top, r, q);
  }

  lemma ErosionSurfaces(fm: FilterMeaning, c: Canvas, m: Mark, p: Point)
    requires IsFilterCanvas(fm, EROSION, c) && m in c.marks && fm.reaches(EROSION, IDENTITY, m.point, p)
    ensures Mark(m.id, c.top.spec.part, m.paint, p) in CanvasRestoreToCount(fm, c, 1).marks
  {
    var parent, up := c.below[0], Mark(m.id, c.top.spec.part, m.paint, p);
    assert Anywhere(p);
    assert Mark(m.id, m.part, m.paint, m.point) in c.marks
      && Composed(fm, c.top.spec.filter, c.top.spec.matrix, m.point, p);
    assert Surfaces(fm, c.top, parent, c.marks, up);
    hide Surfaces;
    assert up in CanvasRestore(fm, c).marks;
    assert CanvasRestore(fm, c).below == [];
    hide CanvasRestore;
  }

  const BESIDE := Point(47.0, 50.0)

  /** In the middle between the boxes everything that the erosion looks at is covered, by one
      of them or the other. So something can be seen there, which the r-tree does not hold. */
  lemma ErosionLosesAnEdge() returns (m: Mark)
    ensures var fx, fm := TableBounds(KINDS), TableMeaning(KINDS);
      && m in CanvasFinished(fx, fm, LARGE, ERODED).marks && LARGE.Inside(m.point) && m.point == MIDDLE
      && !HoldsMark(Finished(fx, LARGE, ERODED).rtree, m)
    ensures forall q :: Near(q, MIDDLE, 10.0, 10.0) ==> WEST.Inside(q) || EAST.Inside(q)
  {
    var fx, fm := TableBounds(KINDS), TableMeaning(KINDS);
    ErodedRTree(fm);
    m := ErodedMark();
    NotHeld(|Run(fx, LARGE, FilterLayer(EROSION)).records|, m);
    forall q | Near(q, MIDDLE, 10.0, 10.0)
      ensures WEST.Inside(q) || EAST.Inside(q)
    {
      MiddleIsCovered(q);
    }
    hide *;
  }

  lemma NotHeld(id: nat, m: Mark)
    requires m.point == MIDDLE
    ensures !HoldsMark(RTreeData([Rect(30.0, 30.0, 45.0, 70.0), Rect(55.0, 30.0, 70.0, 70.0)], [id, id + 1]), m)
  {
  }

  lemma ErodedMark() returns (m: Mark)
    ensures m in CanvasFinished(TableBounds(KINDS), TableMeaning(KINDS), LARGE, ERODED).marks && m.point == MIDDLE
    ensures LARGE.Inside(m.point)
  {
    var fx, fm := TableBounds(KINDS), TableMeaning(KINDS);
    FilterLayerCanvas(fx, fm, EROSION);
    RunMore(fx, fm, LARGE, FilterLayer(EROSION), DrawCall(Boxed(WEST)));
    RunMore(fx, fm, LARGE, WEST_DRAWN, DrawCall(Boxed(EAST)));
    var id, more := |Run(fx, LARGE, FilterLayer(EROSION)).records|, |Run(fx, LARGE, WEST_DRAWN).records|;
    assert WEST.Inside(BESIDE) && EAST.Inside(BESIDE) && MAX_CULL_RECT.Inside(BESIDE);
    ReachesBeside();
    hide Run, CanvasRun, CanvasStep, Step, IsFilterCanvas, Rect.Inside, Reaches, CanvasRestoreToCount;
    BoxMarks(fm, CanvasRun(fx, fm, LARGE, FilterLayer(EROSION)), WEST, BESIDE, id);
    BoxMarks(fm, CanvasRun(fx, fm, LARGE, WEST_DRAWN), EAST, BESIDE, more);
    var c := CanvasRun(fx, fm, LARGE, ERODED);
    var east := Mark(more, DrawnPart(DEFAULT_PAINT, Boxed(EAST), more), DEFAULT_PAINT, BESIDE);
    ErosionSurfaces(fm, c, east, MIDDLE);
    m := Mark(more, c.top.spec.part, DEFAULT_PAINT, MIDDLE);
  }

  lemma ReachesBeside()
    ensures TableMeaning(KINDS).reaches(EROSION, IDENTITY, BESIDE, MIDDLE) && LARGE.Inside(MIDDLE)
  {
    assert RadiusAlong(10.0, 1.0) == 10.0;
  }
}
