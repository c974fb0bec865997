/**
 What `can_distribute_opacity` is for, in pixels: drawing every part of such a layer with
 its opacity gives the pixels of the whole layer drawn with it, exactly when no part has an
 image filter that does not commute with opacity.
 */
module DisplayListGroupPixels {
  import opened DisplayListTypes
  import opened DisplayListPaint
  import opened DisplayListBuilderSpec
  import opened DisplayListNesting
  import opened DisplayListRTree
  import opened DisplayListCanvas
  import opened DisplayListUsedFilters
  import opened DisplayListVisibility
  import opened DisplayListLayers
  import opened DisplayListOpacity
  import opened DisplayListGroupOpacity
  import opened DisplayListOpacityPixels
  import opened DisplayListPartPixels

  // ------------------------------------------------- all parts of a layer

  /** The parts of a layer drawn over each other, each with the opacity. */
  function PaintedParts(fe: Effects, parts: seq<Part>, samples: seq<seq<Sample>>, p: Point, opacity: real,
                        d: Pixel): Pixel
    requires |parts| == |samples|
  {
    if parts == [] then d
    else
      var n := |parts| - 1;
      Painted(fe, parts[n], samples[n], p, opacity, PaintedParts(fe, parts[..n], samples[..n], p, opacity, d))
  }

  ghost predicate Touches(marks: iset<Mark>, part: Part, p: Point) {
    exists m :: m in marks && m.part == part && m.point == p
  }

  /** A way to paint the point `p` of a layer: each of its parts once, in some order, and
      nothing by the parts that have no mark there. */
  ghost predicate Paints(marks: iset<Mark>, p: Point, parts: seq<Part>, samples: seq<seq<Sample>>) {
    && |parts| == |samples|
    && (forall j, k :: 0 <= j < k < |parts| ==> parts[j] != parts[k])
    && (forall k :: 0 <= k < |parts| ==> MayPaint(parts[k].look, samples[k]))
    && (forall k :: 0 <= k < |parts| && samples[k] != [] ==> Touches(marks, parts[k], p))
  }

  /** The point belongs to one part at most, and that one is compatible. */
  ghost predicate OneCompatiblePart(marks: iset<Mark>, p: Point) {
    forall m, n :: m in marks && n in marks && m.point == p && n.point == p ==> m.part == n.part && m.part.Compatible()
  }

  /** All parts at the point scale. */
  ghost predicate AllScaleAt(marks: iset<Mark>, p: Point, scaling: iset<Part>) {
    forall m :: m in marks && m.point == p ==> Scales(m.part, scaling)
  }

  /** Drawing all parts with the opacity is drawing what they look like together with it. */
  ghost predicate ShareOpacityAt(fe: Effects, parts: seq<Part>, samples: seq<seq<Sample>>, p: Point, opacity: real,
                                 d: Pixel)
    requires |parts| == |samples|
  {
    PaintedParts(fe, parts, samples, p, opacity, d)
      == SourceOver(Scaled(opacity, PaintedParts(fe, parts, samples, p, 1.0, CLEAR_PIXEL)), d)
  }

  /** The pixel that each part has by itself. */
  function Pixels(fe: Effects, parts: seq<Part>, samples: seq<seq<Sample>>, p: Point): (pixels: seq<Pixel>)
    requires |parts| == |samples|
  {
    seq(|parts|, k requires 0 <= k < |parts| => Painted(fe, parts[k], samples[k], p, 1.0, CLEAR_PIXEL))
  }

  lemma PixelsOfFewer(fe: Effects, parts: seq<Part>, samples: seq<seq<Sample>>, p: Point, n: nat)
    requires |parts| == |samples| && n <= |parts|
    ensures Pixels(fe, parts[..n], samples[..n], p) == Pixels(fe, parts, samples, p)[..n]
  {
    hide Painted;
  }

  /** Every part takes the opacity, on whatever is below it. */
  ghost predicate AllTakeOpacity(fe: Effects, parts: seq<Part>, samples: seq<seq<Sample>>, p: Point, opacity: real)
    requires |parts| == |samples|
  {
    forall k, d :: 0 <= k < |parts| ==> TakesOpacityAt(fe, parts[k], samples[k], p, opacity, d)
  }

  /** Parts that take the opacity are drawn like their pixels. */
  lemma {:induction false} PartsDrawLikePixels(fe: Effects, parts: seq<Part>, samples: seq<seq<Sample>>, p: Point,
                                               opacity: real, d: Pixel)
    requires |parts| == |samples| && AllTakeOpacity(fe, parts, samples, p, opacity)
    ensures PaintedParts(fe, parts, samples, p, opacity, d) == DrawnEach(Pixels(fe, parts, samples, p), opacity, d)
  {
    hide Painted, SourceOver, Scaled, DrawnEach;
    var pixels := Pixels(fe, parts, samples, p);
    if parts == [] {
      NoParts(opacity, d);
    } else {
      var n := |parts| - 1;
      PixelsOfFewer(fe, parts, samples, p, n);
      PartsDrawLikePixels(fe, parts[..n], samples[..n], p, opacity, d);
      assert TakesOpacityAt(fe, parts[n], samples[n], p, opacity,
                            PaintedParts(fe, parts[..n], samples[..n], p, opacity, d));
      LastPart(pixels, opacity, d);
    }
  }

  lemma {:induction false} DrawnFullyIsFlattened(pixels: seq<Pixel>)
    ensures DrawnEach(pixels, 1.0, CLEAR_PIXEL) == Flattened(pixels)
  {
    hide SourceOver, Scaled, DrawnEach, Flattened;
    if pixels == [] {
      NoParts(1.0, CLEAR_PIXEL);
    } else {
      DrawnFullyIsFlattened(pixels[..|pixels| - 1]);
      LastPart(pixels, 1.0, CLEAR_PIXEL);
      ScaledTwice(1.0, 1.0, pixels[|pixels| - 1]);
    }
  }

  lemma TouchedTakesOpacity(fe: Effects, scaling: iset<Part>, marks: iset<Mark>, part: Part, samples: seq<Sample>,
                            p: Point, opacity: real, d: Pixel)
    requires OneCompatiblePart(marks, p) && AllScaleAt(marks, p, scaling) && Consistent(fe, scaling)
    requires 0.0 <= opacity <= 1.0
    requires MayPaint(part.look, samples) && (samples != [] ==> Touches(marks, part, p))
    ensures TakesOpacityAt(fe, part, samples, p, opacity, d)
  {
    if samples == [] {
      NothingTakesOpacity(fe, part, p, opacity, d);
    } else {
      var m :| m in marks && m.part == part && m.point == p;
      assert m.part.Compatible() && Scales(m.part, scaling);
      CompatibleLook(scaling, part);
      CommutingTakesOpacity(fe, scaling, part, samples, p, opacity, d);
    }
  }

  lemma PaintsOnePart(fe: Effects, marks: iset<Mark>, p: Point, parts: seq<Part>, samples: seq<seq<Sample>>)
    requires OneCompatiblePart(marks, p) && Paints(marks, p, parts, samples)
    ensures OnePart(Pixels(fe, parts, samples, p))
  {
    hide MayPaint, Painted;
    forall j, k | 0 <= j < k < |parts|
      ensures Pixels(fe, parts, samples, p)[j] == CLEAR_PIXEL || Pixels(fe, parts, samples, p)[k] == CLEAR_PIXEL
    {
      PaintedNothing(fe, parts[j], p, 1.0, CLEAR_PIXEL);
      PaintedNothing(fe, parts[k], p, 1.0, CLEAR_PIXEL);
      assert samples[j] != [] ==> Touches(marks, parts[j], p);
    }
  }

  /** At a point that belongs to one compatible part at most, whose image filter commutes,
      the parts share the opacity. */
  lemma PartsShareOpacity(fe: Effects, scaling: iset<Part>, marks: iset<Mark>, p: Point, parts: seq<Part>,
                          samples: seq<seq<Sample>>, opacity: real, d: Pixel)
    requires OneCompatiblePart(marks, p) && AllScaleAt(marks, p, scaling) && Paints(marks, p, parts, samples)
    requires Consistent(fe, scaling) && 0.0 <= opacity <= 1.0
    ensures ShareOpacityAt(fe, parts, samples, p, opacity, d)
  {
    forall k, e, alpha | 0 <= k < |parts| && 0.0 <= alpha <= 1.0
      ensures TakesOpacityAt(fe, parts[k], samples[k], p, alpha, e)
    {
      TouchedTakesOpacity(fe, scaling, marks, parts[k], samples[k], p, alpha, e);
    }
    PaintsOnePart(fe, marks, p, parts, samples);
    assert AllTakeOpacity(fe, parts, samples, p, opacity) && AllTakeOpacity(fe, parts, samples, p, 1.0);
    var pixels := Pixels(fe, parts, samples, p);
    PartsDrawLikePixels(fe, parts, samples, p, opacity, d);
    PartsDrawLikePixels(fe, parts, samples, p, 1.0, CLEAR_PIXEL);
    DrawnFullyIsFlattened(pixels);
    DistributedOpacityIsGroupOpacity(pixels, opacity, d);
    hide Paints, PaintedParts, Pixels, SourceOver, Scaled, DrawnEach, Flattened, TakesOpacityAt, OneCompatiblePart,
      Consistent;
  }

  // ------------------------------------------- exactly which layers do that

  predicate SeenAt(spec: LayerSpec, p: Point) {
    p in spec.relevant && spec.matrix.IsInvertible()
  }

  /** Wherever the layer can be seen its parts share every opacity, whatever they paint and
      whatever effects do. */
  ghost predicate SharesOpacity(spec: LayerSpec, marks: iset<Mark>, scaling: iset<Part>) {
    forall fe, p, parts, samples, opacity, d: Pixel ::
      Consistent(fe, scaling) && SeenAt(spec, p) && Paints(marks, p, parts, samples) && 0.0 <= opacity <= 1.0
        && d.Valid() ==>
        ShareOpacityAt(fe, parts, samples, p, opacity, d)
  }

  /** All parts that can be seen scale: none has an image filter that does not commute with
      opacity, and the layers and child lists among them share theirs. */
  ghost predicate SeenPartsScale(spec: LayerSpec, marks: iset<Mark>, scaling: iset<Part>) {
    forall m :: m in marks && Seen(spec, m) ==> Scales(m.part, scaling)
  }

  lemma OnePartPainted(fe: Effects, part: Part, samples: seq<Sample>, p: Point, opacity: real, d: Pixel)
    ensures PaintedParts(fe, [part], [samples], p, opacity, d) == Painted(fe, part, samples, p, opacity, d)
  {
    hide Painted;
    assert [part][..0] == [] && [samples][..0] == [];
  }

  /** A part that does not scale shows the difference by itself. */
  lemma OtherPartShows(spec: LayerSpec, marks: iset<Mark>, scaling: iset<Part>, m: Mark)
    requires m in marks && Seen(spec, m) && m.part.Compatible() && !Scales(m.part, scaling)
    ensures !SharesOpacity(spec, marks, scaling)
  {
    var fe, part, p, samples := Whitening(scaling), m.part, m.point, [Sample(WHITE_IMAGE, 0.0)];
    CompatibleLook(scaling, part);
    WhitenedFails(scaling, part, WHITE_IMAGE, p);
    BothAreConsistent(scaling);
    OnePartPainted(fe, part, samples, p, 0.5, CLEAR_PIXEL);
    OnePartPainted(fe, part, samples, p, 1.0, CLEAR_PIXEL);
    assert Touches(marks, part, p);
    assert Paints(marks, p, [part], [samples]) && SeenAt(spec, p) && CLEAR_PIXEL.Valid();
    hide PaintedParts, Painted, Paints, Consistent, SourceOver, Scaled, EffectsCommute, Scales, Part.Compatible, SeenAt,
      Whitening;
    assert !ShareOpacityAt(fe, [part], [samples], p, 0.5, CLEAR_PIXEL);
  }

  /** Where every point belongs to one compatible part at most, it takes that the parts scale,
      and no more. */
  lemma SharesOpacityExactly(spec: LayerSpec, marks: iset<Mark>, scaling: iset<Part>)
    requires forall p :: SeenAt(spec, p) ==> OneCompatiblePart(marks, p)
    ensures SharesOpacity(spec, marks, scaling) <==> SeenPartsScale(spec, marks, scaling)
  {
    if SeenPartsScale(spec, marks, scaling) {
      forall fe, p, parts, samples, opacity, d: Pixel |
        Consistent(fe, scaling) && SeenAt(spec, p) && Paints(marks, p, parts, samples) && 0.0 <= opacity <= 1.0
          && d.Valid()
        ensures ShareOpacityAt(fe, parts, samples, p, opacity, d)
      {
        SeenScaleAt(spec, marks, scaling, p);
        PartsShareOpacity(fe, scaling, marks, p, parts, samples, opacity, d);
      }
    } else {
      var m :| m in marks && Seen(spec, m) && !Scales(m.part, scaling);
      assert SeenAt(spec, m.point);
      assert m.part.Compatible();
      OtherPartShows(spec, marks, scaling, m);
    }
    hide *;
  }

  lemma SeenScaleAt(spec: LayerSpec, marks: iset<Mark>, scaling: iset<Part>, p: Point)
    requires SeenPartsScale(spec, marks, scaling) && SeenAt(spec, p)
    ensures AllScaleAt(marks, p, scaling)
  {
    hide Scales, Matrix.IsInvertible;
    assert forall m :: m in marks && m.point == p ==> Seen(spec, m);
  }

  // ------------------------------------------------- layers of the builder

  /** The record of the layer that the next restore closes says that it distributes an opacity. */
  predicate ClosesDistributing(fx: FilterBounds, s: BuilderState) {
    && s.below != [] && s.top.mark.isSaveLayer
    && var built, k := Restore(fx, s).records, s.top.mark.saveOffset;
    && k < |built| && built[k].SaveLayerRecord? && built[k].options.canDistributeOpacity
  }

  lemma DistributingIsFlat(fx: FilterBounds, fm: FilterMeaning, s: BuilderState, c: Canvas)
    requires Good(fm, s, c) && ClosesDistributing(fx, s)
    ensures Flat(s.layer, c.top.spec, c.marks) && s.layer.IsGroupOpacityCompatible()
  {
    BookkeptIsPaired(s);
    LayerIsTriggered(s);
    RestoreIsReady(s);
    LayerFacts(fm, s, c);
    hide Sees, WellFormed, Bookkept, StateFlat, AllFlat, Tracks, SpecOf, Restore, ContentBounds, Flat, MarksHeld,
      LayerInfo.IsGroupOpacityCompatible;
    SettledOptions(fx, s);
  }

  lemma FlatHasOnePart(layer: LayerInfo, spec: LayerSpec, marks: iset<Mark>, p: Point)
    requires Flat(layer, spec, marks) && layer.IsGroupOpacityCompatible() && SeenAt(spec, p)
    ensures OneCompatiblePart(marks, p) && spec.part.Compatible() && spec.filter.None?
  {
    hide BoundsHoldAll, Part.Compatible, Matrix.IsInvertible;
    assert forall m :: m in marks && m.point == p ==> Seen(spec, m);
  }

  /** What a run knows of a layer that it closes and marks. */
  lemma ClosingIsFlat(fx: FilterBounds, fm: FilterMeaning, cull: Rect, calls: seq<Call>)
    requires FiltersAreSound(fx, fm, calls) && ResetsInvertible(fx, fm, cull, calls)
    requires ClosesDistributing(fx, Run(fx, cull, calls))
    ensures var s, c := Run(fx, cull, calls), CanvasRun(fx, fm, cull, calls);
      Flat(s.layer, c.top.spec, c.marks) && s.layer.IsGroupOpacityCompatible()
  {
    RunIsGood(fx, fm, cull, calls);
    DistributingIsFlat(fx, UsedMeaning(fm, calls), Run(fx, cull, calls), CanvasRun(fx, fm, cull, calls));
    hide *;
  }

  /** When a run closes a layer and its record says that an opacity can be distributed, it
      can, at every point that can be seen, if and only if all parts that can be seen there
      scale: the builder does not ask whether their image filters commute with opacity. */
  lemma GroupOpacityExactly(fx: FilterBounds, fm: FilterMeaning, cull: Rect, calls: seq<Call>, scaling: iset<Part>)
    requires FiltersAreSound(fx, fm, calls) && ResetsInvertible(fx, fm, cull, calls)
    requires ClosesDistributing(fx, Run(fx, cull, calls))
    ensures var c := CanvasRun(fx, fm, cull, calls);
      SharesOpacity(c.top.spec, c.marks, scaling) <==> SeenPartsScale(c.top.spec, c.marks, scaling)
  {
    var s, c := Run(fx, cull, calls), CanvasRun(fx, fm, cull, calls);
    ClosingIsFlat(fx, fm, cull, calls);
    hide Run, CanvasRun, Flat, SharesOpacity, SeenPartsScale, OneCompatiblePart, SeenAt;
    forall p | SeenAt(c.top.spec, p)
      ensures OneCompatiblePart(c.marks, p)
    {
      FlatHasOnePart(s.layer, c.top.spec, c.marks, p);
    }
    SharesOpacityExactly(c.top.spec, c.marks, scaling);
  }

  /** A layer or child list that is put together first and drawn as one image. */
  ghost predicate DrawnWhole(fe: Effects, part: Part) {
    forall unit, alpha :: fe.nested(part, unit, alpha) == ScaledImage(alpha, unit)
  }

  /** What is drawn whole scales. */
  lemma WholeScales(fe: Effects, part: Part)
    requires DrawnWhole(fe, part)
    ensures NestedScales(fe, part)
  {
    forall unit, opacity
      ensures IsScaled(ScaledImage(AlphaWith(part.look, opacity), unit), opacity,
                       ScaledImage(AlphaWith(part.look, 1.0), unit))
    {
      UnitScales(part, opacity, unit);
    }
    hide AlphaWith, ScaledImage;
  }

  /** So the layer need not be put together first: drawn whole by its own paint, with any
      opacity on top, it looks like its parts drawn one by one, each with the opacity and
      the alpha of the layer. Either way it scales, as a part of the layer around it. */
  lemma GroupOpacityIsDistributed(fx: FilterBounds, fm: FilterMeaning, cull: Rect, calls: seq<Call>, fe: Effects,
                                  scaling: iset<Part>, p: Point, parts: seq<Part>, samples: seq<seq<Sample>>,
                                  whole: Sample, opacity: real, d: Pixel)
    requires FiltersAreSound(fx, fm, calls) && ResetsInvertible(fx, fm, cull, calls)
    requires ClosesDistributing(fx, Run(fx, cull, calls)) && Consistent(fe, scaling) && 0.0 <= opacity <= 1.0
    requires var c := CanvasRun(fx, fm, cull, calls);
      && SeenAt(c.top.spec, p) && AllScaleAt(c.marks, p, scaling) && Paints(c.marks, p, parts, samples)
      && DrawnWhole(fe, c.top.spec.part) && 0.0 <= AlphaOf(c.top.spec.part.look) <= 1.0
      && whole.unit(p) == PaintedParts(fe, parts, samples, p, 1.0, CLEAR_PIXEL)
    ensures var spec := CanvasRun(fx, fm, cull, calls).top.spec;
      && spec.filter.None?
      && Painted(fe, spec.part, [whole], p, opacity, d)
           == PaintedParts(fe, parts, samples, p, AlphaWith(spec.part.look, opacity), d)
  {
    var s, c := Run(fx, cull, calls), CanvasRun(fx, fm, cull, calls);
    ClosingIsFlat(fx, fm, cull, calls);
    FlatHasOnePart(s.layer, c.top.spec, c.marks, p);
    RunLooks(fx, fm, cull, calls);
    LayerHasNoFilter(c);
    hide *;
    WholeShareOpacity(fe, scaling, c.top.spec.part, c.marks, p, parts, samples, whole, opacity, d);
  }

  /** Without effects a paint renders its image scaled, point by point. */
  lemma PlainSource(fe: Effects, part: Part, unit: Image, p: Point, opacity: real)
    requires part.Compatible() && (part.look.usesPaint ==> part.look.paint.imageFilter.None?)
    requires DrawnWhole(fe, part)
    ensures SourceOf(fe, part, unit, p, opacity) == Scaled(AlphaWith(part.look, opacity), unit(p))
  {
    hide Scaled;
  }

  lemma AlphaInRange(look: Look, opacity: real)
    requires 0.0 <= opacity <= 1.0 && 0.0 <= AlphaOf(look) <= 1.0
    ensures 0.0 <= AlphaWith(look, opacity) <= 1.0
  {
    hide AlphaOf;
    ProductInRange(opacity, AlphaOf(look));
  }

  lemma ProductInRange(a: real, b: real)
    requires 0.0 <= a <= 1.0 && 0.0 <= b <= 1.0
    ensures 0.0 <= a * b <= 1.0
  {
    NotNegative(a, b);
    NotNegative(1.0 - a, b);
    assert (1.0 - a) * b == b - a * b;
  }

  lemma NotNegative(a: real, b: real)
    requires 0.0 <= a && 0.0 <= b
    ensures 0.0 <= a * b
  {
    if a > 0.0 && b > 0.0 {
      assert a * b > 0.0;
    }
  }

  lemma WholeShareOpacity(fe: Effects, scaling: iset<Part>, part: Part, marks: iset<Mark>, p: Point, parts: seq<Part>,
                          samples: seq<seq<Sample>>, whole: Sample, opacity: real, d: Pixel)
    requires OneCompatiblePart(marks, p) && AllScaleAt(marks, p, scaling) && Paints(marks, p, parts, samples)
    requires part.Compatible() && (part.look.usesPaint ==> part.look.paint.imageFilter.None?) && DrawnWhole(fe, part)
    requires Consistent(fe, scaling) && 0.0 <= opacity <= 1.0 && 0.0 <= AlphaOf(part.look) <= 1.0
    requires whole.unit(p) == PaintedParts(fe, parts, samples, p, 1.0, CLEAR_PIXEL)
    ensures Painted(fe, part, [whole], p, opacity, d)
         == PaintedParts(fe, parts, samples, p, AlphaWith(part.look, opacity), d)
  {
    CompatibleLook(scaling, part);
    var alpha := AlphaWith(part.look, opacity);
    AlphaInRange(part.look, opacity);
    PaintedOver(fe, part, whole, p, opacity, d);
    PlainSource(fe, part, whole.unit, p, opacity);
    PartsShareOpacity(fe, scaling, marks, p, parts, samples, alpha, d);
    hide OneCompatiblePart, AllScaleAt, Paints, Painted, PaintedParts, SourceOver, Scaled, SourceOf, Consistent,
      AlphaOf, AlphaWith, EffectsCommute, Scales, DrawnWhole;
  }

  // --------------------------------------------------------- whole lists

  lemma RootIsSeen(c: Canvas, cull: Rect, p: Point)
    requires Root(c).spec == StartCanvas(cull).top.spec && c.below == []
    ensures SeenAt(c.top.spec, p) <==> cull.Inside(p)
  {
  }

  lemma FinishedIsFlat(fx: FilterBounds, fm: FilterMeaning, cull: Rect, calls: seq<Call>)
    requires FiltersAreSound(fx, fm, calls) && ResetsInvertible(fx, fm, cull, calls)
    ensures var s, c := Finished(fx, cull, calls), CanvasFinished(fx, fm, cull, calls);
      c.below == [] && Flat(s.layer, c.top.spec, c.marks)
  {
    UsedFiltersDecide(fx, fm, cull, calls);
    hide *;
    SoundFinishedIsFlat(fx, UsedMeaning(fm, calls), cull, calls);
  }

  lemma SoundFinishedIsFlat(fx: FilterBounds, fm: FilterMeaning, cull: Rect, calls: seq<Call>)
    requires Sound(fx, fm) && ResetsInvertible(fx, fm, cull, calls)
    ensures var s, c := Finished(fx, cull, calls), CanvasFinished(fx, fm, cull, calls);
      c.below == [] && Flat(s.layer, c.top.spec, c.marks)
  {
    var s, c := Run(fx, cull, calls), CanvasRun(fx, fm, cull, calls);
    RunGood(fx, fm, cull, calls);
    GoodParts(fm, s, c);
    RestoreToCountFlat(fx, fm, s, c, 1);
    RestoreToCountSees(true, fx, fm, s, c, 1);
    RestoreToCountKeepsForm(fx, s, 1);
    TopTracks(true, fm, Finished(fx, cull, calls), CanvasFinished(fx, fm, cull, calls));
    RootIsFlat(Finished(fx, cull, calls), CanvasFinished(fx, fm, cull, calls));
    hide *;
  }

  lemma GoodParts(fm: FilterMeaning, s: BuilderState, c: Canvas)
    requires Good(fm, s, c)
    ensures Sees(true, fm, s, c) && WellFormed(s) && Bookkept(s) && StateFlat(s, c)
  {
  }

  lemma RootIsFlat(s: BuilderState, c: Canvas)
    requires StateFlat(s, c) && s.below == []
    ensures Flat(s.layer, c.top.spec, c.marks)
  {
  }

  /** What a run knows of a whole list whose root says that it can apply group opacity. */
  lemma ListHasOnePart(fx: FilterBounds, fm: FilterMeaning, cull: Rect, calls: seq<Call>, p: Point)
    requires FiltersAreSound(fx, fm, calls) && ResetsInvertible(fx, fm, cull, calls) && cull.Inside(p)
    requires Packed(Finished(fx, cull, calls)).root.canApplyGroupOpacity
    ensures OneCompatiblePart(CanvasFinished(fx, fm, cull, calls).marks, p)
  {
    var s, c := Finished(fx, cull, calls), CanvasFinished(fx, fm, cull, calls);
    FinishedIsFlat(fx, fm, cull, calls);
    RootSpec(fx, fm, cull, calls);
    RootIsSeen(c, cull, p);
    FlatHasOnePart(s.layer, c.top.spec, c.marks, p);
    hide *;
  }

  /** The same for a whole list, at every point of the cull rectangle. */
  lemma ListOpacityExactly(fx: FilterBounds, fm: FilterMeaning, cull: Rect, calls: seq<Call>, scaling: iset<Part>)
    requires FiltersAreSound(fx, fm, calls) && ResetsInvertible(fx, fm, cull, calls)
    requires Packed(Finished(fx, cull, calls)).root.canApplyGroupOpacity
    ensures var c := CanvasFinished(fx, fm, cull, calls);
      && (forall p :: SeenAt(c.top.spec, p) <==> cull.Inside(p))
      && (SharesOpacity(c.top.spec, c.marks, scaling) <==> SeenPartsScale(c.top.spec, c.marks, scaling))
  {
    var c := CanvasFinished(fx, fm, cull, calls);
    FinishedIsFlat(fx, fm, cull, calls);
    RootSpec(fx, fm, cull, calls);
    hide Finished, CanvasFinished, SharesOpacity, SeenPartsScale, OneCompatiblePart, SeenAt, Root, FiltersAreSound;
    forall p
      ensures SeenAt(c.top.spec, p) <==> cull.Inside(p)
      ensures SeenAt(c.top.spec, p) ==> OneCompatiblePart(c.marks, p)
    {
      RootIsSeen(c, cull, p);
      if cull.Inside(p) {
        ListHasOnePart(fx, fm, cull, calls, p);
      }
    }
    SharesOpacityExactly(c.top.spec, c.marks, scaling);
  }

  /** A built list whose parts scale, drawn into another one with an opacity that it hands to
      its parts, looks as if it were drawn whole: as the flag says that the builder reads. */
  lemma BuiltChildIsWhole(fx: FilterBounds, fm: FilterMeaning, cull: Rect, calls: seq<Call>, fe: Effects,
                          scaling: iset<Part>, p: Point, parts: seq<Part>, samples: seq<seq<Sample>>, whole: Sample,
                          current: Paint, list: ChildList, id: nat, opacity: real, d: Pixel)
    requires FiltersAreSound(fx, fm, calls) && ResetsInvertible(fx, fm, cull, calls) && cull.Inside(p)
    requires list.root == Packed(Finished(fx, cull, calls)).root && list.root.canApplyGroupOpacity
    requires var marks := CanvasFinished(fx, fm, cull, calls).marks;
      AllScaleAt(marks, p, scaling) && Paints(marks, p, parts, samples)
    requires Consistent(fe, scaling) && DrawnWhole(fe, ListPart(current, list, id)) && 0.0 <= opacity <= 1.0
    requires whole.unit(p) == PaintedParts(fe, parts, samples, p, 1.0, CLEAR_PIXEL)
    ensures PaintedParts(fe, parts, samples, p, opacity, d)
         == Painted(fe, ListPart(current, list, id), [whole], p, opacity, d)
  {
    var part := ListPart(current, list, id);
    ListHasOnePart(fx, fm, cull, calls, p);
    assert part.Compatible() && AlphaOf(part.look) == 1.0;
    assert AlphaWith(part.look, opacity) == opacity;
    hide Finished, CanvasFinished, Paints, PaintedParts, Painted, OneCompatiblePart, AllScaleAt, Consistent, DrawnWhole;
    WholeShareOpacity(fe, scaling, part, CanvasFinished(fx, fm, cull, calls).marks, p, parts, samples, whole, opacity,
                      d);
  }

  // ------------------------------------------------- the paints of the marks

  ghost predicate LooksLikePaint(marks: iset<Mark>) {
    forall m :: m in marks && !m.part.isContent ==> m.part.look.paint == m.paint
  }

  /** A layer surfaces as content, and has the filter of the paint it looks like. */
  predicate LooksLikeLayer(spec: LayerSpec) {
    spec.part.isContent && spec.filter == LayerFilter(spec.part.look.paint, spec.part.look.usesPaint)
  }

  /** Marks carry the paint that their part looks like; what surfaces from a layer is content. */
  ghost predicate AllLookLikePaint(c: Canvas) {
    && LooksLikePaint(c.marks)
    && (forall k :: 0 <= k < |c.outer| ==> LooksLikePaint(c.outer[k]))
    && LooksLikeLayer(c.top.spec)
    && (forall k :: 0 <= k < |c.below| ==> LooksLikeLayer(c.below[k].spec))
  }

  lemma LayerHasNoFilter(c: Canvas)
    requires AllLookLikePaint(c) && c.top.spec.filter.None?
    ensures c.top.spec.part.look.usesPaint ==> c.top.spec.part.look.paint.imageFilter.None?
  {
  }

  lemma NewMarksLook(fm: FilterMeaning, c: Canvas, call: Call, id: nat)
    ensures call.DrawCall? ==> LooksLikePaint(DrawMarks(fm, c, call.draw, id))
    ensures call.DrawListCall? ==> LooksLikePaint(ListMarks(c, call.list, call.opacity, id))
    ensures call.SaveLayerCall? ==> LooksLikePaint(LayerMarks(c, call.withPaint, call.backdrop, id))
  {
    hide DrawTouches, ListTouches, LayerTouches, InOneGo;
  }

  lemma RestoreLooks(fm: FilterMeaning, c: Canvas)
    requires AllLookLikePaint(c)
    ensures AllLookLikePaint(CanvasRestore(fm, c))
  {
    if c.below != [] {
      var surfaced := Surfaced(fm, c.top, c.below[|c.below| - 1], c.marks);
      assert forall m :: m in surfaced ==> m.part.isContent;
      hide Surfaced;
      assert LooksLikePaint(surfaced);
    }
  }

  lemma {:induction false} RestoresLook(fm: FilterMeaning, c: Canvas, count: int)
    requires AllLookLikePaint(c)
    ensures AllLookLikePaint(CanvasRestoreToCount(fm, c, count))
    decreases |c.below|
  {
    if c.below != [] && |c.below| + 1 > count {
      hide CanvasRestore, AllLookLikePaint;
      RestoreLooks(fm, c);
      RestoreShrinksCanvas(fm, c);
      RestoresLook(fm, CanvasRestore(fm, c), count);
    }
  }

  lemma StepLooks(fm: FilterMeaning, c: Canvas, call: Call, id: nat)
    requires AllLookLikePaint(c)
    ensures AllLookLikePaint(CanvasStep(fm, c, call, id))
  {
    NewMarksLook(fm, c, call, id);
    RestoreLooks(fm, c);
    if call.RestoreToCountCall? {
      RestoresLook(fm, c, call.count);
    }
    hide DrawMarks, ListMarks, LayerMarks, CanvasRestore, CanvasRestoreToCount, ClipPoints, ConcatMatrix, PaintResult,
      LeadsToSurface, InExtent;
  }

  lemma {:induction false} RunLooks(fx: FilterBounds, fm: FilterMeaning, cull: Rect, calls: seq<Call>)
    ensures AllLookLikePaint(CanvasRun(fx, fm, cull, calls))
  {
    if calls != [] {
      hide CanvasStep, AllLookLikePaint;
      var init := calls[..|calls| - 1];
      RunLooks(fx, fm, cull, init);
      StepLooks(fm, CanvasRun(fx, fm, cull, init), calls[|calls| - 1], |Run(fx, cull, init).records|);
    }
  }

  // ------------------------------------------- runs whose filters commute

  /** The parts look like paints with these filters only. */
  ghost predicate MarksUse(marks: iset<Mark>, filters: iset<ImageFilter>) {
    forall m :: m in marks ==> IsAmong(m.part.look.paint.imageFilter, filters)
  }

  ghost predicate AllUse(c: Canvas, filters: iset<ImageFilter>) {
    && IsAmong(c.paint.imageFilter, filters)
    && MarksUse(c.marks, filters)
    && (forall k :: 0 <= k < |c.outer| ==> MarksUse(c.outer[k], filters))
    && IsAmong(c.top.spec.part.look.paint.imageFilter, filters)
    && (forall k :: 0 <= k < |c.below| ==> IsAmong(c.below[k].spec.part.look.paint.imageFilter, filters))
  }

  lemma NewMarksUse(fm: FilterMeaning, c: Canvas, call: Call, id: nat, filters: iset<ImageFilter>)
    requires IsAmong(c.paint.imageFilter, filters) && SetsAmong(call, filters)
    ensures call.DrawCall? ==> MarksUse(DrawMarks(fm, c, call.draw, id), filters)
    ensures call.DrawListCall? ==> MarksUse(ListMarks(c, call.list, call.opacity, id), filters)
    ensures call.SaveLayerCall? ==> MarksUse(LayerMarks(c, call.withPaint, call.backdrop, id), filters)
  {
    hide DrawTouches, ListTouches, LayerTouches, InOneGo, IsAmong;
  }

  lemma RestoreUses(fm: FilterMeaning, c: Canvas, filters: iset<ImageFilter>)
    requires AllUse(c, filters)
    ensures AllUse(CanvasRestore(fm, c), filters)
  {
    hide IsAmong;
    if c.below != [] {
      var surfaced := Surfaced(fm, c.top, c.below[|c.below| - 1], c.marks);
      assert forall m :: m in surfaced ==> m.part == c.top.spec.part;
      hide Surfaced;
      assert MarksUse(surfaced, filters);
    }
  }

  lemma {:induction false} RestoresUse(fm: FilterMeaning, c: Canvas, count: int, filters: iset<ImageFilter>)
    requires AllUse(c, filters)
    ensures AllUse(CanvasRestoreToCount(fm, c, count), filters)
    decreases |c.below|
  {
    if c.below != [] && |c.below| + 1 > count {
      hide CanvasRestore, AllUse;
      RestoreUses(fm, c, filters);
      RestoreShrinksCanvas(fm, c);
      RestoresUse(fm, CanvasRestore(fm, c), count, filters);
    }
  }

  lemma StepUses(fm: FilterMeaning, c: Canvas, call: Call, id: nat, filters: iset<ImageFilter>)
    requires AllUse(c, filters) && SetsAmong(call, filters)
    ensures AllUse(CanvasStep(fm, c, call, id), filters)
  {
    NewMarksUse(fm, c, call, id, filters);
    RestoreUses(fm, c, filters);
    if call.RestoreToCountCall? {
      RestoresUse(fm, c, call.count, filters);
    }
    hide DrawMarks, ListMarks, LayerMarks, CanvasRestore, CanvasRestoreToCount, ClipPoints, ConcatMatrix, PaintResult,
      LeadsToSurface, InExtent;
  }

  lemma {:induction false} RunUses(fx: FilterBounds, fm: FilterMeaning, cull: Rect, calls: seq<Call>,
                                   filters: iset<ImageFilter>)
    requires AllSetAmong(calls, filters)
    ensures AllUse(CanvasRun(fx, fm, cull, calls), filters)
  {
    if calls != [] {
      hide CanvasStep, AllUse, SetsAmong;
      var init := calls[..|calls| - 1];
      RunUses(fx, fm, cull, init, filters);
      StepUses(fm, CanvasRun(fx, fm, cull, init), calls[|calls| - 1], |Run(fx, cull, init).records|, filters);
    }
  }

  /** What a caller can look up: every filter that the calls set commutes with opacity. */
  ghost predicate FiltersAllCommute(calls: seq<Call>) {
    forall f :: f in FiltersOf(calls) ==> f.Commutes()
  }

  lemma UsedFiltersCommute(marks: iset<Mark>, calls: seq<Call>)
    requires FiltersAllCommute(calls) && MarksUse(marks, FiltersOf(calls))
    ensures forall m :: m in marks ==> FilterCommutes(m.part)
  {
    hide FiltersOf, ImageFilter.Commutes;
  }

  /** The layers and child lists in a layer, which share their opacity themselves. */
  ghost function NestedParts(marks: iset<Mark>): iset<Part> {
    iset m | m in marks && m.part.look.nested :: m.part
  }

  /** In runs whose filters commute, every layer that is marked shares its opacity if the
      layers and child lists in it do, and so does the whole list if its root is marked. The
      layers in it were closed by the same run, earlier, so that this holds of them too. */
  lemma CommutingRunsShareOpacity(fx: FilterBounds, fm: FilterMeaning, cull: Rect, calls: seq<Call>)
    requires FiltersAreSound(fx, fm, calls) && ResetsInvertible(fx, fm, cull, calls) && FiltersAllCommute(calls)
    ensures var c := CanvasRun(fx, fm, cull, calls);
      ClosesDistributing(fx, Run(fx, cull, calls)) ==> SharesOpacity(c.top.spec, c.marks, NestedParts(c.marks))
    ensures var c := CanvasFinished(fx, fm, cull, calls);
      Packed(Finished(fx, cull, calls)).root.canApplyGroupOpacity ==>
        SharesOpacity(c.top.spec, c.marks, NestedParts(c.marks))
  {
    var filters, c, d := FiltersOf(calls), CanvasRun(fx, fm, cull, calls), CanvasFinished(fx, fm, cull, calls);
    CallsSetTheirOwn(calls);
    RunUses(fx, fm, cull, calls, filters);
    RestoresUse(fm, c, 1, filters);
    UsedFiltersCommute(c.marks, calls);
    UsedFiltersCommute(d.marks, calls);
    hide Run, CanvasRun, CanvasRestoreToCount, RestoreToCount, FiltersAreSound, ResetsInvertible, ClosesDistributing,
      SharesOpacity, FilterCommutes, FiltersAllCommute, Seen, SeenAt;
    if ClosesDistributing(fx, Run(fx, cull, calls)) {
      GroupOpacityExactly(fx, fm, cull, calls, NestedParts(c.marks));
    }
    if Packed(Finished(fx, cull, calls)).root.canApplyGroupOpacity {
      ListOpacityExactly(fx, fm, cull, calls, NestedParts(d.marks));
    }
  }

  /** In a layer that distributes its opacity, every drawing that can be seen and reads a
      paint has one that blends source-over and alters nothing. */
  lemma DistributedPaintsArePlain(fx: FilterBounds, fm: FilterMeaning, cull: Rect, calls: seq<Call>, m: Mark)
    requires FiltersAreSound(fx, fm, calls) && ResetsInvertible(fx, fm, cull, calls)
    requires ClosesDistributing(fx, Run(fx, cull, calls))
    requires var c := CanvasRun(fx, fm, cull, calls);
      m in c.marks && Seen(c.top.spec, m) && !m.part.isContent && m.part.look.usesPaint
    ensures m.paint.blendMode == SrcOver && m.paint.colorFilter.None? && !m.paint.invertColors
  {
    var s, c := Run(fx, cull, calls), CanvasRun(fx, fm, cull, calls);
    ClosingIsFlat(fx, fm, cull, calls);
    FlatHasOnePart(s.layer, c.top.spec, c.marks, m.point);
    RunLooks(fx, fm, cull, calls);
    assert m.part.Compatible();
    hide Run, CanvasRun, Restore, FiltersAreSound, ResetsInvertible, Flat;
  }
}
