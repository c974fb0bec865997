/**
 The pixels of one part of a layer, through all the effects of its paint, and exactly when
 it can be drawn with an opacity instead of being composed with it.
 */
module DisplayListPartPixels {
  import opened DisplayListTypes
  import opened DisplayListPaint
  import opened DisplayListBuilderSpec
  import opened DisplayListCanvas
  import opened DisplayListOpacityPixels

  type Image = Point -> Pixel

  function ScaledImage(alpha: real, image: Image): Image {
    (p: Point) => Scaled(alpha, image(p))
  }

  function Mapped(image: Image, f: Pixel -> Pixel): Image {
    (p: Point) => f(image(p))
  }

  // ------------------------------------------------------- effects of a paint

  /** What the effects do: a colour source with a program, given the image it would fill and
      the alpha; colour filters and the inversion of colours pixel by pixel; and image
      filters, which may look at the whole image. And how a layer or a child list shows at
      an alpha, whose own parts may be drawn one by one then. */
  datatype Effects = Effects(nested: (Part, Image, real) -> Image, program: (ColorSource, Image, real) -> Image,
                             colour: (ColorFilter, Pixel) -> Pixel, invert: Pixel -> Pixel,
                             image: (ImageFilter, Image) -> Image)

  ghost predicate IsScaled(scaled: Image, alpha: real, image: Image) {
    forall p :: scaled(p) == Scaled(alpha, image(p))
  }

  ghost predicate ColourCommutes(fe: Effects, f: ColorFilter) {
    forall s: Pixel, alpha :: 0.0 <= alpha <= 1.0 ==> fe.colour(f, Scaled(alpha, s)) == Scaled(alpha, fe.colour(f, s))
  }

  ghost predicate ImageCommutes(fe: Effects, f: ImageFilter) {
    forall scaled: Image, alpha, image: Image :: 0.0 <= alpha <= 1.0 && IsScaled(scaled, alpha, image) ==>
      IsScaled(fe.image(f, scaled), alpha, fe.image(f, image))
  }

  /** A layer or child list that an opacity scales. */
  ghost predicate NestedScales(fe: Effects, part: Part) {
    forall unit, opacity :: 0.0 <= opacity <= 1.0 ==>
      IsScaled(fe.nested(part, unit, AlphaWith(part.look, opacity)), opacity,
               fe.nested(part, unit, AlphaWith(part.look, 1.0)))
  }

  /** Filters that are said to commute with opacity do, and the parts that are said to scale.
      Of the others nothing is assumed. */
  ghost predicate Consistent(fe: Effects, scaling: iset<Part>) {
    && (forall f: ColorFilter :: f.commutesWithOpacity ==> ColourCommutes(fe, f))
    && (forall f: ImageFilter :: f.Commutes() ==> ImageCommutes(fe, f))
    && (forall part: Part :: part in scaling ==> NestedScales(fe, part))
  }

  predicate RunsProgram(paint: Paint) {
    paint.colorSource.Some? && paint.colorSource.value.isRuntimeEffect
  }

  /** What is drawn with an alpha, in the order of the paint's effects. `unit` is what its
      colour, its image or its content would be at full alpha and without effects. */
  function Rendered(fe: Effects, part: Part, unit: Image, alpha: real): Image {
    if !part.look.usesPaint then Unaltered(fe, part, unit, alpha)
    else
      var paint := part.look.paint;
      var base :=
        if RunsProgram(paint) then fe.program(paint.colorSource.value, unit, alpha)
        else Unaltered(fe, part, unit, alpha);
      var coloured := Coloured(fe, paint, base);
      if paint.imageFilter.Some? then fe.image(paint.imageFilter.value, coloured) else coloured
  }

  /** Colours and images scale with the alpha they are drawn with. */
  function Unaltered(fe: Effects, part: Part, unit: Image, alpha: real): Image {
    if part.look.nested then fe.nested(part, unit, alpha) else ScaledImage(alpha, unit)
  }

  function Coloured(fe: Effects, paint: Paint, base: Image): Image {
    var filtered :=
      if paint.colorFilter.Some? then Mapped(base, (s: Pixel) => fe.colour(paint.colorFilter.value, s)) else base;
    if paint.invertColors then Mapped(filtered, fe.invert) else filtered
  }

  predicate FilterCommutes(part: Part) {
    part.look.usesPaint && part.look.paint.imageFilter.Some? ==> part.look.paint.imageFilter.value.Commutes()
  }

  /** The part has no image filter that does not commute with opacity, and if it is a layer or
      a child list, an opacity scales it. */
  predicate Scales(part: Part, scaling: iset<Part>) {
    FilterCommutes(part) && (part.look.nested ==> part in scaling)
  }

  /** Everything that is done to the part is known to commute with opacity. */
  predicate EffectsCommute(part: Part, scaling: iset<Part>) {
    && Scales(part, scaling)
    && (part.look.usesPaint ==>
          && !RunsProgram(part.look.paint) && !part.look.paint.invertColors
          && (part.look.paint.colorFilter.Some? ==> part.look.paint.colorFilter.value.commutesWithOpacity))
  }

  lemma ScaledTwice(a: real, b: real, s: Pixel)
    ensures Scaled(a * b, s) == Scaled(a, Scaled(b, s)) && Scaled(1.0, s) == s
  {
    ProductTwice(a, b, s.c);
    ProductTwice(a, b, s.a);
  }

  lemma ProductTwice(a: real, b: real, x: real)
    ensures (a * b) * x == a * (b * x)
  {
  }

  lemma UnitScales(part: Part, opacity: real, unit: Image)
    ensures IsScaled(ScaledImage(AlphaWith(part.look, opacity), unit), opacity,
                     ScaledImage(AlphaWith(part.look, 1.0), unit))
  {
    var alpha, more := AlphaWith(part.look, 1.0), AlphaWith(part.look, opacity);
    assert alpha == AlphaOf(part.look) && more == opacity * alpha;
    forall p
      ensures Scaled(more, unit(p)) == Scaled(opacity, Scaled(alpha, unit(p)))
    {
      ScaledTwice(opacity, alpha, unit(p));
    }
    hide Scaled, AlphaWith;
  }

  lemma UnalteredScales(fe: Effects, scaling: iset<Part>, part: Part, unit: Image, opacity: real)
    requires Consistent(fe, scaling) && (part.look.nested ==> part in scaling) && 0.0 <= opacity <= 1.0
    ensures IsScaled(Unaltered(fe, part, unit, AlphaWith(part.look, opacity)), opacity,
                     Unaltered(fe, part, unit, AlphaWith(part.look, 1.0)))
  {
    UnitScales(part, opacity, unit);
    hide ScaledImage, IsScaled, AlphaWith;
    if part.look.nested {
      assert NestedScales(fe, part);
    }
  }

  lemma ColouredScales(fe: Effects, scaling: iset<Part>, paint: Paint, scaled: Image, opacity: real, base: Image)
    requires Consistent(fe, scaling) && IsScaled(scaled, opacity, base) && 0.0 <= opacity <= 1.0
    requires !paint.invertColors && (paint.colorFilter.Some? ==> paint.colorFilter.value.commutesWithOpacity)
    ensures IsScaled(Coloured(fe, paint, scaled), opacity, Coloured(fe, paint, base))
  {
    hide Scaled;
    if paint.colorFilter.Some? {
      assert ColourCommutes(fe, paint.colorFilter.value);
    }
  }

  /** Effects that commute scale what they make with the opacity. */
  lemma RenderedScales(fe: Effects, scaling: iset<Part>, part: Part, unit: Image, opacity: real)
    requires Consistent(fe, scaling) && EffectsCommute(part, scaling) && 0.0 <= opacity <= 1.0
    ensures IsScaled(Rendered(fe, part, unit, AlphaWith(part.look, opacity)), opacity,
                     Rendered(fe, part, unit, AlphaWith(part.look, 1.0)))
  {
    UnalteredScales(fe, scaling, part, unit, opacity);
    var full, more := AlphaWith(part.look, 1.0), AlphaWith(part.look, opacity);
    hide Unaltered, IsScaled, AlphaWith;
    if part.look.usesPaint {
      ColouredScales(fe, scaling, part.look.paint, Unaltered(fe, part, unit, more), opacity,
                     Unaltered(fe, part, unit, full));
      hide Coloured;
      if part.look.paint.imageFilter.Some? {
        assert ImageCommutes(fe, part.look.paint.imageFilter.value);
      }
    }
  }

  // ------------------------------------------------- one part at one point

  /** One time that a part paints: its image without effects, and the value that the mixing
      function of its blend mode has at the point in question. */
  datatype Sample = Sample(unit: Image, mix: real)

  function AlphaOf(look: Look): real {
    if look.usesPaint then look.paint.color.alpha else 1.0
  }

  /** The alpha of a part that is drawn with an opacity, which multiplies its own. */
  function AlphaWith(look: Look, opacity: real): real {
    opacity * AlphaOf(look)
  }

  function ModeOf(look: Look): BlendMode {
    BlendModeOf(look.paint, look.usesPaint)
  }

  /** The source pixel of a part at a point. */
  function SourceOf(fe: Effects, part: Part, unit: Image, p: Point, opacity: real): Pixel {
    Rendered(fe, part, unit, AlphaWith(part.look, opacity))(p)
  }

  /** What is drawn in one go paints a point once. */
  predicate MayPaint(look: Look, samples: seq<Sample>) {
    look.once ==> |samples| <= 1
  }

  /** The point after the part was drawn with an opacity. */
  function Painted(fe: Effects, part: Part, samples: seq<Sample>, p: Point, opacity: real, d: Pixel): Pixel {
    if samples == [] then d
    else
      var n := |samples| - 1;
      Blend(ModeOf(part.look), SourceOf(fe, part, samples[n].unit, p, opacity),
            Painted(fe, part, samples[..n], p, opacity, d), samples[n].mix)
  }

  /** Drawing the part with the opacity is drawing the part's pixel with it. */
  ghost predicate TakesOpacityAt(fe: Effects, part: Part, samples: seq<Sample>, p: Point, opacity: real, d: Pixel) {
    Painted(fe, part, samples, p, opacity, d)
      == SourceOver(Scaled(opacity, Painted(fe, part, samples, p, 1.0, CLEAR_PIXEL)), d)
  }

  /** Whatever it is drawn on, and whatever its effects do. */
  ghost predicate TakesOpacity(part: Part, scaling: iset<Part>) {
    forall fe, samples, p, opacity, d: Pixel ::
      Consistent(fe, scaling) && MayPaint(part.look, samples) && 0.0 <= opacity <= 1.0 && d.Valid() ==>
        TakesOpacityAt(fe, part, samples, p, opacity, d)
  }

  lemma PaintedNothing(fe: Effects, part: Part, p: Point, opacity: real, d: Pixel)
    ensures Painted(fe, part, [], p, opacity, d) == d
  {
  }

  lemma PaintedMore(fe: Effects, part: Part, samples: seq<Sample>, p: Point, opacity: real, d: Pixel)
    requires samples != []
    ensures var n := |samples| - 1;
      Painted(fe, part, samples, p, opacity, d) ==
        Blend(ModeOf(part.look), SourceOf(fe, part, samples[n].unit, p, opacity),
              Painted(fe, part, samples[..n], p, opacity, d), samples[n].mix)
  {
    hide Blend, ModeOf, SourceOf;
  }

  lemma PaintedOnce(fe: Effects, part: Part, s: Sample, p: Point, opacity: real, d: Pixel)
    ensures Painted(fe, part, [s], p, opacity, d)
         == Blend(ModeOf(part.look), SourceOf(fe, part, s.unit, p, opacity), d, s.mix)
  {
    hide Blend, ModeOf, SourceOf, Painted;
    assert [s][..0] == [];
    PaintedMore(fe, part, [s], p, opacity, d);
    PaintedNothing(fe, part, p, opacity, d);
  }

  lemma SourceOverOf(s: Pixel, d: Pixel, mix: real)
    ensures Blend(SrcOver, s, d, mix) == SourceOver(s, d)
  {
    hide SourceOver;
  }

  /** Painted once with source-over: the source pixel itself over the destination. */
  lemma PaintedOver(fe: Effects, part: Part, s: Sample, p: Point, opacity: real, d: Pixel)
    requires ModeOf(part.look) == SrcOver
    ensures Painted(fe, part, [s], p, opacity, d) == SourceOver(SourceOf(fe, part, s.unit, p, opacity), d)
    ensures Painted(fe, part, [s], p, 1.0, CLEAR_PIXEL) == SourceOf(fe, part, s.unit, p, 1.0)
  {
    PaintedOnce(fe, part, s, p, opacity, d);
    PaintedOnce(fe, part, s, p, 1.0, CLEAR_PIXEL);
    SourceOverOf(SourceOf(fe, part, s.unit, p, opacity), d, s.mix);
    SourceOverOf(SourceOf(fe, part, s.unit, p, 1.0), CLEAR_PIXEL, s.mix);
    OverClear(SourceOf(fe, part, s.unit, p, 1.0));
    hide *;
  }

  lemma SourceScales(fe: Effects, scaling: iset<Part>, part: Part, unit: Image, p: Point, opacity: real)
    requires Consistent(fe, scaling) && EffectsCommute(part, scaling) && 0.0 <= opacity <= 1.0
    ensures SourceOf(fe, part, unit, p, opacity) == Scaled(opacity, SourceOf(fe, part, unit, p, 1.0))
  {
    RenderedScales(fe, scaling, part, unit, opacity);
    hide Rendered, Scaled, AlphaWith;
  }

  /** A part that is painted once, with source-over and effects that commute, takes any opacity. */
  lemma CommutingTakesOpacity(fe: Effects, scaling: iset<Part>, part: Part, samples: seq<Sample>, p: Point,
                              opacity: real, d: Pixel)
    requires Consistent(fe, scaling) && EffectsCommute(part, scaling) && ModeOf(part.look) == SrcOver && |samples| <= 1
    requires 0.0 <= opacity <= 1.0
    ensures TakesOpacityAt(fe, part, samples, p, opacity, d)
  {
    if samples == [] {
      NothingTakesOpacity(fe, part, p, opacity, d);
    } else {
      assert samples == [samples[0]];
      PaintedOver(fe, part, samples[0], p, opacity, d);
      SourceScales(fe, scaling, part, samples[0].unit, p, opacity);
    }
    hide Consistent, EffectsCommute, Painted, SourceOver, Scaled, SourceOf;
  }

  lemma NothingTakesOpacity(fe: Effects, part: Part, p: Point, opacity: real, d: Pixel)
    ensures TakesOpacityAt(fe, part, [], p, opacity, d)
  {
    PaintedNothing(fe, part, p, opacity, d);
    PaintedNothing(fe, part, p, 1.0, CLEAR_PIXEL);
    ClearOver(opacity, d);
    hide Painted, SourceOver, Scaled;
  }

  // -------------------------------------------------- exactly which parts do

  /** Effects that do nothing. */
  const NEUTRAL := Effects((part: Part, unit: Image, alpha: real) => ScaledImage(alpha, unit),
                           (c: ColorSource, unit: Image, alpha: real) => ScaledImage(alpha, unit),
                           (f: ColorFilter, s: Pixel) => s, (s: Pixel) => s, (f: ImageFilter, image: Image) => image)

  /** What need not commute paints white whatever it is given: as a filter does that adds a
      constant and so changes transparent black. */
  ghost function Whitening(scaling: iset<Part>): Effects {
    Effects((part: Part, unit: Image, alpha: real) => if part in scaling then ScaledImage(alpha, unit) else WHITE_IMAGE,
            (c: ColorSource, unit: Image, alpha: real) => WHITE_IMAGE,
            (f: ColorFilter, s: Pixel) => if f.commutesWithOpacity then s else WHITE_PIXEL,
            (s: Pixel) => WHITE_PIXEL,
            (f: ImageFilter, image: Image) => if f.Commutes() then image else WHITE_IMAGE)
  }

  const WHITE_IMAGE: Image := (p: Point) => WHITE_PIXEL

  lemma BothAreConsistent(scaling: iset<Part>)
    ensures Consistent(NEUTRAL, scaling) && Consistent(Whitening(scaling), scaling)
  {
    hide Scaled;
    forall part: Part, unit, opacity
      ensures IsScaled(ScaledImage(AlphaWith(part.look, opacity), unit), opacity,
                       ScaledImage(AlphaWith(part.look, 1.0), unit))
    {
      UnitScales(part, opacity, unit);
    }
    hide AlphaWith, ScaledImage;
  }

  lemma NeutralIsPlain(part: Part, unit: Image, p: Point, opacity: real)
    ensures SourceOf(NEUTRAL, part, unit, p, opacity) == Scaled(AlphaWith(part.look, opacity), unit(p))
  {
    hide Scaled;
  }

  lemma WhiteningIsWhite(scaling: iset<Part>, part: Part, unit: Image, p: Point, opacity: real)
    requires !EffectsCommute(part, scaling)
    ensures SourceOf(Whitening(scaling), part, unit, p, opacity) == WHITE_PIXEL
  {
    hide Scaled;
  }

  /** An image that the part paints white at full opacity, under neutral effects. */
  function WhiteUnit(look: Look): Image
    requires AlphaOf(look) != 0.0
  {
    var unit := Pixel(1.0 / AlphaOf(look), 1.0 / AlphaOf(look));
    (p: Point) => unit
  }

  lemma Inverse(a: real)
    requires a != 0.0
    ensures a * (1.0 / a) == 1.0
  {
  }

  lemma WhiteUnitIsWhite(part: Part, p: Point)
    requires AlphaOf(part.look) != 0.0
    ensures SourceOf(NEUTRAL, part, WhiteUnit(part.look), p, 1.0) == WHITE_PIXEL
    ensures SourceOf(NEUTRAL, part, WhiteUnit(part.look), p, 0.5) == Pixel(0.5, 0.5)
  {
    var a := AlphaOf(part.look);
    var unit := Pixel(1.0 / a, 1.0 / a);
    NeutralIsPlain(part, WhiteUnit(part.look), p, 1.0);
    NeutralIsPlain(part, WhiteUnit(part.look), p, 0.5);
    Inverse(a);
    assert Scaled(a, unit) == WHITE_PIXEL;
    ScaledTwice(0.5, a, unit);
    HalfWhite();
    assert AlphaWith(part.look, 1.0) == a;
    hide Scaled, SourceOf;
  }

  lemma NotAt(fe: Effects, scaling: iset<Part>, part: Part, samples: seq<Sample>, p: Point, opacity: real, d: Pixel)
    requires Consistent(fe, scaling) && MayPaint(part.look, samples) && 0.0 <= opacity <= 1.0 && d.Valid()
    requires Painted(fe, part, samples, p, opacity, d)
          != SourceOver(Scaled(opacity, Painted(fe, part, samples, p, 1.0, CLEAR_PIXEL)), d)
    ensures !TakesOpacity(part, scaling)
  {
    hide Painted, SourceOver, Scaled, MayPaint, Consistent;
    assert !TakesOpacityAt(fe, part, samples, p, opacity, d);
  }

  const SOMEWHERE := Point(0.0, 0.0)

  lemma OtherModesFail(scaling: iset<Part>, part: Part)
    requires AlphaOf(part.look) != 0.0 && ModeOf(part.look) != SrcOver && ModeOf(part.look) != Dst
    ensures !TakesOpacity(part, scaling)
  {
    hide Blend, SourceOver, Scaled, Telling, Painted, AlphaWith, WhiteUnit, SourceOf, Consistent;
    var d, s := Telling(ModeOf(part.look)), Sample(WhiteUnit(part.look), 0.0);
    BothAreConsistent(scaling);
    WhiteUnitIsWhite(part, SOMEWHERE);
    TellingTells(ModeOf(part.look));
    PaintedOnce(NEUTRAL, part, s, SOMEWHERE, 0.5, d);
    PaintedOnce(NEUTRAL, part, s, SOMEWHERE, 1.0, CLEAR_PIXEL);
    assert MayPaint(part.look, [s]);
    hide *;
    NotAt(NEUTRAL, scaling, part, [s], SOMEWHERE, 0.5, d);
  }

  /** A part whose effects turn it white shows that it was not scaled. */
  lemma WhitenedFails(scaling: iset<Part>, part: Part, unit: Image, p: Point)
    requires !EffectsCommute(part, scaling) && ModeOf(part.look) == SrcOver
    ensures var s := [Sample(unit, 0.0)];
      && Painted(Whitening(scaling), part, s, p, 0.5, CLEAR_PIXEL) == WHITE_PIXEL
      && Painted(Whitening(scaling), part, s, p, 1.0, CLEAR_PIXEL) == WHITE_PIXEL
      && !TakesOpacityAt(Whitening(scaling), part, s, p, 0.5, CLEAR_PIXEL)
  {
    hide Painted, SourceOver, Scaled, SourceOf, EffectsCommute;
    WhiteningIsWhite(scaling, part, unit, p, 0.5);
    WhiteningIsWhite(scaling, part, unit, p, 1.0);
    PaintedOver(Whitening(scaling), part, Sample(unit, 0.0), p, 0.5, CLEAR_PIXEL);
    OverClear(WHITE_PIXEL);
    OverClear(Pixel(0.5, 0.5));
    HalfWhite();
    assert Pixel(0.5, 0.5) != WHITE_PIXEL;
  }

  lemma AlteredFails(scaling: iset<Part>, part: Part)
    requires !EffectsCommute(part, scaling) && ModeOf(part.look) == SrcOver
    ensures !TakesOpacity(part, scaling)
  {
    BothAreConsistent(scaling);
    var s := [Sample(WHITE_IMAGE, 0.0)];
    WhitenedFails(scaling, part, WHITE_IMAGE, SOMEWHERE);
    assert MayPaint(part.look, s) && CLEAR_PIXEL.Valid();
    hide *;
    FailsAt(Whitening(scaling), scaling, part, s, SOMEWHERE, 0.5, CLEAR_PIXEL);
  }

  lemma FailsAt(fe: Effects, scaling: iset<Part>, part: Part, samples: seq<Sample>, p: Point, opacity: real, d: Pixel)
    requires Consistent(fe, scaling) && MayPaint(part.look, samples) && 0.0 <= opacity <= 1.0 && d.Valid()
    requires !TakesOpacityAt(fe, part, samples, p, opacity, d)
    ensures !TakesOpacity(part, scaling)
  {
    hide TakesOpacityAt, MayPaint, Consistent;
  }

  lemma RepeatedFails(scaling: iset<Part>, part: Part)
    requires AlphaOf(part.look) != 0.0 && !part.look.once && ModeOf(part.look) == SrcOver
    ensures !TakesOpacity(part, scaling)
  {
    var s := Sample(WhiteUnit(part.look), 0.0);
    BothAreConsistent(scaling);
    WhiteUnitIsWhite(part, SOMEWHERE);
    PaintedTwice(NEUTRAL, part, s, SOMEWHERE, 0.5);
    PaintedTwice(NEUTRAL, part, s, SOMEWHERE, 1.0);
    TwiceDiffers();
    assert MayPaint(part.look, [s, s]) && CLEAR_PIXEL.Valid();
    hide *;
    NotAt(NEUTRAL, scaling, part, [s, s], SOMEWHERE, 0.5, CLEAR_PIXEL);
  }

  lemma PaintedTwice(fe: Effects, part: Part, s: Sample, p: Point, opacity: real)
    requires ModeOf(part.look) == SrcOver
    ensures var x := SourceOf(fe, part, s.unit, p, opacity);
      Painted(fe, part, [s, s], p, opacity, CLEAR_PIXEL) == SourceOver(x, x)
  {
    hide Painted, Blend, SourceOver, SourceOf;
    assert [s, s][..1] == [s];
    var x := SourceOf(fe, part, s.unit, p, opacity);
    PaintedMore(fe, part, [s, s], p, opacity, CLEAR_PIXEL);
    PaintedOver(fe, part, s, p, opacity, CLEAR_PIXEL);
    SourceOverOf(x, x, s.mix);
    OverClear(x);
  }

  lemma {:induction false} DstPaintsNothing(fe: Effects, part: Part, samples: seq<Sample>, p: Point, opacity: real,
                                            d: Pixel)
    requires ModeOf(part.look) == Dst
    ensures Painted(fe, part, samples, p, opacity, d) == d
  {
    hide SourceOf;
    if samples != [] {
      DstPaintsNothing(fe, part, samples[..|samples| - 1], p, opacity, d);
    }
  }

  lemma DstTakesOpacity(scaling: iset<Part>, part: Part)
    requires ModeOf(part.look) == Dst
    ensures TakesOpacity(part, scaling)
  {
    forall fe, samples, p, opacity, d: Pixel
      ensures TakesOpacityAt(fe, part, samples, p, opacity, d)
    {
      DstPaintsNothing(fe, part, samples, p, opacity, d);
      DstPaintsNothing(fe, part, samples, p, 1.0, CLEAR_PIXEL);
      ClearOver(opacity, d);
    }
  }

  /** A part that is not fully transparent takes every opacity, whatever its effects do, if
      and only if it has no effect at all, or is painted once, with source-over, and all
      its effects commute with opacity. */
  lemma TakesOpacityExactly(scaling: iset<Part>, part: Part)
    requires AlphaOf(part.look) != 0.0
    ensures TakesOpacity(part, scaling)
      <==> ModeOf(part.look) == Dst || (ModeOf(part.look) == SrcOver && part.look.once && EffectsCommute(part, scaling))
  {
    if ModeOf(part.look) == Dst {
      DstTakesOpacity(scaling, part);
    } else if ModeOf(part.look) != SrcOver {
      OtherModesFail(scaling, part);
    } else if !EffectsCommute(part, scaling) {
      AlteredFails(scaling, part);
    } else if !part.look.once {
      RepeatedFails(scaling, part);
    } else {
      OnceTakesOpacity(scaling, part);
    }
    hide *;
  }

  lemma OnceTakesOpacity(scaling: iset<Part>, part: Part)
    requires ModeOf(part.look) == SrcOver && part.look.once && EffectsCommute(part, scaling)
    ensures TakesOpacity(part, scaling)
  {
    forall fe, samples, p, opacity, d: Pixel |
      Consistent(fe, scaling) && MayPaint(part.look, samples) && 0.0 <= opacity <= 1.0 && d.Valid()
      ensures TakesOpacityAt(fe, part, samples, p, opacity, d)
    {
      CommutingTakesOpacity(fe, scaling, part, samples, p, opacity, d);
    }
  }

  /** What the builder calls compatible: all is known but whether it scales. */
  lemma CompatibleLook(scaling: iset<Part>, part: Part)
    requires part.Compatible()
    ensures part.look.once && ModeOf(part.look) == SrcOver
    ensures EffectsCommute(part, scaling) <==> Scales(part, scaling)
  {
  }

  /** The builder's test against the meaning. Of the parts that it calls compatible, those
      take every opacity that scale, and whose image filter commutes with opacity; it never
      asks the filter for that. */
  lemma CompatibleTakesOpacityExactly(scaling: iset<Part>, part: Part)
    requires part.Compatible()
    ensures TakesOpacity(part, scaling) <==> Scales(part, scaling)
  {
    CompatibleLook(scaling, part);
    if Scales(part, scaling) {
      OnceTakesOpacity(scaling, part);
    } else {
      AlteredFails(scaling, part);
    }
    hide *;
  }

  /** And without a colour filter, where a part need not be turned down for one that commutes,
      the test is right but for that. */
  lemma BuilderTestExactly(scaling: iset<Part>, part: Part)
    requires AlphaOf(part.look) != 0.0 && (part.look.usesPaint ==> part.look.paint.colorFilter.None?)
    ensures TakesOpacity(part, scaling)
       <==> (part.Compatible() && Scales(part, scaling)) || ModeOf(part.look) == Dst
  {
    TakesOpacityExactly(scaling, part);
    hide TakesOpacity, AlphaOf;
  }
}
