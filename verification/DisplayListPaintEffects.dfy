/**
 The other direction of the builder's table of blend modes: where it says that a paint has
 an effect, or changes transparent pixels, some source pixel that the paint may produce
 does that. And the order of the modes, which the largest mode of a list is taken by.
 */
module DisplayListPaintEffects {
  import opened DisplayListTypes
  import opened DisplayListPaint

  /** Some pixel changes, whatever was there. */
  ghost predicate ChangesSome(paint: Paint, flags: AttributeFlags) {
    exists ch, s, d: Pixel, mix :: Changes(paint, flags, ch, s, d, mix)
  }

  predicate Changes(paint: Paint, flags: AttributeFlags, ch: Channel, s: Pixel, d: Pixel, mix: real) {
    MayProduce(paint, flags, ch, s) && d.Valid() && Blend(paint.blendMode, s, d, mix) != d
  }

  /** A transparent pixel changes. */
  ghost predicate ChangesTransparent(paint: Paint, flags: AttributeFlags) {
    exists ch, s, mix :: Changes(paint, flags, ch, s, CLEAR_PIXEL, mix)
  }

  /** A colour source that the alpha of the paint takes away, or that is opaque but for it:
      the builder judges colour sources without that alpha. */
  predicate SourceIsFaded(paint: Paint, flags: AttributeFlags) {
    UsesSource(paint, flags) && (paint.color.alpha == 0.0 || KeepsByFadedSource(paint, flags))
  }

  // ---------------------------------------------------------- source pixels

  /** A paint that is not judged transparent produces a pixel that is not. */
  lemma SomethingShows(paint: Paint, flags: AttributeFlags) returns (s: Pixel)
    requires ValidColor(paint.color) && !SourceIsFaded(paint, flags)
    requires !GetEffectiveColor(paint, flags).IsTransparent()
    ensures MayProduce(paint, flags, Red, s) && s.a > 0.0 && s.Valid()
  {
    var own := Premultiplied(RenderedColor(paint, flags), Red);
    if MayProduce(paint, flags, Red, WHITE_PIXEL) {
      s := WHITE_PIXEL;
    } else if MayProduce(paint, flags, Red, own) {
      s := own;
      PremultipliedIsValid(RenderedColor(paint, flags), Red);
    } else {
      s := Pixel(0.0, paint.color.alpha);
    }
  }

  function Component(c: DlColor, ch: Channel): real {
    match ch
    case Red => c.red
    case Green => c.green
    case Blue => c.blue
  }

  lemma PremultipliedIsValid(c: DlColor, ch: Channel)
    requires ValidColor(c)
    ensures Premultiplied(c, ch).Valid()
  {
    var x := Component(c, ch);
    Shrinks(c.alpha, x);
    assert Premultiplied(c, ch) == Pixel(c.alpha * x, c.alpha);
    hide *;
  }

  lemma Shrinks(a: real, x: real)
    requires 0.0 <= a <= 1.0 && 0.0 <= x <= 1.0
    ensures 0.0 <= a * x <= a
  {
    assert a * (1.0 - x) >= 0.0;
  }

  /** A paint that is not judged opaque produces a pixel that is not. */
  lemma SomethingIsTranslucent(paint: Paint, flags: AttributeFlags) returns (s: Pixel)
    requires ValidColor(paint.color) && !SourceIsFaded(paint, flags)
    requires !GetEffectiveColor(paint, flags).IsOpaque()
    ensures MayProduce(paint, flags, Red, s) && s.a < 1.0
  {
    var own := Premultiplied(RenderedColor(paint, flags), Red);
    s := if MayProduce(paint, flags, Red, CLEAR_PIXEL) then CLEAR_PIXEL else own;
  }

  /** A black that is inverted to white before it modulates, which the builder does not see. */
  predicate ModulatesInvertedBlack(paint: Paint, flags: AttributeFlags) {
    && paint.blendMode == Modulate && Inverted(paint, flags) && flags.appliesColor && !Filtered(paint, flags)
    && paint.color == BLACK
  }

  lemma SomethingIsNotWhite(paint: Paint, flags: AttributeFlags) returns (ch: Channel, s: Pixel)
    requires ValidColor(paint.color) && !SourceIsFaded(paint, flags)
    requires GetEffectiveColor(paint, flags) != WHITE && !ModulatesInvertedBlack(paint, flags)
    requires paint.blendMode == Modulate
    ensures MayProduce(paint, flags, ch, s) && s != WHITE_PIXEL
  {
    var c := RenderedColor(paint, flags);
    if MayProduce(paint, flags, Red, CLEAR_PIXEL) {
      ch, s := Red, CLEAR_PIXEL;
    } else if UsesSource(paint, flags) {
      ch, s := Red, Pixel(0.0, paint.color.alpha);
    } else {
      ch := if c.red != 1.0 then Red else if c.green != 1.0 then Green else Blue;
      s := Premultiplied(c, ch);
      if c.alpha == 1.0 {
        Full(c.alpha, c.red);
        Full(c.alpha, c.green);
        Full(c.alpha, c.blue);
      }
    }
  }

  lemma Full(a: real, x: real)
    requires a == 1.0
    ensures a * x == x
  {
  }

  // ------------------------------------------------------------ one mode each

  /** What a source pixel that is not transparent does to transparency. */
  lemma ShowsOnTransparency(mode: BlendMode, s: Pixel)
    requires s.a > 0.0 && s.Valid()
    requires mode != Clear && mode != Dst && mode != SrcIn && mode != DstIn && mode != DstOut && mode != SrcATop
    requires mode != Modulate
    ensures Blend(mode, s, CLEAR_PIXEL, 0.0) != CLEAR_PIXEL
  {
  }

  /** A destination that the pixel changes, for the modes that leave transparency alone. */
  function Victim(mode: BlendMode, s: Pixel): Pixel {
    match mode
    case SrcIn => if s == WHITE_PIXEL then Pixel(0.0, 1.0) else WHITE_PIXEL
    case SrcATop => if s.c > 0.0 then Pixel(0.0, 1.0) else WHITE_PIXEL
    case _ => WHITE_PIXEL
  }

  lemma ChangesVictim(mode: BlendMode, s: Pixel)
    requires match mode
             case Clear => true
             case SrcIn => true
             case Src => s != WHITE_PIXEL
             case SrcOut => true
             case DstATop => s == CLEAR_PIXEL
             case DstIn => s.a < 1.0
             case DstOut => s.a > 0.0
             case SrcATop => s.a > 0.0 && s.Valid()
             case Modulate => s != WHITE_PIXEL
             case _ => false
    ensures Victim(mode, s).Valid() && Blend(mode, s, Victim(mode, s), 0.0) != Victim(mode, s)
  {
  }

  lemma Witness(paint: Paint, flags: AttributeFlags, ch: Channel, s: Pixel, d: Pixel)
    requires MayProduce(paint, flags, ch, s) && d.Valid() && Blend(paint.blendMode, s, d, 0.0) != d
    ensures ChangesSome(paint, flags) && (d == CLEAR_PIXEL ==> ChangesTransparent(paint, flags))
  {
    assert Changes(paint, flags, ch, s, d, 0.0);
  }

  /** Whatever a paint produces, something is produced. */
  lemma SomethingIsProduced(paint: Paint, flags: AttributeFlags) returns (s: Pixel)
    requires ValidColor(paint.color)
    ensures MayProduce(paint, flags, Red, s) && s.Valid()
  {
    var own := Premultiplied(RenderedColor(paint, flags), Red);
    PremultipliedIsValid(RenderedColor(paint, flags), Red);
    s := if MayProduce(paint, flags, Red, CLEAR_PIXEL) then CLEAR_PIXEL else own;
  }

  // ------------------------------------------------------------- the results

  lemma AffectingShows(paint: Paint, flags: AttributeFlags)
    requires ValidColor(paint.color) && flags.appliesBlend && !SourceIsFaded(paint, flags)
    requires PaintResult(paint, flags) == AffectsAll
    ensures ChangesTransparent(paint, flags) && ChangesSome(paint, flags)
  {
    var s := SomethingShows(paint, flags);
    ShowsOnTransparency(paint.blendMode, s);
    Witness(paint, flags, Red, s, CLEAR_PIXEL);
    hide *;
  }

  /** The effect of what preserves transparency. */
  lemma PreservingShows(paint: Paint, flags: AttributeFlags)
    requires ValidColor(paint.color) && flags.appliesBlend && !SourceIsFaded(paint, flags)
    requires PaintResult(paint, flags) == PreservesTransparency && !ModulatesInvertedBlack(paint, flags)
    ensures ChangesSome(paint, flags)
  {
    var mode := paint.blendMode;
    var ch, s := Red, CLEAR_PIXEL;
    hide MayProduce, GetEffectiveColor, Blend, ModulatesInvertedBlack, Victim;
    match mode {
      case SrcATop => s := SomethingShows(paint, flags);
      case DstOut => s := SomethingShows(paint, flags);
      case DstIn => s := SomethingIsTranslucent(paint, flags);
      case Modulate => ch, s := SomethingIsNotWhite(paint, flags);
      case _ => s := SomethingIsProduced(paint, flags);
    }
    if mode == Src || mode == DstATop {
      TransparentSourceChanges(paint, flags, ch, s);
    } else {
      ChangesVictim(mode, s);
      Witness(paint, flags, ch, s, Victim(mode, s));
    }
  }

  /** A source that is judged transparent clears, or its rounded alpha shows. */
  lemma TransparentSourceChanges(paint: Paint, flags: AttributeFlags, ch: Channel, s: Pixel)
    requires MayProduce(paint, flags, ch, s) && s.Valid()
    requires paint.blendMode == Src || paint.blendMode == DstATop
    ensures ChangesSome(paint, flags)
  {
    var d := if s == CLEAR_PIXEL then WHITE_PIXEL else CLEAR_PIXEL;
    hide MayProduce;
    assert Blend(paint.blendMode, s, d, 0.0) != d;
    Witness(paint, flags, ch, s, d);
  }

  /** What the builder says of a paint whose alpha is not rounded away is exact: it changes
      transparent pixels if and only if some pixel that it may produce does, and it has an
      effect if and only if some pixel that it may produce has one; but for black and white
      that modulate and are inverted. */
  lemma PaintResultExactly(paint: Paint, flags: AttributeFlags)
    requires ValidColor(paint.color) && flags.appliesBlend && !SourceIsFaded(paint, flags)
    requires !AlphaRoundsAway(paint, flags) && !ModulatesInverted(paint, flags)
    ensures PaintResult(paint, flags) == AffectsAll <==> ChangesTransparent(paint, flags)
    ensures PaintResult(paint, flags) == NoEffect <==> !ChangesSome(paint, flags)
  {
    match PaintResult(paint, flags) {
      case AffectsAll => AffectingShows(paint, flags);
      case PreservesTransparency =>
        PreservingShows(paint, flags);
        PreservesTransparencyExactly(paint, flags);
      case NoEffect => NoEffectExactly(paint, flags);
    }
    assert CLEAR_PIXEL.Valid();
    hide PaintResult, Blend, MayProduce, AlphaRoundsAway;
  }

  // ------------------------------------------------------------------- layers

  /** The alpha in eight bits is the nearest one; it is zero below half a step. */
  lemma EightBitsAreNearest(c: DlColor)
    ensures -0.5 <= c.alpha * 255.0 - c.Alpha8() as real < 0.5
    ensures 0.0 <= c.alpha ==> (c.Alpha8() == 0 <==> c.alpha < 1.0 / 510.0)
  {
  }

  /** What the filters of a layer may make of pixels that it leaves transparent. */
  predicate MakesOfClear(paint: Paint, s: Pixel) {
    if (paint.imageFilter.Some? && paint.imageFilter.value.modifiesTransparentBlack)
       || (paint.colorFilter.Some? && paint.colorFilter.value.modifiesTransparentBlack) then s.Valid()
    else s == CLEAR_PIXEL
  }

  predicate ChangesAround(paint: Paint, s: Pixel, d: Pixel, mix: real) {
    MakesOfClear(paint, s) && d.Valid() && Blend(paint.blendMode, s, d, mix) != d
  }

  /** A layer changes pixels where nothing was drawn into it. */
  ghost predicate ChangesAroundIt(paint: Paint) {
    exists s, d, mix :: ChangesAround(paint, s, d, mix)
  }

  /** The test for that is exact, but that it does not trust filters under kDst. */
  lemma PaintNopsExactly(paint: Paint)
    requires paint.blendMode != Dst
    ensures PaintNopsOnTransparency(paint) <==> !ChangesAroundIt(paint)
  {
    var mode := paint.blendMode;
    NopsOnTransparencyExactly(mode);
    hide Blend, ModeNopsOnTransparency;
    if MakesOfClear(paint, WHITE_PIXEL) {
      var s, d := AnyPixelChanges(mode);
      assert ChangesAround(paint, s, d, 0.0);
    } else if !ModeNopsOnTransparency(mode) {
      var d: Pixel, mix :| d.Valid() && Blend(mode, CLEAR_PIXEL, d, mix) != d;
      assert ChangesAround(paint, CLEAR_PIXEL, d, mix);
    }
  }

  /** Every mode but one changes something. */
  lemma AnyPixelChanges(mode: BlendMode) returns (s: Pixel, d: Pixel)
    requires mode != Dst
    ensures s.Valid() && d.Valid() && Blend(mode, s, d, 0.0) != d
  {
    s := if mode == DstIn || mode == Modulate then CLEAR_PIXEL else WHITE_PIXEL;
    if mode in {Clear, SrcIn, DstIn, DstOut, SrcATop, Modulate} {
      d := Victim(mode, s);
      ChangesVictim(mode, s);
    } else {
      d := CLEAR_PIXEL;
      ShowsOnTransparency(mode, s);
    }
    hide Blend, Victim;
  }

  /** A layer without a paint is never dropped. One with a paint is dropped if and only if
      its mode is kDst, or its alpha rounds to zero and transparent pixels of it change
      nothing; its colour, its colour source and its mask filter are not looked at. */
  lemma LayerIsDroppedExactly(paint: Paint)
    ensures PaintResult(paint, IGNORES_PAINT_FLAGS) != NoEffect
    ensures PaintResult(paint, SAVE_LAYER_WITH_PAINT_FLAGS) == NoEffect
       <==> paint.blendMode == Dst || (paint.color.Alpha8() == 0 && PaintNopsOnTransparency(paint))
  {
    hide DlColor.Alpha8;
  }

  // ---------------------------------------------------- the order of the modes

  /** The modes as they are declared. */
  const BLEND_MODES := [
    Clear, Src, Dst, SrcOver, DstOver, SrcIn, DstIn, SrcOut, DstOut, SrcATop, DstATop, Xor, Plus, Modulate, Screen,
    Overlay, Darken, Lighten, ColorDodge, ColorBurn, HardLight, SoftLight, Difference_, Exclusion, Multiply, Hue,
    Saturation, Color_, Luminosity]

  /** `a` is declared before `b`. */
  predicate DeclaredBefore(a: BlendMode, b: BlendMode) {
    exists i, j :: 0 <= i < j < |BLEND_MODES| && BLEND_MODES[i] == a && BLEND_MODES[j] == b
  }

  lemma RankIsPosition(mode: BlendMode)
    ensures mode.Rank() < |BLEND_MODES| && BLEND_MODES[mode.Rank()] == mode
  {
  }

  lemma PositionIsRank(i: nat)
    requires i < |BLEND_MODES|
    ensures BLEND_MODES[i].Rank() == i
  {
  }

  /** The larger of two modes is the one declared later. */
  lemma LargerIsDeclaredLater(a: BlendMode, b: BlendMode)
    ensures a.Rank() < b.Rank() <==> DeclaredBefore(a, b)
  {
    RankIsPosition(a);
    RankIsPosition(b);
    if DeclaredBefore(a, b) {
      var i, j :| 0 <= i < j < |BLEND_MODES| && BLEND_MODES[i] == a && BLEND_MODES[j] == b;
      PositionIsRank(i);
      PositionIsRank(j);
    }
    hide BLEND_MODES, BlendMode.Rank;
  }

  ghost predicate WithoutMixing(mode: BlendMode) {
    forall s, d, mix, other :: Blend(mode, s, d, mix) == Blend(mode, s, d, other)
  }

  /** So the largest mode of a list tells whether all its modes are given by coefficients
      of source and destination alone, without a mixing function. */
  lemma CoefficientModesComeFirst(mode: BlendMode)
    ensures mode.Rank() < Screen.Rank() <==> WithoutMixing(mode)
  {
    if mode.Rank() >= Screen.Rank() {
      MixingShows(mode);
    } else {
      forall s, d, mix, other
        ensures Blend(mode, s, d, mix) == Blend(mode, s, d, other)
      {
        CoefficientsDecide(mode, s, d, mix, other);
      }
    }
    hide *;
  }

  lemma MixingShows(mode: BlendMode)
    requires mode.Rank() >= Screen.Rank()
    ensures Blend(mode, WHITE_PIXEL, WHITE_PIXEL, 0.0) != Blend(mode, WHITE_PIXEL, WHITE_PIXEL, 1.0)
  {
  }

  lemma CoefficientsDecide(mode: BlendMode, s: Pixel, d: Pixel, mix: real, other: real)
    requires mode.Rank() < Screen.Rank()
    ensures Blend(mode, s, d, mix) == Blend(mode, s, d, other)
  {
    hide Composite, SourceOver;
  }
}
