/**
 What a paint can do to its destination: the builder's case analysis of blend
 modes, and its agreement with the compositing equations of sections 9.1 and
 10.1 of W3C Compositing and Blending Level 1.
 */
module DisplayListPaint {
  import opened DisplayListTypes

  const DRAW_FLAGS := AttributeFlags(true, true, true, true, true, true)
  const SAVE_LAYER_WITH_PAINT_FLAGS := AttributeFlags(false, true, true, true, true, false)
  const IGNORES_PAINT_FLAGS := AttributeFlags(false, false, false, false, false, false)

  datatype OpResult = NoEffect | PreservesTransparency | AffectsAll

  /** Neither opaque nor transparent, so no short cut of a blend mode applies to it. */
  const ANY_COLOR := DlColor(0.5, 128.0 / 255.0, 128.0 / 255.0, 128.0 / 255.0)

  function FilterColor(color: DlColor, modifiesTransparentBlack: bool): DlColor {
    if !color.IsTransparent() || modifiesTransparentBlack then ANY_COLOR else color
  }

  function GetEffectiveColor(paint: Paint, flags: AttributeFlags): DlColor {
    var base :=
      if flags.appliesColor then
        match paint.colorSource
        case Some(source) => if source.isOpaque then BLACK else ANY_COLOR
        case None => paint.color
      else if flags.appliesAlpha then
        if paint.color.Alpha8() == 0 then TRANSPARENT else ANY_COLOR
      else
        ANY_COLOR;
    var imaged :=
      if flags.appliesImageFilter && paint.imageFilter.Some? then
        FilterColor(base, paint.imageFilter.value.modifiesTransparentBlack)
      else base;
    if flags.appliesColorFilter && paint.colorFilter.Some? then
      FilterColor(imaged, paint.colorFilter.value.modifiesTransparentBlack)
    else imaged
  }

  /** The part of the builder's `PaintResult` that looks at the paint. */
  function PaintResult(paint: Paint, flags: AttributeFlags): OpResult {
    if !flags.appliesBlend then AffectsAll
    else
      var color := GetEffectiveColor(paint, flags);
      match paint.blendMode
      case Dst => NoEffect
      case Clear => PreservesTransparency
      case SrcIn => PreservesTransparency
      case SrcATop => if color.IsTransparent() then NoEffect else PreservesTransparency
      case DstOut => if color.IsTransparent() then NoEffect else PreservesTransparency
      case Src => if color.IsTransparent() then PreservesTransparency else AffectsAll
      case SrcOut => if color.IsTransparent() then PreservesTransparency else AffectsAll
      case DstATop => if color.IsTransparent() then PreservesTransparency else AffectsAll
      case DstIn => if color.IsOpaque() then NoEffect else PreservesTransparency
      case Modulate => if color == WHITE then NoEffect else PreservesTransparency
      case _ => if color.IsTransparent() then NoEffect else AffectsAll
  }

  /** The switch at the end of `paint_nops_on_transparency`. */
  predicate ModeNopsOnTransparency(mode: BlendMode) {
    match mode
    case Clear => false
    case Src => false
    case SrcIn => false
    case DstIn => false
    case SrcOut => false
    case DstATop => false
    case Modulate => false
    case _ => true
  }

  predicate PaintNopsOnTransparency(paint: Paint) {
    && !(paint.imageFilter.Some? && paint.imageFilter.value.modifiesTransparentBlack)
    && !(paint.colorFilter.Some? && paint.colorFilter.value.modifiesTransparentBlack)
    && ModeNopsOnTransparency(paint.blendMode)
  }

  // ----------------------------------------------------- blend equations

  /** One colour channel of a premultiplied pixel, with its alpha. */
  datatype Pixel = Pixel(c: real, a: real) {
    predicate Valid() {
      0.0 <= c <= a <= 1.0
    }
  }

  const CLEAR_PIXEL := Pixel(0.0, 0.0)
  const WHITE_PIXEL := Pixel(1.0, 1.0)

  /** One channel drawn over another, under the alpha of its pixel. */
  function Over(s: real, alpha: real, d: real): real {
    s + (1.0 - alpha) * d
  }

  function SourceOver(s: Pixel, d: Pixel): Pixel {
    Pixel(Over(s.c, s.a, d.c), Over(s.a, s.a, d.a))
  }

  /** `s * fs + d * fd`: the Porter-Duff operators. */
  function Composite(s: Pixel, fs: real, d: Pixel, fd: real): Pixel {
    Pixel(s.c * fs + d.c * fd, s.a * fs + d.a * fd)
  }

  /** The result of blending source `s` onto `d`. For the modes with a mixing
      function B, `mix` is the value of B for this channel. */
  function Blend(mode: BlendMode, s: Pixel, d: Pixel, mix: real): Pixel {
    match mode
    case Clear => CLEAR_PIXEL
    case Src => s
    case Dst => d
    case SrcOver => SourceOver(s, d)
    case DstOver => Composite(s, 1.0 - d.a, d, 1.0)
    case SrcIn => Composite(s, d.a, d, 0.0)
    case DstIn => Composite(s, 0.0, d, s.a)
    case SrcOut => Composite(s, 1.0 - d.a, d, 0.0)
    case DstOut => Composite(s, 0.0, d, 1.0 - s.a)
    case SrcATop => Composite(s, d.a, d, 1.0 - s.a)
    case DstATop => Composite(s, 1.0 - d.a, d, s.a)
    case Xor => Composite(s, 1.0 - d.a, d, 1.0 - s.a)
    case Plus => Pixel(Min(s.c + d.c, 1.0), Min(s.a + d.a, 1.0))
    case Modulate => Pixel(s.c * d.c, s.a * d.a)
    case _ => Pixel(s.c * (1.0 - d.a) + d.c * (1.0 - s.a) + s.a * d.a * mix, s.a + d.a * (1.0 - s.a))
  }

  // ------------------------------------------- what an operation may produce

  datatype Channel = Red | Green | Blue

  function Premultiplied(color: DlColor, ch: Channel): Pixel {
    Pixel(color.alpha * (match ch case Red => color.red case Green => color.green case Blue => color.blue), color.alpha)
  }

  predicate ValidColor(c: DlColor) {
    0.0 <= c.alpha <= 1.0 && 0.0 <= c.red <= 1.0 && 0.0 <= c.green <= 1.0 && 0.0 <= c.blue <= 1.0
  }

  /** Inversion is a colour filter: it applies where colour filters do. */
  predicate Inverted(paint: Paint, flags: AttributeFlags) {
    flags.appliesColorFilter && paint.invertColors
  }

  function RenderedColor(paint: Paint, flags: AttributeFlags): DlColor {
    var c := paint.color;
    if Inverted(paint, flags) then DlColor(c.alpha, 1.0 - c.red, 1.0 - c.green, 1.0 - c.blue) else c
  }

  predicate Filtered(paint: Paint, flags: AttributeFlags) {
    (flags.appliesImageFilter && paint.imageFilter.Some?) || (flags.appliesColorFilter && paint.colorFilter.Some?)
  }

  predicate FiltersKeepTransparency(paint: Paint, flags: AttributeFlags) {
    && !(flags.appliesImageFilter && paint.imageFilter.Some? && paint.imageFilter.value.modifiesTransparentBlack)
    && !(flags.appliesColorFilter && paint.colorFilter.Some? && paint.colorFilter.value.modifiesTransparentBlack)
  }

  /** The colour comes from a gradient, an image or a program. */
  predicate UsesSource(paint: Paint, flags: AttributeFlags) {
    flags.appliesColor && paint.colorSource.Some?
  }

  /** Inversion also changes the alpha of what is not opaque. */
  predicate InvertsTranslucent(paint: Paint, flags: AttributeFlags) {
    && Inverted(paint, flags)
    && !(flags.appliesColor && paint.color.IsOpaque()
         && (UsesSource(paint, flags) ==> paint.colorSource.value.isOpaque))
  }

  /** The source pixels an operation with this paint may blend: its own colour, which may
      be inverted, pixels of its colour source or of an image, faded by its alpha; filters,
      and the inversion of translucent pixels, may turn them into anything except that some
      are known to keep transparent black. */
  predicate MayProduce(paint: Paint, flags: AttributeFlags, ch: Channel, s: Pixel) {
    if (flags.appliesColor || flags.appliesAlpha) && paint.color.alpha == 0.0
      && FiltersKeepTransparency(paint, flags) then
      s == CLEAR_PIXEL
    else if Filtered(paint, flags) || InvertsTranslucent(paint, flags) then
      s.Valid()
    else if UsesSource(paint, flags) then
      s.Valid() && if paint.colorSource.value.isOpaque then s.a == paint.color.alpha else s.a <= paint.color.alpha
    else if flags.appliesColor then
      s == Premultiplied(RenderedColor(paint, flags), ch)
    else
      s.Valid() && (flags.appliesAlpha ==> s.a <= paint.color.alpha)
  }

  /** A translucent alpha that eight bits round to zero, read by an operation that
      takes only the alpha of its paint (an image or a layer). */
  predicate AlphaRoundsAway(paint: Paint, flags: AttributeFlags) {
    !flags.appliesColor && flags.appliesAlpha && paint.color.alpha > 0.0 && paint.color.Alpha8() == 0
  }

  lemma TransparentColorIsTransparent(paint: Paint, flags: AttributeFlags, ch: Channel, s: Pixel)
    requires ValidColor(paint.color)
    requires GetEffectiveColor(paint, flags).IsTransparent() && !AlphaRoundsAway(paint, flags)
    requires MayProduce(paint, flags, ch, s)
    ensures s == CLEAR_PIXEL
  {
  }

  lemma OpaqueColorIsOpaque(paint: Paint, flags: AttributeFlags, ch: Channel, s: Pixel)
    requires ValidColor(paint.color)
    requires GetEffectiveColor(paint, flags).IsOpaque() && (UsesSource(paint, flags) ==> paint.color.IsOpaque())
    requires MayProduce(paint, flags, ch, s)
    ensures s.a == 1.0
    ensures GetEffectiveColor(paint, flags) == WHITE ==>
      s == if Inverted(paint, flags) then Pixel(0.0, 1.0) else Pixel(1.0, 1.0)
  {
  }

  /** A white that modulates is judged without looking at its inversion to black. */
  predicate ModulatesInverted(paint: Paint, flags: AttributeFlags) {
    paint.blendMode == Modulate && Inverted(paint, flags)
  }

  /** An opaque colour source that keeps its destination is judged without looking at the
      alpha that fades it. */
  predicate KeepsByFadedSource(paint: Paint, flags: AttributeFlags) {
    && paint.blendMode == DstIn && !paint.color.IsOpaque()
    && UsesSource(paint, flags) && paint.colorSource.value.isOpaque
  }

  lemma OpaqueComesFromOpaque(paint: Paint, flags: AttributeFlags)
    requires GetEffectiveColor(paint, flags).IsOpaque() && UsesSource(paint, flags)
    ensures paint.colorSource.value.isOpaque && GetEffectiveColor(paint, flags) != WHITE
  {
  }

  /** kNoEffect means what it says, except when an alpha is rounded away, a white inverted or
      an opaque source faded. */
  lemma NoEffectIsSound(paint: Paint, flags: AttributeFlags, ch: Channel, s: Pixel, d: Pixel, mix: real)
    requires ValidColor(paint.color)
    requires PaintResult(paint, flags) == NoEffect && !AlphaRoundsAway(paint, flags) && !ModulatesInverted(paint, flags)
    requires !KeepsByFadedSource(paint, flags)
    requires MayProduce(paint, flags, ch, s) && d.Valid()
    ensures Blend(paint.blendMode, s, d, mix) == d
  {
    hide GetEffectiveColor, MayProduce, AlphaRoundsAway, Inverted;
    var color := GetEffectiveColor(paint, flags);
    if color.IsTransparent() {
      TransparentColorIsTransparent(paint, flags, ch, s);
    }
    if color.IsOpaque() && (paint.blendMode == DstIn || color == WHITE) {
      if UsesSource(paint, flags) {
        OpaqueComesFromOpaque(paint, flags);
      }
      OpaqueColorIsOpaque(paint, flags, ch, s);
    }
  }

  /** The modes that leave transparent pixels alone only because their source is transparent. */
  predicate ReadsSourceOverClear(mode: BlendMode) {
    mode == Src || mode == SrcOut || mode == DstATop
  }

  /** kPreservesTransparency means what it says, except for a source alpha that is rounded
      away under a mode that puts its source on transparent pixels. */
  lemma PreservesTransparencyIsSound(paint: Paint, flags: AttributeFlags, ch: Channel, s: Pixel, mix: real)
    requires ValidColor(paint.color)
    requires PaintResult(paint, flags) == PreservesTransparency
    requires !(AlphaRoundsAway(paint, flags) && ReadsSourceOverClear(paint.blendMode))
    requires MayProduce(paint, flags, ch, s)
    ensures Blend(paint.blendMode, s, CLEAR_PIXEL, mix) == CLEAR_PIXEL
  {
    hide GetEffectiveColor, MayProduce, AlphaRoundsAway;
    if GetEffectiveColor(paint, flags).IsTransparent() && ReadsSourceOverClear(paint.blendMode) {
      TransparentColorIsTransparent(paint, flags, ch, s);
    }
  }

  /** The exact condition for kPreservesTransparency: transparent pixels stay transparent
      under every source pixel, if and only if no alpha is rounded away under those modes. */
  lemma PreservesTransparencyExactly(paint: Paint, flags: AttributeFlags)
    requires ValidColor(paint.color)
    requires PaintResult(paint, flags) == PreservesTransparency
    ensures (forall ch, s, mix :: MayProduce(paint, flags, ch, s) ==>
               Blend(paint.blendMode, s, CLEAR_PIXEL, mix) == CLEAR_PIXEL)
       <==> !(AlphaRoundsAway(paint, flags) && ReadsSourceOverClear(paint.blendMode))
  {
    if AlphaRoundsAway(paint, flags) && ReadsSourceOverClear(paint.blendMode) {
      var s := Pixel(paint.color.alpha, paint.color.alpha);
      assert MayProduce(paint, flags, Red, s);
      assert Blend(paint.blendMode, s, CLEAR_PIXEL, 0.0) != CLEAR_PIXEL;
    } else {
      forall ch, s, mix | MayProduce(paint, flags, ch, s)
        ensures Blend(paint.blendMode, s, CLEAR_PIXEL, mix) == CLEAR_PIXEL
      {
        PreservesTransparencyIsSound(paint, flags, ch, s, mix);
      }
    }
  }

  /** A concrete layer: with alpha 0.001 and mode kSrc it is said to preserve transparency,
      although a white pixel in it would show on a transparent one. */
  lemma RoundedAlphaChangesTransparency(paint: Paint)
    requires paint.color.alpha == 0.001 && paint.blendMode == Src
    requires paint.imageFilter.None? && paint.colorFilter.None?
    ensures PaintResult(paint, SAVE_LAYER_WITH_PAINT_FLAGS) == PreservesTransparency
    ensures MayProduce(paint, SAVE_LAYER_WITH_PAINT_FLAGS, Red, Pixel(0.001, 0.001))
    ensures forall mix :: Blend(paint.blendMode, Pixel(0.001, 0.001), CLEAR_PIXEL, mix) == Pixel(0.001, 0.001)
  {
    hide MayProduce;
    assert paint.color.Alpha8() == 0;
    RoundedPixelIsProduced(paint);
  }

  /** The exact condition for kNoEffect: nothing changes for any source pixel and any
      destination, if and only if no alpha was rounded away (kDst never reads it), no white
      that modulates was inverted, and no opaque source that keeps its destination faded. */
  lemma NoEffectExactly(paint: Paint, flags: AttributeFlags)
    requires ValidColor(paint.color)
    requires PaintResult(paint, flags) == NoEffect
    ensures (forall ch, s, d: Pixel, mix :: MayProduce(paint, flags, ch, s) && d.Valid() ==>
               Blend(paint.blendMode, s, d, mix) == d)
       <==> (!AlphaRoundsAway(paint, flags) || paint.blendMode == Dst) && !ModulatesInverted(paint, flags)
            && !KeepsByFadedSource(paint, flags)
  {
    if ModulatesInverted(paint, flags) {
      InvertedWhiteDarkens(paint, flags);
    } else if KeepsByFadedSource(paint, flags) {
      FadedSourceErases(paint, flags);
    } else if paint.blendMode == Dst {
    } else if !AlphaRoundsAway(paint, flags) {
      forall ch, s, d: Pixel, mix | MayProduce(paint, flags, ch, s) && d.Valid()
        ensures Blend(paint.blendMode, s, d, mix) == d
      {
        NoEffectIsSound(paint, flags, ch, s, d, mix);
      }
    } else {
      RoundedAlphaShows(paint, flags);
    }
    hide *;
  }

  lemma RoundedAlphaShows(paint: Paint, flags: AttributeFlags)
    requires ValidColor(paint.color) && AlphaRoundsAway(paint, flags)
    requires PaintResult(paint, flags) == NoEffect && paint.blendMode != Dst
    ensures exists ch, s, d: Pixel, mix ::
      MayProduce(paint, flags, ch, s) && d.Valid() && Blend(paint.blendMode, s, d, mix) != d
  {
    var s := Pixel(paint.color.alpha, paint.color.alpha);
    var d := if paint.blendMode == DstOut then Pixel(1.0, 1.0)
             else if paint.blendMode == SrcATop then Pixel(0.0, 1.0)
             else CLEAR_PIXEL;
    assert MayProduce(paint, flags, Red, s) && d.Valid();
    RoundedColorIsTransparent(paint, flags);
    assert Blend(paint.blendMode, s, d, 0.0) != d;
  }

  lemma FadedSourceErases(paint: Paint, flags: AttributeFlags)
    requires ValidColor(paint.color)
    requires PaintResult(paint, flags) == NoEffect && KeepsByFadedSource(paint, flags)
    ensures exists ch, s, d: Pixel, mix ::
      MayProduce(paint, flags, ch, s) && d.Valid() && Blend(paint.blendMode, s, d, mix) != d
  {
    var s := Pixel(0.0, paint.color.alpha);
    assert MayProduce(paint, flags, Red, s) && WHITE_PIXEL.Valid();
    assert Blend(DstIn, s, WHITE_PIXEL, 0.0) != WHITE_PIXEL;
  }

  lemma InvertedWhiteDarkens(paint: Paint, flags: AttributeFlags)
    requires PaintResult(paint, flags) == NoEffect && ModulatesInverted(paint, flags)
    ensures exists ch, s, d: Pixel, mix ::
      MayProduce(paint, flags, ch, s) && d.Valid() && Blend(paint.blendMode, s, d, mix) != d
  {
    assert GetEffectiveColor(paint, flags) == WHITE;
    var s := Pixel(0.0, 1.0);
    assert MayProduce(paint, flags, Red, s) && WHITE_PIXEL.Valid();
    assert Blend(Modulate, s, WHITE_PIXEL, 0.0) != WHITE_PIXEL;
  }

  lemma RoundedColorIsTransparent(paint: Paint, flags: AttributeFlags)
    requires AlphaRoundsAway(paint, flags)
    ensures !GetEffectiveColor(paint, flags).IsOpaque()
  {
  }

  /** A concrete layer: with alpha 0.001 it is dropped, although a white pixel in it would show. */
  lemma RoundedAlphaDropsAVisibleLayer(paint: Paint)
    requires paint.color.alpha == 0.001 && paint.blendMode == SrcOver
    requires paint.imageFilter.None? && paint.colorFilter.None?
    ensures PaintResult(paint, SAVE_LAYER_WITH_PAINT_FLAGS) == NoEffect
    ensures MayProduce(paint, SAVE_LAYER_WITH_PAINT_FLAGS, Red, Pixel(0.001, 0.001))
    ensures Blend(paint.blendMode, Pixel(0.001, 0.001), CLEAR_PIXEL, 0.0) != CLEAR_PIXEL
  {
    hide Blend, MayProduce;
    assert paint.color.Alpha8() == 0;
    RoundedPixelShows();
    RoundedPixelIsProduced(paint);
  }

  lemma RoundedPixelShows()
    ensures Blend(SrcOver, Pixel(0.001, 0.001), CLEAR_PIXEL, 0.0) != CLEAR_PIXEL
  {
  }

  lemma RoundedPixelIsProduced(paint: Paint)
    requires paint.color.alpha == 0.001
    requires paint.imageFilter.None? && paint.colorFilter.None?
    ensures MayProduce(paint, SAVE_LAYER_WITH_PAINT_FLAGS, Red, Pixel(0.001, 0.001))
  {
  }

  lemma ModeNops(mode: BlendMode, d: Pixel, mix: real)
    requires ModeNopsOnTransparency(mode) && d.Valid()
    ensures Blend(mode, CLEAR_PIXEL, d, mix) == d
  {
  }

  /** The mode switch is exact: it answers true for precisely the modes whose
      equation leaves every destination alone under a transparent source. */
  lemma NopsOnTransparencyExactly(mode: BlendMode)
    ensures ModeNopsOnTransparency(mode)
       <==> forall d: Pixel, mix :: d.Valid() ==> Blend(mode, CLEAR_PIXEL, d, mix) == d
  {
    if ModeNopsOnTransparency(mode) {
      forall d: Pixel, mix | d.Valid()
        ensures Blend(mode, CLEAR_PIXEL, d, mix) == d
      {
        ModeNops(mode, d, mix);
      }
    } else {
      assert Pixel(1.0, 1.0).Valid();
      assert Blend(mode, CLEAR_PIXEL, Pixel(1.0, 1.0), 0.0) == CLEAR_PIXEL;
    }
    hide *;
  }
}
