/**
 Why one part per point is what distributing an opacity takes: the equations of
 source-over for a layer that is drawn with an opacity, and for its parts.
 */
module DisplayListOpacityPixels {
  import opened DisplayListTypes
  import opened DisplayListPaint

  function Scaled(opacity: real, s: Pixel): Pixel {
    Pixel(opacity * s.c, opacity * s.a)
  }

  /** The parts of a layer drawn over each other onto transparent black. */
  function Flattened(parts: seq<Pixel>): Pixel {
    if parts == [] then CLEAR_PIXEL
    else SourceOver(parts[|parts| - 1], Flattened(parts[..|parts| - 1]))
  }

  /** The parts drawn straight onto the destination, each with the opacity. */
  function DrawnEach(parts: seq<Pixel>, opacity: real, d: Pixel): Pixel {
    if parts == [] then d
    else SourceOver(Scaled(opacity, parts[|parts| - 1]), DrawnEach(parts[..|parts| - 1], opacity, d))
  }

  /** What a point that belongs to at most one part looks like. */
  predicate OnePart(parts: seq<Pixel>) {
    forall j, k :: 0 <= j < k < |parts| ==> parts[j] == CLEAR_PIXEL || parts[k] == CLEAR_PIXEL
  }

  predicate NothingThere(parts: seq<Pixel>) {
    forall k :: 0 <= k < |parts| ==> parts[k] == CLEAR_PIXEL
  }

  lemma ClearOver(opacity: real, d: Pixel)
    ensures SourceOver(CLEAR_PIXEL, d) == d && SourceOver(Scaled(opacity, CLEAR_PIXEL), d) == d
  {
  }

  lemma OverClear(s: Pixel)
    ensures SourceOver(s, CLEAR_PIXEL) == s
  {
  }

  lemma LastPart(parts: seq<Pixel>, opacity: real, d: Pixel)
    requires parts != []
    ensures var init, last := parts[..|parts| - 1], parts[|parts| - 1];
      && Flattened(parts) == SourceOver(last, Flattened(init))
      && DrawnEach(parts, opacity, d) == SourceOver(Scaled(opacity, last), DrawnEach(init, opacity, d))
  {
  }

  lemma NoParts(opacity: real, d: Pixel)
    ensures Flattened([]) == CLEAR_PIXEL && DrawnEach([], opacity, d) == d
  {
  }

  lemma {:induction false} AllClear(parts: seq<Pixel>, opacity: real, d: Pixel)
    requires NothingThere(parts)
    ensures Flattened(parts) == CLEAR_PIXEL && DrawnEach(parts, opacity, d) == d
  {
    hide SourceOver, Scaled, Flattened, DrawnEach;
    if parts == [] {
      NoParts(opacity, d);
    } else {
      LastPart(parts, opacity, d);
      AllClear(parts[..|parts| - 1], opacity, d);
      ClearOver(opacity, d);
      ClearOver(opacity, CLEAR_PIXEL);
    }
  }

  /** Where a point belongs to one part, drawing every part with the opacity gives the
      pixel of the flattened layer composed with it. */
  lemma {:induction false} DistributedOpacityIsGroupOpacity(parts: seq<Pixel>, opacity: real, d: Pixel)
    requires OnePart(parts)
    ensures DrawnEach(parts, opacity, d) == SourceOver(Scaled(opacity, Flattened(parts)), d)
  {
    hide SourceOver, Scaled, Flattened, DrawnEach;
    if parts == [] {
      NoParts(opacity, d);
      ClearOver(opacity, d);
    } else {
      var init, last := parts[..|parts| - 1], parts[|parts| - 1];
      LastPart(parts, opacity, d);
      if last == CLEAR_PIXEL {
        DistributedOpacityIsGroupOpacity(init, opacity, d);
        ClearOver(opacity, DrawnEach(init, opacity, d));
        ClearOver(opacity, Flattened(init));
      } else {
        assert forall k :: 0 <= k < |init| ==> init[k] == parts[k];
        AllClear(init, opacity, d);
        OverClear(last);
      }
    }
  }

  // ------------------------------------------ what other modes and overlaps do

  /** A destination on which half a white pixel shows that the mode is not source-over. */
  function Telling(mode: BlendMode): Pixel {
    if mode == Plus then Pixel(0.5, 0.5)
    else if TellsOnWhite(mode) then WHITE_PIXEL
    else Pixel(0.0, 1.0)
  }

  predicate TellsOnWhite(mode: BlendMode) {
    mode in {Clear, Src, SrcIn, DstIn, SrcOut, DstOut, DstATop, Xor, Modulate}
  }

  predicate VanishesOnClear(mode: BlendMode) {
    mode in {Clear, Dst, SrcIn, DstIn, DstOut, SrcATop, Modulate}
  }

  lemma WhiteOnClear(mode: BlendMode)
    ensures Blend(mode, WHITE_PIXEL, CLEAR_PIXEL, 0.0) == if VanishesOnClear(mode) then CLEAR_PIXEL else WHITE_PIXEL
  {
  }

  lemma HalfComposite(fs: real, fd: real)
    ensures Composite(Pixel(0.5, 0.5), fs, WHITE_PIXEL, fd).a == 0.5 * fs + fd
  {
  }

  lemma HalfOnWhite(mode: BlendMode)
    requires TellsOnWhite(mode)
    ensures Blend(mode, Pixel(0.5, 0.5), WHITE_PIXEL, 0.0).a == if mode == Clear || mode == SrcOut then 0.0 else 0.5
  {
    hide Composite, SourceOver;
    forall fs, fd
      ensures Composite(Pixel(0.5, 0.5), fs, WHITE_PIXEL, fd).a == 0.5 * fs + fd
    {
      HalfComposite(fs, fd);
    }
  }

  lemma HalfOnBlack(mode: BlendMode)
    requires !TellsOnWhite(mode) && mode != SrcOver && mode != Dst && mode != Plus
    ensures Blend(mode, Pixel(0.5, 0.5), Pixel(0.0, 1.0), 0.0).c == if mode == SrcATop then 0.5 else 0.0
  {
  }

  lemma HalfAdded()
    ensures Blend(Plus, Pixel(0.5, 0.5), Pixel(0.5, 0.5), 0.0).c == 1.0
  {
  }

  lemma HalfWhite()
    ensures Scaled(0.5, WHITE_PIXEL) == Pixel(0.5, 0.5)
  {
  }

  lemma HalfOverBlack()
    ensures SourceOver(Pixel(0.5, 0.5), Pixel(0.0, 1.0)).c == 0.5
  {
  }

  lemma HalfOverWhite()
    ensures SourceOver(Pixel(0.5, 0.5), WHITE_PIXEL).a == 1.0
  {
  }

  lemma HalfOverHalf()
    ensures SourceOver(Pixel(0.5, 0.5), Pixel(0.5, 0.5)).c == 0.75
  {
  }

  lemma WhiteOverWhite()
    ensures SourceOver(WHITE_PIXEL, WHITE_PIXEL) == WHITE_PIXEL
  {
  }

  lemma TellingTells(mode: BlendMode)
    requires mode != SrcOver && mode != Dst
    ensures Telling(mode).Valid()
    ensures Blend(mode, Pixel(0.5, 0.5), Telling(mode), 0.0)
         != SourceOver(Scaled(0.5, Blend(mode, WHITE_PIXEL, CLEAR_PIXEL, 0.0)), Telling(mode))
  {
    hide Blend, SourceOver, Scaled;
    WhiteOnClear(mode);
    HalfWhite();
    ClearOver(0.5, Telling(mode));
    if mode == Plus {
      HalfAdded();
      HalfOverHalf();
    } else if TellsOnWhite(mode) {
      HalfOnWhite(mode);
      HalfOverWhite();
    } else {
      HalfOnBlack(mode);
      HalfOverBlack();
    }
  }

  lemma TwiceDiffers()
    ensures SourceOver(Pixel(0.5, 0.5), Pixel(0.5, 0.5)) != SourceOver(Scaled(0.5,
        SourceOver(WHITE_PIXEL, WHITE_PIXEL)), CLEAR_PIXEL)
  {
    hide SourceOver, Scaled;
    HalfOverHalf();
    WhiteOverWhite();
    HalfWhite();
    OverClear(Pixel(0.5, 0.5));
  }

  lemma BothDrawn(bottom: Pixel, top: Pixel, opacity: real, d: Pixel)
    ensures DrawnEach([bottom, top], opacity, d)
         == SourceOver(Scaled(opacity, top), SourceOver(Scaled(opacity, bottom), d))
    ensures Flattened([bottom, top]) == SourceOver(top, bottom)
  {
    hide SourceOver, Scaled, Flattened, DrawnEach;
    var two := [bottom, top];
    assert two[..1] == [bottom] && [bottom][..0] == [];
    LastPart(two, opacity, d);
    LastPart([bottom], opacity, d);
    NoParts(opacity, d);
    OverClear(bottom);
  }

  function Product(a: real, b: real): real {
    a * b
  }

  /** Drawing a channel with an opacity moves the destination by the opacity of the difference. */
  lemma DrawnOver(opacity: real, x: real, alpha: real, d: real)
    ensures Over(Product(opacity, x), Product(opacity, alpha), d) == d + Product(opacity, x - Product(alpha, d))
  {
    Associates(opacity, alpha, d);
  }

  lemma Associates(a: real, b: real, c: real)
    ensures (a * b) * c == a * (b * c)
  {
  }

  /** How much of the lower pixel shows although the upper one covers it in their layer. */
  function Missed(opacity: real, alpha: real): real {
    opacity * (1.0 - opacity) * alpha
  }

  /** What a channel `x` with its alpha adds to a destination. */
  function Added(x: real, alpha: real, d: real): real {
    x - Product(alpha, d)
  }

  /** Two channels over each other add what they add by themselves, the lower one as far as
      the upper one lets it through. */
  lemma AddedTogether(top: real, topAlpha: real, bottom: real, bottomAlpha: real, d: real)
    ensures Added(Over(top, topAlpha, bottom), Over(topAlpha, topAlpha, bottomAlpha), d)
         == Added(top, topAlpha, d) + Product(1.0 - topAlpha, Added(bottom, bottomAlpha, d))
  {
    Associates(1.0 - topAlpha, bottomAlpha, d);
  }

  /** By how much a channel of one pixel over another changes when they are drawn one by one. */
  lemma ChannelDiffers(opacity: real, top: real, topAlpha: real, bottom: real, bottomAlpha: real, d: real)
    ensures var lower := Over(Product(opacity, bottom), Product(opacity, bottomAlpha), d);
      Over(Product(opacity, top), Product(opacity, topAlpha), lower)
      - Over(Product(opacity, Over(top, topAlpha, bottom)), Product(opacity, Over(topAlpha, topAlpha, bottomAlpha)), d)
      == Product(Missed(opacity, topAlpha), Added(bottom, bottomAlpha, d))
  {
    var lower, more := Over(Product(opacity, bottom), Product(opacity, bottomAlpha), d), Added(bottom, bottomAlpha, d);
    DrawnOver(opacity, bottom, bottomAlpha, d);
    assert lower == d + Product(opacity, more);
    DrawnOver(opacity, top, topAlpha, lower);
    DrawnOver(opacity, Over(top, topAlpha, bottom), Over(topAlpha, topAlpha, bottomAlpha), d);
    AddedTogether(top, topAlpha, bottom, bottomAlpha, d);
    hide Over, Added, Missed;
    AddedLater(opacity, top, topAlpha, d, more);
  }

  lemma AddedLater(opacity: real, top: real, topAlpha: real, d: real, more: real)
    ensures var lower := d + Product(opacity, more);
      lower + Product(opacity, top - Product(topAlpha, lower))
      - (d + Product(opacity, top - Product(topAlpha, d) + Product(1.0 - topAlpha, more)))
      == Product(Missed(opacity, topAlpha), more)
  {
  }

  lemma ScaledChannels(opacity: real, s: Pixel)
    ensures Scaled(opacity, s) == Pixel(Product(opacity, s.c), Product(opacity, s.a))
  {
  }

  lemma OverlapDiffers(bottom: Pixel, top: Pixel, opacity: real, d: Pixel)
    ensures var each := SourceOver(Scaled(opacity, top), SourceOver(Scaled(opacity, bottom), d));
      var group := SourceOver(Scaled(opacity, SourceOver(top, bottom)), d);
      && each.c - group.c == Product(Missed(opacity, top.a), Added(bottom.c, bottom.a, d.c))
      && each.a - group.a == Product(Missed(opacity, top.a), Added(bottom.a, bottom.a, d.a))
  {
    hide Over, Scaled, Product, Added, Missed;
    ChannelDiffers(opacity, top.c, top.a, bottom.c, bottom.a, d.c);
    ChannelDiffers(opacity, top.a, top.a, bottom.a, bottom.a, d.a);
    ScaledChannels(opacity, bottom);
    ScaledChannels(opacity, top);
    ScaledChannels(opacity, SourceOver(top, bottom));
    var lower, both := SourceOver(Scaled(opacity, bottom), d), SourceOver(top, bottom);
    assert lower.c == Over(Product(opacity, bottom.c), Product(opacity, bottom.a), d.c);
    assert lower.a == Over(Product(opacity, bottom.a), Product(opacity, bottom.a), d.a);
    assert both.c == Over(top.c, top.a, bottom.c) && both.a == Over(top.a, top.a, bottom.a);
  }

  lemma SamePixel(x: Pixel, y: Pixel)
    ensures x == y <==> x.c - y.c == 0.0 && x.a - y.a == 0.0
  {
  }

  lemma MissedNothing(opacity: real, alpha: real)
    ensures Missed(opacity, alpha) == 0.0 <==> opacity == 0.0 || opacity == 1.0 || alpha == 0.0
  {
    NoFactor(opacity * (1.0 - opacity), alpha);
    NoFactor(opacity, 1.0 - opacity);
  }

  lemma NoFactor(a: real, b: real)
    ensures a * b == 0.0 <==> a == 0.0 || b == 0.0
  {
  }

  lemma AddsNothing(x: real, alpha: real, d: real)
    ensures Added(x, alpha, d) == 0.0 <==> x == alpha * d
  {
  }

  lemma ZeroProduct(a: real, b: real)
    ensures Product(a, b) == 0.0 <==> a == 0.0 || b == 0.0
  {
    NoFactor(a, b);
  }

  /** It takes one part: two pixels that lie over each other can be drawn one by one with an
      opacity if and only if the opacity is none or full, the upper one is transparent, or
      the lower one shows nothing but the destination. */
  lemma OverlapsDistributeExactly(bottom: Pixel, top: Pixel, opacity: real, d: Pixel)
    ensures DrawnEach([bottom, top], opacity, d) == SourceOver(Scaled(opacity, Flattened([bottom, top])), d)
       <==> || opacity == 0.0 || opacity == 1.0 || top.a == 0.0
            || (bottom.c == bottom.a * d.c && bottom.a == bottom.a * d.a)
  {
    BothDrawn(bottom, top, opacity, d);
    OverlapDiffers(bottom, top, opacity, d);
    ZeroProduct(Missed(opacity, top.a), Added(bottom.c, bottom.a, d.c));
    ZeroProduct(Missed(opacity, top.a), Added(bottom.a, bottom.a, d.a));
    hide SourceOver, Scaled, Flattened, DrawnEach;
    SamePixel(DrawnEach([bottom, top], opacity, d), SourceOver(Scaled(opacity, Flattened([bottom, top])), d));
    MissedNothing(opacity, top.a);
    AddsNothing(bottom.c, bottom.a, d.c);
    AddsNothing(bottom.a, bottom.a, d.a);
    hide Added, Product, Missed;
  }
}
