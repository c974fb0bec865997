/**
 The builder keeps no more than it needs: cull boxes, bounds and r-tree entries hold exactly
 the points that their call lets through, or where a box cannot, are the least one that
 holds them.
 */
module DisplayListTightness {
  import opened Options
  import opened DisplayListTypes
  import opened DisplayListPaint
  import opened DisplayListPaintEffects
  import opened DisplayListBuilderSpec
  import opened DisplayListGeometry
  import opened DisplayListCanvas
  import opened DisplayListFilters
  import opened DisplayListMarking
  import opened DisplayListSummary
  import opened DisplayListVisibility

  // ------------------------------------------------------------- rectangles

  lemma MiddleIsInside(r: Rect)
    ensures !r.IsEmpty() <==> exists p :: r.Inside(p)
  {
    if !r.IsEmpty() {
      assert r.Inside(Point((r.left + r.right) / 2.0, (r.top + r.bottom) / 2.0));
    }
  }

  predicate IsIntegral(x: real) {
    x.Floor as real == x
  }

  lemma FloorIsLeast(x: real)
    ensures IsIntegral(x.Floor as real) && x - 1.0 < x.Floor as real <= x
    ensures IsIntegral(Ceiling(x)) && x <= Ceiling(x) < x + 1.0
  {
    assert (x.Floor as real).Floor == x.Floor;
    NegatedIsIntegral((-x).Floor);
  }

  lemma NegatedIsIntegral(n: int)
    ensures IsIntegral(-(n as real))
  {
    assert -(n as real) == (-n) as real;
    assert ((-n) as real).Floor == -n;
  }

  /** Rounding out goes to the next integers, and no further. */
  lemma RoundOutIsLeast(r: Rect)
    ensures var o := r.RoundOut();
      && IsIntegral(o.left) && IsIntegral(o.top) && IsIntegral(o.right) && IsIntegral(o.bottom)
      && r.left - 1.0 < o.left <= r.left && r.top - 1.0 < o.top <= r.top
      && r.right <= o.right < r.right + 1.0 && r.bottom <= o.bottom < r.bottom + 1.0
  {
    FloorIsLeast(r.left);
    FloorIsLeast(r.top);
    FloorIsLeast(r.right);
    FloorIsLeast(r.bottom);
    hide Ceiling, IsIntegral;
  }

  /** What is left of a rectangle after cutting another one out, edges included. */
  predicate Left(r: Rect, o: Rect, p: Point) {
    r.Inside(p) && !OnOrInside(o, p)
  }

  /** A point that is left, beyond `x` on the left. */
  lemma LeftSide(r: Rect, o: Rect, x: real) returns (p: Point)
    requires !r.CutoutOrEmpty(o).IsEmpty() && o.left <= o.right && o.top <= o.bottom
    requires r.CutoutOrEmpty(o).left < x
    ensures Left(r, o, p) && p.x < x
  {
    var c := r.CutoutOrEmpty(o);
    var px := (c.left + Min(x, c.right)) / 2.0;
    if c != r {
      p := Point(px, (c.top + c.bottom) / 2.0);
    } else if o.top > r.top || o.bottom < r.top {
      p := Point(px, (r.top + (if o.bottom < r.top then r.bottom else Min(o.top, r.bottom))) / 2.0);
    } else if o.bottom < r.bottom {
      p := Point(px, (Max(o.bottom, r.top) + r.bottom) / 2.0);
    } else {
      p := Point(if o.left > r.left then (r.left + Min(Min(x, r.right), o.left)) / 2.0 else px,
                 (r.top + r.bottom) / 2.0);
    }
  }

  // The other sides are that side of the mirrored rectangles.

  function MirrorX(r: Rect): Rect {
    Rect(-r.right, r.top, -r.left, r.bottom)
  }

  function Swap(r: Rect): Rect {
    Rect(r.top, r.left, r.bottom, r.right)
  }

  lemma MirroredCut(r: Rect, o: Rect)
    requires o.left <= o.right && o.top <= o.bottom
    ensures MirrorX(r).CutoutOrEmpty(MirrorX(o)).IsEmpty() <==> r.CutoutOrEmpty(o).IsEmpty()
    ensures !r.CutoutOrEmpty(o).IsEmpty() ==> MirrorX(r).CutoutOrEmpty(MirrorX(o)) == MirrorX(r.CutoutOrEmpty(o))
  {
  }

  lemma SwappedCut(r: Rect, o: Rect)
    requires o.left <= o.right && o.top <= o.bottom
    ensures Swap(r).CutoutOrEmpty(Swap(o)).IsEmpty() <==> r.CutoutOrEmpty(o).IsEmpty()
    ensures !r.CutoutOrEmpty(o).IsEmpty() ==> Swap(r).CutoutOrEmpty(Swap(o)) == Swap(r.CutoutOrEmpty(o))
  {
  }

  lemma RightSide(r: Rect, o: Rect, x: real) returns (p: Point)
    requires !r.CutoutOrEmpty(o).IsEmpty() && o.left <= o.right && o.top <= o.bottom
    requires x < r.CutoutOrEmpty(o).right
    ensures Left(r, o, p) && x < p.x
  {
    MirroredCut(r, o);
    hide Rect.CutoutOrEmpty;
    var q := LeftSide(MirrorX(r), MirrorX(o), -x);
    p := Point(-q.x, q.y);
  }

  lemma TopSide(r: Rect, o: Rect, y: real) returns (p: Point)
    requires !r.CutoutOrEmpty(o).IsEmpty() && o.left <= o.right && o.top <= o.bottom
    requires r.CutoutOrEmpty(o).top < y
    ensures Left(r, o, p) && p.y < y
  {
    SwappedCut(r, o);
    hide Rect.CutoutOrEmpty;
    var q := LeftSide(Swap(r), Swap(o), y);
    p := Point(q.y, q.x);
  }

  lemma BottomSide(r: Rect, o: Rect, y: real) returns (p: Point)
    requires !r.CutoutOrEmpty(o).IsEmpty() && o.left <= o.right && o.top <= o.bottom
    requires y < r.CutoutOrEmpty(o).bottom
    ensures Left(r, o, p) && y < p.y
  {
    SwappedCut(r, o);
    hide Rect.CutoutOrEmpty;
    var q := RightSide(Swap(r), Swap(o), y);
    p := Point(q.y, q.x);
  }

  /** The cutout holds what is left, and every rectangle that does holds the cutout. */
  lemma CutoutIsLeast(r: Rect, o: Rect, q: Rect)
    requires o.left <= o.right && o.top <= o.bottom
    requires forall p :: Left(r, o, p) ==> q.Inside(p)
    ensures forall p :: r.CutoutOrEmpty(o).Inside(p) ==> q.Inside(p)
  {
    var c := r.CutoutOrEmpty(o);
    if !c.IsEmpty() {
      hide Rect.CutoutOrEmpty, Left;
      if c.left < q.left {
        var p := LeftSide(r, o, q.left);
      }
      if q.right < c.right {
        var p := RightSide(r, o, q.right);
      }
      if c.top < q.top {
        var p := TopSide(r, o, q.top);
      }
      if q.bottom < c.bottom {
        var p := BottomSide(r, o, q.bottom);
      }
    }
  }

  // ------------------------------------------------------------------ clips

  /** An intersection keeps exactly the points of the cull box that it lets through. */
  lemma IntersectionIsExact(t: Tracker, r: Rect, p: Point)
    requires !t.cull.IsEmpty()
    ensures t.ClipRect(r, Intersect).cull.Inside(p) <==> t.cull.Inside(p) && Within(t.matrix, r, p)
    ensures t.ClipRect(r, Intersect).matrix == t.matrix
  {
    hide Matrix.MapBounds, Matrix.Invert, Matrix.Apply;
    if t.matrix.IsInvertible() {
      MappedCovers(t.matrix, r, p);
    } else {
      SingularFlattens(t.matrix, r);
    }
    IntersectionCovers(t.cull, t.matrix.MapBounds(r), p);
    hide Rect.IntersectionOrEmpty;
  }

  /** A difference keeps the points that are left, in the least box that holds them. */
  lemma DifferenceIsLeast(t: Tracker, r: Rect, q: Rect)
    requires t.matrix.IsInvertible()
    requires forall p :: t.cull.Inside(p) && !WithinClosed(t.matrix, r, p) ==> q.Inside(p)
    ensures forall p :: t.ClipRect(r, Difference).cull.Inside(p) ==> q.Inside(p)
  {
    var o := t.matrix.MapBounds(r);
    hide Matrix.MapBounds, Matrix.Invert, Matrix.Apply, Matrix.IsInvertible, Rect.CutoutOrEmpty;
    if t.cull.IsEmpty() {
      assert forall p :: !t.cull.Inside(p);
    } else if r.IsEmpty() {
      assert forall p :: !WithinClosed(t.matrix, r, p);
    } else {
      forall p
        ensures OnOrInside(o, p) <==> WithinClosed(t.matrix, r, p)
      {
        MappedCovers(t.matrix, r, p);
      }
      MappedIsOrdered(t.matrix, r);
      hide WithinClosed, OnOrInside;
      CutoutIsLeast(t.cull, o, q);
    }
  }

  /** A clip lets a point of the cull box through. */
  ghost predicate LetsSome(t: Tracker, r: Rect, op: ClipOp) {
    exists p :: t.cull.Inside(p) && LetsThroughPoint(t, r, op, p)
  }

  predicate LetsThroughPoint(t: Tracker, r: Rect, op: ClipOp, p: Point) {
    if op == Intersect then Within(t.matrix, r, p) else !WithinClosed(t.matrix, r, p)
  }

  lemma ClipLeavesSome(t: Tracker, r: Rect, op: ClipOp)
    ensures t.ClipRect(r, op).cull.IsEmpty() <==> !LetsSome(t, r, op)
  {
    var after := t.ClipRect(r, op).cull;
    MiddleIsInside(t.cull);
    MiddleIsInside(after);
    if LetsSome(t, r, op) {
      var p :| t.cull.Inside(p) && LetsThroughPoint(t, r, op, p);
      ClipKeepsPoint(t, r, op, p);
    } else if !t.cull.IsEmpty() {
      LetsNone(t, r, op);
    } else {
      assert after == t.cull;
    }
    hide Tracker.ClipRect, LetsThroughPoint, Rect.IsEmpty, Rect.Inside;
  }

  lemma LetsNone(t: Tracker, r: Rect, op: ClipOp)
    requires !t.cull.IsEmpty() && !LetsSome(t, r, op)
    ensures forall p :: !t.ClipRect(r, op).cull.Inside(p)
  {
    MiddleIsInside(t.cull);
    SingularHoldsNothing(t.matrix, r);
    assert forall p :: !EMPTY_RECT.Inside(p);
    hide Rect.Inside, Tracker.ClipRect, Rect.IsEmpty, Within, WithinClosed;
    match op
    case Intersect =>
      forall p
        ensures !t.ClipRect(r, op).cull.Inside(p)
      {
        IntersectionIsExact(t, r, p);
      }
    case Difference =>
      assert forall p :: t.cull.Inside(p) ==> !LetsThroughPoint(t, r, op, p);
      DifferenceIsLeast(t, r, EMPTY_RECT);
  }

  lemma SingularHoldsNothing(m: Matrix, r: Rect)
    ensures !m.IsInvertible() ==> forall p :: !WithinClosed(m, r, p)
  {
  }

  /** A list starts dead if and only if nothing lies inside its cull rectangle. */
  lemma StartIsDeadExactly(cull: Rect)
    ensures Init(cull).top.isNop <==> !exists p :: cull.Inside(p)
  {
    MiddleIsInside(cull);
  }

  /** Which clips end an entry: exactly those that are not skipped and let no point of one of
      the two cull boxes through. */
  lemma ClipEndsEntryExactly(s: BuilderState, r: Rect, op: ClipOp)
    requires !s.top.isNop && !ClipIsRedundant(s.top, r, op)
    ensures Clip(s, r, op).top.isNop <==> !(LetsSome(s.top.global, r, op) && LetsSome(s.top.layer, r, op))
  {
    ClipLeavesSome(s.top.global, r, op);
    ClipLeavesSome(s.top.layer, r, op);
    hide Tracker.ClipRect, LetsSome, ClipIsRedundant;
  }

  // ------------------------------------------------- what a drawing is bounded by

  /** Without an image filter the bounds of a drawing hold exactly the points that its mask
      filter spreads it to. */
  lemma MaskedBoundsAreExact(fx: FilterBounds, paint: Paint, flags: AttributeFlags, r: Rect, at: Point)
    requires !(flags.appliesImageFilter && paint.imageFilter.Some?) && !r.IsEmpty()
    requires paint.maskBlur.Some? ==> paint.maskBlur.value >= 0.0
    ensures var b := AdjustBoundsForPaint(fx, paint, flags, r);
      b.Some? && (b.value.Inside(at) <==> exists q :: r.Inside(q) && Blurred(paint, flags, q, at))
  {
    var b := AdjustBoundsForPaint(fx, paint, flags, r).value;
    if b.Inside(at) {
      var pad := if flags.appliesMaskFilter && paint.maskBlur.Some? then paint.maskBlur.value * 3.0 else 0.0;
      var q := Point(Nearest(r.left, r.right, at.x, pad), Nearest(r.top, r.bottom, at.y, pad));
      assert r.Inside(q) && Blurred(paint, flags, q, at);
    }
  }

  /** A point between `lo` and `hi` no further than `pad` from `x`. */
  function Nearest(lo: real, hi: real, x: real, pad: real): (q: real)
    requires lo < hi && 0.0 <= pad && lo - pad < x < hi + pad
    ensures lo < q < hi && -pad <= x - q <= pad && (pad == 0.0 ==> q == x)
  {
    if lo < x < hi then x
    else if x <= lo then (lo + Min(hi, x + pad)) / 2.0
    else (hi + Max(lo, x - pad)) / 2.0
  }

  /** With one they are what the filter answers for them. */
  lemma FilteredBoundsAreTheFilters(fx: FilterBounds, paint: Paint, flags: AttributeFlags, r: Rect)
    requires flags.appliesImageFilter && paint.imageFilter.Some?
    ensures var masked := AdjustBoundsForPaint(fx, paint.(imageFilter := None), flags, r);
      masked.Some? && AdjustBoundsForPaint(fx, paint, flags, r) == fx.mapLocal(paint.imageFilter.value, masked.value)
  {
  }

  /** The local bounds of a blur, or of a dilation, are exactly what it spreads a rectangle to. */
  lemma SpreadIsExact(k: Kind, r: Rect, p: Point)
    requires (k.Blur? || k.Dilate?) && k.radius.Valid() && !r.IsEmpty()
    ensures var out := MapLocal(k, r);
      out.Some? && (out.value.Inside(p) <==> exists q :: r.Inside(q) && ReachesLocally(k, q, p))
  {
    if MapLocal(k, r).value.Inside(p) {
      var q := Point(Nearest(r.left, r.right, p.x, k.radius.x), Nearest(r.top, r.bottom, p.y, k.radius.y));
      assert r.Inside(q) && ReachesLocally(k, q, p);
    }
  }

  /** A length that is rounded up to whole pixels. */
  predicate IsRoundedUp(length: real, to: real) {
    IsIntegral(to) && length <= to < length + 1.0
  }

  /** On the device they answer under every matrix that is not singular, and go further than
      that by less than a pixel. */
  lemma DeviceSpreadIsTight(k: Kind, r: Rect, m: Matrix)
    requires (k.Blur? || k.Dilate?) && k.radius.Valid()
    ensures MapDevice(k, r, m).Some? <==> m.IsInvertible()
    ensures m.IsInvertible() ==>
      var out, x, y := MapDevice(k, r, m).value, RadiusAlong(k.radius.x, m.sx), RadiusAlong(k.radius.y, m.sy);
      && IsRoundedUp(x, r.left - out.left) && IsRoundedUp(y, r.top - out.top)
      && IsRoundedUp(x, out.right - r.right) && IsRoundedUp(y, out.bottom - r.bottom)
  {
    FloorIsLeast(RadiusAlong(k.radius.x, m.sx));
    FloorIsLeast(RadiusAlong(k.radius.y, m.sy));
    hide RadiusAlong, Ceiling, IsIntegral;
    if m.IsInvertible() {
      assert r.left - (r.left - Ceiling(RadiusAlong(k.radius.x, m.sx))) == Ceiling(RadiusAlong(k.radius.x, m.sx));
    }
  }

  // --------------------------------------------------------------- entries

  /** A rectangle that holds the image of another one inside a box, and no other points. */
  ghost predicate IsImageInside(image: Rect, cull: Rect, m: Matrix, r: Rect) {
    forall p :: image.Inside(p) <==> cull.Inside(p) && Within(m, r, p)
  }

  ghost predicate ShowsInside(cull: Rect, m: Matrix, r: Rect) {
    exists p :: cull.Inside(p) && Within(m, r, p)
  }

  lemma ClippedImage(t: Tracker, r: Rect)
    ensures t.MapAndClip(r).Some? <==> ShowsInside(t.cull, t.matrix, r)
    ensures t.MapAndClip(r).Some? ==> IsImageInside(t.MapAndClip(r).value, t.cull, t.matrix, r)
  {
    var mapped := t.matrix.MapBounds(r);
    hide Matrix.MapBounds, Matrix.Invert, Matrix.Apply;
    forall p
      ensures Within(t.matrix, r, p) <==> mapped.Inside(p)
      ensures mapped.Intersection(t.cull).Some? && mapped.Intersection(t.cull).value.Inside(p)
         <==> mapped.Inside(p) && t.cull.Inside(p)
    {
      if t.matrix.IsInvertible() {
        MappedCovers(t.matrix, r, p);
      } else {
        SingularFlattens(t.matrix, r);
      }
      IntersectionCovers(mapped, t.cull, p);
    }
    if t.MapAndClip(r).Some? {
      var both := t.MapAndClip(r).value;
      IntersectionIsNotEmpty(mapped, t.cull);
      MiddleIsInside(both);
      hide Rect.Intersection, Within, Rect.IsEmpty;
      var p :| both.Inside(p);
      assert t.cull.Inside(p) && Within(t.matrix, r, p);
    }
  }

  lemma IntersectionIsNotEmpty(a: Rect, b: Rect)
    ensures a.Intersection(b).Some? ==> !a.Intersection(b).value.IsEmpty()
  {
  }

  /** Bounds are recorded exactly where they show in both culls; the new entry holds just
      the points where they show on the device. */
  lemma BoxEntriesAreExact(layer: LayerInfo, rtree: RTreeData, info: SaveInfo, id: nat, r: Rect)
    requires |rtree.rects| == |rtree.indices|
    ensures var acc, n := AccumulateBounds(layer, rtree, info, id, r), |rtree.rects|;
      && (acc.ok <==> ShowsInside(info.global.cull, info.global.matrix, r)
                      && ShowsInside(info.layer.cull, info.layer.matrix, r))
      && (!acc.ok ==> acc.rtree == rtree && acc.layer == layer)
      && (acc.ok ==>
            && |acc.rtree.rects| == n + 1 && acc.rtree == rtree.Add(acc.rtree.rects[n], id)
            && IsImageInside(acc.rtree.rects[n], info.global.cull, info.global.matrix, r))
  {
    ClippedImage(info.global, r);
    ClippedImage(info.layer, r);
    NothingShows(info.global, r);
    hide Tracker.MapAndClip, IsImageInside, ShowsInside, Rect.IsEmpty;
  }

  lemma NothingShows(t: Tracker, r: Rect)
    ensures r.IsEmpty() ==> !ShowsInside(t.cull, t.matrix, r)
  {
    hide Matrix.Apply, Matrix.Invert;
  }

  /** A flood that is recorded has the whole cull box as its entry. */
  lemma FloodEntriesAreExact(layer: LayerInfo, rtree: RTreeData, info: SaveInfo, id: nat)
    ensures var acc := AccumulateUnbounded(layer, rtree, info, id);
      acc.rtree == if acc.ok then rtree.Add(info.global.cull, id) else rtree
  {
    hide Tracker.MapAndClip, Tracker.LocalCullCoverage;
  }

  /** The entries that a layer's filter moved hold just what the filter answers for the
      rounded entry, inside the clip; or all of the clip if it does not answer. */
  lemma AdjustedEntriesAreExact(fx: FilterBounds, f: ImageFilter, m: Matrix, clip: Rect, r: Rect, p: Point)
    ensures var adjusted, answer := AdjustRect(fx, f, m, clip, r), fx.mapDevice(f, r.RoundOut(), m);
      adjusted.Some? && adjusted.value.Inside(p) <==> clip.Inside(p) && (answer.Some? ==> answer.value.Inside(p))
  {
    var answer := fx.mapDevice(f, r.RoundOut(), m);
    IntersectionCovers(if answer.Some? then answer.value else clip, clip, p);
    hide Rect.Intersection, Rect.RoundOut;
  }

  // ----------------------------------------------------------------- layers

  /** Where the content of a layer can reach the entry below through the layer's filter, as
      far as the filter says. */
  predicate FilterAsksFor(fx: FilterBounds, t: Tracker, filter: Option<ImageFilter>, p: Point) {
    match filter
    case None => t.cull.Inside(p)
    case Some(f) =>
      match fx.inputDevice(f, t.cull.RoundOut(), t.matrix)
      case Some(input) => input.Inside(p)
      case None => MAX_CULL_RECT.Inside(p)
  }

  ghost predicate LayerAsksFor(fx: FilterBounds, t: Tracker, filter: Option<ImageFilter>, bounds: Option<Rect>,
                               p: Point) {
    FilterAsksFor(fx, t, filter, p) && (bounds.Some? ==> Within(t.matrix, bounds.value, p))
  }

  /** A new layer culls with exactly the points that its filter asks for, inside the bounds
      of its caller; it starts with a space of its own, and no clip. */
  lemma LayerEntriesAreExact(fx: FilterBounds, s: BuilderState, filter: Option<ImageFilter>, bounds: Option<Rect>,
                             p: Point)
    ensures var e := LayerEntry(fx, s, filter, bounds);
      && (e.global.cull.Inside(p) <==> LayerAsksFor(fx, s.top.global, filter, bounds, p))
      && e.global.matrix == s.top.global.matrix
      && e.layer == Tracker(MAX_CULL_RECT, IDENTITY) && !e.isNop && !e.hasValidClip
  {
    var cull := LayerCull(fx, s.top.global, filter);
    ProtectedPoints(cull.cull, p);
    CullAsked(fx, s.top.global, filter, p);
    hide LayerCull, Within, Rect.IsEmpty, FilterAsksFor;
    if bounds.Some? {
      if cull.cull.IsEmpty() {
        MiddleIsInside(cull.cull);
        EmptyStaysEmpty(cull, bounds.value);
      } else {
        IntersectionIsExact(cull, bounds.value, p);
      }
    }
    hide Tracker.ClipRect;
  }

  lemma EmptyStaysEmpty(t: Tracker, r: Rect)
    requires t.cull.IsEmpty()
    ensures t.ClipRect(r, Intersect) == t
  {
  }

  lemma ProtectedPoints(r: Rect, p: Point)
    ensures ProtectEmpty(r).Inside(p) <==> r.Inside(p)
  {
  }

  lemma CullAsked(fx: FilterBounds, t: Tracker, filter: Option<ImageFilter>, p: Point)
    ensures LayerCull(fx, t, filter).cull.Inside(p) <==> FilterAsksFor(fx, t, filter, p)
    ensures LayerCull(fx, t, filter).matrix == t.matrix
  {
    hide Rect.RoundOut;
    forall r
      ensures ProtectEmpty(r).Inside(p) <==> r.Inside(p)
    {
      ProtectedPoints(r, p);
    }
    hide ProtectEmpty;
  }

  /** A layer with an effect floods the clip of its parent if and only if it has a backdrop,
      or its paint changes pixels where nothing was drawn into it. */
  lemma LayerFloodsExactly(paint: Paint, withPaint: bool, backdrop: Option<ImageFilter>)
    requires PaintResult(paint, SaveLayerFlags(withPaint)) != NoEffect
    ensures LayerFloods(paint, withPaint, backdrop) <==> backdrop.Some? || (withPaint && ChangesAroundIt(paint))
  {
    if withPaint {
      LayerIsDroppedExactly(paint);
      PaintNopsExactly(paint);
    }
    hide PaintNopsOnTransparency, PaintResult;
  }

  // --------------------------------------------------------- the whole calls

  /** A drawing that is recorded gets one entry, under its index: the image of its bounds
      inside the cull box, or the whole box if it floods. Otherwise the r-tree stays. */
  lemma DrawEntriesAreExact(fx: FilterBounds, s: BuilderState, d: Draw)
    requires |s.rtree.rects| == |s.rtree.indices|
    ensures var u, n := DrawOp(fx, s, d), |s.rtree.rects|;
      var t := s.top.global;
      if u.records == s.records then u.rtree == s.rtree
      else
        && |u.rtree.rects| == n + 1 && u.rtree == s.rtree.Add(u.rtree.rects[n], |s.records|)
        && match DrawBounds(fx, s, d)
           case Some(r) => IsImageInside(u.rtree.rects[n], t.cull, t.matrix, r)
           case None => u.rtree.rects[n] == t.cull
  {
    var bounds := DrawBounds(fx, s, d);
    if bounds.Some? {
      BoxEntriesAreExact(s.layer, s.rtree, s.top, |s.records|, bounds.value);
    } else {
      FloodEntriesAreExact(s.layer, s.rtree, s.top, |s.records|);
    }
    DrawnEntries(fx, s, d);
    hide AccumulateBounds, AccumulateUnbounded, AdjustBoundsForPaint, DrawOp, IsImageInside, ShowsInside;
  }

  /** A drawing that brings a paint along reads that one for its result, its bounds and its
      layer's marks; the current paint still charges the depth. */
  lemma OwnPaintDecides(fx: FilterBounds, s: BuilderState, d: Draw, other: Paint)
    requires d.own.Some?
    ensures var u, v := DrawOp(fx, s, d), DrawOp(fx, s.(paint := other), d);
      u.records == v.records && u.layer == v.layer && u.rtree == v.rtree
  {
    hide AccumulateUnbounded, AccumulateBounds, AdjustBoundsForPaint, PaintResult, IsOpacityCompatible,
      BlendMode.Rank, DepthCost;
  }

  /** And one that brings none is drawn as if it brought the current paint. */
  lemma CurrentPaintIsRead(fx: FilterBounds, s: BuilderState, d: Draw)
    requires d.own.None?
    ensures var u, v := DrawOp(fx, s, d), DrawOp(fx, s, d.(own := Some(s.paint)));
      |u.records| == |v.records| && u.layer == v.layer && u.rtree == v.rtree && u.depth == v.depth
  {
    hide AccumulateUnbounded, AccumulateBounds, AdjustBoundsForPaint, PaintResult, IsOpacityCompatible,
      BlendMode.Rank, DepthCost;
  }

  /** Which layers are dropped: without a paint none, and with one exactly those whose mode is
      kDst, or whose alpha is below half an eight-bit step while transparent pixels of theirs
      change nothing. What is dropped is still an entry, which records nothing. */
  lemma LayersAreDroppedExactly(fx: FilterBounds, s: BuilderState, bounds: Option<Rect>, withPaint: bool,
                                backdrop: Option<ImageFilter>)
    requires !s.top.isNop && 0.0 <= s.paint.color.alpha
    ensures var u, p := SaveLayer(fx, s, bounds, withPaint, backdrop), s.paint;
      u.top.isNop <==> withPaint && (p.blendMode == Dst || (p.color.alpha < 1.0 / 510.0 && !ChangesAroundIt(p)))
  {
    LayerIsDroppedExactly(s.paint);
    EightBitsAreNearest(s.paint.color);
    if s.paint.blendMode != Dst {
      PaintNopsExactly(s.paint);
    }
    hide AccumulateLayer, PaintResult, ChangesAroundIt, PaintNopsOnTransparency, IsOpacityCompatible, LayerCull,
      Tracker.ClipRect, DlColor.Alpha8;
  }

  /** The record of a new layer says what the caller asked for, and promises nothing yet. */
  predicate Announces(record: Record, bounds: Option<Rect>, withPaint: bool, backdrop: Option<ImageFilter>) {
    && record.SaveLayerRecord? && PromisesNothing(record.options)
    && record.options.rendersWithAttributes == withPaint && record.backdrop == backdrop
    && GivenBounds(record) == bounds
  }

  lemma LayersAreRecordedExactly(fx: FilterBounds, s: BuilderState, bounds: Option<Rect>, withPaint: bool,
                                 backdrop: Option<ImageFilter>)
    requires !s.top.isNop
    ensures var u, n := SaveLayer(fx, s, bounds, withPaint, backdrop), |s.records|;
      if u.top.isNop then u.records == s.records
      else |u.records| == n + 1 && u.records[..n] == s.records && Announces(u.records[n], bounds, withPaint, backdrop)
  {
    hide AccumulateLayer, PaintResult, IsOpacityCompatible, LayerCull, Tracker.ClipRect;
  }

  lemma DrawnEntries(fx: FilterBounds, s: BuilderState, d: Draw)
    ensures var u, acc := DrawOp(fx, s, d), AccumulateGeometry(fx, s, d);
      && (u.records == s.records || (acc.ok && u.rtree == acc.rtree))
      && (u.records == s.records ==> u.rtree == s.rtree || (!acc.ok && u.rtree == acc.rtree))
  {
    hide AccumulateGeometry, PaintResult, IsOpacityCompatible, BlendMode.Rank;
  }
}
