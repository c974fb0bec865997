/**
 When a layer must be marked. An account is kept of every layer: the rectangles that its
 content was bounded by, whether all of it could take an opacity, and whether something
 flooded it. In every run the builder's marks say exactly what the accounts say.
 */
module DisplayListMarking {
  import opened Options
  import opened DisplayListTypes
  import opened DisplayListPaint
  import opened DisplayListBuilderSpec
  import opened DisplayListGeometry
  import opened DisplayListCanvas
  import opened DisplayListNesting
  import opened DisplayListSummary
  import opened DisplayListOpacity

  // ------------------------------------------------------ rectangles and hulls

  predicate LeftOf(rects: seq<Rect>, x: real) {
    exists k :: 0 <= k < |rects| && rects[k].left < x
  }

  predicate RightOf(rects: seq<Rect>, x: real) {
    exists k :: 0 <= k < |rects| && x < rects[k].right
  }

  predicate Above(rects: seq<Rect>, y: real) {
    exists k :: 0 <= k < |rects| && rects[k].top < y
  }

  predicate Below(rects: seq<Rect>, y: real) {
    exists k :: 0 <= k < |rects| && y < rects[k].bottom
  }

  /** Inside the bounds of all rectangles together. */
  predicate InHull(rects: seq<Rect>, p: Point) {
    LeftOf(rects, p.x) && RightOf(rects, p.x) && Above(rects, p.y) && Below(rects, p.y)
  }

  /** A rectangle shares a point with the bounds of those before it. */
  ghost predicate Clashes(rects: seq<Rect>) {
    exists k: nat, p: Point :: ClashesAt(rects, k, p)
  }

  predicate ClashesAt(rects: seq<Rect>, k: nat, p: Point) {
    k < |rects| && rects[k].Inside(p) && InHull(rects[..k], p)
  }

  /** The accumulated bounds are those of the rectangles, side by side, and the flag says
      whether they clash. */
  ghost predicate Gathers(a: Accumulation, rects: seq<Rect>) {
    && (a.bounds.None? <==> rects == [])
    && (a.bounds.Some? ==> !a.bounds.value.IsEmpty() && HasSides(a.bounds.value, rects))
    && (a.overlaps <==> Clashes(rects))
  }

  ghost predicate HasSides(b: Rect, rects: seq<Rect>) {
    && (forall x :: b.left < x <==> LeftOf(rects, x)) && (forall x :: x < b.right <==> RightOf(rects, x))
    && (forall y :: b.top < y <==> Above(rects, y)) && (forall y :: y < b.bottom <==> Below(rects, y))
  }

  lemma GatheredPoints(a: Accumulation, rects: seq<Rect>, p: Point)
    requires Gathers(a, rects)
    ensures Holds(a, p) <==> InHull(rects, p)
  {
    hide Clashes;
    if a.bounds.Some? {
      assert HasSides(a.bounds.value, rects);
    }
  }

  lemma OneMoreSide(rects: seq<Rect>, r: Rect, x: real)
    ensures LeftOf(rects + [r], x) <==> LeftOf(rects, x) || r.left < x
    ensures RightOf(rects + [r], x) <==> RightOf(rects, x) || x < r.right
    ensures Above(rects + [r], x) <==> Above(rects, x) || r.top < x
    ensures Below(rects + [r], x) <==> Below(rects, x) || x < r.bottom
  {
    var all := rects + [r];
    assert all[|rects|] == r;
    assert forall k :: 0 <= k < |rects| ==> all[k] == rects[k];
  }

  lemma JoinedSides(b: Rect, rects: seq<Rect>, r: Rect)
    requires HasSides(b, rects)
    ensures HasSides(Rect(Min(b.left, r.left), Min(b.top, r.top), Max(b.right, r.right), Max(b.bottom, r.bottom)),
                     rects + [r])
  {
    hide LeftOf, RightOf, Above, Below;
    forall x
      ensures LeftOf(rects + [r], x) <==> LeftOf(rects, x) || r.left < x
      ensures RightOf(rects + [r], x) <==> RightOf(rects, x) || x < r.right
      ensures Above(rects + [r], x) <==> Above(rects, x) || r.top < x
      ensures Below(rects + [r], x) <==> Below(rects, x) || x < r.bottom
    {
      OneMoreSide(rects, r, x);
    }
  }

  lemma OneSides(r: Rect)
    ensures HasSides(r, [r])
  {
    forall x
      ensures (LeftOf([r], x) <==> r.left < x) && (RightOf([r], x) <==> x < r.right)
      ensures (Above([r], x) <==> r.top < x) && (Below([r], x) <==> x < r.bottom)
    {
      assert [] + [r] == [r];
      OneMoreSide([], r, x);
    }
  }

  lemma OneMoreClash(rects: seq<Rect>, r: Rect)
    ensures Clashes(rects + [r]) <==> Clashes(rects) || exists p :: r.Inside(p) && InHull(rects, p)
  {
    var all := rects + [r];
    hide Rect.Inside, InHull;
    assert all[..|rects|] == rects && all[|rects|] == r;
    if Clashes(all) {
      var k: nat, p: Point :| ClashesAt(all, k, p);
      if k < |rects| {
        assert all[..k] == rects[..k];
        assert ClashesAt(rects, k, p);
      }
    }
    if Clashes(rects) {
      var k: nat, p: Point :| ClashesAt(rects, k, p);
      assert all[..k] == rects[..k];
      assert ClashesAt(all, k, p);
    }
    if p :| r.Inside(p) && InHull(rects, p) {
      assert ClashesAt(all, |rects|, p);
    }
  }

  /** The accumulation detects an overlap exactly when the new rectangle has a point in
      common with the bounds that were accumulated. */
  lemma OverlapsExactly(a: Accumulation, r: Rect)
    requires a.bounds.Some? ==> !a.bounds.value.IsEmpty()
    ensures a.Add(r).overlaps <==> a.overlaps || exists p :: Holds(a, p) && r.Inside(p)
  {
    if a.bounds.Some? && !r.IsEmpty() {
      var b := a.bounds.value;
      var p := Point((Max(b.left, r.left) + Min(b.right, r.right)) / 2.0,
                     (Max(b.top, r.top) + Min(b.bottom, r.bottom)) / 2.0);
      if a.Add(r).overlaps && !a.overlaps {
        assert Holds(a, p) && r.Inside(p);
      }
    }
  }

  lemma GatherMore(a: Accumulation, rects: seq<Rect>, r: Rect)
    requires Gathers(a, rects) && !r.IsEmpty()
    ensures Gathers(a.Add(r), rects + [r])
  {
    OverlapsExactly(a, r);
    OneMoreClash(rects, r);
    forall p
      ensures Holds(a, p) <==> InHull(rects, p)
    {
      GatheredPoints(a, rects, p);
    }
    AddedBounds(a, rects, r);
    hide Accumulation.Add, Rect.Inside, InHull, Holds, Clashes, HasSides, Rect.IsEmpty;
  }

  lemma AddedBounds(a: Accumulation, rects: seq<Rect>, r: Rect)
    requires a.bounds.None? <==> rects == []
    requires a.bounds.Some? ==> !a.bounds.value.IsEmpty() && HasSides(a.bounds.value, rects)
    requires !r.IsEmpty()
    ensures var b := a.Add(r).bounds;
      b.Some? && !b.value.IsEmpty() && HasSides(b.value, rects + [r])
  {
    hide HasSides;
    if a.bounds.None? {
      OneSides(r);
      assert rects + [r] == [r];
    } else {
      JoinedSides(a.bounds.value, rects, r);
    }
  }

  // --------------------------------------------------------------- accounts

  /** What a layer was given so far. */
  datatype Account = Account(rects: seq<Rect>, compatible: bool, unbounded: bool)

  /** Of the open layers, outermost first, and the current one. */
  datatype Accounts = Accounts(outer: seq<Account>, top: Account)

  ghost predicate Agrees(layer: LayerInfo, a: Account) {
    && (layer.flags.opacityIncompatible <==> !a.compatible)
    && (layer.flags.isUnbounded <==> a.unbounded)
    && Gathers(layer.localBounds, a.rects)
  }

  ghost predicate AllAgree(s: BuilderState, a: Accounts) {
    && |s.outer| == |a.outer| && Agrees(s.layer, a.top)
    && (forall k :: 0 <= k < |s.outer| ==> Agrees(s.outer[k], a.outer[k]))
  }

  /** The rectangle that a flood adds, if there is something to flood. */
  function FloodRects(info: SaveInfo): seq<Rect> {
    match info.layer.MapAndClip(info.global.LocalCullCoverage())
    case Some(local) => if info.global.cull.IsEmpty() then [] else [local]
    case None => []
  }

  /** The rectangle that bounds add, if they are inside both culls. */
  function BoxRects(info: SaveInfo, r: Rect): seq<Rect> {
    var local := info.layer.MapAndClip(r);
    if !r.IsEmpty() && info.global.MapAndClip(r).Some? && local.Some? then [local.value] else []
  }

  function ListRects(info: SaveInfo, rects: seq<Rect>): seq<Rect> {
    if rects == [] then [] else ListRects(info, rects[..|rects| - 1]) + BoxRects(info, rects[|rects| - 1])
  }

  /** The rectangle that the content of a closed layer adds to the one below. */
  function ContentRects(info: SaveInfo, r: Rect): seq<Rect> {
    var local := info.layer.MapAndClip(r);
    if !r.IsEmpty() && local.Some? then [local.value] else []
  }

  /** Content with its bounds; without any it was dropped. */
  function Given(a: Account, rects: seq<Rect>, compatible: bool): Account {
    a.(rects := a.rects + rects, compatible := a.compatible && (rects == [] || compatible))
  }

  /** A flood is noted, dropped or not, unless a clip holds it. */
  function Flooded(a: Account, info: SaveInfo): Account {
    a.(unbounded := a.unbounded || !info.hasValidClip)
  }

  /** What a drawing is bounded by, after its filters; none if it floods. */
  function DrawBounds(fx: FilterBounds, s: BuilderState, d: Draw): Option<Rect> {
    match d.geometry
    case Flood => None
    case Box(r) => AdjustBoundsForPaint(fx, PaintOf(s.paint, d), d.flags, r)
  }

  function AfterDraw(fx: FilterBounds, s: BuilderState, a: Account, d: Draw): Account {
    var compatible := DrawnPart(s.paint, d, 0).Compatible();
    if ResultOf(s.top, PaintOf(s.paint, d), d.flags) == NoEffect then a
    else
      match DrawBounds(fx, s, d)
      case Some(r) => Given(a, BoxRects(s.top, r), compatible)
      case None => Given(Flooded(a, s.top), FloodRects(s.top), compatible)
  }

  function AfterList(s: BuilderState, a: Account, list: ChildList, opacity: real): Account {
    if !ListIsVisible(list, opacity) || s.top.isNop then a
    else if list.root.isUnbounded then
      Given(Flooded(a, s.top), FloodRects(s.top), list.root.canApplyGroupOpacity)
    else Given(a, ListRects(s.top, list.rects), list.root.canApplyGroupOpacity)
  }

  /** A new layer can only take an opacity if its paint can, and has no filter. */
  function AfterSaveLayer(s: BuilderState, a: Accounts, withPaint: bool, backdrop: Option<ImageFilter>): Accounts {
    var plain := !withPaint || IsOpacityCompatible(s.paint);
    if ResultOf(s.top, s.paint, SaveLayerFlags(withPaint)) == NoEffect then a
    else
      var below := a.top.(compatible := a.top.compatible && plain);
      Accounts(a.outer + [if LayerFloods(s.paint, withPaint, backdrop) then
                            Given(Flooded(below, s.top), FloodRects(s.top), true) else below],
               Account([], plain && LayerFilter(s.paint, withPaint).None?, false))
  }

  /** A filter has no answer for one of the rectangles from `start` on, rounded out. */
  predicate LeavesOpen(fx: FilterBounds, f: ImageFilter, m: Matrix, rects: seq<Rect>, start: nat) {
    exists k :: start <= k < |rects| && fx.mapDevice(f, rects[k].RoundOut(), m) == None
  }

  lemma FloodsWhatIsOpen(fx: FilterBounds, f: ImageFilter, m: Matrix, data: RTreeData, start: nat)
    ensures AnyRectFloods(fx, f, m, data, start) <==> LeavesOpen(fx, f, m, data.rects, start)
  {
    hide Rect.RoundOut;
  }

  /** Whether a closing layer floods the one below, because its filter cannot bound it. */
  predicate ClosesFlooding(fx: FilterBounds, s: BuilderState, f: ImageFilter, content: Rect)
    requires s.below != []
  {
    var parent := s.below[|s.below| - 1];
    || LeavesOpen(fx, f, parent.global.matrix, s.rtree.rects, s.layer.rtreeStart)
    || (!content.IsEmpty() && fx.mapLocal(f, content).None?)
  }

  function AfterClose(fx: FilterBounds, s: BuilderState, a: Account, content: Rect): Account
    requires s.below != []
  {
    var parent := s.below[|s.below| - 1];
    match s.layer.filter
    case None => Given(a, ContentRects(parent, content), true)
    case Some(f) =>
      if !CanAdjust(s.rtree, s.layer.rtreeStart) then a
      else if ClosesFlooding(fx, s, f, content) then Given(Flooded(a, parent), FloodRects(parent), true)
      else if content.IsEmpty() then a
      else Given(a, ContentRects(parent, fx.mapLocal(f, content).value), true)
  }

  /** A layer that is closed, and not just a save. */
  predicate ClosesLayer(s: BuilderState) {
    s.below != [] && !s.top.mark.deferred && s.top.mark.isSaveLayer && NamesItsSave(s) && s.outer != []
  }

  function AfterRestore(fx: FilterBounds, s: BuilderState, a: Accounts): Accounts {
    if !ClosesLayer(s) || a.outer == [] then a
    else
      var n := |a.outer| - 1;
      var content := ContentBounds(s.layer, s.records[s.top.mark.saveOffset]);
      Accounts(a.outer[..n], AfterClose(fx, s, a.outer[n], content))
  }

  function AfterRestores(fx: FilterBounds, s: BuilderState, a: Accounts, count: int): Accounts
    decreases |s.below|
  {
    if s.below == [] || |s.below| + 1 <= count then a
    else AfterRestores(fx, Restore(fx, s), AfterRestore(fx, s, a), count)
  }

  function AccountsAfter(fx: FilterBounds, s: BuilderState, a: Accounts, call: Call): Accounts {
    match call
    case DrawCall(d) => a.(top := AfterDraw(fx, s, a.top, d))
    case DrawListCall(list, opacity) => a.(top := AfterList(s, a.top, list, opacity))
    case SaveLayerCall(_, withPaint, backdrop) => AfterSaveLayer(s, a, withPaint, backdrop)
    case RestoreCall => AfterRestore(fx, s, a)
    case RestoreToCountCall(count) => AfterRestores(fx, s, a, count)
    case _ => a
  }

  function AccountsOf(fx: FilterBounds, cull: Rect, calls: seq<Call>): Accounts {
    if calls == [] then Accounts([], Account([], true, false))
    else
      var init := calls[..|calls| - 1];
      AccountsAfter(fx, Run(fx, cull, init), AccountsOf(fx, cull, init), calls[|calls| - 1])
  }

  // ------------------------------------------------------------ small steps

  lemma ClippedIsNotEmpty(t: Tracker, r: Rect)
    ensures t.MapAndClip(r).Some? ==> !t.MapAndClip(r).value.IsEmpty()
  {
    hide Matrix.MapBounds;
  }

  lemma GivenNothing(layer: LayerInfo, a: Account, compatible: bool)
    requires Agrees(layer, a)
    ensures Agrees(layer, Given(a, [], compatible))
  {
    assert a.rects + [] == a.rects;
  }

  lemma GivenOne(layer: LayerInfo, a: Account, r: Rect, compatible: bool)
    requires Agrees(layer, a) && !r.IsEmpty()
    ensures Agrees(layer.AddLocal(r).UpdateOpacityCompatibility(compatible), Given(a, [r], compatible))
  {
    GatherMore(layer.localBounds, a.rects, r);
    hide Gathers, Accumulation.Add;
  }

  lemma FloodAgrees(layer: LayerInfo, rtree: RTreeData, info: SaveInfo, id: nat, a: Account, compatible: bool)
    requires Agrees(layer, a)
    ensures var acc := AccumulateUnbounded(layer, rtree, info, id);
      && acc.ok == (FloodRects(info) != [])
      && Agrees(if acc.ok then acc.layer.UpdateOpacityCompatibility(compatible) else acc.layer,
                Given(Flooded(a, info), FloodRects(info), compatible))
  {
    var marked, flooded := layer.MarkUnbounded(!info.hasValidClip), Flooded(a, info);
    assert Agrees(marked, flooded);
    ClippedIsNotEmpty(info.layer, info.global.LocalCullCoverage());
    hide Agrees, Tracker.MapAndClip, Tracker.LocalCullCoverage, Rect.IsEmpty, Given, Flooded;
    if FloodRects(info) == [] {
      GivenNothing(marked, flooded, compatible);
    } else {
      GivenOne(marked, flooded, FloodRects(info)[0], compatible);
    }
  }

  lemma BoxAgrees(layer: LayerInfo, rtree: RTreeData, info: SaveInfo, id: nat, r: Rect, a: Account, compatible: bool)
    requires Agrees(layer, a)
    ensures var acc := AccumulateBounds(layer, rtree, info, id, r);
      && acc.ok == (BoxRects(info, r) != [])
      && Agrees(if acc.ok then acc.layer.UpdateOpacityCompatibility(compatible) else acc.layer,
                Given(a, BoxRects(info, r), compatible))
  {
    ClippedIsNotEmpty(info.layer, r);
    hide Agrees, Tracker.MapAndClip, Rect.IsEmpty, Given;
    if BoxRects(info, r) == [] {
      GivenNothing(layer, a, compatible);
    } else {
      GivenOne(layer, a, BoxRects(info, r)[0], compatible);
    }
  }

  lemma ContentAgrees(layer: LayerInfo, info: SaveInfo, r: Rect, a: Account)
    requires Agrees(layer, a)
    ensures Agrees(AccumulateBoundsLocal(layer, info, r), Given(a, ContentRects(info, r), true))
  {
    ClippedIsNotEmpty(info.layer, r);
    hide Agrees, Tracker.MapAndClip, Rect.IsEmpty, Given, LayerInfo.AddLocal;
    if ContentRects(info, r) == [] {
      GivenNothing(layer, a, true);
    } else {
      GivenOne(layer, a, ContentRects(info, r)[0], true);
      assert layer.AddLocal(ContentRects(info, r)[0]).UpdateOpacityCompatibility(true)
          == layer.AddLocal(ContentRects(info, r)[0]);
    }
  }

  /** Only these fields of a layer are accounted for. */
  lemma SameAccount(a: LayerInfo, b: LayerInfo, account: Account)
    requires Agrees(a, account) && a.localBounds == b.localBounds
    requires a.flags.opacityIncompatible == b.flags.opacityIncompatible && a.flags.isUnbounded == b.flags.isUnbounded
    ensures Agrees(b, account)
  {
  }

  // ------------------------------------------------------------ drawings

  /** The builder takes a drawing for compatible if and only if it is drawn in one go, and
      with a paint that takes an opacity if it is blended. */
  lemma PartIsCompatible(current: Paint, d: Draw)
    ensures DrawIsOpacityCompatible(current, d) <==> DrawnPart(current, d, 0).Compatible()
  {
    hide IsOpacityCompatible;
  }

  lemma GeometryAgrees(fx: FilterBounds, s: BuilderState, a: Account, d: Draw)
    requires Agrees(s.layer, a) && ResultOf(s.top, PaintOf(s.paint, d), d.flags) != NoEffect
    ensures var acc := AccumulateGeometry(fx, s, d);
      var compatible := DrawIsOpacityCompatible(s.paint, d);
      Agrees(if acc.ok then acc.layer.UpdateOpacityCompatibility(compatible) else acc.layer, AfterDraw(fx, s, a, d))
  {
    var compatible := DrawIsOpacityCompatible(s.paint, d);
    PartIsCompatible(s.paint, d);
    hide Agrees, AccumulateUnbounded, AccumulateBounds, AdjustBoundsForPaint, Given, Flooded, FloodRects, BoxRects,
      PaintResult, DrawIsOpacityCompatible, DrawnPart, Part.Compatible;
    match DrawBounds(fx, s, d)
    case Some(r) => BoxAgrees(s.layer, s.rtree, s.top, |s.records|, r, a, compatible);
    case None => FloodAgrees(s.layer, s.rtree, s.top, |s.records|, a, compatible);
  }

  lemma DrawAgrees(fx: FilterBounds, s: BuilderState, a: Account, d: Draw)
    requires Agrees(s.layer, a)
    ensures Agrees(DrawOp(fx, s, d).layer, AfterDraw(fx, s, a, d)) && DrawOp(fx, s, d).outer == s.outer
  {
    if ResultOf(s.top, PaintOf(s.paint, d), d.flags) != NoEffect {
      GeometryAgrees(fx, s, a, d);
      DrawnLayers(fx, s, d);
      var acc := AccumulateGeometry(fx, s, d);
      var compatible := DrawIsOpacityCompatible(s.paint, d);
      SameAccount(if acc.ok then acc.layer.UpdateOpacityCompatibility(compatible) else acc.layer,
                  DrawOp(fx, s, d).layer, AfterDraw(fx, s, a, d));
    }
    hide Agrees, AccumulateGeometry, PaintResult, IsOpacityCompatible, DrawBounds;
  }

  lemma DrawnLayers(fx: FilterBounds, s: BuilderState, d: Draw)
    requires ResultOf(s.top, PaintOf(s.paint, d), d.flags) != NoEffect
    ensures var acc, after := AccumulateGeometry(fx, s, d), DrawOp(fx, s, d).layer;
      var compatible := DrawIsOpacityCompatible(s.paint, d);
      var flagged := if acc.ok then acc.layer.UpdateOpacityCompatibility(compatible) else acc.layer;
      after.localBounds == flagged.localBounds && after.flags.opacityIncompatible == flagged.flags.opacityIncompatible
        && after.flags.isUnbounded == flagged.flags.isUnbounded
  {
    hide AccumulateGeometry, PaintResult, IsOpacityCompatible, BlendMode.Rank;
  }

  // ---------------------------------------------------------- child lists

  lemma GivenTwice(a: Account, some: seq<Rect>, more: seq<Rect>)
    ensures Given(Given(a, some, true), more, true) == Given(a, some + more, true)
  {
  }

  lemma {:induction false} RectsAgree(layer: LayerInfo, rtree: RTreeData, info: SaveInfo, id: nat, rects: seq<Rect>,
                                      a: Account)
    requires Agrees(layer, a)
    ensures var acc := AccumulateRects(layer, rtree, info, id, rects);
      acc.ok == (ListRects(info, rects) != []) && Agrees(acc.layer, Given(a, ListRects(info, rects), true))
  {
    hide Agrees, AccumulateBounds, BoxRects, Given;
    if rects == [] {
      GivenNothing(layer, a, true);
    } else {
      var init, last := rects[..|rects| - 1], rects[|rects| - 1];
      RectsAgree(layer, rtree, info, id, init, a);
      var before := AccumulateRects(layer, rtree, info, id, init);
      BoxAgrees(before.layer, before.rtree, info, id, last, Given(a, ListRects(info, init), true), true);
      GivenTwice(a, ListRects(info, init), BoxRects(info, last));
      UpdatedPlainly(AccumulateBounds(before.layer, before.rtree, info, id, last).layer);
    }
  }

  lemma UpdatedPlainly(layer: LayerInfo)
    ensures layer.UpdateOpacityCompatibility(true) == layer
  {
  }

  /** The verdict on something that added bounds. */
  lemma JudgedAgrees(layer: LayerInfo, a: Account, rects: seq<Rect>, compatible: bool)
    requires Agrees(layer, Given(a, rects, true)) && rects != []
    ensures Agrees(layer.UpdateOpacityCompatibility(compatible), Given(a, rects, compatible))
  {
    hide Gathers;
  }

  lemma ListAgrees(s: BuilderState, a: Account, list: ChildList, opacity: real)
    requires Agrees(s.layer, a)
    ensures Agrees(DrawDisplayList(s, list, opacity).layer, AfterList(s, a, list, opacity))
    ensures DrawDisplayList(s, list, opacity).outer == s.outer
  {
    if ListIsVisible(list, opacity) && !s.top.isNop {
      var id := |s.records|;
      if list.root.isUnbounded {
        FloodAgrees(s.layer, s.rtree, s.top, id, a, list.root.canApplyGroupOpacity);
      } else {
        RectsAgree(s.layer, s.rtree, s.top, id, list.rects, a);
        RectsJudged(s, a, list);
      }
      ListedAgrees(s, a, list, opacity);
    }
    hide *;
    ListKeepsOuter(s, list, opacity);
  }

  lemma ListKeepsOuter(s: BuilderState, list: ChildList, opacity: real)
    ensures DrawDisplayList(s, list, opacity).outer == s.outer
    ensures !ListIsVisible(list, opacity) || s.top.isNop ==>
      DrawDisplayList(s, list, opacity) == s && forall a :: AfterList(s, a, list, opacity) == a
  {
    hide AccumulateUnbounded, AccumulateRects, ListIsVisible;
  }

  lemma RectsJudged(s: BuilderState, a: Account, list: ChildList)
    requires var acc := AccumulateRects(s.layer, s.rtree, s.top, |s.records|, list.rects);
      && acc.ok == (ListRects(s.top, list.rects) != [])
      && Agrees(acc.layer, Given(a, ListRects(s.top, list.rects), true))
    ensures var acc := AccumulateRects(s.layer, s.rtree, s.top, |s.records|, list.rects);
      Agrees(if acc.ok then acc.layer.UpdateOpacityCompatibility(list.root.canApplyGroupOpacity) else acc.layer,
             Given(a, ListRects(s.top, list.rects), list.root.canApplyGroupOpacity))
  {
    var acc, rects := AccumulateRects(s.layer, s.rtree, s.top, |s.records|, list.rects), ListRects(s.top, list.rects);
    if rects != [] {
      JudgedAgrees(acc.layer, a, rects, list.root.canApplyGroupOpacity);
    }
    hide Agrees, AccumulateRects, ListRects;
  }

  lemma ListedAgrees(s: BuilderState, a: Account, list: ChildList, opacity: real)
    requires ListIsVisible(list, opacity) && !s.top.isNop
    requires var acc := if list.root.isUnbounded then AccumulateUnbounded(s.layer, s.rtree, s.top, |s.records|)
                        else AccumulateRects(s.layer, s.rtree, s.top, |s.records|, list.rects);
      Agrees(if acc.ok then acc.layer.UpdateOpacityCompatibility(list.root.canApplyGroupOpacity) else acc.layer,
             AfterList(s, a, list, opacity))
    ensures Agrees(DrawDisplayList(s, list, opacity).layer, AfterList(s, a, list, opacity))
  {
    var acc := if list.root.isUnbounded then AccumulateUnbounded(s.layer, s.rtree, s.top, |s.records|)
               else AccumulateRects(s.layer, s.rtree, s.top, |s.records|, list.rects);
    hide AccumulateUnbounded, AccumulateRects, ListIsVisible, AfterList, BlendMode.Rank, Gathers;
    SameAccount(if acc.ok then acc.layer.UpdateOpacityCompatibility(list.root.canApplyGroupOpacity) else acc.layer,
                DrawDisplayList(s, list, opacity).layer, AfterList(s, a, list, opacity));
  }

  // ---------------------------------------------------------------- layers

  lemma EmptyAgrees(filter: Option<ImageFilter>, start: nat, compatible: bool)
    ensures Agrees(NewLayer(filter, start).UpdateOpacityCompatibility(compatible), Account([], compatible, false))
  {
    assert forall k: nat, p: Point :: !ClashesAt([], k, p);
  }

  lemma OuterAgrees(s: BuilderState, a: Account, withPaint: bool, backdrop: Option<ImageFilter>)
    requires Agrees(s.layer, a)
    ensures var below := a.(compatible := a.compatible && (!withPaint || IsOpacityCompatible(s.paint)));
      Agrees(AccumulateLayer(s, withPaint, backdrop).layer,
             if LayerFloods(s.paint, withPaint, backdrop) then Given(Flooded(below, s.top), FloodRects(s.top), true)
             else below)
  {
    var plain := !withPaint || IsOpacityCompatible(s.paint);
    var below := a.(compatible := a.compatible && plain);
    var layer := s.layer.MarkBackdrop(backdrop.Some?).UpdateOpacityCompatibility(plain)
                        .UpdateResult(PaintResult(s.paint, SaveLayerFlags(withPaint)), BlendModeOf(s.paint, withPaint));
    hide Gathers, PaintResult, IsOpacityCompatible, BlendMode.Rank, LayerFloods, AccumulateUnbounded;
    assert Agrees(layer, below);
    hide Agrees, LayerInfo.MarkBackdrop, LayerInfo.UpdateOpacityCompatibility, LayerInfo.UpdateResult;
    FloodAgrees(layer, s.rtree, s.top, |s.records|, below, true);
    UpdatedPlainly(AccumulateUnbounded(layer, s.rtree, s.top, |s.records|).layer);
  }

  lemma EnteredLayers(fx: FilterBounds, s: BuilderState, bounds: Option<Rect>, withPaint: bool,
                      backdrop: Option<ImageFilter>)
    ensures var u := SaveLayer(fx, s, bounds, withPaint, backdrop);
      if ResultOf(s.top, s.paint, SaveLayerFlags(withPaint)) == NoEffect then u.layer == s.layer && u.outer == s.outer
      else
        var acc, filter := AccumulateLayer(s, withPaint, backdrop), LayerFilter(s.paint, withPaint);
        && u.outer == s.outer + [acc.layer]
        && u.layer == NewLayer(filter, |acc.rtree.rects|)
                        .UpdateOpacityCompatibility(!withPaint || (IsOpacityCompatible(s.paint) && filter.None?))
  {
    hide PaintResult, IsOpacityCompatible, AccumulateLayer, LayerEntry, NewLayer, LayerInfo.UpdateOpacityCompatibility;
  }

  lemma SaveLayerAgrees(fx: FilterBounds, s: BuilderState, a: Accounts, bounds: Option<Rect>, withPaint: bool,
                        backdrop: Option<ImageFilter>)
    requires AllAgree(s, a)
    ensures AllAgree(SaveLayer(fx, s, bounds, withPaint, backdrop), AfterSaveLayer(s, a, withPaint, backdrop))
  {
    OuterAgrees(s, a.top, withPaint, backdrop);
    EnteredLayers(fx, s, bounds, withPaint, backdrop);
    var filter := LayerFilter(s.paint, withPaint);
    EmptyAgrees(filter, |AccumulateLayer(s, withPaint, backdrop).rtree.rects|,
                !withPaint || (IsOpacityCompatible(s.paint) && filter.None?));
    hide Agrees, ResultOf, IsOpacityCompatible, LayerFloods, AccumulateLayer, SaveLayer, FloodRects, Given, Flooded,
      NewLayer, LayerInfo.UpdateOpacityCompatibility;
  }

  // --------------------------------------------------------------- restores

  lemma ClosedAgrees(fx: FilterBounds, s: BuilderState, a: Account, parentLayer: LayerInfo, id: nat, content: Rect)
    requires s.below != [] && Agrees(parentLayer, a)
    ensures Agrees(TransferLayerBounds(fx, s.layer, s.rtree, s.below[|s.below| - 1], parentLayer, id, content).layer,
                   AfterClose(fx, s, a, content))
  {
    var parent := s.below[|s.below| - 1];
    hide Agrees, AnyRectFloods, AdjustRTreeRects, AccumulateUnbounded, AccumulateBoundsLocal, ContentRects, FloodRects,
      Given, Flooded;
    match s.layer.filter {
      case None => ContentAgrees(parentLayer, parent, content, a);
      case Some(f) =>
        if CanAdjust(s.rtree, s.layer.rtreeStart) {
          ClosedThroughFilter(fx, s, a, parentLayer, id, content, f);
        }
    }
  }

  lemma NothingLocal(layer: LayerInfo, info: SaveInfo, r: Rect)
    requires r.IsEmpty()
    ensures AccumulateBoundsLocal(layer, info, r) == layer
  {
  }

  lemma ClosedThroughFilter(fx: FilterBounds, s: BuilderState, a: Account, parentLayer: LayerInfo, id: nat,
                            content: Rect, f: ImageFilter)
    requires s.below != [] && Agrees(parentLayer, a)
    requires s.layer.filter == Some(f) && CanAdjust(s.rtree, s.layer.rtreeStart)
    ensures Agrees(TransferLayerBounds(fx, s.layer, s.rtree, s.below[|s.below| - 1], parentLayer, id, content).layer,
                   AfterClose(fx, s, a, content))
  {
    var parent := s.below[|s.below| - 1];
    var adjusted := AdjustRTreeRects(fx, f, parent.global.matrix, parent.global.cull, s.rtree, s.layer.rtreeStart,
                                     |s.rtree.rects|);
    FloodsWhatIsOpen(fx, f, parent.global.matrix, s.rtree, s.layer.rtreeStart);
    hide Agrees, AnyRectFloods, LeavesOpen, AdjustRTreeRects, AccumulateUnbounded, AccumulateBoundsLocal,
      ContentRects, FloodRects, Given, Flooded, Rect.IsEmpty;
    if ClosesFlooding(fx, s, f, content) {
      FloodAgrees(parentLayer, adjusted, parent, id, a, true);
      UpdatedPlainly(AccumulateUnbounded(parentLayer, adjusted, parent, id).layer);
    } else if content.IsEmpty() {
      NothingLocal(parentLayer, parent, content);
    } else {
      ContentAgrees(parentLayer, parent, fx.mapLocal(f, content).value, a);
    }
  }

  lemma ContentOfPatched(layer: LayerInfo, record: Record, restoreIndex: nat, contentDepth: int)
    requires record.SaveLayerRecord?
    ensures ContentBounds(layer, PatchSave(record, restoreIndex, contentDepth)) == ContentBounds(layer, record)
  {
    hide Rect.Contains, Rect.IntersectionOrEmpty;
  }

  lemma RestoredLayers(fx: FilterBounds, s: BuilderState)
    ensures var u := Restore(fx, s);
      if ClosesLayer(s) then
        var n, k := |s.outer| - 1, s.top.mark.saveOffset;
        && u.outer == s.outer[..n]
        && u.layer == TransferLayerBounds(fx, s.layer, s.rtree, s.below[|s.below| - 1], s.outer[n], |s.records|,
                                          ContentBounds(s.layer, s.records[k])).layer
      else u.outer == s.outer && u.layer == s.layer
  {
    if ClosesLayer(s) {
      ContentOfPatched(s.layer, s.records[s.top.mark.saveOffset], |s.records|, s.depth - s.top.mark.saveDepth);
    }
    hide TransferLayerBounds, SettledLayer, ContentBounds, DepthCost;
  }

  lemma RestoreAgrees(fx: FilterBounds, s: BuilderState, a: Accounts)
    requires AllAgree(s, a)
    ensures AllAgree(Restore(fx, s), AfterRestore(fx, s, a))
  {
    RestoredLayers(fx, s);
    if ClosesLayer(s) {
      var n := |s.outer| - 1;
      ClosedAgrees(fx, s, a.outer[n], s.outer[n], |s.records|,
                   ContentBounds(s.layer, s.records[s.top.mark.saveOffset]));
    }
    hide Agrees, Restore, TransferLayerBounds, AfterClose, ContentBounds;
  }

  lemma {:induction false} RestoresAgree(fx: FilterBounds, s: BuilderState, a: Accounts, count: int)
    requires AllAgree(s, a)
    ensures AllAgree(RestoreToCount(fx, s, count), AfterRestores(fx, s, a, count))
    decreases |s.below|
  {
    if s.below != [] && |s.below| + 1 > count {
      hide AllAgree, Restore, AfterRestore;
      RestoreAgrees(fx, s, a);
      RestoreShrinks(fx, s);
      RestoresAgree(fx, Restore(fx, s), AfterRestore(fx, s, a), count);
    }
  }

  // ------------------------------------------------------------------- runs

  lemma OthersKeepLayers(fx: FilterBounds, s: BuilderState, call: Call)
    requires call.SetAttributeCall? || call.SaveCall? || call.TransformCall? || call.ClipCall?
    ensures Step(fx, s, call).layer == s.layer && Step(fx, s, call).outer == s.outer
  {
    hide Transformed, ChangesMatrix, Clipped, ClipIsRedundant, CullIsEmpty, Attribute.ApplyTo;
  }

  lemma StepAgrees(fx: FilterBounds, s: BuilderState, a: Accounts, call: Call)
    requires AllAgree(s, a)
    ensures AllAgree(Step(fx, s, call), AccountsAfter(fx, s, a, call))
  {
    hide Agrees, DrawOp, DrawDisplayList, SaveLayer, Restore, RestoreToCount, AfterDraw, AfterList, AfterSaveLayer,
      AfterRestore, AfterRestores, SetAttribute, Save, Transform, Clip;
    match call
    case DrawCall(d) => DrawAgrees(fx, s, a.top, d);
    case DrawListCall(list, opacity) => ListAgrees(s, a.top, list, opacity);
    case SaveLayerCall(bounds, withPaint, backdrop) => SaveLayerAgrees(fx, s, a, bounds, withPaint, backdrop);
    case RestoreCall => RestoreAgrees(fx, s, a);
    case RestoreToCountCall(count) => RestoresAgree(fx, s, a, count);
    case _ => OthersKeepLayers(fx, s, call);
  }

  lemma InitAgrees(cull: Rect)
    ensures AllAgree(Init(cull), Accounts([], Account([], true, false)))
  {
    EmptyAgrees(None, 0, true);
  }

  lemma {:induction false} RunAgrees(fx: FilterBounds, cull: Rect, calls: seq<Call>)
    ensures AllAgree(Run(fx, cull, calls), AccountsOf(fx, cull, calls))
  {
    hide AllAgree, Step, AccountsAfter, Init;
    if calls == [] {
      InitAgrees(cull);
    } else {
      var init := calls[..|calls| - 1];
      RunAgrees(fx, cull, init);
      StepAgrees(fx, Run(fx, cull, init), AccountsOf(fx, cull, init), calls[|calls| - 1]);
    }
  }

  // ---------------------------------------------------------------- the marks

  /** All content can take an opacity, and no part of it meets the bounds of what came before. */
  ghost predicate SharesNoPoint(a: Account) {
    a.compatible && !Clashes(a.rects)
  }

  /** Some of the content is outside of the bounds that the caller gave. */
  ghost predicate SticksOut(rects: seq<Rect>, given: Option<Rect>) {
    given.Some? && exists p :: InHull(rects, p) && !given.value.Inside(p)
  }

  /** The bounds hold the points of the content that the caller's bounds let through. */
  ghost predicate HoldsContent(bounds: Rect, rects: seq<Rect>, given: Option<Rect>) {
    forall p :: bounds.Inside(p) <==> InHull(rects, p) && (given.Some? ==> given.value.Inside(p))
  }

  /** The record of a closing layer against its account: whether it distributes opacity,
      whether something flooded it, whether its caller's bounds clip its content, and which
      points its bounds hold. */
  ghost predicate SaysWhatIsIn(record: Record, given: Option<Rect>, a: Account)
    requires record.SaveLayerRecord?
  {
    && (record.options.canDistributeOpacity <==> SharesNoPoint(a))
    && (record.options.contentIsUnbounded <==> a.unbounded)
    && (record.options.contentIsClipped <==> SticksOut(a.rects, given))
    && HoldsContent(record.bounds, a.rects, given)
  }

  function GivenBounds(record: Record): Option<Rect>
    requires record.SaveLayerRecord?
  {
    if record.options.boundsFromCaller then Some(record.bounds) else None
  }

  lemma EmptyHullHoldsNothing(a: Accumulation, rects: seq<Rect>, p: Point)
    requires Gathers(a, rects)
    ensures a.GetBounds().Inside(p) <==> InHull(rects, p)
    ensures a.GetBounds().IsEmpty() <==> rects == []
  {
    GatheredPoints(a, rects, p);
    hide Clashes, HasSides;
    if rects == [] {
      assert !LeftOf(rects, p.x);
    }
  }

  lemma CutContent(layer: LayerInfo, record: Record, a: Account)
    requires record.SaveLayerRecord? && Agrees(layer, a)
    ensures ContentIsClipped(layer, record) <==> SticksOut(a.rects, GivenBounds(record))
    ensures HoldsContent(ContentBounds(layer, record), a.rects, GivenBounds(record))
  {
    var content := layer.localBounds.GetBounds();
    hide Gathers, InHull;
    forall p
      ensures content.Inside(p) <==> InHull(a.rects, p)
    {
      EmptyHullHoldsNothing(layer.localBounds, a.rects, p);
    }
    if !content.IsEmpty() {
      ContainsExactly(record.bounds, content);
    }
    forall p
      ensures content.IntersectionOrEmpty(record.bounds).Inside(p) <==> content.Inside(p) && record.bounds.Inside(p)
    {
      BothInside(content, record.bounds, p);
    }
    EmptyHasNoPoint(content);
    hide Accumulation.GetBounds, Rect.Inside, Rect.Contains, Rect.IntersectionOrEmpty, Rect.IsEmpty;
  }

  lemma EmptyHasNoPoint(r: Rect)
    ensures r.IsEmpty() ==> forall p :: !r.Inside(p)
  {
  }

  lemma BothInside(a: Rect, b: Rect, p: Point)
    ensures a.IntersectionOrEmpty(b).Inside(p) <==> a.Inside(p) && b.Inside(p)
  {
  }

  /** The record that the restore writes for the layer it closes. */
  lemma SettledRecord(fx: FilterBounds, s: BuilderState)
    requires ClosesLayer(s)
    ensures var k := s.top.mark.saveOffset;
      var built, before := Restore(fx, s).records, s.records[k];
      && k < |built| && built[k].SaveLayerRecord? && built[k].bounds == ContentBounds(s.layer, before)
      && var options := built[k].options;
      && options.canDistributeOpacity == (before.options.canDistributeOpacity || s.layer.IsGroupOpacityCompatible())
      && options.contentIsClipped == (before.options.contentIsClipped || ContentIsClipped(s.layer, before))
      && options.contentIsUnbounded == (before.options.contentIsUnbounded || s.layer.flags.isUnbounded)
  {
    ContentOfPatched(s.layer, s.records[s.top.mark.saveOffset], |s.records|, s.depth - s.top.mark.saveDepth);
    ClippedOfPatched(s.layer, s.records[s.top.mark.saveOffset], |s.records|, s.depth - s.top.mark.saveDepth);
    hide TransferLayerBounds, ContentBounds, ContentIsClipped, DepthCost, LayerInfo.IsGroupOpacityCompatible;
  }

  lemma ClippedOfPatched(layer: LayerInfo, record: Record, restoreIndex: nat, contentDepth: int)
    requires record.SaveLayerRecord?
    ensures ContentIsClipped(layer, PatchSave(record, restoreIndex, contentDepth)) == ContentIsClipped(layer, record)
  {
    hide Rect.Contains, Accumulation.GetBounds;
  }

  lemma OpenPromisesNothing(fx: FilterBounds, cull: Rect, calls: seq<Call>)
    ensures var s := Run(fx, cull, calls);
      ClosesLayer(s) ==> s.records[s.top.mark.saveOffset].SaveLayerRecord?
                         && PromisesNothing(s.records[s.top.mark.saveOffset].options)
  {
    RunIsSummarized(fx, cull, calls);
    var s := Run(fx, cull, calls);
    assert s.below != [] ==> Unsettled(s.records, s.top.mark);
    hide Run, Summarized;
  }

  lemma TopAgrees(s: BuilderState, a: Accounts)
    requires AllAgree(s, a)
    ensures Agrees(s.layer, a.top)
  {
  }

  /** In every run: the record of a layer that is closed is marked `can_distribute_opacity` if
      and only if all its content can take an opacity and each rectangle that was added
      shares no point with the bounds of those before. And its other marks say what is in. */
  lemma LayersAreMarkedExactly(fx: FilterBounds, cull: Rect, calls: seq<Call>)
    requires ClosesLayer(Run(fx, cull, calls))
    ensures var s := Run(fx, cull, calls);
      var built, k := Restore(fx, s).records, s.top.mark.saveOffset;
      && k < |built| && built[k].SaveLayerRecord?
      && SaysWhatIsIn(built[k], GivenBounds(s.records[k]), AccountsOf(fx, cull, calls).top)
  {
    var s, a := Run(fx, cull, calls), AccountsOf(fx, cull, calls).top;
    RunAgrees(fx, cull, calls);
    TopAgrees(s, AccountsOf(fx, cull, calls));
    OpenPromisesNothing(fx, cull, calls);
    SettledRecord(fx, s);
    CutContent(s.layer, s.records[s.top.mark.saveOffset], a);
    hide Run, AccountsOf, Restore, Gathers, ContentBounds, ContentIsClipped, InHull, Rect.Inside;
    MarkedByAccount(s.layer, a);
  }

  lemma MarkedByAccount(layer: LayerInfo, a: Account)
    requires Agrees(layer, a)
    ensures layer.IsGroupOpacityCompatible() <==> SharesNoPoint(a)
    ensures layer.flags.isUnbounded <==> a.unbounded
  {
    hide HasSides, Clashes;
  }

  /** The account of a whole list, when all its layers are closed. */
  function FinishedAccount(fx: FilterBounds, cull: Rect, calls: seq<Call>): Account {
    AfterRestores(fx, Run(fx, cull, calls), AccountsOf(fx, cull, calls), 1).top
  }

  /** The same for the root of every list. */
  lemma RootsAreMarkedExactly(fx: FilterBounds, cull: Rect, calls: seq<Call>)
    ensures var root, a := Packed(Finished(fx, cull, calls)).root, FinishedAccount(fx, cull, calls);
      && (root.canApplyGroupOpacity <==> SharesNoPoint(a))
      && (root.isUnbounded <==> a.unbounded)
  {
    var s, a := Run(fx, cull, calls), AccountsOf(fx, cull, calls);
    RunAgrees(fx, cull, calls);
    RestoresAgree(fx, s, a, 1);
    hide Run, AccountsOf, RestoreToCount, AfterRestores, AllAgree, Agrees, LayerInfo.IsGroupOpacityCompatible,
      SharesNoPoint;
    TopAgrees(Finished(fx, cull, calls), AfterRestores(fx, s, a, 1));
    MarkedByAccount(Finished(fx, cull, calls).layer, FinishedAccount(fx, cull, calls));
  }

  // --------------------------------------------------------- lists of boxes

  function PlainBox(r: Rect): Call {
    DrawCall(Draw(0, Box(r), 1, DRAW_FLAGS, None, false, false))
  }

  function PlainBoxes(rects: seq<Rect>): seq<Call> {
    if rects == [] then [] else PlainBoxes(rects[..|rects| - 1]) + [PlainBox(rects[|rects| - 1])]
  }

  predicate OnSurface(cull: Rect, r: Rect) {
    !r.IsEmpty() && cull.Contains(r)
  }

  lemma UnmovedRect(cull: Rect, r: Rect)
    requires OnSurface(cull, r)
    ensures Tracker(ProtectEmpty(cull), IDENTITY).MapAndClip(r) == Some(r)
  {
  }

  lemma BoxIsGiven(fx: FilterBounds, cull: Rect, s: BuilderState, a: Account, r: Rect)
    requires OnSurface(cull, r) && s.top == Init(cull).top && s.paint == DEFAULT_PAINT && s.below == []
    ensures AccountsAfter(fx, s, Accounts([], a), PlainBox(r)) == Accounts([], a.(rects := a.rects + [r]))
    ensures var u := Step(fx, s, PlainBox(r));
      u.top == s.top && u.paint == s.paint && u.below == s.below
  {
    UnmovedRect(cull, r);
    PlainPaints();
    hide Tracker.MapAndClip, PaintResult, IsOpacityCompatible, AccumulateGeometry;
  }

  lemma PlainPaints()
    ensures PaintResult(DEFAULT_PAINT, DRAW_FLAGS) != NoEffect && IsOpacityCompatible(DEFAULT_PAINT)
  {
  }

  lemma {:induction false} BoxesAreGiven(fx: FilterBounds, cull: Rect, rects: seq<Rect>)
    requires !cull.IsEmpty() && forall k :: 0 <= k < |rects| ==> OnSurface(cull, rects[k])
    ensures var s := Run(fx, cull, PlainBoxes(rects));
      && s.top == Init(cull).top && s.paint == DEFAULT_PAINT && s.below == []
      && AccountsOf(fx, cull, PlainBoxes(rects)) == Accounts([], Account(rects, true, false))
  {
    hide Step, AccountsAfter, OnSurface, Init, PlainBox;
    if rects == [] {
      StartsOpen(cull);
    } else {
      var init, last := rects[..|rects| - 1], rects[|rects| - 1];
      BoxesAreGiven(fx, cull, init);
      OneMoreCall(fx, cull, PlainBoxes(init), PlainBox(last));
      assert rects == init + [last];
      BoxIsGiven(fx, cull, Run(fx, cull, PlainBoxes(init)), Account(init, true, false), last);
      hide Run, AccountsOf;
    }
  }

  lemma OneMoreCall(fx: FilterBounds, cull: Rect, calls: seq<Call>, call: Call)
    ensures var s := Run(fx, cull, calls);
      && Run(fx, cull, calls + [call]) == Step(fx, s, call)
      && AccountsOf(fx, cull, calls + [call]) == AccountsAfter(fx, s, AccountsOf(fx, cull, calls), call)
  {
    assert (calls + [call])[..|calls|] == calls;
    hide Step, AccountsAfter;
  }

  lemma StartsOpen(cull: Rect)
    ensures Init(cull).below == [] && Init(cull).paint == DEFAULT_PAINT
  {
  }

  /** What this means for a list of plain boxes: group opacity can be applied to it if and
      only if no box shares a point with the bounds of those before. */
  lemma BoxListsAreMarkedExactly(fx: FilterBounds, cull: Rect, rects: seq<Rect>)
    requires !cull.IsEmpty() && forall k :: 0 <= k < |rects| ==> OnSurface(cull, rects[k])
    ensures var root := Packed(Finished(fx, cull, PlainBoxes(rects))).root;
      (root.canApplyGroupOpacity <==> !Clashes(rects)) && !root.isUnbounded
  {
    BoxesAreGiven(fx, cull, rects);
    RootsAreMarkedExactly(fx, cull, PlainBoxes(rects));
    hide Run, AccountsOf, Clashes, Finished;
  }

  /** Two boxes beside each other, and two that overlap. */
  lemma BoxesBesideEachOther(fx: FilterBounds)
    ensures var left, right := Rect(0.0, 0.0, 10.0, 10.0), Rect(20.0, 0.0, 30.0, 10.0);
      var cull := Rect(0.0, 0.0, 50.0, 50.0);
      && Packed(Finished(fx, cull, PlainBoxes([left, right]))).root.canApplyGroupOpacity
      && !Packed(Finished(fx, cull, PlainBoxes([left, right, left]))).root.canApplyGroupOpacity
  {
    var left, right := Rect(0.0, 0.0, 10.0, 10.0), Rect(20.0, 0.0, 30.0, 10.0);
    var cull := Rect(0.0, 0.0, 50.0, 50.0);
    BoxListsAreMarkedExactly(fx, cull, [left, right]);
    BoxListsAreMarkedExactly(fx, cull, [left, right, left]);
    hide Finished, PlainBoxes;
    var p := Point(5.0, 5.0);
    assert [left, right, left][..2] == [left, right] && [left, right][..1] == [left];
    assert ClashesAt([left, right, left], 2, p) by { assert [left, right][0] == left; }
    forall k: nat, q: Point
      ensures !ClashesAt([left, right], k, q)
    {
      assert [left, right][..0] == [];
    }
  }
}
