/**
 Recording is a fixpoint: dispatching a built list into a fresh builder records the same
 list again. One flag can differ: a drawing without bounds that is dropped under a
 singular matrix still marks its layer as unbounded, and the second builder never sees
 it. The debts kept here tell exactly which layers lose their mark.
 */
module DisplayListFixpoint {
  import opened Options
  import opened DisplayListTypes
  import opened DisplayListPaint
  import opened DisplayListBuilderSpec
  import opened DisplayListNesting
  import opened DisplayListLayers
  import opened DisplayListFaithful

  /** The calls that dispatching a stream makes. */
  function Calls(ops: seq<Record>): seq<Call> {
    seq(|ops|, i requires 0 <= i < |ops| => AsCall(ops[i]))
  }

  /** The state of a fresh builder after a stream was dispatched into it. */
  function Rebuilt(fx: FilterBounds, cull: Rect, ops: seq<Record>): BuilderState {
    Run(fx, cull, Calls(ops))
  }

  lemma RebuiltMore(fx: FilterBounds, cull: Rect, ops: seq<Record>, op: Record)
    ensures Rebuilt(fx, cull, ops + [op]) == Step(fx, Rebuilt(fx, cull, ops), AsCall(op))
  {
    var calls := Calls(ops + [op]);
    assert calls[..|calls| - 1] == Calls(ops) && calls[|calls| - 1] == AsCall(op);
    hide Step;
  }

  lemma RebuiltPatched(fx: FilterBounds, cull: Rect, ops: seq<Record>, k: nat, r: Record)
    requires k < |ops| && AsCall(ops[k]) == AsCall(r)
    ensures Rebuilt(fx, cull, ops[k := r]) == Rebuilt(fx, cull, ops)
  {
    assert Calls(ops[k := r]) == Calls(ops);
  }

  // --------------------------------------------------------------- debts

  /** A drawing whose bounds are not known floods the clip. */
  predicate FloodsClip(fx: FilterBounds, s: BuilderState, d: Draw) {
    d.geometry.Flood? || AdjustBoundsForPaint(fx, PaintOf(s.paint, d), d.flags, d.geometry.bounds).None?
  }

  /** The drawing or child list of the call, if it is one, floods the clip. */
  predicate Floods(fx: FilterBounds, s: BuilderState, call: Call) {
    match call
    case DrawCall(d) => ResultOf(s.top, PaintOf(s.paint, d), d.flags) != NoEffect && FloodsClip(fx, s, d)
    case DrawListCall(list, opacity) => ListIsVisible(list, opacity) && !s.top.isNop && list.root.isUnbounded
    case _ => false
  }

  /** Nothing under the current matrix and clip can be flooded. */
  predicate NothingToFlood(info: SaveInfo) {
    info.global.cull.IsEmpty() || info.layer.MapAndClip(info.global.LocalCullCoverage()).None?
  }

  /** For each open layer whether its mark as unbounded is owed, and the records of closed
      layers that lost theirs. */
  datatype Debt = Debt(outer: seq<bool>, top: bool, lost: set<nat>)

  /** A flood without a valid clip marks its layer. If it is dropped, the mark is owed,
      unless the layer had it before; if it is recorded, nothing is owed any more. */
  function DrawingDebt(fx: FilterBounds, s: BuilderState, debt: Debt, call: Call): Debt {
    if !Floods(fx, s, call) || s.top.hasValidClip then debt
    else debt.(top := NothingToFlood(s.top) && (debt.top || !s.layer.flags.isUnbounded))
  }

  /** A new layer owes nothing; one that floods the layer below is recorded. */
  function LayerDebt(s: BuilderState, debt: Debt, withPaint: bool, backdrop: Option<ImageFilter>): Debt {
    if ResultOf(s.top, s.paint, SaveLayerFlags(withPaint)) == NoEffect then debt
    else Debt(debt.outer + [debt.top && (s.top.hasValidClip || !LayerFloods(s.paint, withPaint, backdrop))], false,
              debt.lost)
  }

  /** The content of a closing layer floods the layer below through its filter. */
  predicate TransferFloods(fx: FilterBounds, layer: LayerInfo, rtree: RTreeData, parent: SaveInfo, content: Rect) {
    && layer.filter.Some? && CanAdjust(rtree, layer.rtreeStart)
    && (AnyRectFloods(fx, layer.filter.value, parent.global.matrix, rtree, layer.rtreeStart)
        || (!content.IsEmpty() && fx.mapLocal(layer.filter.value, content).None?))
  }

  predicate ClosesLayer(s: BuilderState) {
    s.below != [] && !s.top.mark.deferred && s.top.mark.isSaveLayer && NamesItsSave(s) && s.outer != []
  }

  /** A layer that closes with a debt has lost its mark. */
  function RestoreDebt(fx: FilterBounds, s: BuilderState, debt: Debt): Debt {
    if !ClosesLayer(s) || debt.outer == [] then debt
    else
      var n, parent, k := |debt.outer| - 1, s.below[|s.below| - 1], s.top.mark.saveOffset;
      var floods := TransferFloods(fx, s.layer, s.rtree, parent, ContentBounds(s.layer, s.records[k]));
      Debt(debt.outer[..n], debt.outer[n] && (parent.hasValidClip || !floods),
           if debt.top then debt.lost + {k} else debt.lost)
  }

  function RestoresDebt(fx: FilterBounds, s: BuilderState, debt: Debt, count: int): Debt
    decreases |s.below|
  {
    if s.below == [] || |s.below| + 1 <= count then debt
    else RestoresDebt(fx, Restore(fx, s), RestoreDebt(fx, s, debt), count)
  }

  function StepDebt(fx: FilterBounds, s: BuilderState, debt: Debt, call: Call): Debt {
    match call
    case SaveLayerCall(_, withPaint, backdrop) => LayerDebt(s, debt, withPaint, backdrop)
    case RestoreCall => RestoreDebt(fx, s, debt)
    case RestoreToCountCall(count) => RestoresDebt(fx, s, debt, count)
    case DrawCall(_) => DrawingDebt(fx, s, debt, call)
    case DrawListCall(_, _) => DrawingDebt(fx, s, debt, call)
    case _ => debt
  }

  const NO_DEBT := Debt([], false, {})

  function RunDebt(fx: FilterBounds, cull: Rect, calls: seq<Call>): Debt {
    if calls == [] then NO_DEBT
    else
      var init := calls[..|calls| - 1];
      StepDebt(fx, Run(fx, cull, init), RunDebt(fx, cull, init), calls[|calls| - 1])
  }

  /** The debts when every layer but the root is closed. */
  function FinalDebt(fx: FilterBounds, cull: Rect, calls: seq<Call>): Debt {
    RestoresDebt(fx, Run(fx, cull, calls), RunDebt(fx, cull, calls), 1)
  }

  // ------------------------------------------------------ what must agree

  /** Equal, but for a mark as unbounded that the second builder owes. */
  predicate LayerSame(owed: bool, a: LayerInfo, b: LayerInfo) {
    && b == a.(flags := a.flags.(isUnbounded := a.flags.isUnbounded && !owed))
    && (owed ==> a.flags.isUnbounded)
  }

  /** The record of a layer whose mark was lost. */
  function Unmarked(r: Record): Record
    requires r.SaveLayerRecord?
  {
    r.(options := r.options.(contentIsUnbounded := false))
  }

  predicate RecordSame(lost: bool, a: Record, b: Record) {
    if lost then a.SaveLayerRecord? && a.options.contentIsUnbounded && b == Unmarked(a) else a == b
  }

  /** The same records, but for those at `lost`. */
  ghost predicate RecordsSame(lost: set<nat>, a: seq<Record>, b: seq<Record>) {
    && |a| == |b|
    && (forall k :: k in lost ==> k < |a|)
    && (forall k :: 0 <= k < |a| ==> RecordSame(k in lost, a[k], b[k]))
  }

  ghost predicate LayersSame(owed: seq<bool>, a: seq<LayerInfo>, b: seq<LayerInfo>) {
    |owed| == |a| == |b| && forall k :: 0 <= k < |a| ==> LayerSame(owed[k], a[k], b[k])
  }

  /** A live entry agrees in everything that decides what is recorded; in a nop entry
      only transforms are recorded. */
  predicate EntrySame(a: SaveInfo, b: SaveInfo) {
    && a.global.matrix == b.global.matrix && a.layer.matrix == b.layer.matrix
    && (!a.isNop ==> a.global == b.global && a.layer == b.layer && a.hasValidClip == b.hasValidClip && !b.isNop)
  }

  /** The second builder has one entry for each entry with a record. */
  ghost predicate Match(below: seq<SaveInfo>, top: SaveInfo, otherBelow: seq<SaveInfo>, other: SaveInfo)
    decreases |below|
  {
    && EntrySame(top, other)
    && if below == [] then
         otherBelow == [] && other.mark == top.mark
       else
         var n := |below| - 1;
         && (top.mark.isSaveLayer ==> !below[n].isNop)
         && if top.mark.deferred then Match(below[..n], below[n], otherBelow, other)
            else otherBelow != [] && other.mark == top.mark
                 && Match(below[..n], below[n], otherBelow[..|otherBelow| - 1], otherBelow[|otherBelow| - 1])
  }

  ghost predicate Rebuilds(debt: Debt, s: BuilderState, t: BuilderState) {
    && t.depth == s.depth && t.paint == s.paint && t.rtree == s.rtree
    && RecordsSame(debt.lost, s.records, t.records)
    && LayersSame(debt.outer, s.outer, t.outer) && LayerSame(debt.top, s.layer, t.layer)
    && Match(s.below, s.top, t.below, t.top)
  }

  lemma TopMatches(below: seq<SaveInfo>, top: SaveInfo, otherBelow: seq<SaveInfo>, other: SaveInfo)
    requires Match(below, top, otherBelow, other)
    ensures EntrySame(top, other)
    ensures !top.mark.deferred ==> other.mark == top.mark && (below == [] <==> otherBelow == [])
  {
    hide EntrySame;
  }

  // ----------------------------------------------------- accumulating alike

  /** What a recorded flood leaves of a debt. */
  predicate StillOwed(owed: bool, info: SaveInfo) {
    owed && info.hasValidClip
  }

  lemma UnboundedSame(owed: bool, a: LayerInfo, b: LayerInfo, rtree: RTreeData, info: SaveInfo, other: SaveInfo,
                      id: nat)
    requires LayerSame(owed, a, b)
    requires info.global == other.global && info.layer == other.layer && info.hasValidClip == other.hasValidClip
    ensures var x, y := AccumulateUnbounded(a, rtree, info, id), AccumulateUnbounded(b, rtree, other, id);
      LayerSame(StillOwed(owed, info), x.layer, y.layer) && x.rtree == y.rtree && x.ok == y.ok
  {
    hide Tracker.MapAndClip, Tracker.LocalCullCoverage, Accumulation.Add;
  }

  lemma BoundsSame(owed: bool, a: LayerInfo, b: LayerInfo, rtree: RTreeData, info: SaveInfo, other: SaveInfo, id: nat,
                   r: Rect)
    requires LayerSame(owed, a, b) && info.global == other.global && info.layer == other.layer
    ensures var x, y := AccumulateBounds(a, rtree, info, id, r), AccumulateBounds(b, rtree, other, id, r);
      LayerSame(owed, x.layer, y.layer) && x.rtree == y.rtree && x.ok == y.ok
  {
    hide Tracker.MapAndClip, Accumulation.Add;
  }

  lemma {:induction false} RectsSame(owed: bool, a: LayerInfo, b: LayerInfo, rtree: RTreeData, info: SaveInfo,
                                     other: SaveInfo, id: nat, rects: seq<Rect>)
    requires LayerSame(owed, a, b) && info.global == other.global && info.layer == other.layer
    ensures var x, y := AccumulateRects(a, rtree, info, id, rects), AccumulateRects(b, rtree, other, id, rects);
      LayerSame(owed, x.layer, y.layer) && x.rtree == y.rtree && x.ok == y.ok
  {
    if rects != [] {
      hide AccumulateBounds, LayerSame;
      var init := rects[..|rects| - 1];
      RectsSame(owed, a, b, rtree, info, other, id, init);
      var x, y := AccumulateRects(a, rtree, info, id, init), AccumulateRects(b, rtree, other, id, init);
      BoundsSame(owed, x.layer, y.layer, x.rtree, info, other, id, rects[|rects| - 1]);
    }
  }

  lemma LocalSame(owed: bool, a: LayerInfo, b: LayerInfo, info: SaveInfo, other: SaveInfo, r: Rect)
    requires LayerSame(owed, a, b) && info.layer == other.layer
    ensures LayerSame(owed, AccumulateBoundsLocal(a, info, r), AccumulateBoundsLocal(b, other, r))
  {
    hide Tracker.MapAndClip, Accumulation.Add;
  }

  lemma UpdatesSame(owed: bool, a: LayerInfo, b: LayerInfo, compatible: bool, result: OpResult, mode: BlendMode,
                    backdrop: bool)
    requires LayerSame(owed, a, b)
    ensures LayerSame(owed, a.UpdateOpacityCompatibility(compatible).UpdateResult(result, mode),
                      b.UpdateOpacityCompatibility(compatible).UpdateResult(result, mode))
    ensures LayerSame(owed, a.UpdateOpacityCompatibility(compatible).UpdateResult(result, mode).MarkBackdrop(backdrop),
                      b.UpdateOpacityCompatibility(compatible).UpdateResult(result, mode).MarkBackdrop(backdrop))
    ensures LayerSame(owed, a.MarkBackdrop(backdrop).UpdateOpacityCompatibility(compatible).UpdateResult(result, mode),
                      b.MarkBackdrop(backdrop).UpdateOpacityCompatibility(compatible).UpdateResult(result, mode))
  {
    hide BlendMode.Rank;
  }

  lemma RecordsSamePush(lost: set<nat>, a: seq<Record>, b: seq<Record>, op: Record)
    requires RecordsSame(lost, a, b)
    ensures RecordsSame(lost, a + [op], b + [op])
  {
  }

  // ------------------------------------------------------------- drawings

  /** Pushing the same drawing with layers that stay alike. */
  lemma PushRebuilds(debt: Debt, after: Debt, s: BuilderState, t: BuilderState, op: Record, u: BuilderState,
                     v: BuilderState)
    requires Rebuilds(debt, s, t) && after == debt.(top := after.top)
    requires u.records == s.records + [op] && v.records == t.records + [op] && u.depth == v.depth && u.rtree == v.rtree
    requires u.below == s.below && u.top == s.top && v.below == t.below && v.top == t.top
    requires u.paint == v.paint && u.outer == s.outer && v.outer == t.outer && LayerSame(after.top, u.layer, v.layer)
    ensures Rebuilds(after, u, v)
  {
    hide LayerSame, RecordsSame, LayersSame, Match;
    RecordsSamePush(debt.lost, s.records, t.records, op);
  }

  lemma AttributeRebuilds(fx: FilterBounds, debt: Debt, s: BuilderState, t: BuilderState, a: Attribute)
    requires Rebuilds(debt, s, t) && a.ApplyTo(s.paint) != s.paint
    ensures Rebuilds(debt, SetAttribute(s, a), SetAttribute(t, a))
  {
    hide LayerSame, RecordsSame, LayersSame, Match, Attribute.ApplyTo;
    PushRebuilds(debt, debt, s, t, AttributeOp(a), SetAttribute(s, a), SetAttribute(t, a));
  }

  lemma GeometrySame(fx: FilterBounds, debt: Debt, s: BuilderState, t: BuilderState, d: Draw)
    requires Rebuilds(debt, s, t) && !s.top.isNop
    ensures var x, y := AccumulateGeometry(fx, s, d), AccumulateGeometry(fx, t, d);
      LayerSame(if FloodsClip(fx, s, d) then StillOwed(debt.top, s.top) else debt.top, x.layer, y.layer)
      && x.rtree == y.rtree && x.ok == y.ok
    ensures ResultOf(s.top, PaintOf(s.paint, d), d.flags) == ResultOf(t.top, PaintOf(t.paint, d), d.flags)
  {
    TopMatches(s.below, s.top, t.below, t.top);
    SameLength(debt.lost, s.records, t.records);
    hide AccumulateBounds, AccumulateUnbounded, AdjustBoundsForPaint, LayerSame, Match, LayersSame, RecordsSame,
      PaintResult, StillOwed;
    UnboundedSame(debt.top, s.layer, t.layer, s.rtree, s.top, t.top, |s.records|);
    if d.geometry.Box? {
      var adjusted := AdjustBoundsForPaint(fx, PaintOf(s.paint, d), d.flags, d.geometry.bounds);
      if adjusted.Some? {
        BoundsSame(debt.top, s.layer, t.layer, s.rtree, s.top, t.top, |s.records|, adjusted.value);
      }
    }
  }

  lemma SameLength(lost: set<nat>, a: seq<Record>, b: seq<Record>)
    requires RecordsSame(lost, a, b)
    ensures |a| == |b|
  {
  }

  lemma DrawRebuilds(fx: FilterBounds, debt: Debt, s: BuilderState, t: BuilderState, d: Draw)
    requires Rebuilds(debt, s, t) && DrawOp(fx, s, d).records != s.records
    ensures DrawOp(fx, s, d).records == s.records + [DrawRecord(d)]
    ensures Rebuilds(DrawingDebt(fx, s, debt, DrawCall(d)), DrawOp(fx, s, d), DrawOp(fx, t, d))
  {
    if Floods(fx, s, DrawCall(d)) {
      FloodIsRecordedExactly(fx, s, DrawCall(d));
    }
    hide LayerSame, RecordsSame, LayersSame, Match, AccumulateGeometry, IsOpacityCompatible, PaintResult, FloodsClip,
      NothingToFlood,
      LayerInfo.UpdateOpacityCompatibility, LayerInfo.UpdateResult;
    GeometrySame(fx, debt, s, t, d);
    var x, y := AccumulateGeometry(fx, s, d), AccumulateGeometry(fx, t, d);
    var after := DrawingDebt(fx, s, debt, DrawCall(d));
    assert LayerSame(after.top, x.layer, y.layer);
    UpdatesSame(after.top, x.layer, y.layer, DrawIsOpacityCompatible(s.paint, d),
                ResultOf(s.top, PaintOf(s.paint, d), d.flags), BlendModeOf(PaintOf(s.paint, d), d.flags.appliesBlend),
                false);
    PushRebuilds(debt, after, s, t, DrawRecord(d), DrawOp(fx, s, d), DrawOp(fx, t, d));
  }

  function ListAccumulation(s: BuilderState, list: ChildList): Accumulated {
    if list.root.isUnbounded then AccumulateUnbounded(s.layer, s.rtree, s.top, |s.records|)
    else AccumulateRects(s.layer, s.rtree, s.top, |s.records|, list.rects)
  }

  lemma ListAccumulatesSame(debt: Debt, s: BuilderState, t: BuilderState, list: ChildList)
    requires Rebuilds(debt, s, t) && !s.top.isNop
    ensures var x, y := ListAccumulation(s, list), ListAccumulation(t, list);
      LayerSame(if list.root.isUnbounded then StillOwed(debt.top, s.top) else debt.top, x.layer, y.layer)
      && x.rtree == y.rtree && x.ok == y.ok
    ensures !t.top.isNop
  {
    TopMatches(s.below, s.top, t.below, t.top);
    SameLength(debt.lost, s.records, t.records);
    hide LayerSame, RecordsSame, LayersSame, Match, AccumulateRects, AccumulateUnbounded, StillOwed;
    UnboundedSame(debt.top, s.layer, t.layer, s.rtree, s.top, t.top, |s.records|);
    RectsSame(debt.top, s.layer, t.layer, s.rtree, s.top, t.top, |s.records|, list.rects);
  }

  /** What a recorded child list does, in terms of its accumulation. */
  lemma RecordedList(s: BuilderState, list: ChildList, opacity: real)
    requires DrawDisplayList(s, list, opacity).records != s.records
    ensures var acc := ListAccumulation(s, list);
      var op := DrawListRecord(list, Min(opacity, 1.0));
      && !s.top.isNop && ListIsVisible(list, opacity) && acc.ok
      && DrawDisplayList(s, list, opacity) ==
           Push(s, op).(depth := Push(s, op).depth + list.totalDepth, rtree := acc.rtree, layer :=
                        LayerAfterList(acc.layer, list))
  {
    hide AccumulateRects, AccumulateUnbounded, LayerAfterList, ListIsVisible;
  }

  lemma SameListAgain(t: BuilderState, list: ChildList, opacity: real)
    requires !t.top.isNop && ListIsVisible(list, opacity) && ListAccumulation(t, list).ok
    ensures DrawDisplayList(t, list, Min(opacity, 1.0)).records != t.records
    ensures Min(Min(opacity, 1.0), 1.0) == Min(opacity, 1.0)
  {
    hide AccumulateRects, AccumulateUnbounded, LayerAfterList;
  }

  lemma ListRebuilds(fx: FilterBounds, debt: Debt, s: BuilderState, t: BuilderState, list: ChildList, opacity: real)
    requires Rebuilds(debt, s, t) && DrawDisplayList(s, list, opacity).records != s.records
    ensures DrawDisplayList(s, list, opacity).records == s.records + [DrawListRecord(list, Min(opacity, 1.0))]
    ensures Rebuilds(DrawingDebt(fx, s, debt, DrawListCall(list, opacity)),
                     DrawDisplayList(s, list, opacity), DrawDisplayList(t, list, Min(opacity, 1.0)))
  {
    var call := DrawListCall(list, opacity);
    if Floods(fx, s, call) {
      FloodIsRecordedExactly(fx, s, call);
    }
    RecordedList(s, list, opacity);
    ListAccumulatesSame(debt, s, t, list);
    SameListAgain(t, list, opacity);
    RecordedList(t, list, Min(opacity, 1.0));
    hide LayerSame, RecordsSame, LayersSame, Match, ListAccumulation, NothingToFlood, DrawDisplayList, DepthCost, Step,
      LayerInfo.UpdateOpacityCompatibility, LayerInfo.UpdateResult, LayerInfo.MarkBackdrop;
    var x, y := ListAccumulation(s, list), ListAccumulation(t, list);
    var after := DrawingDebt(fx, s, debt, call);
    assert LayerSame(after.top, x.layer, y.layer);
    UpdatesSame(after.top, x.layer, y.layer, list.root.canApplyGroupOpacity,
                if list.root.modifiesTransparentBlack then AffectsAll
                else PreservesTransparency, list.root.maxBlendMode,
                list.root.hasBackdropFilter);
    PushRebuilds(debt, after, s, t, DrawListRecord(list, Min(opacity, 1.0)), DrawDisplayList(s, list, opacity),
                 DrawDisplayList(t, list, Min(opacity, 1.0)));
  }

  /** A flood that is not recorded, although it marks its layer. */
  predicate DropsFlood(fx: FilterBounds, s: BuilderState, call: Call) {
    Floods(fx, s, call) && NothingToFlood(s.top) && !s.top.hasValidClip
  }

  /** A drawing or child list that is dropped changes its layer, and then by the mark alone,
      exactly when it floods where there is nothing to flood, with no clip in force, in a
      layer that nothing marked before. */
  lemma DropsFloodExactly(fx: FilterBounds, s: BuilderState, call: Call)
    requires call.DrawCall? || call.DrawListCall?
    ensures var u := Step(fx, s, call);
      && (u.records == s.records ==> u == s.(layer := s.layer.MarkUnbounded(DropsFlood(fx, s, call))))
      && (u.records == s.records && u.layer != s.layer <==> DropsFlood(fx, s, call) && !s.layer.flags.isUnbounded)
  {
    hide PaintResult, IsOpacityCompatible, ListIsVisible, Tracker.MapAndClip, Tracker.LocalCullCoverage,
      AdjustBoundsForPaint, Accumulation.Add,
      LayerAfterList, AccumulateRects;
    if call.DrawListCall? {
      DroppedRects(s.layer, s.rtree, s.top, |s.records|, call.list.rects);
    }
  }

  /** A flood is recorded exactly where there is something to flood. */
  lemma FloodIsRecordedExactly(fx: FilterBounds, s: BuilderState, call: Call)
    requires Floods(fx, s, call)
    ensures Step(fx, s, call).records != s.records <==> !NothingToFlood(s.top)
  {
    hide PaintResult, IsOpacityCompatible, ListIsVisible, Tracker.MapAndClip, Tracker.LocalCullCoverage,
      AdjustBoundsForPaint, Accumulation.Add,
      LayerAfterList, AccumulateRects;
  }

  lemma DroppedDrawing(fx: FilterBounds, debt: Debt, s: BuilderState, t: BuilderState, call: Call)
    requires Rebuilds(debt, s, t) && (call.DrawCall? || call.DrawListCall?)
    requires Step(fx, s, call).records == s.records
    ensures Rebuilds(DrawingDebt(fx, s, debt, call), Step(fx, s, call), t)
  {
    DropsFloodExactly(fx, s, call);
    if Floods(fx, s, call) {
      FloodIsRecordedExactly(fx, s, call);
    }
    hide Step, Match, RecordsSame, LayersSame, Floods, NothingToFlood;
  }

  lemma {:induction false} DroppedRects(layer: LayerInfo, rtree: RTreeData, info: SaveInfo, id: nat, rects: seq<Rect>)
    ensures var acc := AccumulateRects(layer, rtree, info, id, rects);
      !acc.ok ==> acc == Accumulated(layer, rtree, false)
  {
    if rects != [] {
      hide Tracker.MapAndClip, Accumulation.Add;
      DroppedRects(layer, rtree, info, id, rects[..|rects| - 1]);
    }
  }

  // ------------------------------------------------ saves, transforms, clips

  /** The second builder sees a save record followed by what forced it. */
  lemma TriggerRebuilds(debt: Debt, s: BuilderState, t: BuilderState)
    requires Rebuilds(debt, s, t) && s.top.mark.deferred && !s.top.mark.isSaveLayer && s.below != []
    ensures Rebuilds(debt, CheckForDeferredSave(s), CheckForDeferredSave(Save(t)))
  {
    SameLength(debt.lost, s.records, t.records);
    RecordsSamePush(debt.lost, s.records, t.records, SaveRecord(0, 0));
    hide LayerSame, RecordsSame, LayersSame;
    assert (t.below + [t.top])[..|t.below|] == t.below;
  }

  lemma TransformAfterSave(s: BuilderState, t: TransformOp)
    requires ChangesMatrix(t)
    ensures Transform(s, t) == Transform(CheckForDeferredSave(s), t)
  {
    hide ChangesMatrix, Transformed;
  }

  lemma TransformTriggered(debt: Debt, s: BuilderState, t: BuilderState, op: TransformOp)
    requires Rebuilds(debt, s, t) && !s.top.mark.deferred && ChangesMatrix(op)
    ensures Transform(s, op).records == s.records + [TransformRecord(op)]
    ensures Rebuilds(debt, Transform(s, op), Transform(t, op))
  {
    TopMatches(s.below, s.top, t.below, t.top);
    RecordsSamePush(debt.lost, s.records, t.records, TransformRecord(op));
    TransformedSame(s.top, t.top, op);
    hide LayerSame, RecordsSame, LayersSame, ChangesMatrix, Transformed, EntrySame;
  }

  lemma TransformedSame(info: SaveInfo, other: SaveInfo, t: TransformOp)
    requires EntrySame(info, other)
    ensures EntrySame(Transformed(info, t), Transformed(other, t))
    ensures Transformed(info, t).mark == info.mark && Transformed(other, t).mark == other.mark
    ensures Transformed(info, t).isNop == info.isNop
  {
    hide Matrix.Times, Matrix.Invert, Matrix.IsInvertible;
  }

  lemma ClipAfterSave(s: BuilderState, r: Rect, op: ClipOp)
    requires !s.top.isNop && !ClipIsRedundant(s.top, r, op) && !CullIsEmpty(Clipped(s.top, r, op))
    ensures Clip(s, r, op) == Clip(CheckForDeferredSave(s), r, op)
  {
    hide Tracker.ClipRect, Tracker.RectCoversCull;
  }

  predicate RecordsClip(info: SaveInfo, r: Rect, op: ClipOp) {
    !info.isNop && !ClipIsRedundant(info, r, op) && !CullIsEmpty(Clipped(info, r, op))
  }

  lemma ClippedSame(info: SaveInfo, other: SaveInfo, r: Rect, op: ClipOp)
    requires EntrySame(info, other) && RecordsClip(info, r, op)
    ensures RecordsClip(other, r, op)
    ensures EntrySame(Clipped(info, r, op).(hasValidClip := true), Clipped(other, r, op).(hasValidClip := true))
    ensures Clipped(info, r, op).mark == info.mark && Clipped(other, r, op).mark == other.mark
    ensures Clipped(info, r, op).isNop == info.isNop
  {
    hide Tracker.RectCoversCull, Rect.IntersectionOrEmpty, Rect.CutoutOrEmpty, Matrix.MapBounds;
  }

  lemma ClipTriggered(debt: Debt, s: BuilderState, t: BuilderState, r: Rect, op: ClipOp)
    requires Rebuilds(debt, s, t) && !s.top.mark.deferred && RecordsClip(s.top, r, op)
    ensures Clip(s, r, op).records == s.records + [ClipRecord(r, op)]
    ensures Rebuilds(debt, Clip(s, r, op), Clip(t, r, op))
  {
    TopMatches(s.below, s.top, t.below, t.top);
    RecordsSamePush(debt.lost, s.records, t.records, ClipRecord(r, op));
    ClippedSame(s.top, t.top, r, op);
    hide LayerSame, RecordsSame, LayersSame, Clipped, EntrySame, ClipIsRedundant, CullIsEmpty;
  }

  /** A clip that is not recorded leaves the second builder behind only in nop entries. */
  lemma ClipUnrecorded(debt: Debt, s: BuilderState, t: BuilderState, r: Rect, op: ClipOp)
    requires Rebuilds(debt, s, t) && !RecordsClip(s.top, r, op)
    ensures Clip(s, r, op).records == s.records
    ensures Rebuilds(debt, Clip(s, r, op), t)
  {
    TopMatches(s.below, s.top, t.below, t.top);
    ClippedMatrices(s.top, r, op);
    if !s.top.isNop && !ClipIsRedundant(s.top, r, op) {
      var clipped := Clipped(s.top, r, op).(isNop := true);
      assert EntrySame(clipped, t.top);
      hide LayerSame, RecordsSame, LayersSame, Clipped, EntrySame, ClipIsRedundant, CullIsEmpty;
      NopMatches(s.below, s.top, t.below, t.top, clipped);
    }
  }

  lemma NopMatches(below: seq<SaveInfo>, top: SaveInfo, otherBelow: seq<SaveInfo>, other: SaveInfo, newTop: SaveInfo)
    requires Match(below, top, otherBelow, other) && EntrySame(newTop, other) && newTop.mark == top.mark
    ensures Match(below, newTop, otherBelow, other)
  {
    hide EntrySame;
  }

  lemma ClippedMatrices(info: SaveInfo, r: Rect, op: ClipOp)
    ensures var t := Clipped(info, r, op);
      t.global.matrix == info.global.matrix && t.layer.matrix == info.layer.matrix && t.mark == info.mark
  {
  }

  lemma SaveRebuilds(debt: Debt, s: BuilderState, t: BuilderState, nop: bool)
    requires Rebuilds(debt, s, t) && (s.top.isNop ==> nop)
    ensures Rebuilds(debt, Save(s).(top := Save(s).top.(isNop := nop)), t)
  {
    TopMatches(s.below, s.top, t.below, t.top);
    hide LayerSame, RecordsSame, LayersSame;
    assert (s.below + [s.top])[..|s.below|] == s.below;
  }

  // ------------------------------------------------------------ layers

  lemma LayerRebuilds(fx: FilterBounds, debt: Debt, s: BuilderState, t: BuilderState, withPaint: bool,
                      backdrop: Option<ImageFilter>)
    requires Rebuilds(debt, s, t) && ResultOf(s.top, s.paint, SaveLayerFlags(withPaint)) != NoEffect
    ensures SaveLayer(fx, s, None, withPaint, backdrop).records
      == s.records + [NewSaveLayerRecord(withPaint, None, backdrop)]
    ensures Rebuilds(LayerDebt(s, debt, withPaint, backdrop),
                     SaveLayer(fx, s, None, withPaint, backdrop), SaveLayer(fx, t, None, withPaint, backdrop))
  {
    hide LayerSame, RecordsSame, LayersSame, PaintResult, AccumulateLayer, EnterLayer, Match, LayerFloods;
    TopMatches(s.below, s.top, t.below, t.top);
    LayerAccumulatesSame(debt, s, t, withPaint, backdrop);
    var x, y := AccumulateLayer(s, withPaint, backdrop), AccumulateLayer(t, withPaint, backdrop);
    EnteredSame(fx, debt.(top := BelowDebt(debt.top, s, withPaint, backdrop)),
                s.(layer := x.layer, rtree := x.rtree), t.(layer := y.layer, rtree := y.rtree), withPaint, backdrop);
  }

  predicate BelowDebt(owed: bool, s: BuilderState, withPaint: bool, backdrop: Option<ImageFilter>) {
    owed && (s.top.hasValidClip || !LayerFloods(s.paint, withPaint, backdrop))
  }

  lemma LayerAccumulatesSame(debt: Debt, s: BuilderState, t: BuilderState, withPaint: bool,
                             backdrop: Option<ImageFilter>)
    requires Rebuilds(debt, s, t) && !s.top.isNop
    ensures var x, y := AccumulateLayer(s, withPaint, backdrop), AccumulateLayer(t, withPaint, backdrop);
      LayerSame(BelowDebt(debt.top, s, withPaint, backdrop), x.layer, y.layer) && x.rtree == y.rtree
  {
    TopMatches(s.below, s.top, t.below, t.top);
    SameLength(debt.lost, s.records, t.records);
    hide LayerSame, RecordsSame, LayersSame, PaintResult, AccumulateUnbounded, Match, IsOpacityCompatible, LayerFloods,
      LayerInfo.UpdateOpacityCompatibility, LayerInfo.UpdateResult, LayerInfo.MarkBackdrop;
    var result, mode := PaintResult(s.paint, SaveLayerFlags(withPaint)), BlendModeOf(s.paint, withPaint);
    var compatible := !withPaint || IsOpacityCompatible(s.paint);
    UpdatesSame(debt.top, s.layer, t.layer, compatible, result, mode, backdrop.Some?);
    var a := s.layer.MarkBackdrop(backdrop.Some?).UpdateOpacityCompatibility(compatible).UpdateResult(result, mode);
    var b := t.layer.MarkBackdrop(backdrop.Some?).UpdateOpacityCompatibility(compatible).UpdateResult(result, mode);
    UnboundedSame(debt.top, a, b, s.rtree, s.top, t.top, |s.records|);
  }

  lemma EnteredSame(fx: FilterBounds, debt: Debt, s: BuilderState, t: BuilderState, withPaint: bool,
                    backdrop: Option<ImageFilter>)
    requires Rebuilds(debt, s, t) && !s.top.isNop
    ensures EnterLayer(fx, s, None, withPaint, backdrop).records
      == s.records + [NewSaveLayerRecord(withPaint, None, backdrop)]
    ensures Rebuilds(Debt(debt.outer + [debt.top], false, debt.lost),
                     EnterLayer(fx, s, None, withPaint, backdrop), EnterLayer(fx, t, None, withPaint, backdrop))
  {
    TopMatches(s.below, s.top, t.below, t.top);
    SameLength(debt.lost, s.records, t.records);
    var op := NewSaveLayerRecord(withPaint, None, backdrop);
    RecordsSamePush(debt.lost, s.records, t.records, op);
    LayersSamePush(debt.outer, s.outer, t.outer, debt.top, s.layer, t.layer);
    hide LayerSame, RecordsSame, LayersSame, IsOpacityCompatible, LayerCull, NewSaveLayerRecord;
    var u, v := EnterLayer(fx, s, None, withPaint, backdrop), EnterLayer(fx, t, None, withPaint, backdrop);
    assert u.layer == v.layer;
    SelfLayerSame(u.layer);
    assert u.top == v.top;
    assert u.below[..|s.below|] == s.below && v.below[..|t.below|] == t.below;
  }

  lemma SelfLayerSame(layer: LayerInfo)
    ensures LayerSame(false, layer, layer)
  {
  }

  lemma LayersSamePush(owed: seq<bool>, a: seq<LayerInfo>, b: seq<LayerInfo>, more: bool, x: LayerInfo, y: LayerInfo)
    requires LayersSame(owed, a, b) && LayerSame(more, x, y)
    ensures LayersSame(owed + [more], a + [x], b + [y])
  {
    hide LayerSame;
  }

  // ------------------------------------------------------------ restores

  lemma TransferSame(fx: FilterBounds, closing: bool, owed: bool, layer: LayerInfo, other: LayerInfo, rtree: RTreeData,
                     parent: SaveInfo, otherParent: SaveInfo, a: LayerInfo, b: LayerInfo, id: nat, content: Rect)
    requires LayerSame(closing, layer, other) && LayerSame(owed, a, b)
    requires EntrySame(parent, otherParent) && !parent.isNop
    ensures var x, y := TransferLayerBounds(fx, layer, rtree, parent, a, id, content),
                        TransferLayerBounds(fx, other, rtree, otherParent, b, id, content);
      LayerSame(owed && (parent.hasValidClip || !TransferFloods(fx, layer, rtree, parent, content)), x.layer, y.layer)
      && x.rtree == y.rtree
  {
    hide AccumulateUnbounded, AccumulateBoundsLocal, AdjustRTreeRects, AnyRectFloods;
    LayerSameKeys(closing, layer, other);
    hide LayerSame;
    LocalSame(owed, a, b, parent, otherParent, content);
    if layer.filter.Some? && CanAdjust(rtree, layer.rtreeStart) {
      var f := layer.filter.value;
      var adjusted :=
        AdjustRTreeRects(fx, f, parent.global.matrix, parent.global.cull, rtree, layer.rtreeStart, |rtree.rects|);
      UnboundedSame(owed, a, b, adjusted, parent, otherParent, id);
      var mapped := (fx.mapLocal)(f, content);
      if mapped.Some? {
        LocalSame(owed, a, b, parent, otherParent, mapped.value);
      }
    }
  }

  lemma LayerSameKeys(owed: bool, a: LayerInfo, b: LayerInfo)
    requires LayerSame(owed, a, b)
    ensures a.filter == b.filter && a.rtreeStart == b.rtreeStart && a.localBounds == b.localBounds
  {
  }

  /** The settled records of two layers that are alike: what the layer owes is lost. */
  lemma SettledSame(owed: bool, a: Record, layer: LayerInfo, other: LayerInfo, i: nat, d: int)
    requires a.SaveLayerRecord? && !a.options.contentIsUnbounded && LayerSame(owed, layer, other)
    ensures RecordSame(owed, SettledLayer(PatchSave(a, i, d), layer), SettledLayer(PatchSave(a, i, d), other))
    ensures ContentBounds(layer, PatchSave(a, i, d)) == ContentBounds(other, PatchSave(a, i, d))
      == ContentBounds(layer, a)
  {
    hide Rect.Contains, Rect.IntersectionOrEmpty, Rect.IsEmpty;
  }

  lemma RecordsSamePatch(lost: set<nat>, a: seq<Record>, b: seq<Record>, k: nat, owed: bool, x: Record, y: Record)
    requires RecordsSame(lost, a, b) && k < |a| && k !in lost && RecordSame(owed, x, y)
    ensures RecordsSame(if owed then lost + {k} else lost, a[k := x] + [RestoreRecord], b[k := y] + [RestoreRecord])
  {
    hide RecordSame;
    SelfSame(RestoreRecord);
  }

  lemma SelfSame(op: Record)
    ensures RecordSame(false, op, op)
  {
  }

  lemma LayersSamePop(owed: seq<bool>, a: seq<LayerInfo>, b: seq<LayerInfo>)
    requires LayersSame(owed, a, b) && a != []
    ensures owed != [] && b != [] && LayersSame(owed[..|owed| - 1], a[..|a| - 1], b[..|b| - 1])
    ensures LayerSame(owed[|owed| - 1], a[|a| - 1], b[|b| - 1])
  {
    hide LayerSame;
  }

  lemma ParentMatches(s: BuilderState, t: BuilderState)
    requires Match(s.below, s.top, t.below, t.top) && s.below != [] && !s.top.mark.deferred
    ensures t.below != [] && t.top.mark == s.top.mark
    ensures var n, m := |s.below| - 1, |t.below| - 1;
      Match(s.below[..n], s.below[n], t.below[..m], t.below[m]) && EntrySame(s.below[n], t.below[m])
      && (s.top.mark.isSaveLayer ==> !s.below[n].isNop)
  {
    hide EntrySame;
    var n, m := |s.below| - 1, |t.below| - 1;
    TopMatches(s.below[..n], s.below[n], t.below[..m], t.below[m]);
  }

  lemma NamesSame(lost: set<nat>, s: BuilderState, t: BuilderState)
    requires RecordsSame(lost, s.records, t.records) && NamesItsSave(s) && t.top.mark == s.top.mark
    ensures NamesItsSave(t)
  {
    assert RecordSame(s.top.mark.saveOffset in lost, s.records[s.top.mark.saveOffset],
                      t.records[t.top.mark.saveOffset]);
  }

  /** The records of open layers have lost nothing, and promise nothing yet. */
  ghost predicate OpenAreNew(lost: set<nat>, ops: seq<Record>) {
    forall k :: k in OpenSaves(ops, |ops|) ==> NewRecord(lost, ops, k)
  }

  predicate NewRecord(lost: set<nat>, ops: seq<Record>, k: nat) {
    k < |ops| && k !in lost && (ops[k].SaveLayerRecord? ==> !ops[k].options.contentIsUnbounded)
  }

  lemma PlainCloseRebuilds(fx: FilterBounds, debt: Debt, s: BuilderState, t: BuilderState)
    requires Rebuilds(debt, s, t) && s.below != [] && !s.top.mark.deferred && !s.top.mark.isSaveLayer && NamesItsSave(s)
    ensures Rebuilds(debt, Restore(fx, s), Restore(fx, t))
  {
    ParentMatches(s, t);
    NamesSame(debt.lost, s, t);
    SameLength(debt.lost, s.records, t.records);
    var k := s.top.mark.saveOffset;
    RecordsSameAt(debt.lost, s.records, t.records, k);
    assert k !in debt.lost && t.records[k] == s.records[k];
    var patched := PatchSave(s.records[k], |s.records|, s.depth - s.top.mark.saveDepth);
    SelfSame(patched);
    RecordsSamePatch(debt.lost, s.records, t.records, k, false, patched, patched);
    hide LayerSame, RecordsSame, LayersSame, Match, EntrySame, PatchSave;
  }

  lemma LayerCloseRebuilds(fx: FilterBounds, debt: Debt, s: BuilderState, t: BuilderState)
    requires Rebuilds(debt, s, t) && ClosesLayer(s) && NewRecord(debt.lost, s.records, s.top.mark.saveOffset)
    ensures Rebuilds(RestoreDebt(fx, s, debt), Restore(fx, s), Restore(fx, t))
  {
    hide LayerSame, RecordsSame, LayersSame, Match, EntrySame, PatchSave, SettledLayer, ContentBounds,
      TransferLayerBounds, TransferFloods,
      DepthCost, Restore;
    ParentMatches(s, t);
    NamesSame(debt.lost, s, t);
    SameLength(debt.lost, s.records, t.records);
    LayersSamePop(debt.outer, s.outer, t.outer);
    var k, d := s.top.mark.saveOffset, s.depth - s.top.mark.saveDepth;
    RecordsSameAt(debt.lost, s.records, t.records, k);
    assert t.records[k] == s.records[k];
    SettledSame(debt.top, s.records[k], s.layer, t.layer, |s.records|, d);
    PatchKeepsKind(s.records[k], |s.records|, d);
    var p := PatchSave(s.records[k], |s.records|, d);
    RecordsSamePatch(debt.lost, s.records, t.records, k, debt.top, SettledLayer(p, s.layer), SettledLayer(p, t.layer));
    TransferSame(fx, debt.top, debt.outer[|debt.outer| - 1], s.layer, t.layer, s.rtree, s.below[|s.below| - 1],
                 t.below[|t.below| - 1], s.outer[|s.outer| - 1], t.outer[|t.outer| - 1], |s.records|,
                 ContentBounds(s.layer, p));
    hide RecordSame;
    ClosedLayer(fx, s);
    ClosedLayer(fx, t);
  }

  lemma RecordsSameAt(lost: set<nat>, a: seq<Record>, b: seq<Record>, k: nat)
    requires RecordsSame(lost, a, b) && k < |a|
    ensures k < |b| && RecordSame(k in lost, a[k], b[k])
  {
  }

  lemma PatchKeepsKind(r: Record, i: nat, d: int)
    requires r.SaveLayerRecord?
    ensures PatchSave(r, i, d).SaveLayerRecord?
  {
  }

  lemma ClosedLayer(fx: FilterBounds, s: BuilderState)
    requires s.below != [] && !s.top.mark.deferred && s.top.mark.isSaveLayer && NamesItsSave(s) && s.outer != []
    ensures var k := s.top.mark.saveOffset;
      var patched := PatchSave(s.records[k], |s.records|, s.depth - s.top.mark.saveDepth);
      var acc := TransferLayerBounds(fx, s.layer, s.rtree, s.below[|s.below| - 1], s.outer[|s.outer| - 1], |s.records|,
                                     ContentBounds(s.layer, patched));
      Restore(fx, s) == BuilderState(s.records[k := SettledLayer(patched, s.layer)] + [RestoreRecord],
                                     s.depth + DepthCost(s.paint), s.below[..|s.below| - 1], s.below[|s.below| - 1],
                                     s.outer[..|s.outer| - 1], acc.layer, acc.rtree, s.paint)
  {
    hide TransferLayerBounds, ContentBounds, SettledLayer, DepthCost;
  }

  lemma RestoreRebuilds(fx: FilterBounds, debt: Debt, s: BuilderState, t: BuilderState)
    requires Rebuilds(debt, s, t) && WellFormed(s) && OpenAreNew(debt.lost, s.records)
    ensures Rebuilds(RestoreDebt(fx, s, debt), Restore(fx, s),
                     if s.below == [] || s.top.mark.deferred then t else Restore(fx, t))
  {
    hide LayerSame, RecordsSame, LayersSame, EntrySame, WellFormed, TransferFloods, ContentBounds;
    if s.below != [] {
      if s.top.mark.deferred {
        DeferredPops(fx, s);
      } else {
        RestoreIsReady(s);
        if s.top.mark.isSaveLayer {
          TopIsNew(debt.lost, s);
          hide OpenAreNew;
          LayerCloseRebuilds(fx, debt, s, t);
        } else {
          hide OpenAreNew;
          PlainCloseRebuilds(fx, debt, s, t);
        }
      }
    }
  }

  lemma TopIsNew(lost: set<nat>, s: BuilderState)
    requires WellFormed(s) && OpenAreNew(lost, s.records) && s.below != [] && !s.top.mark.deferred
    ensures NewRecord(lost, s.records, s.top.mark.saveOffset)
    ensures var open := OpenSaves(s.records, |s.records|);
      open != [] && open[|open| - 1] == s.top.mark.saveOffset
  {
    OpenOffset(s.records, s.below, s.top);
    hide OpenSaves, Offsets, NewRecord;
  }

  lemma PushKeepsNew(lost: set<nat>, ops: seq<Record>, op: Record)
    requires OpenAreNew(lost, ops) && !op.RestoreRecord? && (op.SaveLayerRecord? ==> !op.options.contentIsUnbounded)
    requires forall k :: k in lost ==> k < |ops|
    ensures OpenAreNew(lost, ops + [op])
  {
    OpenSavesPrefix(ops, [op], |ops|);
    forall k | k in OpenSaves(ops + [op], |ops| + 1)
      ensures NewRecord(lost, ops + [op], k)
    {
      assert k in OpenSaves(ops, |ops|) || k == |ops|;
      assert k in OpenSaves(ops, |ops|) ==> NewRecord(lost, ops, k);
    }
  }

  lemma OpenAfterClose(ops: seq<Record>, k: nat, r: Record)
    requires k < |ops| && SameKind(ops[k], r) && OpenSaves(ops, |ops|) != []
    ensures var after := ops[k := r] + [RestoreRecord];
      OpenSaves(after, |after|) == OpenSaves(ops, |ops|)[..|OpenSaves(ops, |ops|)| - 1]
  {
    OpenSavesPatched(ops, k, r, |ops|);
    OpenSavesPrefix(ops[k := r], [RestoreRecord], |ops|);
    hide SameKind;
  }

  /** Closing the innermost open record leaves the others new. */
  lemma CloseKeepsNew(lost: set<nat>, ops: seq<Record>, k: nat, r: Record)
    requires OpenAreNew(lost, ops) && k < |ops| && SameKind(ops[k], r)
    requires var open := OpenSaves(ops, |ops|);
      open != [] && open[|open| - 1] == k
    ensures OpenAreNew(lost + {k}, ops[k := r] + [RestoreRecord]) && OpenAreNew(lost, ops[k := r] + [RestoreRecord])
  {
    OpenAfterClose(ops, k, r);
    OpenSavesIncrease(ops, |ops|);
    hide OpenSaves, SameKind;
    var open, after := OpenSaves(ops, |ops|), ops[k := r] + [RestoreRecord];
    forall i | i in open[..|open| - 1]
      ensures NewRecord(lost + {k}, after, i) && NewRecord(lost, after, i)
    {
      var j :| 0 <= j < |open| - 1 && open[j] == i;
      assert i in open && NewRecord(lost, ops, i);
      assert i < k;
    }
  }

  lemma RestoreKeepsNew(fx: FilterBounds, debt: Debt, s: BuilderState)
    requires WellFormed(s) && OpenAreNew(debt.lost, s.records)
    ensures OpenAreNew(RestoreDebt(fx, s, debt).lost, Restore(fx, s).records)
  {
    hide WellFormed, OpenAreNew, TransferFloods, ContentBounds;
    if s.below != [] {
      if s.top.mark.deferred {
        DeferredPops(fx, s);
      } else {
        RestoreIsReady(s);
        TopIsNew(debt.lost, s);
        RestorePatches(fx, s);
        var k := s.top.mark.saveOffset;
        CloseKeepsNew(debt.lost, s.records, k, Restore(fx, s).records[k]);
      }
      hide Restore;
    }
  }

  // ------------------------------------------------------------- all runs

  ghost predicate Refound(fx: FilterBounds, cull: Rect, debt: Debt, s: BuilderState) {
    WellFormed(s) && NoRecordBounds(s.records) && OpenAreNew(debt.lost, s.records)
      && Rebuilds(debt, s, Rebuilt(fx, cull, s.records))
  }

  lemma RebuiltRestore(fx: FilterBounds, cull: Rect, s: BuilderState)
    requires WellFormed(s) && s.below != [] && NoRecordBounds(s.records)
    ensures Rebuilt(fx, cull, Restore(fx, s).records) ==
      if s.top.mark.deferred then Rebuilt(fx, cull, s.records) else Restore(fx, Rebuilt(fx, cull, s.records))
  {
    if s.top.mark.deferred {
      DeferredPops(fx, s);
    } else {
      hide WellFormed, Rebuilt;
      RestoreIsReady(s);
      RestorePatches(fx, s);
      assert HasNoBounds(s.records[s.top.mark.saveOffset]);
      PatchedCall(fx, s);
      var k := s.top.mark.saveOffset;
      RebuiltPatched(fx, cull, s.records, k, Restore(fx, s).records[k]);
      RebuiltMore(fx, cull, s.records[k := Restore(fx, s).records[k]], RestoreRecord);
      hide Restore;
    }
  }

  lemma RestoreRefound(fx: FilterBounds, cull: Rect, debt: Debt, s: BuilderState)
    requires Refound(fx, cull, debt, s)
    ensures Refound(fx, cull, RestoreDebt(fx, s, debt), Restore(fx, s))
  {
    hide WellFormed, NoRecordBounds, Rebuilds, Rebuilt, OpenAreNew, RestoreDebt;
    RestoreKeepsNew(fx, debt, s);
    RestoreRebuilds(fx, debt, s, Rebuilt(fx, cull, s.records));
    RestoreKeepsForm(fx, s);
    RestoreAddsNoBounds(fx, s);
    if s.below != [] {
      RebuiltRestore(fx, cull, s);
      hide Restore;
    }
  }

  lemma {:induction false} RestoreToCountRefound(fx: FilterBounds, cull: Rect, debt: Debt, s: BuilderState, count: int)
    requires Refound(fx, cull, debt, s)
    ensures Refound(fx, cull, RestoresDebt(fx, s, debt, count), RestoreToCount(fx, s, count))
    decreases |s.below|
  {
    if s.below != [] && |s.below| + 1 > count {
      hide Refound, Restore, RestoreDebt;
      RestoreRefound(fx, cull, debt, s);
      RestoreShrinks(fx, s);
      RestoreToCountRefound(fx, cull, RestoreDebt(fx, s, debt), Restore(fx, s), count);
    }
  }

  lemma TransformRefound(fx: FilterBounds, cull: Rect, debt: Debt, s: BuilderState, op: TransformOp)
    requires Refound(fx, cull, debt, s)
    ensures Rebuilds(debt, Transform(s, op), Rebuilt(fx, cull, Transform(s, op).records))
  {
    hide Rebuilds, NoRecordBounds, Rebuilt, ChangesMatrix, Transformed, WellFormed;
    if ChangesMatrix(op) {
      var t := Rebuilt(fx, cull, s.records);
      if s.top.mark.deferred {
        DeferredIsPlain(s);
        TriggerRebuilds(debt, s, t);
        var u, v := CheckForDeferredSave(s), CheckForDeferredSave(Save(t));
        TransformAfterSave(s, op);
        TransformAfterSave(Save(t), op);
        TransformTriggered(debt, u, v, op);
        RebuiltMore(fx, cull, s.records, SaveRecord(0, 0));
        RebuiltMore(fx, cull, u.records, TransformRecord(op));
      } else {
        TransformTriggered(debt, s, t, op);
        RebuiltMore(fx, cull, s.records, TransformRecord(op));
      }
    }
  }

  lemma ClipRefound(fx: FilterBounds, cull: Rect, debt: Debt, s: BuilderState, r: Rect, op: ClipOp)
    requires Refound(fx, cull, debt, s)
    ensures Rebuilds(debt, Clip(s, r, op), Rebuilt(fx, cull, Clip(s, r, op).records))
  {
    hide Rebuilds, NoRecordBounds, Rebuilt, WellFormed, RecordsClip, Clip, CheckForDeferredSave;
    var t := Rebuilt(fx, cull, s.records);
    if !RecordsClip(s.top, r, op) {
      ClipUnrecorded(debt, s, t, r, op);
    } else if s.top.mark.deferred {
      DeferredClipRefound(fx, cull, debt, s, r, op);
    } else {
      ClipTriggered(debt, s, t, r, op);
      RebuiltMore(fx, cull, s.records, ClipRecord(r, op));
    }
  }

  lemma DeferredClipRefound(fx: FilterBounds, cull: Rect, debt: Debt, s: BuilderState, r: Rect, op: ClipOp)
    requires Refound(fx, cull, debt, s) && s.top.mark.deferred && RecordsClip(s.top, r, op)
    ensures Rebuilds(debt, Clip(s, r, op), Rebuilt(fx, cull, Clip(s, r, op).records))
  {
    var t := Rebuilt(fx, cull, s.records);
    MatchedClips(debt, s, t, r, op);
    RefoundForm(fx, cull, debt, s);
    DeferredIsPlain(s);
    SavedRecord(s);
    hide Rebuilds, Rebuilt, RecordsClip, Clip, Refound, CheckForDeferredSave, WellFormed, Save;
    TriggerRebuilds(debt, s, t);
    var u, v := CheckForDeferredSave(s), CheckForDeferredSave(Save(t));
    SavedClips(s, r, op);
    SavedClips(Save(t), r, op);
    ClipTriggered(debt, u, v, r, op);
    RebuiltSavedClip(fx, cull, s.records, r, op);
  }

  lemma RefoundForm(fx: FilterBounds, cull: Rect, debt: Debt, s: BuilderState)
    requires Refound(fx, cull, debt, s)
    ensures WellFormed(s) && Rebuilds(debt, s, Rebuilt(fx, cull, s.records))
  {
  }

  lemma SavedRecord(s: BuilderState)
    requires s.top.mark.deferred
    ensures CheckForDeferredSave(s).records == s.records + [SaveRecord(0, 0)]
    ensures !CheckForDeferredSave(s).top.mark.deferred
  {
  }

  lemma RebuiltSavedClip(fx: FilterBounds, cull: Rect, ops: seq<Record>, r: Rect, op: ClipOp)
    ensures Rebuilt(fx, cull, ops + [SaveRecord(0, 0)] + [ClipRecord(r, op)])
         == Clip(Save(Rebuilt(fx, cull, ops)), r, op)
  {
    RebuiltMore(fx, cull, ops, SaveRecord(0, 0));
    RebuiltMore(fx, cull, ops + [SaveRecord(0, 0)], ClipRecord(r, op));
    hide Rebuilt, Clip, Save;
  }

  /** Recording the save first does not change what the clip does. */
  lemma SavedClips(s: BuilderState, r: Rect, op: ClipOp)
    requires RecordsClip(s.top, r, op)
    ensures Clip(s, r, op) == Clip(CheckForDeferredSave(s), r, op)
    ensures RecordsClip(CheckForDeferredSave(s).top, r, op)
  {
    ClipAfterSave(s, r, op);
    hide Clip, Tracker.ClipRect, Tracker.RectCoversCull;
  }

  lemma MatchedClips(debt: Debt, s: BuilderState, t: BuilderState, r: Rect, op: ClipOp)
    requires Rebuilds(debt, s, t) && RecordsClip(s.top, r, op)
    ensures RecordsClip(Save(t).top, r, op)
  {
    TopMatches(s.below, s.top, t.below, t.top);
    ClippedSame(s.top, t.top, r, op);
    hide Tracker.ClipRect, Tracker.RectCoversCull, Match;
  }

  lemma StepRebuilds(fx: FilterBounds, cull: Rect, debt: Debt, s: BuilderState, call: Call)
    requires Refound(fx, cull, debt, s) && (call.SaveLayerCall? ==> call.bounds.None?)
    ensures Rebuilds(StepDebt(fx, s, debt, call), Step(fx, s, call), Rebuilt(fx, cull, Step(fx, s, call).records))
  {
    hide Rebuilds, NoRecordBounds, Rebuilt, WellFormed, Restore, RestoreToCount, Transform, Clip, SaveLayer, DrawOp,
      DrawDisplayList,
      ResultOf, DrawingDebt, LayerFloods, RestoreDebt, RestoresDebt, OpenAreNew, Attribute.ApplyTo;
    var t := Rebuilt(fx, cull, s.records);
    match call
    case SetAttributeCall(a) =>
      if a.ApplyTo(s.paint) != s.paint {
        AttributeRebuilds(fx, debt, s, t, a);
        RebuiltMore(fx, cull, s.records, AttributeOp(a));
      }
    case SaveCall => SaveRebuilds(debt, s, t, s.top.isNop);
    case SaveLayerCall(bounds, withPaint, backdrop) =>
      if ResultOf(s.top, s.paint, SaveLayerFlags(withPaint)) == NoEffect {
        SaveRebuilds(debt, s, t, true);
        DroppedLayerIsSave(fx, s, withPaint, backdrop);
      } else {
        LayerRebuilds(fx, debt, s, t, withPaint, backdrop);
        RebuiltMore(fx, cull, s.records, NewSaveLayerRecord(withPaint, None, backdrop));
      }
    case RestoreCall =>
      RestoreRefound(fx, cull, debt, s);
    case RestoreToCountCall(count) =>
      RestoreToCountRefound(fx, cull, debt, s, count);
    case TransformCall(op) => TransformRefound(fx, cull, debt, s, op);
    case ClipCall(r, op) => ClipRefound(fx, cull, debt, s, r, op);
    case DrawCall(d) =>
      if DrawOp(fx, s, d).records == s.records {
        DroppedDrawing(fx, debt, s, t, call);
      } else {
        DrawRebuilds(fx, debt, s, t, d);
        RebuiltMore(fx, cull, s.records, DrawRecord(d));
      }
    case DrawListCall(list, opacity) =>
      if DrawDisplayList(s, list, opacity).records == s.records {
        DroppedDrawing(fx, debt, s, t, call);
      } else {
        ListRebuilds(fx, debt, s, t, list, opacity);
        RebuiltMore(fx, cull, s.records, DrawListRecord(list, Min(opacity, 1.0)));
      }
  }

  lemma DroppedLayerIsSave(fx: FilterBounds, s: BuilderState, withPaint: bool, backdrop: Option<ImageFilter>)
    requires ResultOf(s.top, s.paint, SaveLayerFlags(withPaint)) == NoEffect
    ensures SaveLayer(fx, s, None, withPaint, backdrop) == Save(s).(top := Save(s).top.(isNop := true))
    ensures SaveLayer(fx, s, None, withPaint, backdrop).records == s.records
  {
    hide ResultOf;
  }

  lemma StepKeepsNew(fx: FilterBounds, debt: Debt, s: BuilderState, call: Call)
    requires WellFormed(s) && OpenAreNew(debt.lost, s.records) && forall k :: k in debt.lost ==> k < |s.records|
    ensures OpenAreNew(StepDebt(fx, s, debt, call).lost, Step(fx, s, call).records)
  {
    hide WellFormed, OpenAreNew, AccumulateGeometry, AccumulateRects, AccumulateUnbounded, PaintResult, ListIsVisible,
      ClipIsRedundant, CullIsEmpty, Tracker.ClipRect, Restore, RestoreToCount, AccumulateLayer, LayerEntry,
      IsOpacityCompatible, ChangesMatrix, RestoreDebt, RestoresDebt, Floods, NothingToFlood, LayerFloods,
      Attribute.ApplyTo;
    var u := Step(fx, s, call);
    match call
    case SetAttributeCall(a) => PushesKeepNew(debt.lost, s, u, AttributeOp(a));
    case SaveCall =>
    case SaveLayerCall(bounds, withPaint, backdrop) =>
      PushesKeepNew(debt.lost, s, u, NewSaveLayerRecord(withPaint, bounds, backdrop));
    case RestoreCall => RestoreKeepsNew(fx, debt, s);
    case RestoreToCountCall(count) => RestoresKeepNew(fx, debt, s, count);
    case TransformCall(t) => PushesKeepNew(debt.lost, s, u, TransformRecord(t));
    case ClipCall(r, op) => PushesKeepNew(debt.lost, s, u, ClipRecord(r, op));
    case DrawCall(d) => PushesKeepNew(debt.lost, s, u, DrawRecord(d));
    case DrawListCall(list, opacity) => PushesKeepNew(debt.lost, s, u, DrawListRecord(list, Min(opacity, 1.0)));
  }

  lemma PushesKeepNew(lost: set<nat>, s: BuilderState, u: BuilderState, op: Record)
    requires OpenAreNew(lost, s.records) && !op.RestoreRecord?
    requires (op.SaveLayerRecord? ==> !op.options.contentIsUnbounded)
    requires forall k :: k in lost ==> k < |s.records|
    requires || u.records == s.records || u.records == s.records + [op]
      || u.records == s.records + [SaveRecord(0, 0)] + [op]
    ensures OpenAreNew(lost, u.records)
  {
    hide OpenAreNew;
    PushKeepsNew(lost, s.records, op);
    PushKeepsNew(lost, s.records, SaveRecord(0, 0));
    PushKeepsNew(lost, s.records + [SaveRecord(0, 0)], op);
  }

  lemma {:induction false} RestoresKeepNew(fx: FilterBounds, debt: Debt, s: BuilderState, count: int)
    requires WellFormed(s) && OpenAreNew(debt.lost, s.records)
    ensures OpenAreNew(RestoresDebt(fx, s, debt, count).lost, RestoreToCount(fx, s, count).records)
    decreases |s.below|
  {
    if s.below != [] && |s.below| + 1 > count {
      hide WellFormed, OpenAreNew, Restore, RestoreDebt;
      RestoreKeepsNew(fx, debt, s);
      RestoreKeepsForm(fx, s);
      RestoreShrinks(fx, s);
      RestoresKeepNew(fx, RestoreDebt(fx, s, debt), Restore(fx, s), count);
    }
  }

  lemma LostAreRecords(debt: Debt, s: BuilderState, t: BuilderState)
    requires Rebuilds(debt, s, t)
    ensures forall k :: k in debt.lost ==> k < |s.records|
  {
  }

  lemma StepRefound(fx: FilterBounds, cull: Rect, debt: Debt, s: BuilderState, call: Call)
    requires Refound(fx, cull, debt, s) && (call.SaveLayerCall? ==> call.bounds.None?)
    ensures Refound(fx, cull, StepDebt(fx, s, debt, call), Step(fx, s, call))
  {
    StepRebuilds(fx, cull, debt, s, call);
    LostAreRecords(debt, s, Rebuilt(fx, cull, s.records));
    hide WellFormed, NoRecordBounds, Rebuilds, Rebuilt, Step, StepDebt, OpenAreNew;
    StepKeepsForm(fx, s, call);
    StepAddsNoBounds(fx, s, call);
    StepKeepsNew(fx, debt, s, call);
  }

  lemma InitRefound(fx: FilterBounds, cull: Rect)
    ensures Refound(fx, cull, NO_DEBT, Init(cull))
  {
    InitIsWellFormed(cull);
    assert Calls([]) == [];
    hide WellFormed;
  }

  lemma {:induction false} RunRefound(fx: FilterBounds, cull: Rect, calls: seq<Call>)
    requires NoCallerBounds(calls)
    ensures Refound(fx, cull, RunDebt(fx, cull, calls), Run(fx, cull, calls))
  {
    if calls == [] {
      InitRefound(fx, cull);
    } else {
      var init := calls[..|calls| - 1];
      hide Refound, Step, StepDebt;
      RunRefound(fx, cull, init);
      StepRefound(fx, cull, RunDebt(fx, cull, init), Run(fx, cull, init), calls[|calls| - 1]);
    }
  }

  lemma ClosedIsFinished(fx: FilterBounds, cull: Rect, debt: Debt, s: BuilderState)
    requires Refound(fx, cull, debt, s) && s.below == []
    ensures Finished(fx, cull, Calls(s.records)) == Rebuilt(fx, cull, s.records)
    ensures Rebuilds(debt, s, Rebuilt(fx, cull, s.records))
  {
    hide RecordsSame, LayersSame, LayerSame, WellFormed, Run, OpenAreNew;
  }

  lemma Refinds(fx: FilterBounds, cull: Rect, calls: seq<Call>)
    requires NoCallerBounds(calls)
    ensures var built := Finished(fx, cull, calls);
      Rebuilds(FinalDebt(fx, cull, calls), built, Finished(fx, cull, Calls(built.records)))
    ensures Finished(fx, cull, calls).below == [] && Finished(fx, cull, calls).outer == []
  {
    hide Refound, Run, RunDebt, RestoreToCount, RestoresDebt, Rebuilds;
    RunRefound(fx, cull, calls);
    RestoreToCountRefound(fx, cull, RunDebt(fx, cull, calls), Run(fx, cull, calls), 1);
    RunIsWellFormed(fx, cull, calls);
    RestoreToCountKeepsForm(fx, Run(fx, cull, calls), 1);
    ClosedIsFinished(fx, cull, FinalDebt(fx, cull, calls), Finished(fx, cull, calls));
    ClosedHasNoOuter(Finished(fx, cull, calls));
  }

  lemma ClosedHasNoOuter(s: BuilderState)
    requires WellFormed(s) && s.below == []
    ensures s.outer == []
  {
    hide Nested;
    assert Layers([s.top]) == Layers([]) + 1 by { LayersOfPush([], s.top); assert [] + [s.top] == [s.top]; }
  }

  /** Dispatching a built list into a fresh builder records it again: the same depth, the
      same r-tree entries, and the same records and root but for the marks as unbounded
      that the debts name. So the two builders end alike if and only if no layer closed
      with a debt, and the root has none. */
  lemma RecordingIsAFixpoint(fx: FilterBounds, cull: Rect, calls: seq<Call>)
    requires NoCallerBounds(calls)
    ensures var built := Finished(fx, cull, calls);
      var again := Finished(fx, cull, Calls(built.records));
      var debt := FinalDebt(fx, cull, calls);
      && RecordsSame(debt.lost, built.records, again.records)
      && again.rtree == built.rtree && again.depth == built.depth && again.paint == built.paint
      && LayerSame(debt.top, built.layer, again.layer)
      && (again == built.(top := again.top) <==> debt.lost == {} && !debt.top)
  {
    Refinds(fx, cull, calls);
    hide *;
    RebuiltExactly(FinalDebt(fx, cull, calls), Finished(fx, cull, calls),
                   Finished(fx, cull, Calls(Finished(fx, cull, calls).records)));
  }

  lemma RebuiltExactly(debt: Debt, s: BuilderState, t: BuilderState)
    requires Rebuilds(debt, s, t) && s.below == [] && s.outer == []
    ensures RecordsSame(debt.lost, s.records, t.records) && t.rtree == s.rtree && t.depth == s.depth
    ensures t.paint == s.paint
    ensures LayerSame(debt.top, s.layer, t.layer)
    ensures t == s.(top := t.top) <==> debt.lost == {} && !debt.top
  {
    if k :| k in debt.lost {
      assert RecordSame(true, s.records[k], t.records[k]);
      assert t.records[k] != s.records[k];
    } else {
      assert t.records == s.records;
    }
    assert t.outer == s.outer;
  }

  // -------------------------------------------------- a list that loses a mark

  lemma RestoreSettles(fx: FilterBounds, s: BuilderState)
    requires s.below != [] && !s.top.mark.deferred && s.top.mark.isSaveLayer && NamesItsSave(s) && s.outer != []
    ensures var k := s.top.mark.saveOffset;
      |Restore(fx, s).records| > k && Restore(fx, s).records[k].SaveLayerRecord?
      && Restore(fx, s).records[k].options.contentIsUnbounded ==
           (s.records[k].options.contentIsUnbounded || s.layer.flags.isUnbounded)
  {
    hide TransferLayerBounds, ContentBounds, ContentIsClipped, LayerInfo.IsGroupOpacityCompatible, DepthCost;
  }

  const FLOOD := Draw(0, Flood, 1, DRAW_FLAGS, None, false, false)
  const SURFACE := Rect(0.0, 0.0, 10.0, 10.0)

  /** A layer, a scale by zero, a drawing that floods, and the restore. */
  const LOSING := [SaveLayerCall(None, false, None), TransformCall(Scale(0.0, 1.0)), DrawCall(FLOOD), RestoreCall]

  /** The layer of this example after its transform, with and without the drawing. */
  lemma LosingLayer(fx: FilterBounds)
    ensures var s := Transform(SaveLayer(fx, Init(SURFACE), None, false, None), Scale(0.0, 1.0));
      && s.records == [NewSaveLayerRecord(false, None, None), TransformRecord(Scale(0.0, 1.0))]
      && s.below == [Init(SURFACE).top] && s.top.mark == SaveMark(true, false, 0, 0)
      && |s.outer| == 1 && !s.layer.flags.isUnbounded && !s.top.isNop
      && DrawOp(fx, s, FLOOD) == s.(layer := s.layer.MarkUnbounded(true))
  {
    hide Rect.RoundOut, Accumulation.Add, BlendMode.Rank;
    var entered := SaveLayer(fx, Init(SURFACE), None, false, None);
    assert entered.records == [NewSaveLayerRecord(false, None, None)];
    var s := Transform(entered, Scale(0.0, 1.0));
    assert s.top.global.matrix.sx == 0.0;
    assert !s.top.global.matrix.IsInvertible();
    hide Matrix.Times, Matrix.MapBounds;
    assert s.top.global.LocalCullCoverage() == EMPTY_RECT;
    assert s.top.layer.MapAndClip(EMPTY_RECT).None? by { EmptyMapsToNothing(s.top.layer); }
  }

  lemma EmptyMapsToNothing(t: Tracker)
    ensures t.MapAndClip(EMPTY_RECT).None?
  {
  }

  lemma RunMore(fx: FilterBounds, cull: Rect, calls: seq<Call>, call: Call)
    ensures Run(fx, cull, calls + [call]) == Step(fx, Run(fx, cull, calls), call)
  {
    assert (calls + [call])[..|calls|] == calls;
    hide Step;
  }

  function Layered(fx: FilterBounds): BuilderState {
    Transform(SaveLayer(fx, Init(SURFACE), None, false, None), Scale(0.0, 1.0))
  }

  lemma RunsOfLosing(fx: FilterBounds)
    ensures Run(fx, SURFACE, LOSING) == Restore(fx, DrawOp(fx, Layered(fx), FLOOD))
    ensures Run(fx, SURFACE, [SaveLayerCall(None, false, None), TransformCall(Scale(0.0, 1.0)), RestoreCall])
      == Restore(fx, Layered(fx))
  {
    hide SaveLayer, Transform, Restore, DrawOp, Run, Init;
    var a, b := SaveLayerCall(None, false, None), TransformCall(Scale(0.0, 1.0));
    assert Run(fx, SURFACE, []) == Init(SURFACE) by { RunOfNothing(fx); }
    RunMore(fx, SURFACE, [], a);
    RunMore(fx, SURFACE, [a], b);
    RunMore(fx, SURFACE, [a, b], RestoreCall);
    RunMore(fx, SURFACE, [a, b], DrawCall(FLOOD));
    RunMore(fx, SURFACE, [a, b, DrawCall(FLOOD)], RestoreCall);
    assert [] + [a] == [a] && [a] + [b] == [a, b];
    assert [a, b] + [RestoreCall] == [a, b, RestoreCall];
    assert [a, b] + [DrawCall(FLOOD)] == [a, b, DrawCall(FLOOD)];
    assert [a, b, DrawCall(FLOOD)] + [RestoreCall] == LOSING;
  }

  lemma RunOfNothing(fx: FilterBounds)
    ensures Run(fx, SURFACE, []) == Init(SURFACE)
  {
  }

  /** Closing the layer of the example, with any flags. */
  lemma ClosesLosing(fx: FilterBounds, s: BuilderState)
    requires s.records == [NewSaveLayerRecord(false, None, None), TransformRecord(Scale(0.0, 1.0))]
    requires s.below == [Init(SURFACE).top] && s.top.mark == SaveMark(true, false, 0, 0) && |s.outer| == 1
    ensures var t := Restore(fx, s);
      && t.below == [] && |t.records| == 3
      && t.records[0].SaveLayerRecord? && t.records[0].options.contentIsUnbounded == s.layer.flags.isUnbounded
      && Calls(t.records) == [SaveLayerCall(None, false, None), TransformCall(Scale(0.0, 1.0)), RestoreCall]
  {
    hide Restore;
    assert NamesItsSave(s);
    RestoreSettles(fx, s);
    RestorePatches(fx, s);
    assert HasNoBounds(s.records[0]);
    PatchedCall(fx, s);
    var t := Restore(fx, s);
    assert t.records == s.records[0 := t.records[0]] + [RestoreRecord];
    assert t.records[1] == TransformRecord(Scale(0.0, 1.0)) && t.records[2] == RestoreRecord;
  }

  /** The list of the example is not a fixpoint: the flag of its layer is lost. */
  lemma LosingListIsNoFixpoint(fx: FilterBounds)
    ensures var built := Finished(fx, SURFACE, LOSING);
      var again := Finished(fx, SURFACE, Calls(built.records));
      && |built.records| == |again.records| == 3
      && built.records[0].SaveLayerRecord? && built.records[0].options.contentIsUnbounded
      && again.records[0].SaveLayerRecord? && !again.records[0].options.contentIsUnbounded
  {
    LosingLayer(fx);
    RunsOfLosing(fx);
    var s := Layered(fx);
    hide SaveLayer, Transform, Restore, DrawOp, Run, Init, Calls;
    ClosesLosing(fx, s);
    ClosesLosing(fx, DrawOp(fx, s, FLOOD));
    var built := Run(fx, SURFACE, LOSING);
    assert Finished(fx, SURFACE, LOSING) == built;
    assert Finished(fx, SURFACE, Calls(built.records)) == Restore(fx, s);
  }
}
