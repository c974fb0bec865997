/**
 Deferred saves refine eager ones: a builder that records a save only when a
 transform or a clip needs it shows every drawing exactly as one that records every
 save at once.
 */
module DisplayListDeferral {
  import opened Options
  import opened DisplayListTypes
  import opened DisplayListPaint
  import opened DisplayListBuilderSpec
  import opened DisplayListNesting
  import opened DisplayListRTree
  import opened DisplayListScene

  /** The eager builder records the save of an entry as soon as it is pushed. */
  function EagerStep(fx: FilterBounds, s: BuilderState, call: Call): BuilderState {
    CheckForDeferredSave(Step(fx, s, call))
  }

  function EagerRun(fx: FilterBounds, cull: Rect, calls: seq<Call>): BuilderState {
    if calls == [] then Init(cull)
    else EagerStep(fx, EagerRun(fx, cull, calls[..|calls| - 1]), calls[|calls| - 1])
  }

  function EagerFinished(fx: FilterBounds, cull: Rect, calls: seq<Call>): BuilderState {
    RestoreToCount(fx, EagerRun(fx, cull, calls), 1)
  }

  // ---------------------------------------------------- what the two share

  function Bare(info: SaveInfo): SaveInfo {
    info.(mark := SaveMark(info.mark.isSaveLayer, false, 0, 0))
  }

  ghost predicate SameEntries(a: seq<SaveInfo>, b: seq<SaveInfo>) {
    |a| == |b| && forall k :: 0 <= k < |a| ==> Bare(a[k]) == Bare(b[k])
  }

  predicate SameTree(a: RTreeData, b: RTreeData) {
    a.rects == b.rects && |a.indices| == |b.indices|
  }

  ghost predicate SameState(s: BuilderState, e: BuilderState) {
    && s.paint == e.paint && s.depth == e.depth
    && s.outer == e.outer && s.layer == e.layer
    && SameTree(s.rtree, e.rtree)
    && SameEntries(s.below, e.below) && Bare(s.top) == Bare(e.top)
  }

  /** The levels of the two scenes: one per entry in the eager scene, one per entry
      with a record in the other; a deferred entry shares the level below it. */
  ghost predicate Aligned(below: seq<SaveInfo>, top: SaveInfo, eager: seq<Level>, eagerTop: Level, lazy: seq<Level>,
                          lazyTop: Level)
    decreases |below|
  {
    && eagerTop == lazyTop && |eager| == |below|
    && (below == [] ==> lazy == [])
    && (below != [] ==>
          var n := |below| - 1;
          if top.mark.deferred then
            Aligned(below[..n], below[n], eager[..n], eager[n], lazy, lazyTop)
          else
            lazy != [] && Aligned(below[..n], below[n], eager[..n], eager[n], lazy[..|lazy| - 1], lazy[|lazy| - 1]))
  }

  ghost predicate SameScene(s: BuilderState, e: BuilderState) {
    var lazy, eager := ShowAll(s.records), ShowAll(e.records);
    && lazy.drawn == eager.drawn && lazy.paint == eager.paint
    && Aligned(s.below, s.top, eager.below, eager.top, lazy.below, lazy.top)
  }

  /** The two records of an open layer hold the same bounds from the caller. */
  predicate SameBounds(ops: seq<Record>, m: SaveMark, eager: seq<Record>, em: SaveMark) {
    m.isSaveLayer ==>
      && m.saveOffset < |ops| && em.saveOffset < |eager|
      && ops[m.saveOffset].SaveLayerRecord? && eager[em.saveOffset].SaveLayerRecord?
      && ops[m.saveOffset].bounds == eager[em.saveOffset].bounds
      && ops[m.saveOffset].options.boundsFromCaller == eager[em.saveOffset].options.boundsFromCaller
  }

  ghost predicate BoundsAgree(ops: seq<Record>, below: seq<SaveInfo>, top: SaveInfo,
                              eager: seq<Record>, eagerBelow: seq<SaveInfo>, eagerTop: SaveInfo)
  {
    && |below| == |eagerBelow|
    && (below != [] ==> SameBounds(ops, top.mark, eager, eagerTop.mark))
    && (forall i :: 1 <= i < |below| ==> SameBounds(ops, below[i].mark, eager, eagerBelow[i].mark))
  }

  ghost predicate Eager(below: seq<SaveInfo>, top: SaveInfo) {
    !top.mark.deferred && forall i :: 0 <= i < |below| ==> Triggered(below[i])
  }

  predicate Triggered(info: SaveInfo) {
    !info.mark.deferred
  }

  ghost predicate Refines(s: BuilderState, e: BuilderState) {
    && SameState(s, e) && SameScene(s, e)
    && BoundsAgree(s.records, s.below, s.top, e.records, e.below, e.top)
    && WellFormed(s) && WellFormed(e) && Bookkept(s) && Eager(e.below, e.top)
  }

  // ------------------------------------------- accumulation does not see ids

  lemma UnboundedAgrees(layer: LayerInfo, a: RTreeData, b: RTreeData, info: SaveInfo, other: SaveInfo, id: nat,
                        otherId: nat)
    requires SameTree(a, b) && Bare(info) == Bare(other)
    ensures var x, y := AccumulateUnbounded(layer, a, info, id), AccumulateUnbounded(layer, b, other, otherId);
      x.layer == y.layer && x.ok == y.ok && SameTree(x.rtree, y.rtree)
  {
    hide Tracker.MapAndClip, Tracker.LocalCullCoverage, Accumulation.Add;
  }

  lemma BoundsAccumulateAlike(layer: LayerInfo, a: RTreeData, b: RTreeData, info: SaveInfo, other: SaveInfo, id: nat,
                              otherId: nat, r: Rect)
    requires SameTree(a, b) && Bare(info) == Bare(other)
    ensures var x, y := AccumulateBounds(layer, a, info, id, r), AccumulateBounds(layer, b, other, otherId, r);
      x.layer == y.layer && x.ok == y.ok && SameTree(x.rtree, y.rtree)
  {
    hide Tracker.MapAndClip, Accumulation.Add;
  }

  lemma {:induction false} RectsAccumulateAlike(layer: LayerInfo, a: RTreeData, b: RTreeData, info: SaveInfo,
                                                other: SaveInfo, id: nat, otherId: nat, rects: seq<Rect>)
    requires SameTree(a, b) && Bare(info) == Bare(other)
    ensures var x, y := AccumulateRects(layer, a, info, id, rects), AccumulateRects(layer, b, other, otherId, rects);
      x.layer == y.layer && x.ok == y.ok && SameTree(x.rtree, y.rtree)
  {
    if rects != [] {
      hide AccumulateBounds, SameTree;
      var init := rects[..|rects| - 1];
      RectsAccumulateAlike(layer, a, b, info, other, id, otherId, init);
      var x, y := AccumulateRects(layer, a, info, id, init), AccumulateRects(layer, b, other, otherId, init);
      BoundsAccumulateAlike(x.layer, x.rtree, y.rtree, info, other, id, otherId, rects[|rects| - 1]);
    }
  }

  lemma GeometryAgrees(fx: FilterBounds, s: BuilderState, e: BuilderState, d: Draw)
    requires SameState(s, e)
    ensures var x, y := AccumulateGeometry(fx, s, d), AccumulateGeometry(fx, e, d);
      x.layer == y.layer && x.ok == y.ok && SameTree(x.rtree, y.rtree)
  {
    hide AccumulateBounds, AccumulateUnbounded, AdjustBoundsForPaint, SameTree;
    UnboundedAgrees(s.layer, s.rtree, e.rtree, s.top, e.top, |s.records|, |e.records|);
    if d.geometry.Box? {
      var adjusted := AdjustBoundsForPaint(fx, PaintOf(s.paint, d), d.flags, d.geometry.bounds);
      if adjusted.Some? {
        BoundsAccumulateAlike(s.layer, s.rtree, e.rtree, s.top, e.top, |s.records|, |e.records|, adjusted.value);
      }
    }
  }

  lemma LayersAgree(s: BuilderState, e: BuilderState, withPaint: bool, backdrop: Option<ImageFilter>)
    requires SameState(s, e)
    ensures var x, y := AccumulateLayer(s, withPaint, backdrop), AccumulateLayer(e, withPaint, backdrop);
      x.layer == y.layer && SameTree(x.rtree, y.rtree)
  {
    hide AccumulateUnbounded, PaintResult, IsOpacityCompatible, LayerFloods, SameTree;
    var layer := s.layer.MarkBackdrop(backdrop.Some?)
                        .UpdateOpacityCompatibility(!withPaint || IsOpacityCompatible(s.paint))
                        .UpdateResult(PaintResult(s.paint, SaveLayerFlags(withPaint)), BlendModeOf(s.paint, withPaint));
    UnboundedAgrees(layer, s.rtree, e.rtree, s.top, e.top, |s.records|, |e.records|);
  }

  lemma {:induction false} AdjustAgrees(fx: FilterBounds, filter: ImageFilter, matrix: Matrix, clip: Rect,
                                        a: RTreeData, b: RTreeData, start: nat, n: nat)
    requires SameTree(a, b) && start <= n <= |a.rects| == |a.indices|
    ensures SameTree(AdjustRTreeRects(fx, filter, matrix, clip, a, start, n),
                     AdjustRTreeRects(fx, filter, matrix, clip, b, start, n))
  {
    if n > start {
      hide AdjustRect;
      AdjustAgrees(fx, filter, matrix, clip, a, b, start, n - 1);
    }
  }

  lemma TransferAgrees(fx: FilterBounds, layer: LayerInfo, a: RTreeData, b: RTreeData, parent: SaveInfo,
                       other: SaveInfo, parentLayer: LayerInfo, id: nat, otherId: nat, content: Rect)
    requires SameTree(a, b) && Bare(parent) == Bare(other) && CanAdjust(a, layer.rtreeStart)
    ensures var x, y := TransferLayerBounds(fx, layer, a, parent, parentLayer, id, content),
                        TransferLayerBounds(fx, layer, b, other, parentLayer, otherId, content);
      x.layer == y.layer && SameTree(x.rtree, y.rtree)
  {
    hide AccumulateUnbounded, AdjustRTreeRects, AccumulateBoundsLocal;
    AccumulatesLocally(parentLayer, parent, other);
    if layer.filter.Some? {
      var f := layer.filter.value;
      AdjustAgrees(fx, f, parent.global.matrix, parent.global.cull, a, b, layer.rtreeStart, |a.rects|);
      UnboundedAgrees(parentLayer,
                      AdjustRTreeRects(fx, f, parent.global.matrix, parent.global.cull, a, layer.rtreeStart, |a.rects|),
                      AdjustRTreeRects(fx, f, parent.global.matrix, parent.global.cull, b, layer.rtreeStart, |b.rects|),
                      parent, other, id, otherId);
    }
  }

  lemma AccumulatesLocally(layer: LayerInfo, info: SaveInfo, other: SaveInfo)
    requires Bare(info) == Bare(other)
    ensures forall r :: AccumulateBoundsLocal(layer, info, r) == AccumulateBoundsLocal(layer, other, r)
  {
    hide Tracker.MapAndClip, Accumulation.Add;
  }

  // -------------------------------------------------------- bounds of layers

  lemma BoundsSurvivePush(ops: seq<Record>, below: seq<SaveInfo>, top: SaveInfo, more: seq<Record>,
                          eager: seq<Record>, eagerBelow: seq<SaveInfo>, eagerTop: SaveInfo, eagerMore: seq<Record>)
    requires BoundsAgree(ops, below, top, eager, eagerBelow, eagerTop)
    ensures BoundsAgree(ops + more, below, top, eager + eagerMore, eagerBelow, eagerTop)
  {
    forall m, em | SameBounds(ops, m, eager, em)
      ensures SameBounds(ops + more, m, eager + eagerMore, em)
    {
    }
  }

  lemma BoundsSurvivePatch(s: BuilderState, e: BuilderState, patched: Record, eagerPatched: Record)
    requires BoundsAgree(s.records, s.below, s.top, e.records, e.below, e.top)
    requires WellFormed(s) && WellFormed(e) && Eager(e.below, e.top) && SameEntries(s.below, e.below) && s.below != []
    requires !s.top.mark.deferred && s.top.mark.saveOffset < |s.records| && e.top.mark.saveOffset < |e.records|
    ensures BoundsAgree(s.records[s.top.mark.saveOffset := patched], s.below[..|s.below| - 1], s.below[|s.below| - 1],
                        e.records[e.top.mark.saveOffset := eagerPatched], e.below[..|e.below| - 1],
                        e.below[|e.below| - 1])
  {
    hide Nested, LayersMatch;
    var n := |s.below|;
    forall i | 1 <= i < n
      ensures SameBounds(s.records[s.top.mark.saveOffset := patched], s.below[i].mark,
                         e.records[e.top.mark.saveOffset := eagerPatched], e.below[i].mark)
    {
      assert SameBounds(s.records, s.below[i].mark, e.records, e.below[i].mark);
      assert Triggered(e.below[i]) && Bare(s.below[i]) == Bare(e.below[i]);
      if s.below[i].mark.isSaveLayer {
        LayersAreTriggered(s, i);
        TopRecordIsLast(s.records, s.below, s.top, i);
        TopRecordIsLast(e.records, e.below, e.top, i);
      }
    }
  }

  // ------------------------------------------------------------- the scenes

  /** A record that changes neither the levels nor the save stack: attributes and drawings. */
  lemma SameRecordShowsAlike(s: BuilderState, e: BuilderState, op: Record, t: BuilderState, f: BuilderState)
    requires SameScene(s, e) && (op.AttributeOp? || op.IsRendering())
    requires t.records == s.records + [op] && f.records == e.records + [op]
    requires t.below == s.below && t.top == s.top
    ensures SameScene(t, f)
  {
    hide Aligned;
    ShowMore(s.records, op);
    ShowMore(e.records, op);
    TopLevelsAgree(s, e);
  }

  lemma TopLevelsAgree(s: BuilderState, e: BuilderState)
    requires SameScene(s, e)
    ensures ShowAll(s.records).top == ShowAll(e.records).top
  {
  }

  /** A transform or clip under a triggered entry. */
  lemma LevelRecordShowsAlike(s: BuilderState, e: BuilderState, op: Record, t: BuilderState, f: BuilderState)
    requires SameScene(s, e) && (op.TransformRecord? || op.ClipRecord?) && !s.top.mark.deferred
    requires t.records == s.records + [op] && f.records == e.records + [op]
    requires t.below == s.below && t.top.mark == s.top.mark
    ensures SameScene(t, f)
  {
    ShowMore(s.records, op);
    ShowMore(e.records, op);
    var lazy, eager := ShowAll(s.records), ShowAll(e.records);
    LevelChangesAlike(s.below, s.top, t.top, eager.below, eager.top, lazy.below, lazy.top, Show(eager, op).top);
  }

  lemma LevelChangesAlike(below: seq<SaveInfo>, top: SaveInfo, newTop: SaveInfo, eager: seq<Level>, eagerTop: Level,
                          lazy: seq<Level>, lazyTop: Level, level: Level)
    requires Aligned(below, top, eager, eagerTop, lazy, lazyTop) && !top.mark.deferred && newTop.mark == top.mark
    ensures Aligned(below, newTop, eager, level, lazy, level)
  {
  }

  lemma TriggerShowsNothing(s: BuilderState, e: BuilderState)
    requires SameScene(s, e) && WellFormed(s)
    ensures SameScene(CheckForDeferredSave(s), e)
  {
    if s.top.mark.deferred {
      var op := SaveRecord(0, 0);
      ShowMore(s.records, op);
      var lazy := Show(ShowAll(s.records), op);
      assert lazy.below[..|lazy.below| - 1] == ShowAll(s.records).below;
    }
  }

  lemma SaveShowsAlike(s: BuilderState, e: BuilderState, t: BuilderState, f: BuilderState)
    requires SameScene(s, e)
    requires t.records == s.records && f.records == e.records + [SaveRecord(0, 0)]
    requires t.below == s.below + [s.top] && t.top.mark.deferred
    ensures SameScene(t, f)
  {
    ShowMore(e.records, SaveRecord(0, 0));
    var lazy, eager := ShowAll(s.records), ShowAll(e.records);
    AlignedEnters(s.below, s.top, t.top, eager.below, eager.top, lazy.below, lazy.top, eager.top);
  }

  lemma AlignedEnters(below: seq<SaveInfo>, top: SaveInfo, newTop: SaveInfo, eager: seq<Level>, eagerTop: Level,
                      lazy: seq<Level>, lazyTop: Level, level: Level)
    requires Aligned(below, top, eager, eagerTop, lazy, lazyTop)
    ensures newTop.mark.deferred && level == eagerTop ==>
      Aligned(below + [top], newTop, eager + [eagerTop], level, lazy, level)
    ensures !newTop.mark.deferred ==> Aligned(below + [top], newTop, eager + [eagerTop], level, lazy + [lazyTop], level)
  {
    assert (below + [top])[..|below|] == below && (eager + [eagerTop])[..|below|] == eager;
    assert (lazy + [lazyTop])[..|lazy|] == lazy;
  }

  lemma LayerShowsAlike(s: BuilderState, e: BuilderState, op: Record, t: BuilderState, f: BuilderState)
    requires SameScene(s, e) && op.SaveLayerRecord?
    requires t.records == s.records + [op] && f.records == e.records + [op]
    requires t.below == s.below + [s.top] && !t.top.mark.deferred
    ensures SameScene(t, f)
  {
    hide Aligned;
    ShowMore(s.records, op);
    ShowMore(e.records, op);
    var lazy, eager := ShowAll(s.records), ShowAll(e.records);
    TopLevelsAgree(s, e);
    AlignedEnters(s.below, s.top, t.top, eager.below, eager.top, lazy.below, lazy.top, Show(eager, op).top);
  }

  /** Closing an entry: the eager builder records a restore, the other one only if the
      entry was triggered. */
  lemma CloseShowsAlike(s: BuilderState, e: BuilderState, t: BuilderState, f: BuilderState)
    requires SameScene(s, e) && s.below != []
    requires t.below == s.below[..|s.below| - 1] && t.top == s.below[|s.below| - 1]
    requires if s.top.mark.deferred then t.records == s.records
             else ShowAll(t.records) == Show(ShowAll(s.records), RestoreRecord)
    requires ShowAll(f.records) == Show(ShowAll(e.records), RestoreRecord)
    ensures SameScene(t, f)
  {
  }

  lemma ClosedStreamShows(ops: seq<Record>, k: nat, patched: Record, more: seq<Record>)
    requires k < |ops| && ShowAlike(ops[k], patched) && more == ops[k := patched] + [RestoreRecord]
    ensures ShowAll(more) == Show(ShowAll(ops), RestoreRecord)
  {
    ShowMore(ops[k := patched], RestoreRecord);
    ShowPatched(ops, k, patched);
  }

  // --------------------------------------------------------------- the calls

  lemma DrawRefines(fx: FilterBounds, s: BuilderState, e: BuilderState, call: Call)
    requires Refines(s, e) && (call.SetAttributeCall? || call.DrawCall? || call.DrawListCall?)
    ensures SameState(Step(fx, s, call), Step(fx, e, call))
    ensures SameScene(Step(fx, s, call), Step(fx, e, call))
    ensures var t, f := Step(fx, s, call), Step(fx, e, call);
      BoundsAgree(t.records, t.below, t.top, f.records, f.below, f.top)
  {
    hide WellFormed, Bookkept, Eager, SameScene, BoundsAgree, AccumulateGeometry, AccumulateRects, AccumulateUnbounded,
      ResultOf, ListIsVisible, LayerAfterList, IsOpacityCompatible, Attribute.ApplyTo, SameTree;
    var t, f := Step(fx, s, call), Step(fx, e, call);
    match call {
      case SetAttributeCall(a) => {}
      case DrawCall(d) => {
        GeometryAgrees(fx, s, e, d);
        assert ResultOf(s.top, PaintOf(s.paint, d), d.flags) == ResultOf(e.top, PaintOf(e.paint, d), d.flags) by {
          ResultsAgree(s, e, d.flags);
        }
      }
      case DrawListCall(list, opacity) => {
        UnboundedAgrees(s.layer, s.rtree, e.rtree, s.top, e.top, |s.records|, |e.records|);
        RectsAccumulateAlike(s.layer, s.rtree, e.rtree, s.top, e.top, |s.records|, |e.records|, list.rects);
      }
    }
    if t.records != s.records {
      var op := t.records[|s.records|];
      assert t.records == s.records + [op] && f.records == e.records + [op];
      SameRecordShowsAlike(s, e, op, t, f);
      BoundsSurvivePush(s.records, s.below, s.top, [op], e.records, e.below, e.top, [op]);
    } else {
      assert f.records == e.records;
      UnchangedShowsAlike(s, e, t, f);
    }
  }

  lemma ResultsAgree(s: BuilderState, e: BuilderState, flags: AttributeFlags)
    requires SameState(s, e)
    ensures s.paint == e.paint && forall p :: ResultOf(s.top, p, flags) == ResultOf(e.top, p, flags)
  {
    assert Bare(s.top).isNop == Bare(e.top).isNop;
  }

  lemma UnchangedShowsAlike(s: BuilderState, e: BuilderState, t: BuilderState, f: BuilderState)
    requires SameScene(s, e)
    requires t.records == s.records && f.records == e.records && t.below == s.below && t.top.mark == s.top.mark
    ensures SameScene(t, f)
  {
    var lazy, eager := ShowAll(s.records), ShowAll(e.records);
    TopMarkMatters(s.below, s.top, t.top, eager.below, eager.top, lazy.below, lazy.top);
  }

  lemma TopMarkMatters(below: seq<SaveInfo>, top: SaveInfo, newTop: SaveInfo, eager: seq<Level>, eagerTop: Level,
                       lazy: seq<Level>, lazyTop: Level)
    requires Aligned(below, top, eager, eagerTop, lazy, lazyTop) && newTop.mark == top.mark
    ensures Aligned(below, newTop, eager, eagerTop, lazy, lazyTop)
  {
  }

  /** The relation without the parts that every step keeps anyway. */
  ghost predicate Agrees(s: BuilderState, e: BuilderState) {
    && SameState(s, e) && SameScene(s, e)
    && BoundsAgree(s.records, s.below, s.top, e.records, e.below, e.top)
  }

  lemma TriggerAgrees(s: BuilderState, e: BuilderState)
    requires Agrees(s, e) && WellFormed(s) && !e.top.mark.deferred
    ensures Agrees(CheckForDeferredSave(s), e)
  {
    hide SameScene;
    TriggerShowsNothing(s, e);
    if s.top.mark.deferred {
      BoundsSurvivePush(s.records, s.below, s.top, [SaveRecord(0, 0)], e.records, e.below, e.top, []);
      assert e.records + [] == e.records;
      DeferredIsPlain(s);
    }
  }

  lemma TransformRefines(s: BuilderState, e: BuilderState, t: TransformOp)
    requires Refines(s, e)
    ensures Agrees(Transform(s, t), Transform(e, t))
  {
    hide WellFormed, SameScene, BoundsAgree, ChangesMatrix, Transformed;
    if ChangesMatrix(t) {
      TriggerAgrees(s, e);
      var c := CheckForDeferredSave(s);
      TransformsAlike(c.top, e.top, t);
      LevelRecordShowsAlike(c, e, TransformRecord(t), Transform(s, t), Transform(e, t));
      BoundsSurvivePush(c.records, c.below, c.top, [TransformRecord(t)], e.records, e.below, e.top,
                        [TransformRecord(t)]);
      TopBoundsByMark(Transform(s, t), Transform(e, t), c.top, e.top);
    }
  }

  lemma TransformsAlike(info: SaveInfo, other: SaveInfo, t: TransformOp)
    requires Bare(info) == Bare(other)
    ensures Bare(Transformed(info, t)) == Bare(Transformed(other, t))
    ensures Transformed(info, t).mark == info.mark && Transformed(other, t).mark == other.mark
  {
  }

  lemma TopBoundsByMark(s: BuilderState, e: BuilderState, top: SaveInfo, eagerTop: SaveInfo)
    requires BoundsAgree(s.records, s.below, top, e.records, e.below, eagerTop)
    requires s.top.mark == top.mark && e.top.mark == eagerTop.mark
    ensures BoundsAgree(s.records, s.below, s.top, e.records, e.below, e.top)
  {
  }

  lemma ClipsAlike(info: SaveInfo, other: SaveInfo, r: Rect, op: ClipOp)
    requires Bare(info) == Bare(other)
    ensures Bare(Clipped(info, r, op)) == Bare(Clipped(other, r, op))
    ensures ClipIsRedundant(info, r, op) == ClipIsRedundant(other, r, op)
    ensures CullIsEmpty(Clipped(info, r, op)) == CullIsEmpty(Clipped(other, r, op))
    ensures Clipped(info, r, op).mark == info.mark && Clipped(other, r, op).mark == other.mark
  {
    hide Tracker.ClipRect, Tracker.RectCoversCull;
  }

  lemma NewTopsAgree(s: BuilderState, e: BuilderState, info: SaveInfo, other: SaveInfo)
    requires Agrees(s, e) && info.mark == s.top.mark && other.mark == e.top.mark && Bare(info) == Bare(other)
    ensures Agrees(s.(top := info), e.(top := other))
  {
    hide SameScene, BoundsAgree;
    UnchangedShowsAlike(s, e, s.(top := info), e.(top := other));
    TopBoundsByMark(s.(top := info), e.(top := other), s.top, e.top);
  }

  lemma ClipRefines(s: BuilderState, e: BuilderState, r: Rect, op: ClipOp)
    requires Refines(s, e)
    ensures Agrees(Clip(s, r, op), Clip(e, r, op))
  {
    hide WellFormed, SameScene, BoundsAgree, ClipIsRedundant, CullIsEmpty, Clipped;
    if !s.top.isNop {
      ClipsAlike(s.top, e.top, r, op);
      var info, other := Clipped(s.top, r, op), Clipped(e.top, r, op);
      if ClipIsRedundant(s.top, r, op) {
      } else if CullIsEmpty(info) {
        NewTopsAgree(s, e, info.(isNop := true), other.(isNop := true));
      } else {
        var t, f := s.(top := info.(hasValidClip := true)), e.(top := other.(hasValidClip := true));
        NewTopsAgree(s, e, t.top, f.top);
        PlainKeepsForm(s, t);
        TriggerAgrees(t, f);
        var c := CheckForDeferredSave(t);
        LevelRecordShowsAlike(c, f, ClipRecord(r, op), Clip(s, r, op), Clip(e, r, op));
        BoundsSurvivePush(c.records, c.below, c.top, [ClipRecord(r, op)], f.records, f.below, f.top,
                          [ClipRecord(r, op)]);
      }
    }
  }

  lemma SaveRefines(s: BuilderState, e: BuilderState, nop: bool)
    requires Refines(s, e)
    ensures var t, f := Save(s), Save(e);
      Agrees(t.(top := t.top.(isNop := nop)), CheckForDeferredSave(f.(top := f.top.(isNop := nop))))
  {
    hide WellFormed, SameScene;
    var t, f := Save(s), Save(e);
    var u, g := t.(top := t.top.(isNop := nop)), CheckForDeferredSave(f.(top := f.top.(isNop := nop)));
    SaveShowsAlike(s, e, u, g);
    BoundsSurvivePush(s.records, s.below, s.top, [], e.records, e.below, e.top, [SaveRecord(0, 0)]);
    assert s.records + [] == s.records;
  }

  lemma EntriesAlike(fx: FilterBounds, s: BuilderState, e: BuilderState, filter: Option<ImageFilter>,
                     bounds: Option<Rect>)
    requires Bare(s.top) == Bare(e.top)
    ensures Bare(LayerEntry(fx, s, filter, bounds)) == Bare(LayerEntry(fx, e, filter, bounds))
  {
    hide Tracker.ClipRect, LayerCull;
  }

  lemma EnterLayerAgrees(fx: FilterBounds, s: BuilderState, e: BuilderState, bounds: Option<Rect>, withPaint: bool,
                         backdrop: Option<ImageFilter>)
    requires Agrees(s, e)
    ensures Agrees(EnterLayer(fx, s, bounds, withPaint, backdrop), EnterLayer(fx, e, bounds, withPaint, backdrop))
  {
    hide SameScene, LayerEntry, IsOpacityCompatible;
    var t, f := EnterLayer(fx, s, bounds, withPaint, backdrop), EnterLayer(fx, e, bounds, withPaint, backdrop);
    var op := NewSaveLayerRecord(withPaint, bounds, backdrop);
    EntriesAlike(fx, s, e, LayerFilter(s.paint, withPaint), bounds);
    EntryMarks(fx, s, LayerFilter(s.paint, withPaint), bounds);
    EntryMarks(fx, e, LayerFilter(s.paint, withPaint), bounds);
    LayerShowsAlike(s, e, op, t, f);
    BoundsSurvivePush(s.records, s.below, s.top, [op], e.records, e.below, e.top, [op]);
  }

  lemma EntryMarks(fx: FilterBounds, s: BuilderState, filter: Option<ImageFilter>, bounds: Option<Rect>)
    ensures LayerEntry(fx, s, filter, bounds).mark == SaveMark(true, false, s.depth, |s.records|)
  {
    hide Tracker.ClipRect, LayerCull;
  }

  lemma SaveLayerRefines(fx: FilterBounds, s: BuilderState, e: BuilderState, bounds: Option<Rect>, withPaint: bool,
                         backdrop: Option<ImageFilter>)
    requires Refines(s, e)
    ensures Agrees(SaveLayer(fx, s, bounds, withPaint, backdrop),
                   CheckForDeferredSave(SaveLayer(fx, e, bounds, withPaint, backdrop)))
  {
    hide WellFormed, SameScene, BoundsAgree, ResultOf, AccumulateLayer, EnterLayer, SameTree;
    ResultsAgree(s, e, SaveLayerFlags(withPaint));
    if ResultOf(s.top, s.paint, SaveLayerFlags(withPaint)) == NoEffect {
      SaveRefines(s, e, true);
    } else {
      LayersAgree(s, e, withPaint, backdrop);
      var acc, eagerAcc := AccumulateLayer(s, withPaint, backdrop), AccumulateLayer(e, withPaint, backdrop);
      var t, f := s.(layer := acc.layer, rtree := acc.rtree), e.(layer := eagerAcc.layer, rtree := eagerAcc.rtree);
      UnchangedShowsAlike(s, e, t, f);
      EnterLayerAgrees(fx, t, f, bounds, withPaint, backdrop);
      EnteredIsTriggered(fx, f, bounds, withPaint, backdrop);
    }
  }

  lemma EnteredIsTriggered(fx: FilterBounds, s: BuilderState, bounds: Option<Rect>, withPaint: bool,
                           backdrop: Option<ImageFilter>)
    ensures !EnterLayer(fx, s, bounds, withPaint, backdrop).top.mark.deferred
  {
    hide Tracker.ClipRect, LayerCull, IsOpacityCompatible;
  }

  // ---------------------------------------------------------------- restore

  lemma PatchShowsAlike(fx: FilterBounds, s: BuilderState)
    requires s.below != [] && !s.top.mark.deferred && NamesItsSave(s) && (s.top.mark.isSaveLayer ==> s.outer != [])
    ensures ShowAll(Restore(fx, s).records) == Show(ShowAll(s.records), RestoreRecord)
  {
    RestorePatches(fx, s);
    RestoreKeepsOptions(fx, s);
    var k := s.top.mark.saveOffset;
    ClosedStreamShows(s.records, k, Restore(fx, s).records[k], Restore(fx, s).records);
  }

  lemma RestoreKeepsOptions(fx: FilterBounds, s: BuilderState)
    requires s.below != [] && !s.top.mark.deferred && NamesItsSave(s) && (s.top.mark.isSaveLayer ==> s.outer != [])
    ensures |Restore(fx, s).records| > s.top.mark.saveOffset
    ensures ShowAlike(s.records[s.top.mark.saveOffset], Restore(fx, s).records[s.top.mark.saveOffset])
  {
    hide TransferLayerBounds, ContentBounds, ContentIsClipped, DepthCost, LayerInfo.IsGroupOpacityCompatible;
  }

  lemma ContentAgrees(layer: LayerInfo, r: Record, other: Record, i: nat, d: int, j: nat, f: int)
    requires r.SaveLayerRecord? && other.SaveLayerRecord?
    requires r.bounds == other.bounds && r.options.boundsFromCaller == other.options.boundsFromCaller
    ensures ContentBounds(layer, PatchSave(r, i, d)) == ContentBounds(layer, PatchSave(other, j, f))
  {
  }

  /** The part of a restore that merges a layer, in both builders. */
  lemma LayerCloseAgrees(fx: FilterBounds, s: BuilderState, e: BuilderState)
    requires Refines(s, e) && s.below != [] && s.top.mark.isSaveLayer
    ensures SameState(Restore(fx, s), Restore(fx, e))
  {
    hide SameScene, Nested, LayersMatch, TransferLayerBounds, ContentBounds, SettledLayer, SameTree, TreeOk;
    LayerIsTriggered(s);
    RestoreIsReady(s);
    RestoreIsReady(e);
    RestorePatches(fx, s);
    RestorePatches(fx, e);
    RestoreTransfers(fx, s);
    RestoreTransfers(fx, e);
    Paired(s.rtree, s.records);
    var n := |s.below| - 1;
    assert Bare(s.below[n]) == Bare(e.below[n]);
    var r, q := s.records[s.top.mark.saveOffset], e.records[e.top.mark.saveOffset];
    var patched := PatchSave(r, |s.records|, s.depth - s.top.mark.saveDepth);
    ContentAgrees(s.layer, r, q, |s.records|, s.depth - s.top.mark.saveDepth, |e.records|,
                  e.depth - e.top.mark.saveDepth);
    TransferAgrees(fx, s.layer, s.rtree, e.rtree, s.below[n], e.below[n], s.outer[|s.outer| - 1], |s.records|,
                   |e.records|, ContentBounds(s.layer, patched));
    RestoreKeepsRest(fx, s);
    RestoreKeepsRest(fx, e);
  }

  lemma RestoreKeepsRest(fx: FilterBounds, s: BuilderState)
    requires s.below != []
    ensures Restore(fx, s).paint == s.paint
    ensures s.top.mark.isSaveLayer && !s.top.mark.deferred && NamesItsSave(s) && s.outer != [] ==>
      Restore(fx, s).depth == s.depth + DepthCost(s.paint)
    ensures !s.top.mark.isSaveLayer ==>
      Restore(fx, s).depth == s.depth && Restore(fx, s).layer == s.layer && Restore(fx, s).outer == s.outer
      && Restore(fx, s).rtree == s.rtree
  {
    hide TransferLayerBounds, ContentBounds, PatchSave, SettledLayer, DepthCost;
  }

  lemma RestoreRefines(fx: FilterBounds, s: BuilderState, e: BuilderState)
    requires Refines(s, e)
    ensures Agrees(Restore(fx, s), Restore(fx, e))
  {
    hide WellFormed, Bookkept, SameScene, Restore;
    if s.below == [] {
      RootStays(fx, s);
      RootStays(fx, e);
    } else {
      RestoreIsReady(e);
      PatchShowsAlike(fx, e);
      RestorePatches(fx, e);
      RestoreBounds(fx, s, e);
      RestoreStates(fx, s, e);
      if s.top.mark.deferred {
        DeferredPops(fx, s);
      } else {
        RestoreIsReady(s);
        PatchShowsAlike(fx, s);
        RestorePatches(fx, s);
      }
      CloseShowsAlike(s, e, Restore(fx, s), Restore(fx, e));
    }
  }

  lemma RestoreStates(fx: FilterBounds, s: BuilderState, e: BuilderState)
    requires Refines(s, e) && s.below != []
    ensures SameState(Restore(fx, s), Restore(fx, e))
  {
    hide WellFormed, Bookkept, SameScene, BoundsAgree, Restore, SameTree;
    if s.top.mark.isSaveLayer {
      LayerCloseAgrees(fx, s, e);
    } else {
      RestoreKeepsRest(fx, s);
      RestoreKeepsRest(fx, e);
      RestorePopsEntry(fx, s);
      RestorePopsEntry(fx, e);
      assert Bare(s.below[|s.below| - 1]) == Bare(e.below[|s.below| - 1]);
    }
  }

  lemma RestoreBounds(fx: FilterBounds, s: BuilderState, e: BuilderState)
    requires Refines(s, e) && s.below != []
    ensures var t, f := Restore(fx, s), Restore(fx, e);
      BoundsAgree(t.records, t.below, t.top, f.records, f.below, f.top)
  {
    hide WellFormed, Bookkept, SameScene, Restore, SameState;
    RestoreIsReady(e);
    RestorePatches(fx, e);
    StacksAgree(s, e);
    var f := Restore(fx, e);
    if s.top.mark.deferred {
      DeferredPops(fx, s);
      DeferredIsPlain(s);
      PoppedBounds(s, e, f);
    } else {
      RestoreIsReady(s);
      RestorePatches(fx, s);
      var t := Restore(fx, s);
      var patched, eagerPatched := t.records[s.top.mark.saveOffset], f.records[e.top.mark.saveOffset];
      BoundsSurvivePatch(s, e, patched, eagerPatched);
      BoundsSurvivePush(s.records[s.top.mark.saveOffset := patched], t.below, t.top, [RestoreRecord],
                        e.records[e.top.mark.saveOffset := eagerPatched], f.below, f.top, [RestoreRecord]);
    }
  }

  lemma StacksAgree(s: BuilderState, e: BuilderState)
    requires SameState(s, e)
    ensures SameEntries(s.below, e.below) && s.top.mark.isSaveLayer == e.top.mark.isSaveLayer
  {
    assert Bare(s.top).mark.isSaveLayer == Bare(e.top).mark.isSaveLayer;
  }

  /** The eager builder closes a save that the other one never recorded. */
  lemma PoppedBounds(s: BuilderState, e: BuilderState, f: BuilderState)
    requires BoundsAgree(s.records, s.below, s.top, e.records, e.below, e.top)
    requires s.below != [] && NamesItsSave(e) && !e.top.mark.isSaveLayer
    requires |f.records| == |e.records| + 1
    requires f.records == e.records[e.top.mark.saveOffset := f.records[e.top.mark.saveOffset]] + [RestoreRecord]
    requires f.below == e.below[..|e.below| - 1] && f.top == e.below[|e.below| - 1]
    ensures BoundsAgree(s.records, s.below[..|s.below| - 1], s.below[|s.below| - 1], f.records, f.below, f.top)
  {
    forall m, em | SameBounds(s.records, m, e.records, em)
      ensures SameBounds(s.records, m, f.records, em)
    {
    }
  }

  // --------------------------------------------------------------- the runs

  lemma {:induction false} RestoreToCountRefines(fx: FilterBounds, s: BuilderState, e: BuilderState, count: int)
    requires Refines(s, e)
    ensures Refines(RestoreToCount(fx, s, count), RestoreToCount(fx, e, count))
    decreases |s.below|
  {
    assert |s.below| == |e.below|;
    if s.below != [] && |s.below| + 1 > count {
      RestoreKeepsRefining(fx, s, e);
      RestoreShrinks(fx, s);
      RestoreShrinks(fx, e);
      hide Refines, Restore;
      RestoreToCountRefines(fx, Restore(fx, s), Restore(fx, e), count);
    }
  }

  lemma RestoreKeepsRefining(fx: FilterBounds, s: BuilderState, e: BuilderState)
    requires Refines(s, e)
    ensures Refines(Restore(fx, s), Restore(fx, e))
  {
    hide WellFormed, Bookkept, SameScene, SameState, BoundsAgree, Restore;
    RestoreRefines(fx, s, e);
    RestoreKeepsForm(fx, s);
    RestoreKeepsForm(fx, e);
    RestoreKeepsBooks(fx, s);
    if e.below != [] {
      RestorePopsEntry(fx, e);
      assert Triggered(e.below[|e.below| - 1]);
    } else {
      RootStays(fx, e);
    }
  }

  lemma StepAgrees(fx: FilterBounds, s: BuilderState, e: BuilderState, call: Call)
    requires Refines(s, e)
    ensures Agrees(Step(fx, s, call), EagerStep(fx, e, call))
    ensures var f := EagerStep(fx, e, call); Eager(f.below, f.top)
  {
    hide WellFormed, Bookkept, SameScene, SameState, BoundsAgree;
    match call {
      case SaveCall => {
        hide CheckForDeferredSave;
        SaveRefines(s, e, s.top.isNop);
        SaveAlike(s, e);
      }
      case SaveLayerCall(bounds, withPaint, backdrop) => {
        hide SaveLayer, CheckForDeferredSave;
        SaveLayerRefines(fx, s, e, bounds, withPaint, backdrop);
        SaveLayerPushes(fx, e, bounds, withPaint, backdrop);
        DeferredKeepsTriggered(SaveLayer(fx, e, bounds, withPaint, backdrop));
      }
      case RestoreCall => {
        hide Restore;
        RestoreKeepsRefining(fx, s, e);
      }
      case RestoreToCountCall(count) => {
        hide RestoreToCount;
        RestoreToCountRefines(fx, s, e, count);
      }
      case TransformCall(t) => {
        hide Transformed, ChangesMatrix;
        TransformRefines(s, e, t);
        TransformKeepsMarks(e, t);
      }
      case ClipCall(r, op) => {
        hide Clip;
        ClipRefines(s, e, r, op);
        ClipKeepsMarks(e, r, op);
      }
      case _ => {
        DrawRefines(fx, s, e, call);
        DrawKeepsStack(fx, e, call);
        hide Step;
      }
    }
  }

  lemma SaveAlike(s: BuilderState, e: BuilderState)
    requires SameState(s, e) && Eager(e.below, e.top)
    ensures Save(s) == Save(s).(top := Save(s).top.(isNop := s.top.isNop))
    ensures Save(e) == Save(e).(top := Save(e).top.(isNop := s.top.isNop))
    ensures var f := CheckForDeferredSave(Save(e)); Eager(f.below, f.top)
  {
    assert Bare(s.top).isNop == Bare(e.top).isNop;
  }

  lemma SaveLayerPushes(fx: FilterBounds, e: BuilderState, bounds: Option<Rect>, withPaint: bool,
                        backdrop: Option<ImageFilter>)
    ensures SaveLayer(fx, e, bounds, withPaint, backdrop).below == e.below + [e.top]
  {
    hide ResultOf, AccumulateLayer, LayerEntry, IsOpacityCompatible;
  }

  lemma DeferredKeepsTriggered(e: BuilderState)
    ensures CheckForDeferredSave(e).below == e.below && !CheckForDeferredSave(e).top.mark.deferred
  {
  }

  lemma TransformKeepsMarks(e: BuilderState, t: TransformOp)
    requires Eager(e.below, e.top)
    ensures Transform(e, t).below == e.below && Transform(e, t).top.mark == e.top.mark
  {
    hide ChangesMatrix;
  }

  lemma ClipKeepsMarks(e: BuilderState, r: Rect, op: ClipOp)
    requires Eager(e.below, e.top)
    ensures Clip(e, r, op).below == e.below && Clip(e, r, op).top.mark == e.top.mark
    ensures CheckForDeferredSave(Clip(e, r, op)) == Clip(e, r, op)
  {
    hide ClipIsRedundant, CullIsEmpty, Tracker.ClipRect;
  }

  lemma DrawKeepsStack(fx: FilterBounds, e: BuilderState, call: Call)
    requires call.SetAttributeCall? || call.DrawCall? || call.DrawListCall?
    ensures Step(fx, e, call).below == e.below && Step(fx, e, call).top == e.top
    ensures !e.top.mark.deferred ==> EagerStep(fx, e, call) == Step(fx, e, call)
  {
    hide AccumulateGeometry, AccumulateRects, AccumulateUnbounded, ResultOf, ListIsVisible, LayerAfterList,
      IsOpacityCompatible;
  }

  lemma StepRefines(fx: FilterBounds, s: BuilderState, e: BuilderState, call: Call)
    requires Refines(s, e)
    ensures Refines(Step(fx, s, call), EagerStep(fx, e, call))
  {
    StepAgrees(fx, s, e, call);
    hide SameState, SameScene, BoundsAgree, WellFormed, Bookkept, Step, Eager, CheckForDeferredSave;
    StepKeepsForm(fx, s, call);
    StepKeepsForm(fx, e, call);
    DeferredKeepsForm(Step(fx, e, call));
    StepKeepsBooks(fx, s, call);
  }

  lemma InitRefines(cull: Rect)
    ensures Refines(Init(cull), Init(cull))
  {
    assert Layers([Init(cull).top]) == 1;
  }

  lemma {:induction false} RunRefines(fx: FilterBounds, cull: Rect, calls: seq<Call>)
    ensures Refines(Run(fx, cull, calls), EagerRun(fx, cull, calls))
  {
    if calls == [] {
      InitRefines(cull);
    } else {
      hide Refines, Step, EagerStep;
      RunRefines(fx, cull, calls[..|calls| - 1]);
      StepRefines(fx, Run(fx, cull, calls[..|calls| - 1]), EagerRun(fx, cull, calls[..|calls| - 1]),
                  calls[|calls| - 1]);
    }
  }

  /** For every sequence of calls, what the built list shows is what the list of the
      eager builder shows: the same drawings in order, each with the same paint, the
      same transforms and clips, and the same enclosing layers. */
  lemma DeferredSavesShowAlike(fx: FilterBounds, cull: Rect, calls: seq<Call>)
    ensures ShowAll(Finished(fx, cull, calls).records).drawn == ShowAll(EagerFinished(fx, cull, calls).records).drawn
    ensures Finished(fx, cull, calls).rtree.rects == EagerFinished(fx, cull, calls).rtree.rects
    ensures Finished(fx, cull, calls).depth == EagerFinished(fx, cull, calls).depth
  {
    RunRefines(fx, cull, calls);
    hide Refines, Run, EagerRun;
    RestoreToCountRefines(fx, Run(fx, cull, calls), EagerRun(fx, cull, calls), 1);
    FinishedAlike(Finished(fx, cull, calls), EagerFinished(fx, cull, calls));
  }

  lemma FinishedAlike(s: BuilderState, e: BuilderState)
    requires Refines(s, e)
    ensures ShowAll(s.records).drawn == ShowAll(e.records).drawn && s.rtree.rects == e.rtree.rects && s.depth == e.depth
  {
  }
}
