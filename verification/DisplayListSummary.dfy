/**
 What a list says about the content of its layers and of its root: the largest blend mode,
 whether a backdrop filter is used, and whether transparent pixels may change.
 */
module DisplayListSummary {
  import opened Options
  import opened DisplayListTypes
  import opened DisplayListPaint
  import opened DisplayListBuilderSpec
  import opened DisplayListNesting
  import opened DisplayListDepth

  /** The summary of everything drawn straight into a layer. */
  datatype Summary = Summary(maxBlendMode: BlendMode, backdrop: bool, transparent: bool) {
    function Note(mode: BlendMode, usesBackdrop: bool, changesTransparent: bool): Summary {
      Summary(if maxBlendMode.Rank() < mode.Rank() then mode else maxBlendMode,
              backdrop || usesBackdrop, transparent || changesTransparent)
    }
  }

  const NOTHING := Summary(Clear, false, false)

  datatype Tally = Tally(outer: seq<Summary>, top: Summary)

  function Count(t: Tally, ops: seq<Record>, i: nat): Tally
    requires i < |ops|
  {
    var paint := PaintAt(ops, i);
    match ops[i]
    case DrawRecord(d) =>
      t.(top := t.top.Note(if d.flags.appliesBlend then PaintOf(paint, d).blendMode else SrcOver, false,
                           PaintResult(PaintOf(paint, d), d.flags) == AffectsAll))
    case DrawListRecord(list, _) =>
      t.(top := t.top.Note(list.root.maxBlendMode, list.root.hasBackdropFilter, list.root.modifiesTransparentBlack))
    case SaveLayerRecord(_, _, options, _, _, backdrop) =>
      var withPaint := options.rendersWithAttributes;
      Tally(t.outer + [t.top.Note(if withPaint then paint.blendMode else SrcOver, backdrop.Some?,
                                  PaintResult(paint, SaveLayerFlags(withPaint)) == AffectsAll)],
            NOTHING)
    case RestoreRecord =>
      var open := OpenSaves(ops, i);
      if open != [] && ops[open[|open| - 1]].SaveLayerRecord? && t.outer != [] then
        Tally(t.outer[..|t.outer| - 1], t.outer[|t.outer| - 1])
      else t
    case _ => t
  }

  /** The summaries of the open layers after `n` records. */
  function TallyAt(ops: seq<Record>, n: nat): Tally
    requires n <= |ops|
  {
    if n == 0 then Tally([], NOTHING) else Count(TallyAt(ops, n - 1), ops, n - 1)
  }

  // ------------------------------------------------ extending and patching

  lemma {:induction false} TallyPrefix(ops: seq<Record>, more: seq<Record>, n: nat)
    requires n <= |ops|
    ensures TallyAt(ops + more, n) == TallyAt(ops, n)
  {
    if n > 0 {
      hide Count;
      TallyPrefix(ops, more, n - 1);
      CountPrefix(TallyAt(ops, n - 1), ops, more, n - 1);
    }
  }

  lemma CountPrefix(t: Tally, ops: seq<Record>, more: seq<Record>, i: nat)
    requires i < |ops|
    ensures Count(t, ops + more, i) == Count(t, ops, i)
  {
    hide PaintAt, OpenSaves, PaintResult, Summary.Note;
    PaintAtPrefix(ops, more, i);
    OpenSavesPrefix(ops, more, i);
  }

  /** What a builder patches into save records later is not counted. */
  predicate CountAlike(a: Record, b: Record) {
    || (a.SaveRecord? && b.SaveRecord?)
    || (a.SaveLayerRecord? && b.SaveLayerRecord? && a.backdrop == b.backdrop
        && a.options.rendersWithAttributes == b.options.rendersWithAttributes)
  }

  lemma {:induction false} TallyPatched(ops: seq<Record>, k: nat, r: Record, n: nat)
    requires k < |ops| && CountAlike(ops[k], r) && n <= |ops|
    ensures TallyAt(ops[k := r], n) == TallyAt(ops, n)
  {
    if n > 0 {
      hide Count;
      TallyPatched(ops, k, r, n - 1);
      CountPatched(TallyAt(ops, n - 1), ops, k, r, n - 1);
    }
  }

  lemma CountPatched(t: Tally, ops: seq<Record>, k: nat, r: Record, i: nat)
    requires k < |ops| && CountAlike(ops[k], r) && i < |ops|
    ensures Count(t, ops[k := r], i) == Count(t, ops, i)
  {
    hide PaintAt, OpenSaves, PaintResult, Summary.Note;
    PaintAtPatched(ops, k, r, i);
    OpenSavesPatched(ops, k, r, i);
  }

  lemma TallyMore(ops: seq<Record>, op: Record)
    ensures TallyAt(ops + [op], |ops| + 1) == Count(TallyAt(ops, |ops|), ops + [op], |ops|)
    ensures PaintAt(ops + [op], |ops|) == PaintAt(ops, |ops|) && OpenSaves(ops + [op], |ops|) == OpenSaves(ops, |ops|)
  {
    TallyPrefix(ops, [op], |ops|);
    PaintAtPrefix(ops, [op], |ops|);
    OpenSavesPrefix(ops, [op], |ops|);
  }

  // ---------------------------------------------------------- the invariant

  function SummaryOf(layer: LayerInfo): Summary {
    Summary(layer.maxBlendMode, layer.flags.containsBackdrop, layer.flags.affectsTransparent)
  }

  function SummariesOf(layers: seq<LayerInfo>): seq<Summary> {
    seq(|layers|, k requires 0 <= k < |layers| => SummaryOf(layers[k]))
  }

  /** The record of the layer closed at `r` holds the summary of its content. */
  predicate SummaryMatches(ops: seq<Record>, r: nat)
    requires r < |ops|
  {
    var open := OpenSaves(ops, r);
    ops[r].RestoreRecord? && open != [] && ops[open[|open| - 1]].SaveLayerRecord? ==>
      && ops[open[|open| - 1]].maxBlendMode == TallyAt(ops, r).top.maxBlendMode
      && ops[open[|open| - 1]].options.containsBackdropFilter == TallyAt(ops, r).top.backdrop
  }

  ghost predicate SummariesMatch(ops: seq<Record>) {
    forall r :: 0 <= r < |ops| ==> SummaryMatches(ops, r)
  }

  predicate PromisesNothing(options: SaveLayerOptions) {
    && !options.canDistributeOpacity && !options.contentIsClipped
    && !options.containsBackdropFilter && !options.contentIsUnbounded
  }

  /** The record of an open layer promises nothing yet. */
  predicate Unsettled(ops: seq<Record>, mark: SaveMark) {
    mark.deferred || !mark.isSaveLayer ||
    (mark.saveOffset < |ops| && ops[mark.saveOffset].SaveLayerRecord?
     && PromisesNothing(ops[mark.saveOffset].options))
  }

  ghost predicate AllUnsettled(ops: seq<Record>, below: seq<SaveInfo>, top: SaveInfo) {
    && (below != [] ==> Unsettled(ops, top.mark))
    && (forall i :: 1 <= i < |below| ==> Unsettled(ops, below[i].mark))
  }

  ghost predicate Summarized(s: BuilderState) {
    && s.paint == PaintAt(s.records, |s.records|)
    && TallyAt(s.records, |s.records|) == Tally(SummariesOf(s.outer), SummaryOf(s.layer))
    && SummariesMatch(s.records)
    && AllUnsettled(s.records, s.below, s.top)
  }

  lemma AppendKeepsSummaries(ops: seq<Record>, op: Record)
    requires SummariesMatch(ops)
    requires op.RestoreRecord? ==>
      var open := OpenSaves(ops, |ops|);
      open != [] && ops[open[|open| - 1]].SaveLayerRecord? ==>
        && ops[open[|open| - 1]].maxBlendMode == TallyAt(ops, |ops|).top.maxBlendMode
        && ops[open[|open| - 1]].options.containsBackdropFilter == TallyAt(ops, |ops|).top.backdrop
    ensures SummariesMatch(ops + [op])
  {
    hide OpenSaves, TallyAt;
    var more := ops + [op];
    forall r | 0 <= r < |more|
      ensures SummaryMatches(more, r)
    {
      assert r < |ops| ==> SummaryMatches(ops, r);
      OpenSavesPrefix(ops, [op], r);
      TallyPrefix(ops, [op], r);
    }
  }

  lemma PatchKeepsSummaries(ops: seq<Record>, k: nat, r: Record)
    requires SummariesMatch(ops) && RestoresMatch(ops) && k in OpenSaves(ops, |ops|) && CountAlike(ops[k], r)
    ensures SummariesMatch(ops[k := r])
  {
    hide OpenSaves, TallyAt;
    var patched := ops[k := r];
    forall i | 0 <= i < |ops|
      ensures SummaryMatches(patched, i)
    {
      assert SummaryMatches(ops, i) && RestoreMatches(ops, i);
      OpenSavesPatched(ops, k, r, i);
      TallyPatched(ops, k, r, i);
      if ops[i].RestoreRecord? {
        ClosedIsNotOpen(ops, i, |ops|);
      }
    }
  }

  // --------------------------------------------------------------- the calls

  lemma UnsettledStays(ops: seq<Record>, more: seq<Record>, below: seq<SaveInfo>, top: SaveInfo)
    requires AllUnsettled(ops, below, top)
    ensures AllUnsettled(ops + more, below, top)
  {
    assert forall mark :: Unsettled(ops, mark) ==> Unsettled(ops + more, mark);
  }

  /** A record that opens and closes nothing. */
  lemma PlainKeepsSummary(s: BuilderState, op: Record, t: BuilderState)
    requires Summarized(s) && !op.IsSave() && !op.RestoreRecord?
    requires t.records == s.records + [op] && t.below == s.below && t.outer == s.outer
    requires t.top.mark == s.top.mark
    requires t.paint == if op.AttributeOp? then op.attribute.ApplyTo(s.paint) else s.paint
    requires SummaryOf(t.layer) == Count(Tally([], SummaryOf(s.layer)), t.records, |s.records|).top
    ensures Summarized(t)
  {
    TallyMore(s.records, op);
    AppendKeepsSummaries(s.records, op);
    UnsettledStays(s.records, [op], s.below, s.top);
    NextPaint(s.records, op);
    hide OpenSaves, PaintAt, TallyAt, PaintResult, Summary.Note, SummariesMatch, AllUnsettled, Attribute.ApplyTo;
    CountsTop(TallyAt(s.records, |s.records|), t.records, |s.records|);
    SameUnsettled(t.records, s.below, s.top, t.top);
  }

  lemma SameUnsettled(ops: seq<Record>, below: seq<SaveInfo>, top: SaveInfo, other: SaveInfo)
    requires AllUnsettled(ops, below, top) && other.mark == top.mark
    ensures AllUnsettled(ops, below, other)
  {
  }

  lemma NextPaint(ops: seq<Record>, op: Record)
    ensures PaintAt(ops + [op], |ops| + 1) ==
      if op.AttributeOp? then op.attribute.ApplyTo(PaintAt(ops, |ops|)) else PaintAt(ops, |ops|)
  {
    PaintAtPrefix(ops, [op], |ops|);
    hide Attribute.ApplyTo;
  }

  /** Records that open and close nothing count for the current layer only. */
  lemma CountsTop(t: Tally, ops: seq<Record>, i: nat)
    requires i < |ops| && !ops[i].IsSave() && !ops[i].RestoreRecord?
    ensures Count(t, ops, i) == Tally(t.outer, Count(Tally([], t.top), ops, i).top)
  {
    hide PaintAt, PaintResult, Summary.Note;
  }

  lemma AccumulatingKeepsSummary(fx: FilterBounds, s: BuilderState, d: Draw)
    ensures SummaryOf(AccumulateGeometry(fx, s, d).layer) == SummaryOf(s.layer)
    ensures forall id: nat :: SummaryOf(AccumulateUnbounded(s.layer, s.rtree, s.top, id).layer) == SummaryOf(s.layer)
  {
    hide Tracker.MapAndClip, Tracker.LocalCullCoverage, Accumulation.Add, AdjustBoundsForPaint;
  }

  lemma {:induction false} RectsKeepSummary(layer: LayerInfo, rtree: RTreeData, info: SaveInfo, id: nat,
                                            rects: seq<Rect>)
    ensures SummaryOf(AccumulateRects(layer, rtree, info, id, rects).layer) == SummaryOf(layer)
  {
    if rects != [] {
      hide Tracker.MapAndClip, Accumulation.Add;
      RectsKeepSummary(layer, rtree, info, id, rects[..|rects| - 1]);
    }
  }

  lemma UnboundedKeepsSummary(layer: LayerInfo, rtree: RTreeData, info: SaveInfo, id: nat)
    ensures SummaryOf(AccumulateUnbounded(layer, rtree, info, id).layer) == SummaryOf(layer)
  {
    hide Tracker.MapAndClip, Tracker.LocalCullCoverage, Accumulation.Add;
  }

  /** Notes in the layer are the notes of the summary. */
  lemma UpdatesNote(layer: LayerInfo, compatible: bool, result: OpResult, mode: BlendMode, backdrop: bool)
    ensures SummaryOf(layer.UpdateOpacityCompatibility(compatible).UpdateResult(result, mode).MarkBackdrop(backdrop))
         == SummaryOf(layer).Note(mode, backdrop, result == AffectsAll)
    ensures SummaryOf(layer.MarkBackdrop(backdrop).UpdateOpacityCompatibility(compatible).UpdateResult(result, mode))
         == SummaryOf(layer).Note(mode, backdrop, result == AffectsAll)
    ensures SummaryOf(layer.UpdateOpacityCompatibility(compatible).UpdateResult(result, mode))
         == SummaryOf(layer).Note(mode, false, result == AffectsAll)
  {
    hide BlendMode.Rank;
  }

  lemma UnchangedKeepsSummary(s: BuilderState, t: BuilderState)
    requires Summarized(s)
    requires t.records == s.records && t.below == s.below && t.top.mark == s.top.mark && t.outer == s.outer
    requires t.paint == s.paint
    requires SummaryOf(t.layer) == SummaryOf(s.layer)
    ensures Summarized(t)
  {
    hide OpenSaves, PaintAt, TallyAt, SummariesMatch, AllUnsettled;
    SameUnsettled(s.records, s.below, s.top, t.top);
  }

  lemma DrawKeepsSummary(fx: FilterBounds, s: BuilderState, d: Draw)
    requires Summarized(s)
    ensures Summarized(DrawOp(fx, s, d))
  {
    AccumulatingKeepsSummary(fx, s, d);
    var acc, t := AccumulateGeometry(fx, s, d), DrawOp(fx, s, d);
    if ResultOf(s.top, PaintOf(s.paint, d), d.flags) != NoEffect {
      if acc.ok {
        UpdatesNote(acc.layer, DrawIsOpacityCompatible(s.paint, d), ResultOf(s.top, PaintOf(s.paint, d), d.flags),
                    BlendModeOf(PaintOf(s.paint, d), d.flags.appliesBlend), false);
        PaintAtPrefix(s.records, [DrawRecord(d)], |s.records|);
        hide OpenSaves, PaintAt, TallyAt, PaintResult, Summary.Note, SummariesMatch, AllUnsettled, AccumulateGeometry,
          IsOpacityCompatible,
          LayerInfo.UpdateOpacityCompatibility, LayerInfo.UpdateResult, SummaryOf;
        PlainKeepsSummary(s, DrawRecord(d), t);
      } else {
        hide Summarized, AccumulateGeometry, SummaryOf, PaintResult;
        UnchangedKeepsSummary(s, t);
      }
    }
  }

  lemma ListKeepsSummary(s: BuilderState, list: ChildList, opacity: real)
    requires Summarized(s)
    ensures Summarized(DrawDisplayList(s, list, opacity))
  {
    RectsKeepSummary(s.layer, s.rtree, s.top, |s.records|, list.rects);
    UnboundedKeepsSummary(s.layer, s.rtree, s.top, |s.records|);
    var acc := if list.root.isUnbounded then AccumulateUnbounded(s.layer, s.rtree, s.top, |s.records|)
               else AccumulateRects(s.layer, s.rtree, s.top, |s.records|, list.rects);
    var t := DrawDisplayList(s, list, opacity);
    UpdatesNote(acc.layer, list.root.canApplyGroupOpacity,
                if list.root.modifiesTransparentBlack then AffectsAll else PreservesTransparency,
                list.root.maxBlendMode, list.root.hasBackdropFilter);
    hide OpenSaves, PaintAt, TallyAt, Summary.Note, SummariesMatch, AllUnsettled, AccumulateRects, AccumulateUnbounded,
      ListIsVisible, BlendMode.Rank,
      LayerInfo.UpdateOpacityCompatibility, LayerInfo.UpdateResult, LayerInfo.MarkBackdrop, SummaryOf, Summarized;
    if t.records == s.records {
      UnchangedKeepsSummary(s, t);
    } else {
      PlainKeepsSummary(s, DrawListRecord(list, Min(opacity, 1.0)), t);
    }
  }

  lemma TriggerKeepsSummary(s: BuilderState)
    requires Summarized(s) && WellFormed(s)
    ensures Summarized(CheckForDeferredSave(s))
  {
    if s.top.mark.deferred {
      var op := SaveRecord(0, 0);
      DeferredIsPlain(s);
      TallyMore(s.records, op);
      AppendKeepsSummaries(s.records, op);
      UnsettledStays(s.records, [op], s.below, s.top);
      NextPaint(s.records, op);
      hide OpenSaves, PaintAt, TallyAt, SummariesMatch, WellFormed;
    }
  }

  lemma SaveKeepsSummary(s: BuilderState)
    requires Summarized(s)
    ensures Summarized(Save(s))
  {
    hide OpenSaves, PaintAt, TallyAt, SummariesMatch;
  }

  lemma OpenedKeepsSummary(s: BuilderState, withPaint: bool, backdrop: Option<ImageFilter>)
    ensures SummaryOf(AccumulateLayer(s, withPaint, backdrop).layer) ==
      SummaryOf(s.layer).Note(BlendModeOf(s.paint, withPaint), backdrop.Some?,
                              PaintResult(s.paint, SaveLayerFlags(withPaint)) == AffectsAll)
  {
    hide PaintResult, IsOpacityCompatible, LayerFloods, AccumulateUnbounded, Summary.Note,
      LayerInfo.UpdateOpacityCompatibility, LayerInfo.UpdateResult, LayerInfo.MarkBackdrop, SummaryOf;
    var result, mode := PaintResult(s.paint, SaveLayerFlags(withPaint)), BlendModeOf(s.paint, withPaint);
    var compatible := !withPaint || IsOpacityCompatible(s.paint);
    UpdatesNote(s.layer, compatible, result, mode, backdrop.Some?);
    var noted := s.layer.MarkBackdrop(backdrop.Some?).UpdateOpacityCompatibility(compatible).UpdateResult(result, mode);
    UnboundedKeepsSummary(noted, s.rtree, s.top, |s.records|);
  }

  lemma EnteredShape(fx: FilterBounds, s: BuilderState, bounds: Option<Rect>, withPaint: bool,
                     backdrop: Option<ImageFilter>)
    ensures var t := EnterLayer(fx, s, bounds, withPaint, backdrop);
      && t.records == s.records + [NewSaveLayerRecord(withPaint, bounds, backdrop)]
      && t.below == s.below + [s.top] && t.outer == s.outer + [s.layer] && t.paint == s.paint
      && SummaryOf(t.layer) == NOTHING && Unsettled(t.records, t.top.mark)
  {
    hide LayerCull, Tracker.ClipRect, IsOpacityCompatible;
  }

  lemma SaveLayerKeepsSummary(fx: FilterBounds, s: BuilderState, bounds: Option<Rect>, withPaint: bool,
                              backdrop: Option<ImageFilter>)
    requires Summarized(s)
    ensures Summarized(SaveLayer(fx, s, bounds, withPaint, backdrop))
  {
    hide PaintResult, AccumulateLayer, EnterLayer;
    if ResultOf(s.top, s.paint, SaveLayerFlags(withPaint)) == NoEffect {
      SaveKeepsSummary(s);
      hide Summarized;
      UnchangedKeepsSummary(Save(s), SaveLayer(fx, s, bounds, withPaint, backdrop));
    } else {
      var acc := AccumulateLayer(s, withPaint, backdrop);
      OpenedKeepsSummary(s, withPaint, backdrop);
      EnteredKeepsSummary(fx, s, acc, bounds, withPaint, backdrop);
    }
  }

  lemma EnteredKeepsSummary(fx: FilterBounds, s: BuilderState, acc: Accumulated, bounds: Option<Rect>, withPaint: bool,
                            backdrop: Option<ImageFilter>)
    requires Summarized(s)
    requires SummaryOf(acc.layer) ==
      SummaryOf(s.layer).Note(BlendModeOf(s.paint, withPaint), backdrop.Some?,
                              PaintResult(s.paint, SaveLayerFlags(withPaint)) == AffectsAll)
    ensures Summarized(EnterLayer(fx, s.(layer := acc.layer, rtree := acc.rtree), bounds, withPaint, backdrop))
  {
    var op := NewSaveLayerRecord(withPaint, bounds, backdrop);
    var t := EnterLayer(fx, s.(layer := acc.layer, rtree := acc.rtree), bounds, withPaint, backdrop);
    EnteredShape(fx, s.(layer := acc.layer, rtree := acc.rtree), bounds, withPaint, backdrop);
    TallyMore(s.records, op);
    AppendKeepsSummaries(s.records, op);
    UnsettledStays(s.records, [op], s.below, s.top);
    NextPaint(s.records, op);
    SummariesPush(s.outer, acc.layer);
    hide OpenSaves, PaintAt, TallyAt, PaintResult, Summary.Note, SummariesMatch, EnterLayer, SummaryOf, SummariesOf;
    EnteredUnsettled(t.records, s.below, s.top, t.top);
  }

  lemma SummariesPush(layers: seq<LayerInfo>, layer: LayerInfo)
    ensures SummariesOf(layers + [layer]) == SummariesOf(layers) + [SummaryOf(layer)]
  {
  }

  lemma EnteredUnsettled(ops: seq<Record>, below: seq<SaveInfo>, top: SaveInfo, entry: SaveInfo)
    requires AllUnsettled(ops, below, top) && Unsettled(ops, entry.mark)
    ensures AllUnsettled(ops, below + [top], entry)
  {
  }

  // -------------------------------------------------------------- restores

  /** Settling the record of the top entry leaves the records below it open. */
  lemma SettledKeepsUnsettled(s: BuilderState, patched: Record)
    requires WellFormed(s) && AllUnsettled(s.records, s.below, s.top) && s.below != [] && !s.top.mark.deferred
    requires s.top.mark.saveOffset < |s.records|
    ensures AllUnsettled(s.records[s.top.mark.saveOffset := patched] + [RestoreRecord], s.below[..|s.below| - 1],
                         s.below[|s.below| - 1])
  {
    hide LayersMatch, Nested;
    var other := s.records[s.top.mark.saveOffset := patched] + [RestoreRecord];
    forall i | 1 <= i < |s.below|
      ensures Unsettled(other, s.below[i].mark)
    {
      assert Unsettled(s.records, s.below[i].mark);
      if s.below[i].mark.isSaveLayer {
        LayersAreTriggered(s, i);
        TopRecordIsLast(s.records, s.below, s.top, i);
      }
    }
  }

  lemma RestoreSettlesSummary(fx: FilterBounds, s: BuilderState)
    requires s.below != [] && !s.top.mark.deferred && NamesItsSave(s) && (s.top.mark.isSaveLayer ==> s.outer != [])
    requires Unsettled(s.records, s.top.mark)
    ensures var k := s.top.mark.saveOffset;
      var t := Restore(fx, s);
      && |t.records| > k && CountAlike(s.records[k], t.records[k])
      && (s.top.mark.isSaveLayer ==>
            && t.records[k].SaveLayerRecord? && t.records[k].maxBlendMode == s.layer.maxBlendMode
            && t.records[k].options.containsBackdropFilter == s.layer.flags.containsBackdrop)
  {
    hide TransferLayerBounds, ContentBounds, ContentIsClipped, DepthCost, LayerInfo.IsGroupOpacityCompatible;
  }

  lemma TransferKeepsSummary(fx: FilterBounds, layer: LayerInfo, rtree: RTreeData, parent: SaveInfo,
                             parentLayer: LayerInfo, id: nat, content: Rect)
    ensures SummaryOf(TransferLayerBounds(fx, layer, rtree, parent, parentLayer, id, content).layer)
      == SummaryOf(parentLayer)
  {
    hide AdjustRTreeRects, AnyRectFloods, Tracker.MapAndClip, Tracker.LocalCullCoverage, Accumulation.Add;
  }

  lemma RestoreLayers(fx: FilterBounds, s: BuilderState)
    requires s.below != [] && !s.top.mark.deferred && NamesItsSave(s) && (s.top.mark.isSaveLayer ==> s.outer != [])
    ensures var t := Restore(fx, s);
      if s.top.mark.isSaveLayer then
        t.outer == s.outer[..|s.outer| - 1] && SummaryOf(t.layer) == SummaryOf(s.outer[|s.outer| - 1])
      else t.outer == s.outer && t.layer == s.layer
  {
    hide TransferLayerBounds, ContentBounds, SettledLayer, DepthCost, SummaryOf;
    if s.top.mark.isSaveLayer {
      var patched := PatchSave(s.records[s.top.mark.saveOffset], |s.records|, s.depth - s.top.mark.saveDepth);
      TransferKeepsSummary(fx, s.layer, s.rtree, s.below[|s.below| - 1], s.outer[|s.outer| - 1], |s.records|,
                           ContentBounds(s.layer, patched));
    }
  }

  lemma RestoreKeepsSummary(fx: FilterBounds, s: BuilderState)
    requires Summarized(s) && WellFormed(s)
    ensures Summarized(Restore(fx, s))
  {
    if s.below == [] {
      RootStays(fx, s);
    } else if s.top.mark.deferred {
      DeferredPops(fx, s);
      hide PaintAt, TallyAt, SummariesMatch, Restore;
    } else {
      CloseKeepsSummary(fx, s);
    }
  }

  lemma CloseKeepsSummary(fx: FilterBounds, s: BuilderState)
    requires Summarized(s) && WellFormed(s) && s.below != [] && !s.top.mark.deferred
    ensures Summarized(Restore(fx, s))
  {
    hide Restore, WellFormed, Count, CountAlike, OpenSaves, RestoresMatch, PaintAt, TallyAt, SummariesMatch, SummaryOf,
      SummariesOf, AllUnsettled, Unsettled;
    OpenLayerFacts(s);
    RestorePatches(fx, s);
    RestorePopsEntry(fx, s);
    RestoreSettlesSummary(fx, s);
    RestoreLayers(fx, s);
    var k, t := s.top.mark.saveOffset, Restore(fx, s);
    var settled := s.records[k := t.records[k]];
    PatchKeepsSummaries(s.records, k, t.records[k]);
    PatchedTally(s.records, k, t.records[k]);
    SettledSummaryMatches(s, t, settled);
    AppendKeepsSummaries(settled, RestoreRecord);
    SettledKeepsUnsettled(s, t.records[k]);
    ClosedTally(s, settled);
    NextPaint(settled, RestoreRecord);
    SummarizedFrom(t);
    hide Summarized;
  }

  lemma SummarizedFrom(t: BuilderState)
    requires t.paint == PaintAt(t.records, |t.records|)
    requires TallyAt(t.records, |t.records|) == Tally(SummariesOf(t.outer), SummaryOf(t.layer))
    requires SummariesMatch(t.records) && AllUnsettled(t.records, t.below, t.top)
    ensures Summarized(t)
  {
  }

  /** What is known of the entry to close. */
  lemma OpenLayerFacts(s: BuilderState)
    requires Summarized(s) && WellFormed(s) && s.below != [] && !s.top.mark.deferred
    ensures NamesItsSave(s) && (s.top.mark.isSaveLayer ==> s.outer != []) && Unsettled(s.records, s.top.mark)
    ensures var open := OpenSaves(s.records, |s.records|);
      open != [] && open[|open| - 1] == s.top.mark.saveOffset && RestoresMatch(s.records)
  {
    RestoreIsReady(s);
    OpenOffset(s.records, s.below, s.top);
    hide PaintAt, TallyAt, SummariesMatch, RestoresMatch, OpenSaves, Offsets;
  }

  lemma PatchedTally(ops: seq<Record>, k: nat, r: Record)
    requires k < |ops| && CountAlike(ops[k], r)
    ensures TallyAt(ops[k := r], |ops|) == TallyAt(ops, |ops|) && PaintAt(ops[k := r], |ops|) == PaintAt(ops, |ops|)
    ensures OpenSaves(ops[k := r], |ops|) == OpenSaves(ops, |ops|)
  {
    TallyPatched(ops, k, r, |ops|);
    PaintAtPatched(ops, k, r, |ops|);
    OpenSavesPatched(ops, k, r, |ops|);
  }

  /** The tally after the restore of the top entry. */
  lemma ClosedTally(s: BuilderState, settled: seq<Record>)
    requires TallyAt(settled, |settled|) == Tally(SummariesOf(s.outer), SummaryOf(s.layer))
    requires var open := OpenSaves(settled, |settled|);
      open != [] && open[|open| - 1] == s.top.mark.saveOffset
      && settled[s.top.mark.saveOffset].SaveLayerRecord? == s.top.mark.isSaveLayer
    requires s.top.mark.isSaveLayer ==> s.outer != []
    ensures TallyAt(settled + [RestoreRecord], |settled| + 1) ==
      if s.top.mark.isSaveLayer then Tally(SummariesOf(s.outer[..|s.outer| - 1]), SummaryOf(s.outer[|s.outer| - 1]))
      else Tally(SummariesOf(s.outer), SummaryOf(s.layer))
  {
    TallyMore(settled, RestoreRecord);
    hide OpenSaves, PaintAt, TallyAt, SummaryOf;
    if s.outer != [] {
      SummariesPush(s.outer[..|s.outer| - 1], s.outer[|s.outer| - 1]);
      assert s.outer == s.outer[..|s.outer| - 1] + [s.outer[|s.outer| - 1]];
    }
  }

  lemma SettledSummaryMatches(s: BuilderState, t: BuilderState, settled: seq<Record>)
    requires TallyAt(settled, |settled|) == Tally(SummariesOf(s.outer), SummaryOf(s.layer))
    requires s.top.mark.saveOffset < |settled| && |settled| < |t.records|
    requires settled[s.top.mark.saveOffset] == t.records[s.top.mark.saveOffset]
    requires OpenSaves(settled, |settled|) != []
    requires OpenSaves(settled, |settled|)[|OpenSaves(settled, |settled|)| - 1] == s.top.mark.saveOffset
    requires settled[s.top.mark.saveOffset].SaveLayerRecord? ==>
      && t.records[s.top.mark.saveOffset].maxBlendMode == s.layer.maxBlendMode
      && t.records[s.top.mark.saveOffset].options.containsBackdropFilter == s.layer.flags.containsBackdrop
    ensures var open := OpenSaves(settled, |settled|);
      settled[open[|open| - 1]].SaveLayerRecord? ==>
        && settled[open[|open| - 1]].maxBlendMode == TallyAt(settled, |settled|).top.maxBlendMode
        && settled[open[|open| - 1]].options.containsBackdropFilter == TallyAt(settled, |settled|).top.backdrop
  {
    hide OpenSaves, TallyAt;
  }

  lemma {:induction false} RestoreToCountKeepsSummary(fx: FilterBounds, s: BuilderState, count: int)
    requires Summarized(s) && WellFormed(s)
    ensures Summarized(RestoreToCount(fx, s, count))
    decreases |s.below|
  {
    if s.below != [] && |s.below| + 1 > count {
      hide Summarized, WellFormed, Restore;
      RestoreKeepsSummary(fx, s);
      RestoreKeepsForm(fx, s);
      RestoreShrinks(fx, s);
      RestoreToCountKeepsSummary(fx, Restore(fx, s), count);
    }
  }

  lemma ClipKeepsSummary(s: BuilderState, r: Rect, op: ClipOp)
    requires Summarized(s) && WellFormed(s)
    ensures Summarized(Clip(s, r, op))
  {
    hide Summarized, ClipIsRedundant, CullIsEmpty, Tracker.ClipRect, WellFormed, SummaryOf;
    if !s.top.isNop && !ClipIsRedundant(s.top, r, op) {
      var clipped := Clipped(s.top, r, op);
      var t := s.(top := clipped.(hasValidClip := true));
      if CullIsEmpty(clipped) {
        UnchangedKeepsSummary(s, Clip(s, r, op));
      } else {
        UnchangedKeepsSummary(s, t);
        PlainKeepsForm(s, t);
        TriggerKeepsSummary(t);
        NoCount(CheckForDeferredSave(t), ClipRecord(r, op));
        PlainKeepsSummary(CheckForDeferredSave(t), ClipRecord(r, op), Clip(s, r, op));
      }
    }
  }

  lemma NoCount(s: BuilderState, op: Record)
    requires op.AttributeOp? || op.TransformRecord? || op.ClipRecord?
    ensures SummaryOf(s.layer) == Count(Tally([], SummaryOf(s.layer)), s.records + [op], |s.records|).top
  {
    hide PaintAt, OpenSaves;
  }

  lemma StepKeepsSummary(fx: FilterBounds, s: BuilderState, call: Call)
    requires Summarized(s) && WellFormed(s)
    ensures Summarized(Step(fx, s, call))
  {
    hide Summarized, WellFormed, ChangesMatrix, Transformed, SummaryOf, Attribute.ApplyTo, Save, SaveLayer, Restore,
      RestoreToCount, Clip, DrawOp,
      DrawDisplayList, Count;
    match call
    case SetAttributeCall(a) =>
      if a.ApplyTo(s.paint) != s.paint {
        NoCount(s, AttributeOp(a));
        PlainKeepsSummary(s, AttributeOp(a), SetAttribute(s, a));
      }
    case SaveCall => SaveKeepsSummary(s);
    case SaveLayerCall(bounds, withPaint, backdrop) => SaveLayerKeepsSummary(fx, s, bounds, withPaint, backdrop);
    case RestoreCall => RestoreKeepsSummary(fx, s);
    case RestoreToCountCall(count) => RestoreToCountKeepsSummary(fx, s, count);
    case TransformCall(t) =>
      if ChangesMatrix(t) {
        TriggerKeepsSummary(s);
        var c := CheckForDeferredSave(s);
        NoCount(c, TransformRecord(t));
        TransformKeepsMark(c.top, t);
        PlainKeepsSummary(c, TransformRecord(t), Transform(s, t));
      }
    case ClipCall(r, op) => ClipKeepsSummary(s, r, op);
    case DrawCall(d) => DrawKeepsSummary(fx, s, d);
    case DrawListCall(list, opacity) => ListKeepsSummary(s, list, opacity);
  }

  lemma TransformKeepsMark(info: SaveInfo, t: TransformOp)
    ensures Transformed(info, t).mark == info.mark
  {
  }

  lemma {:induction false} RunIsSummarized(fx: FilterBounds, cull: Rect, calls: seq<Call>)
    ensures Summarized(Run(fx, cull, calls))
  {
    if calls != [] {
      hide WellFormed, Step, Summarized;
      RunIsSummarized(fx, cull, calls[..|calls| - 1]);
      RunIsWellFormed(fx, cull, calls[..|calls| - 1]);
      StepKeepsSummary(fx, Run(fx, cull, calls[..|calls| - 1]), calls[|calls| - 1]);
    }
  }

  /** The record of every layer, and the root of a built list, say exactly what was drawn
      straight into them: the largest blend mode, and whether a backdrop filter was used. */
  lemma BuiltListIsSummarized(fx: FilterBounds, cull: Rect, calls: seq<Call>)
    ensures var built := Finished(fx, cull, calls);
      var root := TallyAt(built.records, |built.records|).top;
      && SummariesMatch(built.records)
      && Packed(built).root.maxBlendMode == root.maxBlendMode
      && Packed(built).root.hasBackdropFilter == root.backdrop
      && Packed(built).root.modifiesTransparentBlack == root.transparent
  {
    RunIsSummarized(fx, cull, calls);
    RunIsWellFormed(fx, cull, calls);
    hide Summarized, WellFormed, Run, RestoreToCount;
    RestoreToCountKeepsSummary(fx, Run(fx, cull, calls), 1);
    RootSummary(Finished(fx, cull, calls));
  }

  lemma RootSummary(s: BuilderState)
    requires Summarized(s)
    ensures SummariesMatch(s.records) && TallyAt(s.records, |s.records|).top == SummaryOf(s.layer)
  {
  }
}
