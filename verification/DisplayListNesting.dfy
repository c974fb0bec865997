/**
 Every stream the builder records is well nested, and every save record names its
 own restore, whatever calls were made.
 */
module DisplayListNesting {
  import opened Options
  import opened DisplayListTypes
  import opened DisplayListPaint
  import opened DisplayListBuilderSpec

  // ---------------------------------------------------- open saves of streams

  lemma {:induction false} OpenSavesPrefix(ops: seq<Record>, more: seq<Record>, n: nat)
    requires n <= |ops|
    ensures OpenSaves(ops + more, n) == OpenSaves(ops, n)
  {
    if n > 0 {
      OpenSavesPrefix(ops, more, n - 1);
    }
  }

  /** Two streams with the same kinds of records nest in the same way. */
  predicate SameKind(a: Record, b: Record) {
    a.IsSave() == b.IsSave() && a.RestoreRecord? == b.RestoreRecord?
  }

  lemma {:induction false} OpenSavesPatched(ops: seq<Record>, k: nat, r: Record, n: nat)
    requires k < |ops| && SameKind(ops[k], r) && n <= |ops|
    ensures OpenSaves(ops[k := r], n) == OpenSaves(ops, n)
  {
    if n > 0 {
      OpenSavesPatched(ops, k, r, n - 1);
    }
  }

  /** A closed save does not open again: what is open at `n` was already open at `m`
      or starts after it. */
  lemma {:induction false} OpenSavesAge(ops: seq<Record>, m: nat, n: nat)
    requires m <= n <= |ops|
    ensures forall k :: k in OpenSaves(ops, n) ==> k in OpenSaves(ops, m) || k >= m
  {
    if m < n {
      OpenSavesAge(ops, m, n - 1);
    }
  }

  lemma {:induction false} OpenSavesIncrease(ops: seq<Record>, n: nat)
    requires n <= |ops|
    ensures forall j, k :: 0 <= j < k < |OpenSaves(ops, n)| ==> OpenSaves(ops, n)[j] < OpenSaves(ops, n)[k]
  {
    if n > 0 {
      OpenSavesIncrease(ops, n - 1);
    }
  }

  ghost predicate RestoresMatch(ops: seq<Record>) {
    forall r :: 0 <= r < |ops| ==> RestoreMatches(ops, r)
  }

  lemma AppendKeepsMatches(ops: seq<Record>, op: Record)
    requires RestoresMatch(ops)
    requires op.RestoreRecord? ==>
      var open := OpenSaves(ops, |ops|);
      open != [] && ops[open[|open| - 1]].RestoreIndex() == |ops|
    ensures RestoresMatch(ops + [op])
    ensures OpenSaves(ops + [op], |ops| + 1) == StepOpen(OpenSaves(ops, |ops|), |ops|, op)
  {
    OpenSavesPrefix(ops, [op], |ops|);
    forall r | 0 <= r < |ops + [op]|
      ensures RestoreMatches(ops + [op], r)
    {
      OpenSavesPrefix(ops, [op], r);
      assert r < |ops| ==> RestoreMatches(ops, r);
    }
  }

  /** The record that a restore at `r` closed is not open any more. */
  lemma ClosedIsNotOpen(ops: seq<Record>, r: nat, n: nat)
    requires r < n <= |ops| && ops[r].RestoreRecord? && OpenSaves(ops, r) != []
    ensures OpenSaves(ops, r)[|OpenSaves(ops, r)| - 1] !in OpenSaves(ops, n)
  {
    OpenSavesIncrease(ops, r);
    OpenSavesAge(ops, r + 1, n);
  }

  lemma PatchKeepsMatches(ops: seq<Record>, k: nat, r: Record)
    requires RestoresMatch(ops) && k in OpenSaves(ops, |ops|)
    requires ops[k].IsSave() && r.IsSave()
    ensures RestoresMatch(ops[k := r])
    ensures OpenSaves(ops[k := r], |ops|) == OpenSaves(ops, |ops|)
  {
    OpenSavesPatched(ops, k, r, |ops|);
    var patched := ops[k := r];
    forall i | 0 <= i < |ops|
      ensures RestoreMatches(patched, i)
    {
      OpenSavesPatched(ops, k, r, i);
      assert RestoreMatches(ops, i);
      if ops[i].RestoreRecord? {
        ClosedIsNotOpen(ops, i, |ops|);
      }
    }
  }

  // ----------------------------------------------------- the save stack

  /** The records of the entries that have one, outermost first. The root has none. */
  function Offsets(below: seq<SaveInfo>, top: SaveInfo): seq<nat> {
    if below == [] then []
    else
      Offsets(below[..|below| - 1], below[|below| - 1]) +
      (if top.mark.deferred then [] else [top.mark.saveOffset])
  }

  predicate NamesRecord(ops: seq<Record>, mark: SaveMark) {
    mark.deferred ||
    (mark.saveOffset < |ops| && if mark.isSaveLayer then ops[mark.saveOffset].SaveLayerRecord?
                                else ops[mark.saveOffset].SaveRecord?)
  }

  predicate PlainIfDeferred(mark: SaveMark) {
    mark.deferred ==> !mark.isSaveLayer
  }

  /** The root entry stands for the whole list; a deferred entry is a plain save. */
  ghost predicate EntriesNamed(ops: seq<Record>, below: seq<SaveInfo>, top: SaveInfo) {
    && (below == [] ==> top.mark.isSaveLayer)
    && (below != [] ==> NamesRecord(ops, top.mark) && below[0].mark.isSaveLayer && !below[0].mark.deferred)
    && PlainIfDeferred(top.mark)
    && (forall i :: 1 <= i < |below| ==> NamesRecord(ops, below[i].mark))
    && (forall i :: 0 <= i < |below| ==> PlainIfDeferred(below[i].mark))
  }

  function Layers(below: seq<SaveInfo>): nat {
    if below == [] then 0
    else Layers(below[..|below| - 1]) + (if below[|below| - 1].mark.isSaveLayer then 1 else 0)
  }

  /** One layer per save-layer entry: the current one, and one for each entry below. */
  ghost predicate LayersMatch(s: BuilderState) {
    |s.outer| + 1 == Layers(s.below + [s.top])
  }

  ghost predicate Nested(ops: seq<Record>, below: seq<SaveInfo>, top: SaveInfo) {
    && OpenSaves(ops, |ops|) == Offsets(below, top)
    && RestoresMatch(ops)
    && EntriesNamed(ops, below, top)
  }

  lemma {:induction false} OpenOffset(ops: seq<Record>, below: seq<SaveInfo>, top: SaveInfo)
    requires below != [] && !top.mark.deferred
    ensures top.mark.saveOffset in Offsets(below, top)
    ensures Offsets(below, top)[|Offsets(below, top)| - 1] == top.mark.saveOffset
    ensures Offsets(below, top)[..|Offsets(below, top)| - 1] == Offsets(below[..|below| - 1], below[|below| - 1])
  {
  }

  lemma {:induction false} OffsetIsOpen(below: seq<SaveInfo>, top: SaveInfo, i: nat)
    requires 1 <= i < |below| && !below[i].mark.deferred
    ensures below[i].mark.saveOffset in Offsets(below[..|below| - 1], below[|below| - 1])
  {
    if i < |below| - 1 {
      OffsetIsOpen(below[..|below| - 1], below[|below| - 1], i);
    }
  }

  /** The record of the top entry comes after those of the entries below. */
  lemma TopRecordIsLast(ops: seq<Record>, below: seq<SaveInfo>, top: SaveInfo, i: nat)
    requires Nested(ops, below, top) && !top.mark.deferred
    requires 1 <= i < |below| && !below[i].mark.deferred
    ensures below[i].mark.saveOffset < top.mark.saveOffset
  {
    hide RestoresMatch, EntriesNamed, OpenSaves, Offsets;
    OpenSavesIncrease(ops, |ops|);
    OpenOffset(ops, below, top);
    OffsetIsOpen(below, top, i);
    var open := Offsets(below, top);
    var k :| 0 <= k < |open| - 1 && open[..|open| - 1][k] == below[i].mark.saveOffset;
    assert open[k] == below[i].mark.saveOffset;
  }

  lemma LayersOfPush(below: seq<SaveInfo>, top: SaveInfo)
    ensures Layers(below + [top]) == Layers(below) + (if top.mark.isSaveLayer then 1 else 0)
  {
    assert (below + [top])[..|below|] == below;
  }

  lemma OffsetsOfPush(below: seq<SaveInfo>, top: SaveInfo, entry: SaveInfo)
    ensures Offsets(below + [top], entry) == Offsets(below, top) +
      (if entry.mark.deferred then [] else [entry.mark.saveOffset])
  {
    assert (below + [top])[..|below|] == below;
  }

  // ------------------------------------------------------- the primitive steps

  lemma PlainKeepsNesting(ops: seq<Record>, below: seq<SaveInfo>, top: SaveInfo, op: Record)
    requires Nested(ops, below, top) && !op.IsSave() && !op.RestoreRecord?
    ensures Nested(ops + [op], below, top)
  {
    AppendKeepsMatches(ops, op);
  }

  lemma NewTopKeepsNesting(ops: seq<Record>, below: seq<SaveInfo>, top: SaveInfo, entry: SaveInfo)
    requires Nested(ops, below, top) && entry.mark == top.mark
    ensures Nested(ops, below, entry)
  {
  }

  lemma TriggerKeepsNesting(ops: seq<Record>, below: seq<SaveInfo>, top: SaveInfo, entry: SaveInfo)
    requires Nested(ops, below, top) && below != [] && top.mark.deferred
    requires entry.mark == SaveMark(top.mark.isSaveLayer, false, entry.mark.saveDepth, |ops|)
    ensures Nested(ops + [SaveRecord(0, 0)], below, entry)
  {
    AppendKeepsMatches(ops, SaveRecord(0, 0));
  }

  lemma SaveKeepsNesting(ops: seq<Record>, below: seq<SaveInfo>, top: SaveInfo, entry: SaveInfo)
    requires Nested(ops, below, top) && entry.mark == SaveMark(false, true, 0, 0)
    requires below == [] ==> !top.mark.deferred
    ensures Nested(ops, below + [top], entry)
  {
    OffsetsOfPush(below, top, entry);
  }

  lemma SaveLayerKeepsNesting(ops: seq<Record>, below: seq<SaveInfo>, top: SaveInfo, entry: SaveInfo, op: Record)
    requires Nested(ops, below, top) && op.SaveLayerRecord?
    requires entry.mark.isSaveLayer && !entry.mark.deferred && entry.mark.saveOffset == |ops|
    ensures Nested(ops + [op], below + [top], entry)
  {
    OffsetsOfPush(below, top, entry);
    AppendKeepsMatches(ops, op);
  }

  lemma PopKeepsNesting(ops: seq<Record>, below: seq<SaveInfo>, top: SaveInfo)
    requires Nested(ops, below, top) && below != [] && top.mark.deferred
    ensures Nested(ops, below[..|below| - 1], below[|below| - 1])
  {
  }

  lemma RestoreKeepsNesting(ops: seq<Record>, below: seq<SaveInfo>, top: SaveInfo, patched: Record)
    requires Nested(ops, below, top) && below != [] && !top.mark.deferred
    requires patched.RestoreIndex() == |ops| && patched.IsSave()
    requires top.mark.saveOffset < |ops| && patched.SaveLayerRecord? == ops[top.mark.saveOffset].SaveLayerRecord?
    requires patched.SaveRecord? == ops[top.mark.saveOffset].SaveRecord?
    ensures Nested(ops[top.mark.saveOffset := patched] + [RestoreRecord], below[..|below| - 1], below[|below| - 1])
  {
    hide RestoresMatch, RestoreMatches, OpenSaves, EntriesNamed;
    var k := top.mark.saveOffset;
    var settled := ops[k := patched];
    TopIsNamed(ops, below, top);
    OpenOffset(ops, below, top);
    PatchKeepsMatches(ops, k, patched);
    assert OpenSaves(settled, |settled|) == Offsets(below, top);
    assert settled[k] == patched;
    AppendKeepsMatches(settled, RestoreRecord);
    PatchKeepsNames(ops, below, top, k, patched);
    assert OpenSaves(settled + [RestoreRecord], |ops| + 1) == Offsets(below[..|below| - 1], below[|below| - 1]);
    assert |settled + [RestoreRecord]| == |ops| + 1;
  }

  lemma TopIsNamed(ops: seq<Record>, below: seq<SaveInfo>, top: SaveInfo)
    requires EntriesNamed(ops, below, top) && below != [] && !top.mark.deferred
    ensures top.mark.saveOffset < |ops| && ops[top.mark.saveOffset].IsSave()
  {
  }

  lemma PatchKeepsNames(ops: seq<Record>, below: seq<SaveInfo>, top: SaveInfo, k: nat, patched: Record)
    requires EntriesNamed(ops, below, top) && below != [] && k < |ops|
    requires patched.SaveLayerRecord? == ops[k].SaveLayerRecord? && patched.SaveRecord? == ops[k].SaveRecord?
    ensures EntriesNamed(ops[k := patched] + [RestoreRecord], below[..|below| - 1], below[|below| - 1])
  {
    var more := ops[k := patched] + [RestoreRecord];
    assert forall mark :: NamesRecord(ops, mark) ==> NamesRecord(more, mark);
  }

  // ---------------------------------------------------------- the calls

  ghost predicate WellFormed(s: BuilderState) {
    && Nested(s.records, s.below, s.top)
    && LayersMatch(s)
  }

  lemma {:induction false} RootIsALayer(below: seq<SaveInfo>)
    requires below != [] && below[0].mark.isSaveLayer
    ensures Layers(below) > 0
  {
    if |below| > 1 {
      RootIsALayer(below[..|below| - 1]);
    }
  }

  /** A closing layer has a parent layer, and its entry names its record. */
  lemma RestoreIsReady(s: BuilderState)
    requires WellFormed(s) && s.below != [] && !s.top.mark.deferred
    ensures NamesItsSave(s)
    ensures s.top.mark.isSaveLayer ==> s.outer != []
  {
    LayersOfPush(s.below, s.top);
    RootIsALayer(s.below);
  }

  /** A deferred entry is a plain save above the root. */
  lemma DeferredIsPlain(s: BuilderState)
    requires WellFormed(s) && s.top.mark.deferred
    ensures !s.top.mark.isSaveLayer && s.below != []
  {
  }

  lemma LayerIsTriggered(s: BuilderState)
    requires WellFormed(s)
    ensures s.top.mark.isSaveLayer ==> !s.top.mark.deferred
  {
  }

  lemma LayersAreTriggered(s: BuilderState, i: nat)
    requires WellFormed(s) && i < |s.below| && s.below[i].mark.isSaveLayer
    ensures !s.below[i].mark.deferred
  {
    assert PlainIfDeferred(s.below[i].mark);
  }

  /** Below the root there is nothing to restore. */
  lemma RootStays(fx: FilterBounds, s: BuilderState)
    requires s.below == []
    ensures Restore(fx, s) == s
  {
  }

  lemma DeferredPops(fx: FilterBounds, s: BuilderState)
    requires s.below != [] && s.top.mark.deferred
    ensures Restore(fx, s) == s.(below := s.below[..|s.below| - 1], top := s.below[|s.below| - 1])
  {
  }

  lemma RestorePopsEntry(fx: FilterBounds, s: BuilderState)
    requires s.below != []
    ensures Restore(fx, s).below == s.below[..|s.below| - 1] && Restore(fx, s).top == s.below[|s.below| - 1]
    ensures Restore(fx, s).paint == s.paint
  {
    hide TransferLayerBounds, ContentBounds, PatchSave, SettledLayer, DepthCost;
  }

  lemma DeferredKeepsForm(s: BuilderState)
    requires WellFormed(s)
    ensures WellFormed(CheckForDeferredSave(s)) && !CheckForDeferredSave(s).top.mark.deferred
    ensures CheckForDeferredSave(s).below == s.below
  {
    if s.top.mark.deferred {
      TriggerKeepsNesting(s.records, s.below, s.top, CheckForDeferredSave(s).top);
      LayersOfPush(s.below, s.top);
      LayersOfPush(s.below, CheckForDeferredSave(s).top);
    }
  }

  /** Appending one plain record and changing anything but the marks keeps the form. */
  lemma PlainKeepsForm(s: BuilderState, t: BuilderState)
    requires WellFormed(s)
    requires t.below == s.below && t.top.mark == s.top.mark && t.outer == s.outer
    requires t.records == s.records || (|t.records| > |s.records| && t.records == s.records + [t.records[|s.records|]]
                                        && !t.records[|s.records|].IsSave() && !t.records[|s.records|].RestoreRecord?)
    ensures WellFormed(t)
  {
    if t.records != s.records {
      PlainKeepsNesting(s.records, s.below, s.top, t.records[|s.records|]);
    }
    NewTopKeepsNesting(t.records, s.below, s.top, t.top);
    LayersOfPush(s.below, s.top);
    LayersOfPush(s.below, t.top);
  }

  lemma SaveKeepsForm(s: BuilderState)
    requires WellFormed(s)
    ensures WellFormed(Save(s))
  {
    SaveKeepsNesting(s.records, s.below, s.top, Save(s).top);
    LayersOfPush(s.below + [s.top], Save(s).top);
  }

  lemma SaveLayerKeepsForm(fx: FilterBounds, s: BuilderState, bounds: Option<Rect>, withPaint: bool,
                           backdrop: Option<ImageFilter>)
    requires WellFormed(s)
    ensures WellFormed(SaveLayer(fx, s, bounds, withPaint, backdrop))
  {
    hide PaintResult, AccumulateLayer, Nested, Layers, IsOpacityCompatible, LayerCull, Tracker.ClipRect;
    var t := SaveLayer(fx, s, bounds, withPaint, backdrop);
    if ResultOf(s.top, s.paint, SaveLayerFlags(withPaint)) == NoEffect {
      SaveKeepsForm(s);
      PlainKeepsForm(Save(s), t);
    } else {
      SaveLayerKeepsNesting(s.records, s.below, s.top, t.top, NewSaveLayerRecord(withPaint, bounds, backdrop));
      LayersOfPush(s.below + [s.top], t.top);
    }
  }

  lemma RestoreKeepsForm(fx: FilterBounds, s: BuilderState)
    requires WellFormed(s)
    ensures WellFormed(Restore(fx, s))
  {
    if s.below != [] {
      var below, parent := s.below[..|s.below| - 1], s.below[|s.below| - 1];
      assert s.below == below + [parent];
      LayersOfPush(s.below, s.top);
      if s.top.mark.deferred {
        PopKeepsNesting(s.records, s.below, s.top);
      } else {
        RestoreIsReady(s);
        var patched := Restore(fx, s).records[s.top.mark.saveOffset];
        RestorePatches(fx, s);
        RestoreKeepsNesting(s.records, s.below, s.top, patched);
      }
    }
  }

  /** What a restore does to the stream. */
  lemma RestorePatches(fx: FilterBounds, s: BuilderState)
    requires s.below != [] && !s.top.mark.deferred && NamesItsSave(s) && (s.top.mark.isSaveLayer ==> s.outer != [])
    ensures var k := s.top.mark.saveOffset;
      var t := Restore(fx, s);
      && |t.records| == |s.records| + 1
      && t.records == s.records[k := t.records[k]] + [RestoreRecord]
      && t.records[k].RestoreIndex() == |s.records|
      && t.records[k].SaveLayerRecord? == s.records[k].SaveLayerRecord?
      && t.records[k].SaveRecord? == s.records[k].SaveRecord?
      && t.below == s.below[..|s.below| - 1] && t.top == s.below[|s.below| - 1]
      && t.outer == if s.top.mark.isSaveLayer then s.outer[..|s.outer| - 1] else s.outer
  {
    hide AdjustRTreeRects, AnyRectFloods, ContentBounds, ContentIsClipped, DepthCost, AccumulateUnbounded,
      AccumulateBoundsLocal, TransferLayerBounds, LayerInfo.IsGroupOpacityCompatible;
  }

  lemma {:induction false} RestoreToCountKeepsForm(fx: FilterBounds, s: BuilderState, count: int)
    requires WellFormed(s)
    ensures WellFormed(RestoreToCount(fx, s, count))
    ensures count <= 1 ==> RestoreToCount(fx, s, count).below == []
    decreases |s.below|
  {
    if s.below != [] && |s.below| + 1 > count {
      hide WellFormed, Restore;
      RestoreKeepsForm(fx, s);
      RestoreShrinks(fx, s);
      RestoreToCountKeepsForm(fx, Restore(fx, s), count);
    }
  }

  lemma RestoreShrinks(fx: FilterBounds, s: BuilderState)
    requires s.below != []
    ensures |Restore(fx, s).below| == |s.below| - 1
  {
    hide TransferLayerBounds, ContentBounds, PatchSave, SettledLayer;
  }

  lemma TransformKeepsForm(s: BuilderState, t: TransformOp)
    requires WellFormed(s)
    ensures WellFormed(Transform(s, t))
  {
    hide WellFormed, ChangesMatrix;
    if ChangesMatrix(t) {
      DeferredKeepsForm(s);
      PlainKeepsForm(CheckForDeferredSave(s), Transform(s, t));
    }
  }

  lemma ClipKeepsForm(s: BuilderState, r: Rect, op: ClipOp)
    requires WellFormed(s)
    ensures WellFormed(Clip(s, r, op))
  {
    hide WellFormed, ClipIsRedundant, CullIsEmpty, Tracker.ClipRect;
    if !s.top.isNop && !ClipIsRedundant(s.top, r, op) {
      var clipped := Clipped(s.top, r, op);
      if CullIsEmpty(clipped) {
        PlainKeepsForm(s, Clip(s, r, op));
      } else {
        var t := s.(top := clipped.(hasValidClip := true));
        PlainKeepsForm(s, t);
        DeferredKeepsForm(t);
        PlainKeepsForm(CheckForDeferredSave(t), Clip(s, r, op));
      }
    }
  }

  lemma {:induction false} StepKeepsForm(fx: FilterBounds, s: BuilderState, call: Call)
    requires WellFormed(s)
    ensures WellFormed(Step(fx, s, call))
  {
    hide WellFormed, AccumulateGeometry, AccumulateRects, AccumulateUnbounded, ResultOf, IsOpacityCompatible,
      ListIsVisible;
    match call
    case SaveCall => SaveKeepsForm(s);
    case SaveLayerCall(bounds, withPaint, backdrop) => SaveLayerKeepsForm(fx, s, bounds, withPaint, backdrop);
    case RestoreCall => RestoreKeepsForm(fx, s);
    case RestoreToCountCall(count) => RestoreToCountKeepsForm(fx, s, count);
    case TransformCall(t) => TransformKeepsForm(s, t);
    case ClipCall(r, op) => ClipKeepsForm(s, r, op);
    case _ => PlainKeepsForm(s, Step(fx, s, call));
  }

  lemma {:induction false} RunIsWellFormed(fx: FilterBounds, cull: Rect, calls: seq<Call>)
    ensures WellFormed(Run(fx, cull, calls))
  {
    if calls != [] {
      hide WellFormed, Step;
      RunIsWellFormed(fx, cull, calls[..|calls| - 1]);
      StepKeepsForm(fx, Run(fx, cull, calls[..|calls| - 1]), calls[|calls| - 1]);
    } else {
      assert Layers([Init(cull).top]) == 1;
    }
  }

  /** Whatever was called, the built stream is well nested, so each save record's
      restore index names the restore that closes it. */
  lemma BuiltListIsWellNested(fx: FilterBounds, cull: Rect, calls: seq<Call>)
    ensures WellNested(Finished(fx, cull, calls).records)
    ensures Finished(fx, cull, calls).below == []
  {
    RunIsWellFormed(fx, cull, calls);
    RestoreToCountKeepsForm(fx, Run(fx, cull, calls), 1);
  }
}
