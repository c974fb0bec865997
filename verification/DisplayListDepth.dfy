/**
 Depth accounting: the depth of the whole list, and of the content of each save,
 is the sum of what the records inside it charge.
 */
module DisplayListDepth {
  import opened Options
  import opened DisplayListTypes
  import opened DisplayListPaint
  import opened DisplayListBuilderSpec
  import opened DisplayListNesting

  /** The paint in force after `n` records. */
  function PaintAt(ops: seq<Record>, n: nat): Paint
    requires n <= |ops|
  {
    if n == 0 then DEFAULT_PAINT
    else
      match ops[n - 1]
      case AttributeOp(a) => a.ApplyTo(PaintAt(ops, n - 1))
      case _ => PaintAt(ops, n - 1)
  }

  /** What one record charges: a drawing its own depth, a child list its whole depth
      besides, and the restore of a layer one copy; each under the mask filter in force. */
  function Contribution(ops: seq<Record>, i: nat): nat
    requires i < |ops|
  {
    var cost := if PaintAt(ops, i).maskBlur.Some? then 2 else 1;
    match ops[i]
    case DrawRecord(d) => d.depthInc * cost
    case DrawListRecord(list, _) => cost + list.totalDepth
    case RestoreRecord =>
      var open := OpenSaves(ops, i);
      if open != [] && ops[open[|open| - 1]].SaveLayerRecord? then cost else 0
    case _ => 0
  }

  /** The sum of the contributions of the records from `a` up to `b`. */
  function DepthBetween(ops: seq<Record>, a: nat, b: nat): nat
    requires b <= |ops|
  {
    if b <= a then 0 else DepthBetween(ops, a, b - 1) + Contribution(ops, b - 1)
  }

  lemma {:induction false} DepthSplits(ops: seq<Record>, a: nat, b: nat)
    requires a <= b <= |ops|
    ensures DepthBetween(ops, 0, b) == DepthBetween(ops, 0, a) + DepthBetween(ops, a, b)
  {
    if a < b {
      DepthSplits(ops, a, b - 1);
    }
  }

  // ------------------------------------------------ extending and patching

  lemma {:induction false} PaintAtPrefix(ops: seq<Record>, more: seq<Record>, n: nat)
    requires n <= |ops|
    ensures PaintAt(ops + more, n) == PaintAt(ops, n)
  {
    if n > 0 {
      PaintAtPrefix(ops, more, n - 1);
    }
  }

  lemma {:induction false} PaintAtPatched(ops: seq<Record>, k: nat, r: Record, n: nat)
    requires k < |ops| && ops[k].IsSave() && r.IsSave() && n <= |ops|
    ensures PaintAt(ops[k := r], n) == PaintAt(ops, n)
  {
    if n > 0 {
      PaintAtPatched(ops, k, r, n - 1);
    }
  }

  lemma {:induction false} DepthPrefix(ops: seq<Record>, more: seq<Record>, n: nat)
    requires n <= |ops|
    ensures DepthBetween(ops + more, 0, n) == DepthBetween(ops, 0, n)
  {
    if n > 0 {
      hide PaintAt, OpenSaves;
      DepthPrefix(ops, more, n - 1);
      PaintAtPrefix(ops, more, n - 1);
      OpenSavesPrefix(ops, more, n - 1);
    }
  }

  lemma {:induction false} DepthPatched(ops: seq<Record>, k: nat, r: Record, n: nat)
    requires k < |ops| && ops[k].IsSave() && r.IsSave() && n <= |ops|
    requires r.SaveLayerRecord? == ops[k].SaveLayerRecord?
    ensures DepthBetween(ops[k := r], 0, n) == DepthBetween(ops, 0, n)
  {
    if n > 0 {
      hide PaintAt, OpenSaves;
      DepthPatched(ops, k, r, n - 1);
      PaintAtPatched(ops, k, r, n - 1);
      OpenSavesPatched(ops, k, r, n - 1);
    }
  }

  // ---------------------------------------------------------- the invariant

  function ContentDepth(r: Record): int {
    if r.IsSave() then r.contentDepth else 0
  }

  /** The save closed at `r` holds the depth charged strictly inside it. */
  predicate DepthMatches(ops: seq<Record>, r: nat)
    requires r < |ops|
  {
    ops[r].RestoreRecord? ==>
      var open := OpenSaves(ops, r);
      open != [] && ContentDepth(ops[open[|open| - 1]]) == DepthBetween(ops, open[|open| - 1] + 1, r)
  }

  ghost predicate DepthsMatch(ops: seq<Record>) {
    forall r :: 0 <= r < |ops| ==> DepthMatches(ops, r)
  }

  predicate MarkDepth(ops: seq<Record>, mark: SaveMark) {
    mark.deferred || (mark.saveOffset < |ops| && mark.saveDepth == DepthBetween(ops, 0, mark.saveOffset))
  }

  ghost predicate MarksMatch(ops: seq<Record>, below: seq<SaveInfo>, top: SaveInfo) {
    && (below != [] ==> MarkDepth(ops, top.mark))
    && (forall i :: 1 <= i < |below| ==> MarkDepth(ops, below[i].mark))
  }

  ghost predicate DepthAccounted(s: BuilderState) {
    && s.paint == PaintAt(s.records, |s.records|)
    && s.depth == DepthBetween(s.records, 0, |s.records|)
    && DepthsMatch(s.records)
    && MarksMatch(s.records, s.below, s.top)
  }

  lemma AppendKeepsDepths(ops: seq<Record>, op: Record)
    requires DepthsMatch(ops)
    requires op.RestoreRecord? ==>
      var open := OpenSaves(ops, |ops|);
      open != [] && ContentDepth(ops[open[|open| - 1]]) == DepthBetween(ops, open[|open| - 1] + 1, |ops|)
    ensures DepthsMatch(ops + [op])
  {
    hide PaintAt, OpenSaves, Contribution, DepthBetween, ContentDepth;
    var more := ops + [op];
    forall r | 0 <= r < |more|
      ensures DepthMatches(more, r)
    {
      assert r < |ops| ==> DepthMatches(ops, r);
      DepthStays(ops, op, r);
    }
  }

  lemma DepthStays(ops: seq<Record>, op: Record, r: nat)
    requires r <= |ops|
    ensures OpenSaves(ops + [op], r) == OpenSaves(ops, r)
    ensures forall k :: 0 <= k <= r ==> DepthBetween(ops + [op], k, r) == DepthBetween(ops, k, r)
  {
    OpenSavesPrefix(ops, [op], r);
    DepthPrefix(ops, [op], r);
    forall k | 0 <= k <= r
      ensures DepthBetween(ops + [op], k, r) == DepthBetween(ops, k, r)
    {
      DepthSplits(ops, k, r);
      DepthSplits(ops + [op], k, r);
      DepthPrefix(ops, [op], k);
    }
  }

  lemma PatchKeepsDepths(ops: seq<Record>, k: nat, r: Record)
    requires DepthsMatch(ops) && RestoresMatch(ops) && k in OpenSaves(ops, |ops|)
    requires ops[k].IsSave() && r.IsSave() && r.SaveLayerRecord? == ops[k].SaveLayerRecord?
    ensures DepthsMatch(ops[k := r])
  {
    hide PaintAt, OpenSaves, Contribution, DepthBetween, ContentDepth;
    var patched := ops[k := r];
    forall i | 0 <= i < |ops|
      ensures DepthMatches(patched, i)
    {
      assert DepthMatches(ops, i);
      OpenSavesPatched(ops, k, r, i);
      if ops[i].RestoreRecord? {
        ClosedIsNotOpen(ops, i, |ops|);
        var open := OpenSaves(ops, i);
        PatchedBetween(ops, k, r, open[|open| - 1] + 1, i);
      }
    }
  }

  lemma PatchedBetween(ops: seq<Record>, k: nat, r: Record, a: nat, b: nat)
    requires k < |ops| && ops[k].IsSave() && r.IsSave() && a <= b <= |ops|
    requires r.SaveLayerRecord? == ops[k].SaveLayerRecord?
    ensures DepthBetween(ops[k := r], a, b) == DepthBetween(ops, a, b)
  {
    DepthPatched(ops, k, r, a);
    DepthPatched(ops, k, r, b);
    DepthSplits(ops, a, b);
    DepthSplits(ops[k := r], a, b);
  }

  // ------------------------------------------------------- primitive steps

  lemma MarksStay(ops: seq<Record>, op: Record, below: seq<SaveInfo>, top: SaveInfo)
    requires MarksMatch(ops, below, top)
    ensures MarksMatch(ops + [op], below, top)
  {
    hide DepthBetween;
    forall mark | MarkDepth(ops, mark)
      ensures MarkDepth(ops + [op], mark)
    {
      if !mark.deferred {
        DepthPrefix(ops, [op], mark.saveOffset);
      }
    }
  }

  /** Appending a record that is not a restore. */
  lemma PlainKeepsDepth(s: BuilderState, op: Record, t: BuilderState)
    requires DepthAccounted(s) && !op.RestoreRecord?
    requires t.records == s.records + [op] && t.below == s.below && t.top.mark == s.top.mark
    requires t.depth == s.depth + DepthInc(op) * DepthCost(s.paint) +
      (if op.DrawListRecord? then op.list.totalDepth else 0)
    requires t.paint == if op.AttributeOp? then op.attribute.ApplyTo(s.paint) else s.paint
    ensures DepthAccounted(t)
  {
    PaintAtPrefix(s.records, [op], |s.records|);
    DepthPrefix(s.records, [op], |s.records|);
    AppendKeepsDepths(s.records, op);
    MarksStay(s.records, op, s.below, s.top);
    hide DepthsMatch;
    assert t.paint == PaintAt(t.records, |t.records|);
    assert Contribution(t.records, |s.records|) == t.depth - s.depth;
  }

  lemma TriggerKeepsDepth(s: BuilderState)
    requires DepthAccounted(s)
    ensures DepthAccounted(CheckForDeferredSave(s))
  {
    if s.top.mark.deferred {
      var t := CheckForDeferredSave(s);
      var pushed := Push(s, SaveRecord(0, 0));
      hide DepthsMatch, PaintAt, DepthBetween;
      PlainKeepsDepth(s, SaveRecord(0, 0), pushed);
      DepthPrefix(s.records, [SaveRecord(0, 0)], |s.records|);
      assert MarkDepth(t.records, t.top.mark);
    }
  }

  lemma SaveKeepsDepth(s: BuilderState)
    requires DepthAccounted(s)
    ensures DepthAccounted(Save(s))
  {
    hide DepthsMatch, PaintAt, DepthBetween;
  }

  lemma SaveLayerKeepsDepth(fx: FilterBounds, s: BuilderState, bounds: Option<Rect>, withPaint: bool,
                            backdrop: Option<ImageFilter>)
    requires DepthAccounted(s)
    ensures DepthAccounted(SaveLayer(fx, s, bounds, withPaint, backdrop))
  {
    hide DepthsMatch, PaintAt, DepthBetween, PaintResult, AccumulateLayer, IsOpacityCompatible, LayerCull,
      Tracker.ClipRect;
    if ResultOf(s.top, s.paint, SaveLayerFlags(withPaint)) == NoEffect {
      SaveKeepsDepth(s);
    } else {
      var t := SaveLayer(fx, s, bounds, withPaint, backdrop);
      var op := NewSaveLayerRecord(withPaint, bounds, backdrop);
      PlainKeepsDepth(s, op, Push(s, op));
      DepthPrefix(s.records, [op], |s.records|);
      assert MarkDepth(t.records, t.top.mark);
      assert s.below != [] ==> MarkDepth(t.records, s.top.mark);
    }
  }

  /** The depth since the record of the top entry is the depth strictly inside it. */
  lemma InsideDepth(s: BuilderState)
    requires DepthAccounted(s) && WellFormed(s) && s.below != [] && !s.top.mark.deferred
    ensures s.top.mark.saveOffset < |s.records|
    ensures s.depth - s.top.mark.saveDepth == DepthBetween(s.records, s.top.mark.saveOffset + 1, |s.records|)
  {
    var k := s.top.mark.saveOffset;
    assert MarkDepth(s.records, s.top.mark);
    DepthSplits(s.records, k + 1, |s.records|);
    RestoreIsReady(s);
    assert Contribution(s.records, k) == 0;
    assert DepthBetween(s.records, 0, k + 1) == DepthBetween(s.records, 0, k);
  }

  lemma RestoreRecordDepth(s: BuilderState, patched: Record)
    requires DepthAccounted(s) && WellFormed(s) && s.below != [] && !s.top.mark.deferred
    requires NamesItsSave(s) && patched.IsSave()
    requires patched.SaveLayerRecord? == s.records[s.top.mark.saveOffset].SaveLayerRecord?
    requires ContentDepth(patched) == s.depth - s.top.mark.saveDepth
    ensures var more := s.records[s.top.mark.saveOffset := patched] + [RestoreRecord];
      && DepthsMatch(more)
      && PaintAt(more, |more|) == s.paint
      && DepthBetween(more, 0, |more|) == s.depth + (if s.top.mark.isSaveLayer then DepthCost(s.paint) else 0)
  {
    hide DepthsMatch, DepthBetween, PaintAt, Contribution, OpenSaves, Offsets, EntriesNamed, RestoresMatch, LayersMatch,
      MarksMatch;
    var k := s.top.mark.saveOffset;
    var ops := s.records[k := patched];
    OpenOffset(s.records, s.below, s.top);
    PatchKeepsDepths(s.records, k, patched);
    OpenSavesPatched(s.records, k, patched, |ops|);
    InsideDepth(s);
    PatchedBetween(s.records, k, patched, k + 1, |ops|);
    AppendKeepsDepths(ops, RestoreRecord);
    PaintAtPatched(s.records, k, patched, |ops|);
    DepthPatched(s.records, k, patched, |ops|);
    LastContribution(ops);
  }

  lemma LastContribution(ops: seq<Record>)
    ensures var more := ops + [RestoreRecord];
      var open := OpenSaves(ops, |ops|);
      && PaintAt(more, |more|) == PaintAt(ops, |ops|)
      && DepthBetween(more, 0, |more|) == DepthBetween(ops, 0, |ops|) +
         (if open != [] && ops[open[|open| - 1]].SaveLayerRecord? then DepthCost(PaintAt(ops, |ops|)) else 0)
  {
    hide OpenSaves, PaintAt, DepthBetween;
    var more := ops + [RestoreRecord];
    PaintAtPrefix(ops, [RestoreRecord], |ops|);
    DepthPrefix(ops, [RestoreRecord], |ops|);
    OpenSavesPrefix(ops, [RestoreRecord], |ops|);
    PaintAfterRestore(ops);
    LastAdds(more);
    assert more[|ops|] == RestoreRecord;
    var open := OpenSaves(ops, |ops|);
    assert open != [] ==> more[open[|open| - 1]] == ops[open[|open| - 1]];
  }

  lemma LastAdds(more: seq<Record>)
    requires more != []
    ensures DepthBetween(more, 0, |more|) == DepthBetween(more, 0, |more| - 1) + Contribution(more, |more| - 1)
  {
  }

  lemma PaintAfterRestore(ops: seq<Record>)
    ensures PaintAt(ops + [RestoreRecord], |ops| + 1) == PaintAt(ops + [RestoreRecord], |ops|)
  {
  }

  lemma PatchKeepsMarks(ops: seq<Record>, below: seq<SaveInfo>, top: SaveInfo, k: nat, patched: Record)
    requires MarksMatch(ops, below, top) && below != [] && k < |ops| && ops[k].IsSave() && patched.IsSave()
    requires patched.SaveLayerRecord? == ops[k].SaveLayerRecord?
    ensures MarksMatch(ops[k := patched] + [RestoreRecord], below[..|below| - 1], below[|below| - 1])
  {
    hide DepthBetween;
    var settled := ops[k := patched];
    forall mark | MarkDepth(ops, mark)
      ensures MarkDepth(settled, mark)
    {
      if !mark.deferred {
        DepthPatched(ops, k, patched, mark.saveOffset);
      }
    }
    MarksStay(settled, RestoreRecord, below[..|below| - 1], below[|below| - 1]);
  }

  lemma RestoreKeepsDepth(fx: FilterBounds, s: BuilderState)
    requires DepthAccounted(s) && WellFormed(s)
    ensures DepthAccounted(Restore(fx, s))
  {
    if s.below != [] && !s.top.mark.deferred {
      RestoreIsReady(s);
      RestorePatches(fx, s);
      RestoreCharges(fx, s);
      var k := s.top.mark.saveOffset;
      var patched := Restore(fx, s).records[k];
      RestoreRecordDepth(s, patched);
      PatchKeepsMarks(s.records, s.below, s.top, k, patched);
      hide *;
      assert DepthAccounted(Restore(fx, s)) by {
        AccountedFrom(Restore(fx, s));
      }
    }
  }

  lemma AccountedFrom(t: BuilderState)
    requires PaintAt(t.records, |t.records|) == t.paint && DepthBetween(t.records, 0, |t.records|) == t.depth
    requires DepthsMatch(t.records) && MarksMatch(t.records, t.below, t.top)
    ensures DepthAccounted(t)
  {
  }

  lemma RestoreCharges(fx: FilterBounds, s: BuilderState)
    requires s.below != [] && !s.top.mark.deferred && NamesItsSave(s) && (s.top.mark.isSaveLayer ==> s.outer != [])
    ensures var t := Restore(fx, s);
      && |t.records| > s.top.mark.saveOffset
      && ContentDepth(t.records[s.top.mark.saveOffset]) == s.depth - s.top.mark.saveDepth
      && t.paint == s.paint
      && t.depth == s.depth + (if s.top.mark.isSaveLayer then DepthCost(s.paint) else 0)
  {
    hide TransferLayerBounds, ContentBounds, ContentIsClipped, DepthCost, LayerInfo.IsGroupOpacityCompatible;
  }

  lemma {:induction false} RestoreToCountKeepsDepth(fx: FilterBounds, s: BuilderState, count: int)
    requires DepthAccounted(s) && WellFormed(s)
    ensures DepthAccounted(RestoreToCount(fx, s, count))
    decreases |s.below|
  {
    if s.below != [] && |s.below| + 1 > count {
      hide WellFormed, Restore, DepthAccounted;
      RestoreKeepsDepth(fx, s);
      RestoreKeepsForm(fx, s);
      RestoreShrinks(fx, s);
      RestoreToCountKeepsDepth(fx, Restore(fx, s), count);
    }
  }

  lemma ClipKeepsDepth(s: BuilderState, r: Rect, op: ClipOp)
    requires DepthAccounted(s)
    ensures DepthAccounted(Clip(s, r, op))
  {
    hide ClipIsRedundant, CullIsEmpty, Tracker.ClipRect, DepthBetween, PaintAt, DepthsMatch;
    if !s.top.isNop && !ClipIsRedundant(s.top, r, op) && !CullIsEmpty(Clipped(s.top, r, op)) {
      var t := s.(top := Clipped(s.top, r, op).(hasValidClip := true));
      TriggerKeepsDepth(t);
      PlainKeepsDepth(CheckForDeferredSave(t), ClipRecord(r, op), Clip(s, r, op));
    }
  }

  lemma {:induction false} StepKeepsDepth(fx: FilterBounds, s: BuilderState, call: Call)
    requires DepthAccounted(s) && WellFormed(s)
    ensures DepthAccounted(Step(fx, s, call))
  {
    match call
    case SetAttributeCall(a) =>
      hide DepthAccounted;
      if a.ApplyTo(s.paint) != s.paint {
        PlainKeepsDepth(s, AttributeOp(a), SetAttribute(s, a));
      }
    case SaveCall => SaveKeepsDepth(s);
    case SaveLayerCall(bounds, withPaint, backdrop) => SaveLayerKeepsDepth(fx, s, bounds, withPaint, backdrop);
    case RestoreCall => RestoreKeepsDepth(fx, s);
    case RestoreToCountCall(count) => RestoreToCountKeepsDepth(fx, s, count);
    case TransformCall(t) =>
      hide DepthAccounted;
      if ChangesMatrix(t) {
        TriggerKeepsDepth(s);
        PlainKeepsDepth(CheckForDeferredSave(s), TransformRecord(t), Transform(s, t));
      }
    case ClipCall(r, op) => ClipKeepsDepth(s, r, op);
    case DrawCall(d) => DrawKeepsDepth(fx, s, d);
    case DrawListCall(list, opacity) => DrawListKeepsDepth(s, list, opacity);
  }

  lemma DrawKeepsDepth(fx: FilterBounds, s: BuilderState, d: Draw)
    requires DepthAccounted(s)
    ensures DepthAccounted(DrawOp(fx, s, d))
  {
    hide DepthsMatch, PaintAt, DepthBetween, MarksMatch, AccumulateGeometry, ResultOf, IsOpacityCompatible;
    if ResultOf(s.top, PaintOf(s.paint, d), d.flags) != NoEffect && AccumulateGeometry(fx, s, d).ok {
      PlainKeepsDepth(s, DrawRecord(d), DrawOp(fx, s, d));
    }
  }

  lemma DrawListKeepsDepth(s: BuilderState, list: ChildList, opacity: real)
    requires DepthAccounted(s)
    ensures DepthAccounted(DrawDisplayList(s, list, opacity))
  {
    hide DepthsMatch, PaintAt, DepthBetween, MarksMatch, AccumulateRects, AccumulateUnbounded, ListIsVisible;
    if DrawDisplayList(s, list, opacity).records != s.records {
      PlainKeepsDepth(s, DrawListRecord(list, Min(opacity, 1.0)), DrawDisplayList(s, list, opacity));
    }
  }

  lemma {:induction false} RunAccountsDepth(fx: FilterBounds, cull: Rect, calls: seq<Call>)
    ensures DepthAccounted(Run(fx, cull, calls))
  {
    if calls != [] {
      hide WellFormed, Step, DepthAccounted;
      RunAccountsDepth(fx, cull, calls[..|calls| - 1]);
      RunIsWellFormed(fx, cull, calls[..|calls| - 1]);
      StepKeepsDepth(fx, Run(fx, cull, calls[..|calls| - 1]), calls[|calls| - 1]);
    }
  }

  /** The total depth of a built list is the sum over all its records, and every save
      record holds the sum over the records strictly between it and its restore. */
  lemma BuiltDepthIsTheSum(fx: FilterBounds, cull: Rect, calls: seq<Call>)
    ensures var built := Finished(fx, cull, calls);
      && built.depth == DepthBetween(built.records, 0, |built.records|)
      && DepthsMatch(built.records)
  {
    hide *;
    RunAccountsDepth(fx, cull, calls);
    RunIsWellFormed(fx, cull, calls);
    RestoreToCountKeepsDepth(fx, Run(fx, cull, calls), 1);
    DepthOfFinished(fx, cull, calls);
  }

  lemma DepthOfFinished(fx: FilterBounds, cull: Rect, calls: seq<Call>)
    requires DepthAccounted(RestoreToCount(fx, Run(fx, cull, calls), 1))
    ensures var built := Finished(fx, cull, calls);
      && built.depth == DepthBetween(built.records, 0, |built.records|)
      && DepthsMatch(built.records)
  {
  }
}
