/**
 What the selected records paint, against what the whole list paints: the canvas of the
 selection has the marks of every hit, and no marks that the whole list does not have.
 */
module DisplayListCulledCanvas {
  import opened DisplayListTypes
  import opened DisplayListReplay
  import opened DisplayListCulling
  import opened DisplayListCanvas
  import opened DisplayListFaithful
  import opened DisplayListPaint
  import Spec = DisplayListBuilderSpec

  /** The canvas after the first `n` records. */
  ghost function CanvasAt(fm: FilterMeaning, cull: Rect, ops: seq<Record>, n: nat): Canvas
    requires n <= |ops|
  {
    CanvasOf(fm, cull, ops[..n])
  }

  /** The canvas after the records at `indices`, which keep their own index as identity. */
  ghost function SelectedCanvas(fm: FilterMeaning, cull: Rect, ops: seq<Record>, indices: seq<nat>): Canvas
    requires InRange(indices, |ops|)
  {
    if indices == [] then StartCanvas(cull)
    else
      var last := indices[|indices| - 1];
      CanvasStep(fm, SelectedCanvas(fm, cull, ops, indices[..|indices| - 1]), AsCall(ops[last]), last)
  }

  lemma CanvasNext(fm: FilterMeaning, cull: Rect, ops: seq<Record>, n: nat)
    requires n < |ops|
    ensures CanvasAt(fm, cull, ops, n + 1) == CanvasStep(fm, CanvasAt(fm, cull, ops, n), AsCall(ops[n]), n)
  {
    hide CanvasStep, AsCall;
    CanvasMore(fm, cull, ops[..n], ops[n]);
    assert ops[..n] + [ops[n]] == ops[..n + 1];
  }

  lemma SelectedNext(fm: FilterMeaning, cull: Rect, ops: seq<Record>, indices: seq<nat>, i: nat)
    requires InRange(indices, |ops|) && i < |ops|
    ensures InRange(indices + [i], |ops|)
    ensures SelectedCanvas(fm, cull, ops, indices + [i])
         == CanvasStep(fm, SelectedCanvas(fm, cull, ops, indices), AsCall(ops[i]), i)
  {
    hide CanvasStep, AsCall;
    assert (indices + [i])[..|indices|] == indices;
  }

  // ------------------------------------------------------------- the marks

  /** Of the marks at least those of the hits, and nothing else. */
  ghost predicate HitsOf(hits: seq<nat>, full: iset<Mark>, culled: iset<Mark>) {
    && (forall m :: m in culled ==> m in full)
    && (forall m :: m in full && m.id in hits ==> m in culled)
  }

  /** Layer by layer, where the outermost `kept` saves of the stack were kept. A layer that
      was left out has no hits. */
  ghost predicate MarksMatch(hits: seq<nat>, below: seq<CanvasEntry>, top: CanvasEntry, outer: seq<iset<Mark>>,
                             marks: iset<Mark>, kept: nat, culledOuter: seq<iset<Mark>>, culled: iset<Mark>)
    requires kept <= |below|
    decreases |below|
  {
    var n := |below| - 1;
    if kept == |below| then
      && HitsOf(hits, marks, culled)
      && if below == [] then true
         else if top.isLayer then
           && outer != [] && culledOuter != []
           && MarksMatch(hits, below[..n], below[n], outer[..|outer| - 1], outer[|outer| - 1], kept - 1,
                         culledOuter[..|culledOuter| - 1], culledOuter[|culledOuter| - 1])
         else MarksMatch(hits, below[..n], below[n], outer, marks, kept - 1, culledOuter, culled)
    else if top.isLayer then
      && outer != [] && HitsOf(hits, marks, iset{})
      && MarksMatch(hits, below[..n], below[n], outer[..|outer| - 1], outer[|outer| - 1], kept, culledOuter, culled)
    else MarksMatch(hits, below[..n], below[n], outer, marks, kept, culledOuter, culled)
  }

  function EntryAt(c: Canvas, k: nat): CanvasEntry
    requires k <= |c.below|
  {
    if k < |c.below| then c.below[k] else c.top
  }

  /** The kept entries are the same; the matrix and the clip of the last one only while the
      next hit is in its scope. */
  ghost predicate StacksMatch(full: Canvas, culled: Canvas, kept: nat, alive: bool) {
    && kept <= |full.below| && culled.below == full.below[..kept]
    && culled.top.isLayer == EntryAt(full, kept).isLayer && culled.top.spec == EntryAt(full, kept).spec
    && (alive ==> kept == |full.below| && culled.top == full.top)
  }

  ghost predicate CanvasMatch(hits: seq<nat>, full: Canvas, culled: Canvas, kept: nat, alive: bool) {
    && StacksMatch(full, culled, kept, alive)
    && MarksMatch(hits, full.below, full.top, full.outer, full.marks, kept, culled.outer, culled.marks)
  }

  lemma MoreHitsOf(hits: seq<nat>, full: iset<Mark>, culled: iset<Mark>, more: iset<Mark>, culledMore: iset<Mark>)
    requires HitsOf(hits, full, culled) && HitsOf(hits, more, culledMore)
    ensures HitsOf(hits, full + more, culled + culledMore)
  {
  }

  /** New marks in the current layer; a scope that was left out gets no marks. */
  lemma {:induction false} AddMarks(hits: seq<nat>, below: seq<CanvasEntry>, top: CanvasEntry, outer: seq<iset<Mark>>,
                                    marks: iset<Mark>, kept: nat, culledOuter: seq<iset<Mark>>, culled: iset<Mark>,
                                    more: iset<Mark>, culledMore: iset<Mark>)
    requires kept <= |below| && MarksMatch(hits, below, top, outer, marks, kept, culledOuter, culled)
    requires HitsOf(hits, more, culledMore) && (kept < |below| ==> culledMore == iset{})
    ensures MarksMatch(hits, below, top, outer, marks + more, kept, culledOuter, culled + culledMore)
    decreases |below|
  {
    hide HitsOf;
    var n := |below| - 1;
    if kept == |below| {
      MoreHitsOf(hits, marks, culled, more, culledMore);
      if below != [] && !top.isLayer {
        AddMarks(hits, below[..n], below[n], outer, marks, kept - 1, culledOuter, culled, more, culledMore);
      }
    } else {
      assert culledMore + culledMore == culledMore && culled + culledMore == culled;
      if top.isLayer {
        MoreHitsOf(hits, marks, iset{}, more, culledMore);
      } else {
        AddMarks(hits, below[..n], below[n], outer, marks, kept, culledOuter, culled, more, culledMore);
      }
    }
  }

  /** Transforms and clips do not matter to marks that are there. */
  lemma NewTopMatches(hits: seq<nat>, below: seq<CanvasEntry>, top: CanvasEntry, outer: seq<iset<Mark>>,
                      marks: iset<Mark>, kept: nat, culledOuter: seq<iset<Mark>>, culled: iset<Mark>,
                      newTop: CanvasEntry)
    requires kept <= |below| && MarksMatch(hits, below, top, outer, marks, kept, culledOuter, culled)
    requires newTop.isLayer == top.isLayer
    ensures MarksMatch(hits, below, newTop, outer, marks, kept, culledOuter, culled)
  {
    hide HitsOf;
  }

  // ------------------------------------------------- records without scopes

  predicate IsPlain(call: Spec.Call) {
    call.SetAttributeCall? || call.TransformCall? || call.ClipCall? || call.DrawCall? || call.DrawListCall?
  }

  predicate Draws(call: Spec.Call) {
    call.DrawCall? || call.DrawListCall?
  }

  /** A record as a change of the paint, of the top entry and of the marks. */
  ghost function NewMarks(fm: FilterMeaning, c: Canvas, call: Spec.Call, id: nat): iset<Mark> {
    match call
    case DrawCall(d) => DrawMarks(fm, c, d, id)
    case DrawListCall(list, opacity) => ListMarks(c, list, opacity, id)
    case SaveLayerCall(bounds, withPaint, backdrop) => LayerMarks(c, withPaint, backdrop, id)
    case _ => iset{}
  }

  lemma NewMarksAreOwn(fm: FilterMeaning, c: Canvas, call: Spec.Call, id: nat)
    ensures forall m :: m in NewMarks(fm, c, call, id) ==> m.id == id
  {
    hide DrawTouches, ListTouches, LayerTouches, DrawnPart, ListPart;
  }

  lemma PlainStep(fm: FilterMeaning, c: Canvas, call: Spec.Call, id: nat)
    requires IsPlain(call)
    ensures var d := CanvasStep(fm, c, call, id);
      && d.below == c.below && d.outer == c.outer && d.marks == c.marks + NewMarks(fm, c, call, id)
      && d.top.isLayer == c.top.isLayer && d.top.spec == c.top.spec
      && (call.SetAttributeCall? || d.paint == c.paint)
      && (call.SetAttributeCall? || Draws(call) ==> d.top == c.top)
  {
    hide DrawMarks, ListMarks, ClipPoints, ConcatMatrix;
  }

  /** The parts of the step are the same on canvases with the same top and paint. */
  lemma SameStep(fm: FilterMeaning, full: Canvas, culled: Canvas, call: Spec.Call, id: nat)
    requires IsPlain(call) && culled.paint == full.paint
    ensures CanvasStep(fm, culled, call, id).paint == CanvasStep(fm, full, call, id).paint
    ensures culled.top == full.top ==>
      && CanvasStep(fm, culled, call, id).top == CanvasStep(fm, full, call, id).top
      && NewMarks(fm, culled, call, id) == NewMarks(fm, full, call, id)
  {
    hide DrawTouches, ListTouches, ConcatMatrix, DrawnPart, ListPart;
  }

  /** The whole list alone makes a step without hits. */
  lemma SkippedStepMatches(hits: seq<nat>, fm: FilterMeaning, full: Canvas, culled: Canvas, kept: nat, alive: bool,
                           call: Spec.Call, id: nat)
    requires CanvasMatch(hits, full, culled, kept, alive) && IsPlain(call) && id !in hits
    requires alive ==> Draws(call)
    ensures CanvasMatch(hits, CanvasStep(fm, full, call, id), culled, kept, alive)
  {
    var next, more := CanvasStep(fm, full, call, id), NewMarks(fm, full, call, id);
    PlainStep(fm, full, call, id);
    NewMarksAreOwn(fm, full, call, id);
    assert HitsOf(hits, more, iset{});
    hide CanvasStep, NewMarks, HitsOf, MarksMatch;
    AddMarks(hits, full.below, full.top, full.outer, full.marks, kept, culled.outer, culled.marks, more, iset{});
    assert culled.marks + iset{} == culled.marks;
    NewTopMatches(hits, full.below, full.top, full.outer, next.marks, kept, culled.outer, culled.marks, next.top);
  }

  lemma OwnMarksMatch(hits: seq<nat>, marks: iset<Mark>)
    ensures HitsOf(hits, marks, marks)
  {
  }

  /** Both make the step. */
  lemma KeptStepMatches(hits: seq<nat>, fm: FilterMeaning, full: Canvas, culled: Canvas, kept: nat, alive: bool,
                        call: Spec.Call, id: nat)
    requires CanvasMatch(hits, full, culled, kept, alive) && culled.paint == full.paint && IsPlain(call)
    requires alive || call.SetAttributeCall?
    ensures CanvasMatch(hits, CanvasStep(fm, full, call, id), CanvasStep(fm, culled, call, id), kept, alive)
    ensures CanvasStep(fm, culled, call, id).paint == CanvasStep(fm, full, call, id).paint
  {
    var next, more := CanvasStep(fm, full, call, id), NewMarks(fm, full, call, id);
    var culledNext := CanvasStep(fm, culled, call, id);
    PlainStep(fm, full, call, id);
    PlainStep(fm, culled, call, id);
    SameStep(fm, full, culled, call, id);
    OwnMarksMatch(hits, more);
    assert call.SetAttributeCall? ==> more == iset{} && NewMarks(fm, culled, call, id) == iset{};
    hide CanvasStep, NewMarks, HitsOf, MarksMatch;
    AddMarks(hits, full.below, full.top, full.outer, full.marks, kept, culled.outer, culled.marks, more, more);
    NewTopMatches(hits, full.below, full.top, full.outer, next.marks, kept, culled.outer, culledNext.marks, next.top);
  }

  // ----------------------------------------------------------------- scopes

  predicate Opens(call: Spec.Call) {
    call.SaveCall? || call.SaveLayerCall?
  }

  lemma OpenStep(fm: FilterMeaning, c: Canvas, call: Spec.Call, id: nat)
    requires Opens(call)
    ensures var d := CanvasStep(fm, c, call, id);
      && d.below == c.below + [c.top] && d.paint == c.paint && d.top.isLayer == call.SaveLayerCall?
      && (if call.SaveLayerCall? then d.outer == c.outer + [c.marks + NewMarks(fm, c, call, id)] && d.marks == iset{}
          else d.outer == c.outer && d.marks == c.marks)
  {
    hide LayerMarks, SpecOf, PaintResult;
  }

  lemma SameOpen(fm: FilterMeaning, full: Canvas, culled: Canvas, call: Spec.Call, id: nat)
    requires Opens(call) && culled.paint == full.paint && culled.top == full.top
    ensures CanvasStep(fm, culled, call, id).top == CanvasStep(fm, full, call, id).top
    ensures NewMarks(fm, culled, call, id) == NewMarks(fm, full, call, id)
  {
    hide LayerTouches, SpecOf, PaintResult, LayerPart;
  }

  /** One entry more on the stack of marks, kept or not. */
  lemma PushMatches(hits: seq<nat>, below: seq<CanvasEntry>, top: CanvasEntry, outer: seq<iset<Mark>>,
                    marks: iset<Mark>, kept: nat, culledOuter: seq<iset<Mark>>, culled: iset<Mark>, newTop: CanvasEntry,
                    keep: bool)
    requires kept <= |below| && MarksMatch(hits, below, top, outer, marks, kept, culledOuter, culled)
    requires keep ==> kept == |below|
    ensures var next, newKept := below + [top], if keep then kept + 1 else kept;
      if newTop.isLayer then
        MarksMatch(hits, next, newTop, outer + [marks], iset{}, newKept,
                   if keep then culledOuter + [culled] else culledOuter, if keep then iset{} else culled)
      else MarksMatch(hits, next, newTop, outer, marks, newKept, culledOuter, culled)
  {
    var next := below + [top];
    assert next[..|next| - 1] == below && next[|next| - 1] == top;
    assert (outer + [marks])[..|outer|] == outer && (culledOuter + [culled])[..|culledOuter|] == culledOuter;
    assert HitsOf(hits, iset{}, iset{});
    if keep {
      MatchedHits(hits, below, top, outer, marks, kept, culledOuter, culled);
    }
    hide HitsOf;
  }

  lemma MatchedHits(hits: seq<nat>, below: seq<CanvasEntry>, top: CanvasEntry, outer: seq<iset<Mark>>,
                    marks: iset<Mark>, kept: nat, culledOuter: seq<iset<Mark>>, culled: iset<Mark>)
    requires kept == |below| && MarksMatch(hits, below, top, outer, marks, kept, culledOuter, culled)
    ensures HitsOf(hits, marks, culled)
  {
  }

  lemma KeptOpenMatches(hits: seq<nat>, fm: FilterMeaning, full: Canvas, culled: Canvas, kept: nat, call: Spec.Call,
                        id: nat)
    requires CanvasMatch(hits, full, culled, kept, true) && culled.paint == full.paint && Opens(call)
    ensures CanvasMatch(hits, CanvasStep(fm, full, call, id), CanvasStep(fm, culled, call, id), kept + 1, true)
    ensures CanvasStep(fm, culled, call, id).paint == CanvasStep(fm, full, call, id).paint
  {
    var next, more := CanvasStep(fm, full, call, id), NewMarks(fm, full, call, id);
    OpenStep(fm, full, call, id);
    OpenStep(fm, culled, call, id);
    SameOpen(fm, full, culled, call, id);
    OwnMarksMatch(hits, more);
    hide CanvasStep, NewMarks, HitsOf, MarksMatch;
    AddMarks(hits, full.below, full.top, full.outer, full.marks, kept, culled.outer, culled.marks, more, more);
    if call.SaveLayerCall? {
      PushMatches(hits, full.below, full.top, full.outer, full.marks + more, kept, culled.outer, culled.marks + more,
                  next.top, true);
    } else {
      PushMatches(hits, full.below, full.top, full.outer, full.marks, kept, culled.outer, culled.marks, next.top, true);
    }
  }

  lemma SkippedOpenMatches(hits: seq<nat>, fm: FilterMeaning, full: Canvas, culled: Canvas, kept: nat, call: Spec.Call,
                           id: nat)
    requires CanvasMatch(hits, full, culled, kept, false) && Opens(call) && id !in hits
    ensures CanvasMatch(hits, CanvasStep(fm, full, call, id), culled, kept, false)
  {
    var next, more := CanvasStep(fm, full, call, id), NewMarks(fm, full, call, id);
    OpenStep(fm, full, call, id);
    NewMarksAreOwn(fm, full, call, id);
    assert HitsOf(hits, more, iset{});
    hide CanvasStep, NewMarks, HitsOf, MarksMatch;
    AddMarks(hits, full.below, full.top, full.outer, full.marks, kept, culled.outer, culled.marks, more, iset{});
    assert culled.marks + iset{} == culled.marks;
    if call.SaveLayerCall? {
      PushMatches(hits, full.below, full.top, full.outer, full.marks + more, kept, culled.outer, culled.marks, next.top,
                  false);
    } else {
      PushMatches(hits, full.below, full.top, full.outer, full.marks, kept, culled.outer, culled.marks, next.top,
                  false);
    }
  }

  // --------------------------------------------------------------- restores

  /** What surfaces keeps its identity, and depends on the closing layer only by its spec. */
  lemma SurfacedMatches(hits: seq<nat>, fm: FilterMeaning, closing: CanvasEntry, same: CanvasEntry, parent: CanvasEntry,
                        marks: iset<Mark>, culled: iset<Mark>)
    requires HitsOf(hits, marks, culled) && same.spec == closing.spec
    ensures HitsOf(hits, Surfaced(fm, closing, parent, marks), Surfaced(fm, same, parent, culled))
  {
    hide Composed;
  }

  lemma NothingSurfaces(fm: FilterMeaning, closing: CanvasEntry, parent: CanvasEntry)
    ensures Surfaced(fm, closing, parent, iset{}) == iset{}
  {
  }

  lemma RestoredFields(fm: FilterMeaning, c: Canvas)
    requires c.below != [] && (c.top.isLayer ==> c.outer != [])
    ensures var d, n := CanvasRestore(fm, c), |c.below| - 1;
      && d.below == c.below[..n] && d.top == c.below[n] && d.paint == c.paint
      && (if c.top.isLayer then
            && d.outer == c.outer[..|c.outer| - 1]
            && d.marks == c.outer[|c.outer| - 1] + Surfaced(fm, c.top, c.below[n], c.marks)
          else d.outer == c.outer && d.marks == c.marks)
  {
    hide Surfaced;
  }

  lemma KeptRestoreMatches(hits: seq<nat>, fm: FilterMeaning, full: Canvas, culled: Canvas, kept: nat)
    requires CanvasMatch(hits, full, culled, kept, false) && kept == |full.below| > 0
    ensures CanvasMatch(hits, CanvasRestore(fm, full), CanvasRestore(fm, culled), kept - 1, true)
    ensures CanvasRestore(fm, full).paint == full.paint && CanvasRestore(fm, culled).paint == culled.paint
  {
    var n := kept - 1;
    hide HitsOf, CanvasRestore, Surfaced;
    assert culled.below == full.below;
    RestoredFields(fm, full);
    RestoredFields(fm, culled);
    if full.top.isLayer {
      SurfacedMatches(hits, fm, full.top, culled.top, full.below[n], full.marks, culled.marks);
      var outer, culledOuter := full.outer[|full.outer| - 1], culled.outer[|culled.outer| - 1];
      AddMarks(hits, full.below[..n], full.below[n], full.outer[..|full.outer| - 1], outer, n,
               culled.outer[..|culled.outer| - 1], culledOuter,
               Surfaced(fm, full.top, full.below[n], full.marks),
               Surfaced(fm, culled.top, full.below[n], culled.marks));
    }
  }

  lemma SkippedRestoreMatches(hits: seq<nat>, fm: FilterMeaning, full: Canvas, culled: Canvas, kept: nat)
    requires CanvasMatch(hits, full, culled, kept, false) && kept < |full.below|
    ensures CanvasMatch(hits, CanvasRestore(fm, full), culled, kept, false)
    ensures CanvasRestore(fm, full).paint == full.paint
  {
    var n := |full.below| - 1;
    hide HitsOf, CanvasRestore, Surfaced;
    RestoredFields(fm, full);
    assert full.below[..n][..kept] == full.below[..kept];
    if full.top.isLayer {
      SurfacedMatches(hits, fm, full.top, full.top, full.below[n], full.marks, iset{});
      NothingSurfaces(fm, full.top, full.below[n]);
      AddMarks(hits, full.below[..n], full.below[n], full.outer[..|full.outer| - 1], full.outer[|full.outer| - 1], kept,
               culled.outer, culled.marks, Surfaced(fm, full.top, full.below[n], full.marks), iset{});
      assert culled.marks + iset{} == culled.marks;
    }
  }

  // --------------------------------------------------------------- the scan

  /** The canvas of what was chosen so far, against that of all records examined. */
  ghost predicate CanvasFollows(ops: seq<Record>, hits: seq<nat>, fm: FilterMeaning, cull: Rect, s: Scan) {
    && s.index <= |ops| && InRange(s.indices, |ops|)
    && var full, culled := CanvasAt(fm, cull, ops, s.index), SelectedCanvas(fm, cull, ops, s.indices);
    && CanvasMatch(hits, full, culled, s.kept, s.Alive()) && culled.paint == full.paint
    && |full.below| == |OpenSaves(ops, s.index)|
  }

  ghost predicate AllFollow(ops: seq<Record>, hits: seq<nat>, s: Scan) {
    forall fm, cull :: CanvasFollows(ops, hits, fm, cull, s)
  }

  lemma StartFollows(ops: seq<Record>, hits: seq<nat>, nextRender: nat)
    ensures AllFollow(ops, hits, Scan(0, nextRender, NO_RESTORE, [], [], 0))
  {
  }

  lemma DeadMatches(hits: seq<nat>, full: Canvas, culled: Canvas, kept: nat, alive: bool)
    requires CanvasMatch(hits, full, culled, kept, alive)
    ensures CanvasMatch(hits, full, culled, kept, false)
  {
    hide MarksMatch;
  }

  lemma LaterHitFollows(ops: seq<Record>, hits: seq<nat>, s: Scan, nextRender: nat)
    requires AllFollow(ops, hits, s) && s.nextRender <= nextRender
    ensures AllFollow(ops, hits, s.(nextRender := nextRender))
  {
    hide MarksMatch, OpenSaves, StacksMatch;
    forall fm, cull
      ensures CanvasFollows(ops, hits, fm, cull, s.(nextRender := nextRender))
    {
      assert CanvasFollows(ops, hits, fm, cull, s);
      DeadMatches(hits, CanvasAt(fm, cull, ops, s.index), SelectedCanvas(fm, cull, ops, s.indices), s.kept, s.Alive());
      hide CanvasMatch;
    }
  }

  /** What one record does to both canvases. */
  lemma Dispatched(ops: seq<Record>, fm: FilterMeaning, cull: Rect, s: Scan, keep: bool)
    requires s.index < |ops| && InRange(s.indices, |ops|)
    ensures InRange(Keep(s, keep).indices, |ops|)
    ensures CanvasAt(fm, cull, ops, s.index + 1)
         == CanvasStep(fm, CanvasAt(fm, cull, ops, s.index), AsCall(ops[s.index]), s.index)
    ensures SelectedCanvas(fm, cull, ops, Keep(s, keep).indices)
         == if keep then CanvasStep(fm, SelectedCanvas(fm, cull, ops, s.indices), AsCall(ops[s.index]), s.index)
            else SelectedCanvas(fm, cull, ops, s.indices)
    ensures OpenSaves(ops, s.index + 1) == StepOpen(OpenSaves(ops, s.index), s.index, ops[s.index])
  {
    CanvasNext(fm, cull, ops, s.index);
    SelectedNext(fm, cull, ops, s.indices, s.index);
    hide CanvasStep, AsCall, CanvasAt, SelectedCanvas;
  }

  lemma PlainRecords(op: Record)
    requires !op.IsSave() && !op.RestoreRecord?
    ensures IsPlain(AsCall(op))
    ensures AsCall(op).SetAttributeCall? <==> GetOpCategory(op) == Attribute_
    ensures Draws(AsCall(op)) <==> op.IsRendering()
  {
  }

  /** Before a record without scope: what is not wanted has no hit, and leaves a live entry alone. */
  lemma Unwanted(ops: seq<Record>, hits: seq<nat>, s: Scan)
    requires Ready(ops, hits, s) && !ops[s.index].IsSave() && !ops[s.index].RestoreRecord?
    ensures Wanted(ops[s.index], s) ==> s.Alive() || GetOpCategory(ops[s.index]) == Attribute_
    ensures !Wanted(ops[s.index], s) ==> s.index !in hits && (s.Alive() ==> ops[s.index].IsRendering())
  {
    OpenSavesCloseLater(ops, s.index);
    HitIsAlive(ops, OpenSaves(ops, s.index), s);
    hide WellNested, MeaningInv, SelectionInv, ClosesLater, OpenSaves, Replay, ReplayIndices, StackInv;
  }

  lemma KeepFollows(ops: seq<Record>, hits: seq<nat>, fm: FilterMeaning, cull: Rect, s: Scan)
    requires Ready(ops, hits, s) && !ops[s.index].IsSave() && !ops[s.index].RestoreRecord?
    requires CanvasFollows(ops, hits, fm, cull, s)
    ensures CanvasFollows(ops, hits, fm, cull, Keep(s, Wanted(ops[s.index], s)))
  {
    var full, culled, call :=
      CanvasAt(fm, cull, ops, s.index), SelectedCanvas(fm, cull, ops, s.indices), AsCall(ops[s.index]);
    Unwanted(ops, hits, s);
    PlainRecords(ops[s.index]);
    Dispatched(ops, fm, cull, s, Wanted(ops[s.index], s));
    PlainStep(fm, full, call, s.index);
    hide Ready, CanvasStep, CanvasMatch, CanvasAt, SelectedCanvas, AsCall, IsPlain, Draws, Wanted, OpenSaves, NewMarks;
    if Wanted(ops[s.index], s) {
      KeptStepMatches(hits, fm, full, culled, s.kept, s.Alive(), call, s.index);
    } else {
      SkippedStepMatches(hits, fm, full, culled, s.kept, s.Alive(), call, s.index);
    }
  }

  lemma SaveOpens(op: Record)
    requires op.IsSave()
    ensures Opens(AsCall(op))
  {
  }

  lemma HitsAreAlive(ops: seq<Record>, hits: seq<nat>, s: Scan)
    requires Ready(ops, hits, s) && !ops[s.index].RestoreRecord?
    ensures s.index in hits ==> s.Alive()
  {
    OpenSavesCloseLater(ops, s.index);
    HitIsAlive(ops, OpenSaves(ops, s.index), s);
    hide WellNested, MeaningInv, SelectionInv, ClosesLater, OpenSaves, Replay, ReplayIndices, StackInv;
  }

  lemma EnterFollows(ops: seq<Record>, hits: seq<nat>, fm: FilterMeaning, cull: Rect, s: Scan)
    requires Ready(ops, hits, s) && ops[s.index].IsSave() && CanvasFollows(ops, hits, fm, cull, s)
    ensures CanvasFollows(ops, hits, fm, cull, EnterSave(s, ops[s.index].RestoreIndex()))
  {
    HitsAreAlive(ops, hits, s);
    if !s.Alive() {
      EnteredIsDead(ops, hits, s);
    }
    assert s.index < |ops|;
    hide Ready, CanvasFollows, EnterSave, Scan.Alive;
    EnterWith(ops, hits, fm, cull, s, EnterSave(s, ops[s.index].RestoreIndex()));
  }

  lemma EnterWith(ops: seq<Record>, hits: seq<nat>, fm: FilterMeaning, cull: Rect, s: Scan, t: Scan)
    requires s.index < |ops| && ops[s.index].IsSave() && CanvasFollows(ops, hits, fm, cull, s)
    requires t == EnterSave(s, ops[s.index].RestoreIndex()) && (!s.Alive() ==> s.index !in hits && !t.Alive())
    ensures CanvasFollows(ops, hits, fm, cull, t)
  {
    var full, culled, call :=
      CanvasAt(fm, cull, ops, s.index), SelectedCanvas(fm, cull, ops, s.indices), AsCall(ops[s.index]);
    SaveOpens(ops[s.index]);
    Dispatched(ops, fm, cull, s, s.Alive());
    OpenStep(fm, full, call, s.index);
    hide CanvasStep, CanvasMatch, CanvasAt, SelectedCanvas, AsCall, Opens, OpenSaves, NewMarks;
    if s.Alive() {
      KeptOpenMatches(hits, fm, full, culled, s.kept, call, s.index);
      DeadMatches(hits, CanvasStep(fm, full, call, s.index), CanvasStep(fm, culled, call, s.index), t.kept, true);
    } else {
      SkippedOpenMatches(hits, fm, full, culled, s.kept, call, s.index);
    }
  }

  /** A scope that opens where no hit follows closes before the next one. */
  lemma EnteredIsDead(ops: seq<Record>, hits: seq<nat>, s: Scan)
    requires Ready(ops, hits, s) && ops[s.index].IsSave() && !s.Alive()
    ensures !EnterSave(s, ops[s.index].RestoreIndex()).Alive()
  {
    hide MeaningInv, SelectionInv, Replay, ReplayIndices, WellNested, EnterSave;
    EnterSaveKeepsInv(ops, hits, s);
    var t := EnterSave(s, ops[s.index].RestoreIndex());
    EnteredScan(s, ops[s.index].RestoreIndex());
    OpenSavesCloseLater(ops, s.index + 1);
    AliveKeepsAll(ops, OpenSaves(ops, s.index + 1), t);
    assert s.kept <= |OpenSaves(ops, s.index)| < |OpenSaves(ops, s.index + 1)|;
  }

  lemma EnteredScan(s: Scan, restoreIndex: nat)
    ensures var t := EnterSave(s, restoreIndex);
      t.index == s.index + 1 && (!s.Alive() ==> t.kept == s.kept)
  {
  }

  /** Where the top scope was left out, the next hit is behind the one around it too. */
  lemma LeftIsDead(ops: seq<Record>, hits: seq<nat>, s: Scan)
    requires Ready(ops, hits, s) && ops[s.index].RestoreRecord?
    ensures var open := OpenSaves(ops, s.index);
      && open != [] && s.infos != [] && |s.infos| == |open| && s.kept <= |open|
      && (s.infos[|s.infos| - 1].saveWasNeeded <==> s.kept == |open|)
      && (s.kept < |open| ==> !LeaveSave(s).Alive())
  {
    hide MeaningInv, SelectionInv, FramesName, StrictlyAscending, Replay, ReplayIndices;
    var open := RestoreClosesTop(ops, s.index);
    NeededIfOuterAlive(ops, open, s);
  }

  lemma RestoreStep(fm: FilterMeaning, c: Canvas, id: nat)
    ensures CanvasStep(fm, c, AsCall(RestoreRecord), id) == CanvasRestore(fm, c)
  {
    hide CanvasRestore;
  }

  /** A restore, whether its save was kept or not. */
  lemma RestoredMatches(hits: seq<nat>, fm: FilterMeaning, full: Canvas, culled: Canvas, kept: nat)
    requires CanvasMatch(hits, full, culled, kept, false) && full.below != []
    ensures kept <= |full.below|
    ensures var after := CanvasRestore(fm, full);
      if kept == |full.below| then CanvasMatch(hits, after, CanvasRestore(fm, culled), kept - 1, true)
      else CanvasMatch(hits, after, culled, kept, false)
    ensures CanvasRestore(fm, full).paint == full.paint && CanvasRestore(fm, culled).paint == culled.paint
    ensures |CanvasRestore(fm, full).below| == |full.below| - 1
  {
    RestoreShrinksCanvas(fm, full);
    RestoreKeepsPaint(fm, full);
    RestoreKeepsPaint(fm, culled);
    hide MarksMatch, CanvasRestore;
    if kept == |full.below| {
      KeptRestoreMatches(hits, fm, full, culled, kept);
    } else {
      SkippedRestoreMatches(hits, fm, full, culled, kept);
    }
  }

  lemma RestoreKeepsPaint(fm: FilterMeaning, c: Canvas)
    ensures CanvasRestore(fm, c).paint == c.paint
  {
    hide Surfaced;
  }

  lemma LeftScan(s: Scan)
    requires s.infos != []
    ensures var needed, t := s.infos[|s.infos| - 1].saveWasNeeded, LeaveSave(s);
      && t.index == s.index + 1 && t.indices == Keep(s, needed).indices
      && t.kept == if needed && s.kept > 0 then s.kept - 1 else s.kept
  {
  }

  /** The top scope was left out exactly where fewer were kept, and then the scan is dead. */
  predicate LeavesWell(s: Scan, scopes: nat) {
    && s.infos != [] && s.kept <= scopes
    && (s.infos[|s.infos| - 1].saveWasNeeded <==> s.kept == scopes)
    && (s.kept < scopes ==> !LeaveSave(s).Alive())
  }

  lemma LeaveFollows(ops: seq<Record>, hits: seq<nat>, fm: FilterMeaning, cull: Rect, s: Scan)
    requires Ready(ops, hits, s) && ops[s.index].RestoreRecord? && CanvasFollows(ops, hits, fm, cull, s)
    ensures s.infos != [] && CanvasFollows(ops, hits, fm, cull, LeaveSave(s))
  {
    LeftIsDead(ops, hits, s);
    assert LeavesWell(s, |OpenSaves(ops, s.index)|) && OpenSaves(ops, s.index) != [] && s.index < |ops|;
    hide Ready, CanvasFollows, LeavesWell, OpenSaves;
    LeaveWith(ops, hits, fm, cull, s);
  }

  lemma LeaveWith(ops: seq<Record>, hits: seq<nat>, fm: FilterMeaning, cull: Rect, s: Scan)
    requires s.index < |ops| && ops[s.index].RestoreRecord? && CanvasFollows(ops, hits, fm, cull, s)
    requires OpenSaves(ops, s.index) != [] && LeavesWell(s, |OpenSaves(ops, s.index)|)
    ensures s.infos != [] && CanvasFollows(ops, hits, fm, cull, LeaveSave(s))
  {
    var full, culled := CanvasAt(fm, cull, ops, s.index), SelectedCanvas(fm, cull, ops, s.indices);
    Dispatched(ops, fm, cull, s, s.infos[|s.infos| - 1].saveWasNeeded);
    LeftScan(s);
    RestoreStep(fm, full, s.index);
    RestoreStep(fm, culled, s.index);
    assert ops[s.index] == RestoreRecord;
    hide CanvasStep, CanvasMatch, CanvasAt, SelectedCanvas, AsCall, OpenSaves, CanvasRestore, LeaveSave, Scan.Alive,
      Keep;
    DeadMatches(hits, full, culled, s.kept, s.Alive());
    RestoredMatches(hits, fm, full, culled, s.kept);
    if s.kept == |full.below| {
      DeadMatches(hits, CanvasRestore(fm, full), CanvasRestore(fm, culled), s.kept - 1, true);
    }
  }

  lemma ExamineFollows(ops: seq<Record>, hits: seq<nat>, s: Scan)
    requires Ready(ops, hits, s) && AllFollow(ops, hits, s)
    requires ops[s.index].RestoreRecord? ==> s.infos != []
    ensures AllFollow(ops, hits, Examine(ops, s))
  {
    assert s.index < |ops|;
    hide Ready, CanvasFollows, Keep, EnterSave, LeaveSave, Wanted;
    forall fm, cull
      ensures CanvasFollows(ops, hits, fm, cull, Examine(ops, s))
    {
      if ops[s.index].IsSave() {
        EnterFollows(ops, hits, fm, cull, s);
      } else if ops[s.index].RestoreRecord? {
        LeaveFollows(ops, hits, fm, cull, s);
      } else {
        KeepFollows(ops, hits, fm, cull, s);
      }
    }
  }

  // ---------------------------------------------------------- the early exit

  ghost function Restored(fm: FilterMeaning, c: Canvas, times: nat): Canvas
    decreases times
  {
    if times == 0 then c else Restored(fm, CanvasRestore(fm, c), times - 1)
  }

  lemma {:induction false} RestoredOnceMore(fm: FilterMeaning, c: Canvas, times: nat)
    ensures Restored(fm, c, times + 1) == CanvasRestore(fm, Restored(fm, c, times))
    decreases times
  {
    hide CanvasRestore;
    if times > 0 {
      RestoredOnceMore(fm, CanvasRestore(fm, c), times - 1);
    }
  }

  /** The appended restores close the kept scopes one by one. */
  lemma {:induction false} UnwoundCanvas(ops: seq<Record>, fm: FilterMeaning, cull: Rect, open: seq<nat>,
                                         chosen: seq<nat>, kept: nat, left: nat)
    requires InRange(open, |ops|) && left <= kept <= |open| && InRange(chosen, |ops|)
    requires forall k :: 0 <= k < |open| ==> ops[open[k]].RestoreIndex() < |ops|
    requires forall k :: 0 <= k < |open| ==> ops[ops[open[k]].RestoreIndex()].RestoreRecord?
    ensures InRange(chosen + RestoresOfKept(ops, open, kept, left), |ops|)
    ensures SelectedCanvas(fm, cull, ops, chosen + RestoresOfKept(ops, open, kept, left))
         == Restored(fm, SelectedCanvas(fm, cull, ops, chosen), kept - left)
    decreases kept - left
  {
    hide CanvasStep, SelectedCanvas, AsCall, Restored, CanvasRestore;
    if left == kept {
      assert chosen + [] == chosen;
      NotRestored(fm, SelectedCanvas(fm, cull, ops, chosen));
    } else {
      UnwoundCanvas(ops, fm, cull, open, chosen, kept, left + 1);
      RestoresOfKeptStep(ops, open, kept, left);
      var before, r := chosen + RestoresOfKept(ops, open, kept, left + 1), ops[open[left]].RestoreIndex();
      hide RestoresOfKept;
      assert chosen + RestoresOfKept(ops, open, kept, left) == before + [r];
      SelectedNext(fm, cull, ops, before, r);
      assert ops[r] == RestoreRecord;
      RestoreStep(fm, SelectedCanvas(fm, cull, ops, before), r);
      RestoredOnceMore(fm, SelectedCanvas(fm, cull, ops, chosen), kept - left - 1);
    }
  }

  lemma NotRestored(fm: FilterMeaning, c: Canvas)
    ensures Restored(fm, c, 0) == c
  {
  }

  /** The rest of the list has no hits: the whole list goes on, the selection only restores. */
  lemma {:induction false} RestMatches(ops: seq<Record>, hits: seq<nat>, fm: FilterMeaning, cull: Rect, n: nat,
                                       culled: Canvas, kept: nat)
    requires WellNested(ops) && n <= |ops| && forall h :: h in hits ==> h < n
    requires |CanvasAt(fm, cull, ops, n).below| == |OpenSaves(ops, n)|
    requires CanvasMatch(hits, CanvasAt(fm, cull, ops, n), culled, kept, false)
    ensures HitsOf(hits, CanvasOf(fm, cull, ops).marks, Restored(fm, culled, kept).marks)
    decreases |ops| - n
  {
    var full := CanvasAt(fm, cull, ops, n);
    hide CanvasOf, OpenSaves, CanvasStep, HitsOf, CanvasRestore, AsCall, RestoreMatches;
    if n == |ops| {
      assert ops[..n] == ops;
      NotRestored(fm, culled);
    } else {
      CanvasNext(fm, cull, ops, n);
      ReplayStep(ops, n + 1);
      hide CanvasAt, CanvasMatch, StepOpen;
      if ops[n].RestoreRecord? {
        RestIsClosed(ops, hits, fm, full, culled, n, kept);
        if kept == |full.below| {
          RestMatches(ops, hits, fm, cull, n + 1, CanvasRestore(fm, culled), kept - 1);
        } else {
          RestMatches(ops, hits, fm, cull, n + 1, culled, kept);
        }
      } else {
        RestIsSkipped(ops, hits, fm, full, culled, n, kept);
        RestMatches(ops, hits, fm, cull, n + 1, culled, kept);
      }
    }
  }

  lemma RestIsSkipped(ops: seq<Record>, hits: seq<nat>, fm: FilterMeaning, full: Canvas, culled: Canvas, n: nat,
                      kept: nat)
    requires n < |ops| && !ops[n].RestoreRecord? && n !in hits && |full.below| == |OpenSaves(ops, n)|
    requires CanvasMatch(hits, full, culled, kept, false)
    ensures CanvasMatch(hits, CanvasStep(fm, full, AsCall(ops[n]), n), culled, kept, false)
    ensures |CanvasStep(fm, full, AsCall(ops[n]), n).below| == |StepOpen(OpenSaves(ops, n), n, ops[n])|
  {
    hide CanvasStep, CanvasMatch, NewMarks, OpenSaves;
    if ops[n].IsSave() {
      SaveOpens(ops[n]);
      SkippedOpenMatches(hits, fm, full, culled, kept, AsCall(ops[n]), n);
      OpenStep(fm, full, AsCall(ops[n]), n);
    } else {
      PlainRecords(ops[n]);
      SkippedStepMatches(hits, fm, full, culled, kept, false, AsCall(ops[n]), n);
      PlainStep(fm, full, AsCall(ops[n]), n);
    }
  }

  lemma RestIsClosed(ops: seq<Record>, hits: seq<nat>, fm: FilterMeaning, full: Canvas, culled: Canvas, n: nat,
                     kept: nat)
    requires WellNested(ops) && n < |ops| && ops[n].RestoreRecord? && |full.below| == |OpenSaves(ops, n)|
    requires CanvasMatch(hits, full, culled, kept, false)
    ensures kept <= |full.below| && full.below != []
    ensures var next := CanvasStep(fm, full, AsCall(ops[n]), n);
      && |next.below| == |StepOpen(OpenSaves(ops, n), n, ops[n])|
      && (if kept == |full.below| then CanvasMatch(hits, next, CanvasRestore(fm, culled), kept - 1, false)
          else CanvasMatch(hits, next, culled, kept, false))
  {
    assert RestoreMatches(ops, n);
    assert ops[n] == RestoreRecord;
    RestoreStep(fm, full, n);
    RestoreShrinksCanvas(fm, full);
    hide CanvasStep, MarksMatch, OpenSaves, CanvasRestore, AsCall;
    if kept == |full.below| {
      KeptRestoreMatches(hits, fm, full, culled, kept);
      DeadMatches(hits, CanvasRestore(fm, full), CanvasRestore(fm, culled), kept - 1, true);
    } else {
      SkippedRestoreMatches(hits, fm, full, culled, kept);
    }
  }

  // ------------------------------------------------------------- the result

  /** On every surface, and whatever its filters do: the selection has all marks of the
      hits, and only marks that the whole list has. */
  ghost predicate PaintsHits(ops: seq<Record>, hits: seq<nat>, indices: seq<nat>) {
    && InRange(indices, |ops|)
    && (forall fm, cull :: HitsOf(hits, CanvasOf(fm, cull, ops).marks, SelectedCanvas(fm, cull, ops, indices).marks))
  }

  lemma UnwoundPaintsHits(ops: seq<Record>, hits: seq<nat>, s: Scan)
    requires WellNested(ops) && Inv(ops, hits, s) && AllFollow(ops, hits, s)
    requires forall h :: h in hits ==> h < s.index
    ensures PaintsHits(ops, hits, Unwound(ops, s))
  {
    var open := OpenSaves(ops, s.index);
    forall k | 0 <= k < |open|
      ensures ops[open[k]].RestoreIndex() < |ops| && ops[ops[open[k]].RestoreIndex()].RestoreRecord?
    {
      OpenSavesCloseAtRestores(ops, s.index, k);
    }
    KeptAreOpen(ops, hits, s);
    hide Inv, WellNested, OpenSaves, CanvasFollows, CanvasOf, SelectedCanvas, Unwound, HitsOf;
    forall fm, cull
      ensures InRange(Unwound(ops, s), |ops|)
      ensures HitsOf(hits, CanvasOf(fm, cull, ops).marks, SelectedCanvas(fm, cull, ops, Unwound(ops, s)).marks)
    {
      assert CanvasFollows(ops, hits, fm, cull, s);
      UnwoundFollows(ops, hits, fm, cull, s);
    }
  }

  lemma KeptAreOpen(ops: seq<Record>, hits: seq<nat>, s: Scan)
    requires Inv(ops, hits, s)
    ensures s.index <= |ops| && InRange(OpenSaves(ops, s.index), |ops|) && s.kept <= |OpenSaves(ops, s.index)|
  {
    hide MeaningInv, SelectionInv, Replay, ReplayIndices;
  }

  lemma UnwoundFollows(ops: seq<Record>, hits: seq<nat>, fm: FilterMeaning, cull: Rect, s: Scan)
    requires WellNested(ops) && CanvasFollows(ops, hits, fm, cull, s) && s.kept <= |OpenSaves(ops, s.index)|
    requires var open := OpenSaves(ops, s.index);
      && InRange(open, |ops|) && (forall k :: 0 <= k < |open| ==> ops[open[k]].RestoreIndex() < |ops|)
      && (forall k :: 0 <= k < |open| ==> ops[ops[open[k]].RestoreIndex()].RestoreRecord?)
    requires forall h :: h in hits ==> h < s.index
    ensures InRange(Unwound(ops, s), |ops|)
    ensures HitsOf(hits, CanvasOf(fm, cull, ops).marks, SelectedCanvas(fm, cull, ops, Unwound(ops, s)).marks)
  {
    var culled := SelectedCanvas(fm, cull, ops, s.indices);
    UnwoundCanvas(ops, fm, cull, OpenSaves(ops, s.index), s.indices, s.kept, 0);
    hide WellNested, OpenSaves, CanvasMatch, CanvasOf, CanvasAt, SelectedCanvas, RestoresOfKept, HitsOf, Restored;
    DeadMatches(hits, CanvasAt(fm, cull, ops, s.index), culled, s.kept, s.Alive());
    RestMatches(ops, hits, fm, cull, s.index, culled, s.kept);
  }

  lemma NoHitsPaintNothing(ops: seq<Record>, hits: seq<nat>)
    requires WellNested(ops) && hits == []
    ensures PaintsHits(ops, hits, [])
  {
    hide WellNested, MarksMatch;
    forall fm, cull
      ensures HitsOf(hits, CanvasOf(fm, cull, ops).marks, SelectedCanvas(fm, cull, ops, []).marks)
    {
      assert ops[..0] == [];
      assert CanvasMatch(hits, CanvasAt(fm, cull, ops, 0), StartCanvas(cull), 0, false) by { StartMatches(hits, cull); }
      RestMatches(ops, hits, fm, cull, 0, StartCanvas(cull), 0);
      NotRestored(fm, StartCanvas(cull));
    }
  }

  lemma StartMatches(hits: seq<nat>, cull: Rect)
    ensures CanvasMatch(hits, StartCanvas(cull), StartCanvas(cull), 0, false)
  {
  }
}
