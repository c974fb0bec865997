/**
 Culled dispatch: from the sorted hits of an r-tree query the display list picks the
 records to replay. The state of its loop, and what every step of the loop keeps.
 */
module DisplayListCulling {
  import opened DisplayListTypes
  import opened DisplayListReplay

  /** `std::numeric_limits<DlIndex>::max()` of the 32-bit index type. */
  const NO_RESTORE: nat := 0xFFFF_FFFF

  datatype SaveInfo = SaveInfo(previousRestoreIndex: nat, saveWasNeeded: bool)

  ghost predicate Hits(hits: seq<nat>, n: nat) {
    && InRange(hits, n)
    && (forall j, k :: 0 <= j < k < |hits| ==> hits[j] <= hits[k])
  }

  /** A save record is kept exactly when the restore it names is. */
  ghost predicate Balanced(ops: seq<Record>, indices: seq<nat>) {
    forall s {:trigger ops[s]} ::
      0 <= s < |ops| && ops[s].IsSave() ==> (s in indices <==> ops[s].RestoreIndex() in indices)
  }

  /** The restore index of the innermost open save. */
  function RestoreOf(ops: seq<Record>, open: seq<nat>): nat
    requires InRange(open, |ops|)
  {
    if open == [] then NO_RESTORE else ops[open[|open| - 1]].RestoreIndex()
  }

  /** Open saves are closed later, inner ones first. */
  ghost predicate ClosesLater(ops: seq<Record>, open: seq<nat>, n: nat) {
    && InRange(open, |ops|)
    && (forall k :: 0 <= k < |open| ==> n <= ops[open[k]].RestoreIndex() < |ops|)
    && (forall j, k :: 0 <= j < k < |open| ==> ops[open[k]].RestoreIndex() < ops[open[j]].RestoreIndex())
  }

  lemma ClosesLaterBefore(ops: seq<Record>, open: seq<nat>, n: nat)
    requires n < |ops| && InRange(open, |ops|)
    requires ops[n].RestoreRecord? ==> open != [] && ops[open[|open| - 1]].RestoreIndex() == n
    requires ClosesLater(ops, StepOpen(open, n, ops[n]), n + 1)
    ensures ClosesLater(ops, open, if ops[n].RestoreRecord? then n else n + 1)
  {
    var next := StepOpen(open, n, ops[n]);
    assert forall k :: 0 <= k < |open| && k < |next| ==> open[k] == next[k];
  }

  lemma {:induction false} OpenSavesCloseLater(ops: seq<Record>, n: nat)
    requires WellNested(ops) && n <= |ops|
    ensures ClosesLater(ops, OpenSaves(ops, n), n)
    ensures n < |ops| && !ops[n].RestoreRecord? ==> ClosesLater(ops, OpenSaves(ops, n), n + 1)
    decreases |ops| - n
  {
    if n < |ops| {
      hide StepOpen;
      OpenSavesCloseLater(ops, n + 1);
      assert RestoreMatches(ops, n);
      ClosesLaterBefore(ops, OpenSaves(ops, n), n);
    }
  }

  // ------------------------------------------------------------ the invariant

  /** Loop state of the selection just before record `index` is examined; `kept`
      counts the open saves that were kept, which are always the outermost ones. */
  datatype Scan = Scan(index: nat, nextRender: nat, nextRestore: nat, infos: seq<SaveInfo>, indices: seq<nat>,
                       kept: nat)
  {
    predicate Alive() {
      nextRender < nextRestore
    }
  }

  ghost predicate StackInv(ops: seq<Record>, open: seq<nat>, s: Scan)
    requires InRange(open, |ops|)
  {
    && |s.infos| == |open|
    && s.kept <= |open|
    && s.nextRestore == RestoreOf(ops, open)
    && (forall k :: 0 <= k < |open| ==> s.infos[k].previousRestoreIndex == RestoreOf(ops, open[..k]))
    && (forall k :: 0 <= k < |open| ==> (s.infos[k].saveWasNeeded <==> k < s.kept))
    && (s.kept < |open| ==> s.nextRender >= s.infos[s.kept].previousRestoreIndex)
  }

  /** The replay of the chosen records against the replay of all records so far. */
  ghost predicate MeaningInv(hits: seq<nat>, full: Receiver, culled: Receiver, s: Scan) {
    && s.kept <= |full.frames|
    && culled.frames == full.frames[..s.kept]
    && culled.paint == full.paint
    && (s.Alive() ==> culled.context == full.context && s.kept == |full.frames|)
    && culled.drawn == HitEvents(full.drawn, hits)
  }

  ghost predicate SelectionInv(ops: seq<Record>, open: seq<nat>, hits: seq<nat>, s: Scan)
    requires s.index <= |ops|
  {
    && StrictlyAscending(s.indices)
    && InRange(s.indices, s.index)
    && s.kept <= |open|
    && (forall i :: 0 <= i < s.index && ops[i].IsRendering() && i in s.indices ==> i in hits)
    && (forall h :: h in hits && h < s.index ==> h in s.indices)
    && (forall k :: 0 <= k < |open| ==> (open[k] in s.indices <==> k < s.kept))
    && PairsKept(ops, open, s.indices, s.index)
  }

  /** Every save that was closed is kept if and only if its restore is. */
  ghost predicate PairsKept(ops: seq<Record>, open: seq<nat>, indices: seq<nat>, n: nat)
    requires n <= |ops|
  {
    forall i {:trigger ops[i]} :: 0 <= i < n && ops[i].IsSave() && i !in open ==>
      ops[i].RestoreIndex() < n && (i in indices <==> ops[i].RestoreIndex() in indices)
  }

  ghost predicate InvWith(ops: seq<Record>, hits: seq<nat>, open: seq<nat>, full: Receiver, culled: Receiver, s: Scan) {
    && s.index <= |ops|
    && InRange(s.indices, |ops|)
    && InRange(open, s.index)
    && StackInv(ops, open, s)
    && MeaningInv(hits, full, culled, s)
    && SelectionInv(ops, open, hits, s)
  }

  ghost predicate Inv(ops: seq<Record>, hits: seq<nat>, s: Scan) {
    && s.index <= |ops|
    && InRange(s.indices, |ops|)
    && InvWith(ops, hits, OpenSaves(ops, s.index), Replay(ops, s.index), ReplayIndices(ops, s.indices), s)
  }

  /** The next hit is at or after `index`, and is the first such. */
  ghost predicate NextHit(hits: seq<nat>, s: Scan) {
    s.nextRender in hits && s.index <= s.nextRender && forall h :: h in hits && s.index <= h ==> s.nextRender <= h
  }

  // -------------------------------------------------- one record at a time

  function Keep(s: Scan, keep: bool): Scan {
    s.(index := s.index + 1, indices := if keep then s.indices + [s.index] else s.indices)
  }

  function EnterSave(s: Scan, restoreIndex: nat): Scan {
    Keep(s, s.Alive()).(nextRestore := restoreIndex, infos := s.infos + [SaveInfo(s.nextRestore, s.Alive())],
                        kept := if s.Alive() then s.kept + 1 else s.kept)
  }

  function LeaveSave(s: Scan): Scan
    requires s.infos != []
  {
    var info := s.infos[|s.infos| - 1];
    Keep(s, info.saveWasNeeded).(nextRestore := info.previousRestoreIndex, infos := s.infos[..|s.infos| - 1],
                                 kept := if info.saveWasNeeded && s.kept > 0 then s.kept - 1 else s.kept)
  }

  lemma EnterSaveKeepsStack(ops: seq<Record>, open: seq<nat>, s: Scan)
    requires s.index < |ops| && InRange(open, |ops|) && ClosesLater(ops, open, s.index)
    requires StackInv(ops, open, s)
    requires s.Alive() ==> s.kept == |open|
    ensures InRange(open + [s.index], |ops|)
    ensures StackInv(ops, open + [s.index], EnterSave(s, ops[s.index].RestoreIndex()))
  {
    var next, t := open + [s.index], EnterSave(s, ops[s.index].RestoreIndex());
    forall k | 0 <= k < |next|
      ensures t.infos[k].previousRestoreIndex == RestoreOf(ops, next[..k])
    {
      assert next[..k] == open[..k];
    }
  }

  lemma LeaveSaveKeepsStack(ops: seq<Record>, open: seq<nat>, s: Scan)
    requires InRange(open, |ops|) && open != []
    requires StackInv(ops, open, s)
    ensures StackInv(ops, open[..|open| - 1], LeaveSave(s))
  {
    var next := open[..|open| - 1];
    forall k | 0 <= k < |next|
      ensures next[..k] == open[..k]
    {
    }
  }

  /** Whatever is dropped was dead: it lies in a scope that closes before the next hit. */
  lemma AliveKeepsAll(ops: seq<Record>, open: seq<nat>, s: Scan)
    requires |ops| <= NO_RESTORE && InRange(open, |ops|) && ClosesLater(ops, open, s.index)
    requires StackInv(ops, open, s)
    ensures s.Alive() ==> s.kept == |open|
  {
    if s.kept < |open| {
      var outer := open[..s.kept];
      assert s.nextRender >= RestoreOf(ops, outer);
      if outer != [] {
        assert outer[|outer| - 1] == open[s.kept - 1];
        assert ops[open[|open| - 1]].RestoreIndex() < ops[open[s.kept - 1]].RestoreIndex();
      }
    }
  }

  /** Attributes are always kept, transforms and clips only in a live scope,
      rendering records only when hit. */
  predicate Wanted(op: Record, s: Scan) {
    match GetOpCategory(op)
    case Attribute_ => true
    case Transform_ => s.Alive()
    case Clip_ => s.Alive()
    case _ => s.index == s.nextRender
  }

  function EventOf(r: Receiver, index: nat, op: Record): Event {
    Event(index, op, r.paint, r.context, r.frames)
  }

  lemma RenderingDraws(r: Receiver, index: nat, op: Record)
    requires op.IsRendering()
    ensures DispatchOneOp(r, index, op) == r.(drawn := r.drawn + [EventOf(r, index, op)])
  {
  }

  /** What is drawn under a live entry is drawn in the same state by the selection. */
  lemma SameEvent(hits: seq<nat>, full: Receiver, culled: Receiver, s: Scan, op: Record)
    requires MeaningInv(hits, full, culled, s) && s.Alive()
    ensures EventOf(culled, s.index, op) == EventOf(full, s.index, op)
  {
    hide HitEvents;
    assert full.frames[..|full.frames|] == full.frames;
  }

  /** The whole list draws it, and the selection if it is a hit. */
  lemma DrawnMeans(hits: seq<nat>, full: Receiver, culled: Receiver, s: Scan, e: Event, hit: bool)
    requires MeaningInv(hits, full, culled, s) && (hit <==> e.index in hits)
    ensures MeaningInv(hits, full.(drawn := full.drawn + [e]),
                       if hit then culled.(drawn := culled.drawn + [e]) else culled,
                       Keep(s, hit))
  {
    HitEventsAppend(full.drawn, e, hits);
    hide HitEvents;
  }

  lemma RenderKeepsMeaning(hits: seq<nat>, full: Receiver, culled: Receiver, s: Scan, op: Record)
    requires op.IsRendering()
    requires MeaningInv(hits, full, culled, s) && NextHit(hits, s)
    requires s.index == s.nextRender ==> s.Alive()
    ensures MeaningInv(hits, DispatchOneOp(full, s.index, op),
                       if Wanted(op, s) then DispatchOneOp(culled, s.index, op) else culled,
                       Keep(s, Wanted(op, s)))
  {
    var hit := Wanted(op, s);
    assert hit <==> s.index == s.nextRender;
    assert hit <==> s.index in hits;
    RenderingDraws(full, s.index, op);
    RenderingDraws(culled, s.index, op);
    DrawnMeans(hits, full, culled, s, EventOf(full, s.index, op), hit);
    if hit {
      SameEvent(hits, full, culled, s, op);
    }
    hide *;
  }

  lemma KeepKeepsMeaning(hits: seq<nat>, full: Receiver, culled: Receiver, s: Scan, op: Record)
    requires !op.IsSave() && !op.RestoreRecord?
    requires MeaningInv(hits, full, culled, s) && NextHit(hits, s)
    requires s.index == s.nextRender ==> s.Alive()
    ensures MeaningInv(hits, DispatchOneOp(full, s.index, op),
                       if Wanted(op, s) then DispatchOneOp(culled, s.index, op) else culled,
                       Keep(s, Wanted(op, s)))
  {
    if op.IsRendering() {
      RenderKeepsMeaning(hits, full, culled, s, op);
      hide *;
    } else {
      assert full.frames[..|full.frames|] == full.frames;
      hide HitEvents, NextHit;
    }
  }

  lemma EnterSaveKeepsMeaning(hits: seq<nat>, full: Receiver, culled: Receiver, s: Scan, op: Record, restoreIndex: nat)
    requires op.IsSave()
    requires MeaningInv(hits, full, culled, s)
    requires !s.Alive() ==> restoreIndex <= s.nextRender
    ensures MeaningInv(hits, DispatchOneOp(full, s.index, op),
                       if s.Alive() then DispatchOneOp(culled, s.index, op) else culled,
                       EnterSave(s, restoreIndex))
  {
    var full' := DispatchOneOp(full, s.index, op);
    if s.Alive() {
      assert full'.frames[..s.kept + 1] == full.frames[..s.kept] + [Frame(s.index, op, full.paint, full.context)];
    } else {
      assert full'.frames[..s.kept] == full.frames[..s.kept];
    }
  }

  lemma LeaveSaveKeepsMeaning(hits: seq<nat>, full: Receiver, culled: Receiver, s: Scan)
    requires |s.infos| == |full.frames| > 0
    requires forall k :: 0 <= k < |s.infos| ==> (s.infos[k].saveWasNeeded <==> k < s.kept)
    requires MeaningInv(hits, full, culled, s)
    requires LeaveSave(s).Alive() ==> LeaveSave(s).kept == |full.frames| - 1
    requires LeaveSave(s).Alive() ==> s.infos[|s.infos| - 1].saveWasNeeded || s.Alive()
    ensures MeaningInv(hits, DispatchOneOp(full, s.index, RestoreRecord),
                       if s.infos[|s.infos| - 1].saveWasNeeded then DispatchOneOp(culled, s.index, RestoreRecord)
                       else culled,
                       LeaveSave(s))
  {
    var k := |full.frames| - 1;
    if s.infos[k].saveWasNeeded {
      assert culled.frames == full.frames;
      assert full.frames[..k][..k] == full.frames[..k];
    } else {
      assert full.frames[..k][..s.kept] == full.frames[..s.kept];
    }
  }

  // -------------------------------------------------- the selection itself

  lemma KeepKeepsSelection(ops: seq<Record>, open: seq<nat>, hits: seq<nat>, s: Scan)
    requires s.index < |ops| && InRange(open, s.index)
    requires SelectionInv(ops, open, hits, s) && NextHit(hits, s)
    requires !ops[s.index].IsSave() && !ops[s.index].RestoreRecord?
    requires ClosesLater(ops, open, s.index + 1)
    requires s.index == s.nextRender ==> s.Alive()
    ensures SelectionInv(ops, open, hits, Keep(s, Wanted(ops[s.index], s)))
  {
    hide ClosesLater;
    var i, t := s.index, Keep(s, Wanted(ops[s.index], s));
    assert forall j: nat :: j < i ==> (j in t.indices <==> j in s.indices);
    assert i in t.indices <==> Wanted(ops[i], s);
    hide Wanted;
    forall j | 0 <= j < t.index && ops[j].IsSave() && j !in open
      ensures ops[j].RestoreIndex() < t.index && (j in t.indices <==> ops[j].RestoreIndex() in t.indices)
    {
      assert j < i;
    }
    assert forall h :: h in hits && h == i ==> h == s.nextRender;
  }

  lemma EnterSaveKeepsSelection(ops: seq<Record>, open: seq<nat>, hits: seq<nat>, s: Scan)
    requires s.index < |ops| && InRange(open, s.index)
    requires SelectionInv(ops, open, hits, s) && NextHit(hits, s)
    requires ops[s.index].IsSave()
    requires s.Alive() ==> s.kept == |open|
    requires s.index == s.nextRender ==> s.Alive()
    ensures SelectionInv(ops, open + [s.index], hits, EnterSave(s, ops[s.index].RestoreIndex()))
  {
    var i, t, next := s.index, EnterSave(s, ops[s.index].RestoreIndex()), open + [s.index];
    assert forall j: nat :: j < i ==> (j in t.indices <==> j in s.indices);
    assert i in t.indices <==> s.Alive();
    assert forall j :: j in next <==> j in open || j == i;
  }

  lemma LeaveSaveKeepsPairs(ops: seq<Record>, open: seq<nat>, indices: seq<nat>, n: nat, keep: bool)
    requires n < |ops| && open != [] && InRange(open, n) && InRange(indices, n) && PairsKept(ops, open, indices, n)
    requires ops[n].RestoreRecord? && ops[open[|open| - 1]].RestoreIndex() == n
    requires keep <==> open[|open| - 1] in indices
    ensures PairsKept(ops, open[..|open| - 1], if keep then indices + [n] else indices, n + 1)
  {
    var top, next := open[|open| - 1], open[..|open| - 1];
    assert forall j :: j in open ==> j in next || j == top;
  }

  lemma LeaveSaveKeepsSelection(ops: seq<Record>, open: seq<nat>, hits: seq<nat>, s: Scan)
    requires s.index < |ops| && InRange(open, s.index) && open != [] && |s.infos| == |open|
    requires forall j, k :: 0 <= j < k < |open| ==> open[j] < open[k]
    requires SelectionInv(ops, open, hits, s) && NextHit(hits, s)
    requires ops[s.index].RestoreRecord? && ops[open[|open| - 1]].RestoreIndex() == s.index
    requires s.infos[|open| - 1].saveWasNeeded <==> |open| - 1 < s.kept
    requires s.index == s.nextRender ==> s.infos[|open| - 1].saveWasNeeded
    ensures SelectionInv(ops, open[..|open| - 1], hits, LeaveSave(s))
  {
    LeaveSaveKeepsPairs(ops, open, s.indices, s.index, s.infos[|open| - 1].saveWasNeeded);
    hide PairsKept;
    var i, t, next, top := s.index, LeaveSave(s), open[..|open| - 1], open[|open| - 1];
    assert forall j: nat :: j < i ==> (j in t.indices <==> j in s.indices);
    assert i in t.indices <==> s.infos[|open| - 1].saveWasNeeded;
    assert forall j :: j in open <==> j in next || j == top;
  }

  lemma {:induction false} OpenSavesAscend(ops: seq<Record>, n: nat)
    requires n <= |ops|
    ensures StrictlyAscending(OpenSaves(ops, n))
    ensures forall k :: 0 <= k < |OpenSaves(ops, n)| ==> ops[OpenSaves(ops, n)[k]].IsSave()
  {
    if n > 0 {
      OpenSavesAscend(ops, n - 1);
    }
  }

  lemma ReplayKeep(ops: seq<Record>, s: Scan, keep: bool)
    requires s.index < |ops| && InRange(s.indices, |ops|)
    ensures InRange(Keep(s, keep).indices, |ops|)
    ensures OpenSaves(ops, s.index + 1) == StepOpen(OpenSaves(ops, s.index), s.index, ops[s.index])
    ensures Replay(ops, s.index + 1) == DispatchOneOp(Replay(ops, s.index), s.index, ops[s.index])
    ensures ReplayIndices(ops, Keep(s, keep).indices)
         == if keep then DispatchOneOp(ReplayIndices(ops, s.indices), s.index, ops[s.index])
            else ReplayIndices(ops, s.indices)
  {
    ReplayAppend(ops, s.indices, s.index);
  }

  ghost predicate Ready(ops: seq<Record>, hits: seq<nat>, s: Scan) {
    WellNested(ops) && |ops| <= NO_RESTORE && s.index < |ops| && Inv(ops, hits, s) && NextHit(hits, s)
  }

  /** A record in an open scope that closes later is alive when it is the next hit. */
  lemma HitIsAlive(ops: seq<Record>, open: seq<nat>, s: Scan)
    requires s.index < |ops| <= NO_RESTORE && InRange(open, |ops|) && ClosesLater(ops, open, s.index + 1)
    requires StackInv(ops, open, s)
    ensures s.index == s.nextRender ==> s.Alive()
  {
  }

  /** A scope whose surroundings are alive when it closes was kept when it opened. */
  lemma NeededIfOuterAlive(ops: seq<Record>, open: seq<nat>, s: Scan)
    requires s.index < |ops| <= NO_RESTORE && InRange(open, |ops|) && open != [] && ClosesLater(ops, open, s.index)
    requires StackInv(ops, open, s)
    ensures s.infos[|open| - 1].previousRestoreIndex > s.index
    ensures s.nextRender < s.infos[|open| - 1].previousRestoreIndex ==> s.infos[|open| - 1].saveWasNeeded
  {
    var k := |open| - 1;
    if k > 0 {
      assert open[..k][k - 1] == open[k - 1];
      assert ops[open[k]].RestoreIndex() < ops[open[k - 1]].RestoreIndex();
    }
    if s.kept <= k && s.kept > 0 {
      assert open[..s.kept][s.kept - 1] == open[s.kept - 1];
      assert k > 0;
      assert ops[open[k - 1]].RestoreIndex() <= ops[open[s.kept - 1]].RestoreIndex();
    }
  }

  lemma KeepStep(ops: seq<Record>, hits: seq<nat>, open: seq<nat>, full: Receiver, culled: Receiver, s: Scan)
    requires s.index < |ops| <= NO_RESTORE && !ops[s.index].IsSave() && !ops[s.index].RestoreRecord?
    requires InvWith(ops, hits, open, full, culled, s) && NextHit(hits, s)
    requires ClosesLater(ops, open, s.index + 1)
    ensures InvWith(ops, hits, open, DispatchOneOp(full, s.index, ops[s.index]),
                    if Wanted(ops[s.index], s) then DispatchOneOp(culled, s.index, ops[s.index]) else culled,
                    Keep(s, Wanted(ops[s.index], s)))
  {
    HitIsAlive(ops, open, s);
    KeepKeepsMeaning(hits, full, culled, s, ops[s.index]);
    KeepKeepsSelection(ops, open, hits, s);
  }

  lemma EnterStep(ops: seq<Record>, hits: seq<nat>, open: seq<nat>, full: Receiver, culled: Receiver, s: Scan)
    requires s.index < |ops| <= NO_RESTORE && ops[s.index].IsSave()
    requires InvWith(ops, hits, open, full, culled, s) && NextHit(hits, s)
    requires ClosesLater(ops, open, s.index + 1) && ClosesLater(ops, open + [s.index], s.index + 1)
    ensures InvWith(ops, hits, open + [s.index], DispatchOneOp(full, s.index, ops[s.index]),
                    if s.Alive() then DispatchOneOp(culled, s.index, ops[s.index]) else culled,
                    EnterSave(s, ops[s.index].RestoreIndex()))
  {
    hide SelectionInv, DispatchOneOp, HitEvents;
    var next := open + [s.index];
    if open != [] {
      assert next[|open| - 1] == open[|open| - 1];
      assert ops[next[|open|]].RestoreIndex() < ops[next[|open| - 1]].RestoreIndex();
    }
    AliveKeepsAll(ops, open, s);
    HitIsAlive(ops, open, s);
    EnterSaveKeepsStack(ops, open, s);
    EnterSaveKeepsMeaning(hits, full, culled, s, ops[s.index], ops[s.index].RestoreIndex());
    EnterSaveKeepsSelection(ops, open, hits, s);
  }

  lemma LeaveStep(ops: seq<Record>, hits: seq<nat>, open: seq<nat>, full: Receiver, culled: Receiver, s: Scan)
    requires s.index < |ops| <= NO_RESTORE && ops[s.index].RestoreRecord?
    requires InvWith(ops, hits, open, full, culled, s) && NextHit(hits, s)
    requires open != [] && ops[open[|open| - 1]].RestoreIndex() == s.index
    requires StrictlyAscending(open) && FramesName(ops, full.frames, open)
    requires ClosesLater(ops, open, s.index) && ClosesLater(ops, open[..|open| - 1], s.index + 1)
    ensures InvWith(ops, hits, open[..|open| - 1], DispatchOneOp(full, s.index, ops[s.index]),
                    if s.infos[|open| - 1].saveWasNeeded then DispatchOneOp(culled, s.index, ops[s.index]) else culled,
                    LeaveSave(s))
  {
    hide SelectionInv, DispatchOneOp, HitEvents;
    NeededIfOuterAlive(ops, open, s);
    LeaveSaveKeepsStack(ops, open, s);
    AliveKeepsAll(ops, open[..|open| - 1], LeaveSave(s));
    LeaveSaveKeepsMeaning(hits, full, culled, s);
    LeaveSaveKeepsSelection(ops, open, hits, s);
  }

  lemma KeepKeepsInv(ops: seq<Record>, hits: seq<nat>, s: Scan)
    requires Ready(ops, hits, s) && !ops[s.index].IsSave() && !ops[s.index].RestoreRecord?
    ensures Inv(ops, hits, Keep(s, Wanted(ops[s.index], s)))
  {
    hide StackInv, MeaningInv, SelectionInv, ClosesLater, DispatchOneOp, NextHit;
    OpenSavesCloseLater(ops, s.index);
    KeepStep(ops, hits, OpenSaves(ops, s.index), Replay(ops, s.index), ReplayIndices(ops, s.indices), s);
    ReplayKeep(ops, s, Wanted(ops[s.index], s));
  }

  lemma EnterSaveKeepsInv(ops: seq<Record>, hits: seq<nat>, s: Scan)
    requires Ready(ops, hits, s) && ops[s.index].IsSave()
    ensures Inv(ops, hits, EnterSave(s, ops[s.index].RestoreIndex()))
  {
    hide StackInv, MeaningInv, SelectionInv, ClosesLater, DispatchOneOp, NextHit;
    ReplayKeep(ops, s, s.Alive());
    OpenSavesCloseLater(ops, s.index);
    OpenSavesCloseLater(ops, s.index + 1);
    EnterStep(ops, hits, OpenSaves(ops, s.index), Replay(ops, s.index), ReplayIndices(ops, s.indices), s);
  }

  lemma RestoreClosesTop(ops: seq<Record>, n: nat) returns (open: seq<nat>)
    requires WellNested(ops) && n < |ops| <= NO_RESTORE && ops[n].RestoreRecord?
    ensures open == OpenSaves(ops, n) && OpenSaves(ops, n + 1) == StepOpen(open, n, ops[n])
    ensures open != [] && InRange(open, n) && ops[open[|open| - 1]].RestoreIndex() == n
    ensures StrictlyAscending(open) && FramesName(ops, Replay(ops, n).frames, open)
    ensures ClosesLater(ops, open, n) && ClosesLater(ops, open[..|open| - 1], n + 1)
  {
    open := OpenSaves(ops, n);
    assert RestoreMatches(ops, n);
    OpenSavesCloseLater(ops, n);
    OpenSavesCloseLater(ops, n + 1);
    OpenSavesAscend(ops, n);
    FramesAreOpenSaves(ops, n);
  }

  lemma LeaveSaveKeepsInv(ops: seq<Record>, hits: seq<nat>, s: Scan)
    requires Ready(ops, hits, s) && ops[s.index].RestoreRecord?
    ensures s.infos != [] && s.index == s.nextRestore
    ensures Inv(ops, hits, LeaveSave(s))
  {
    hide MeaningInv, SelectionInv, ClosesLater, DispatchOneOp, NextHit, FramesName, StrictlyAscending;
    var open := RestoreClosesTop(ops, s.index);
    LeaveStep(ops, hits, open, Replay(ops, s.index), ReplayIndices(ops, s.indices), s);
    ReplayKeep(ops, s, s.infos[|open| - 1].saveWasNeeded);
  }

  /** Moving on to a later hit can only make scopes die. */
  lemma LaterHitKeepsInv(ops: seq<Record>, hits: seq<nat>, s: Scan, nextRender: nat)
    requires Inv(ops, hits, s) && s.nextRender <= nextRender
    ensures Inv(ops, hits, s.(nextRender := nextRender))
  {
  }

  // ---------------------------------------------------------- the early exit

  lemma {:induction false} ClosedSavesPointBack(ops: seq<Record>, n: nat, s: nat)
    requires WellNested(ops) && s < n <= |ops| && ops[s].IsSave() && s !in OpenSaves(ops, n)
    ensures s < ops[s].RestoreIndex() < n
  {
    var open, next := OpenSaves(ops, n - 1), OpenSaves(ops, n);
    assert next == StepOpen(open, n - 1, ops[n - 1]);
    assert ops[n - 1].IsSave() ==> next[|open|] == n - 1;
    assert forall k :: 0 <= k < |open| - 1 ==> next[k] == open[k];
    if s in open {
      assert RestoreMatches(ops, n - 1);
      assert s == open[|open| - 1];
    } else {
      ClosedSavesPointBack(ops, n - 1, s);
    }
  }

  /** Two saves never share a restore. */
  lemma RestoresAreDistinct(ops: seq<Record>, a: nat, b: nat)
    requires WellNested(ops) && a < b < |ops| && ops[a].IsSave() && ops[b].IsSave()
    ensures ops[a].RestoreIndex() != ops[b].RestoreIndex()
  {
    var open := OpenSaves(ops, b);
    assert OpenSaves(ops, b + 1) == open + [b];
    OpenSavesCloseLater(ops, b + 1);
    assert (open + [b])[|open|] == b;
    if a in open {
      var k :| 0 <= k < |open| && open[k] == a;
      assert (open + [b])[k] == a;
    } else {
      ClosedSavesPointBack(ops, b, a);
    }
  }

  lemma MissAddsNoHit(r: Receiver, index: nat, op: Record, hits: seq<nat>)
    requires index !in hits
    ensures HitEvents(DispatchOneOp(r, index, op).drawn, hits) == HitEvents(r.drawn, hits)
  {
    if op.IsRendering() {
      HitEventsAppend(r.drawn, Event(index, op, r.paint, r.context, r.frames), hits);
    }
  }

  lemma {:induction false} NoMoreHits(ops: seq<Record>, hits: seq<nat>, m: nat, n: nat)
    requires m <= n <= |ops|
    requires forall h :: h in hits ==> h < m
    ensures HitEvents(Replay(ops, n).drawn, hits) == HitEvents(Replay(ops, m).drawn, hits)
  {
    hide HitEvents, DispatchOneOp;
    if m < n {
      NoMoreHits(ops, hits, m, n - 1);
      MissAddsNoHit(Replay(ops, n - 1), n - 1, ops[n - 1], hits);
    }
  }

  /** What the selection promises about its result. */
  ghost predicate Selected(ops: seq<Record>, hits: seq<nat>, indices: seq<nat>) {
    && StrictlyAscending(indices)
    && InRange(indices, |ops|)
    && (forall h :: h in hits ==> h in indices)
    && (forall i :: i in indices && ops[i].IsRendering() ==> i in hits)
    && Balanced(ops, indices)
    && ReplayIndices(ops, indices).frames == []
    && ReplayIndices(ops, indices).drawn == HitEvents(Replay(ops, |ops|).drawn, hits)
  }

  /** The restores of the kept saves from the innermost out to number `left`. */
  function RestoresOfKept(ops: seq<Record>, open: seq<nat>, kept: nat, left: nat): seq<nat>
    requires InRange(open, |ops|) && kept <= |open|
  {
    if left < kept then seq(kept - left, j requires 0 <= j < kept - left => ops[open[kept - 1 - j]].RestoreIndex())
    else []
  }

  lemma RestoresOfKeptStep(ops: seq<Record>, open: seq<nat>, kept: nat, left: nat)
    requires InRange(open, |ops|) && left < kept <= |open|
    ensures RestoresOfKept(ops, open, kept, left)
         == RestoresOfKept(ops, open, kept, left + 1) + [ops[open[left]].RestoreIndex()]
  {
  }

  lemma {:induction false} RestoresUnwind(ops: seq<Record>, open: seq<nat>, chosen: seq<nat>, kept: nat, left: nat)
    requires InRange(open, |ops|) && left <= kept <= |open| && InRange(chosen, |ops|)
    requires forall k :: 0 <= k < |open| ==> ops[open[k]].RestoreIndex() < |ops|
    requires forall k :: 0 <= k < |open| ==> ops[ops[open[k]].RestoreIndex()].RestoreRecord?
    requires |ReplayIndices(ops, chosen).frames| == kept
    ensures InRange(chosen + RestoresOfKept(ops, open, kept, left), |ops|)
    ensures ReplayIndices(ops, chosen + RestoresOfKept(ops, open, kept, left)).frames
      == ReplayIndices(ops, chosen).frames[..left]
    ensures ReplayIndices(ops, chosen + RestoresOfKept(ops, open, kept, left)).drawn == ReplayIndices(ops, chosen).drawn
    decreases kept - left
  {
    if left == kept {
      assert chosen + [] == chosen;
    } else {
      RestoresUnwind(ops, open, chosen, kept, left + 1);
      RestoresOfKeptStep(ops, open, kept, left);
      var before, r := chosen + RestoresOfKept(ops, open, kept, left + 1), ops[open[left]].RestoreIndex();
      hide DispatchOneOp, ReplayIndices, RestoresOfKept, Record.RestoreIndex;
      assert chosen + RestoresOfKept(ops, open, kept, left) == before + [r];
      UnwindOnce(ops, before, r);
      assert ReplayIndices(ops, chosen).frames[..left + 1][..left] == ReplayIndices(ops, chosen).frames[..left];
    }
  }

  lemma UnwindOnce(ops: seq<Record>, before: seq<nat>, r: nat)
    requires InRange(before, |ops|) && r < |ops| && ops[r].RestoreRecord? && ReplayIndices(ops, before).frames != []
    ensures InRange(before + [r], |ops|)
    ensures var done, next := ReplayIndices(ops, before), ReplayIndices(ops, before + [r]);
      next.frames == done.frames[..|done.frames| - 1] && next.drawn == done.drawn
  {
    ReplayAppend(ops, before, r);
    RestorePops(ReplayIndices(ops, before), r);
    assert ops[r] == RestoreRecord;
    hide DispatchOneOp, ReplayIndices;
  }

  lemma RestorePops(r: Receiver, index: nat)
    requires r.frames != []
    ensures DispatchOneOp(r, index, RestoreRecord).frames == r.frames[..|r.frames| - 1]
    ensures DispatchOneOp(r, index, RestoreRecord).drawn == r.drawn
  {
  }

  lemma OpenSavesCloseAtRestores(ops: seq<Record>, n: nat, k: nat)
    requires WellNested(ops) && n <= |ops| && k < |OpenSaves(ops, n)|
    ensures ops[OpenSaves(ops, n)[k]].RestoreIndex() < |ops|
    ensures ops[ops[OpenSaves(ops, n)[k]].RestoreIndex()].RestoreRecord?
    decreases |ops| - n
  {
    OpenSavesCloseLater(ops, n);
    var open := OpenSaves(ops, n);
    assert RestoreMatches(ops, n);
    if ops[n].RestoreRecord? && k == |open| - 1 {
      assert ops[open[k]].RestoreIndex() == n;
    } else {
      assert OpenSaves(ops, n + 1)[k] == open[k];
      OpenSavesCloseAtRestores(ops, n + 1, k);
    }
  }

  lemma SavesPointForward(ops: seq<Record>, a: nat)
    requires WellNested(ops) && a < |ops| && ops[a].IsSave()
    ensures a < ops[a].RestoreIndex() < |ops|
  {
    OpenSavesCloseLater(ops, a + 1);
    assert OpenSaves(ops, a + 1)[|OpenSaves(ops, a)|] == a;
  }

  /** The selection with the kept restores appended. */
  function Unwound(ops: seq<Record>, s: Scan): seq<nat>
    requires s.index <= |ops| && s.kept <= |OpenSaves(ops, s.index)|
  {
    s.indices + RestoresOfKept(ops, OpenSaves(ops, s.index), s.kept, 0)
  }

  lemma KeptRestores(ops: seq<Record>, open: seq<nat>, kept: nat, r: nat)
    requires InRange(open, |ops|) && kept <= |open|
    ensures r in RestoresOfKept(ops, open, kept, 0) <==> exists k :: 0 <= k < kept && ops[open[k]].RestoreIndex() == r
  {
    var out := RestoresOfKept(ops, open, kept, 0);
    if r in out {
      var j :| 0 <= j < |out| && out[j] == r;
      assert ops[open[kept - 1 - j]].RestoreIndex() == r;
    }
    if exists k :: 0 <= k < kept && ops[open[k]].RestoreIndex() == r {
      var k :| 0 <= k < kept && ops[open[k]].RestoreIndex() == r;
      assert out[kept - 1 - k] == r;
    }
  }

  /** A save outside the stack does not share its restore with one on it. */
  lemma OtherRestores(ops: seq<Record>, n: nat, a: nat, k: nat)
    requires WellNested(ops) && n <= |ops| && k < |OpenSaves(ops, n)|
    requires a < |ops| && ops[a].IsSave() && a !in OpenSaves(ops, n)
    ensures ops[OpenSaves(ops, n)[k]].RestoreIndex() != ops[a].RestoreIndex()
  {
    OpenSavesAscend(ops, n);
    var b := OpenSaves(ops, n)[k];
    if b < a {
      RestoresAreDistinct(ops, b, a);
    } else {
      RestoresAreDistinct(ops, a, b);
    }
  }

  lemma UnwoundIsBalancedAt(ops: seq<Record>, hits: seq<nat>, s: Scan, open: seq<nat>, a: nat)
    requires s.index <= |ops| && open == OpenSaves(ops, s.index) && WellNested(ops) && a < |ops| && ops[a].IsSave()
    requires SelectionInv(ops, open, hits, s) && ClosesLater(ops, open, s.index)
    requires forall k :: 0 <= k < |open| ==> ops[ops[open[k]].RestoreIndex()].RestoreRecord?
    ensures a in s.indices + RestoresOfKept(ops, open, s.kept, 0)
       <==> ops[a].RestoreIndex() in s.indices + RestoresOfKept(ops, open, s.kept, 0)
  {
    var r, out := ops[a].RestoreIndex(), RestoresOfKept(ops, open, s.kept, 0);
    KeptRestores(ops, open, s.kept, a);
    KeptRestores(ops, open, s.kept, r);
    assert a !in out;
    if a in open {
      var k :| 0 <= k < |open| && open[k] == a;
      assert r !in s.indices;
    } else {
      if a < s.index {
        ClosedSavesPointBack(ops, s.index, a);
      } else {
        SavesPointForward(ops, a);
      }
      forall k | 0 <= k < s.kept
        ensures ops[open[k]].RestoreIndex() != r
      {
        OtherRestores(ops, s.index, a, k);
      }
    }
  }

  lemma UnwoundIsBalanced(ops: seq<Record>, hits: seq<nat>, s: Scan)
    requires WellNested(ops) && Inv(ops, hits, s)
    ensures Balanced(ops, Unwound(ops, s))
  {
    var open := OpenSaves(ops, s.index);
    OpenSavesCloseLater(ops, s.index);
    forall k | 0 <= k < |open|
      ensures ops[ops[open[k]].RestoreIndex()].RestoreRecord?
    {
      OpenSavesCloseAtRestores(ops, s.index, k);
    }
    forall a | 0 <= a < |ops| && ops[a].IsSave()
      ensures a in Unwound(ops, s) <==> ops[a].RestoreIndex() in Unwound(ops, s)
    {
      UnwoundIsBalancedAt(ops, hits, s, open, a);
    }
  }

  lemma UnwoundIsIncreasing(ops: seq<Record>, s: Scan, open: seq<nat>)
    requires InRange(open, |ops|) && s.kept <= |open| && InRange(s.indices, s.index) && StrictlyAscending(s.indices)
    requires ClosesLater(ops, open, s.index)
    ensures StrictlyAscending(s.indices + RestoresOfKept(ops, open, s.kept, 0))
  {
  }

  lemma UnwoundReplays(ops: seq<Record>, hits: seq<nat>, s: Scan)
    requires WellNested(ops) && Inv(ops, hits, s)
    ensures InRange(Unwound(ops, s), |ops|)
    ensures ReplayIndices(ops, Unwound(ops, s)).frames == []
    ensures ReplayIndices(ops, Unwound(ops, s)).drawn == ReplayIndices(ops, s.indices).drawn
  {
    var open := OpenSaves(ops, s.index);
    OpenSavesCloseLater(ops, s.index);
    forall k | 0 <= k < |open|
      ensures ops[ops[open[k]].RestoreIndex()].RestoreRecord?
    {
      OpenSavesCloseAtRestores(ops, s.index, k);
    }
    RestoresUnwind(ops, open, s.indices, s.kept, 0);
  }

  lemma UnwoundIsSelected(ops: seq<Record>, hits: seq<nat>, s: Scan)
    requires WellNested(ops) && Inv(ops, hits, s)
    requires forall h :: h in hits ==> h < s.index
    ensures Selected(ops, hits, Unwound(ops, s))
  {
    UnwoundIsBalanced(ops, hits, s);
    UnwoundReplays(ops, hits, s);
    OpenSavesCloseLater(ops, s.index);
    UnwoundIsIncreasing(ops, s, OpenSaves(ops, s.index));
    UnwoundHasHits(ops, hits, s);
    UnwoundDraws(ops, hits, s);
    hide Inv, WellNested, Balanced, ClosesLater, HitEvents, Replay, ReplayIndices, OpenSaves, RestoresOfKept,
      StrictlyAscending;
  }

  /** All hits are chosen by then, and nothing else that renders. */
  lemma UnwoundHasHits(ops: seq<Record>, hits: seq<nat>, s: Scan)
    requires WellNested(ops) && Inv(ops, hits, s)
    requires forall h :: h in hits ==> h < s.index
    ensures forall h :: h in hits ==> h in Unwound(ops, s)
    ensures forall i :: i in Unwound(ops, s) ==> i < |ops| && (ops[i].IsRendering() ==> i in hits)
  {
    UnwoundAddsRestores(ops, s);
    hide WellNested, StackInv, MeaningInv, Unwound, OpenSaves, Replay, ReplayIndices, StrictlyAscending;
  }

  lemma UnwoundDraws(ops: seq<Record>, hits: seq<nat>, s: Scan)
    requires WellNested(ops) && Inv(ops, hits, s)
    requires forall h :: h in hits ==> h < s.index
    ensures ReplayIndices(ops, s.indices).drawn == HitEvents(Replay(ops, |ops|).drawn, hits)
  {
    NoMoreHits(ops, hits, s.index, |ops|);
    hide WellNested, StackInv, SelectionInv, OpenSaves, Replay, ReplayIndices, HitEvents;
  }

  lemma UnwoundAddsRestores(ops: seq<Record>, s: Scan)
    requires WellNested(ops) && s.index <= |ops| && s.kept <= |OpenSaves(ops, s.index)|
    ensures forall i :: i in s.indices ==> i in Unwound(ops, s)
    ensures forall i :: i in Unwound(ops, s) && i !in s.indices ==> i < |ops| && ops[i].RestoreRecord?
  {
    var open := OpenSaves(ops, s.index);
    forall i | i in Unwound(ops, s) && i !in s.indices
      ensures i < |ops| && ops[i].RestoreRecord?
    {
      KeptRestores(ops, open, s.kept, i);
      var k :| 0 <= k < s.kept && ops[open[k]].RestoreIndex() == i;
      OpenSavesCloseAtRestores(ops, s.index, k);
    }
  }

  /** One pass of the main loop, as a function of the loop state. */
  function Examine(ops: seq<Record>, s: Scan): Scan
    requires s.index < |ops| && (ops[s.index].RestoreRecord? ==> s.infos != [])
  {
    if ops[s.index].IsSave() then EnterSave(s, ops[s.index].RestoreIndex())
    else if ops[s.index].RestoreRecord? then LeaveSave(s)
    else Keep(s, Wanted(ops[s.index], s))
  }

  lemma ExamineKeepsInv(ops: seq<Record>, hits: seq<nat>, s: Scan)
    requires Ready(ops, hits, s)
    ensures ops[s.index].RestoreRecord? ==> s.infos != []
    ensures Inv(ops, hits, Examine(ops, s))
  {
    hide Inv, Keep, EnterSave, LeaveSave, Wanted;
    if ops[s.index].IsSave() {
      EnterSaveKeepsInv(ops, hits, s);
    } else if ops[s.index].RestoreRecord? {
      LeaveSaveKeepsInv(ops, hits, s);
    } else {
      KeepKeepsInv(ops, hits, s);
    }
  }

  lemma StackOf(ops: seq<Record>, hits: seq<nat>, s: Scan)
    requires Inv(ops, hits, s)
    ensures s.index <= |ops| && s.kept <= |OpenSaves(ops, s.index)| == |s.infos|
    ensures StackInv(ops, OpenSaves(ops, s.index), s)
  {
  }

  lemma StartInv(ops: seq<Record>, hits: seq<nat>)
    requires |hits| > 0
    ensures Inv(ops, hits, Scan(0, hits[0], NO_RESTORE, [], [], 0))
  {
  }

  lemma NoHitsSelectNothing(ops: seq<Record>, hits: seq<nat>)
    requires WellNested(ops) && hits == []
    ensures Selected(ops, hits, [])
  {
    NoMoreHits(ops, hits, 0, |ops|);
  }
}
