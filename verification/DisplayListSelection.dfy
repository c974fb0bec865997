/**
 The selection itself: the loop over the records that culled dispatch runs, and the early
 exit from it. It picks a balanced sub-list that draws every hit as a full replay draws it.
 */
module DisplayListSelection {
  import opened DisplayListTypes
  import opened DisplayListReplay
  import opened DisplayListCulling
  import opened DisplayListCulledCanvas

  method RTreeResultsToIndexVector(ops: seq<Record>, hits: seq<nat>) returns (indices: seq<nat>)
    requires WellNested(ops) && |ops| <= NO_RESTORE
    requires Hits(hits, |ops|)
    ensures Selected(ops, hits, indices) && PaintsHits(ops, hits, indices)
  {
    hide Inv, Selected, WellNested, OpenSaves, Replay, ReplayIndices, HitEvents, AllFollow, PaintsHits;
    indices := [];
    if |hits| == 0 {
      NoHitsSelectNothing(ops, hits);
      NoHitsPaintNothing(ops, hits);
      return;
    }
    var curRect, nextRenderIndex, nextRestoreIndex := 1, hits[0], NO_RESTORE;
    var saveInfos: seq<SaveInfo> := [];
    var index := 0;
    ghost var s := Scan(0, hits[0], NO_RESTORE, [], [], 0);
    StartInv(ops, hits);
    StartFollows(ops, hits, hits[0]);
    while index < |ops|
      invariant index <= |ops| && 1 <= curRect <= |hits| && nextRenderIndex == hits[curRect - 1]
      invariant forall k :: 0 <= k < curRect - 1 ==> hits[k] < index
      invariant s == Scan(index, nextRenderIndex, nextRestoreIndex, saveInfos, indices, s.kept) && Inv(ops, hits, s)
      invariant AllFollow(ops, hits, s)
    {
      while index > nextRenderIndex
        invariant 1 <= curRect <= |hits| && nextRenderIndex == hits[curRect - 1]
        invariant forall k :: 0 <= k < curRect - 1 ==> hits[k] < index
        invariant s == Scan(index, nextRenderIndex, nextRestoreIndex, saveInfos, indices, s.kept) && Inv(ops, hits, s)
        invariant AllFollow(ops, hits, s)
        decreases |hits| - curRect
      {
        if curRect < |hits| {
          LaterHitKeepsInv(ops, hits, s, hits[curRect]);
          LaterHitFollows(ops, hits, s, hits[curRect]);
          nextRenderIndex := hits[curRect];
          curRect := curRect + 1;
          s := s.(nextRender := nextRenderIndex);
        } else {
          indices := Unwind(ops, hits, s, nextRestoreIndex, saveInfos, indices);
          return;
        }
      }
      ExamineKeepsInv(ops, hits, s);
      ExamineFollows(ops, hits, s);
      s := Examine(ops, s);
      match GetOpCategory(ops[index]) {
        case Attribute_ =>
          // Attributes are always needed.
          indices := indices + [index];
        case Transform_ =>
          if nextRenderIndex < nextRestoreIndex {
            indices := indices + [index];
          }
        case Clip_ =>
          if nextRenderIndex < nextRestoreIndex {
            indices := indices + [index];
          }
        case Rendering =>
          if index == nextRenderIndex {
            indices := indices + [index];
          }
        case SubDisplayList =>
          if index == nextRenderIndex {
            indices := indices + [index];
          }
        case Restore_ =>
          var info := saveInfos[|saveInfos| - 1];
          nextRestoreIndex := info.previousRestoreIndex;
          if info.saveWasNeeded {
            indices := indices + [index];
          }
          saveInfos := saveInfos[..|saveInfos| - 1];
        case _ =>
          var needed := nextRenderIndex < nextRestoreIndex;
          saveInfos := saveInfos + [SaveInfo(nextRestoreIndex, needed)];
          nextRestoreIndex := ops[index].restoreIndex;
          if needed {
            indices := indices + [index];
          }
      }
      index := index + 1;
    }
    WholeListIsSelected(ops, hits, s);
  }

  lemma WholeListIsSelected(ops: seq<Record>, hits: seq<nat>, s: Scan)
    requires WellNested(ops) && Hits(hits, |ops|) && Inv(ops, hits, s) && s.index == |ops|
    requires AllFollow(ops, hits, s)
    ensures Selected(ops, hits, s.indices) && PaintsHits(ops, hits, s.indices)
  {
    UnwoundIsSelected(ops, hits, s);
    UnwoundPaintsHits(ops, hits, s);
    hide Selected, AllFollow, PaintsHits, MeaningInv, SelectionInv, Replay, ReplayIndices;
    assert Unwound(ops, s) == s.indices;
  }

  /** Nothing is left to render: only the restores of the kept saves are still needed. */
  method Unwind(ops: seq<Record>, ghost hits: seq<nat>, ghost s: Scan, nextRestoreIndex: nat, saveInfos: seq<SaveInfo>,
                chosen: seq<nat>) returns (indices: seq<nat>)
    requires WellNested(ops) && Inv(ops, hits, s) && AllFollow(ops, hits, s)
    requires s.nextRestore == nextRestoreIndex && s.infos == saveInfos && s.indices == chosen
    requires forall h :: h in hits ==> h < s.index
    ensures Selected(ops, hits, indices) && PaintsHits(ops, hits, indices)
  {
    hide Inv, Selected, WellNested, OpenSaves, MeaningInv, SelectionInv, AllFollow, PaintsHits;
    StackOf(ops, hits, s);
    UnwoundIsSelected(ops, hits, s);
    UnwoundPaintsHits(ops, hits, s);
    ghost var open := OpenSaves(ops, s.index);
    indices := chosen;
    var next, infos := nextRestoreIndex, saveInfos;
    while infos != []
      invariant |infos| <= |open| && infos == saveInfos[..|infos|]
      invariant next == RestoreOf(ops, open[..|infos|])
      invariant indices == chosen + RestoresOfKept(ops, open, s.kept, |infos|)
    {
      var info := infos[|infos| - 1];
      if info.saveWasNeeded {
        RestoresOfKeptStep(ops, open, s.kept, |infos| - 1);
        indices := indices + [next];
      }
      next := info.previousRestoreIndex;
      infos := infos[..|infos| - 1];
    }
  }
}
