/**
 A reference receiver for display-list records. It interprets transforms and
 clips freely (as the sequences of what was applied), so two draws with equal
 events render identically under every interpretation of matrices and clips.
 */
module DisplayListReplay {
  import opened DisplayListTypes

  datatype ClipEntry = ClipEntry(matrix: seq<TransformOp>, rect: Rect, clipOp: ClipOp)

  /** What `save` stores and `restore` brings back. */
  datatype Context = Context(matrix: seq<TransformOp>, clip: seq<ClipEntry>)

  /** One open save: its record, and the state it was issued under. */
  datatype Frame = Frame(index: nat, save: Record, paint: Paint, outer: Context)

  /** One rendering operation and everything that decides how it renders. */
  datatype Event = Event(index: nat, op: Record, paint: Paint, context: Context, frames: seq<Frame>)

  datatype Receiver = Receiver(paint: Paint, context: Context, frames: seq<Frame>, drawn: seq<Event>)

  const INITIAL := Receiver(DEFAULT_PAINT, Context([], []), [], [])

  function DispatchOneOp(r: Receiver, index: nat, op: Record): Receiver {
    match op
    case AttributeOp(a) =>
      r.(paint := a.ApplyTo(r.paint))
    case TransformRecord(t) =>
      r.(context := r.context.(matrix := r.context.matrix + [t]))
    case ClipRecord(rect, clipOp) =>
      r.(context := r.context.(clip := r.context.clip + [ClipEntry(r.context.matrix, rect, clipOp)]))
    case SaveRecord(_, _) =>
      r.(frames := r.frames + [Frame(index, op, r.paint, r.context)])
    case SaveLayerRecord(_, _, _, _, _, _) =>
      r.(frames := r.frames + [Frame(index, op, r.paint, r.context)])
    case RestoreRecord =>
      if r.frames == [] then r
      else r.(context := r.frames[|r.frames| - 1].outer, frames := r.frames[..|r.frames| - 1])
    case DrawRecord(_) =>
      r.(drawn := r.drawn + [Event(index, op, r.paint, r.context, r.frames)])
    case DrawListRecord(_, _) =>
      r.(drawn := r.drawn + [Event(index, op, r.paint, r.context, r.frames)])
  }

  /** The receiver after the first `n` records. */
  function Replay(ops: seq<Record>, n: nat): Receiver
    requires n <= |ops|
  {
    if n == 0 then INITIAL else DispatchOneOp(Replay(ops, n - 1), n - 1, ops[n - 1])
  }

  predicate InRange(indices: seq<nat>, n: nat) {
    forall k :: 0 <= k < |indices| ==> indices[k] < n
  }

  /** The receiver after the records at `indices`, in that order. */
  function ReplayIndices(ops: seq<Record>, indices: seq<nat>): Receiver
    requires InRange(indices, |ops|)
  {
    if indices == [] then INITIAL
    else
      var last := indices[|indices| - 1];
      DispatchOneOp(ReplayIndices(ops, indices[..|indices| - 1]), last, ops[last])
  }

  /** The events whose record index is among `hits`, in order. */
  function HitEvents(events: seq<Event>, hits: seq<nat>): seq<Event> {
    if events == [] then []
    else
      var last := events[|events| - 1];
      HitEvents(events[..|events| - 1], hits) + (if last.index in hits then [last] else [])
  }

  ghost predicate FramesName(ops: seq<Record>, frames: seq<Frame>, open: seq<nat>) {
    && |frames| == |open|
    && (forall k :: 0 <= k < |open| ==> open[k] < |ops| && frames[k].index == open[k] && frames[k].save == ops[open[k]])
  }

  lemma FramesFollow(ops: seq<Record>, r: Receiver, open: seq<nat>, i: nat)
    requires i < |ops| && FramesName(ops, r.frames, open)
    ensures FramesName(ops, DispatchOneOp(r, i, ops[i]).frames, StepOpen(open, i, ops[i]))
  {
  }

  lemma ReplayStep(ops: seq<Record>, n: nat)
    requires 0 < n <= |ops|
    ensures Replay(ops, n) == DispatchOneOp(Replay(ops, n - 1), n - 1, ops[n - 1])
    ensures OpenSaves(ops, n) == StepOpen(OpenSaves(ops, n - 1), n - 1, ops[n - 1])
  {
  }

  /** The frames of a full replay are the open saves. */
  lemma {:induction false} FramesAreOpenSaves(ops: seq<Record>, n: nat)
    requires n <= |ops|
    ensures FramesName(ops, Replay(ops, n).frames, OpenSaves(ops, n))
  {
    if n > 0 {
      hide *;
      FramesAreOpenSaves(ops, n - 1);
      FramesFollow(ops, Replay(ops, n - 1), OpenSaves(ops, n - 1), n - 1);
      ReplayStep(ops, n);
      assert FramesName(ops, Replay(ops, n).frames, OpenSaves(ops, n));
    }
  }

  lemma ReplayAppend(ops: seq<Record>, indices: seq<nat>, i: nat)
    requires InRange(indices, |ops|) && i < |ops|
    ensures InRange(indices + [i], |ops|)
    ensures ReplayIndices(ops, indices + [i]) == DispatchOneOp(ReplayIndices(ops, indices), i, ops[i])
  {
    assert (indices + [i])[..|indices|] == indices;
  }

  lemma HitEventsAppend(events: seq<Event>, e: Event, hits: seq<nat>)
    ensures HitEvents(events + [e], hits) == HitEvents(events, hits) + (if e.index in hits then [e] else [])
  {
    assert (events + [e])[..|events|] == events;
  }
}
