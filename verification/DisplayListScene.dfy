/**
 What a record stream shows: for every drawing, the paint it reads and the transforms,
 clips and enclosing layers it is drawn under. Plain saves leave no trace of their own.
 */
module DisplayListScene {
  import opened Options
  import opened DisplayListTypes
  import opened DisplayListReplay

  /** An open layer: how its content is composed, and where. */
  datatype LayerFrame = LayerFrame(withPaint: bool, backdrop: Option<ImageFilter>, paint: Paint, outer: Context)

  datatype Level = Level(context: Context, layers: seq<LayerFrame>)

  datatype Drawn = Drawn(op: Record, paint: Paint, level: Level)

  datatype Scene = Scene(paint: Paint, below: seq<Level>, top: Level, drawn: seq<Drawn>)

  const EMPTY_SCENE := Scene(DEFAULT_PAINT, [], Level(Context([], []), []), [])

  function Enter(s: Scene, top: Level): Scene {
    s.(below := s.below + [s.top], top := top)
  }

  function Show(s: Scene, op: Record): Scene {
    var c := s.top.context;
    match op
    case AttributeOp(a) => s.(paint := a.ApplyTo(s.paint))
    case TransformRecord(t) => s.(top := s.top.(context := c.(matrix := c.matrix + [t])))
    case ClipRecord(rect, clipOp) =>
      s.(top := s.top.(context := c.(clip := c.clip + [ClipEntry(c.matrix, rect, clipOp)])))
    case SaveRecord(_, _) => Enter(s, s.top)
    case SaveLayerRecord(_, _, options, _, _, backdrop) =>
      Enter(s, s.top.(layers := s.top.layers + [LayerFrame(options.rendersWithAttributes, backdrop, s.paint, c)]))
    case RestoreRecord =>
      if s.below == [] then s else s.(below := s.below[..|s.below| - 1], top := s.below[|s.below| - 1])
    case DrawRecord(_) => s.(drawn := s.drawn + [Drawn(op, s.paint, s.top)])
    case DrawListRecord(_, _) => s.(drawn := s.drawn + [Drawn(op, s.paint, s.top)])
  }

  function ShowAll(ops: seq<Record>): Scene {
    if ops == [] then EMPTY_SCENE else Show(ShowAll(ops[..|ops| - 1]), ops[|ops| - 1])
  }

  lemma ShowMore(ops: seq<Record>, op: Record)
    ensures ShowAll(ops + [op]) == Show(ShowAll(ops), op)
  {
    assert (ops + [op])[..|ops|] == ops;
  }

  /** Two records that show alike: what a builder patches into saves later is not shown. */
  predicate ShowAlike(a: Record, b: Record) {
    || a == b
    || (a.SaveRecord? && b.SaveRecord?)
    || (a.SaveLayerRecord? && b.SaveLayerRecord? && a.backdrop == b.backdrop
        && a.options.rendersWithAttributes == b.options.rendersWithAttributes)
  }

  lemma {:induction false} ShowPatched(ops: seq<Record>, k: nat, r: Record)
    requires k < |ops| && ShowAlike(ops[k], r)
    ensures ShowAll(ops[k := r]) == ShowAll(ops)
  {
    var n := |ops| - 1;
    if k < n {
      ShowPatched(ops[..n], k, r);
      assert ops[k := r][..n] == ops[..n][k := r];
    } else {
      assert ops[k := r][..n] == ops[..n];
    }
  }

  // ------------------------------------------------ agreement with replay

  function LayersOf(frames: seq<Frame>): seq<LayerFrame> {
    if frames == [] then []
    else
      var last := frames[|frames| - 1];
      LayersOf(frames[..|frames| - 1]) +
      match last.save
      case SaveLayerRecord(_, _, options, _, _, backdrop) =>
        [LayerFrame(options.rendersWithAttributes, backdrop, last.paint, last.outer)]
      case _ => []
  }

  function ViewOf(e: Event): Drawn {
    Drawn(e.op, e.paint, Level(e.context, LayersOf(e.frames)))
  }

  ghost predicate ShowsReplay(s: Scene, r: Receiver) {
    && s.paint == r.paint
    && s.top == Level(r.context, LayersOf(r.frames))
    && |s.below| == |r.frames|
    && (forall k :: 0 <= k < |r.frames| ==> s.below[k] == Level(r.frames[k].outer, LayersOf(r.frames[..k])))
    && |s.drawn| == |r.drawn|
    && (forall k :: 0 <= k < |r.drawn| ==> s.drawn[k] == ViewOf(r.drawn[k]))
  }

  lemma ShowsStep(s: Scene, r: Receiver, index: nat, op: Record)
    requires ShowsReplay(s, r)
    ensures ShowsReplay(Show(s, op), DispatchOneOp(r, index, op))
  {
    if op.IsSave() {
      ShowsSave(s, r, index, op);
    } else if op.RestoreRecord? && r.frames != [] {
      ShowsRestore(s, r, index, op);
    } else {
      hide LayersOf;
    }
  }

  lemma ShowsSave(s: Scene, r: Receiver, index: nat, op: Record)
    requires ShowsReplay(s, r) && op.IsSave()
    ensures ShowsReplay(Show(s, op), DispatchOneOp(r, index, op))
  {
    hide LayersOf;
    var t := DispatchOneOp(r, index, op);
    LayersOfPush(r.frames, Frame(index, op, r.paint, r.context));
    forall k | 0 <= k < |t.frames|
      ensures Show(s, op).below[k] == Level(t.frames[k].outer, LayersOf(t.frames[..k]))
    {
      if k < |r.frames| {
        assert t.frames[..k] == r.frames[..k];
      } else {
        assert t.frames[..k] == r.frames;
      }
    }
  }

  lemma LayersOfPush(frames: seq<Frame>, f: Frame)
    ensures LayersOf(frames + [f]) == LayersOf(frames) +
      match f.save
      case SaveLayerRecord(_, _, options, _, _, backdrop) =>
        [LayerFrame(options.rendersWithAttributes, backdrop, f.paint, f.outer)]
      case _ => []
  {
    assert (frames + [f])[..|frames|] == frames;
  }

  lemma ShowsRestore(s: Scene, r: Receiver, index: nat, op: Record)
    requires ShowsReplay(s, r) && op.RestoreRecord? && r.frames != []
    ensures ShowsReplay(Show(s, op), DispatchOneOp(r, index, op))
  {
    hide LayersOf;
    var t := DispatchOneOp(r, index, op);
    var n := |r.frames| - 1;
    assert s.below[n] == Level(r.frames[n].outer, LayersOf(r.frames[..n]));
    assert forall k :: 0 <= k < n ==> t.frames[..k] == r.frames[..k];
  }

  /** The scene of a stream is its replay with the plain saves left out of sight. */
  lemma {:induction false} SceneIsReplay(ops: seq<Record>, n: nat)
    requires n <= |ops|
    ensures ShowsReplay(ShowAll(ops[..n]), Replay(ops, n))
  {
    if n > 0 {
      hide *;
      SceneIsReplay(ops, n - 1);
      assert ops[..n] == ops[..n - 1] + [ops[n - 1]];
      ShowMore(ops[..n - 1], ops[n - 1]);
      ShowsStep(ShowAll(ops[..n - 1]), Replay(ops, n - 1), n - 1, ops[n - 1]);
      ReplayStep(ops, n);
      assert ShowsReplay(ShowAll(ops[..n]), Replay(ops, n));
    } else {
      hide *;
      NothingShown(ops);
      assert ShowsReplay(ShowAll(ops[..n]), Replay(ops, n));
    }
  }

  lemma NothingShown(ops: seq<Record>)
    ensures ShowsReplay(ShowAll(ops[..0]), Replay(ops, 0))
  {
  }
}
