/**
 The display-list builder as functions on its state: what every canvas call does
 to the records, the save stack, the layers, the depth and the r-tree rectangles.
 The class `DisplayListBuilder` is proved against these functions.
 */
module DisplayListBuilderSpec {
  import opened Options
  import opened DisplayListTypes
  import opened DisplayListPaint

  /** What an image filter promises about bounds; None where it cannot promise anything. */
  datatype FilterBounds = FilterBounds(mapDevice: (ImageFilter, Rect, Matrix) -> Option<Rect>,
                                       inputDevice: (ImageFilter, Rect, Matrix) -> Option<Rect>,
                                       mapLocal: (ImageFilter, Rect) -> Option<Rect>)

  // ------------------------------------------------------- matrix and clip

  /** `DisplayListMatrixClipState`: a matrix, and a box around the current clip. */
  datatype Tracker = Tracker(cull: Rect, matrix: Matrix) {

    function MapAndClip(r: Rect): Option<Rect> {
      matrix.MapBounds(r).Intersection(cull)
    }

    function ClipRect(r: Rect, op: ClipOp): Tracker {
      if cull.IsEmpty() then this
      else
        match op
        case Intersect =>
          if r.IsEmpty() then this.(cull := EMPTY_RECT)
          else this.(cull := cull.IntersectionOrEmpty(matrix.MapBounds(r)))
        case Difference =>
          if r.IsEmpty() then this
          else this.(cull := cull.CutoutOrEmpty(matrix.MapBounds(r)))
    }

    function ResetCull(r: Rect): Tracker {
      this.(cull := ProtectEmpty(r))
    }

    function LocalCullCoverage(): Rect {
      if cull.IsEmpty() || !matrix.IsInvertible() then EMPTY_RECT
      else matrix.Invert().MapBounds(cull)
    }

    predicate RectCoversCull(r: Rect) {
      !r.IsEmpty() && (cull.IsEmpty() || matrix.MapBounds(r).Contains(cull))
    }

    function Concat(m: Matrix): Tracker {
      this.(matrix := matrix.Times(m))
    }
  }

  function ProtectEmpty(r: Rect): Rect {
    if r.IsEmpty() then EMPTY_RECT else r
  }

  const SINGULAR := Matrix(0.0, 0.0, 0.0, 0.0)

  /** Translations by zero and scales by one are not recorded. */
  predicate ChangesMatrix(t: TransformOp) {
    match t
    case Translate(tx, ty) => tx != 0.0 || ty != 0.0
    case Scale(sx, sy) => sx != 1.0 || sy != 1.0
    case TransformReset => true
  }

  function MatrixOf(t: TransformOp): Matrix
    requires !t.TransformReset?
  {
    match t
    case Translate(tx, ty) => Matrix(1.0, 1.0, tx, ty)
    case Scale(sx, sy) => Matrix(sx, sy, 0.0, 0.0)
  }

  // ----------------------------------------------------------- the layers

  /** `AccumulationRect`: the bounds so far (None before the first), and whether
      a rectangle met the bounds gathered before it. */
  datatype Accumulation = Accumulation(bounds: Option<Rect>, overlaps: bool) {

    function Add(r: Rect): Accumulation {
      if r.IsEmpty() then this
      else
        match bounds
        case None => Accumulation(Some(r), overlaps)
        case Some(b) =>
          var joined := Rect(Min(b.left, r.left), Min(b.top, r.top), Max(b.right, r.right), Max(b.bottom, r.bottom));
          Accumulation(Some(joined),
                       overlaps || (r.left < b.right && b.left < r.right && r.top < b.bottom && b.top < r.bottom))
    }

    function GetBounds(): Rect {
      if bounds.Some? then bounds.value else EMPTY_RECT
    }
  }

  datatype LayerFlags = LayerFlags(opacityIncompatible: bool, affectsTransparent: bool,
                                   containsBackdrop: bool, isUnbounded: bool)

  datatype LayerInfo = LayerInfo(filter: Option<ImageFilter>, rtreeStart: nat, localBounds: Accumulation,
                                 maxBlendMode: BlendMode, flags: LayerFlags)
  {
    predicate IsGroupOpacityCompatible() {
      !flags.opacityIncompatible && !localBounds.overlaps
    }

    function UpdateOpacityCompatibility(compatible: bool): LayerInfo {
      if compatible then this else this.(flags := flags.(opacityIncompatible := true))
    }

    function UpdateResult(result: OpResult, mode: BlendMode): LayerInfo {
      this.(maxBlendMode := if maxBlendMode.Rank() < mode.Rank() then mode else maxBlendMode,
            flags := if result == AffectsAll then flags.(affectsTransparent := true) else flags)
    }

    function MarkBackdrop(contains: bool): LayerInfo {
      if contains then this.(flags := flags.(containsBackdrop := true)) else this
    }

    function MarkUnbounded(unbounded: bool): LayerInfo {
      if unbounded then this.(flags := flags.(isUnbounded := true)) else this
    }

    function AddLocal(r: Rect): LayerInfo {
      this.(localBounds := localBounds.Add(r))
    }
  }

  function NewLayer(filter: Option<ImageFilter>, rtreeStart: nat): LayerInfo {
    LayerInfo(filter, rtreeStart, Accumulation(None, false), Clear, LayerFlags(false, false, false, false))
  }

  /** What the save stack remembers about the record of an entry. */
  datatype SaveMark = SaveMark(isSaveLayer: bool, deferred: bool, saveDepth: nat, saveOffset: nat)

  datatype SaveInfo = SaveInfo(mark: SaveMark, isNop: bool, hasValidClip: bool, global: Tracker, layer: Tracker)

  datatype RTreeData = RTreeData(rects: seq<Rect>, indices: seq<nat>) {
    function Add(r: Rect, id: nat): RTreeData {
      RTreeData(rects + [r], indices + [id])
    }
  }

  // ------------------------------------------------------------- the state

  /** `below` and `top` are the save stack, `outer` and `layer` the layers its
      save-layer entries point to. The next record's index is `|records|`. */
  datatype BuilderState = BuilderState(records: seq<Record>, depth: nat, below: seq<SaveInfo>, top: SaveInfo,
                                       outer: seq<LayerInfo>, layer: LayerInfo, rtree: RTreeData, paint: Paint)

  function Init(cull: Rect): BuilderState {
    var root := Tracker(ProtectEmpty(cull), IDENTITY);
    BuilderState([], 0, [], SaveInfo(SaveMark(true, false, 0, 0), cull.IsEmpty(), false, root, root),
                 [], NewLayer(None, 0), RTreeData([], []), DEFAULT_PAINT)
  }

  /** A mask filter doubles the depth of every operation drawn under it. */
  function DepthCost(p: Paint): nat {
    if p.maskBlur.Some? then 2 else 1
  }

  function DepthInc(r: Record): nat {
    match r
    case DrawRecord(d) => d.depthInc
    case DrawListRecord(_, _) => 1
    case _ => 0
  }

  function Push(s: BuilderState, r: Record): BuilderState {
    s.(records := s.records + [r], depth := s.depth + DepthInc(r) * DepthCost(s.paint))
  }

  function CheckForDeferredSave(s: BuilderState): BuilderState {
    if s.top.mark.deferred then
      Push(s, SaveRecord(0, 0)).(top := s.top.(mark := SaveMark(s.top.mark.isSaveLayer, false, s.depth, |s.records|)))
    else s
  }

  function SetAttribute(s: BuilderState, a: Attribute): BuilderState {
    if a.ApplyTo(s.paint) == s.paint then s
    else Push(s, AttributeOp(a)).(paint := a.ApplyTo(s.paint))
  }

  /** The cached opacity compatibility of the current paint. */
  predicate IsOpacityCompatible(p: Paint) {
    && p.colorFilter.None?
    && !p.invertColors
    && !(p.colorSource.Some? && p.colorSource.value.isRuntimeEffect)
    && !(p.imageFilter.Some? && p.imageFilter.value.isRuntimeEffect)
    && p.blendMode == SrcOver
  }

  function ResultOf(info: SaveInfo, p: Paint, flags: AttributeFlags): OpResult {
    if info.isNop then NoEffect else PaintResult(p, flags)
  }

  // ----------------------------------------------------------- transforms

  function Transformed(info: SaveInfo, t: TransformOp): SaveInfo {
    match t
    case TransformReset =>
      info.(global := info.global.(matrix := IDENTITY),
            layer := if info.global.matrix.IsInvertible() then info.layer.Concat(info.global.matrix.Invert())
                     else info.layer.(matrix := SINGULAR))
    case _ =>
      info.(global := info.global.Concat(MatrixOf(t)), layer := info.layer.Concat(MatrixOf(t)))
  }

  function Transform(s: BuilderState, t: TransformOp): BuilderState {
    if !ChangesMatrix(t) then s
    else
      var u := Push(CheckForDeferredSave(s), TransformRecord(t));
      u.(top := Transformed(u.top, t))
  }

  // ---------------------------------------------------------------- clips

  function Clipped(info: SaveInfo, r: Rect, op: ClipOp): SaveInfo {
    info.(global := info.global.ClipRect(r, op), layer := info.layer.ClipRect(r, op))
  }

  predicate ClipIsRedundant(info: SaveInfo, r: Rect, op: ClipOp) {
    info.hasValidClip && op == Intersect && info.layer.RectCoversCull(r)
  }

  predicate CullIsEmpty(info: SaveInfo) {
    info.global.cull.IsEmpty() || info.layer.cull.IsEmpty()
  }

  function Clip(s: BuilderState, r: Rect, op: ClipOp): BuilderState {
    if s.top.isNop || ClipIsRedundant(s.top, r, op) then s
    else
      var clipped := Clipped(s.top, r, op);
      if CullIsEmpty(clipped) then s.(top := clipped.(isNop := true))
      else Push(CheckForDeferredSave(s.(top := clipped.(hasValidClip := true))), ClipRecord(r, op))
  }

  // --------------------------------------------------------- accumulation

  /** The layer and the r-tree after something was added, and whether it was. */
  datatype Accumulated = Accumulated(layer: LayerInfo, rtree: RTreeData, ok: bool)

  function AccumulateUnbounded(layer: LayerInfo, rtree: RTreeData, info: SaveInfo, id: nat): Accumulated {
    var marked := layer.MarkUnbounded(!info.hasValidClip);
    match info.layer.MapAndClip(info.global.LocalCullCoverage())
    case None => Accumulated(marked, rtree, false)
    case Some(local) =>
      if info.global.cull.IsEmpty() then Accumulated(marked, rtree, false)
      else Accumulated(marked.AddLocal(local), rtree.Add(info.global.cull, id), true)
  }

  function AccumulateBounds(layer: LayerInfo, rtree: RTreeData, info: SaveInfo, id: nat, r: Rect): Accumulated {
    if r.IsEmpty() then Accumulated(layer, rtree, false)
    else
      var global, local := info.global.MapAndClip(r), info.layer.MapAndClip(r);
      if global.Some? && local.Some? then
        Accumulated(layer.AddLocal(local.value), rtree.Add(global.value, id), true)
      else Accumulated(layer, rtree, false)
  }

  function AccumulateBoundsLocal(layer: LayerInfo, info: SaveInfo, r: Rect): LayerInfo {
    if r.IsEmpty() then layer
    else
      match info.layer.MapAndClip(r)
      case None => layer
      case Some(local) => layer.AddLocal(local)
  }

  /** What the mask filter and the image filter of a paint do to the bounds of a drawing. */
  function AdjustBoundsForPaint(fx: FilterBounds, p: Paint, flags: AttributeFlags, r: Rect): Option<Rect> {
    var masked := if flags.appliesMaskFilter && p.maskBlur.Some? then r.Expand(p.maskBlur.value * 3.0) else r;
    if flags.appliesImageFilter && p.imageFilter.Some? then fx.mapLocal(p.imageFilter.value, masked)
    else Some(masked)
  }

  function AccumulateOpBounds(fx: FilterBounds, s: BuilderState, p: Paint, flags: AttributeFlags,
                              r: Rect): Accumulated {
    match AdjustBoundsForPaint(fx, p, flags, r)
    case Some(bounds) => AccumulateBounds(s.layer, s.rtree, s.top, |s.records|, bounds)
    case None => AccumulateUnbounded(s.layer, s.rtree, s.top, |s.records|)
  }

  function AccumulateGeometry(fx: FilterBounds, s: BuilderState, d: Draw): Accumulated {
    match d.geometry
    case Flood => AccumulateUnbounded(s.layer, s.rtree, s.top, |s.records|)
    case Box(r) => AccumulateOpBounds(fx, s, PaintOf(s.paint, d), d.flags, r)
  }

  /** Adds each rectangle of a child list; one of them inside the clip is enough. */
  function AccumulateRects(layer: LayerInfo, rtree: RTreeData, info: SaveInfo, id: nat, rects: seq<Rect>): Accumulated {
    if rects == [] then Accumulated(layer, rtree, false)
    else
      var before := AccumulateRects(layer, rtree, info, id, rects[..|rects| - 1]);
      var now := AccumulateBounds(before.layer, before.rtree, info, id, rects[|rects| - 1]);
      now.(ok := before.ok || now.ok)
  }

  // -------------------------------------------------------------- drawing

  /** Nothing in the drawing lies over another part of it, and no stroke is a hairline. */
  predicate DrawsOnce(p: Paint, d: Draw) {
    !d.selfOverlaps && !(d.mayBeHairline && p.style != Fill && p.strokeWidth <= 0.0)
  }

  /** Whether an operation can pass an inherited opacity on. */
  predicate DrawIsOpacityCompatible(current: Paint, d: Draw) {
    var p := PaintOf(current, d);
    DrawsOnce(p, d) && (!d.flags.appliesBlend || IsOpacityCompatible(p))
  }

  function BlendModeOf(p: Paint, usesAttributes: bool): BlendMode {
    if usesAttributes then p.blendMode else SrcOver
  }

  function DrawOp(fx: FilterBounds, s: BuilderState, d: Draw): BuilderState {
    var result := ResultOf(s.top, PaintOf(s.paint, d), d.flags);
    if result == NoEffect then s
    else
      var acc := AccumulateGeometry(fx, s, d);
      if !acc.ok then s.(layer := acc.layer, rtree := acc.rtree)
      else
        Push(s, DrawRecord(d)).(
          rtree := acc.rtree,
          layer := acc.layer.UpdateOpacityCompatibility(DrawIsOpacityCompatible(s.paint, d))
                            .UpdateResult(result, BlendModeOf(PaintOf(s.paint, d), d.flags.appliesBlend)))
  }

  const NEARLY_ZERO := 1.0 / 4096.0

  /** A child list that is transparent or empty is not drawn at all. */
  predicate ListIsVisible(list: ChildList, opacity: real) {
    opacity > NEARLY_ZERO && list.opCount != 0 && !list.bounds.IsEmpty()
  }

  /** What a child list means for the layer it is drawn into. */
  function LayerAfterList(layer: LayerInfo, list: ChildList): LayerInfo {
    layer.UpdateOpacityCompatibility(list.root.canApplyGroupOpacity)
         .UpdateResult(if list.root.modifiesTransparentBlack then AffectsAll else PreservesTransparency,
                       list.root.maxBlendMode)
         .MarkBackdrop(list.root.hasBackdropFilter)
  }

  function DrawDisplayList(s: BuilderState, list: ChildList, opacity: real): BuilderState {
    if !ListIsVisible(list, opacity) || s.top.isNop then s
    else
      var acc :=
        if list.root.isUnbounded then AccumulateUnbounded(s.layer, s.rtree, s.top, |s.records|)
        else AccumulateRects(s.layer, s.rtree, s.top, |s.records|, list.rects);
      if !acc.ok then s.(layer := acc.layer, rtree := acc.rtree)
      else
        var t := Push(s, DrawListRecord(list, Min(opacity, 1.0)));
        t.(depth := t.depth + list.totalDepth, rtree := acc.rtree, layer := LayerAfterList(acc.layer, list))
  }

  // ----------------------------------------------------------------- save

  function Save(s: BuilderState): BuilderState {
    s.(below := s.below + [s.top], top := s.top.(mark := SaveMark(false, true, 0, 0)))
  }

  function SaveLayerFlags(withPaint: bool): AttributeFlags {
    if withPaint then SAVE_LAYER_WITH_PAINT_FLAGS else IGNORES_PAINT_FLAGS
  }

  /** A layer floods the clip of its parent when it has a backdrop, or when its paint
      changes pixels that the layer leaves transparent. */
  predicate LayerFloods(p: Paint, withPaint: bool, backdrop: Option<ImageFilter>) {
    backdrop.Some? || (withPaint && !PaintNopsOnTransparency(p))
  }

  /** The outer layer's share of a saveLayer. */
  function AccumulateLayer(s: BuilderState, withPaint: bool, backdrop: Option<ImageFilter>): Accumulated {
    var result := PaintResult(s.paint, SaveLayerFlags(withPaint));
    var layer := s.layer.MarkBackdrop(backdrop.Some?)
                        .UpdateOpacityCompatibility(!withPaint || IsOpacityCompatible(s.paint))
                        .UpdateResult(result, BlendModeOf(s.paint, withPaint));
    if LayerFloods(s.paint, withPaint, backdrop) then AccumulateUnbounded(layer, s.rtree, s.top, |s.records|)
    else Accumulated(layer, s.rtree, true)
  }

  /** The clip to cull with inside a layer: everything its filter may need. */
  function LayerCull(fx: FilterBounds, global: Tracker, filter: Option<ImageFilter>): Tracker {
    match filter
    case None => global
    case Some(f) =>
      match fx.inputDevice(f, global.cull.RoundOut(), global.matrix)
      case Some(input) => global.ResetCull(input)
      case None => global.ResetCull(MAX_CULL_RECT)
  }

  function LayerEntry(fx: FilterBounds, s: BuilderState, filter: Option<ImageFilter>, bounds: Option<Rect>): SaveInfo {
    var global := LayerCull(fx, s.top.global, filter);
    SaveInfo(SaveMark(true, false, s.depth, |s.records|), false, false,
             if bounds.Some? then global.ClipRect(bounds.value, Intersect) else global,
             Tracker(MAX_CULL_RECT, IDENTITY))
  }

  function NewSaveLayerRecord(withPaint: bool, bounds: Option<Rect>, backdrop: Option<ImageFilter>): Record {
    SaveLayerRecord(0, 0, SaveLayerOptions(withPaint, false, bounds.Some?, false, false, false),
                    if bounds.Some? then bounds.value else EMPTY_RECT, Clear, backdrop)
  }

  function LayerFilter(p: Paint, withPaint: bool): Option<ImageFilter> {
    if withPaint then p.imageFilter else None
  }

  /** The entry, the layer and the record of a new layer. */
  function EnterLayer(fx: FilterBounds, s: BuilderState, bounds: Option<Rect>, withPaint: bool,
                      backdrop: Option<ImageFilter>): BuilderState
  {
    var filter := LayerFilter(s.paint, withPaint);
    Push(s.(below := s.below + [s.top],
            top := LayerEntry(fx, s, filter, bounds),
            outer := s.outer + [s.layer],
            layer := NewLayer(filter, |s.rtree.rects|)
                       .UpdateOpacityCompatibility(!withPaint || (IsOpacityCompatible(s.paint) && filter.None?))),
         NewSaveLayerRecord(withPaint, bounds, backdrop))
  }

  function SaveLayer(fx: FilterBounds, s: BuilderState, bounds: Option<Rect>, withPaint: bool,
                     backdrop: Option<ImageFilter>): BuilderState
  {
    if ResultOf(s.top, s.paint, SaveLayerFlags(withPaint)) == NoEffect then
      var t := Save(s);
      t.(top := t.top.(isNop := true))
    else
      var acc := AccumulateLayer(s, withPaint, backdrop);
      EnterLayer(fx, s.(layer := acc.layer, rtree := acc.rtree), bounds, withPaint, backdrop)
  }

  // -------------------------------------------------------------- restore

  /** One r-tree rectangle after the filter of its layer, inside the outer clip. */
  function AdjustRect(fx: FilterBounds, filter: ImageFilter, matrix: Matrix, clip: Rect, r: Rect): Option<Rect> {
    match fx.mapDevice(filter, r.RoundOut(), matrix)
    case Some(mapped) => mapped.Intersection(clip)
    case None => clip.Intersection(clip)
  }

  predicate RectFloods(fx: FilterBounds, filter: ImageFilter, matrix: Matrix, r: Rect) {
    fx.mapDevice(filter, r.RoundOut(), matrix).None?
  }

  /** The entries before `start` untouched, those from `start` to `n` adjusted, in
      order, without those that miss the clip. */
  function AdjustRTreeRects(fx: FilterBounds, filter: ImageFilter, matrix: Matrix, clip: Rect,
                            data: RTreeData, start: nat, n: nat): RTreeData
    requires start <= n <= |data.rects| == |data.indices|
  {
    if n == start then RTreeData(data.rects[..start], data.indices[..start])
    else
      var before := AdjustRTreeRects(fx, filter, matrix, clip, data, start, n - 1);
      match AdjustRect(fx, filter, matrix, clip, data.rects[n - 1])
      case Some(r) => before.Add(r, data.indices[n - 1])
      case None => before
  }

  predicate AnyRectFloods(fx: FilterBounds, filter: ImageFilter, matrix: Matrix, data: RTreeData, start: nat) {
    exists k :: start <= k < |data.rects| && RectFloods(fx, filter, matrix, data.rects[k])
  }

  predicate CanAdjust(data: RTreeData, start: nat) {
    start <= |data.rects| == |data.indices|
  }

  /** The content bounds of the closing layer, cut to the bounds its caller gave. */
  function ContentBounds(layer: LayerInfo, record: Record): Rect
    requires record.SaveLayerRecord?
  {
    var content := layer.localBounds.GetBounds();
    if ContentIsClipped(layer, record) then content.IntersectionOrEmpty(record.bounds) else content
  }

  predicate ContentIsClipped(layer: LayerInfo, record: Record)
    requires record.SaveLayerRecord?
  {
    var content := layer.localBounds.GetBounds();
    record.options.boundsFromCaller && !content.IsEmpty() && !record.bounds.Contains(content)
  }

  /** The record of a closing layer with everything learned about its content. */
  function SettledLayer(record: Record, layer: LayerInfo): Record
    requires record.SaveLayerRecord?
  {
    record.(bounds := ContentBounds(layer, record),
            maxBlendMode := layer.maxBlendMode,
            options := record.options.(
              contentIsClipped := record.options.contentIsClipped || ContentIsClipped(layer, record),
              containsBackdropFilter := record.options.containsBackdropFilter || layer.flags.containsBackdrop,
              canDistributeOpacity := record.options.canDistributeOpacity || layer.IsGroupOpacityCompatible(),
              contentIsUnbounded := record.options.contentIsUnbounded || layer.flags.isUnbounded))
  }

  /** Hands the bounds of a closing layer to its parent: local bounds to the parent's
      local bounds, and the r-tree entries through the filter. */
  function TransferLayerBounds(fx: FilterBounds, layer: LayerInfo, rtree: RTreeData, parent: SaveInfo,
                               parentLayer: LayerInfo, id: nat, content: Rect): Accumulated
  {
    match layer.filter
    case None => Accumulated(AccumulateBoundsLocal(parentLayer, parent, content), rtree, true)
    case Some(f) =>
      if !CanAdjust(rtree, layer.rtreeStart) then Accumulated(parentLayer, rtree, false)
      else
        var adjusted :=
          AdjustRTreeRects(fx, f, parent.global.matrix, parent.global.cull, rtree, layer.rtreeStart, |rtree.rects|);
        var mapped := fx.mapLocal(f, content);
        if AnyRectFloods(fx, f, parent.global.matrix, rtree, layer.rtreeStart)
          || (!content.IsEmpty() && mapped.None?) then
          AccumulateUnbounded(parentLayer, adjusted, parent, id)
        else
          Accumulated(AccumulateBoundsLocal(parentLayer, parent, if content.IsEmpty() then content else mapped.value),
                      adjusted, true)
  }

  function PatchSave(record: Record, restoreIndex: nat, contentDepth: int): Record
    requires record.IsSave()
  {
    if record.SaveRecord? then SaveRecord(restoreIndex, contentDepth)
    else record.(restoreIndex := restoreIndex, contentDepth := contentDepth)
  }

  predicate NamesItsSave(s: BuilderState) {
    && s.top.mark.saveOffset < |s.records|
    && (if s.top.mark.isSaveLayer then s.records[s.top.mark.saveOffset].SaveLayerRecord?
        else s.records[s.top.mark.saveOffset].SaveRecord?)
  }

  /** Settles the record of the top entry, merges a closing layer into its parent, and
      records the restore. A closing layer always has a parent in `outer`. */
  function CloseEntry(fx: FilterBounds, s: BuilderState): BuilderState
    requires s.below != [] && NamesItsSave(s)
  {
    var offset := s.top.mark.saveOffset;
    var patched := PatchSave(s.records[offset], |s.records|, s.depth - s.top.mark.saveDepth);
    if !s.top.mark.isSaveLayer || s.outer == [] then
      Push(s.(records := s.records[offset := patched]), RestoreRecord)
    else
      var acc := TransferLayerBounds(fx, s.layer, s.rtree, s.below[|s.below| - 1], s.outer[|s.outer| - 1], |s.records|,
                                     ContentBounds(s.layer, patched));
      Push(s.(records := s.records[offset := SettledLayer(patched, s.layer)],
              depth := s.depth + DepthCost(s.paint),
              outer := s.outer[..|s.outer| - 1],
              layer := acc.layer,
              rtree := acc.rtree),
           RestoreRecord)
  }

  /** Closes the top entry. `NamesItsSave` always holds where it is asked for; the
      source checks it before it patches the record. */
  function Restore(fx: FilterBounds, s: BuilderState): BuilderState {
    if s.below == [] then s
    else
      var closed := if s.top.mark.deferred || !NamesItsSave(s) then s else CloseEntry(fx, s);
      closed.(below := s.below[..|s.below| - 1], top := s.below[|s.below| - 1])
  }

  /** Restores until at most `count` entries, and at least one, are left. */
  function RestoreToCount(fx: FilterBounds, s: BuilderState, count: int): BuilderState
    decreases |s.below|
  {
    if s.below == [] || |s.below| + 1 <= count then s
    else RestoreToCount(fx, Restore(fx, s), count)
  }

  // ------------------------------------------------------------ call lists

  datatype Call =
    | SetAttributeCall(attribute: Attribute)
    | SaveCall
    | SaveLayerCall(bounds: Option<Rect>, withPaint: bool, backdrop: Option<ImageFilter>)
    | RestoreCall
    | RestoreToCountCall(count: int)
    | TransformCall(transform: TransformOp)
    | ClipCall(rect: Rect, clipOp: ClipOp)
    | DrawCall(draw: Draw)
    | DrawListCall(list: ChildList, opacity: real)

  function Step(fx: FilterBounds, s: BuilderState, call: Call): BuilderState {
    match call
    case SetAttributeCall(a) => SetAttribute(s, a)
    case SaveCall => Save(s)
    case SaveLayerCall(bounds, withPaint, backdrop) => SaveLayer(fx, s, bounds, withPaint, backdrop)
    case RestoreCall => Restore(fx, s)
    case RestoreToCountCall(count) => RestoreToCount(fx, s, count)
    case TransformCall(t) => Transform(s, t)
    case ClipCall(r, op) => Clip(s, r, op)
    case DrawCall(d) => DrawOp(fx, s, d)
    case DrawListCall(list, opacity) => DrawDisplayList(s, list, opacity)
  }

  function Run(fx: FilterBounds, cull: Rect, calls: seq<Call>): BuilderState {
    if calls == [] then Init(cull)
    else Step(fx, Run(fx, cull, calls[..|calls| - 1]), calls[|calls| - 1])
  }

  /** The state that `Build` packs into a display list: every entry closed. */
  function Finished(fx: FilterBounds, cull: Rect, calls: seq<Call>): BuilderState {
    RestoreToCount(fx, Run(fx, cull, calls), 1)
  }

  // -------------------------------------------------------------- the list

  datatype DisplayList = DisplayList(records: seq<Record>, totalDepth: nat, rtree: RTreeData, root: RootProperties)

  function Packed(s: BuilderState): DisplayList {
    DisplayList(s.records, s.depth, s.rtree,
                RootProperties(s.layer.flags.isUnbounded, s.layer.flags.containsBackdrop, s.layer.maxBlendMode,
                               s.layer.IsGroupOpacityCompatible(), s.layer.flags.affectsTransparent))
  }
}
