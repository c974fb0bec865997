/**
 What canvas calls mean for pixels, without a builder: a stack of matrices and exact
 clips, layers that keep what was drawn into them, and filters that spread it when a
 layer is restored. The result is the set of points each drawing may change.
 */
module DisplayListCanvas {
  import opened Options
  import opened DisplayListTypes
  import opened DisplayListPaint
  import opened DisplayListBuilderSpec
  import opened DisplayListGeometry

  /** Where the output of an image filter may depend on its input: `reaches` for device
      points under the matrix of its layer, `reachesLocal` for points of one drawing. */
  datatype FilterMeaning = FilterMeaning(reaches: (ImageFilter, Matrix, Point, Point) -> bool,
                                         reachesLocal: (ImageFilter, Point, Point) -> bool)

  predicate MapsDevice(fx: FilterBounds, f: ImageFilter, m: Matrix, r: Rect, q: Point, p: Point) {
    match fx.mapDevice(f, r, m)
    case Some(out) => r.Inside(q) ==> out.Inside(p)
    case None => true
  }

  predicate NeedsDevice(fx: FilterBounds, f: ImageFilter, m: Matrix, r: Rect, q: Point, p: Point) {
    match fx.inputDevice(f, r, m)
    case Some(needed) => r.Inside(p) ==> needed.Inside(q)
    case None => true
  }

  predicate MapsLocal(fx: FilterBounds, f: ImageFilter, r: Rect, q: Point, p: Point) {
    match fx.mapLocal(f, r)
    case Some(out) => r.Inside(q) ==> out.Inside(p)
    case None => true
  }

  /** The contract of a filter's bounds functions: where they answer, the answer holds
      every point that its output, or the input it needs, can reach; and the filter does
      the same to local points as to device points. */
  ghost predicate SoundFilter(fx: FilterBounds, fm: FilterMeaning, f: ImageFilter) {
    && (forall m, r: Rect, q, p {:trigger MapsDevice(fx, f, m, r, q, p)} ::
          fm.reaches(f, m, q, p) ==> MapsDevice(fx, f, m, r, q, p))
    && (forall m, r: Rect, q, p {:trigger NeedsDevice(fx, f, m, r, q, p)} ::
          fm.reaches(f, m, q, p) ==> NeedsDevice(fx, f, m, r, q, p))
    && (forall r: Rect, q, p {:trigger MapsLocal(fx, f, r, q, p)} ::
          fm.reachesLocal(f, q, p) ==> MapsLocal(fx, f, r, q, p))
    && (forall m: Matrix, q, p {:trigger fm.reaches(f, m, q, p)} ::
          m.IsInvertible() && fm.reaches(f, m, q, p) ==> fm.reachesLocal(f, m.Invert().Apply(q), m.Invert().Apply(p)))
  }

  ghost predicate SoundFor(fx: FilterBounds, fm: FilterMeaning, filters: iset<ImageFilter>) {
    forall f :: f in filters ==> SoundFilter(fx, fm, f)
  }

  /** The filter of the drawing, if there is one, keeps the contract. */
  ghost predicate DrawIsSound(fx: FilterBounds, fm: FilterMeaning, current: Paint, d: Draw) {
    var filter := PaintOf(current, d).imageFilter;
    filter.Some? ==> SoundFilter(fx, fm, filter.value)
  }

  /** All filters keep the contract. */
  ghost predicate Sound(fx: FilterBounds, fm: FilterMeaning) {
    forall f :: SoundFilter(fx, fm, f)
  }

  // -------------------------------------------------------------- the canvas

  /** How something is drawn: with a paint or plainly, in one go or in pieces that may lie
      over each other, and whether it has parts of its own, as layers and child lists do. */
  datatype Look = Look(paint: Paint, usesPaint: bool, once: bool, nested: bool)

  /** What a layer is put together from: single drawings, and whole layers drawn into it. */
  datatype Part = Part(id: nat, isContent: bool, look: Look) {
    /** Whether the builder lets it take over an opacity. */
    predicate Compatible() {
      look.once && (!look.usesPaint || IsOpacityCompatible(look.paint))
    }
  }

  /** A layer: how its content is composed into the layer below and which part of that one
      it becomes, the points it can hold, and those from which something can reach the surface. */
  datatype LayerSpec = LayerSpec(filter: Option<ImageFilter>, matrix: Matrix, effective: bool, part: Part,
                                 bounds: Option<Rect>, extent: iset<Point>, relevant: iset<Point>)

  datatype CanvasEntry = CanvasEntry(isLayer: bool, spec: LayerSpec, matrix: Matrix, clip: iset<Point>)

  /** A drawing, the part of the layer it belongs to, the paint it reads, and a point it may change. */
  datatype Mark = Mark(id: nat, part: Part, paint: Paint, point: Point)

  datatype Canvas = Canvas(paint: Paint, below: seq<CanvasEntry>, top: CanvasEntry, outer: seq<iset<Mark>>,
                           marks: iset<Mark>)

  predicate Anywhere(p: Point) {
    true
  }

  ghost function Everywhere(): iset<Point> {
    iset p: Point | Anywhere(p)
  }

  ghost function Interior(r: Rect): iset<Point> {
    iset p: Point | r.Inside(p)
  }

  ghost function StartCanvas(cull: Rect): Canvas {
    Canvas(DEFAULT_PAINT, [],
           CanvasEntry(true, LayerSpec(None, IDENTITY, true, Part(0, true, Look(DEFAULT_PAINT, false, true, true)),
                                       None, Everywhere(), Interior(cull)), IDENTITY, Everywhere()), [], iset{})
  }

  // --------------------------------------------------------------- drawing

  predicate Paintable(e: CanvasEntry, p: Point) {
    p in e.clip && p in e.spec.extent && e.matrix.IsInvertible()
  }

  predicate Blurred(paint: Paint, flags: AttributeFlags, q: Point, p: Point) {
    if flags.appliesMaskFilter && paint.maskBlur.Some? then
      var pad := paint.maskBlur.value * 3.0;
      -pad <= p.x - q.x <= pad && -pad <= p.y - q.y <= pad
    else p == q
  }

  predicate FilteredTo(fm: FilterMeaning, paint: Paint, flags: AttributeFlags, q: Point, p: Point) {
    if flags.appliesImageFilter && paint.imageFilter.Some? then fm.reachesLocal(paint.imageFilter.value, q, p)
    else p == q
  }

  /** The local points a drawing with bounds `r` changes, after its mask and image filters. */
  ghost predicate Reached(fm: FilterMeaning, paint: Paint, flags: AttributeFlags, r: Rect, p: Point) {
    exists q, blurred ::
      r.Inside(q) && Blurred(paint, flags, q, blurred) && FilteredTo(fm, paint, flags, blurred, p)
  }

  ghost predicate DrawTouches(fm: FilterMeaning, current: Paint, e: CanvasEntry, d: Draw, p: Point) {
    && PaintResult(PaintOf(current, d), d.flags) != NoEffect
    && Paintable(e, p)
    && (d.geometry.Flood? || Reached(fm, PaintOf(current, d), d.flags, d.geometry.bounds, e.matrix.Invert().Apply(p)))
  }

  predicate AnyInside(rects: seq<Rect>, p: Point) {
    exists k :: 0 <= k < |rects| && rects[k].Inside(p)
  }

  ghost predicate ListTouches(e: CanvasEntry, list: ChildList, opacity: real, p: Point) {
    && ListIsVisible(list, opacity)
    && Paintable(e, p)
    && (list.root.isUnbounded || AnyInside(list.rects, e.matrix.Invert().Apply(p)))
  }

  /** A layer changes points it was not drawn to: its backdrop, or its background. */
  ghost predicate LayerTouches(paint: Paint, e: CanvasEntry, withPaint: bool, backdrop: Option<ImageFilter>, p: Point) {
    && PaintResult(paint, SaveLayerFlags(withPaint)) != NoEffect
    && LayerFloods(paint, withPaint, backdrop)
    && Paintable(e, p)
  }

  /** Nothing is drawn over another part of the same drawing: strokes have a width, and
      outlines do not cross. */
  predicate InOneGo(p: Paint, d: Draw) {
    && !d.selfOverlaps
    && (d.mayBeHairline && (p.style == Stroke || p.style == StrokeAndFill) ==> p.strokeWidth > 0.0)
  }

  function DrawnPart(current: Paint, d: Draw, id: nat): Part {
    var p := PaintOf(current, d);
    Part(id, false, Look(p, d.flags.appliesBlend, InOneGo(p, d), false))
  }

  function ListPart(current: Paint, list: ChildList, id: nat): Part {
    Part(id, false, Look(current, false, list.root.canApplyGroupOpacity, true))
  }

  /** What a layer floods its parent with, and what its content is drawn as. */
  function LayerPart(current: Paint, withPaint: bool, id: nat, isContent: bool): Part {
    Part(id, isContent, Look(current, withPaint, true, isContent))
  }

  ghost function DrawMarks(fm: FilterMeaning, c: Canvas, d: Draw, id: nat): iset<Mark> {
    iset m: Mark |
      && m.id == id && m.part == DrawnPart(c.paint, d, id) && m.paint == PaintOf(c.paint, d)
      && DrawTouches(fm, c.paint, c.top, d, m.point)
  }

  ghost function ListMarks(c: Canvas, list: ChildList, opacity: real, id: nat): iset<Mark> {
    iset m: Mark |
      && m.id == id && m.part == ListPart(c.paint, list, id) && m.paint == c.paint
      && ListTouches(c.top, list, opacity, m.point)
  }

  ghost function LayerMarks(c: Canvas, withPaint: bool, backdrop: Option<ImageFilter>, id: nat): iset<Mark> {
    iset m: Mark |
      && m.id == id && m.part == LayerPart(c.paint, withPaint, id, false) && m.paint == c.paint
      && LayerTouches(c.paint, c.top, withPaint, backdrop, m.point)
  }

  // ---------------------------------------------------------------- layers

  predicate Composed(fm: FilterMeaning, filter: Option<ImageFilter>, m: Matrix, q: Point, p: Point) {
    match filter
    case None => p == q
    case Some(f) => fm.reaches(f, m, q, p)
  }

  /** What the layer below lets through. */
  predicate Shows(e: CanvasEntry, p: Point) {
    p in e.clip && p in e.spec.extent && p in e.spec.relevant
  }

  /** Layers hold points inside the bounds that a caller gave, up to the largest coordinates
      the builder culls with: in the space of the layer, and in device space with a filter. */
  predicate InExtent(filter: Option<ImageFilter>, m: Matrix, bounds: Option<Rect>, p: Point) {
    && (bounds.Some? ==> Within(m, bounds.value, p))
    && (m.IsInvertible() ==> MAX_CULL_RECT.Inside(m.Invert().Apply(p)))
    && (filter.Some? ==> MAX_CULL_RECT.Inside(p))
  }

  ghost predicate LeadsToSurface(fm: FilterMeaning, parent: CanvasEntry, filter: Option<ImageFilter>, q: Point) {
    exists p :: Composed(fm, filter, parent.matrix, q, p) && Shows(parent, p)
  }

  ghost function SpecOf(fm: FilterMeaning, parent: CanvasEntry, filter: Option<ImageFilter>, effective: bool,
                        part: Part, bounds: Option<Rect>): LayerSpec
  {
    LayerSpec(filter, parent.matrix, effective, part, bounds,
              iset p: Point | InExtent(filter, parent.matrix, bounds, p),
              iset p: Point | InExtent(filter, parent.matrix, bounds, p) && effective
              && LeadsToSurface(fm, parent, filter, p))
  }

  /** The filter that the content of a layer goes through. */
  function ContentFilter(paint: Paint, withPaint: bool): Option<ImageFilter> {
    match paint.imageFilter
    case Some(f) => if withPaint then Some(f) else None
    case None => None
  }

  ghost function CanvasSaveLayer(fm: FilterMeaning, c: Canvas, bounds: Option<Rect>, withPaint: bool,
                                 backdrop: Option<ImageFilter>, id: nat): Canvas
  {
    var effective := PaintResult(c.paint, SaveLayerFlags(withPaint)) != NoEffect;
    var part := LayerPart(c.paint, withPaint, id, true);
    var spec := SpecOf(fm, c.top, ContentFilter(c.paint, withPaint), effective, part, bounds);
    Canvas(c.paint, c.below + [c.top],
           CanvasEntry(true, spec, c.top.matrix, Everywhere()),
           c.outer + [c.marks + LayerMarks(c, withPaint, backdrop, id)], iset{})
  }

  /** A mark of a closing layer, seen through its filter and the clip below. */
  ghost predicate Surfaces(fm: FilterMeaning, closing: CanvasEntry, parent: CanvasEntry, marks: iset<Mark>, m: Mark) {
    && closing.spec.effective && m.part == closing.spec.part
    && m.point in parent.clip && m.point in parent.spec.extent
    && exists q, part ::
      Mark(m.id, part, m.paint, q) in marks && Composed(fm, closing.spec.filter, closing.spec.matrix, q, m.point)
  }

  ghost function Surfaced(fm: FilterMeaning, closing: CanvasEntry, parent: CanvasEntry, marks: iset<Mark>): iset<Mark> {
    iset m: Mark | Surfaces(fm, closing, parent, marks, m)
  }

  ghost function CanvasRestore(fm: FilterMeaning, c: Canvas): Canvas {
    if c.below == [] then c
    else
      var n := |c.below| - 1;
      var parent := c.below[n];
      if !c.top.isLayer || c.outer == [] then c.(below := c.below[..n], top := parent)
      else
        c.(below := c.below[..n], top := parent,
           outer := c.outer[..|c.outer| - 1],
           marks := c.outer[|c.outer| - 1] + Surfaced(fm, c.top, parent, c.marks))
  }

  ghost function CanvasRestoreToCount(fm: FilterMeaning, c: Canvas, count: int): Canvas
    decreases |c.below|
  {
    if c.below == [] || |c.below| + 1 <= count then c
    else CanvasRestoreToCount(fm, CanvasRestore(fm, c), count)
  }

  lemma RestoreShrinksCanvas(fm: FilterMeaning, c: Canvas)
    requires c.below != []
    ensures |CanvasRestore(fm, c).below| == |c.below| - 1
  {
    hide Surfaced;
  }

  // ------------------------------------------------------- transforms, clips

  function ConcatMatrix(m: Matrix, t: TransformOp): Matrix {
    if t.TransformReset? then IDENTITY else m.Times(MatrixOf(t))
  }

  /** A difference clip takes away the image with its edges. */
  ghost function ClipPoints(e: CanvasEntry, r: Rect, op: ClipOp): iset<Point> {
    iset p: Point | p in e.clip && if op == Intersect then Within(e.matrix, r, p) else !WithinClosed(e.matrix, r, p)
  }

  // ------------------------------------------------------------------ calls

  ghost function CanvasStep(fm: FilterMeaning, c: Canvas, call: Call, id: nat): Canvas {
    match call
    case SetAttributeCall(a) => c.(paint := a.ApplyTo(c.paint))
    case SaveCall => c.(below := c.below + [c.top], top := c.top.(isLayer := false))
    case SaveLayerCall(bounds, withPaint, backdrop) => CanvasSaveLayer(fm, c, bounds, withPaint, backdrop, id)
    case RestoreCall => CanvasRestore(fm, c)
    case RestoreToCountCall(count) => CanvasRestoreToCount(fm, c, count)
    case TransformCall(t) => c.(top := c.top.(matrix := ConcatMatrix(c.top.matrix, t)))
    case ClipCall(r, op) => c.(top := c.top.(clip := ClipPoints(c.top, r, op)))
    case DrawCall(d) => c.(marks := c.marks + DrawMarks(fm, c, d, id))
    case DrawListCall(list, opacity) => c.(marks := c.marks + ListMarks(c, list, opacity, id))
  }

  /** The marks of a call, if they are kept. */
  ghost function KeptMarks(kept: bool, marks: iset<Mark>): iset<Mark> {
    if kept then marks else iset{}
  }

  /** A call whose own marks may be left out; its layer and all else stay. */
  ghost function KeptStep(fm: FilterMeaning, c: Canvas, call: Call, id: nat, kept: bool): Canvas {
    match call
    case SaveLayerCall(bounds, withPaint, backdrop) =>
      CanvasSaveLayer(fm, c, bounds, withPaint, backdrop, id).(
        outer := c.outer + [c.marks + KeptMarks(kept, LayerMarks(c, withPaint, backdrop, id))])
    case DrawCall(d) => c.(marks := c.marks + KeptMarks(kept, DrawMarks(fm, c, d, id)))
    case DrawListCall(list, opacity) => c.(marks := c.marks + KeptMarks(kept, ListMarks(c, list, opacity, id)))
    case _ => CanvasStep(fm, c, call, id)
  }

  lemma KeepingAll(fm: FilterMeaning, c: Canvas, call: Call, id: nat)
    ensures KeptStep(fm, c, call, id, true) == CanvasStep(fm, c, call, id)
  {
    hide DrawMarks, ListMarks, LayerMarks, SpecOf, PaintResult, CanvasRestore, CanvasRestoreToCount, ClipPoints,
      ConcatMatrix;
  }

  /** The canvas after the calls; each is identified by the index that the next record
      of the builder has when the call is made. */
  ghost function CanvasRun(fx: FilterBounds, fm: FilterMeaning, cull: Rect, calls: seq<Call>): Canvas {
    if calls == [] then StartCanvas(cull)
    else
      var init := calls[..|calls| - 1];
      CanvasStep(fm, CanvasRun(fx, fm, cull, init), calls[|calls| - 1], |Run(fx, cull, init).records|)
  }

  ghost function CanvasFinished(fx: FilterBounds, fm: FilterMeaning, cull: Rect, calls: seq<Call>): Canvas {
    CanvasRestoreToCount(fm, CanvasRun(fx, fm, cull, calls), 1)
  }

  /** The matrix is never reset while it is singular: something a caller can check. */
  ghost predicate ResetsInvertible(fx: FilterBounds, fm: FilterMeaning, cull: Rect, calls: seq<Call>) {
    forall k :: 0 <= k < |calls| && calls[k] == TransformCall(TransformReset) ==>
      CanvasRun(fx, fm, cull, calls[..k]).top.matrix.IsInvertible()
  }
}
