/**
 Values shared by every part of the display-list model: rectangles and
 axis-aligned matrices over exact reals, the rendering attributes of a paint,
 and the record types of a display list.
 */
module DisplayListTypes {
  import opened Options

  // ------------------------------------------------------- ordered sequences

  ghost predicate Ascending(ids: seq<nat>) {
    forall j, k :: 0 <= j < k < |ids| ==> ids[j] <= ids[k]
  }

  ghost predicate StrictlyAscending(ids: seq<nat>) {
    forall j, k :: 0 <= j < k < |ids| ==> ids[j] < ids[k]
  }

  // ---------------------------------------------------------------- geometry

  function Min(a: real, b: real): real {
    if a < b then a else b
  }

  function Max(a: real, b: real): real {
    if a < b then b else a
  }

  datatype Point = Point(x: real, y: real)

  /** A rectangle. The area it covers is its interior, so a rectangle is empty
      exactly when no point lies inside it. */
  datatype Rect = Rect(left: real, top: real, right: real, bottom: real) {

    predicate IsEmpty() {
      !(left < right && top < bottom)
    }

    predicate Inside(p: Point) {
      left < p.x < right && top < p.y < bottom
    }

    predicate Contains(o: Rect) {
      !IsEmpty() &&
      (o.IsEmpty() || (left <= o.left && top <= o.top && o.right <= right && o.bottom <= bottom))
    }

    predicate Intersects(o: Rect) {
      !IsEmpty() && !o.IsEmpty() &&
      left < o.right && top < o.bottom && o.left < right && o.top < bottom
    }

    function Intersection(o: Rect): Option<Rect> {
      if Intersects(o) then
        Some(Rect(Max(left, o.left), Max(top, o.top), Min(right, o.right), Min(bottom, o.bottom)))
      else
        None
    }

    function IntersectionOrEmpty(o: Rect): Rect {
      match Intersection(o)
      case Some(r) => r
      case None => EMPTY_RECT
    }

    /** The bounding rectangle of what is left after cutting `o` out. */
    function CutoutOrEmpty(o: Rect): Rect {
      if IsEmpty() then
        EMPTY_RECT
      else if o.left <= left && right <= o.right then
        if o.top <= top && bottom <= o.bottom then
          EMPTY_RECT
        else if o.top <= top && top < o.bottom then
          Rect(left, o.bottom, right, bottom)
        else if bottom <= o.bottom && o.top < bottom then
          Rect(left, top, right, o.top)
        else
          this
      else if o.top <= top && bottom <= o.bottom then
        if o.left <= left && left < o.right then
          Rect(o.right, top, right, bottom)
        else if right <= o.right && o.left < right then
          Rect(left, top, o.left, bottom)
        else
          this
      else
        this
    }

    function Expand(pad: real): Rect {
      Rect(left - pad, top - pad, right + pad, bottom + pad)
    }

    /** The smallest rectangle with integer edges around this one. */
    function RoundOut(): Rect {
      Rect(left.Floor as real, top.Floor as real, Ceiling(right), Ceiling(bottom))
    }
  }

  function Ceiling(x: real): real {
    -((-x).Floor as real)
  }

  const EMPTY_RECT := Rect(0.0, 0.0, 0.0, 0.0)

  /** The rectangle the builder uses when it cannot bound anything. */
  const MAX_CULL_RECT := Rect(-1000000000.0, -1000000000.0, 1000000000.0, 1000000000.0)

  /** The axis-aligned part of the 4x4 matrices: scale, then translate. */
  datatype Matrix = Matrix(sx: real, sy: real, tx: real, ty: real) {

    predicate IsInvertible() {
      sx != 0.0 && sy != 0.0
    }

    function Apply(p: Point): Point {
      Point(sx * p.x + tx, sy * p.y + ty)
    }

    /** `Then(m)` is the product `this * m`: first `m`, then `this`. */
    function Times(m: Matrix): Matrix {
      Matrix(sx * m.sx, sy * m.sy, sx * m.tx + tx, sy * m.ty + ty)
    }

    function Invert(): Matrix
      requires IsInvertible()
    {
      Matrix(1.0 / sx, 1.0 / sy, -tx / sx, -ty / sy)
    }

    /** The bounds of the mapped rectangle; an empty one stays empty. */
    function MapBounds(r: Rect): Rect {
      if r.IsEmpty() then
        EMPTY_RECT
      else
        var a := Apply(Point(r.left, r.top));
        var b := Apply(Point(r.right, r.bottom));
        Rect(Min(a.x, b.x), Min(a.y, b.y), Max(a.x, b.x), Max(a.y, b.y))
    }
  }

  const IDENTITY := Matrix(1.0, 1.0, 0.0, 0.0)

  datatype TransformOp =
    | Translate(tx: real, ty: real)
    | Scale(sx: real, sy: real)
    | TransformReset

  datatype ClipOp = Intersect | Difference

  // -------------------------------------------------------------- attributes

  /** In the order of the enumeration, which is the order of `max_blend_mode`. */
  datatype BlendMode =
    | Clear | Src | Dst | SrcOver | DstOver | SrcIn | DstIn | SrcOut | DstOut
    | SrcATop | DstATop | Xor | Plus | Modulate | Screen | Overlay | Darken
    | Lighten | ColorDodge | ColorBurn | HardLight | SoftLight | Difference_
    | Exclusion | Multiply | Hue | Saturation | Color_ | Luminosity
  {
    function Rank(): nat {
      match this
      case Clear => 0
      case Src => 1
      case Dst => 2
      case SrcOver => 3
      case DstOver => 4
      case SrcIn => 5
      case DstIn => 6
      case SrcOut => 7
      case DstOut => 8
      case SrcATop => 9
      case DstATop => 10
      case Xor => 11
      case Plus => 12
      case Modulate => 13
      case Screen => 14
      case Overlay => 15
      case Darken => 16
      case Lighten => 17
      case ColorDodge => 18
      case ColorBurn => 19
      case HardLight => 20
      case SoftLight => 21
      case Difference_ => 22
      case Exclusion => 23
      case Multiply => 24
      case Hue => 25
      case Saturation => 26
      case Color_ => 27
      case Luminosity => 28
    }
  }

  datatype DlColor = DlColor(alpha: real, red: real, green: real, blue: real) {
    predicate IsOpaque() { alpha >= 1.0 }
    predicate IsTransparent() { alpha <= 0.0 }

    /** The alpha rounded to eight bits, as `DlPaint::getAlpha` reports it. */
    function Alpha8(): int {
      (alpha * 255.0 + 0.5).Floor
    }
  }

  const TRANSPARENT := DlColor(0.0, 0.0, 0.0, 0.0)
  const BLACK := DlColor(1.0, 0.0, 0.0, 0.0)
  const WHITE := DlColor(1.0, 1.0, 1.0, 1.0)

  datatype DrawStyle = Fill | Stroke | StrokeAndFill

  datatype ColorSource = ColorSource(id: nat, isOpaque: bool, isRuntimeEffect: bool)

  /** `commutesWithOpacity` says whether it makes no difference if an opacity is applied
      before the filter or after it; nothing is known of a runtime effect. */
  datatype ImageFilter = ImageFilter(id: nat, modifiesTransparentBlack: bool, isRuntimeEffect: bool,
                                     commutesWithOpacity: bool)
  {
    predicate Commutes() {
      commutesWithOpacity && !isRuntimeEffect
    }
  }

  datatype ColorFilter = ColorFilter(id: nat, modifiesTransparentBlack: bool, commutesWithOpacity: bool)

  datatype Paint = Paint(antiAlias: bool, invertColors: bool, style: DrawStyle, strokeWidth: real,
                         color: DlColor, blendMode: BlendMode, colorSource: Option<ColorSource>,
                         imageFilter: Option<ImageFilter>, colorFilter: Option<ColorFilter>,
                         maskBlur: Option<real>)

  const DEFAULT_PAINT := Paint(false, false, Fill, 0.0, BLACK, SrcOver, None, None, None, None)

  datatype Attribute =
    | SetAntiAlias(antiAlias: bool)
    | SetInvertColors(invertColors: bool)
    | SetDrawStyle(style: DrawStyle)
    | SetStrokeWidth(strokeWidth: real)
    | SetColor(color: DlColor)
    | SetBlendMode(blendMode: BlendMode)
    | SetColorSource(colorSource: Option<ColorSource>)
    | SetImageFilter(imageFilter: Option<ImageFilter>)
    | SetColorFilter(colorFilter: Option<ColorFilter>)
    | SetMaskFilter(maskBlur: Option<real>)
  {
    function ApplyTo(p: Paint): Paint {
      match this
      case SetAntiAlias(v) => p.(antiAlias := v)
      case SetInvertColors(v) => p.(invertColors := v)
      case SetDrawStyle(v) => p.(style := v)
      case SetStrokeWidth(v) => p.(strokeWidth := v)
      case SetColor(v) => p.(color := v)
      case SetBlendMode(v) => p.(blendMode := v)
      case SetColorSource(v) => p.(colorSource := v)
      case SetImageFilter(v) => p.(imageFilter := v)
      case SetColorFilter(v) => p.(colorFilter := v)
      case SetMaskFilter(v) => p.(maskBlur := v)
    }
  }

  // ----------------------------------------------------------------- records

  /** Which attributes an operation reads. */
  datatype AttributeFlags = AttributeFlags(appliesColor: bool, appliesAlpha: bool, appliesBlend: bool,
                                           appliesColorFilter: bool, appliesImageFilter: bool, appliesMaskFilter: bool)

  /** What a drawing call says about the area it may touch: everything inside
      the clip, or what lies in a local rectangle. */
  datatype Geometry = Flood | Box(bounds: Rect)

  /** A drawing call: `depthInc` is the depth its record type charges, `flags` the
      attributes it renders with, and `own` the paint it brings along in place of the
      current one (a colour or a shadow). Its own parts may overlap (text, atlas,
      shadow), or be hairlines where they are stroked (paths, arcs with a centre). */
  datatype Draw = Draw(tag: nat, geometry: Geometry, depthInc: nat, flags: AttributeFlags, own: Option<Paint>,
                       selfOverlaps: bool, mayBeHairline: bool)

  function PaintOf(current: Paint, d: Draw): Paint {
    if d.own.Some? then d.own.value else current
  }

  /** What the builder reads from a display list drawn into another one; `rects`
      are the rectangles its r-tree reports for the clip, or just its bounds. */
  datatype ChildList = ChildList(tag: nat, opCount: nat, bounds: Rect, rects: seq<Rect>, totalDepth: nat,
                                 root: RootProperties)

  datatype RootProperties = RootProperties(isUnbounded: bool, hasBackdropFilter: bool, maxBlendMode: BlendMode,
                                           canApplyGroupOpacity: bool, modifiesTransparentBlack: bool)

  datatype SaveLayerOptions = SaveLayerOptions(rendersWithAttributes: bool, canDistributeOpacity: bool,
                                               boundsFromCaller: bool, contentIsClipped: bool,
                                               containsBackdropFilter: bool, contentIsUnbounded: bool)

  datatype Record =
    | AttributeOp(attribute: Attribute)
    | TransformRecord(transform: TransformOp)
    | ClipRecord(rect: Rect, clipOp: ClipOp)
    | SaveRecord(restoreIndex: nat, contentDepth: int)
    | SaveLayerRecord(restoreIndex: nat, contentDepth: int, options: SaveLayerOptions, bounds: Rect,
                      maxBlendMode: BlendMode, backdrop: Option<ImageFilter>)
    | RestoreRecord
    | DrawRecord(draw: Draw)
    | DrawListRecord(list: ChildList, opacity: real)
  {
    predicate IsSave() {
      SaveRecord? || SaveLayerRecord?
    }

    predicate IsRendering() {
      DrawRecord? || DrawListRecord?
    }

    /** The restore a save record names; 0 for the other records. */
    function RestoreIndex(): nat {
      if IsSave() then restoreIndex else 0
    }
  }

  datatype OpCategory = Attribute_ | Transform_ | Clip_ | Save_ | SaveLayer_ | Restore_ | Rendering | SubDisplayList

  function GetOpCategory(r: Record): OpCategory {
    match r
    case AttributeOp(_) => Attribute_
    case TransformRecord(_) => Transform_
    case ClipRecord(_, _) => Clip_
    case SaveRecord(_, _) => Save_
    case SaveLayerRecord(_, _, _, _, _, _) => SaveLayer_
    case RestoreRecord => Restore_
    case DrawRecord(_) => Rendering
    case DrawListRecord(_, _) => SubDisplayList
  }

  // ------------------------------------------------------------ nesting

  /** One record's effect on the stack of open saves. */
  function StepOpen(open: seq<nat>, i: nat, op: Record): seq<nat> {
    if op.IsSave() then open + [i]
    else if op.RestoreRecord? && open != [] then open[..|open| - 1]
    else open
  }

  /** The indices of the save records still open before record `n`, outermost first. */
  function OpenSaves(ops: seq<Record>, n: nat): (open: seq<nat>)
    requires n <= |ops|
    ensures forall k :: 0 <= k < |open| ==> open[k] < n
  {
    if n == 0 then [] else StepOpen(OpenSaves(ops, n - 1), n - 1, ops[n - 1])
  }

  /** The restore at `r` closes an open save, and that save's record points back to `r`. */
  predicate RestoreMatches(ops: seq<Record>, r: nat)
    requires r < |ops|
  {
    ops[r].RestoreRecord? ==>
      var open := OpenSaves(ops, r);
      open != [] && ops[open[|open| - 1]].RestoreIndex() == r
  }

  ghost predicate WellNested(ops: seq<Record>) {
    && OpenSaves(ops, |ops|) == []
    && (forall r :: 0 <= r < |ops| ==> RestoreMatches(ops, r))
  }
}
