/**
 The repository's image filters against their bounds contract. Colour filters and blurs
 keep it, and compositions of filters that do. A dilation asks for too little input, and an
 erosion, whose output depends on input just as far away, says too little of its output.
 */
module DisplayListFilters {
  import opened Options
  import opened DisplayListTypes
  import opened DisplayListBuilderSpec
  import opened DisplayListCanvas

  /** How far a filter looks along each axis. */
  datatype Radius = Radius(x: real, y: real) {
    predicate Valid() {
      0.0 <= x && 0.0 <= y
    }
  }

  const NO_RADIUS := Radius(0.0, 0.0)

  /** Kinds of filters: those that change colours only, which may make transparent black
      visible everywhere, and those that look around each point. */
  datatype Kind =
    | Colour(floods: bool)
    | Blur(radius: Radius)
    | Dilate(radius: Radius)
    | Erode(radius: Radius)
    | Compose(outer: Kind, inner: Kind)
  {
    predicate Valid() {
      match this
      case Colour(_) => true
      case Compose(outer, inner) => outer.Valid() && inner.Valid()
      case _ => radius.Valid()
    }

    /** What the filters of this kind keep their contract by. */
    predicate Keeps() {
      match this
      case Colour(_) => true
      case Blur(_) => true
      case Dilate(radius) => radius == NO_RADIUS
      case Erode(radius) => radius == NO_RADIUS
      case Compose(outer, inner) => outer.Keeps() && inner.Keeps()
    }
  }

  // --------------------------------------------------------- their bounds

  function Abs(x: real): real {
    if x < 0.0 then -x else x
  }

  /** The radius on an axis that the matrix scales by `s`. */
  function RadiusAlong(radius: real, s: real): real {
    radius * Abs(s)
  }

  function Padded(r: Rect, x: real, y: real): Rect {
    Rect(r.left - x, r.top - y, r.right + x, r.bottom + y)
  }

  /** `outset_device_bounds`, which cannot answer under a singular matrix. */
  function Outset(radius: Radius, r: Rect, m: Matrix): Option<Rect> {
    if !m.IsInvertible() then None
    else Some(Padded(r, Ceiling(RadiusAlong(radius.x, m.sx)), Ceiling(RadiusAlong(radius.y, m.sy))))
  }

  /** `inset_device_bounds` */
  function Inset(radius: Radius, r: Rect, m: Matrix): Option<Rect> {
    if !m.IsInvertible() then None
    else Some(Padded(r, -(RadiusAlong(radius.x, m.sx).Floor as real), -(RadiusAlong(radius.y, m.sy).Floor as real)))
  }

  /** `map_device_bounds` */
  function MapDevice(k: Kind, r: Rect, m: Matrix): Option<Rect> {
    match k
    case Colour(floods) => if floods then None else Some(r)
    case Blur(radius) => Outset(radius, r, m)
    case Dilate(radius) => Outset(radius, r, m)
    case Erode(radius) => Inset(radius, r, m)
    case Compose(outer, inner) =>
      match MapDevice(inner, r, m)
      case Some(between) => MapDevice(outer, between, m)
      case None => None
  }

  /** `get_input_device_bounds` */
  function InputDevice(k: Kind, r: Rect, m: Matrix): Option<Rect> {
    match k
    case Colour(floods) => if floods then None else Some(r)
    case Blur(radius) => Outset(radius, r, m)
    case Dilate(radius) => Inset(radius, r, m)
    case Erode(radius) => Outset(radius, r, m)
    case Compose(outer, inner) =>
      match InputDevice(outer, r, m)
      case Some(between) => InputDevice(inner, between, m)
      case None => None
  }

  /** `map_local_bounds` */
  function MapLocal(k: Kind, r: Rect): Option<Rect> {
    match k
    case Colour(floods) => if floods then None else Some(r)
    case Blur(radius) => Some(Padded(r, radius.x, radius.y))
    case Dilate(radius) => Some(Padded(r, radius.x, radius.y))
    case Erode(radius) => Some(Padded(r, -radius.x, -radius.y))
    case Compose(outer, inner) =>
      match MapLocal(inner, r)
      case Some(between) => MapLocal(outer, between)
      case None => None
  }

  // ----------------------------------------------------------- their reach

  predicate Near(q: Point, p: Point, x: real, y: real) {
    -x <= p.x - q.x <= x && -y <= p.y - q.y <= y
  }

  predicate NearOnDevice(radius: Radius, m: Matrix, q: Point, p: Point) {
    Near(q, p, RadiusAlong(radius.x, m.sx), RadiusAlong(radius.y, m.sy))
  }

  ghost predicate Reaches(k: Kind, m: Matrix, q: Point, p: Point)
    decreases k, 1
  {
    match k
    case Colour(_) => q == p
    case Compose(_, _) => exists between :: ReachesThrough(k, m, q, between, p)
    case _ => NearOnDevice(k.radius, m, q, p)
  }

  /** The inner filter reaches the point from which the outer one goes on. */
  ghost predicate ReachesThrough(k: Kind, m: Matrix, q: Point, between: Point, p: Point)
    requires k.Compose?
    decreases k, 0
  {
    Reaches(k.inner, m, q, between) && Reaches(k.outer, m, between, p)
  }

  ghost predicate ReachesLocally(k: Kind, q: Point, p: Point)
    decreases k, 1
  {
    match k
    case Colour(_) => q == p
    case Compose(_, _) => exists between :: ReachesThroughLocally(k, q, between, p)
    case _ => Near(q, p, k.radius.x, k.radius.y)
  }

  ghost predicate ReachesThroughLocally(k: Kind, q: Point, between: Point, p: Point)
    requires k.Compose?
    decreases k, 0
  {
    ReachesLocally(k.inner, q, between) && ReachesLocally(k.outer, between, p)
  }

  // ------------------------------------------------------- tables of filters

  /** The bounds functions of filters of these kinds, and what the filters do. */
  function TableBounds(kinds: ImageFilter -> Kind): FilterBounds {
    FilterBounds((f: ImageFilter, r: Rect, m: Matrix) => MapDevice(kinds(f), r, m),
                 (f: ImageFilter, r: Rect, m: Matrix) => InputDevice(kinds(f), r, m),
                 (f: ImageFilter, r: Rect) => MapLocal(kinds(f), r))
  }

  ghost function TableMeaning(kinds: ImageFilter -> Kind): FilterMeaning {
    FilterMeaning((f: ImageFilter, m: Matrix, q: Point, p: Point) => Reaches(kinds(f), m, q, p),
                  (f: ImageFilter, q: Point, p: Point) => ReachesLocally(kinds(f), q, p))
  }

  /** The contract, for all filters of a kind. */
  ghost predicate HoldsOutput(k: Kind, m: Matrix, r: Rect, q: Point, p: Point) {
    Reaches(k, m, q, p) && r.Inside(q) && MapDevice(k, r, m).Some? ==> MapDevice(k, r, m).value.Inside(p)
  }

  ghost predicate HoldsInput(k: Kind, m: Matrix, r: Rect, q: Point, p: Point) {
    Reaches(k, m, q, p) && r.Inside(p) && InputDevice(k, r, m).Some? ==> InputDevice(k, r, m).value.Inside(q)
  }

  ghost predicate HoldsLocally(k: Kind, r: Rect, q: Point, p: Point) {
    ReachesLocally(k, q, p) && r.Inside(q) && MapLocal(k, r).Some? ==> MapLocal(k, r).value.Inside(p)
  }

  ghost predicate ReachesBack(k: Kind, m: Matrix, q: Point, p: Point) {
    m.IsInvertible() && Reaches(k, m, q, p) ==> ReachesLocally(k, m.Invert().Apply(q), m.Invert().Apply(p))
  }

  ghost predicate SoundKind(k: Kind) {
    && (forall m, r: Rect, q, p :: HoldsOutput(k, m, r, q, p))
    && (forall m, r: Rect, q, p :: HoldsInput(k, m, r, q, p))
    && (forall r: Rect, q, p :: HoldsLocally(k, r, q, p))
    && (forall m: Matrix, q, p :: ReachesBack(k, m, q, p))
  }

  /** A filter of a table keeps its contract if and only if its kind does. */
  lemma SoundByKind(kinds: ImageFilter -> Kind, f: ImageFilter)
    ensures SoundFilter(TableBounds(kinds), TableMeaning(kinds), f) <==> SoundKind(kinds(f))
  {
    var fx, fm, k := TableBounds(kinds), TableMeaning(kinds), kinds(f);
    hide Reaches, ReachesLocally, MapDevice, InputDevice, MapLocal, Rect.Inside, Matrix.Invert, Matrix.Apply,
      Matrix.IsInvertible;
    assert forall m, r: Rect, q, p ::
      (fm.reaches(f, m, q, p) ==> MapsDevice(fx, f, m, r, q, p)) <==> HoldsOutput(k, m, r, q, p);
    assert forall m, r: Rect, q, p ::
      (fm.reaches(f, m, q, p) ==> NeedsDevice(fx, f, m, r, q, p)) <==> HoldsInput(k, m, r, q, p);
    assert forall r: Rect, q, p ::
      (fm.reachesLocal(f, q, p) ==> MapsLocal(fx, f, r, q, p)) <==> HoldsLocally(k, r, q, p);
    assert forall m: Matrix, q, p ::
      (m.IsInvertible() && fm.reaches(f, m, q, p) ==> fm.reachesLocal(f, m.Invert().Apply(q), m.Invert().Apply(p)))
        <==> ReachesBack(k, m, q, p);
    hide MapsDevice, NeedsDevice, MapsLocal, HoldsOutput, HoldsInput, HoldsLocally, ReachesBack;
  }

  // -------------------------------------------------------- looking around

  lemma PaddedHolds(r: Rect, q: Point, p: Point, x: real, y: real, moreX: real, moreY: real)
    requires r.Inside(q) && Near(q, p, x, y) && x <= moreX && y <= moreY
    ensures Padded(r, moreX, moreY).Inside(p)
  {
  }

  lemma NearIsMutual(q: Point, p: Point, x: real, y: real)
    requires Near(q, p, x, y)
    ensures Near(p, q, x, y)
  {
  }

  /** An outset holds what is near, in both directions. */
  lemma OutsetHolds(radius: Radius, r: Rect, m: Matrix, q: Point, p: Point)
    requires NearOnDevice(radius, m, q, p) && Outset(radius, r, m).Some?
    ensures r.Inside(q) ==> Outset(radius, r, m).value.Inside(p)
    ensures r.Inside(p) ==> Outset(radius, r, m).value.Inside(q)
  {
    hide Near, Padded, Rect.Inside, RadiusAlong;
    var x, y := RadiusAlong(radius.x, m.sx), RadiusAlong(radius.y, m.sy);
    NearIsMutual(q, p, x, y);
    if r.Inside(q) {
      PaddedHolds(r, q, p, x, y, Ceiling(x), Ceiling(y));
    }
    if r.Inside(p) {
      PaddedHolds(r, p, q, x, y, Ceiling(x), Ceiling(y));
    }
  }

  /** An axis mapped back from the device. */
  function Back(s: real, t: real, x: real): real
    requires s != 0.0
  {
    (1.0 / s) * x + -t / s
  }

  /** Going back from the device undoes the scale of one axis. */
  lemma AlongScalesBack(s: real, t: real, q: real, p: real, radius: real)
    requires s != 0.0 && 0.0 <= radius && -(radius * Abs(s)) <= p - q <= radius * Abs(s)
    ensures -radius <= Back(s, t, p) - Back(s, t, q) <= radius
  {
    var d := (1.0 / s) * (p - q);
    assert d == (1.0 / s) * p - (1.0 / s) * q;
    assert s * (1.0 / s) == 1.0;
    ScaledBack(s, 1.0 / s, p - q);
    if d > radius {
      TimesGrows(Abs(s), radius, d);
      AbsTimes(s, d);
    }
    if d < -radius {
      TimesGrows(Abs(s), radius, -d);
      AbsTimes(s, d);
    }
  }

  lemma ScaledBack(s: real, inverse: real, x: real)
    requires s * inverse == 1.0
    ensures s * (inverse * x) == x
  {
    assert s * (inverse * x) == (s * inverse) * x;
  }

  lemma TimesGrows(s: real, a: real, b: real)
    requires s > 0.0 && a < b
    ensures a * s < s * b
  {
  }

  lemma AbsTimes(s: real, d: real)
    ensures Abs(s) * Abs(d) == Abs(s * d)
  {
  }

  lemma InverseMapsBack(m: Matrix, p: Point)
    requires m.IsInvertible()
    ensures m.sx != 0.0 && m.sy != 0.0
    ensures m.Invert().Apply(p) == Point(Back(m.sx, m.tx, p.x), Back(m.sy, m.ty, p.y))
  {
  }

  /** What is near on the device is near in the space of the drawing. */
  lemma NearScalesBack(radius: Radius, m: Matrix, q: Point, p: Point)
    requires m.IsInvertible() && NearOnDevice(radius, m, q, p) && radius.Valid()
    ensures Near(m.Invert().Apply(q), m.Invert().Apply(p), radius.x, radius.y)
  {
    InverseMapsBack(m, q);
    InverseMapsBack(m, p);
    AlongScalesBack(m.sx, m.tx, q.x, p.x, radius.x);
    AlongScalesBack(m.sy, m.ty, q.y, p.y, radius.y);
    hide Back, Matrix.Invert, Matrix.Apply, Abs;
  }

  // ---------------------------------------------------- kinds that are sound

  lemma ColoursAreSound(floods: bool)
    ensures SoundKind(Colour(floods))
  {
    hide Matrix.Invert, Matrix.Apply, Matrix.IsInvertible, Rect.Inside;
  }

  lemma BlursAreSound(radius: Radius)
    requires radius.Valid()
    ensures SoundKind(Blur(radius))
  {
    var k := Blur(radius);
    hide Matrix.Invert, Matrix.Apply, Matrix.IsInvertible, Rect.Inside, Near, Padded, Outset;
    forall m, r: Rect, q, p
      ensures HoldsOutput(k, m, r, q, p) && HoldsInput(k, m, r, q, p)
    {
      if Reaches(k, m, q, p) && Outset(radius, r, m).Some? {
        OutsetHolds(radius, r, m, q, p);
      }
    }
    forall r: Rect, q, p
      ensures HoldsLocally(k, r, q, p)
    {
      if ReachesLocally(k, q, p) && r.Inside(q) {
        PaddedHolds(r, q, p, radius.x, radius.y, radius.x, radius.y);
      }
    }
    forall m: Matrix, q, p
      ensures ReachesBack(k, m, q, p)
    {
      if m.IsInvertible() && Reaches(k, m, q, p) {
        NearScalesBack(radius, m, q, p);
      }
    }
  }

  /** Nothing is reached without a radius but the point itself. */
  lemma NoRadius(s: real)
    ensures RadiusAlong(0.0, s) == 0.0
  {
  }

  lemma IdleIsSound(k: Kind)
    requires k.Dilate? || k.Erode?
    requires k.radius == NO_RADIUS
    ensures SoundKind(k)
  {
    hide Matrix.Invert, Matrix.Apply, Matrix.IsInvertible, RadiusAlong;
    forall s
      ensures RadiusAlong(0.0, s) == 0.0
    {
      NoRadius(s);
    }
  }

  lemma Between(k: Kind, m: Matrix, q: Point, p: Point) returns (between: Point)
    requires k.Compose? && Reaches(k, m, q, p)
    ensures ReachesThrough(k, m, q, between, p)
  {
    between :| ReachesThrough(k, m, q, between, p);
  }

  lemma BetweenLocally(k: Kind, q: Point, p: Point) returns (between: Point)
    requires k.Compose? && ReachesLocally(k, q, p)
    ensures ReachesThroughLocally(k, q, between, p)
  {
    between :| ReachesThroughLocally(k, q, between, p);
  }

  lemma CompositionsAreSound(outer: Kind, inner: Kind)
    requires SoundKind(outer) && SoundKind(inner)
    ensures SoundKind(Compose(outer, inner))
  {
    var k := Compose(outer, inner);
    hide Matrix.Invert, Matrix.Apply, Matrix.IsInvertible, Rect.Inside;
    forall m, r: Rect, q, p
      ensures HoldsOutput(k, m, r, q, p) && HoldsInput(k, m, r, q, p)
    {
      if Reaches(k, m, q, p) {
        var between := Between(k, m, q, p);
        assert HoldsOutput(inner, m, r, q, between) && HoldsInput(outer, m, r, between, p);
        assert MapDevice(inner, r, m).Some? ==> HoldsOutput(outer, m, MapDevice(inner, r, m).value, between, p);
        assert InputDevice(outer, r, m).Some? ==> HoldsInput(inner, m, InputDevice(outer, r, m).value, q, between);
      }
    }
    forall r: Rect, q, p
      ensures HoldsLocally(k, r, q, p)
    {
      if ReachesLocally(k, q, p) {
        var between := BetweenLocally(k, q, p);
        assert HoldsLocally(inner, r, q, between);
        assert MapLocal(inner, r).Some? ==> HoldsLocally(outer, MapLocal(inner, r).value, between, p);
      }
    }
    forall m: Matrix, q, p
      ensures ReachesBack(k, m, q, p)
    {
      if m.IsInvertible() && Reaches(k, m, q, p) {
        var between := Between(k, m, q, p);
        assert ReachesBack(inner, m, q, between) && ReachesBack(outer, m, between, p);
        assert ReachesThroughLocally(k, m.Invert().Apply(q), m.Invert().Apply(between), m.Invert().Apply(p));
      }
    }
  }

  lemma {:induction false} KeepingKindsAreSound(k: Kind)
    requires k.Valid() && k.Keeps()
    ensures SoundKind(k)
  {
    hide SoundKind;
    match k
    case Colour(floods) => ColoursAreSound(floods);
    case Blur(radius) => BlursAreSound(radius);
    case Compose(outer, inner) =>
      KeepingKindsAreSound(outer);
      KeepingKindsAreSound(inner);
      CompositionsAreSound(outer, inner);
    case _ => IdleIsSound(k);
  }

  // ------------------------------------------------ insets answer too little

  lemma AnyRadius(radius: real, s: real)
    requires 0.0 <= radius && s != 0.0
    ensures RadiusAlong(radius, s) >= 0.0 && (radius > 0.0 ==> RadiusAlong(radius, s) > 0.0)
  {
    if radius > 0.0 {
      TimesGrows(Abs(s), 0.0, radius);
    }
  }

  /** A point that is near one inside a rectangle, but not inside its inset. */
  lemma InsetMisses(radius: Radius, m: Matrix) returns (r: Rect, q: Point, p: Point)
    requires radius.Valid() && radius != NO_RADIUS && m.IsInvertible()
    ensures NearOnDevice(radius, m, q, p) && NearOnDevice(radius, m, p, q) && r.Inside(p)
    ensures Inset(radius, r, m).Some? && !Inset(radius, r, m).value.Inside(q)
  {
    var x, y := RadiusAlong(radius.x, m.sx), RadiusAlong(radius.y, m.sy);
    AnyRadius(radius.x, m.sx);
    AnyRadius(radius.y, m.sy);
    hide RadiusAlong;
    p := Point(0.0, 0.0);
    if radius.x > 0.0 {
      r, q := Rect(-1.0, -1.0, x / 2.0, 1.0), Point(x, 0.0);
    } else {
      r, q := Rect(-1.0, -1.0, 1.0, y / 2.0), Point(0.0, y);
    }
  }

  /** What a dilation asks for holds the input it needs if and only if it does nothing. */
  lemma DilationNeedsMore(radius: Radius, m: Matrix)
    requires radius.Valid() && m.IsInvertible()
    ensures (forall r: Rect, q, p :: HoldsInput(Dilate(radius), m, r, q, p)) <==> radius == NO_RADIUS
  {
    if radius == NO_RADIUS {
      IdleIsSound(Dilate(radius));
    } else {
      var r, q, p := InsetMisses(radius, m);
      assert !HoldsInput(Dilate(radius), m, r, q, p);
    }
    hide HoldsInput;
  }

  /** And what an erosion says of its output holds all that its input may change if and only
      if it does nothing: of two drawings side by side it leaves out their common edge, which
      neither fills without the other. */
  lemma ErosionReachesFurther(radius: Radius, m: Matrix)
    requires radius.Valid() && m.IsInvertible()
    ensures (forall r: Rect, q, p :: HoldsOutput(Erode(radius), m, r, q, p)) <==> radius == NO_RADIUS
  {
    if radius == NO_RADIUS {
      IdleIsSound(Erode(radius));
    } else {
      var r, q, p := InsetMisses(radius, m);
      assert !HoldsOutput(Erode(radius), m, r, p, q);
    }
    hide HoldsOutput;
  }

  /** Which filters of a table keep the contract: of those that are not composed, exactly
      the colour filters, the blurs, and what does nothing. */
  lemma TableIsSoundExactly(kinds: ImageFilter -> Kind, f: ImageFilter)
    requires kinds(f).Valid()
    ensures kinds(f).Keeps() ==> SoundFilter(TableBounds(kinds), TableMeaning(kinds), f)
    ensures !kinds(f).Compose? && SoundFilter(TableBounds(kinds), TableMeaning(kinds), f) ==> kinds(f).Keeps()
  {
    var k := kinds(f);
    SoundByKind(kinds, f);
    hide SoundFilter, HoldsInput, HoldsOutput, HoldsLocally, ReachesBack;
    if k.Keeps() {
      KeepingKindsAreSound(k);
    } else if k.Dilate? {
      DilationNeedsMore(k.radius, IDENTITY);
    } else if k.Erode? {
      ErosionReachesFurther(k.radius, IDENTITY);
    }
  }
}
