/**
 Facts about rectangles and matrices, stated for points: what a mapped, clipped, cut
 or rounded rectangle covers.
 */
module DisplayListGeometry {
  import opened DisplayListTypes

  /** A device point lies in the image of a local rectangle. The image of a rectangle
      under a singular matrix has no area, so no point lies in it. */
  predicate Within(m: Matrix, r: Rect, p: Point) {
    m.IsInvertible() && r.Inside(m.Invert().Apply(p))
  }

  /** As `Within`, with the edges of the rectangle. */
  predicate WithinClosed(m: Matrix, r: Rect, p: Point) {
    m.IsInvertible() && !r.IsEmpty() && OnOrInside(r, m.Invert().Apply(p))
  }

  predicate OnOrInside(r: Rect, p: Point) {
    r.left <= p.x <= r.right && r.top <= p.y <= r.bottom
  }

  // ------------------------------------------------------------ one axis

  lemma AxisInverse(s: real, t: real, x: real)
    requires s != 0.0
    ensures s * (1.0 / s * x + (-t / s)) + t == x
    ensures 1.0 / s * (s * x + t) + (-t / s) == x
  {
  }

  function Along(s: real, t: real, x: real): real {
    s * x + t
  }

  lemma AxisRises(s: real, t: real, a: real, b: real)
    requires s != 0.0 && a < b
    ensures if s > 0.0 then Along(s, t, a) < Along(s, t, b) else Along(s, t, b) < Along(s, t, a)
  {
    assert s > 0.0 ==> s * (b - a) > 0.0;
    assert s < 0.0 ==> s * (b - a) < 0.0;
    assert s * (b - a) == s * b - s * a;
  }

  lemma AxisOrder(s: real, t: real, a: real, b: real)
    requires s != 0.0
    ensures s > 0.0 ==> (a < b <==> Along(s, t, a) < Along(s, t, b)) && (a <= b <==> Along(s, t, a) <= Along(s, t, b))
    ensures s < 0.0 ==> (a < b <==> Along(s, t, b) < Along(s, t, a)) && (a <= b <==> Along(s, t, b) <= Along(s, t, a))
  {
    hide Along;
    if a < b {
      AxisRises(s, t, a, b);
    } else if b < a {
      AxisRises(s, t, b, a);
    }
  }

  /** Images in the same order, or all in the opposite one, keep what lies between. */
  lemma BetweenImages(a: real, b: real, y: real, lo: real, hi: real, x: real, rising: bool)
    requires lo < hi
    requires rising ==>
      (lo < x <==> a < y) && (lo <= x <==> a <= y) && (x < hi <==> y < b) && (x <= hi <==> y <= b) && a < b
    requires !rising ==>
      (lo < x <==> y < a) && (lo <= x <==> y <= a) && (x < hi <==> b < y) && (x <= hi <==> b <= y) && b < a
    ensures (lo < x < hi) <==> (Min(a, b) < y < Max(a, b))
    ensures (lo <= x <= hi) <==> (Min(a, b) <= y <= Max(a, b))
    ensures Min(a, b) < Max(a, b)
  {
  }

  /** An interval and its image hold the same points. */
  lemma AxisInside(s: real, t: real, lo: real, hi: real, x: real)
    requires s != 0.0
    ensures var a, b, y := Along(s, t, lo), Along(s, t, hi), Along(s, t, x);
      && (lo < hi ==> ((lo < x < hi) <==> (Min(a, b) < y < Max(a, b))))
      && (lo < hi ==> ((lo <= x <= hi) <==> (Min(a, b) <= y <= Max(a, b))))
      && (lo < hi ==> Min(a, b) < Max(a, b))
  {
    hide Along, Min, Max;
    if lo < hi {
      AxisOrder(s, t, lo, x);
      AxisOrder(s, t, x, hi);
      AxisOrder(s, t, lo, hi);
      BetweenImages(Along(s, t, lo), Along(s, t, hi), Along(s, t, x), lo, hi, x, s > 0.0);
    }
  }

  // ------------------------------------------------------------- matrices

  lemma InverseUndoes(m: Matrix, p: Point)
    requires m.IsInvertible()
    ensures m.Apply(m.Invert().Apply(p)) == p
  {
    AxisInverse(m.sx, m.tx, p.x);
    AxisInverse(m.sy, m.ty, p.y);
  }

  lemma InverseIsUndone(m: Matrix, p: Point)
    requires m.IsInvertible()
    ensures m.Invert().Apply(m.Apply(p)) == p
  {
    AxisInverse(m.sx, m.tx, p.x);
    AxisInverse(m.sy, m.ty, p.y);
  }

  lemma TimesApplies(a: Matrix, b: Matrix, p: Point)
    ensures a.Times(b).Apply(p) == a.Apply(b.Apply(p))
  {
    hide Along, Matrix.Apply;
    var t, q := a.Times(b), b.Apply(p);
    TimesAlong(a.sx, a.tx, b.sx, b.tx, p.x);
    TimesAlong(a.sy, a.ty, b.sy, b.ty, p.y);
    AppliesAlong(t, p);
    AppliesAlong(a, q);
    AppliesAlong(b, p);
    assert t.sx == a.sx * b.sx && t.tx == a.sx * b.tx + a.tx;
    assert t.sy == a.sy * b.sy && t.ty == a.sy * b.ty + a.ty;
    assert Along(t.sx, t.tx, p.x) == Along(a.sx, a.tx, q.x);
    assert t.Apply(p) == a.Apply(q);
  }

  lemma TimesAlong(s: real, t: real, u: real, v: real, x: real)
    ensures Along(s * u, s * v + t, x) == Along(s, t, Along(u, v, x))
  {
    assert s * (u * x + v) == s * (u * x) + s * v;
    assert (s * u) * x == s * (u * x);
  }

  lemma TimesIsInvertible(a: Matrix, b: Matrix)
    ensures a.Times(b).IsInvertible() <==> a.IsInvertible() && b.IsInvertible()
  {
  }

  lemma TimesInverts(a: Matrix, b: Matrix, p: Point)
    requires a.IsInvertible() && b.IsInvertible()
    ensures a.Times(b).IsInvertible()
    ensures a.Times(b).Invert().Apply(p) == b.Invert().Apply(a.Invert().Apply(p))
  {
    TimesIsInvertible(a, b);
    hide Matrix.Invert, Matrix.Times, Matrix.IsInvertible, Matrix.Apply;
    var q := b.Invert().Apply(a.Invert().Apply(p));
    InverseUndoes(b, a.Invert().Apply(p));
    InverseUndoes(a, p);
    TimesApplies(a, b, q);
    InverseIsUndone(a.Times(b), q);
  }

  lemma TimesAssociates(a: Matrix, b: Matrix, c: Matrix)
    ensures a.Times(b).Times(c) == a.Times(b.Times(c))
  {
    hide Along;
    var ab, bc := a.Times(b), b.Times(c);
    TimesAlong(a.sx, a.tx, b.sx, b.tx, c.tx);
    TimesAlong(a.sy, a.ty, b.sy, b.ty, c.ty);
    ProductAssociates(a.sx, b.sx, c.sx);
    ProductAssociates(a.sy, b.sy, c.sy);
    TimesAlongParts(a, b);
    TimesAlongParts(b, c);
    TimesAlongParts(ab, c);
    TimesAlongParts(a, bc);
    assert ab.Times(c) == a.Times(bc) by { hide Matrix.Times; }
  }

  lemma ProductAssociates(x: real, y: real, z: real)
    ensures (x * y) * z == x * (y * z)
  {
  }

  lemma TimesAlongParts(a: Matrix, b: Matrix)
    ensures a.Times(b) == Matrix(a.sx * b.sx, a.sy * b.sy, Along(a.sx, a.tx, b.tx), Along(a.sy, a.ty, b.ty))
    ensures Along(a.sx, a.tx, b.tx) == a.sx * b.tx + a.tx && Along(a.sy, a.ty, b.ty) == a.sy * b.ty + a.ty
  {
  }

  lemma IdentityApplies(p: Point)
    ensures IDENTITY.Apply(p) == p && IDENTITY.IsInvertible()
  {
  }

  lemma IdentityInverse(p: Point)
    ensures IDENTITY.IsInvertible() && IDENTITY.Invert().Apply(p) == p
  {
    hide Matrix.Invert, Matrix.Apply;
    IdentityApplies(p);
    InverseUndoes(IDENTITY, p);
    IdentityApplies(IDENTITY.Invert().Apply(p));
  }

  lemma TimesInverseIsIdentity(a: Matrix)
    requires a.IsInvertible()
    ensures a.Times(a.Invert()) == IDENTITY
  {
    TimesInverseAxis(a.sx, a.tx);
    TimesInverseAxis(a.sy, a.ty);
  }

  lemma TimesInverseAxis(s: real, t: real)
    requires s != 0.0
    ensures s * (1.0 / s) == 1.0 && s * (-t / s) + t == 0.0
  {
  }

  // ----------------------------------------------------------- rectangles

  lemma MapInside(m: Matrix, r: Rect, q: Point)
    requires m.IsInvertible()
    ensures m.MapBounds(r).Inside(m.Apply(q)) <==> r.Inside(q)
    ensures !r.IsEmpty() ==> (OnOrInside(m.MapBounds(r), m.Apply(q)) <==> OnOrInside(r, q))
    ensures m.MapBounds(r).IsEmpty() <==> r.IsEmpty()
  {
    AxisInside(m.sx, m.tx, r.left, r.right, q.x);
    AxisInside(m.sy, m.ty, r.top, r.bottom, q.y);
    AppliesAlong(m, q);
    AppliesAlong(m, Point(r.left, r.top));
    AppliesAlong(m, Point(r.right, r.bottom));
    hide Along, Matrix.Apply, Min, Max;
  }

  lemma AppliesAlong(m: Matrix, p: Point)
    ensures m.Apply(p) == Point(Along(m.sx, m.tx, p.x), Along(m.sy, m.ty, p.y))
  {
  }

  /** The mapped bounds of a rectangle cover its image, and nothing more. */
  lemma MappedCovers(m: Matrix, r: Rect, p: Point)
    requires m.IsInvertible()
    ensures m.MapBounds(r).Inside(p) <==> Within(m, r, p)
    ensures !r.IsEmpty() ==> (OnOrInside(m.MapBounds(r), p) <==> WithinClosed(m, r, p))
  {
    hide Matrix.MapBounds, Matrix.Invert, Matrix.Apply;
    InverseUndoes(m, p);
    MapInside(m, r, m.Invert().Apply(p));
  }

  /** A singular matrix flattens every rectangle. */
  lemma SingularFlattens(m: Matrix, r: Rect)
    requires !m.IsInvertible()
    ensures m.MapBounds(r).IsEmpty()
  {
  }

  lemma IntersectionCovers(a: Rect, b: Rect, p: Point)
    ensures a.Inside(p) && b.Inside(p) ==> a.Intersection(b).Some? && a.Intersection(b).value.Inside(p)
    ensures a.Intersection(b).Some? && a.Intersection(b).value.Inside(p) ==> a.Inside(p) && b.Inside(p)
    ensures a.IntersectionOrEmpty(b).Inside(p) <==> a.Inside(p) && b.Inside(p)
  {
  }

  /** Cutting keeps every point that is not on or inside what is cut out. */
  lemma CutoutCovers(r: Rect, o: Rect, p: Point)
    requires r.Inside(p) && !OnOrInside(o, p)
    ensures r.CutoutOrEmpty(o).Inside(p)
  {
  }

  lemma FlatCutsNothing(r: Rect, o: Rect, p: Point)
    requires r.Inside(p) && o.left <= o.right && o.top <= o.bottom && o.IsEmpty()
    ensures r.CutoutOrEmpty(o).Inside(p)
  {
  }

  lemma ContainsCovers(a: Rect, b: Rect, p: Point)
    requires a.Contains(b) && b.Inside(p)
    ensures a.Inside(p)
  {
  }

  lemma RoundOutCovers(r: Rect, p: Point)
    requires r.Inside(p)
    ensures r.RoundOut().Inside(p)
  {
  }

  lemma MappedIsOrdered(m: Matrix, r: Rect)
    ensures m.MapBounds(r).left <= m.MapBounds(r).right && m.MapBounds(r).top <= m.MapBounds(r).bottom
  {
  }

  /** Containment of rectangles is containment of their points. */
  lemma ContainsExactly(outer: Rect, inner: Rect)
    requires !inner.IsEmpty()
    ensures outer.Contains(inner) <==> forall p :: inner.Inside(p) ==> outer.Inside(p)
  {
    if !outer.Contains(inner) {
      var p := Sticking(outer, inner);
      assert inner.Inside(p) && !outer.Inside(p);
    }
  }

  /** A point of the inner rectangle that sticks out. */
  function Sticking(outer: Rect, inner: Rect): Point {
    var midX, midY := (inner.left + inner.right) / 2.0, (inner.top + inner.bottom) / 2.0;
    if outer.IsEmpty() then Point(midX, midY)
    else if inner.left < outer.left then Point((inner.left + Min(outer.left, inner.right)) / 2.0, midY)
    else if outer.right < inner.right then Point((inner.right + Max(outer.right, inner.left)) / 2.0, midY)
    else if inner.top < outer.top then Point(midX, (inner.top + Min(outer.top, inner.bottom)) / 2.0)
    else Point(midX, (inner.bottom + Max(outer.bottom, inner.top)) / 2.0)
  }
}
