/**
 * Small facts of real arithmetic used by the collision proofs. Each is stated
 * over plain variables so that the solver sees one step at a time.
 */
module RealAlgebra {

  /** A vector of the plane. */
  datatype Vec = Vec(x: real, y: real)

  /** The scalar product of u and v. */
  function Dot(u: Vec, v: Vec): real
  {
    u.x * v.x + u.y * v.y
  }

  lemma DivTimes(x: real, y: real, d: real)
    requires d != 0.0
    ensures (x / d) * y == (x * y) / d
  {
  }

  lemma DivMul(p: real, d: real)
    requires d != 0.0
    ensures (p / d) * d == p
  {
  }

  lemma ImpulseSplit(j: real, ma: real, mb: real, n: real)
    ensures j * mb * n + j * ma * n == j * (ma + mb) * n
  {
  }

  lemma DotScale(rx: real, ry: real, nx: real, ny: real, d: real)
    ensures (rx * nx + ry * ny) * d == rx * (nx * d) + ry * (ny * d)
  {
  }

  lemma SquareOverSelf(d: real)
    requires d != 0.0
    ensures (d * d) / d == d
  {
  }

  lemma AddOver(p: real, q: real, d: real)
    requires d != 0.0
    ensures p / d + q / d == (p + q) / d
  {
  }

  lemma ProductPositive(p: real, q: real)
    requires p > 0.0 && q > 0.0
    ensures p * q > 0.0
  {
  }

  /** A fraction u in [0, 1) of a positive e lies in [0, e). */
  lemma ScaleBelow(u: real, e: real)
    requires 0.0 <= u < 1.0 && 0.0 < e
    ensures 0.0 <= u * e < e
  {
    ProductPositive(1.0 - u, e);
    if u > 0.0 {
      ProductPositive(u, e);
    }
  }

  /** Squaring keeps the order of non-negative reals. */
  lemma SquareBelow(u: real, w: real)
    requires 0.0 <= u <= w
    ensures u * u <= w * w
    ensures u < w ==> u * u < w * w
  {
    assert w * w - u * u == (w - u) * (w + u);
    if u < w {
      ProductPositive(w - u, w + u);
    }
  }

  lemma Commute(a: real, b: real)
    ensures a * b == b * a
  {
  }

  /** The unit normal (dx / d, dy / d) projected on the offset (dx, dy) gives back the distance d. */
  lemma NormalDotOffset(dx: real, dy: real, d: real)
    requires 0.0 < d && d * d == dx * dx + dy * dy
    ensures (dx / d) * dx + (dy / d) * dy == d
  {
    DivTimes(dx, dx, d);
    DivTimes(dy, dy, d);
    AddOver(dx * dx, dy * dy, d);
    SquareOverSelf(d);
  }

  /** (dx / d, dy / d) has length one. */
  lemma UnitNormal(dx: real, dy: real, d: real)
    requires 0.0 < d && d * d == dx * dx + dy * dy
    ensures (dx / d) * (dx / d) + (dy / d) * (dy / d) == 1.0
  {
    NormalDotOffset(dx, dy, d);
    DivTimes(dx, dx / d, d);
    DivTimes(dy, dy / d, d);
    Commute(dx, dx / d);
    Commute(dy, dy / d);
    AddOver(dx * (dx / d), dy * (dy / d), d);
  }

  /** Moving the offset (dx, dy) by (rr - d) along its own unit direction gives an offset of length rr. */
  lemma TouchOffset(dx: real, dy: real, d: real, rr: real)
    requires 0.0 < d && d * d == dx * dx + dy * dy
    ensures var ex, ey := dx + (rr - d) * (dx / d), dy + (rr - d) * (dy / d);
      ex * ex + ey * ey == rr * rr
  {
    var u, w := dx / d, dy / d;
    DivMul(dx, d);
    DivMul(dy, d);
    Commute(u, d);
    Commute(w, d);
    assert dx + (rr - d) * u == rr * u;
    assert dy + (rr - d) * w == rr * w;
    UnitNormal(dx, dy, d);
    assert (rr * u) * (rr * u) + (rr * w) * (rr * w) == (rr * rr) * (u * u + w * w);
  }

  /** Opposite impulses j mb n and -j ma n leave ma va + mb vb unchanged. */
  lemma OppositeImpulses(ma: real, mb: real, va: real, vb: real, j: real, n: real)
    ensures ma * (va + j * mb * n) + mb * (vb - j * ma * n) == ma * va + mb * vb
  {
    assert ma * (j * mb * n) == mb * (j * ma * n);
  }

  /** Scaling the component (rx, ry) . (dx, dy) / d along the unit offset back by d gives (rx, ry) . (dx, dy). */
  lemma OffsetDot(rx: real, ry: real, dx: real, dy: real, d: real)
    requires 0.0 < d && d * d == dx * dx + dy * dy
    ensures (dx / d) * dx + (dy / d) * dy == d
    ensures (rx * (dx / d) + ry * (dy / d)) * d == rx * dx + ry * dy
  {
    NormalDotOffset(dx, dy, d);
    DivMul(dx, d);
    DivMul(dy, d);
    DotScale(rx, ry, dx / d, dy / d, d);
  }

  /**
   * A relative velocity r' = r - k n with k = (1 + e) (r . n), n . D = d and
   * (r . n) d = r . D has r' . D = -e (r . D).
   */
  lemma Recoil(r': Vec, r: Vec, D: Vec, n: Vec, d: real, k: real, e: real)
    requires r' == Vec(r.x - k * n.x, r.y - k * n.y)
    requires k == (1.0 + e) * Dot(r, n)
    requires Dot(n, D) == d && Dot(r, n) * d == Dot(r, D)
    ensures Dot(r', D) == -e * Dot(r, D)
  {
    KickDot(r.x, r.y, n.x, n.y, D.x, D.y, k);
    Regroup(1.0 + e, Dot(r, n), d);
  }

  /** A vector p = k n along a unit vector n has squared length k * k. */
  lemma ScaledUnit(p: Vec, n: Vec, k: real)
    requires p == Vec(k * n.x, k * n.y) && Dot(n, n) == 1.0
    ensures Dot(p, p) == k * k
  {
    assert Dot(p, p) == (k * k) * Dot(n, n);
  }

  /** A vector p = k n with n = o / d is parallel to o. */
  lemma ScaledParallel(p: Vec, n: Vec, o: Vec, k: real, d: real)
    requires d != 0.0 && n == Vec(o.x / d, o.y / d) && p == Vec(k * n.x, k * n.y)
    ensures p.x * o.y == p.y * o.x
  {
    DivTimes(o.x, o.y, d);
    DivTimes(o.y, o.x, d);
    assert p.x * o.y == k * (n.x * o.y);
    assert p.y * o.x == k * (n.y * o.x);
  }

  lemma KickDot(rx: real, ry: real, nx: real, ny: real, dx: real, dy: real, k: real)
    ensures (rx - k * nx) * dx + (ry - k * ny) * dy == (rx * dx + ry * dy) - k * (nx * dx + ny * dy)
  {
  }

  lemma Regroup(c: real, p: real, d: real)
    ensures (c * p) * d == c * (p * d)
  {
  }
}
