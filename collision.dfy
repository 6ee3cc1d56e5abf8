/**
 * Pairwise collision resolution (`handleCollision`): an overlap test, a
 * symmetric positional push-apart along the line of centres and an impulse
 * exchange with restitution `Elasticity`.
 *
 * The source computes the centre distance with `Math.sqrt` and the contact
 * direction with `atan2`, `cos` and `sin`. Here the distance `d` is a parameter
 * tied to the offsets by `d * d == dx * dx + dy * dy`, and `cos(atan2(dy, dx))`,
 * `sin(atan2(dy, dx))` are `dx / d`, `dy / d`.
 */
module Collision {
  import opened Balls
  import opened RealAlgebra

  /** Squared distance between the centres of a and b. */
  function Dist2(a: Body, b: Body): real
  {
    (b.x - a.x) * (b.x - a.x) + (b.y - a.y) * (b.y - a.y)
  }

  /** `d` is the distance between the centres of a and b. */
  predicate IsDistance(a: Body, b: Body, d: real)
  {
    0.0 <= d && d * d == Dist2(a, b)
  }

  /** The offset from the centre of a to the centre of b. */
  function Offset(a: Body, b: Body): Vec
  {
    Vec(b.x - a.x, b.y - a.y)
  }

  /** The velocity of b relative to a. */
  function Rel(a: Body, b: Body): Vec
  {
    Vec(b.vx - a.vx, b.vy - a.vy)
  }

  /** Two bodies, the first and the second of a colliding pair. */
  datatype Pair = Pair(first: Body, second: Body)

  /**
   * The displacement (ax, ay) that separates a pair at centre distance d:
   * the overlap along the line of centres. At d == 0 the source's
   * `atan2(0, 0)` is 0, so the displacement is along +x.
   */
  function Push(a: Body, b: Body, d: real): Vec
  {
    var overlap := a.radius + b.radius - d;
    if d == 0.0 then Vec(overlap, 0.0) else Vec(overlap * ((b.x - a.x) / d), overlap * ((b.y - a.y) / d))
  }

  /**
   * Moves a back and b forward by half the displacement p each: the offset
   * between the centres grows by p, the midpoint stays, and nothing but the
   * positions changes.
   */
  function Shift(a: Body, b: Body, p: Vec): (r: Pair)
    ensures Offset(r.first, r.second) == Vec(Offset(a, b).x + p.x, Offset(a, b).y + p.y)
    ensures r.first.x + r.second.x == a.x + b.x && r.first.y + r.second.y == a.y + b.y
    ensures r.first == a.(x := r.first.x, y := r.first.y) && r.second == b.(x := r.second.x, y := r.second.y)
  {
    Pair(a.(x := a.x - p.x / 2.0, y := a.y - p.y / 2.0), b.(x := b.x + p.x / 2.0, y := b.y + p.y / 2.0))
  }

  /** The unit vector from a towards b, d being their centre distance. */
  function Normal(a: Body, b: Body, d: real): Vec
    requires d != 0.0
  {
    Vec((b.x - a.x) / d, (b.y - a.y) / d)
  }

  /**
   * The impulse scalar: (1 + e) times the relative velocity of b with respect
   * to a along the unit normal, over the sum of the masses. That sum is
   * positive for every ball of a session; for a massless pair it is taken as 0.
   */
  function Impulse(a: Body, b: Body, d: real): real
    requires d != 0.0
  {
    if a.mass + b.mass == 0.0 then 0.0 else (1.0 + Elasticity) * Dot(Rel(a, b), Normal(a, b, d)) / (a.mass + b.mass)
  }

  /** Gives a the impulse j along n, weighted by the mass mb of b, and b the opposite one weighted by the mass ma of a. */
  function Bounce(a: Body, b: Body, ma: real, mb: real, n: Vec, j: real): Pair
  {
    Pair(a.(vx := a.vx + j * mb * n.x, vy := a.vy + j * mb * n.y),
         b.(vx := b.vx - j * ma * n.x, vy := b.vy - j * ma * n.y))
  }

  /**
   * The pair (a, b) after their collision is resolved, d being their centre
   * distance: a and b are each moved half the `Push` apart, then receive the
   * `Impulse` along the unit normal. At d == 0 the source's velocity update
   * divides by zero; it is skipped here.
   */
  function Collide(a: Body, b: Body, d: real): (r: Pair)
    ensures r.first.radius == a.radius && r.first.mass == a.mass && r.first.color == a.color
    ensures r.second.radius == b.radius && r.second.mass == b.mass && r.second.color == b.color
  {
    if d > a.radius + b.radius then Pair(a, b)
    else
      var moved := Shift(a, b, Push(a, b, d));
      if d == 0.0 then moved
      else Bounce(moved.first, moved.second, a.mass, b.mass, Normal(a, b, d), Impulse(a, b, d))
  }

  /** A distance whose square exceeds rr * rr exceeds rr. */
  lemma BelowRoot(rr: real, d: real)
    requires 0.0 <= d && rr * rr < d * d
    ensures rr < d
  {
    assert (d - rr) * (d + rr) > 0.0;
  }

  /** Two balls whose centres are farther apart than the sum of their radii are left exactly as they were. */
  lemma CollideApart(a: Body, b: Body, d: real)
    requires IsDistance(a, b, d)
    requires (a.radius + b.radius) * (a.radius + b.radius) < Dist2(a, b)
    ensures Collide(a, b, d) == Pair(a, b)
  {
    BelowRoot(a.radius + b.radius, d);
  }

  /** The push-apart is symmetric: the sum of the two centres does not move. */
  lemma CollideKeepsCentre(a: Body, b: Body, d: real)
    ensures var Pair(a', b') := Collide(a, b, d);
      a'.x + b'.x == a.x + b.x && a'.y + b'.y == a.y + b.y
  {
  }

  /** a' and b' are a and b moved apart by half the push each, d being their centre distance. */
  predicate Moved(a: Body, b: Body, a': Body, b': Body, d: real)
  {
    a'.x == a.x - Push(a, b, d).x / 2.0 && a'.y == a.y - Push(a, b, d).y / 2.0 &&
    b'.x == b.x + Push(a, b, d).x / 2.0 && b'.y == b.y + Push(a, b, d).y / 2.0
  }

  /** a' and b' have the velocities of a and b after the impulse j along n, weighted by the other's mass. */
  predicate Kicked(a: Body, b: Body, a': Body, b': Body, n: Vec, j: real)
  {
    a'.vx == a.vx + j * b.mass * n.x && a'.vy == a.vy + j * b.mass * n.y &&
    b'.vx == b.vx - j * a.mass * n.x && b'.vy == b.vy - j * a.mass * n.y
  }

  /** A collision within reach moves the pair apart by half the push each. */
  lemma CollideMoves(a: Body, b: Body, d: real)
    requires d <= a.radius + b.radius
    ensures Moved(a, b, Collide(a, b, d).first, Collide(a, b, d).second, d)
  {
  }

  /** A collision within reach at a distance d != 0 gives the impulse along the unit normal. */
  lemma CollideKicks(a: Body, b: Body, d: real)
    requires d != 0.0 && d <= a.radius + b.radius
    ensures Kicked(a, b, Collide(a, b, d).first, Collide(a, b, d).second, Normal(a, b, d), Impulse(a, b, d))
  {
  }

  /** The unit normal of a pair at the positive centre distance d has length one and projects the offset to d. */
  lemma NormalUnit(a: Body, b: Body, d: real)
    requires IsDistance(a, b, d) && 0.0 < d
    ensures Dot(Normal(a, b, d), Normal(a, b, d)) == 1.0
    ensures Dot(Normal(a, b, d), Offset(a, b)) == d
  {
    RealAlgebra.UnitNormal(Offset(a, b).x, Offset(a, b).y, d);
  }

  /** Opposite kicks weighted by the other body's mass conserve momentum on both axes. */
  lemma KickedConserves(a: Body, b: Body, a': Body, b': Body, n: Vec, j: real)
    requires Kicked(a, b, a', b', n, j)
    ensures a.mass * a'.vx + b.mass * b'.vx == a.mass * a.vx + b.mass * b.vx
    ensures a.mass * a'.vy + b.mass * b'.vy == a.mass * a.vy + b.mass * b.vy
  {
    RealAlgebra.OppositeImpulses(a.mass, b.mass, a.vx, b.vx, j, n.x);
    RealAlgebra.OppositeImpulses(a.mass, b.mass, a.vy, b.vy, j, n.y);
  }

  /** The impulse exchange conserves momentum on both axes. */
  lemma CollideConservesMomentum(a: Body, b: Body, d: real)
    ensures var Pair(a', b') := Collide(a, b, d);
      a.mass * a'.vx + b.mass * b'.vx == a.mass * a.vx + b.mass * b.vx &&
      a.mass * a'.vy + b.mass * b'.vy == a.mass * a.vy + b.mass * b.vy
  {
    if d <= a.radius + b.radius && d != 0.0 {
      CollideKicks(a, b, d);
      KickedConserves(a, b, Collide(a, b, d).first, Collide(a, b, d).second, Normal(a, b, d), Impulse(a, b, d));
    }
  }

  /** The total impulse j (ma + mb) is (1 + Elasticity) times the relative velocity along the unit normal n. */
  predicate Impulsive(a: Body, b: Body, n: Vec, j: real)
  {
    j * (a.mass + b.mass) == (1.0 + Elasticity) * Dot(Rel(a, b), n)
  }

  /** The impulse of a pair with a non-zero mass sum is `Impulsive`. */
  lemma TotalImpulse(a: Body, b: Body, d: real)
    requires d != 0.0 && a.mass + b.mass != 0.0
    ensures Impulsive(a, b, Normal(a, b, d), Impulse(a, b, d))
  {
    RealAlgebra.DivMul((1.0 + Elasticity) * Dot(Rel(a, b), Normal(a, b, d)), a.mass + b.mass);
  }

  lemma PushValue(a: Body, b: Body, d: real)
    requires d != 0.0
    ensures Push(a, b, d).x == (a.radius + b.radius - d) * ((b.x - a.x) / d) && Push(a, b, d).y == (a.radius + b.radius - d) * ((b.y - a.y) / d)
  {
  }

  /**
   * At a positive centre distance d the push has the length of the overlap
   * ra + rb - d and lies along the line of centres.
   */
  lemma PushAlongOffset(a: Body, b: Body, d: real)
    requires IsDistance(a, b, d) && 0.0 < d
    ensures Dot(Push(a, b, d), Push(a, b, d)) == (a.radius + b.radius - d) * (a.radius + b.radius - d)
    ensures Push(a, b, d).x * Offset(a, b).y == Push(a, b, d).y * Offset(a, b).x
  {
    var k := a.radius + b.radius - d;
    assert Push(a, b, d) == Vec(k * Normal(a, b, d).x, k * Normal(a, b, d).y);
    NormalUnit(a, b, d);
    RealAlgebra.ScaledUnit(Push(a, b, d), Normal(a, b, d), k);
    RealAlgebra.ScaledParallel(Push(a, b, d), Normal(a, b, d), Offset(a, b), k, d);
  }

  /** The opposite kicks change the relative velocity of b to a by the total impulse k = j (ma + mb) along n. */
  lemma KickedRelative(a: Body, b: Body, a': Body, b': Body, n: Vec, j: real, k: real)
    requires Kicked(a, b, a', b', n, j) && k == j * (a.mass + b.mass)
    ensures Rel(a', b') == Vec(Rel(a, b).x - k * n.x, Rel(a, b).y - k * n.y)
  {
    RealAlgebra.ImpulseSplit(j, a.mass, b.mass, n.x);
    RealAlgebra.ImpulseSplit(j, a.mass, b.mass, n.y);
  }

  /** The unit normal n projects the offset to the distance d, and d scales a component along n back to one along the offset. */
  lemma NormalOffset(a: Body, b: Body, d: real, n: Vec)
    requires IsDistance(a, b, d) && 0.0 < d && n == Normal(a, b, d)
    ensures Dot(n, Offset(a, b)) == d && Dot(Rel(a, b), n) * d == Dot(Rel(a, b), Offset(a, b))
  {
    RealAlgebra.OffsetDot(Rel(a, b).x, Rel(a, b).y, Offset(a, b).x, Offset(a, b).y, d);
  }

  /** The relative velocity of b' to a' along the offset from a to b is -Elasticity times that of b to a. */
  predicate Restitutes(a: Body, b: Body, a': Body, b': Body)
  {
    Dot(Rel(a', b'), Offset(a, b)) == -Elasticity * Dot(Rel(a, b), Offset(a, b))
  }

  /** The `Impulsive` kick j along the unit normal n reflects the relative velocity along the offset, scaled by Elasticity. */
  lemma KickedReflects(a: Body, b: Body, a': Body, b': Body, d: real, n: Vec, j: real)
    requires IsDistance(a, b, d) && 0.0 < d && n == Normal(a, b, d)
    requires Kicked(a, b, a', b', n, j) && Impulsive(a, b, n, j)
    ensures Restitutes(a, b, a', b')
  {
    var k := j * (a.mass + b.mass);
    KickedRelative(a, b, a', b', n, j, k);
    NormalOffset(a, b, d, n);
    RealAlgebra.Recoil(Rel(a', b'), Rel(a, b), Offset(a, b), n, d, k, Elasticity);
  }

  /** After a collision at the positive centre distance d, the centres are rr = the sum of the radii apart. */
  lemma FiredTouching(a: Body, b: Body, a': Body, b': Body, d: real)
    requires IsDistance(a, b, d) && 0.0 < d && Moved(a, b, a', b', d)
    ensures Dist2(a', b') == (a.radius + b.radius) * (a.radius + b.radius)
  {
    PushValue(a, b, d);
    assert b'.x - a'.x == (b.x - a.x) + (a.radius + b.radius - d) * ((b.x - a.x) / d);
    assert b'.y - a'.y == (b.y - a.y) + (a.radius + b.radius - d) * ((b.y - a.y) / d);
    RealAlgebra.TouchOffset(b.x - a.x, b.y - a.y, d, a.radius + b.radius);
  }

  /** A pair that touches or overlaps at a positive distance ends exactly touching: its new centre distance is the sum of the radii. */
  lemma CollideLeavesTouching(a: Body, b: Body, d: real)
    requires IsDistance(a, b, d) && 0.0 < d <= a.radius + b.radius
    ensures var Pair(a', b') := Collide(a, b, d);
      Dist2(a', b') == (a.radius + b.radius) * (a.radius + b.radius)
  {
    CollideMoves(a, b, d);
    FiredTouching(a, b, Collide(a, b, d).first, Collide(a, b, d).second, d);
  }

  /**
   * Two balls with coincident centres (d == 0) are pushed apart along x until
   * they touch; their velocities are kept.
   */
  lemma CollideCoincident(a: Body, b: Body)
    requires a.x == b.x && a.y == b.y && 0.0 <= a.radius + b.radius
    ensures var Pair(a', b') := Collide(a, b, 0.0);
      b'.x - a'.x == a.radius + b.radius && b'.y == a'.y &&
      a'.vx == a.vx && a'.vy == a.vy && b'.vx == b.vx && b'.vy == b.vy
  {
  }

  /**
   * When the collision fires with d > 0, the relative velocity along the line
   * of centres is reversed and scaled by the restitution coefficient. This is
   * `CollideRestitutes` written out in coordinates for readers.
   */
  lemma CollideRestitution(a: Body, b: Body, d: real)
    requires a.mass > 0.0 && b.mass > 0.0
    requires IsDistance(a, b, d) && 0.0 < d <= a.radius + b.radius
    ensures var Pair(a', b') := Collide(a, b, d);
      var dx, dy := b.x - a.x, b.y - a.y;
      (b'.vx - a'.vx) * dx + (b'.vy - a'.vy) * dy == -Elasticity * ((b.vx - a.vx) * dx + (b.vy - a.vy) * dy)
  {
    CollideRestitutes(a, b, d);
    assert Restitutes(a, b, Collide(a, b, d).first, Collide(a, b, d).second);
  }

  /** The collision of a massive pair at a positive distance within reach restitutes. */
  lemma CollideRestitutes(a: Body, b: Body, d: real)
    requires a.mass > 0.0 && b.mass > 0.0
    requires IsDistance(a, b, d) && 0.0 < d <= a.radius + b.radius
    ensures Restitutes(a, b, Collide(a, b, d).first, Collide(a, b, d).second)
  {
    CollideKicks(a, b, d);
    TotalImpulse(a, b, d);
    KickedReflects(a, b, Collide(a, b, d).first, Collide(a, b, d).second, d, Normal(a, b, d), Impulse(a, b, d));
  }

  /**
   * Two balls of equal mass meeting head-on along x with velocities (1, 0) and
   * (-1, 0) leave with (-0.5, 0) and (0.5, 0).
   */
  lemma HeadOnExample(m: real, r: real, ca: string, cb: string)
    requires m > 0.0 && r >= 1.0
    ensures var Pair(a', b') := Collide(Body(0.0, 0.0, 1.0, 0.0, r, m, ca), Body(1.0, 0.0, -1.0, 0.0, r, m, cb), 1.0);
      a'.vx == -0.5 && a'.vy == 0.0 && b'.vx == 0.5 && b'.vy == 0.0
  {
    var impulse := (1.0 + Elasticity) * -2.0 / (m + m);
    assert impulse * m == -1.5;
  }

  /** The positional correction of `handleCollision`: ball moves back and other forward by half of (ax, ay). */
  method Separate(ball: Ball, other: Ball, ax: real, ay: real)
    requires ball != other
    modifies ball, other
    ensures Pair(ball.Snapshot(), other.Snapshot()) == Shift(old(ball.Snapshot()), old(other.Snapshot()), Vec(ax, ay))
  {
    ball.x := ball.x - ax / 2.0;
    ball.y := ball.y - ay / 2.0;
    other.x := other.x + ax / 2.0;
    other.y := other.y + ay / 2.0;
  }

  /** The velocity update of `handleCollision`: the impulse along the unit normal (normalX, normalY). */
  method Exchange(ball: Ball, other: Ball, normalX: real, normalY: real, impulse: real)
    requires ball != other
    modifies ball, other
    ensures Pair(ball.Snapshot(), other.Snapshot()) == Bounce(old(ball.Snapshot()), old(other.Snapshot()), ball.mass, other.mass, Vec(normalX, normalY), impulse)
  {
    ball.vx := ball.vx + impulse * other.mass * normalX;
    ball.vy := ball.vy + impulse * other.mass * normalY;
    other.vx := other.vx - impulse * ball.mass * normalX;
    other.vy := other.vy - impulse * ball.mass * normalY;
  }

  /**
   * `handleCollision`: resolves the pair in place. `sqrt` stands for
   * `Math.sqrt`; the result is the pair `Collide` gives for the distance it computes.
   */
  method HandleCollision(ball: Ball, other: Ball, sqrt: real -> real)
    requires ball != other
    modifies ball, other
    ensures var a, b := old(ball.Snapshot()), old(other.Snapshot());
      Pair(ball.Snapshot(), other.Snapshot()) == Collide(a, b, sqrt(Dist2(a, b)))
  {
    var a, b := ball.Snapshot(), other.Snapshot();
    var distance := sqrt(Dist2(a, b));
    if distance <= ball.radius + other.radius {
      var Vec(ax, ay) := Push(a, b, distance);
      Separate(ball, other, ax, ay);
      if distance != 0.0 {
        var Vec(normalX, normalY) := Normal(a, b, distance);
        var impulse := Impulse(a, b, distance);
        Exchange(ball, other, normalX, normalY, impulse);
      }
    }
  }
}
