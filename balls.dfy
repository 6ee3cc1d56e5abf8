/**
 * The bodies of the toy: the constants of the simulation, the value view of one
 * ball (`Body`) and the mutable ball record (`Ball`) whose fields the
 * collision resolver, the frame stepper and the pointer handlers write in place.
 */
module Balls {

  /** `Math.PI`, written to the sixteen digits of the double nearest to pi. Only its sign matters to the proofs. */
  const Pi: real := 3.141592653589793

  /** Per-frame velocity decay factor applied to both axes. */
  const Friction: real := 0.99

  /** Coefficient of restitution of the collision response. */
  const Elasticity: real := 0.5

  /** The mass a ball of the given radius is created with. */
  function MassOf(radius: real): (m: real)
    ensures radius > 0.0 ==> m > 0.0
  {
    Pi * (radius * radius * radius)
  }

  /** The value of a ball at one instant. */
  datatype Body = Body(x: real, y: real, vx: real, vy: real, radius: real, mass: real, color: string)

  /** The body is wholly inside the rectangle [0, width] x [0, height]. */
  predicate InField(b: Body, width: real, height: real)
  {
    b.radius <= b.x <= width - b.radius && b.radius <= b.y <= height - b.radius
  }

  /** A body as the field keeps it: positive radius and the mass fixed at creation. */
  predicate Massive(b: Body)
  {
    b.radius > 0.0 && b.mass == MassOf(b.radius)
  }

  /** Every body of the sequence is `Massive`. */
  predicate AllMassive(s: seq<Body>)
  {
    forall k :: 0 <= k < |s| ==> Massive(s[k])
  }

  /** t is s with only positions and velocities possibly changed: same length, radii, masses and colours. */
  predicate SameShape(s: seq<Body>, t: seq<Body>)
  {
    |t| == |s| &&
    forall k :: 0 <= k < |s| ==> t[k].radius == s[k].radius && t[k].mass == s[k].mass && t[k].color == s[k].color
  }

  /**
   * One ball. Radius and mass are `const`: they are set by the constructor and
   * nothing can assign them afterwards.
   */
  class Ball {
    var x: real
    var y: real
    var vx: real
    var vy: real
    const radius: real
    const mass: real
    var color: string

    /** The mass agrees with the radius. */
    ghost predicate Valid()
    {
      mass == MassOf(radius)
    }

    /** The current value of this ball. */
    function Snapshot(): (b: Body)
      reads this
    {
      Body(x, y, vx, vy, radius, mass, color)
    }

    constructor (x: real, y: real, vx: real, vy: real, radius: real, color: string)
      ensures Valid()
      ensures Snapshot() == Body(x, y, vx, vy, radius, MassOf(radius), color)
    {
      this.x := x;
      this.y := y;
      this.vx := vx;
      this.vy := vy;
      this.radius := radius;
      this.mass := MassOf(radius);
      this.color := color;
    }
  }

  /** No ball occurs twice in the sequence. */
  predicate Distinct(bs: seq<Ball>)
  {
    forall i, j :: 0 <= i < j < |bs| ==> bs[i] != bs[j]
  }

  /** The current values of a sequence of balls. */
  function Snapshots(bs: seq<Ball>): (s: seq<Body>)
    reads bs
    ensures |s| == |bs|
  {
    seq(|bs|, k requires 0 <= k < |bs| reads bs => bs[k].Snapshot())
  }
}
