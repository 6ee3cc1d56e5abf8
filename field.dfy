/**
 * The `Field` component without its drawing and React wiring: the generation
 * of a session's balls, and a `Session` holding the balls with the two
 * selection references, `selected` (the ball held by the pointer) and
 * `colorTarget` (the ball marked by the last click for recolouring), whose
 * methods are the pointer handlers, the colour-apply effect and the physics of
 * one animation frame.
 *
 * `Math.random()` draws are parameters in [0, 1); `Math.sqrt` is the parameter
 * `sqrt`; pointer coordinates are already relative to the canvas.
 */
module Field {
  import opened Balls
  import opened Pointer
  import opened Stepper
  import RealAlgebra

  /** The rectangle the generator places balls in. */
  const SpawnWidth: real := 1400.0
  const SpawnHeight: real := 600.0

  /** The drag speed is this fraction of the distance to the pointer. */
  const DragFactor: real := 0.1

  /** `Math.floor(u * 20) + 5` for a draw u of `Math.random()`: the ball count and each radius. */
  function Pick(u: real): (n: int)
    requires 0.0 <= u < 1.0
    ensures 5 <= n <= 24
  {
    (u * 20.0).Floor + 5
  }

  /** `u * span + r` for a draw u: with span = extent - 2 r, a centre coordinate that keeps a ball of radius r clear of both edges. */
  function Place(u: real, r: real, span: real): (c: real)
    requires 0.0 <= u < 1.0 && 0.0 < span
    ensures r <= c < r + span
  {
    RealAlgebra.ScaleBelow(u, span);
    u * span + r
  }

  /**
   * The random choices for one ball: the draws for its radius and its two
   * coordinates, and the colour string the source formats from three more.
   */
  datatype Draw = Draw(radius: real, x: real, y: real, color: string)

  /** Every draw of g is a value `Math.random()` can return. */
  predicate IsDraw(g: Draw)
  {
    0.0 <= g.radius < 1.0 && 0.0 <= g.x < 1.0 && 0.0 <= g.y < 1.0
  }

  /** The ball the generator creates from the draws g, at rest. */
  function Spawn(g: Draw): Body
    requires IsDraw(g)
  {
    var r := Pick(g.radius) as real;
    Body(Place(g.x, r, SpawnWidth - 2.0 * r), Place(g.y, r, SpawnHeight - 2.0 * r), 0.0, 0.0, r, MassOf(r), g.color)
  }

  /**
   * A generated ball has a whole radius in [5, 24], lies strictly inside the
   * 1400 x 600 rectangle with its left and top edges possibly on the border, is
   * at rest, and has the mass pi r^3.
   */
  lemma SpawnedBall(g: Draw)
    requires IsDraw(g)
    ensures var b := Spawn(g);
      b.radius == b.radius.Floor as real && 5.0 <= b.radius <= 24.0 &&
      b.radius <= b.x < SpawnWidth - b.radius && b.radius <= b.y < SpawnHeight - b.radius &&
      InField(b, SpawnWidth, SpawnHeight) && b.vx == 0.0 && b.vy == 0.0 && Massive(b)
  {
  }

  /** With `sqrt` the square root, the handlers' test `sqrt(dx ** 2 + dy ** 2) < radius` is `Hit`. */
  lemma SqrtHit(b: Body, px: real, py: real, sqrt: real -> real)
    requires IsSqrt(sqrt) && 0.0 <= b.radius
    ensures Hit(b, px, py) <==> sqrt(PointerDist2(b, px, py)) < b.radius
  {
    HitWithin(b, px, py, sqrt(PointerDist2(b, px, py)));
  }

  /** The generator: `Pick(countDraw)` balls, ball k created from `draws[k]`. */
  method Generate(countDraw: real, draws: seq<Draw>) returns (balls: seq<Ball>)
    requires 0.0 <= countDraw < 1.0 && Pick(countDraw) <= |draws|
    requires forall k :: 0 <= k < |draws| ==> IsDraw(draws[k])
    ensures |balls| == Pick(countDraw) && Distinct(balls)
    ensures forall k :: 0 <= k < |balls| ==> fresh(balls[k]) && balls[k].Valid() && balls[k].Snapshot() == Spawn(draws[k])
  {
    var numBalls := Pick(countDraw);
    balls := [];
    for i := 0 to numBalls
      invariant |balls| == i && Distinct(balls)
      invariant forall k :: 0 <= k < i ==> fresh(balls[k]) && balls[k].Valid() && balls[k].Snapshot() == Spawn(draws[k])
    {
      var radius := Pick(draws[i].radius) as real;
      var x := Place(draws[i].x, radius, SpawnWidth - 2.0 * radius);
      var y := Place(draws[i].y, radius, SpawnHeight - 2.0 * radius);
      var ball := new Ball(x, y, 0.0, 0.0, radius, draws[i].color);
      balls := balls + [ball];
    }
  }

  /** One mounted `Field`: its balls and the two selection references. */
  class Session {
    const balls: seq<Ball>
    var selected: Ball?
    var colorTarget: Ball?

    /** The balls are distinct, each has a positive radius and its creation mass, and each selection is one of them or none. */
    ghost predicate Valid()
      reads this
    {
      Distinct(balls) &&
      (forall k :: 0 <= k < |balls| ==> balls[k].radius > 0.0 && balls[k].Valid()) &&
      (selected == null || selected in balls) &&
      (colorTarget == null || colorTarget in balls)
    }

    /** A new session: the generated balls, nothing held and nothing marked. */
    constructor (countDraw: real, draws: seq<Draw>)
      requires 0.0 <= countDraw < 1.0 && Pick(countDraw) <= |draws|
      requires forall k :: 0 <= k < |draws| ==> IsDraw(draws[k])
      ensures Valid() && selected == null && colorTarget == null
      ensures |balls| == Pick(countDraw)
      ensures forall k :: 0 <= k < |balls| ==> fresh(balls[k]) && balls[k].Snapshot() == Spawn(draws[k])
    {
      var bs := Generate(countDraw, draws);
      forall k | 0 <= k < |bs|
        ensures bs[k].radius > 0.0
      {
        SpawnedBall(draws[k]);
      }
      balls := bs;
      selected := null;
      colorTarget := null;
    }

    /** `handleMouseDown`: holds the first ball containing the pointer; with none, the selection stays as it was. */
    method Press(px: real, py: real, sqrt: real -> real)
      requires Valid() && IsSqrt(sqrt)
      modifies this
      ensures Valid() && colorTarget == old(colorTarget)
      ensures var h := FirstHit(Snapshots(balls), px, py);
        selected == if h.Some? then balls[h.value] else old(selected)
    {
      ghost var s := Snapshots(balls);
      for i := 0 to |balls|
        invariant selected == old(selected) && colorTarget == old(colorTarget)
        invariant forall k :: 0 <= k < i ==> !Hit(s[k], px, py)
      {
        var ball := balls[i];
        var distance := sqrt(PointerDist2(ball.Snapshot(), px, py));
        assert ball.Snapshot() == s[i];
        SqrtHit(s[i], px, py, sqrt);
        if distance < ball.radius {
          FirstHitAt(s, i, px, py);
          selected := ball;
          return;
        }
      }
    }

    /** `handleMouseUp`, registered for `mouseup` and `mouseout`: nothing is held any more. */
    method Release()
      requires Valid()
      modifies this
      ensures Valid() && selected == null && colorTarget == old(colorTarget)
    {
      selected := null;
    }

    /**
     * `handleMouseMove`: a held ball gets the velocity `DragFactor` times its
     * offset from the pointer; its position and every other ball are left
     * alone, and with nothing held nothing changes.
     */
    method Move(px: real, py: real)
      requires Valid()
      modifies selected
      ensures forall k :: 0 <= k < |balls| ==>
        balls[k].Snapshot() == if balls[k] == selected then Fling(old(balls[k].Snapshot()), px, py) else old(balls[k].Snapshot())
    {
      if selected != null {
        selected.vx := DragFactor * (selected.x - px);
        selected.vy := DragFactor * (selected.y - py);
      }
    }

    /**
     * `handleMouseClick`: marks the last ball containing the pointer for
     * recolouring (with none the mark stays as it was) and returns how many
     * times `onBallClick` is called, once per containing ball. No ball changes.
     */
    method Click(px: real, py: real, sqrt: real -> real) returns (calls: nat)
      requires Valid() && IsSqrt(sqrt)
      modifies this
      ensures Valid() && selected == old(selected)
      ensures calls == CountHits(Snapshots(balls), px, py)
      ensures var h := LastHit(Snapshots(balls), px, py);
        colorTarget == if h.Some? then balls[h.value] else old(colorTarget)
    {
      ghost var s := Snapshots(balls);
      calls := 0;
      for i := 0 to |balls|
        invariant selected == old(selected)
        invariant calls == CountHits(s[..i], px, py)
        invariant var h := LastHit(s[..i], px, py);
          colorTarget == if h.Some? then balls[h.value] else old(colorTarget)
      {
        HitsExtend(s, i, px, py);
        var ball := balls[i];
        var distance := sqrt(PointerDist2(ball.Snapshot(), px, py));
        assert ball.Snapshot() == s[i];
        SqrtHit(s[i], px, py, sqrt);
        if distance < ball.radius {
          colorTarget := ball;
          calls := calls + 1;
        }
      }
      assert s[..|balls|] == s;
    }

    /**
     * The colour-apply effect: a marked ball takes the colour `colorBall`
     * unless it is empty; the mark is cleared in every case. Nothing else
     * changes, so a second application without a click in between recolours
     * nothing. One call is one run of the effect, which React makes only when
     * `colorBall` changes.
     */
    method ApplyColor(colorBall: string)
      requires Valid()
      modifies this, colorTarget
      ensures Valid() && colorTarget == null && selected == old(selected)
      ensures forall k :: 0 <= k < |balls| ==>
        balls[k].Snapshot() == if balls[k] == old(colorTarget) && colorBall != "" then old(balls[k].Snapshot()).(color := colorBall) else old(balls[k].Snapshot())
    {
      if colorTarget != null && colorBall != "" {
        colorTarget.color := colorBall;
      }
      colorTarget := null;
    }

    /** The physics of one call of `drawBalls` on a canvas of the given size. */
    method Step(width: real, height: real, sqrt: real -> real)
      requires Valid()
      modifies balls
      ensures Valid()
      ensures Snapshots(balls) == Frame(old(Snapshots(balls)), width, height, sqrt)
    {
      StepFrame(balls, width, height, sqrt);
    }
  }
}
