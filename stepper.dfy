/**
 * The physics half of one animation frame (`drawBalls`). For each ball i in
 * array order: resolve the pairs (i, j) for every later j in turn, then apply
 * friction, translate, and reflect at most once per axis off the walls.
 *
 * The square root the source takes of each pair's squared distance is the
 * parameter `sqrt`. The frame itself is defined for any `sqrt`; when `IsSqrt`
 * holds, `PairDistanceIs` makes each pair's distance the centre distance the
 * collision lemmas take, and the `ResolvePair` lemmas below carry them to the
 * frame's sequence.
 */
module Stepper {
  import opened Balls
  import opened Collision

  /** `sqrt` returns the non-negative square root of every non-negative real. */
  ghost predicate IsSqrt(sqrt: real -> real)
  {
    forall t :: 0.0 <= t ==> 0.0 <= sqrt(t) && sqrt(t) * sqrt(t) == t
  }

  /** The leading edge of a ball at coordinate c with radius r lies beyond [0, extent]. */
  predicate Escapes(c: real, r: real, extent: real)
  {
    c - r < 0.0 || c + r > extent
  }

  /**
   * A ball's own update after its collision pass: friction, translation, and
   * on each axis separately a single reflection that negates the velocity and
   * moves once more by it.
   */
  function Settle(b: Body, width: real, height: real): (r: Body)
    ensures r.radius == b.radius && r.mass == b.mass && r.color == b.color
  {
    var vx := b.vx * Friction;
    var vy := b.vy * Friction;
    var x := b.x + vx;
    var y := b.y + vy;
    var (x', vx') := if Escapes(x, b.radius, width) then (x + -vx, -vx) else (x, vx);
    var (y', vy') := if Escapes(y, b.radius, height) then (y + -vy, -vy) else (y, vy);
    b.(x := x', y := y', vx := vx', vy := vy')
  }

  /**
   * On each axis, a ball that would cross a wall stays where it was and has its
   * damped velocity reversed; any other ball moves by its damped velocity.
   */
  lemma SettleAxes(b: Body, width: real, height: real)
    ensures var r := Settle(b, width, height);
      var vx, vy := b.vx * Friction, b.vy * Friction;
      (if Escapes(b.x + vx, b.radius, width) then r.x == b.x && r.vx == -vx else r.x == b.x + vx && r.vx == vx) &&
      (if Escapes(b.y + vy, b.radius, height) then r.y == b.y && r.vy == -vy else r.y == b.y + vy && r.vy == vy)
  {
  }

  /** A ball wholly inside the field before its own update is wholly inside after it. */
  lemma SettleStaysInField(b: Body, width: real, height: real)
    requires InField(b, width, height)
    ensures InField(Settle(b, width, height), width, height)
  {
    SettleAxes(b, width, height);
  }

  /**
   * A ball at x = 2 with radius 5 moving left at 3 per frame: friction makes its
   * velocity -2.97, translation takes it to -0.97, the wall reverses the velocity
   * and the second move brings it back to x = 2 with velocity 2.97.
   */
  lemma WallExample(c: string)
    ensures Settle(Body(2.0, 100.0, -3.0, 0.0, 5.0, MassOf(5.0), c), 1200.0, 800.0)
      == Body(2.0, 100.0, 2.97, 0.0, 5.0, MassOf(5.0), c)
  {
  }

  /** The centre distance of bodies i and j of s, as the frame computes it. */
  function PairDistance(s: seq<Body>, i: nat, j: nat, sqrt: real -> real): real
    requires i < |s| && j < |s|
  {
    sqrt(Dist2(s[i], s[j]))
  }

  /** s with the pair (i, j) resolved. */
  function ResolvePair(s: seq<Body>, i: nat, j: nat, sqrt: real -> real): (r: seq<Body>)
    requires i < j < |s|
    ensures |r| == |s|
  {
    var Pair(a, b) := Collide(s[i], s[j], PairDistance(s, i, j, sqrt));
    s[i := a][j := b]
  }

  /** With `sqrt` the square root, the frame's distance for a pair is their centre distance. */
  lemma PairDistanceIs(s: seq<Body>, i: nat, j: nat, sqrt: real -> real)
    requires IsSqrt(sqrt) && i < |s| && j < |s|
    ensures IsDistance(s[i], s[j], PairDistance(s, i, j, sqrt))
  {
  }

  /** Resolving a pair whose centres are farther apart than the sum of their radii changes nothing. */
  lemma ResolvePairApart(s: seq<Body>, i: nat, j: nat, sqrt: real -> real)
    requires IsSqrt(sqrt) && i < j < |s|
    requires (s[i].radius + s[j].radius) * (s[i].radius + s[j].radius) < Dist2(s[i], s[j])
    ensures ResolvePair(s, i, j, sqrt) == s
  {
    PairDistanceIs(s, i, j, sqrt);
    CollideApart(s[i], s[j], PairDistance(s, i, j, sqrt));
  }

  /**
   * Resolving a pair that touches or overlaps at a positive distance leaves
   * its centres exactly the sum of the radii apart and, for massive balls,
   * reflects their relative velocity along the old line of centres scaled by
   * `Elasticity`; the other balls are left alone.
   */
  lemma ResolvePairTouching(s: seq<Body>, i: nat, j: nat, sqrt: real -> real)
    requires IsSqrt(sqrt) && i < j < |s|
    requires 0.0 < PairDistance(s, i, j, sqrt) <= s[i].radius + s[j].radius
    ensures var r := ResolvePair(s, i, j, sqrt);
      Dist2(r[i], r[j]) == (s[i].radius + s[j].radius) * (s[i].radius + s[j].radius) &&
      (s[i].mass > 0.0 && s[j].mass > 0.0 ==> Restitutes(s[i], s[j], r[i], r[j])) &&
      forall k :: 0 <= k < |s| && k != i && k != j ==> r[k] == s[k]
  {
    var d := PairDistance(s, i, j, sqrt);
    PairDistanceIs(s, i, j, sqrt);
    CollideLeavesTouching(s[i], s[j], d);
    if s[i].mass > 0.0 && s[j].mass > 0.0 {
      CollideRestitutes(s[i], s[j], d);
    }
  }

  /** s after the pairs (i, i + 1), ..., (i, j - 1) have been resolved one after the other. */
  function ResolveUpTo(s: seq<Body>, i: nat, j: nat, sqrt: real -> real): (r: seq<Body>)
    requires i < j <= |s|
    ensures |r| == |s|
    decreases j
  {
    if j == i + 1 then s else ResolvePair(ResolveUpTo(s, i, j - 1, sqrt), i, j - 1, sqrt)
  }

  /** s with the collision pass of ball i done and ball i then settled. */
  function StepBall(s: seq<Body>, i: nat, width: real, height: real, sqrt: real -> real): (r: seq<Body>)
    requires i < |s|
    ensures |r| == |s|
  {
    var t := ResolveUpTo(s, i, |s|, sqrt);
    t[i := Settle(t[i], width, height)]
  }

  /** s after the iterations for balls 0, ..., n - 1 of one frame. */
  function StepUpTo(s: seq<Body>, n: nat, width: real, height: real, sqrt: real -> real): (r: seq<Body>)
    requires n <= |s|
    ensures |r| == |s|
  {
    if n == 0 then s else StepBall(StepUpTo(s, n - 1, width, height, sqrt), n - 1, width, height, sqrt)
  }

  /** One whole frame. */
  function Frame(s: seq<Body>, width: real, height: real, sqrt: real -> real): (r: seq<Body>)
    ensures |r| == |s|
  {
    StepUpTo(s, |s|, width, height, sqrt)
  }

  /** The collision pass of ball i leaves every ball before i alone. */
  lemma {:induction false} ResolveKeepsEarlier(s: seq<Body>, i: nat, j: nat, sqrt: real -> real, k: nat)
    requires k < i < j <= |s|
    ensures ResolveUpTo(s, i, j, sqrt)[k] == s[k]
    decreases j
  {
    if j > i + 1 {
      ResolveKeepsEarlier(s, i, j - 1, sqrt, k);
    }
  }

  /** Iteration i of a frame leaves every ball before i alone. */
  lemma StepBallKeepsEarlier(s: seq<Body>, i: nat, width: real, height: real, sqrt: real -> real, k: nat)
    requires k < i < |s|
    ensures StepBall(s, i, width, height, sqrt)[k] == s[k]
  {
    ResolveKeepsEarlier(s, i, |s|, sqrt, k);
  }

  /** Once iteration k of a frame is over, no later iteration changes ball k. */
  lemma {:induction false} SettledBallIsFinal(s: seq<Body>, k: nat, i: nat, m: nat, width: real, height: real, sqrt: real -> real)
    requires k < i <= m <= |s|
    ensures StepUpTo(s, m, width, height, sqrt)[k] == StepUpTo(s, i, width, height, sqrt)[k]
    decreases m
  {
    if m > i {
      StepBallKeepsEarlier(StepUpTo(s, m - 1, width, height, sqrt), m - 1, width, height, sqrt, k);
      SettledBallIsFinal(s, k, i, m - 1, width, height, sqrt);
    }
  }

  /** In the frame, ball i ends as its own update leaves it after its collision pass against every later ball. */
  lemma FrameBall(s: seq<Body>, i: nat, width: real, height: real, sqrt: real -> real)
    requires i < |s|
    ensures var t := ResolveUpTo(StepUpTo(s, i, width, height, sqrt), i, |s|, sqrt);
      Frame(s, width, height, sqrt)[i] == Settle(t[i], width, height)
  {
    SettledBallIsFinal(s, i, i + 1, |s|, width, height, sqrt);
  }

  /** The collision pass of ball i changes no radius, mass or colour. */
  lemma {:induction false} ResolveKeepsShape(s: seq<Body>, i: nat, j: nat, sqrt: real -> real)
    requires i < j <= |s|
    ensures SameShape(s, ResolveUpTo(s, i, j, sqrt))
    decreases j
  {
    if j > i + 1 {
      ResolveKeepsShape(s, i, j - 1, sqrt);
    }
  }

  /** The first n iterations of a frame change no radius, mass or colour. */
  lemma {:induction false} StepKeepsShape(s: seq<Body>, n: nat, width: real, height: real, sqrt: real -> real)
    requires n <= |s|
    ensures SameShape(s, StepUpTo(s, n, width, height, sqrt))
  {
    if n > 0 {
      var t := StepUpTo(s, n - 1, width, height, sqrt);
      StepKeepsShape(s, n - 1, width, height, sqrt);
      ResolveKeepsShape(t, n - 1, |t|, sqrt);
    }
  }

  /** A frame changes no radius, mass or colour; in particular every mass stays the one its radius was created with. */
  lemma FrameKeepsShape(s: seq<Body>, width: real, height: real, sqrt: real -> real)
    ensures SameShape(s, Frame(s, width, height, sqrt))
    ensures AllMassive(s) ==> AllMassive(Frame(s, width, height, sqrt))
  {
    StepKeepsShape(s, |s|, width, height, sqrt);
  }

  /** The ball update on a ball record: friction, translation, one reflection per axis. */
  method Advance(ball: Ball, width: real, height: real)
    modifies ball
    ensures ball.Snapshot() == Settle(old(ball.Snapshot()), width, height)
  {
    ball.vx := ball.vx * Friction;
    ball.vy := ball.vy * Friction;

    ball.x := ball.x + ball.vx;
    ball.y := ball.y + ball.vy;

    if ball.x - ball.radius < 0.0 || ball.x + ball.radius > width {
      ball.vx := -ball.vx;
      ball.x := ball.x + ball.vx;
    }
    if ball.y - ball.radius < 0.0 || ball.y + ball.radius > height {
      ball.vy := -ball.vy;
      ball.y := ball.y + ball.vy;
    }
  }

  /** Resolves the pair (i, j) of the sequence in place. */
  method ResolvePairInPlace(balls: seq<Ball>, i: nat, j: nat, sqrt: real -> real)
    requires i < j < |balls| && Distinct(balls)
    modifies balls[i], balls[j]
    ensures Snapshots(balls) == ResolvePair(old(Snapshots(balls)), i, j, sqrt)
  {
    ghost var s := Snapshots(balls);
    var ball, other := balls[i], balls[j];
    HandleCollision(ball, other, sqrt);
    ghost var r := Collide(s[i], s[j], PairDistance(s, i, j, sqrt));
    forall k | 0 <= k < |balls|
      ensures Snapshots(balls)[k] == s[i := r.first][j := r.second][k]
    {
      if k != i && k != j {
        assert balls[k] != ball && balls[k] != other;
      }
    }
  }

  /** The inner loop of iteration i: ball i is resolved against balls i + 1, ..., in that order. */
  method CollisionPass(balls: seq<Ball>, i: nat, sqrt: real -> real)
    requires i < |balls| && Distinct(balls)
    modifies balls
    ensures Snapshots(balls) == ResolveUpTo(old(Snapshots(balls)), i, |balls|, sqrt)
  {
    ghost var si := Snapshots(balls);
    for j := i + 1 to |balls|
      invariant Snapshots(balls) == ResolveUpTo(si, i, j, sqrt)
    {
      ResolvePairInPlace(balls, i, j, sqrt);
      assert ResolveUpTo(si, i, j + 1, sqrt) == ResolvePair(ResolveUpTo(si, i, j, sqrt), i, j, sqrt);
    }
  }

  /** Applies the ball update to ball i of the sequence in place. */
  method AdvanceInPlace(balls: seq<Ball>, i: nat, width: real, height: real)
    requires i < |balls| && Distinct(balls)
    modifies balls[i]
    ensures var s := old(Snapshots(balls)); Snapshots(balls) == s[i := Settle(s[i], width, height)]
  {
    ghost var s := Snapshots(balls);
    Advance(balls[i], width, height);
    forall k | 0 <= k < |balls|
      ensures Snapshots(balls)[k] == s[i := Settle(s[i], width, height)][k]
    {
      if k != i {
        assert balls[k] != balls[i];
      }
    }
  }

  /** Iteration i of the frame loop: the collision pass of ball i, then its own update. */
  method StepBallInPlace(balls: seq<Ball>, i: nat, width: real, height: real, sqrt: real -> real)
    requires i < |balls| && Distinct(balls)
    modifies balls
    ensures Snapshots(balls) == StepBall(old(Snapshots(balls)), i, width, height, sqrt)
  {
    CollisionPass(balls, i, sqrt);
    AdvanceInPlace(balls, i, width, height);
  }

  /**
   * The physics of one frame over the session's balls: for each ball in order,
   * its collision pass and then its own update.
   */
  method StepFrame(balls: seq<Ball>, width: real, height: real, sqrt: real -> real)
    requires Distinct(balls)
    modifies balls
    ensures Snapshots(balls) == Frame(old(Snapshots(balls)), width, height, sqrt)
  {
    ghost var s0 := Snapshots(balls);
    for i := 0 to |balls|
      invariant Snapshots(balls) == StepUpTo(s0, i, width, height, sqrt)
    {
      StepBallInPlace(balls, i, width, height, sqrt);
    }
  }
}
