/**
 * What the pointer handlers compute over the balls' values: which balls contain
 * a pointer position, the first and the last of them in array order, how many
 * there are, and the drag velocity a held ball is given.
 *
 * The source compares `Math.sqrt(dx ** 2 + dy ** 2) < radius`; here the test is
 * on squared distances, and `HitWithin` shows the two agree for every
 * non-negative radius.
 */
module Pointer {
  import opened Balls
  import RealAlgebra

  datatype Option<T> = None | Some(value: T)

  /** Squared distance from the pointer (px, py) to the centre of b. */
  function PointerDist2(b: Body, px: real, py: real): (r: real)
    ensures 0.0 <= r
  {
    (px - b.x) * (px - b.x) + (py - b.y) * (py - b.y)
  }

  /** The pointer (px, py) lies strictly inside ball b. */
  predicate Hit(b: Body, px: real, py: real)
  {
    PointerDist2(b, px, py) < b.radius * b.radius
  }

  /** For a non-negative radius and the distance d to the pointer, `Hit` is the source's `distance < radius`. */
  lemma HitWithin(b: Body, px: real, py: real, d: real)
    requires 0.0 <= b.radius && 0.0 <= d && d * d == PointerDist2(b, px, py)
    ensures Hit(b, px, py) <==> d < b.radius
  {
    if d < b.radius {
      RealAlgebra.SquareBelow(d, b.radius);
    } else {
      RealAlgebra.SquareBelow(b.radius, d);
    }
  }

  /** The index of the first ball of s containing the pointer, if any. */
  function FirstHit(s: seq<Body>, px: real, py: real): (r: Option<nat>)
    ensures r.Some? ==> r.value < |s| && Hit(s[r.value], px, py)
    ensures r.Some? ==> forall k :: 0 <= k < r.value ==> !Hit(s[k], px, py)
    ensures r.None? <==> forall k :: 0 <= k < |s| ==> !Hit(s[k], px, py)
  {
    if |s| == 0 then None
    else if Hit(s[0], px, py) then Some(0)
    else match FirstHit(s[1..], px, py)
      case None => None
      case Some(i) => Some(i + 1)
  }

  /** A hit with no hit before it is the first hit. */
  lemma FirstHitAt(s: seq<Body>, i: nat, px: real, py: real)
    requires i < |s| && Hit(s[i], px, py)
    requires forall k :: 0 <= k < i ==> !Hit(s[k], px, py)
    ensures FirstHit(s, px, py) == Some(i)
  {
  }

  /** The index of the last ball of s containing the pointer, if any. */
  function LastHit(s: seq<Body>, px: real, py: real): (r: Option<nat>)
    ensures r.Some? ==> r.value < |s| && Hit(s[r.value], px, py)
    ensures r.Some? ==> forall k :: r.value < k < |s| ==> !Hit(s[k], px, py)
    ensures r.None? <==> forall k :: 0 <= k < |s| ==> !Hit(s[k], px, py)
  {
    if |s| == 0 then None
    else if Hit(s[|s| - 1], px, py) then Some(|s| - 1)
    else LastHit(s[..|s| - 1], px, py)
  }

  /** The number of balls of s containing the pointer. */
  function CountHits(s: seq<Body>, px: real, py: real): (r: nat)
    ensures r <= |s|
    ensures r == 0 <==> forall k :: 0 <= k < |s| ==> !Hit(s[k], px, py)
  {
    if |s| == 0 then 0
    else CountHits(s[..|s| - 1], px, py) + (if Hit(s[|s| - 1], px, py) then 1 else 0)
  }

  /** Extending the prefix s[..i] by s[i] adds one hit and makes i the last hit exactly when s[i] is hit. */
  lemma HitsExtend(s: seq<Body>, i: nat, px: real, py: real)
    requires i < |s|
    ensures CountHits(s[..i + 1], px, py) == CountHits(s[..i], px, py) + if Hit(s[i], px, py) then 1 else 0
    ensures LastHit(s[..i + 1], px, py) == if Hit(s[i], px, py) then Some(i) else LastHit(s[..i], px, py)
  {
    assert s[..i + 1][..i] == s[..i];
  }

  /** Two different balls containing the pointer count twice. */
  lemma {:induction false} TwoHits(s: seq<Body>, px: real, py: real, i: nat, j: nat)
    requires i < j < |s| && Hit(s[i], px, py) && Hit(s[j], px, py)
    ensures CountHits(s, px, py) >= 2
    decreases |s|
  {
    var t := s[..|s| - 1];
    if j < |s| - 1 {
      assert t[i] == s[i] && t[j] == s[j];
      TwoHits(t, px, py, i, j);
    } else {
      assert t[i] == s[i];
      assert CountHits(t, px, py) != 0;
    }
  }

  /**
   * Press and click look at the same balls: one finds a ball exactly when the
   * other does, the pressed ball never comes after the clicked one, and when
   * exactly one ball contains the pointer they are the same ball.
   */
  lemma FirstAndLast(s: seq<Body>, px: real, py: real)
    ensures FirstHit(s, px, py).Some? <==> LastHit(s, px, py).Some?
    ensures FirstHit(s, px, py).Some? ==> FirstHit(s, px, py).value <= LastHit(s, px, py).value
    ensures CountHits(s, px, py) == 1 ==> FirstHit(s, px, py) == LastHit(s, px, py)
  {
    var f, l := FirstHit(s, px, py), LastHit(s, px, py);
    if f.Some? && l.Some? && f.value != l.value {
      TwoHits(s, px, py, f.value, l.value);
    }
  }

  /** The drag update: b's velocity becomes a tenth of its offset from the pointer (px, py). */
  function Fling(b: Body, px: real, py: real): (r: Body)
    ensures r.x == b.x && r.y == b.y && r.radius == b.radius && r.mass == b.mass && r.color == b.color
  {
    b.(vx := 0.1 * (b.x - px), vy := 0.1 * (b.y - py))
  }

  /**
   * The drag velocity points away from the pointer and its squared speed is a
   * hundredth of the squared distance; it is zero exactly when the pointer is
   * at the centre.
   */
  lemma FlingAway(b: Body, px: real, py: real)
    ensures var r := Fling(b, px, py);
      r.vx * (b.x - px) + r.vy * (b.y - py) >= 0.0 &&
      100.0 * (r.vx * r.vx + r.vy * r.vy) == PointerDist2(b, px, py) &&
      (r.vx == 0.0 && r.vy == 0.0 <==> b.x == px && b.y == py)
  {
  }

  /**
   * With d > 0 the distance to the pointer, `cos(angle) * speed` and
   * `sin(angle) * speed` of the source, with cos and sin of the direction from
   * the pointer to the ball being its components over d and speed being d / 10,
   * give the drag velocity.
   */
  lemma FlingPolar(b: Body, px: real, py: real, d: real)
    requires 0.0 < d && d * d == PointerDist2(b, px, py)
    ensures var r := Fling(b, px, py);
      ((b.x - px) / d) * (d * 0.1) == r.vx && ((b.y - py) / d) * (d * 0.1) == r.vy
  {
    assert ((b.x - px) / d) * d == b.x - px;
    assert ((b.y - py) / d) * d == b.y - py;
  }
}
