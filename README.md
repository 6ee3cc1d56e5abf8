# Bouncing balls field: a verified model of its simulation core

This project models the simulation logic of the `Field` component of a small
2D physics toy. Coloured balls bounce inside a rectangle, collide with each
other and with the walls, slow down under friction, and can be dragged by the
pointer. A click marks a ball so that a colour chosen elsewhere can be applied
to it.

The model consists of:

- `Balls` (balls.dfy): the constants (`Pi`, `Friction` 0.99, `Elasticity` 0.5).
  It also holds the value view of one ball (`Body`) and the mutable record
  `Ball`. Its `radius` and `mass` are `const` fields, so nothing can reassign
  them after construction.
- `Collision` (collision.dfy): `handleCollision`. `Collide` is the pure
  specification of one pair's resolution. `HandleCollision` is the in-place
  method proved equal to it. The lemmas prove that the push-apart is
  symmetric, that momentum is conserved, that a resolved pair ends exactly
  touching, and that the relative velocity along the line of centres is
  reversed and scaled by `Elasticity`.
- `Stepper` (stepper.dfy): the physics half of `drawBalls`. The frame is
  specified over sequences of bodies (`ResolveUpTo`, `StepBall`, `StepUpTo`,
  `Frame`). This keeps the pair order: ball i against i+1, i+2, … in turn,
  then friction, translation and one reflection per axis. The in-place
  methods over the ball records are proved against it. The lemmas prove that
  a ball is never touched again after its own iteration, and that a frame
  changes no radius, mass or colour.
- `Pointer` (pointer.dfy): the hit test and the drag velocity, as pure
  functions. The hit test is "the pointer is strictly inside the ball". The
  functions give the first and the last hit ball and the number of hits. The
  drag velocity is one tenth of the offset from the pointer.
- `Field` (field.dfy): the ball generator, driven by given random draws, and
  the class `Session`. A `Session` holds the balls and the two selection
  references: `selected` is the ball being dragged, and `colorTarget` is the
  ball marked for recolouring. Its methods are the pointer handlers
  (`Press`, `Release`, `Move`, `Click`), the colour-apply effect
  (`ApplyColor`) and one frame of physics (`Step`).
- `RealAlgebra` (algebra.dfy): small facts of real arithmetic used by the
  collision proofs.

All arithmetic is over `real`. Several things become parameters:

- `Math.random()` draws;
- the canvas-relative pointer coordinates;
- the canvas size;
- `Math.sqrt`, passed as `sqrt`. The frame and `HandleCollision` are
  defined for any `sqrt`. `Press` and `Click` require `IsSqrt(sqrt)`, that
  `sqrt` is the exact square root. Under `IsSqrt`, `PairDistanceIs` makes the
  distance the frame computes for a pair the centre distance the collision
  lemmas take. `ResolvePairApart` and `ResolvePairTouching` then carry those
  lemmas to the pairs of a frame.

The calls to `atan2`, `cos` and `sin` are replaced by the exact algebraic
values they stand for: `cos(atan2(dy, dx)) = dx / d` and
`sin(atan2(dy, dx)) = dy / d`. `FlingPolar` ties the drag velocity to the
source's `cos(angle) * speed` form.

Two behaviours of the code are worth stating directly:

- **Wall bounce.** The reflection comes after friction and translation. A
  ball at x = 2 with radius 5 and vx = -3 first slows to -2.97 and moves to
  -0.97. The wall then reverses the velocity and moves it back, so it ends at
  x = 2 with vx = 2.97 (`WallExample`).
- **Impulse sign.** `J` is computed from the velocity of b relative to a
  along the normal from a to b. Ball a gains `J·mb·n` and ball b loses
  `J·ma·n`. For an approaching pair J is negative, so the two are pushed
  apart (`HeadOnExample`, `CollideRestitutes`).

## Model

| member | source | states |
|---|---|---|
| Balls.MassOf | src/components/Field.tsx:25 | the mass π·r³ of a ball with positive radius is positive |
| Balls.Ball.constructor | src/components/Field.tsx:12-27 | the new ball has the given position, velocity, radius and colour, and the mass π·r³ |
| Collision.Push | src/components/Field.tsx:67-70 | the displacement has the length of the overlap ra + rb − d and lies along the line of centres (`PushAlongOffset`); it leaves a pair at d > 0 exactly touching (`FiredTouching`, `CollideLeavesTouching`). At d = 0 it follows `atan2(0, 0) = 0` and is the overlap along +x (`CollideCoincident`) |
| Collision.Shift | src/components/Field.tsx:72-75 | the offset between the centres grows by the displacement, the sum of the centres is unchanged, and nothing but the positions changes |
| Collision.Normal | src/components/Field.tsx:77-78 | for d > 0 the centre distance, the normal is a unit vector whose projection of the offset is d (`NormalUnit`, `NormalOffset`) |
| Collision.NormalUnit | src/components/Field.tsx:77-78 | the normal has length one and projects the offset onto d |
| Collision.Impulse | src/components/Field.tsx:81-85 | for a massive pair, the kick of this impulse turns the relative velocity along the line of centres into −Elasticity times itself (`KickedReflects`, `CollideRestitutes`). For a mass sum of 0 the impulse is 0 |
| Collision.Bounce | src/components/Field.tsx:86-89 | a gains J·mb·n and b loses J·ma·n, which conserves momentum (`KickedConserves`) and changes the relative velocity by −J·(ma + mb)·n (`KickedRelative`) |
| Collision.Collide | src/components/Field.tsx:61-91 | resolving a pair never changes a radius, a mass or a colour |
| Collision.CollideApart | src/components/Field.tsx:64-66 | a pair whose centres are farther apart than the sum of the radii is left exactly as it was |
| Collision.CollideKeepsCentre | src/components/Field.tsx:68-75 | the push-apart is symmetric: a.x + b.x and a.y + b.y are unchanged |
| Collision.KickedConserves | src/components/Field.tsx:86-89 | opposite kicks weighted by the other ball's mass conserve momentum on both axes |
| Collision.CollideConservesMomentum | src/components/Field.tsx:77-89 | ma·va + mb·vb on each axis is the same before and after every collision |
| Collision.PushAlongOffset | src/components/Field.tsx:67-70 | at a positive centre distance d the push has the length of the overlap ra + rb − d and is parallel to the offset between the centres |
| Collision.KickedRelative | src/components/Field.tsx:79-89 | the kicks change the relative velocity of b to a by −J·(ma + mb) times the normal |
| Collision.NormalOffset | src/components/Field.tsx:77-82 | the unit normal projects the offset onto the distance d, and d scales a component along the normal back to one along the offset |
| Collision.KickedReflects | src/components/Field.tsx:77-89 | a kick of that total impulse turns the relative velocity along the offset r into −e·r |
| Collision.CollideRestitutes | src/components/Field.tsx:77-89 | a massive pair colliding at 0 < d ≤ ra + rb has its relative velocity along the line of centres multiplied by −Elasticity |
| Collision.CollideRestitution | src/components/Field.tsx:77-89 | `CollideRestitutes` written out in coordinates for readers: (b'.v − a'.v)·(b − a) = −0.5·(b.v − a.v)·(b − a) |
| Collision.FiredTouching | src/components/Field.tsx:66-75 | after the push-apart at d > 0 the centres are exactly ra + rb apart |
| Collision.CollideLeavesTouching | src/components/Field.tsx:64-75 | a touching or overlapping pair at d > 0 ends exactly touching |
| Collision.CollideCoincident | src/components/Field.tsx:67-75 | coincident centres are pushed apart along +x until they touch, and the velocities are kept |
| Collision.HeadOnExample | src/components/Field.tsx:77-89 | equal masses meeting head-on with velocities (1, 0) and (−1, 0) leave with (−0.5, 0) and (0.5, 0) |
| Collision.Separate | src/components/Field.tsx:72-75 | the positional correction moves ball back and other forward by half of (ax, ay) |
| Collision.Exchange | src/components/Field.tsx:86-89 | the velocity update gives both balls the impulse along the normal, weighted by the other's mass |
| Collision.HandleCollision | src/components/Field.tsx:61-91 | the pair after the in-place update is `Collide` of the pair before, at distance `sqrt(dx² + dy²)` |
| Stepper.Settle | src/components/Field.tsx:123-139 | a ball's own update changes no radius, mass or colour |
| Stepper.SettleAxes | src/components/Field.tsx:123-139 | on each axis independently, a ball that would cross a wall stays in place with its damped velocity negated; any other ball moves by its damped velocity |
| Stepper.SettleStaysInField | src/components/Field.tsx:129-139 | a ball wholly inside the field before its own update is wholly inside after it |
| Stepper.WallExample | src/components/Field.tsx:123-139 | a ball at x = 2, r = 5, vx = −3 ends at x = 2 with vx = 2.97 |
| Stepper.Escapes | src/components/Field.tsx:129-135 | the wall test: the edge of the ball lies beyond 0 or beyond the extent. `SettleAxes` states what `Settle` does on each axis when it holds and when it does not |
| Stepper.PairDistanceIs | src/components/Field.tsx:62-64 | with `sqrt` the exact square root, the distance the frame computes for a pair is their centre distance |
| Stepper.ResolvePairApart | src/components/Field.tsx:64-66 | in a frame, resolving a pair whose centres are farther apart than the sum of the radii changes no ball |
| Stepper.ResolvePairTouching | src/components/Field.tsx:64-89 | in a frame, a touching or overlapping pair at d > 0 ends exactly touching. A massive pair has its relative velocity along the line of centres multiplied by −Elasticity. Every other ball is unchanged |
| Stepper.ResolvePair | src/components/Field.tsx:119-121 | resolving the pair (i, j) keeps the number of balls |
| Stepper.ResolveUpTo | src/components/Field.tsx:119-121 | resolving ball i against i+1, …, j−1 in turn keeps the number of balls |
| Stepper.StepBall | src/components/Field.tsx:112-140 | iteration i keeps the number of balls |
| Stepper.StepUpTo | src/components/Field.tsx:112-140 | the first n iterations keep the number of balls |
| Stepper.Frame | src/components/Field.tsx:112-140 | a frame keeps the number of balls |
| Stepper.ResolveKeepsEarlier | src/components/Field.tsx:119-121 | the collision pass of ball i leaves every ball before i alone |
| Stepper.StepBallKeepsEarlier | src/components/Field.tsx:112-140 | iteration i leaves every ball before i alone |
| Stepper.SettledBallIsFinal | src/components/Field.tsx:112-140 | once iteration k is over, no later iteration of the frame changes ball k |
| Stepper.FrameBall | src/components/Field.tsx:112-140 | ball i ends the frame as its own update leaves it after its collision pass against every later ball |
| Stepper.ResolveKeepsShape | src/components/Field.tsx:119-121 | a collision pass changes no radius, mass or colour |
| Stepper.StepKeepsShape | src/components/Field.tsx:112-140 | the first n iterations change no radius, mass or colour |
| Stepper.FrameKeepsShape | src/components/Field.tsx:112-140 | a frame changes no radius, mass or colour, so every mass stays π·r³ |
| Stepper.Advance | src/components/Field.tsx:123-139 | the in-place ball update is `Settle` |
| Stepper.ResolvePairInPlace | src/components/Field.tsx:119-121 | resolving balls i and j in place is `ResolvePair` on the values, and every other ball is unchanged |
| Stepper.CollisionPass | src/components/Field.tsx:119-121 | the inner loop over j > i is `ResolveUpTo` |
| Stepper.AdvanceInPlace | src/components/Field.tsx:123-139 | updating ball i in place replaces element i of the values by `Settle` of it |
| Stepper.StepBallInPlace | src/components/Field.tsx:113-139 | one iteration of the frame loop is `StepBall` |
| Stepper.StepFrame | src/components/Field.tsx:112-140 | the physics of one frame over the ball records is `Frame` of their values |
| Pointer.PointerDist2 | src/components/Field.tsx:151-153 | the squared distance to the pointer is non-negative |
| Pointer.Hit | src/components/Field.tsx:151-155 | the hit test of press (lines 151-155) and of click (lines 193-197). For a ball of non-negative radius it holds exactly when the distance is below the radius (`HitWithin`, `SqrtHit`) |
| Pointer.HitWithin | src/components/Field.tsx:151-155 | for the distance d to a ball of non-negative radius, `Hit` holds exactly when d < radius |
| Pointer.FirstHit | src/components/Field.tsx:150-159 | the first containing ball in array order: contains the pointer, no earlier ball does, and none exists exactly when no ball contains the pointer |
| Pointer.FirstHitAt | src/components/Field.tsx:150-159 | a containing ball with no containing ball before it is the first hit |
| Pointer.LastHit | src/components/Field.tsx:192-201 | the last containing ball in array order: contains the pointer, no later ball does, and none exists exactly when no ball contains the pointer |
| Pointer.CountHits | src/components/Field.tsx:192-201 | the number of containing balls is at most the number of balls, and is 0 exactly when no ball contains the pointer |
| Pointer.HitsExtend | src/components/Field.tsx:192-201 | one more ball adds one to the count and becomes the last hit exactly when it contains the pointer |
| Pointer.TwoHits | src/components/Field.tsx:192-201 | two different containing balls count at least twice |
| Pointer.FirstAndLast | src/components/Field.tsx:150-201 | press and click find a ball in the same cases, the pressed ball never comes after the clicked one, and with a single containing ball they are the same ball |
| Pointer.Fling | src/components/Field.tsx:166-185 | the drag update keeps position, radius, mass and colour |
| Pointer.FlingAway | src/components/Field.tsx:176-183 | the drag velocity points away from the pointer, its squared speed is a hundredth of the squared distance, and it is zero exactly when the pointer is at the centre |
| Pointer.FlingPolar | src/components/Field.tsx:172-183 | for d > 0, cos(angle)·speed and sin(angle)·speed, with speed = 0.1·d, equal the drag velocity |
| Field.Pick | src/components/Field.tsx:44-48 | `floor(u·20) + 5` of a draw in [0, 1) is an integer in [5, 24] |
| Field.Place | src/components/Field.tsx:49-50 | `u·span + r` of a draw in [0, 1) lies in [r, r + span) |
| Field.Spawn | src/components/Field.tsx:48-56 | the ball generated from one set of draws. `SpawnedBall` states its radius, the bounds of its position, that it is at rest, and its mass |
| Field.SpawnedBall | src/components/Field.tsx:48-56 | a generated ball has an integer radius in [5, 24] and r ≤ x < 1400 − r, r ≤ y < 600 − r; it is at rest and has mass π·r³ |
| Field.SqrtHit | src/components/Field.tsx:151-155 | with `sqrt` the square root, the handlers' test `sqrt(dx² + dy²) < radius` is `Hit` |
| Field.Generate | src/components/Field.tsx:43-59 | the generator creates `Pick(countDraw)` distinct new balls, ball k from draw k |
| Field.Session.constructor | src/components/Field.tsx:40-59 | a new session has the generated balls, nothing held and nothing marked |
| Field.Session.Press | src/components/Field.tsx:145-160 | for `mousedown`, the first containing ball becomes held; with none, the selection is unchanged; the colour mark is unchanged |
| Field.Session.Release | src/components/Field.tsx:162-164 | for `mouseup` and `mouseout`, nothing is held any more; the colour mark is unchanged |
| Field.Session.Move | src/components/Field.tsx:166-185 | only the held ball changes, and it becomes `Fling` of itself; with nothing held nothing changes |
| Field.Session.Click | src/components/Field.tsx:187-202 | the last containing ball becomes marked (with none the mark is unchanged); `onBallClick` is called once per containing ball; no ball and not the held selection changes |
| Field.Session.ApplyColor | src/components/Field.tsx:93-98 | with a mark and a non-empty colour, only the marked ball's colour changes; the mark is always cleared, so a second application recolours nothing |
| Field.Session.Step | src/components/Field.tsx:107-143 | one animation frame over the session's balls is `Frame` of their values |

## Left out

- Canvas painting and the animation loop are left out: `clearRect`, `fillRect`, `arc`, `fill`, `requestAnimationFrame`. This is rendering and host scheduling. `Field.Session.Step` is the physics of one frame, and `Stepper.StepFrame` runs that frame over the balls.
- React hooks, refs and listener registration are left out. The refs are the fields of `Session`, and each handler is a method. The `balls?.length` guard is not modelled, because a frame over no balls does nothing anyway.
- `getBoundingClientRect` is left out. Pointer coordinates are given relative to the canvas.
- `Math.random` and the `rgb(...)` formatting are left out. The draws are parameters in [0, 1), and the colour is an opaque string inside each `Draw`.
- Collision.HandleCollision: `Math.sqrt` is the parameter `sqrt`. Only `Press` and `Click` require `IsSqrt(sqrt)`, that it is the exact square root. The frame holds for any `sqrt`, and the frame lemmas about distances (`PairDistanceIs`, `ResolvePairApart`, `ResolvePairTouching`) require `IsSqrt`.
- Collision.Push, Pointer.Fling: the calls to `atan2`, `cos` and `sin` are replaced by the exact values they stand for. `Push` uses `overlap·dx/d` and `overlap·dy/d` in place of `overlap·cos(atan2(dy, dx))` and `overlap·sin(atan2(dy, dx))`. `Fling` uses `0.1·(ball − pointer)` in place of `cos(atan2(...))·0.1·distance` and `sin(atan2(...))·0.1·distance`, and `FlingPolar` ties the two forms together.
- IEEE floating point is left out: rounding, overflow and NaN are not modelled, and all arithmetic is exact over `real`.
- Balls.MassOf: π is the 16-digit literal of `Math.PI`. The proofs use only that it is positive.
- Collision.Collide: at centre distance 0 the source divides by zero in the velocity update, so the velocities become NaN. The model keeps the velocities unchanged there. The push-apart at distance 0 follows `atan2(0, 0) = 0` and goes along +x (`CollideCoincident`).
- Collision.Impulse: a pair whose mass sum is 0 would divide by zero; the impulse is taken as 0 there. Every ball of a session has a positive radius and so a positive mass, so this case does not arise in a session.
- Collision.CollideRestitution: requires positive masses, because the massless case above has no restitution.
- Field.Session.Step: the physics bounds are parameters. The source steps against the 1200 × 800 canvas but generates balls in 1400 × 600. Generation uses 1400 × 600 (`SpawnWidth`, `SpawnHeight`).
- Field.Generate: the source makes as many draws as it needs. Here the caller supplies at least `Pick(countDraw)` draws.
- Field.Session.ApplyColor: one call stands for one run of the colour effect. React runs that effect only when `colorBall` changes (the dependency list on line 98). So picking the same colour again does not recolour a newly clicked ball. When the effect runs is React scheduling and is not modelled.
- `onBallClick` and the application shell (src/App.tsx) are left out. `Click` returns how many times the callback is called, and what the callback does is not part of this model.
