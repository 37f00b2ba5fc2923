# Projectile model

A Dafny model of `projectile.py`. That file simulates a point mass thrown from the origin, in two dimensions. The mass feels gravity and quadratic air resistance (F = -k·v·|v| on each axis). The motion is integrated with a fixed time step `dt` until the height drops below zero. The driver `flying_mass` returns five parallel lists: time, x, y, vx and vy.

The model lives in one module, `Projectile` (`projectile.dfy`):

- The two acceleration functions and `update_state` are pure functions over exact reals. Each has lemmas stating the physics it implements.
- One pass of the driver's loop is the function `Step`. The state after n passes is the function `StateAt`.
- The driver itself is the method `FlyingMass`. It has a `while` loop that appends to five `seq<real>` values, as `flying_mass` appends to its five lists. Its loop is proved against `StateAt` through the predicate `Records`.
- The lemmas `RecordedTimes`, `RecordedDragFree` and `RecordedAtRest` carry the properties of the states over to the recorded lists.

The driver threads the time variable through both `update_state` calls in one loop pass (`projectile.py:139-140`). So recorded times advance by `2*dt` per sample, while positions and velocities advance by one `dt`. The model keeps this behaviour: see `Step`, the ensures of `StateAt` (time 2·n·dt after n passes) and `RecordedTimes`.

## Model

| member | source | states |
|---|---|---|
| Projectile.Sign | projectile_package/projectile.py:22 | the local sign is -1, 0 or 1; it is 0 exactly at 0; and sign(v)·v = \|v\| |
| Projectile.AccelerationX | projectile_package/projectile.py:22-23 | mass · a_x = -k·v·\|v\| (Newton's law with quadratic drag); zero velocity or zero k gives zero acceleration |
| Projectile.AccelerationXOpposesMotion | projectile_package/projectile.py:22-23 | with k > 0 and mass > 0, sign(a_x) = -sign(v), and a_x = 0 exactly when v = 0 |
| Projectile.AccelerationY | projectile_package/projectile.py:49-52 | mass · a_y = mass·gravity - k·v·\|v\|: weight plus drag force |
| Projectile.AccelerationYIsGravityPlusDrag | projectile_package/projectile.py:49-52 | a_y = gravity + a_x(v, k, mass); without drag (k = 0) or at rest (v = 0), a_y = gravity |
| Projectile.UpdateState | projectile_package/projectile.py:69-75 | time advances by dt; velocity changes by a·dt; displacement is the mean of old and new velocity times dt |
| Projectile.UpdateStateUniform | projectile_package/projectile.py:69-75 | with a = 0 the motion is uniform: x moves by v·dt and v is unchanged |
| Projectile.UpdateStateFallsFromRest | projectile_package/projectile.py:69-73 | starting at rest with a < 0 and dt ≠ 0, the new position is below the old one |
| Projectile.UpdateStateTimeFree | projectile_package/projectile.py:69-73 | the new position and velocity do not depend on the time passed in |
| Projectile.UpdateStateReversible | projectile_package/projectile.py:69-75 | applying the update with -dt and the same acceleration restores the previous (t, x, v) |
| Projectile.UpdateStateCompose | projectile_package/projectile.py:69-75 | at constant acceleration, steps of dt1 then dt2 equal one step of dt1 + dt2 (the update is exact for uniform acceleration) |
| Projectile.Step | projectile_package/projectile.py:128-140 | one loop pass advances the recorded time by 2·dt, because time passes through both axis updates |
| Projectile.StepHorizontalIndependent | projectile_package/projectile.py:128-139 | the axes are coupled only through time: two states with the same (x, vx) give the same new (x, vx) |
| Projectile.StepVerticalIndependent | projectile_package/projectile.py:129-140 | two states with the same (y, vy) give the same new (y, vy), whatever their time |
| Projectile.StateAt | projectile_package/projectile.py:104-140 | the state after n passes, starting at the origin with the launch velocity, has time 2·n·dt |
| Projectile.LandsAfterFirst | projectile_package/projectile.py:126 | the flight ends at the first state below ground, so its length is unique |
| Projectile.StepDragFreeX | projectile_package/projectile.py:128-139 | with k = 0, a pass keeps vx and moves x by vx·dt |
| Projectile.StepDragFreeY | projectile_package/projectile.py:129-140 | with k = 0, a pass changes vy by g·dt and y by vy·dt + g·dt²/2 |
| Projectile.DragFreeVelocityX | projectile_package/projectile.py:126-139 | with k = 0, after n passes vx = vx0 |
| Projectile.DragFreeHorizontal | projectile_package/projectile.py:126-139 | with k = 0, after n passes x = vx0·n·dt |
| Projectile.DragFreeVerticalVelocity | projectile_package/projectile.py:126-140 | with k = 0, after n passes vy = vy0 + g·n·dt |
| Projectile.DragFreeVertical | projectile_package/projectile.py:126-140 | with k = 0, after n passes y = vy0·(n·dt) + g·(n·dt)²/2: the samples lie on the free-fall parabola |
| Projectile.AtRestLandsAfterOne | projectile_package/projectile.py:104-140 | launched at rest with dt ≠ 0, the state after one pass is at height g·dt²/2 < 0, so the flight lasts exactly one sample |
| Projectile.RecordsAppend | projectile_package/projectile.py:132-136 | appending the next state to the five lists keeps them a faithful record of the flight |
| Projectile.RecordedTimes | projectile_package/projectile.py:132-140 | every recorded time t[i] equals 2·i·dt |
| Projectile.RecordedDragFree | projectile_package/projectile.py:126-140 | with k = 0, every recorded vx[i] = vx0 and x[i] = vx0·i·dt |
| Projectile.RecordedAtRest | projectile_package/projectile.py:104-142 | launched at rest with dt ≠ 0, the recorded lists are exactly [0.0] each |
| Projectile.FlyingMass | projectile_package/projectile.py:78-142 | the five lists have equal length, and entry i is the state after i passes; every recorded height is ≥ 0; when the flight landed, the next state is below ground; the first entry is (0, 0, 0, vx0, vy0) |

Proof helpers, which carry no row of their own:
- `Abs` is the magnitude used in the drag law.
- `Advance` is the state one pass after `StateAt(p, n)`.
- `StepFormula` writes one pass out per component.
- `StateAtNext` and `StateAtDragFreeX`/`StateAtDragFreeY` restate one pass for `StateAt(p, n + 1)`.
- `MulPositive`, `MulNegative`, `FreeFallDrop`, `LinearStep`, `AffineStep`, `ZeroFactor`, `ParabolaAtZero` and `ParabolaStep` are the real-arithmetic steps used by the proofs.

## Left out

- The plotting module is not part of this model. It only draws the returned lists.
- Floating point: all arithmetic is on exact reals. IEEE rounding, overflow and NaN are not modelled, and `v**2` is `v * v`.
- `numpy.sign` is a library call. It is replaced by the local `Sign`, which agrees with it on finite reals (sign(0) = 0).
- Python default arguments (`k=0.0`, `mass=1.0`, `dt=0.1`, `gravity=-9.81`) are not modelled: every argument is explicit. Gravity in the driver is the constant `Gravity = -9.81`.
- A zero mass is excluded by a precondition on every member that divides by it. In projectile.py the drag force is a numpy scalar (it is built with `numpy.sign`), so dividing by a zero mass does not raise: numpy warns and the accelerations become ±inf or nan, and `flying_mass` returns lists tainted by them (a nan height fails the `y >= 0` test, so the flight then stops after one sample).
- FlyingMass: the loop of `flying_mass` has no bound. It never ends when the object never goes below ground (for example `dt = 0`, where the state never changes). The model takes a step budget `maxSteps` and returns `landed`. When `landed` is true, the result is exactly what `flying_mass` returns; when it is false, it is the first `maxSteps` samples. A general termination proof for `dt > 0` is not given.
- The claim that drag shortens the flight, compared with the drag-free flight, is not modelled. In this discrete stepper it would compare sample counts, and it need not hold when k·dt is large, because one explicit step can then reverse vy.
- Determinism of the driver is not stated as a lemma of its own. `FlyingMass`'s ensures fix every output: `Records` ties each list entry to `StateAt`, `LandsAfterFirst` makes the landing index unique, and the `landed` and `maxSteps` clauses fix the length. So two calls with equal arguments give equal results.
