/** A 2-D projectile under gravity and quadratic air resistance, integrated with
    fixed time steps until it drops below ground level. All quantities are exact
    reals; the model states algebraic identities, not floating-point results. */
module Projectile {

  /** Gravitational acceleration fixed by the driver, in m/s^2. */
  const Gravity: real := -9.81

  function Abs(v: real): (r: real)
    ensures r >= 0.0 && (r == v || r == -v)
  {
    if v < 0.0 then -v else v
  }

  /** The sign of v as -1, 0 or 1, with Sign(0) = 0 (numpy's sign on one real):
      it vanishes exactly at zero and scales v to its magnitude. */
  function Sign(v: real): (r: real)
    ensures r == -1.0 || r == 0.0 || r == 1.0
    ensures r == 0.0 <==> v == 0.0
    ensures r * v == Abs(v)
  {
    if v > 0.0 then 1.0 else if v < 0.0 then -1.0 else 0.0
  }

  /** Horizontal acceleration: quadratic drag only. Newton's law with the drag
      force F = -k * v * |v|, so zero velocity or a zero coefficient gives no
      acceleration. */
  function AccelerationX(v: real, k: real, mass: real): (a: real)
    requires mass != 0.0
    ensures mass * a == -k * v * Abs(v)
    ensures v == 0.0 || k == 0.0 ==> a == 0.0
  {
    var forceAir := -Sign(v) * k * v * v;
    forceAir / mass
  }

  /** With a positive coefficient and mass, drag opposes the motion: the
      acceleration has the opposite sign of the velocity, and vanishes exactly
      when the velocity does. */
  lemma AccelerationXOpposesMotion(v: real, k: real, mass: real)
    requires k > 0.0 && mass > 0.0
    ensures Sign(AccelerationX(v, k, mass)) == -Sign(v)
    ensures AccelerationX(v, k, mass) == 0.0 <==> v == 0.0
  {
  }

  lemma MulPositive(a: real, b: real)
    requires a > 0.0 && b > 0.0
    ensures a * b > 0.0
  {
  }

  lemma MulNegative(a: real, b: real)
    requires a < 0.0 && b < 0.0
    ensures a * b > 0.0
  {
  }

  /** Vertical acceleration: gravity plus the same quadratic drag, so that
      mass times it is the weight plus the drag force. */
  function AccelerationY(v: real, k: real, mass: real, gravity: real): (a: real)
    requires mass != 0.0
    ensures mass * a == mass * gravity - k * v * Abs(v)
  {
    var forceGravity := mass * gravity;
    var forceAir := -Sign(v) * k * v * v;
    var totalForce := forceGravity + forceAir;
    totalForce / mass
  }

  /** The vertical acceleration is gravity plus the horizontal drag law;
      without drag it is gravity exactly. */
  lemma AccelerationYIsGravityPlusDrag(v: real, k: real, mass: real, gravity: real)
    requires mass != 0.0
    ensures AccelerationY(v, k, mass, gravity) == gravity + AccelerationX(v, k, mass)
    ensures k == 0.0 || v == 0.0 ==> AccelerationY(v, k, mass, gravity) == gravity
  {
  }

  /** The time, position and velocity of one axis. */
  datatype AxisState = AxisState(t: real, x: real, v: real)

  /** One kinematic step of length dt at constant acceleration a: time
      advances by dt, the velocity changes by a * dt, and the position moves
      by the mean of the old and new velocity times dt. */
  function UpdateState(t: real, x: real, v: real, a: real, dt: real): (r: AxisState)
    ensures r.t - t == dt && r.v - v == a * dt && r.x - x == (v + r.v) / 2.0 * dt
  {
    var distanceMoved := v * dt + (1.0 / 2.0) * a * (dt * dt);
    var v' := v + a * dt;
    var t' := t + dt;
    var x' := x + distanceMoved;
    AxisState(t', x', v')
  }

  /** Without acceleration the motion is uniform. */
  lemma UpdateStateUniform(t: real, x: real, v: real, dt: real)
    ensures UpdateState(t, x, v, 0.0, dt) == AxisState(t + dt, x + v * dt, v)
  {
  }

  /** Falling from rest for a nonzero time under a negative acceleration lowers
      the position. */
  lemma UpdateStateFallsFromRest(t: real, x: real, a: real, dt: real)
    requires a < 0.0 && dt != 0.0
    ensures UpdateState(t, x, 0.0, a, dt).x < x
  {
    FreeFallDrop(a, dt, UpdateState(t, x, 0.0, a, dt).x - x);
  }

  /** The new position and velocity do not depend on the time. */
  lemma UpdateStateTimeFree(t1: real, t2: real, x: real, v: real, a: real, dt: real)
    ensures UpdateState(t1, x, v, a, dt).x == UpdateState(t2, x, v, a, dt).x
    ensures UpdateState(t1, x, v, a, dt).v == UpdateState(t2, x, v, a, dt).v
  {
  }

  /** Stepping back by -dt with the same acceleration undoes a step. */
  lemma UpdateStateReversible(t: real, x: real, v: real, a: real, dt: real)
    ensures var r := UpdateState(t, x, v, a, dt);
            UpdateState(r.t, r.x, r.v, a, -dt) == AxisState(t, x, v)
  {
  }

  /** At constant acceleration, a step of dt1 followed by a step of dt2 is one
      step of dt1 + dt2: the update is exact for uniformly accelerated motion. */
  lemma UpdateStateCompose(t: real, x: real, v: real, a: real, dt1: real, dt2: real)
    ensures var r := UpdateState(t, x, v, a, dt1);
            UpdateState(r.t, r.x, r.v, a, dt2) == UpdateState(t, x, v, a, dt1 + dt2)
  {
  }

  /** The arguments of the flight driver: launch velocity, mass, drag
      coefficient and time step. */
  datatype Launch = Launch(vx0: real, vy0: real, mass: real, k: real, dt: real)

  /** The instantaneous state the driver records: time, position, velocity. */
  datatype Sample = Sample(t: real, x: real, y: real, vx: real, vy: real)

  /** One pass of the driver's loop body. The time is threaded through both
      axis updates, so it advances by two time steps per iteration while
      positions and velocities advance by one. */
  function Step(p: Launch, s: Sample): (n: Sample)
    requires p.mass != 0.0
    ensures n.t == s.t + 2.0 * p.dt
  {
    var ax := AccelerationX(s.vx, p.k, p.mass);
    var ay := AccelerationY(s.vy, p.k, p.mass, Gravity);
    var xAxis := UpdateState(s.t, s.x, s.vx, ax, p.dt);
    var yAxis := UpdateState(xAxis.t, s.y, s.vy, ay, p.dt);
    Sample(yAxis.t, xAxis.x, yAxis.x, xAxis.v, yAxis.v)
  }

  /** One iteration written out per component. */
  lemma StepFormula(p: Launch, s: Sample)
    requires p.mass != 0.0
    ensures var ax := AccelerationX(s.vx, p.k, p.mass);
            var ay := AccelerationY(s.vy, p.k, p.mass, Gravity);
            Step(p, s) == Sample(s.t + 2.0 * p.dt,
                                 s.x + s.vx * p.dt + (1.0 / 2.0) * ax * (p.dt * p.dt),
                                 s.y + s.vy * p.dt + (1.0 / 2.0) * ay * (p.dt * p.dt),
                                 s.vx + ax * p.dt, s.vy + ay * p.dt)
  {
    var ax := AccelerationX(s.vx, p.k, p.mass);
    var ay := AccelerationY(s.vy, p.k, p.mass, Gravity);
    var xAxis := UpdateState(s.t, s.x, s.vx, ax, p.dt);
    var yAxis := UpdateState(xAxis.t, s.y, s.vy, ay, p.dt);
    assert xAxis.t == s.t + p.dt && yAxis.t == s.t + 2.0 * p.dt;
  }

  /** The new horizontal state depends only on the old horizontal state: the
      axes are coupled only through time. */
  lemma StepHorizontalIndependent(p: Launch, s: Sample, s': Sample)
    requires p.mass != 0.0 && s.x == s'.x && s.vx == s'.vx
    ensures Step(p, s).x == Step(p, s').x && Step(p, s).vx == Step(p, s').vx
  {
    UpdateStateTimeFree(s.t, s'.t, s.x, s.vx, AccelerationX(s.vx, p.k, p.mass), p.dt);
  }

  /** The new vertical state depends only on the old vertical state. */
  lemma StepVerticalIndependent(p: Launch, s: Sample, s': Sample)
    requires p.mass != 0.0 && s.y == s'.y && s.vy == s'.vy
    ensures Step(p, s).y == Step(p, s').y && Step(p, s).vy == Step(p, s').vy
  {
    UpdateStateTimeFree(s.t + p.dt, s'.t + p.dt, s.y, s.vy,
                        AccelerationY(s.vy, p.k, p.mass, Gravity), p.dt);
  }

  /** The state after n iterations of the loop body. Its time is 2 * n * dt,
      since every iteration advances the time twice. */
  function StateAt(p: Launch, n: nat): (s: Sample)
    requires p.mass != 0.0
    ensures s.t == 2.0 * (n as real) * p.dt
    decreases n, 0
  {
    if n == 0 then
      ZeroFactor(2.0, n as real, p.dt);
      Sample(0.0, 0.0, 0.0, p.vx0, p.vy0)
    else
      Advance(p, n - 1)
  }

  /** The state one iteration after StateAt(p, n), at time 2 * (n + 1) * dt. */
  function Advance(p: Launch, n: nat): (s: Sample)
    requires p.mass != 0.0
    ensures s.t == 2.0 * ((n + 1) as real) * p.dt
    decreases n, 1
  {
    var prev := StateAt(p, n);
    var next := Step(p, prev);
    LinearStep(n as real, (n + 1) as real, 2.0, p.dt);
    next
  }

  /** Each iteration applies Step to the state it starts from. */
  lemma StateAtNext(p: Launch, n: nat)
    requires p.mass != 0.0
    ensures StateAt(p, n + 1) == Step(p, StateAt(p, n))
  {
    assert StateAt(p, n + 1) == Advance(p, n);
  }

  /** The flight lasts n samples: the first n states are at or above ground
      and the next one is below it. */
  ghost predicate LandsAfter(p: Launch, n: nat)
    requires p.mass != 0.0
  {
    (forall i: nat :: i < n ==> StateAt(p, i).y >= 0.0) && StateAt(p, n).y < 0.0
  }

  /** The flight ends at the first state below ground: no earlier state is
      below ground, so a flight length is unique. */
  lemma LandsAfterFirst(p: Launch, n: nat, m: nat)
    requires p.mass != 0.0
    requires LandsAfter(p, n) && StateAt(p, m).y < 0.0
    ensures n <= m
  {
  }

  /** Without drag one iteration keeps the horizontal velocity and moves
      uniformly. */
  lemma StepDragFreeX(p: Launch, s: Sample)
    requires p.mass != 0.0 && p.k == 0.0
    ensures Step(p, s).vx == s.vx && Step(p, s).x == s.x + s.vx * p.dt
  {
    StepFormula(p, s);
  }

  /** Without drag one iteration is a free-fall step under gravity. */
  lemma StepDragFreeY(p: Launch, s: Sample)
    requires p.mass != 0.0 && p.k == 0.0
    ensures Step(p, s).vy == s.vy + Gravity * p.dt
    ensures Step(p, s).y == s.y + s.vy * p.dt + (1.0 / 2.0) * Gravity * (p.dt * p.dt)
  {
    StepFormula(p, s);
    AccelerationYIsGravityPlusDrag(s.vy, p.k, p.mass, Gravity);
  }

  /** StepDragFreeX for the iteration that follows StateAt(p, n). */
  lemma StateAtDragFreeX(p: Launch, n: nat)
    requires p.mass != 0.0 && p.k == 0.0
    ensures StateAt(p, n + 1).vx == StateAt(p, n).vx
    ensures StateAt(p, n + 1).x == StateAt(p, n).x + StateAt(p, n).vx * p.dt
  {
    StateAtNext(p, n);
    StepDragFreeX(p, StateAt(p, n));
  }

  /** StepDragFreeY for the iteration that follows StateAt(p, n). */
  lemma StateAtDragFreeY(p: Launch, n: nat)
    requires p.mass != 0.0 && p.k == 0.0
    ensures StateAt(p, n + 1).vy == StateAt(p, n).vy + Gravity * p.dt
    ensures StateAt(p, n + 1).y ==
      StateAt(p, n).y + StateAt(p, n).vy * p.dt + (1.0 / 2.0) * Gravity * (p.dt * p.dt)
  {
    StateAtNext(p, n);
    StepDragFreeY(p, StateAt(p, n));
  }

  /** Without drag the horizontal velocity is constant. */
  lemma {:induction false} DragFreeVelocityX(p: Launch, n: nat)
    requires p.mass != 0.0 && p.k == 0.0
    ensures StateAt(p, n).vx == p.vx0
  {
    if n > 0 {
      DragFreeVelocityX(p, n - 1);
      StateAtDragFreeX(p, n - 1);
    }
  }

  /** Without drag the horizontal position grows linearly. */
  lemma {:induction false} DragFreeHorizontal(p: Launch, n: nat)
    requires p.mass != 0.0 && p.k == 0.0
    ensures StateAt(p, n).x == p.vx0 * (n as real) * p.dt
  {
    if n == 0 {
      ZeroFactor(p.vx0, n as real, p.dt);
    } else {
      var m := n - 1;
      DragFreeHorizontal(p, m);
      DragFreeVelocityX(p, m);
      StateAtDragFreeX(p, m);
      LinearStep(m as real, n as real, p.vx0, p.dt);
    }
  }

  /** A quantity that is c * m * d after m steps and grows by c * d in the
      next one is c * (m + 1) * d. */
  lemma LinearStep(m: real, n: real, c: real, d: real)
    requires n == m + 1.0
    ensures c * m * d + c * d == c * n * d
  {
  }

  lemma ZeroFactor(a: real, z: real, b: real)
    requires z == 0.0
    ensures a * z * b == 0.0
  {
  }

  /** The same, starting from base instead of zero. */
  lemma AffineStep(m: real, n: real, base: real, c: real, d: real, v: real,
                   before: real, after: real)
    requires n == m + 1.0 && v == c && before == base + c * m * d && after == before + v * d
    ensures after == base + c * n * d
  {
  }

  /** Without drag the vertical velocity changes linearly under gravity. */
  lemma {:induction false} DragFreeVerticalVelocity(p: Launch, n: nat)
    requires p.mass != 0.0 && p.k == 0.0
    ensures StateAt(p, n).vy == p.vy0 + Gravity * (n as real) * p.dt
  {
    if n == 0 {
      ZeroFactor(Gravity, n as real, p.dt);
    } else {
      var m := n - 1;
      DragFreeVerticalVelocity(p, m);
      StateAtDragFreeY(p, m);
      AffineStep(m as real, n as real, p.vy0, Gravity, p.dt, Gravity,
                 StateAt(p, m).vy, StateAt(p, n).vy);
    }
  }

  /** Without drag the samples lie exactly on the free-fall parabola
      y = vy0 * s + g * s^2 / 2 at s = n * dt. */
  lemma {:induction false} DragFreeVertical(p: Launch, n: nat)
    requires p.mass != 0.0 && p.k == 0.0
    ensures StateAt(p, n).y ==
      p.vy0 * (n as real) * p.dt + Gravity * ((n as real) * p.dt) * ((n as real) * p.dt) / 2.0
  {
    if n == 0 {
      ParabolaAtZero(p.vy0, Gravity, n as real, p.dt);
    } else {
      var m := n - 1;
      DragFreeVertical(p, m);
      DragFreeVerticalVelocity(p, m);
      StateAtDragFreeY(p, m);
      ParabolaStep(m as real, n as real, p.vy0, Gravity, p.dt,
                   StateAt(p, m).vy, StateAt(p, m).y, StateAt(p, n).y);
    }
  }

  lemma ParabolaAtZero(v0: real, g: real, z: real, d: real)
    requires z == 0.0
    ensures v0 * z * d + g * (z * d) * (z * d) / 2.0 == 0.0
  {
  }

  /** The free-fall parabola sampled at m * dt, advanced by one kinematic step,
      is the parabola sampled at (m + 1) * dt. */
  lemma ParabolaStep(m: real, n: real, v0: real, g: real, d: real, v: real,
                     before: real, after: real)
    requires n == m + 1.0
    requires before == v0 * m * d + g * (m * d) * (m * d) / 2.0
    requires v == v0 + g * m * d
    requires after == before + v * d + (1.0 / 2.0) * g * (d * d)
    ensures after == v0 * n * d + g * (n * d) * (n * d) / 2.0
  {
  }

  /** Launched with no velocity and a nonzero step, the object is below ground
      after one step, so the flight has exactly one sample. */
  lemma AtRestLandsAfterOne(p: Launch)
    requires p.mass != 0.0 && p.vx0 == 0.0 && p.vy0 == 0.0 && p.dt != 0.0
    ensures StateAt(p, 1).y == Gravity * p.dt * p.dt / 2.0
    ensures LandsAfter(p, 1)
  {
    var s0 := Sample(0.0, 0.0, 0.0, p.vx0, p.vy0);
    assert StateAt(p, 0) == s0;
    StateAtNext(p, 0);
    StepFormula(p, s0);
    AccelerationYIsGravityPlusDrag(0.0, p.k, p.mass, Gravity);
    FreeFallDrop(Gravity, p.dt, StateAt(p, 1).y);
  }

  /** The arithmetic behind UpdateStateFallsFromRest: half a negative number
      times a nonzero square is negative. */
  lemma FreeFallDrop(g: real, dt: real, y: real)
    requires g < 0.0 && dt != 0.0 && y == (1.0 / 2.0) * g * (dt * dt)
    ensures y < 0.0
  {
    if dt > 0.0 {
      MulPositive(-g, dt);
      MulPositive(-g * dt, dt);
    } else {
      MulNegative(g, dt);
      MulNegative(-(g * dt), dt);
    }
  }

  /** The five parallel sequences hold the first |t| states of the flight,
      entry i being the state after i iterations. */
  ghost predicate Records(p: Launch, t: seq<real>, x: seq<real>, y: seq<real>,
                          vx: seq<real>, vy: seq<real>)
    requires p.mass != 0.0
  {
    |x| == |t| && |y| == |t| && |vx| == |t| && |vy| == |t| &&
    forall i :: 0 <= i < |t| ==>
      Sample(t[i], x[i], y[i], vx[i], vy[i]) == StateAt(p, i)
  }

  /** Appending the next state keeps the record. */
  lemma RecordsAppend(p: Launch, t: seq<real>, x: seq<real>, y: seq<real>,
                      vx: seq<real>, vy: seq<real>, s: Sample)
    requires p.mass != 0.0
    requires Records(p, t, x, y, vx, vy) && s == StateAt(p, |t|)
    ensures Records(p, t + [s.t], x + [s.x], y + [s.y], vx + [s.vx], vy + [s.vy])
  {
  }

  /** Recorded times are spaced 2 * dt apart from zero. */
  lemma RecordedTimes(p: Launch, t: seq<real>, x: seq<real>, y: seq<real>,
                      vx: seq<real>, vy: seq<real>)
    requires p.mass != 0.0
    requires Records(p, t, x, y, vx, vy)
    ensures forall i :: 0 <= i < |t| ==> t[i] == 2.0 * (i as real) * p.dt
  {
    forall i | 0 <= i < |t| ensures t[i] == 2.0 * (i as real) * p.dt {
      assert t[i] == StateAt(p, i).t;
    }
  }

  /** Without drag the recorded horizontal motion is uniform. */
  lemma RecordedDragFree(p: Launch, t: seq<real>, x: seq<real>, y: seq<real>,
                         vx: seq<real>, vy: seq<real>)
    requires p.mass != 0.0 && p.k == 0.0
    requires Records(p, t, x, y, vx, vy)
    ensures forall i :: 0 <= i < |t| ==> vx[i] == p.vx0 && x[i] == p.vx0 * (i as real) * p.dt
  {
    forall i | 0 <= i < |t| ensures vx[i] == p.vx0 && x[i] == p.vx0 * (i as real) * p.dt {
      assert vx[i] == StateAt(p, i).vx && x[i] == StateAt(p, i).x;
      DragFreeVelocityX(p, i);
      DragFreeHorizontal(p, i);
    }
  }

  /** A flight launched at rest with a nonzero step records exactly one
      sample, the launch point. */
  lemma RecordedAtRest(p: Launch, t: seq<real>, x: seq<real>, y: seq<real>,
                       vx: seq<real>, vy: seq<real>)
    requires p.mass != 0.0 && p.vx0 == 0.0 && p.vy0 == 0.0 && p.dt != 0.0
    requires Records(p, t, x, y, vx, vy) && LandsAfter(p, |t|)
    ensures t == [0.0] && x == [0.0] && y == [0.0] && vx == [0.0] && vy == [0.0]
  {
    AtRestLandsAfterOne(p);
    LandsAfterFirst(p, |t|, 1);
    assert StateAt(p, 0).y == 0.0;
    assert Sample(t[0], x[0], y[0], vx[0], vy[0]) == Sample(0.0, 0.0, 0.0, 0.0, 0.0);
  }

  /** Simulate the flight, recording time, position and velocity at each step
      while the height is not negative. `flying_mass`'s loop in projectile.py
      has no bound and runs forever when the object never lands (dt = 0, say);
      here it stops after maxSteps samples and reports whether the object
      landed. */
  method FlyingMass(vx0: real, vy0: real, mass: real, k: real, dt: real, maxSteps: nat)
    returns (t: seq<real>, x: seq<real>, y: seq<real>, vx: seq<real>, vy: seq<real>, landed: bool)
    requires mass != 0.0
    ensures Records(Launch(vx0, vy0, mass, k, dt), t, x, y, vx, vy)
    ensures |t| <= maxSteps
    ensures forall i :: 0 <= i < |y| ==> y[i] >= 0.0
    ensures landed <==> LandsAfter(Launch(vx0, vy0, mass, k, dt), |t|)
    ensures !landed ==> |t| == maxSteps
    // the launch point is always recorded
    ensures maxSteps > 0 ==>
              |t| > 0 && t[0] == 0.0 && x[0] == 0.0 && y[0] == 0.0 && vx[0] == vx0 && vy[0] == vy0
  {
    ghost var p := Launch(vx0, vy0, mass, k, dt);
    var gravity := Gravity;
    t, x, y, vx, vy := [], [], [], [], [];
    var ti, xi, yi, vxi, vyi := 0.0, 0.0, 0.0, vx0, vy0;
    while yi >= 0.0 && |t| < maxSteps
      invariant Records(p, t, x, y, vx, vy)
      invariant |t| <= maxSteps
      invariant forall i :: 0 <= i < |y| ==> y[i] >= 0.0
      invariant Sample(ti, xi, yi, vxi, vyi) == StateAt(p, |t|)
      decreases maxSteps - |t|
    {
      var ax := AccelerationX(vxi, k, mass);
      var ay := AccelerationY(vyi, k, mass, gravity);
      StateAtNext(p, |t|);
      RecordsAppend(p, t, x, y, vx, vy, Sample(ti, xi, yi, vxi, vyi));
      t, x, y, vx, vy := t + [ti], x + [xi], y + [yi], vx + [vxi], vy + [vyi];
      var xAxis := UpdateState(ti, xi, vxi, ax, dt);
      ti, xi, vxi := xAxis.t, xAxis.x, xAxis.v;
      var yAxis := UpdateState(ti, yi, vyi, ay, dt);
      ti, yi, vyi := yAxis.t, yAxis.x, yAxis.v;
    }
    landed := yi < 0.0;
  }
}
