/** How fast a player runs: toward which speed, how soon, and how it comes to a stop. */
module Walking {
  import opened Movement
  import opened Reals

  /** A direction, as a stick pushed all the way gives it. */
  predicate IsUnit(x: real, y: real) { x * x + y * y == 1.0 }

  /** Moving in the direction (x, y) at this speed. */
  predicate Along(m: Motion, x: real, y: real, speed: real) { m.vx == speed * x && m.vy == speed * y }

  function Size(a: real): real { if a < 0.0 then -a else a }

  lemma LengthAlong(norm: Norm, x: real, y: real, k: real)
    requires IsNorm(norm) && IsUnit(x, y)
    ensures norm(k * x, k * y) == Size(k)
  {
    var n := norm(k * x, k * y);
    assert (k * x) * (k * x) + (k * y) * (k * y) == k * k * (x * x + y * y);
    assert n * n == k * k * (x * x + y * y);
    assert n * n == Size(k) * Size(k);
    SameSquareSameSize(n, Size(k));
  }

  lemma UnitAxis(x: real, y: real)
    requires IsUnit(x, y)
    ensures -1.0 <= x <= 1.0
  {
    assert y * y >= 0.0 && x * x <= 1.0;
    if x > 1.0 { LongerIsLonger(x, 1.0); }
    if x < -1.0 { LongerIsLonger(-x, 1.0); }
  }

  /** A stick pushed all the way is taken as it is. */
  lemma StickIsTaken(norm: Norm, i: Intent)
    requires IsNorm(norm) && IsUnit(i.moveX, i.moveY)
    ensures SanitizeInput(norm, i) == i && HasMovementInput(i)
  {
    UnitAxis(i.moveX, i.moveY);
    UnitAxis(i.moveY, i.moveX);
    LengthAlong(norm, i.moveX, i.moveY, 1.0);
    if !HasMovementInput(i) {
      SmallSquare(i.moveX);
      SmallSquare(i.moveY);
    }
  }

  lemma SmallSquare(a: real)
    requires -INPUT_EPSILON <= a <= INPUT_EPSILON
    ensures a * a <= 0.1
  {
    ProductNonNegative(INPUT_EPSILON - a, INPUT_EPSILON + a);
  }

  // ---------------------------------------------------------------------------------------------
  // Steering along a line
  // ---------------------------------------------------------------------------------------------

  /** A speed moved toward another by at most delta; differences up to the threshold are left alone. */
  function Approached(speed: real, target: real, delta: real): real {
    if Size(target - speed) <= FLOAT_EPSILON then speed
    else if target - speed > delta then speed + delta
    else if speed - target > delta then speed - delta
    else target
  }

  lemma Quotient(delta: real, mag: real)
    requires mag > 0.0
    ensures delta / mag * mag == delta
    ensures delta / mag >= 1.0 <==> delta >= mag
  {
    var q := delta / mag;
    assert q * mag == delta;
    if q >= 1.0 {
      ProductNonNegative(q - 1.0, mag);
      assert (q - 1.0) * mag == delta - mag;
    } else {
      ProductPositive(1.0 - q, mag);
      assert (1.0 - q) * mag == mag - delta;
    }
  }

  lemma ScaledGap(gap: real, delta: real)
    requires delta > 0.0 && Size(gap) > 0.0
    ensures gap * SteerScale(delta, Size(gap)) == if gap > delta then delta else if -gap > delta then -delta else gap
  {
    var mag := Size(gap);
    Quotient(delta, mag);
    var q := delta / mag;
    if mag > delta {
      assert SteerScale(delta, mag) == q;
      assert gap * q == if gap < 0.0 then -(q * mag) else q * mag;
    } else {
      assert SteerScale(delta, mag) == 1.0;
    }
  }

  lemma GapAlong(norm: Norm, m: Motion, x: real, y: real, speed: real, target: real)
    requires IsNorm(norm) && IsUnit(x, y) && Along(m, x, y, speed)
    ensures Gap(norm, m, target * x, target * y) == Size(target - speed)
  {
    var gap := target - speed;
    LengthAlong(norm, x, y, gap);
    Apart(target, speed, x);
    Apart(target, speed, y);
    var a, b := target * x - m.vx, target * y - m.vy;
    assert a == gap * x && b == gap * y;
    assert norm(a, b) == norm(gap * x, gap * y);
    hide IsNorm, IsUnit;
  }

  lemma Apart(a: real, b: real, x: real)
    ensures a * x - b * x == (a - b) * x
  {
  }

  /** Steering along the line of motion moves the speed toward the target by at most one step's acceleration. */
  lemma SteersAlong(norm: Norm, m: Motion, i: Intent, dt: real, t: Tuning, x: real, y: real, speed: real, target: real)
    requires IsNorm(norm) && SaneTuning(t) && dt > 0.0 && IsUnit(x, y) && Along(m, x, y, speed)
    requires Desired(i.moveX, i, t) == target * x && Desired(i.moveY, i, t) == target * y
    ensures var n := Steer(norm, m, i, dt, t);
            && Along(n, x, y, Approached(speed, target, MaxDelta(m, dt, t)))
            && n == m.(vx := n.vx, vy := n.vy)
  {
    hide IsNorm, MaxDelta, Desired, Gap, Toward, SteerScale, Approached, IsUnit;
    GapAlong(norm, m, x, y, speed, target);
    DeltaIsPositive(m, dt, t);
    SteeredSpeed(x, y, speed, target, MaxDelta(m, dt, t));
  }

  lemma SteeredSpeed(x: real, y: real, speed: real, target: real, delta: real)
    requires delta > 0.0
    ensures var mag, to := Size(target - speed), Approached(speed, target, delta);
            if mag > FLOAT_EPSILON then
              var scale := SteerScale(delta, mag);
              Toward(speed * x, target * x, scale) == to * x && Toward(speed * y, target * y, scale) == to * y
            else to == speed
  {
    var gap := target - speed;
    if Size(gap) > FLOAT_EPSILON {
      ScaledGap(gap, delta);
      var scale := SteerScale(delta, Size(gap));
      assert Approached(speed, target, delta) == speed + gap * scale;
      TowardAlong(x, speed, target, scale);
      TowardAlong(y, speed, target, scale);
      hide Toward, SteerScale, Approached;
    }
  }

  lemma DeltaIsPositive(m: Motion, dt: real, t: Tuning)
    requires SaneTuning(t) && dt > 0.0
    ensures MaxDelta(m, dt, t) > 0.0
  {
    ProductPositive(if m.grounded then t.accelGround else t.accelAir, dt);
  }

  lemma TowardAlong(x: real, speed: real, target: real, scale: real)
    ensures Toward(speed * x, target * x, scale) == (speed + (target - speed) * scale) * x
  {
  }

  // ---------------------------------------------------------------------------------------------
  // Running
  // ---------------------------------------------------------------------------------------------

  /** Walking speed, and crouched or else sprinting that times the multiplier. */
  function Top(crouch: bool, sprint: bool, t: Tuning): real {
    if crouch then t.maxSpeedWalk * t.crouchMultiplier
    else if sprint then t.maxSpeedWalk * t.sprintMultiplier
    else t.maxSpeedWalk
  }

  lemma SpeedByButtons(i: Intent, t: Tuning)
    requires SaneTuning(t)
    ensures TargetSpeed(i, t) == Top(i.crouch, i.sprint, t) > 0.0
  {
    ProductPositive(t.maxSpeedWalk, t.crouchMultiplier);
    ProductPositive(t.maxSpeedWalk, t.sprintMultiplier);
  }

  /** With a unit stick held and no jump, a step changes the speed along the stick, and the player by its new velocity. */
  lemma RunStep(norm: Norm, m: Motion, i: Intent, dt: real, t: Tuning, speed: real)
    requires IsNorm(norm) && SaneTuning(t) && dt > 0.0 && IsUnit(i.moveX, i.moveY) && !i.jump
    requires Upright(m) && Along(m, i.moveX, i.moveY, speed)
    ensures var n := Step(norm, m, i, dt, t);
            && Along(n, i.moveX, i.moveY, Approached(speed, TargetSpeed(i, t), MaxDelta(m, dt, t)))
            && n.x == m.x + n.vx * dt && n.y == m.y + n.vy * dt
            && (m.grounded ==> n.grounded && Upright(n))
  {
    hide IsNorm, IsUnit, SanitizeInput, HasMovementInput, Steer, Approached, TargetSpeed, MaxDelta, Classify;
    StickIsTaken(norm, i);
    DesiredAlong(i, t, i.moveX);
    DesiredAlong(i, t, i.moveY);
    SteersAlong(norm, m, i, dt, t, i.moveX, i.moveY, speed, TargetSpeed(i, t));
    hide Desired;
  }

  lemma DesiredAlong(i: Intent, t: Tuning, x: real)
    ensures Desired(x, i, t) == TargetSpeed(i, t) * x
  {
  }

  /** In the air the same stick steers by accelAir, whatever the buttons, and no friction brakes. */
  lemma AirStep(norm: Norm, m: Motion, i: Intent, dt: real, t: Tuning, speed: real)
    requires IsNorm(norm) && SaneTuning(t) && dt > 0.0 && IsUnit(i.moveX, i.moveY) && !i.jump
    requires !m.grounded && Upright(m) && Along(m, i.moveX, i.moveY, speed)
    ensures Along(Step(norm, m, i, dt, t), i.moveX, i.moveY, Approached(speed, Top(i.crouch, i.sprint, t), t.accelAir * dt))
  {
    hide IsNorm, IsUnit, Step, Approached, Top, TargetSpeed, Along, Upright;
    assert MaxDelta(m, dt, t) == t.accelAir * dt;
    SpeedByButtons(i, t);
    RunStep(norm, m, i, dt, t, speed);
  }

  /** n steps of the same length with the same input. */
  function Held(i: Intent, dt: real, n: nat): seq<TimedInput> { seq(n, _ => TimedInput(i, dt)) }

  lemma HeldOnceMore(norm: Norm, start: Motion, i: Intent, dt: real, n: nat, t: Tuning)
    requires n > 0
    ensures Play(norm, start, Held(i, dt, n), t) == Step(norm, Play(norm, start, Held(i, dt, n - 1), t), i, dt, t)
  {
    assert Held(i, dt, n)[..n - 1] == Held(i, dt, n - 1);
  }

  /** What n steps of delta toward top come to: min(n * delta, top), or less by no more than the steering threshold near top. */
  predicate RunUp(speed: real, n: nat, delta: real, top: real) {
    var run := MinReal(n as real * delta, top);
    speed == run || (speed <= run && top - speed <= FLOAT_EPSILON)
  }

  /**
   * On the ground from rest, with the stick held all the way, after n steps of length dt the player runs along the stick at
   * min(n * accelGround * dt, top), where top is the walking speed times crouchMultiplier or else sprintMultiplier if these
   * buttons are held; but once within the steering threshold of top it may stay there.
   */
  lemma {:induction false} RunsUpToTop(norm: Norm, i: Intent, dt: real, n: nat, t: Tuning) returns (speed: real)
    requires IsNorm(norm) && SaneTuning(t) && dt > 0.0 && IsUnit(i.moveX, i.moveY) && !i.jump
    ensures var m := Play(norm, AT_REST, Held(i, dt, n), t);
            && Along(m, i.moveX, i.moveY, speed) && m.grounded && Upright(m)
            && RunUp(speed, n, t.accelGround * dt, Top(i.crouch, i.sprint, t))
  {
    hide IsUnit, IsNorm, TargetSpeed, Top, Approached;
    SpeedByButtons(i, t);
    if n == 0 {
      speed := 0.0;
    } else {
      hide Play, Upright, Along, RunUp;
      var before := RunsUpToTop(norm, i, dt, n - 1, t);
      speed := OneMoreRunStep(norm, i, dt, n, t, before);
      DeltaIsPositive(AT_REST, dt, t);
      OneStepFaster(before, n, t.accelGround * dt, TargetSpeed(i, t));
    }
  }

  lemma OneMoreRunStep(norm: Norm, i: Intent, dt: real, n: nat, t: Tuning, before: real) returns (speed: real)
    requires IsNorm(norm) && SaneTuning(t) && dt > 0.0 && IsUnit(i.moveX, i.moveY) && !i.jump && n > 0
    requires var m := Play(norm, AT_REST, Held(i, dt, n - 1), t); Along(m, i.moveX, i.moveY, before) && m.grounded && Upright(m)
    ensures speed == Approached(before, TargetSpeed(i, t), t.accelGround * dt)
    ensures var m := Play(norm, AT_REST, Held(i, dt, n), t); Along(m, i.moveX, i.moveY, speed) && m.grounded && Upright(m)
  {
    hide Step, IsNorm, Play, Upright, Along, IsUnit, Approached, TargetSpeed;
    HeldOnceMore(norm, AT_REST, i, dt, n, t);
    var m := Play(norm, AT_REST, Held(i, dt, n - 1), t);
    assert MaxDelta(m, dt, t) == t.accelGround * dt;
    RunStep(norm, m, i, dt, t, before);
    speed := Approached(before, TargetSpeed(i, t), t.accelGround * dt);
  }

  lemma OneStepFaster(before: real, n: nat, delta: real, top: real)
    requires n > 0 && delta > 0.0 && top > 0.0
    requires RunUp(before, n - 1, delta, top)
    ensures RunUp(Approached(before, top, delta), n, delta, top)
  {
    assert n as real * delta == (n - 1) as real * delta + delta;
  }

  // ---------------------------------------------------------------------------------------------
  // Stopping
  // ---------------------------------------------------------------------------------------------

  /** Hands off, a step on the ground first steers toward standing and then brakes; near standing, it stands. */
  function Slowed(speed: real, steer: real, brake: real): real {
    var steered := if speed <= FLOAT_EPSILON then speed else MaxReal(0.0, speed - steer);
    if brake == 0.0 then steered
    else if steered > SPEED_EPSILON then MaxReal(0.0, steered - brake)
    else 0.0
  }

  predicate HandsOff(i: Intent) { i.moveX == 0.0 && i.moveY == 0.0 && !i.jump }

  lemma BrakesAlong(norm: Norm, m: Motion, i: Intent, dt: real, t: Tuning, x: real, y: real, speed: real)
    requires IsNorm(norm) && SaneTuning(t) && dt > 0.0 && IsUnit(x, y) && Along(m, x, y, speed) && speed >= 0.0
    requires m.grounded && !HasMovementInput(i)
    ensures var n := Brake(norm, m, i, dt, t);
            var left := if t.frictionGround == 0.0 then speed else if speed > SPEED_EPSILON then MaxReal(0.0, speed - t.frictionGround * dt) else 0.0;
            Along(n, x, y, left) && n == m.(vx := n.vx, vy := n.vy)
  {
    LengthAlong(norm, x, y, speed);
    if t.frictionGround > 0.0 && speed > SPEED_EPSILON {
      var left := MaxReal(0.0, speed - t.frictionGround * dt);
      var scale := BrakeScale(speed, dt, t);
      assert scale * speed == left;
      assert Scaled(speed * x, scale) == (scale * speed) * x && Scaled(speed * y, scale) == (scale * speed) * y;
    }
  }

  lemma StopStep(norm: Norm, m: Motion, i: Intent, dt: real, t: Tuning, x: real, y: real, speed: real)
    requires IsNorm(norm) && SaneTuning(t) && dt > 0.0 && IsUnit(x, y) && HandsOff(i)
    requires m.grounded && Upright(m) && Along(m, x, y, speed) && speed >= 0.0
    ensures var n := Step(norm, m, i, dt, t); Along(n, x, y, Slowed(speed, t.accelGround * dt, t.frictionGround * dt)) && n.grounded && Upright(n)
    ensures Slowed(speed, t.accelGround * dt, t.frictionGround * dt) >= 0.0
  {
    hide IsNorm, IsUnit, SanitizeInput, HasMovementInput, Steer, Brake, Slowed, Classify;
    NothingPressed(norm, i);
    StopBoth(norm, m, i, dt, t, x, y, speed);
  }

  lemma NothingPressed(norm: Norm, i: Intent)
    requires HandsOff(i)
    ensures SanitizeInput(norm, i) == i && !HasMovementInput(i)
  {
  }

  lemma StopBoth(norm: Norm, m: Motion, i: Intent, dt: real, t: Tuning, x: real, y: real, speed: real)
    requires IsNorm(norm) && SaneTuning(t) && dt > 0.0 && IsUnit(x, y) && HandsOff(i)
    requires m.grounded && Along(m, x, y, speed) && speed >= 0.0
    ensures var n := Brake(norm, Steer(norm, m, i, dt, t), i, dt, t);
            Along(n, x, y, Slowed(speed, t.accelGround * dt, t.frictionGround * dt)) && n == m.(vx := n.vx, vy := n.vy)
    ensures Slowed(speed, t.accelGround * dt, t.frictionGround * dt) >= 0.0
  {
    hide IsNorm, Steer, Brake, IsUnit, Along;
    NothingDesired(i, t, x);
    NothingDesired(i, t, y);
    SteersAlong(norm, m, i, dt, t, x, y, speed, 0.0);
    DeltaIsPositive(m, dt, t);
    assert MaxDelta(m, dt, t) == t.accelGround * dt;
    var steered := Approached(speed, 0.0, t.accelGround * dt);
    assert steered == if speed <= FLOAT_EPSILON then speed else MaxReal(0.0, speed - t.accelGround * dt);
    BrakesAlong(norm, Steer(norm, m, i, dt, t), i, dt, t, x, y, steered);
    SlowedBySteps(speed, steered, dt, t);
  }

  lemma SlowedBySteps(speed: real, steered: real, dt: real, t: Tuning)
    requires SaneTuning(t) && dt > 0.0
    requires steered == if speed <= FLOAT_EPSILON then speed else MaxReal(0.0, speed - t.accelGround * dt)
    ensures Slowed(speed, t.accelGround * dt, t.frictionGround * dt) ==
            if t.frictionGround == 0.0 then steered
            else if steered > SPEED_EPSILON then MaxReal(0.0, steered - t.frictionGround * dt) else 0.0
  {
    if t.frictionGround > 0.0 { ProductPositive(t.frictionGround, dt); }
  }

  lemma NothingDesired(i: Intent, t: Tuning, x: real)
    ensures Desired(0.0, i, t) == 0.0 * x
  {
  }

  /** What n such steps leave: the straight line, but for the thresholds at which a player stands or is left alone. */
  predicate RunDown(left: real, speed: real, n: nat, steer: real, brake: real) {
    var due := speed - n as real * (steer + brake);
    && left >= 0.0
    && (left == MaxReal(0.0, due)
        || (brake > 0.0 && left == 0.0 && due <= SPEED_EPSILON)
        || (brake == 0.0 && due <= left <= FLOAT_EPSILON))
  }

  lemma OneStepSlower(before: real, speed: real, n: nat, steer: real, brake: real)
    requires n > 0 && steer > 0.0 && brake >= 0.0 && RunDown(before, speed, n - 1, steer, brake)
    ensures RunDown(Slowed(before, steer, brake), speed, n, steer, brake)
  {
    assert n as real * (steer + brake) == (n - 1) as real * (steer + brake) + (steer + brake);
  }

  /**
   * Hands off on the ground, the speed falls by (accelGround + frictionGround) * dt a step along its line, but for the
   * thresholds; with any friction the player stands for good once that comes to what it had.
   */
  lemma {:induction false} RunsOut(norm: Norm, start: Motion, i: Intent, dt: real, n: nat, t: Tuning, x: real, y: real, speed: real)
    returns (left: real)
    requires IsNorm(norm) && SaneTuning(t) && dt > 0.0 && IsUnit(x, y) && HandsOff(i)
    requires start.grounded && Upright(start) && Along(start, x, y, speed) && speed >= 0.0
    ensures var m := Play(norm, start, Held(i, dt, n), t); Along(m, x, y, left) && m.grounded && Upright(m)
    ensures RunDown(left, speed, n, t.accelGround * dt, t.frictionGround * dt)
    ensures t.frictionGround > 0.0 && n as real * (t.accelGround * dt + t.frictionGround * dt) >= speed ==> left == 0.0
  {
    hide Step, IsNorm, IsUnit, Along, Upright;
    ProductPositive(t.accelGround, dt);
    ProductNonNegative(t.frictionGround, dt);
    if n == 0 {
      left := speed;
    } else {
      hide Play, RunDown;
      var before := RunsOut(norm, start, i, dt, n - 1, t, x, y, speed);
      var steer, brake := t.accelGround * dt, t.frictionGround * dt;
      HeldOnceMore(norm, start, i, dt, n, t);
      DownIsNotNegative(before, speed, n - 1, steer, brake);
      StopStep(norm, Play(norm, start, Held(i, dt, n - 1), t), i, dt, t, x, y, before);
      left := Slowed(before, steer, brake);
      OneStepSlower(before, speed, n, steer, brake);
    }
    if t.frictionGround > 0.0 { ProductPositive(t.frictionGround, dt); }
    StandsInTheEnd(left, speed, n, t.accelGround * dt, t.frictionGround * dt);
  }

  lemma DownIsNotNegative(left: real, speed: real, n: nat, steer: real, brake: real)
    requires RunDown(left, speed, n, steer, brake)
    ensures left >= 0.0
  {
  }

  lemma StandsInTheEnd(left: real, speed: real, n: nat, steer: real, brake: real)
    requires RunDown(left, speed, n, steer, brake)
    ensures brake > 0.0 && n as real * (steer + brake) >= speed ==> left == 0.0
  {
  }
}
