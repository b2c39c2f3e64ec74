/**
 * shared/src/game/Movement.cpp over the reals. The source's square root is the parameter `norm`;
 * all that is used of it is that norm(x, y) is the non-negative root of x * x + y * y.
 */
module Movement {
  datatype MoveState = Idle | Walk | Sprint | Crouch | Air

  datatype Tuning = Tuning(accelGround: real, accelAir: real, frictionGround: real, maxSpeedWalk: real,
                           sprintMultiplier: real, crouchMultiplier: real, jumpVelocity: real, gravity: real)

  datatype Intent = Intent(moveX: real, moveY: real, jump: bool, sprint: bool, crouch: bool)

  datatype Motion = Motion(x: real, y: real, vx: real, vy: real, height: real, vz: real, grounded: bool, moveState: MoveState)

  type Norm = (real, real) -> real

  const AT_REST := Motion(0.0, 0.0, 0.0, 0.0, 0.0, 0.0, true, Idle)

  const INPUT_EPSILON := 0.000001
  const SPEED_EPSILON := 0.0001
  const FLOAT_EPSILON := 0.00000011920928955078125

  ghost predicate IsNorm(norm: Norm) {
    forall x, y :: norm(x, y) >= 0.0 && norm(x, y) * norm(x, y) == x * x + y * y
  }

  function MaxReal(a: real, b: real): real { if a >= b then a else b }

  function MinReal(a: real, b: real): real { if a <= b then a else b }

  function Positive(v: real, fallback: real): real { if v <= 0.0 then fallback else v }

  function SanitizeTuning(t: Tuning): (r: Tuning)
    ensures SaneTuning(r) && (SaneTuning(t) ==> r == t)
  {
    Tuning(Positive(t.accelGround, 48.0), Positive(t.accelAir, 16.0),
           if t.frictionGround < 0.0 then 20.0 else t.frictionGround,
           Positive(t.maxSpeedWalk, 6.0), Positive(t.sprintMultiplier, 1.5), Positive(t.crouchMultiplier, 0.55),
           Positive(t.jumpVelocity, 7.5), Positive(t.gravity, 22.0))
  }

  predicate SaneTuning(t: Tuning) {
    && t.accelGround > 0.0 && t.accelAir > 0.0 && t.frictionGround >= 0.0 && t.maxSpeedWalk > 0.0
    && t.sprintMultiplier > 0.0 && t.crouchMultiplier > 0.0 && t.jumpVelocity > 0.0 && t.gravity > 0.0
  }

  function SanitizeAxis(a: real): real { if a < -1.0 then -1.0 else if 1.0 < a then 1.0 else a }

  function NormalizeOrZero(norm: Norm, x: real, y: real): (real, real) {
    if x * x + y * y <= INPUT_EPSILON then (0.0, 0.0)
    else if norm(x, y) > 1.0 then (x / norm(x, y), y / norm(x, y))
    else (x, y)
  }

  function SanitizeInput(norm: Norm, i: Intent): Intent {
    var (x, y) := NormalizeOrZero(norm, SanitizeAxis(i.moveX), SanitizeAxis(i.moveY));
    i.(moveX := x, moveY := y)
  }

  function HorizontalSpeed(norm: Norm, m: Motion): real { norm(m.vx, m.vy) }

  // ---------------------------------------------------------------------------------------------
  // One step, in the source's order: steer, brake, jump and fall, move, classify
  // ---------------------------------------------------------------------------------------------

  function SpeedFactor(i: Intent, t: Tuning): real {
    if i.crouch then t.crouchMultiplier else if i.sprint then t.sprintMultiplier else 1.0
  }

  function TargetSpeed(i: Intent, t: Tuning): real { t.maxSpeedWalk * SpeedFactor(i, t) }

  /** The fraction of the missing velocity that one step's acceleration can supply. */
  function SteerScale(maxDelta: real, mag: real): real
    requires mag > 0.0
  {
    MinReal(1.0, maxDelta / mag)
  }

  /** A fraction of the way from one velocity component to another. */
  function Toward(v: real, desired: real, scale: real): real { v + (desired - v) * scale }

  function Gap(norm: Norm, m: Motion, desiredX: real, desiredY: real): real { norm(desiredX - m.vx, desiredY - m.vy) }

  function MaxDelta(m: Motion, dt: real, t: Tuning): real { (if m.grounded then t.accelGround else t.accelAir) * dt }

  function Desired(axis: real, i: Intent, t: Tuning): real { axis * TargetSpeed(i, t) }

  function Steer(norm: Norm, m: Motion, i: Intent, dt: real, t: Tuning): Motion {
    var desiredX, desiredY := Desired(i.moveX, i, t), Desired(i.moveY, i, t);
    var mag := Gap(norm, m, desiredX, desiredY);
    if mag > FLOAT_EPSILON then
      var scale := SteerScale(MaxDelta(m, dt, t), mag);
      m.(vx := Toward(m.vx, desiredX, scale), vy := Toward(m.vy, desiredY, scale))
    else m
  }

  predicate HasMovementInput(i: Intent) {
    !(-INPUT_EPSILON <= i.moveX <= INPUT_EPSILON) || !(-INPUT_EPSILON <= i.moveY <= INPUT_EPSILON)
  }

  /** The fraction of the speed that one step's ground friction leaves. */
  function BrakeScale(speed: real, dt: real, t: Tuning): real {
    var reduced := MaxReal(0.0, speed - t.frictionGround * dt);
    if speed > FLOAT_EPSILON then reduced / speed else 0.0
  }

  function Scaled(v: real, scale: real): real { v * scale }

  function Brake(norm: Norm, m: Motion, i: Intent, dt: real, t: Tuning): Motion {
    if !HasMovementInput(i) && m.grounded && t.frictionGround > 0.0 then
      var speed := HorizontalSpeed(norm, m);
      if speed > SPEED_EPSILON then
        m.(vx := Scaled(m.vx, BrakeScale(speed, dt, t)), vy := Scaled(m.vy, BrakeScale(speed, dt, t)))
      else m.(vx := 0.0, vy := 0.0)
    else m
  }

  function Travel(position: real, velocity: real, dt: real): real { position + velocity * dt }

  function Fall(vz: real, dt: real, t: Tuning): real { vz - t.gravity * dt }

  function JumpAndFall(m: Motion, i: Intent, dt: real, t: Tuning): Motion {
    var m := if i.jump && m.grounded then m.(vz := t.jumpVelocity, grounded := false) else m;
    if !m.grounded then
      var vz := Fall(m.vz, dt, t);
      var height := Travel(m.height, vz, dt);
      if height <= 0.0 then m.(height := 0.0, vz := 0.0, grounded := true) else m.(height := height, vz := vz)
    else m.(height := 0.0, vz := if m.vz < 0.0 then 0.0 else m.vz)
  }

  function Classify(norm: Norm, m: Motion, i: Intent): MoveState {
    if !m.grounded then Air
    else if HorizontalSpeed(norm, m) <= SPEED_EPSILON then Idle
    else if i.crouch then Crouch
    else if i.sprint then Sprint
    else Walk
  }

  function Step(norm: Norm, previous: Motion, rawInput: Intent, dt: real, rawTuning: Tuning): Motion {
    var i, t := SanitizeInput(norm, rawInput), SanitizeTuning(rawTuning);
    if dt <= 0.0 then previous.(moveState := Classify(norm, previous, i)) else Advance(norm, previous, i, dt, t)
  }

  function Advance(norm: Norm, previous: Motion, i: Intent, dt: real, t: Tuning): Motion {
    var m := JumpAndFall(Brake(norm, Steer(norm, previous, i, dt, t), i, dt, t), i, dt, t);
    var m := m.(x := Travel(m.x, m.vx, dt), y := Travel(m.y, m.vy, dt));
    m.(moveState := Classify(norm, m, i))
  }

  /** The step as the source performs it: one local copy, updated statement by statement. */
  method StepMovement(norm: Norm, previous: Motion, rawInput: Intent, dt: real, rawTuning: Tuning) returns (next: Motion)
    ensures next == Step(norm, previous, rawInput, dt, rawTuning)
  {
    next := previous;
    var input, tuning := SanitizeInput(norm, rawInput), SanitizeTuning(rawTuning);
    if dt <= 0.0 {
      next := next.(moveState := Classify(norm, next, input));
      return;
    }
    next := AdvanceInPlace(norm, next, input, dt, tuning);
  }

  method AdvanceInPlace(norm: Norm, previous: Motion, input: Intent, dt: real, tuning: Tuning) returns (next: Motion)
    ensures next == Advance(norm, previous, input, dt, tuning)
  {
    next := previous;
    var desiredX, desiredY := Desired(input.moveX, input, tuning), Desired(input.moveY, input, tuning);
    var maxVelocityDelta := MaxDelta(next, dt, tuning);
    var deltaMag := Gap(norm, next, desiredX, desiredY);
    if deltaMag > FLOAT_EPSILON {
      var scale := SteerScale(maxVelocityDelta, deltaMag);
      next := next.(vx := Toward(next.vx, desiredX, scale));
      next := next.(vy := Toward(next.vy, desiredY, scale));
    }
    ghost var steered := Steer(norm, previous, input, dt, tuning);
    assert next == steered;
    if !HasMovementInput(input) && next.grounded && tuning.frictionGround > 0.0 {
      var speed := HorizontalSpeed(norm, next);
      if speed > SPEED_EPSILON {
        var scale := BrakeScale(speed, dt, tuning);
        next := next.(vx := Scaled(next.vx, scale));
        next := next.(vy := Scaled(next.vy, scale));
      } else {
        next := next.(vx := 0.0, vy := 0.0);
      }
    }
    ghost var braked := Brake(norm, steered, input, dt, tuning);
    assert next == braked;
    if input.jump && next.grounded {
      next := next.(vz := tuning.jumpVelocity);
      next := next.(grounded := false);
    }
    if !next.grounded {
      next := next.(vz := Fall(next.vz, dt, tuning));
      next := next.(height := Travel(next.height, next.vz, dt));
      if next.height <= 0.0 {
        next := next.(height := 0.0, vz := 0.0, grounded := true);
      }
    } else {
      next := next.(height := 0.0);
      if next.vz < 0.0 {
        next := next.(vz := 0.0);
      }
    }
    assert next == JumpAndFall(braked, input, dt, tuning);
    next := next.(x := Travel(next.x, next.vx, dt));
    next := next.(y := Travel(next.y, next.vy, dt));
    next := next.(moveState := Classify(norm, next, input));
  }

  // ---------------------------------------------------------------------------------------------
  // Any input sequence, any step lengths
  // ---------------------------------------------------------------------------------------------

  datatype TimedInput = TimedInput(intent: Intent, dt: real)

  function Play(norm: Norm, start: Motion, inputs: seq<TimedInput>, t: Tuning): Motion {
    if inputs == [] then start
    else
      var last := inputs[|inputs| - 1];
      Step(norm, Play(norm, start, inputs[..|inputs| - 1], t), last.intent, last.dt, t)
  }

  function TopFactor(t: Tuning): real { MaxReal(1.0, MaxReal(t.sprintMultiplier, t.crouchMultiplier)) }

  function TopSpeed(t: Tuning): real { t.maxSpeedWalk * TopFactor(t) }

  predicate Within(vx: real, vy: real, top: real) { vx * vx + vy * vy <= top * top }

  lemma ProductNonNegative(a: real, b: real)
    requires a >= 0.0 && b >= 0.0
    ensures a * b >= 0.0
  {
  }

  /** The normalized stick never reaches outside the unit disc. */
  lemma InputInUnitDisc(norm: Norm, x: real, y: real)
    requires IsNorm(norm)
    ensures var (u, v) := NormalizeOrZero(norm, x, y); Within(u, v, 1.0)
  {
    var mag := norm(x, y);
    assert mag * mag == x * x + y * y;
    if x * x + y * y > INPUT_EPSILON {
      if mag > 1.0 {
        assert (x / mag) * (x / mag) == x * x / (mag * mag);
        assert (y / mag) * (y / mag) == y * y / (mag * mag);
        assert x * x / (mag * mag) + y * y / (mag * mag) == (x * x + y * y) / (mag * mag);
      }
    }
  }

  /** Moving a fraction of the way toward a velocity in the disc stays in the disc. */
  lemma TowardStaysWithin(ax: real, ay: real, dx: real, dy: real, s: real, top: real)
    requires 0.0 <= s <= 1.0 && Within(ax, ay, top) && Within(dx, dy, top)
    ensures Within(Toward(ax, dx, s), Toward(ay, dy, s), top)
  {
    TowardOnAxis(ax, dx, s);
    TowardOnAxis(ay, dy, s);
    MixedBound(Toward(ax, dx, s), Toward(ay, dy, s), ax * ax, ay * ay, dx * dx, dy * dy, s, top);
  }

  lemma MixedBound(x: real, y: real, a: real, b: real, c: real, d: real, s: real, top: real)
    requires 0.0 <= s <= 1.0 && a + b <= top * top && c + d <= top * top
    requires x * x <= (1.0 - s) * a + s * c && y * y <= (1.0 - s) * b + s * d
    ensures Within(x, y, top)
  {
    ProductNonNegative(top * top - (a + b), 1.0 - s);
    ProductNonNegative(top * top - (c + d), s);
    assert (1.0 - s) * a + s * c + ((1.0 - s) * b + s * d)
           == top * top - (top * top - (a + b)) * (1.0 - s) - (top * top - (c + d)) * s;
  }

  lemma TowardOnAxis(a: real, d: real, s: real)
    requires 0.0 <= s <= 1.0
    ensures Toward(a, d, s) * Toward(a, d, s) <= (1.0 - s) * (a * a) + s * (d * d)
  {
    ProductNonNegative(s, 1.0 - s);
    ProductNonNegative(s * (1.0 - s), (d - a) * (d - a));
    assert (a + (d - a) * s) * (a + (d - a) * s)
           == (1.0 - s) * (a * a) + s * (d * d) - s * (1.0 - s) * ((d - a) * (d - a));
  }

  lemma ScaledStaysWithin(vx: real, vy: real, s: real, top: real)
    requires 0.0 <= s <= 1.0 && Within(vx, vy, top)
    ensures Within(Scaled(vx, s), Scaled(vy, s), top)
  {
    assert Within(0.0, 0.0, top);
    TowardStaysWithin(0.0, 0.0, vx, vy, s, top);
    assert Toward(0.0, vx, s) == vx * s && Toward(0.0, vy, s) == vy * s;
  }

  lemma TargetWithinTop(i: Intent, t: Tuning)
    requires SaneTuning(t) && Within(i.moveX, i.moveY, 1.0)
    ensures Within(Desired(i.moveX, i, t), Desired(i.moveY, i, t), TopSpeed(t))
  {
    TargetAtMostTop(i, t);
    StretchedStaysWithin(i.moveX, i.moveY, TargetSpeed(i, t), TopSpeed(t));
  }

  lemma TargetAtMostTop(i: Intent, t: Tuning)
    requires SaneTuning(t)
    ensures 0.0 <= TargetSpeed(i, t) <= TopSpeed(t)
  {
    ProductNonNegative(t.maxSpeedWalk, SpeedFactor(i, t));
    ProductNonNegative(t.maxSpeedWalk, TopFactor(t) - SpeedFactor(i, t));
    assert t.maxSpeedWalk * (TopFactor(t) - SpeedFactor(i, t)) == t.maxSpeedWalk * TopFactor(t) - t.maxSpeedWalk * SpeedFactor(i, t);
  }

  lemma StretchedStaysWithin(x: real, y: real, k: real, top: real)
    requires Within(x, y, 1.0) && 0.0 <= k <= top
    ensures Within(x * k, y * k, top)
  {
    assert (x * k) * (x * k) + (y * k) * (y * k) == (x * x + y * y) * (k * k);
  }

  lemma SteerKeepsSpeed(norm: Norm, m: Motion, i: Intent, dt: real, t: Tuning)
    requires IsNorm(norm) && SaneTuning(t) && dt > 0.0
    requires Within(i.moveX, i.moveY, 1.0) && Within(m.vx, m.vy, TopSpeed(t))
    ensures var n := Steer(norm, m, i, dt, t); Within(n.vx, n.vy, TopSpeed(t))
  {
    var tx, ty := Desired(i.moveX, i, t), Desired(i.moveY, i, t);
    var mag := Gap(norm, m, tx, ty);
    ProductNonNegative(if m.grounded then t.accelGround else t.accelAir, dt);
    if mag > FLOAT_EPSILON {
      TargetWithinTop(i, t);
      TowardStaysWithin(m.vx, m.vy, tx, ty, SteerScale(MaxDelta(m, dt, t), mag), TopSpeed(t));
    }
  }

  lemma BrakeKeepsSpeed(norm: Norm, m: Motion, i: Intent, dt: real, t: Tuning)
    requires IsNorm(norm) && SaneTuning(t) && dt > 0.0 && Within(m.vx, m.vy, TopSpeed(t))
    ensures var n := Brake(norm, m, i, dt, t); Within(n.vx, n.vy, TopSpeed(t))
  {
    var speed := HorizontalSpeed(norm, m);
    if speed > SPEED_EPSILON {
      var reduced := MaxReal(0.0, speed - t.frictionGround * dt);
      ProductNonNegative(t.frictionGround, dt);
      assert 0.0 <= reduced <= speed;
      ScaledStaysWithin(m.vx, m.vy, reduced / speed, TopSpeed(t));
    } else {
      ScaledStaysWithin(m.vx, m.vy, 0.0, TopSpeed(t));
    }
  }

  /** On the ground means at height zero with no vertical speed; nothing is ever below ground. */
  predicate Upright(m: Motion) {
    m.height >= 0.0 && (m.grounded ==> m.height == 0.0 && m.vz == 0.0)
  }

  /** From rest, under one tuning, no input sequence beats the top speed or goes below ground. */
  lemma {:induction false} SpeedAndHeightBounds(norm: Norm, inputs: seq<TimedInput>, t: Tuning)
    requires IsNorm(norm) && SaneTuning(t)
    ensures var m := Play(norm, AT_REST, inputs, t);
            && HorizontalSpeed(norm, m) <= TopSpeed(t)
            && Upright(m)
  {
    PlayKeepsBounds(norm, inputs, t);
    SpeedFromSquare(norm, Play(norm, AT_REST, inputs, t), t);
  }

  lemma SpeedFromSquare(norm: Norm, m: Motion, t: Tuning)
    requires IsNorm(norm) && SaneTuning(t) && Within(m.vx, m.vy, TopSpeed(t))
    ensures HorizontalSpeed(norm, m) <= TopSpeed(t)
  {
    ProductNonNegative(t.maxSpeedWalk, TopFactor(t));
    var speed := norm(m.vx, m.vy);
    assert speed * speed == m.vx * m.vx + m.vy * m.vy;
    RootMono(speed, TopSpeed(t));
  }

  lemma SquareStrict(a: real, b: real)
    requires 0.0 <= b < a
    ensures b * b < a * a
  {
    ProductNonNegative(a - b, b);
    assert (a - b) * a > 0.0;
    assert a * a - b * b == (a - b) * a + (a - b) * b;
  }

  lemma RootMono(a: real, b: real)
    requires a >= 0.0 && b >= 0.0 && a * a <= b * b
    ensures a <= b
  {
    if a > b { SquareStrict(a, b); }
  }

  lemma {:induction false} PlayKeepsBounds(norm: Norm, inputs: seq<TimedInput>, t: Tuning)
    requires IsNorm(norm) && SaneTuning(t)
    ensures var m := Play(norm, AT_REST, inputs, t); Within(m.vx, m.vy, TopSpeed(t)) && Upright(m)
  {
    if inputs == [] {
    } else {
      var last := inputs[|inputs| - 1];
      PlayKeepsBounds(norm, inputs[..|inputs| - 1], t);
      StepKeepsBounds(norm, Play(norm, AT_REST, inputs[..|inputs| - 1], t), last.intent, last.dt, t);
    }
  }

  lemma StepKeepsBounds(norm: Norm, m: Motion, raw: Intent, dt: real, t: Tuning)
    requires IsNorm(norm) && SaneTuning(t) && Within(m.vx, m.vy, TopSpeed(t)) && Upright(m)
    ensures var n := Step(norm, m, raw, dt, t); Within(n.vx, n.vy, TopSpeed(t)) && Upright(n)
  {
    var i := SanitizeInput(norm, raw);
    InputInUnitDisc(norm, SanitizeAxis(raw.moveX), SanitizeAxis(raw.moveY));
    if dt > 0.0 {
      SteerKeepsSpeed(norm, m, i, dt, t);
      BrakeKeepsSpeed(norm, Steer(norm, m, i, dt, t), i, dt, t);
    }
  }

  // ---------------------------------------------------------------------------------------------
  // The jump
  // ---------------------------------------------------------------------------------------------

  /** Closed form of the height after n steps of a jump. */
  function JumpHeight(n: nat, dt: real, t: Tuning): real {
    dt * (n as real * t.jumpVelocity) - t.gravity * dt * dt * (n as real * (n as real + 1.0) / 2.0)
  }

  /** The step at which the jump lands: the first n at or after 2J/(g dt) - 1. */
  predicate LandsBy(n: nat, dt: real, t: Tuning) { 2.0 * t.jumpVelocity <= t.gravity * dt * (n as real + 1.0) }

  lemma LandsByIsHeightZero(n: nat, dt: real, t: Tuning)
    requires n > 0 && dt > 0.0
    ensures LandsBy(n, dt, t) <==> JumpHeight(n, dt, t) <= 0.0
  {
    var r := n as real;
    var slack := 2.0 * t.jumpVelocity - t.gravity * dt * (r + 1.0);
    assert JumpHeight(n, dt, t) == dt * r * slack / 2.0;
    var k := dt * r;
    assert k > 0.0;
    assert slack <= 0.0 <==> k * slack <= 0.0;
  }

  /** Throughout the jump the height is at most J * J / (2 g). */
  lemma ApexBound(n: nat, dt: real, t: Tuning)
    requires SaneTuning(t) && dt >= 0.0
    ensures JumpHeight(n, dt, t) <= t.jumpVelocity * t.jumpVelocity / (2.0 * t.gravity)
  {
    var g, j, s := t.gravity, t.jumpVelocity, n as real * dt;
    assert JumpHeight(n, dt, t) == j * s - g * s * s / 2.0 - g * s * dt / 2.0;
    ProductNonNegative(n as real, dt);
    ProductNonNegative(g, s);
    ProductNonNegative(g * s, dt);
    assert (j - g * s) * (j - g * s) == j * j - 2.0 * g * (j * s - g * s * s / 2.0);
    DivideBoth(j * s - g * s * s / 2.0, j * j, 2.0 * g);
  }

  /** Twice the energy of the vertical motion, per mass. */
  function Energy(m: Motion, t: Tuning): real { 2.0 * t.gravity * m.height + m.vz * m.vz }

  /** A step never leaves more vertical energy than there was or than a jump gives. */
  lemma EnergyIsBounded(m: Motion, i: Intent, dt: real, t: Tuning)
    requires SaneTuning(t) && dt >= 0.0 && Upright(m)
    ensures var n, jump := JumpAndFall(m, i, dt, t), t.jumpVelocity * t.jumpVelocity;
            Energy(n, t) <= (if Energy(m, t) <= jump then jump else Energy(m, t)) && Upright(n)
  {
    var start := if i.jump && m.grounded then m.(vz := t.jumpVelocity, grounded := false) else m;
    if !start.grounded {
      FreeFallLoses(start.height, start.vz, dt, t);
    }
    ProductNonNegative(t.jumpVelocity, t.jumpVelocity);
    if m.height >= 0.0 { ProductNonNegative(2.0 * t.gravity, m.height); }
  }

  /** In free fall a step loses exactly (g * dt) squared. */
  lemma FreeFallLoses(height: real, vz: real, dt: real, t: Tuning)
    ensures var v := Fall(vz, dt, t);
            2.0 * t.gravity * Travel(height, v, dt) + v * v
            == 2.0 * t.gravity * height + vz * vz - (t.gravity * dt) * (t.gravity * dt)
    ensures (t.gravity * dt) * (t.gravity * dt) >= 0.0
  {
    var d := t.gravity * dt;
    var v := vz - d;
    assert t.gravity * (v * dt) == v * d;
    assert v * v == vz * vz - 2.0 * vz * d + d * d;
    assert v * d == vz * d - d * d;
    assert 2.0 * t.gravity * (height + v * dt) == 2.0 * t.gravity * height + 2.0 * (t.gravity * (v * dt));
  }

  lemma StepBoundsEnergy(norm: Norm, m: Motion, i: Intent, dt: real, t: Tuning)
    requires SaneTuning(t) && Upright(m) && Energy(m, t) <= t.jumpVelocity * t.jumpVelocity
    ensures var n := Step(norm, m, i, dt, t); Energy(n, t) <= t.jumpVelocity * t.jumpVelocity && Upright(n)
  {
    hide Advance, JumpAndFall, SanitizeInput, Classify;
    if dt > 0.0 {
      StepVertical(norm, m, i, dt, t);
      EnergyIsBounded(m, i, dt, t);
    }
  }

  lemma {:induction false} PlayBoundsEnergy(norm: Norm, inputs: seq<TimedInput>, t: Tuning)
    requires SaneTuning(t)
    ensures var m := Play(norm, AT_REST, inputs, t); Energy(m, t) <= t.jumpVelocity * t.jumpVelocity && Upright(m)
  {
    hide Step;
    if inputs == [] {
      ProductNonNegative(t.jumpVelocity, t.jumpVelocity);
    } else {
      hide Energy, Upright;
      var last := inputs[|inputs| - 1];
      PlayBoundsEnergy(norm, inputs[..|inputs| - 1], t);
      StepBoundsEnergy(norm, Play(norm, AT_REST, inputs[..|inputs| - 1], t), last.intent, last.dt, t);
    }
  }

  /** From rest, no input sequence, with steps of whatever lengths, ever takes the player above J * J / (2 g). */
  lemma HeightStaysBelowApex(norm: Norm, inputs: seq<TimedInput>, t: Tuning)
    requires SaneTuning(t)
    ensures Play(norm, AT_REST, inputs, t).height <= t.jumpVelocity * t.jumpVelocity / (2.0 * t.gravity)
  {
    hide Play;
    PlayBoundsEnergy(norm, inputs, t);
    EnergyBoundsHeight(Play(norm, AT_REST, inputs, t), t, t.jumpVelocity * t.jumpVelocity);
  }

  lemma EnergyBoundsHeight(m: Motion, t: Tuning, top: real)
    requires SaneTuning(t) && Energy(m, t) <= top
    ensures m.height <= top / (2.0 * t.gravity)
  {
    assert m.vz * m.vz >= 0.0;
    DivideBoth(m.height, top, 2.0 * t.gravity);
  }

  lemma DivideBoth(a: real, b: real, k: real)
    requires k > 0.0 && k * a <= b
    ensures a <= b / k
  {
    var q := b / k;
    assert q * k == b;
    if a > q { assert (a - q) * k > 0.0; }
  }

  /** The horizontal half of a step leaves the vertical state alone, so it falls by the raw jump button. */
  lemma StepVertical(norm: Norm, m: Motion, raw: Intent, dt: real, t: Tuning)
    requires SaneTuning(t) && dt > 0.0
    ensures var n := Step(norm, m, raw, dt, t);
            var v := JumpAndFall(m, raw, dt, t);
            n.height == v.height && n.vz == v.vz && n.grounded == v.grounded
  {
    var i := SanitizeInput(norm, raw);
    var s := Steer(norm, m, i, dt, t);
    assert SameVertical(s, m);
    var b := Brake(norm, s, i, dt, t);
    assert SameVertical(b, m) && i.jump == raw.jump;
    VerticalOnly(b, i, m, raw, dt, t);
  }

  predicate SameVertical(a: Motion, b: Motion) { a.height == b.height && a.vz == b.vz && a.grounded == b.grounded }

  lemma VerticalOnly(a: Motion, i: Intent, b: Motion, j: Intent, dt: real, t: Tuning)
    requires SameVertical(a, b) && i.jump == j.jump
    ensures SameVertical(JumpAndFall(a, i, dt, t), JumpAndFall(b, j, dt, t))
  {
  }

  /** What a jump must look like after n of its steps. */
  predicate JumpState(m: Motion, n: nat, dt: real, t: Tuning) {
    if LandsBy(n, dt, t) then m.grounded && m.height == 0.0 && m.vz == 0.0
    else
      && !m.grounded && m.height == JumpHeight(n, dt, t) && m.height > 0.0
      && m.vz == t.jumpVelocity - t.gravity * dt * n as real
  }

  /**
   * With a constant step, a jump from the ground follows its closed form, whatever else is pressed,
   * until the first step at or after 2J/(g dt) - 1, and lands exactly there.
   */
  lemma {:induction false} JumpFollowsClosedForm(norm: Norm, start: Motion, inputs: seq<TimedInput>, dt: real, t: Tuning)
    requires SaneTuning(t) && dt > 0.0
    requires start.grounded && Upright(start)
    requires inputs != [] && inputs[0].intent.jump && forall i :: 0 <= i < |inputs| ==> inputs[i].dt == dt
    requires forall n: nat :: 0 < n < |inputs| ==> !LandsBy(n, dt, t)
    ensures JumpState(Play(norm, start, inputs, t), |inputs|, dt, t)
  {
    var n := |inputs|;
    var last := inputs[n - 1];
    var before := Play(norm, start, inputs[..n - 1], t);
    StepVertical(norm, before, last.intent, dt, t);
    if n == 1 {
      assert inputs[..0] == [];
    } else {
      JumpFollowsClosedForm(norm, start, inputs[..n - 1], dt, t);
      assert !LandsBy(n - 1, dt, t);
      KeepFlying(before, last.intent, n, dt, t);
    }
  }

  lemma KeepFlying(m: Motion, i: Intent, n: nat, dt: real, t: Tuning)
    requires n > 1 && dt > 0.0 && !LandsBy(n - 1, dt, t) && JumpState(m, n - 1, dt, t)
    ensures JumpState(JumpAndFall(m, i, dt, t), n, dt, t)
  {
    LandsByIsHeightZero(n, dt, t);
  }

}
