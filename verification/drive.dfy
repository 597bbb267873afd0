/** What one call of updateCar (main.js) does to a car's control state, as
    pure functions of the keys held and the state before the tick: the
    acceleration timer and clamped wheel speed, the heading, the two smoothed
    steering pivots, the wheel spin and the reported speed. */
module Drive {
  import opened Wrappers

  const WheelRadius: real := 0.4
  /** The double nearest to pi; only its positivity is used below. */
  const Pi: real := 3.141592653589793
  const WheelCircumference: real := 2.0 * Pi * WheelRadius
  const MaxWheelSpeed: real := 0.2
  const MaxAcceleration: real := 0.03
  const FramesPerSecond: real := 60.0
  const LogCurveScale: real := 0.001
  const RotationToSpeedFactor: real := 75.0
  const SteerLerp: real := 0.2
  const MaxSteerAngle: real := 0.4
  /** Per-tick factor on the wheel speed while no throttle key is held. */
  const CoastDecay: real := 0.96
  /** Below this magnitude a coasting wheel speed snaps to zero. */
  const StopThreshold: real := 0.0005
  /** At or below this wheel-speed magnitude the heading does not turn. */
  const TurnThreshold: real := 0.001
  const MaxTurnRate: real := 0.03
  /** The largest speed a car reports: full wheel speed times the wheel's
      circumference times the rotation-to-speed factor (12 pi units). */
  const MaxLinearSpeed: real := MaxWheelSpeed * WheelCircumference * RotationToSpeedFactor

  function Abs(x: real): real { if x < 0.0 then -x else x }
  function Min(a: real, b: real): real { if a <= b then a else b }
  function Max(a: real, b: real): real { if a >= b then a else b }

  /** Math.log is outside the model; all the controller needs of it is that
      log(y) is not negative for y >= 1. */
  ghost predicate LogNonNegative(ln: real -> real) {
    forall y :: y >= 1.0 ==> ln(y) >= 0.0
  }

  /** The four logical keys of one player, as held during this tick. */
  datatype Controls = Controls(forward: bool, back: bool, left: bool, right: bool)

  /** The key names a player drives with. */
  datatype KeyScheme = KeyScheme(forward: string, back: string, left: string, right: string)

  const Player1Keys: KeyScheme := KeyScheme("w", "s", "a", "d")
  const Player2Keys: KeyScheme := KeyScheme("arrowup", "arrowdown", "arrowleft", "arrowright")

  /** keys[k] is truthy: the key has been pressed and not released since. A
      key never pressed has no entry and counts as released. */
  predicate Held(keys: map<string, bool>, k: string) {
    k in keys && keys[k]
  }

  function ReadControls(keys: map<string, bool>, scheme: KeyScheme): Controls {
    Controls(Held(keys, scheme.forward), Held(keys, scheme.back),
             Held(keys, scheme.left), Held(keys, scheme.right))
  }

  /** accelerationRate: a logarithmic curve in the seconds the key has been
      held, capped at MaxAcceleration. */
  function AccelerationRate(timeHeld: nat, ln: real -> real): (rate: real)
    requires LogNonNegative(ln)
    ensures 0.0 <= rate <= MaxAcceleration
    ensures rate <= ln(1.0 + timeHeld as real / FramesPerSecond) * LogCurveScale
  {
    Min(ln(1.0 + timeHeld as real / FramesPerSecond) * LogCurveScale, MaxAcceleration)
  }

  /** The wheel speed after one tick with no throttle key held: it loses 4%
      and snaps to exactly zero once it is too small to matter. */
  function Coast(w: real): (r: real)
    ensures Abs(r) <= CoastDecay * Abs(w)
    ensures (w >= 0.0 ==> r >= 0.0) && (w <= 0.0 ==> r <= 0.0)
    ensures r == 0.0 <==> Abs(w * CoastDecay) < StopThreshold
    ensures r != 0.0 ==> Abs(r) >= StopThreshold
    ensures Abs(w) < StopThreshold ==> r == 0.0
  {
    var decayed := w * CoastDecay;
    if Abs(decayed) < StopThreshold then 0.0 else decayed
  }

  /** The throttle part of the tick: the new acceleration timer and wheel
      speed. Forward is checked first, so it wins when both keys are held. */
  function ThrottleStep(c: Controls, timer: nat, w: real, ln: real -> real): (r: (nat, real))
    requires LogNonNegative(ln)
    ensures c.forward || c.back ==> r.0 == timer + 1
    ensures !c.forward && !c.back ==> r.0 == 0 && r.1 == Coast(w)
    ensures c.forward ==> r.1 <= MaxWheelSpeed && r.1 - w <= MaxAcceleration
    ensures c.forward && w <= MaxWheelSpeed ==> w <= r.1
    ensures !c.forward && c.back ==> -MaxWheelSpeed <= r.1 && w - r.1 <= MaxAcceleration
    ensures !c.forward && c.back && -MaxWheelSpeed <= w ==> r.1 <= w
    ensures Abs(w) <= MaxWheelSpeed ==> Abs(r.1) <= MaxWheelSpeed
  {
    if c.forward then
      (timer + 1, Min(w + AccelerationRate(timer + 1, ln), MaxWheelSpeed))
    else if c.back then
      (timer + 1, Max(w - AccelerationRate(timer + 1, ln), -MaxWheelSpeed))
    else
      (0, Coast(w))
  }

  /** How fast the heading turns: proportional to the wheel speed, at most
      MaxTurnRate while the wheel speed is within its bound. */
  function TurnRate(w: real): (rate: real)
    ensures 0.0 <= rate
    ensures Abs(w) <= MaxWheelSpeed ==> rate <= MaxTurnRate
    ensures Abs(w) == MaxWheelSpeed ==> rate == MaxTurnRate
    ensures rate == 0.0 <==> w == 0.0
  {
    MaxTurnRate * Abs(w / MaxWheelSpeed)
  }

  /** The heading after the tick, given the wheel speed it ends with. Left
      turns one way and right the other, mirrored while reversing; holding
      both, holding neither, or barely moving leaves the heading alone. */
  function Heading(c: Controls, w: real, dir: real): (r: real)
    ensures Abs(w) <= TurnThreshold ==> r == dir
    ensures c.left == c.right ==> r == dir
    ensures Abs(w) > TurnThreshold && c.left && !c.right ==>
              (w > 0.0 ==> r == dir + TurnRate(w)) && (w < 0.0 ==> r == dir - TurnRate(w))
    ensures Abs(w) > TurnThreshold && c.right && !c.left ==>
              (w > 0.0 ==> r == dir - TurnRate(w)) && (w < 0.0 ==> r == dir + TurnRate(w))
    ensures Abs(w) <= MaxWheelSpeed ==> Abs(r - dir) <= MaxTurnRate
  {
    if Abs(w) > TurnThreshold then
      var dirMultiplier := if w < 0.0 then -1.0 else 1.0;
      var afterLeft := if c.left then dir + TurnRate(w) * dirMultiplier else dir;
      if c.right then afterLeft - TurnRate(w) * dirMultiplier else afterLeft
    else dir
  }

  /** The yaw the front-wheel pivots head for: left wins over right. */
  function SteerTarget(c: Controls): (t: real)
    ensures -MaxSteerAngle <= t <= MaxSteerAngle
    ensures t == MaxSteerAngle <==> c.left
    ensures t == -MaxSteerAngle <==> !c.left && c.right
    ensures t == 0.0 <==> !c.left && !c.right
  {
    if c.left then MaxSteerAngle else if c.right then -MaxSteerAngle else 0.0
  }

  /** One tick of pivot smoothing: the yaw moves a fifth of the way to the
      target. */
  function PivotStep(target: real, yaw: real): real {
    yaw + (target - yaw) * SteerLerp
  }

  /** A pivot's distance to its target shrinks by the factor 0.8 per tick,
      it never overshoots the target, and a yaw within the steering range
      stays within it. */
  lemma PivotStepSmooths(target: real, yaw: real)
    ensures Abs(PivotStep(target, yaw) - target) == (1.0 - SteerLerp) * Abs(yaw - target)
    ensures Min(yaw, target) <= PivotStep(target, yaw) <= Max(yaw, target)
    ensures Abs(yaw) <= MaxSteerAngle && Abs(target) <= MaxSteerAngle ==>
              Abs(PivotStep(target, yaw)) <= MaxSteerAngle
  {
  }

  /** The speed the car reports: the distance its wheels roll per frame,
      scaled to world units, without sign. */
  function LinearSpeed(w: real): (s: real)
    ensures s >= 0.0
    ensures s == 0.0 <==> w == 0.0
    ensures Abs(w) <= MaxWheelSpeed ==> s <= MaxLinearSpeed
  {
    Abs(w * WheelCircumference * RotationToSpeedFactor)
  }

  /** A pivot's yaw, when the pivot exists. */
  function StepPivot(target: real, pivot: Option<real>): Option<real> {
    match pivot
    case None => None
    case Some(yaw) => Some(PivotStep(target, yaw))
  }

  /** The fields of a loaded car that updateCar reads and writes. */
  datatype CarSnapshot = CarSnapshot(
    wheelSpeed: real,            // car.wheelRotationSpeed
    wheelAngles: seq<real>,      // rotation.x of each wheel mesh
    leftPivot: Option<real>,     // car.frontLeftPivot.rotation.y
    rightPivot: Option<real>,    // car.frontRightPivot.rotation.y
    speed: real,                 // car.speed
    dir: real)                   // car.dir

  /** The per-player control state that updateCar reads and writes. */
  datatype ControlSnapshot = ControlSnapshot(accelTimer: nat, dir: real)

  predicate PivotInRange(pivot: Option<real>) {
    pivot.Some? ==> Abs(pivot.value) <= MaxSteerAngle
  }

  /** What the controller keeps true of a car from the moment it is loaded. */
  predicate InBounds(car: CarSnapshot) {
    Abs(car.wheelSpeed) <= MaxWheelSpeed && PivotInRange(car.leftPivot) && PivotInRange(car.rightPivot)
  }

  /** One tick of updateCar on a loaded car: every wheel is spun back by the
      new wheel speed, the car reports the heading and speed it ends with,
      and a pivot that exists keeps existing. */
  function TickCar(c: Controls, car: CarSnapshot, st: ControlSnapshot, ln: real -> real)
    : (r: (CarSnapshot, ControlSnapshot))
    requires LogNonNegative(ln)
    ensures r.0.dir == r.1.dir
    ensures |r.0.wheelAngles| == |car.wheelAngles|
    ensures forall i :: 0 <= i < |car.wheelAngles| ==>
              car.wheelAngles[i] - r.0.wheelAngles[i] == r.0.wheelSpeed
    ensures r.0.leftPivot.Some? == car.leftPivot.Some? && r.0.rightPivot.Some? == car.rightPivot.Some?
    ensures r.0.speed == LinearSpeed(r.0.wheelSpeed)
  {
    var (timer, w) := ThrottleStep(c, st.accelTimer, car.wheelSpeed, ln);
    var dir := Heading(c, w, st.dir);
    var target := SteerTarget(c);
    var angles := seq(|car.wheelAngles|, i requires 0 <= i < |car.wheelAngles| => car.wheelAngles[i] - w);
    (CarSnapshot(w, angles, StepPivot(target, car.leftPivot), StepPivot(target, car.rightPivot),
                 LinearSpeed(w), dir),
     ControlSnapshot(timer, dir))
  }

  /** The controller's invariant: a tick keeps the wheel speed within
      +-0.2 and both pivots within +-0.4, so the reported speed never
      exceeds MaxLinearSpeed. */
  lemma TickPreservesBounds(c: Controls, car: CarSnapshot, st: ControlSnapshot, ln: real -> real)
    requires LogNonNegative(ln)
    requires InBounds(car)
    ensures InBounds(TickCar(c, car, st, ln).0)
    ensures TickCar(c, car, st, ln).0.speed <= MaxLinearSpeed
  {
    var target := SteerTarget(c);
    if car.leftPivot.Some? {
      PivotStepSmooths(target, car.leftPivot.value);
    }
    if car.rightPivot.Some? {
      PivotStepSmooths(target, car.rightPivot.value);
    }
  }

  /** Holding forward together with back is the same as holding forward. */
  lemma ForwardWinsOverBack(left: bool, right: bool, car: CarSnapshot, st: ControlSnapshot, ln: real -> real)
    requires LogNonNegative(ln)
    ensures TickCar(Controls(true, true, left, right), car, st, ln)
         == TickCar(Controls(true, false, left, right), car, st, ln)
  {
  }

  /** Releasing both throttle keys resets the timer; holding either one
      counts the tick. */
  lemma TimerCountsHeldTicks(c: Controls, car: CarSnapshot, st: ControlSnapshot, ln: real -> real)
    requires LogNonNegative(ln)
    ensures TickCar(c, car, st, ln).1.accelTimer == if c.forward || c.back then st.accelTimer + 1 else 0
  {
  }

  // ---------------------------------------------------------------------
  // Repeated ticks

  function Pow(b: real, n: nat): real {
    if n == 0 then 1.0 else b * Pow(b, n - 1)
  }

  lemma {:induction false} PowNonNegative(b: real, n: nat)
    requires b >= 0.0
    ensures Pow(b, n) >= 0.0
  {
    if n > 0 {
      PowNonNegative(b, n - 1);
    }
  }

  /** The wheel speed after n ticks with no throttle key held. */
  function CoastFor(w: real, n: nat): real {
    if n == 0 then w else Coast(CoastFor(w, n - 1))
  }

  /** Coasting decays the wheel speed at least geometrically. */
  lemma {:induction false} CoastDecaysGeometrically(w: real, n: nat)
    ensures Abs(CoastFor(w, n)) <= Pow(CoastDecay, n) * Abs(w)
  {
    if n == 0 {
      assert Pow(CoastDecay, n) * Abs(w) == Abs(w);
    } else {
      CoastDecaysGeometrically(w, n - 1);
      CoastStep(w, n);
    }
  }

  /** Coasting never flips the direction the wheels turn. */
  lemma {:induction false} CoastKeepsSign(w: real, n: nat)
    ensures w >= 0.0 ==> CoastFor(w, n) >= 0.0
    ensures w <= 0.0 ==> CoastFor(w, n) <= 0.0
  {
    if n > 0 {
      CoastKeepsSign(w, n - 1);
    }
  }

  /** One coasting tick carries the geometric bound from n - 1 ticks to n. */
  lemma CoastStep(w: real, n: nat)
    requires n > 0
    requires Abs(CoastFor(w, n - 1)) <= Pow(CoastDecay, n - 1) * Abs(w)
    ensures Abs(CoastFor(w, n)) <= Pow(CoastDecay, n) * Abs(w)
  {
    var prev, p := CoastFor(w, n - 1), Pow(CoastDecay, n - 1);
    MulMonotone(CoastDecay, CoastDecay, Abs(prev), p * Abs(w));
    assert CoastDecay * (p * Abs(w)) == Pow(CoastDecay, n) * Abs(w);
  }

  /** A car at rest stays at rest while no throttle key is held. */
  lemma {:induction false} RestIsStable(n: nat)
    ensures CoastFor(0.0, n) == 0.0
  {
    if n > 0 {
      RestIsStable(n - 1);
    }
  }

  /** A pivot's yaw after n ticks toward a fixed target. */
  function PivotFor(target: real, yaw: real, n: nat): real {
    if n == 0 then yaw else PivotStep(target, PivotFor(target, yaw, n - 1))
  }

  /** Holding the same steering keys, the pivot's offset from its target
      shrinks by exactly the factor 0.8 per tick, keeping its side. */
  lemma {:induction false} PivotConverges(target: real, yaw: real, n: nat)
    ensures PivotFor(target, yaw, n) - target == Pow(1.0 - SteerLerp, n) * (yaw - target)
  {
    if n > 0 {
      PivotConverges(target, yaw, n - 1);
      var prev := PivotFor(target, yaw, n - 1);
      var k := Pow(1.0 - SteerLerp, n - 1);
      assert PivotFor(target, yaw, n) - target == 0.8 * (prev - target);
      assert 0.8 * (prev - target) == 0.8 * (k * (yaw - target));
      assert Pow(1.0 - SteerLerp, n) == 0.8 * k;
    }
  }

  lemma {:induction false} PowAdd(b: real, m: nat, n: nat)
    ensures Pow(b, m + n) == Pow(b, m) * Pow(b, n)
  {
    if m > 0 {
      PowAdd(b, m - 1, n);
      assert b * (Pow(b, m - 1) * Pow(b, n)) == (b * Pow(b, m - 1)) * Pow(b, n);
    }
  }

  lemma {:induction false} PowMul(b: real, m: nat, n: nat)
    ensures Pow(b, m * n) == Pow(Pow(b, m), n)
  {
    if n > 0 {
      var k := m * (n - 1);
      PowMul(b, m, n - 1);
      assert m * n == k + m;
      PowAdd(b, k, m);
      calc {
        Pow(b, m * n);
        Pow(b, k + m);
        Pow(b, k) * Pow(b, m);
        Pow(Pow(b, m), n - 1) * Pow(b, m);
        Pow(Pow(b, m), n);
      }
    }
  }

  lemma MulMonotone(a: real, b: real, x: real, y: real)
    requires 0.0 <= a <= b && 0.0 <= x <= y
    ensures a * x <= b * y
  {
    assert a * (y - x) >= 0.0;
    assert (b - a) * y >= 0.0;
  }

  lemma {:induction false} PowMonotoneInBase(a: real, b: real, n: nat)
    requires 0.0 <= a <= b
    ensures 0.0 <= Pow(a, n) <= Pow(b, n)
  {
    if n > 0 {
      PowMonotoneInBase(a, b, n - 1);
      MulMonotone(a, b, Pow(a, n - 1), Pow(b, n - 1));
    }
  }

  /** Once the steering keys are released, a pivot within the steering
      range is back within 0.0005 of straight ahead after 30 ticks (half a
      second at 60 frames per second). */
  lemma PivotRecentres(yaw: real)
    requires Abs(yaw) <= MaxSteerAngle
    ensures Abs(PivotFor(SteerTarget(Controls(false, false, false, false)), yaw, 30)) < 0.0005
  {
    assert SteerTarget(Controls(false, false, false, false)) == 0.0;
    PivotConverges(0.0, yaw, 30);
    assert 1.0 - SteerLerp == 0.8;
    PowMul(0.8, 10, 3);
    assert Pow(0.8, 10) == 0.1073741824;
    assert Pow(0.1073741824, 3) < 0.00124;
    var p := Pow(0.8, 30);
    assert 0.0 <= p < 0.00124 by { PowNonNegative(0.8, 30); }
    MulMonotone(p, 0.00124, Abs(yaw), MaxSteerAngle);
    assert Abs(p * yaw) == p * Abs(yaw);
  }

  lemma CoastDecayAfter147()
    ensures 0.0 <= Pow(CoastDecay, 147) < 0.0025
  {
    // 147 = 7 * 7 * 3, each factor small enough to evaluate directly
    var x := Pow(0.96, 7);
    PowMul(0.96, 7, 21);
    PowMul(x, 7, 3);
    assert x < 0.751448;
    PowNonNegative(0.96, 7);
    PowMonotoneInBase(x, 0.751448, 7);
    assert Pow(0.751448, 7) < 0.135299;
    var y := Pow(x, 7);
    PowMonotoneInBase(y, 0.135299, 3);
    assert Pow(0.135299, 3) < 0.0025;
    assert Pow(CoastDecay, 147) == Pow(y, 3);
  }

  lemma CoastBound(w: real, n: nat)
    requires Abs(w) <= MaxWheelSpeed
    ensures Abs(CoastFor(w, n)) * CoastDecay <= Pow(CoastDecay, n + 1) * MaxWheelSpeed
  {
    var p := Pow(CoastDecay, n);
    var ap := Abs(CoastFor(w, n));
    assert ap <= p * MaxWheelSpeed by {
      CoastDecaysGeometrically(w, n);
      PowNonNegative(CoastDecay, n);
      MulMonotone(p, p, Abs(w), MaxWheelSpeed);
    }
    assert Pow(CoastDecay, n + 1) == CoastDecay * p;
    assert ap * CoastDecay <= (p * MaxWheelSpeed) * CoastDecay;
  }

  /** With no throttle key held, a wheel speed within its bound reaches
      exactly zero after at most 147 ticks (under two and a half seconds). */
  lemma CoastStops(w: real)
    requires Abs(w) <= MaxWheelSpeed
    ensures CoastFor(w, 147) == 0.0
  {
    CoastBound(w, 146);
    CoastDecayAfter147();
    var prev := CoastFor(w, 146);
    assert Abs(prev * CoastDecay) == Abs(prev) * CoastDecay;
  }
}
