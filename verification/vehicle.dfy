/** The objects updateCar (main.js) changes in place: the car model with
    its wheel speed, wheel meshes and steering pivots, and the per-player
    control state. UpdateCar is proved to do exactly what Drive.TickCar
    says one tick does. */
module Vehicle {
  import opened Wrappers
  import opened Drive

  /** The object wrapped around a front wheel; turning its yaw
      (rotation.y) steers that wheel. */
  class Pivot {
    var rotationY: real

    constructor ()
      ensures rotationY == 0.0
    {
      rotationY := 0.0;
    }
  }

  function YawOf(p: Pivot?): Option<real>
    reads p
  {
    if p == null then None else Some(p.rotationY)
  }

  /** A loaded car model together with the fields the controller adds to it. */
  class Car {
    var wheelRotationSpeed: real
    /** rotation.x of each wheel mesh; a model without wheels has none. */
    var wheelAngles: seq<real>
    var frontLeftPivot: Pivot?
    var frontRightPivot: Pivot?
    var speed: real
    var dir: real

    /** The two pivots, when present, are different objects. */
    ghost predicate Valid()
      reads this
    {
      frontLeftPivot == null || frontLeftPivot != frontRightPivot
    }

    ghost function Pivots(): set<Pivot>
      reads this
    {
      (if frontLeftPivot == null then {} else {frontLeftPivot})
      + (if frontRightPivot == null then {} else {frontRightPivot})
    }

    function Snapshot(): CarSnapshot
      reads this, frontLeftPivot, frontRightPivot
    {
      CarSnapshot(wheelRotationSpeed, wheelAngles, YawOf(frontLeftPivot), YawOf(frontRightPivot), speed, dir)
    }

    /** The model-loaded callback: the wheel speed starts at zero and each
        front wheel is wrapped in a fresh, unturned pivot. */
    constructor Load(wheels: seq<real>)
      ensures Valid()
      ensures fresh(frontLeftPivot) && fresh(frontRightPivot)
      ensures Snapshot() == CarSnapshot(0.0, wheels, Some(0.0), Some(0.0), 0.0, 0.0)
      ensures InBounds(Snapshot())
    {
      wheelRotationSpeed := 0.0;
      wheelAngles := wheels;
      speed := 0.0;
      dir := 0.0;
      var left := new Pivot();
      var right := new Pivot();
      frontLeftPivot := left;
      frontRightPivot := right;
    }
  }

  /** The per-player state object of main.js. */
  class ControlState {
    var accelTimer: nat
    var dir: real

    constructor ()
      ensures accelTimer == 0 && dir == 0.0
    {
      accelTimer := 0;
      dir := 0.0;
    }

    function Snapshot(): ControlSnapshot
      reads this
    {
      ControlSnapshot(accelTimer, dir)
    }
  }

  /** The acceleration section of updateCar on the timer and wheel speed
      it reads: forward, then back, then coasting to a stop. */
  method Accelerate(c: Controls, accelTimer: nat, wheelSpeed: real, ln: real -> real)
    returns (timer: nat, w: real)
    requires LogNonNegative(ln)
    ensures (timer, w) == ThrottleStep(c, accelTimer, wheelSpeed, ln)
  {
    timer, w := accelTimer, wheelSpeed;
    if c.forward {
      timer := timer + 1;
      w := Min(w + AccelerationRate(timer, ln), MaxWheelSpeed);
    } else if c.back {
      timer := timer + 1;
      w := Max(w - AccelerationRate(timer, ln), -MaxWheelSpeed);
    } else {
      timer := 0;
      w := w * CoastDecay;
      if Abs(w) < StopThreshold {
        w := 0.0;
      }
    }
  }

  /** The directional-steering section of updateCar: turns the heading
      only while the wheels are clearly moving. */
  method Turn(c: Controls, w: real, heading: real) returns (dir: real)
    ensures dir == Heading(c, w, heading)
  {
    dir := heading;
    if Abs(w) > TurnThreshold {
      var speedFactor := Abs(w / MaxWheelSpeed);
      var turnRate := MaxTurnRate * speedFactor;
      var dirMultiplier := if w < 0.0 then -1.0 else 1.0;
      if c.left {
        dir := dir + turnRate * dirMultiplier;
      }
      if c.right {
        dir := dir - turnRate * dirMultiplier;
      }
    }
  }

  /** The visual wheel rotation: every wheel's rotation.x goes down by the
      wheel speed. */
  method SpinWheels(wheelAngles: seq<real>, w: real) returns (angles: seq<real>)
    ensures |angles| == |wheelAngles|
    ensures forall j :: 0 <= j < |wheelAngles| ==> wheelAngles[j] - angles[j] == w
  {
    angles := wheelAngles;
    var i := 0;
    while i < |angles|
      invariant 0 <= i <= |angles| == |wheelAngles|
      invariant forall j :: 0 <= j < i ==> angles[j] == wheelAngles[j] - w
      invariant forall j :: i <= j < |angles| ==> angles[j] == wheelAngles[j]
    {
      angles := angles[i := angles[i] - w];
      i := i + 1;
    }
  }

  /** The target yaw of the steering-pivot section: left wins over right. */
  method ChooseSteerAngle(c: Controls) returns (steerAngle: real)
    ensures steerAngle == SteerTarget(c)
  {
    steerAngle := 0.0;
    if c.left {
      steerAngle := MaxSteerAngle;
    } else if c.right {
      steerAngle := -MaxSteerAngle;
    }
  }

  /** One front wheel's pivot eases its yaw towards the steering target,
      when the pivot exists. */
  method SteerPivot(pivot: Pivot?, steerAngle: real)
    modifies pivot
    ensures YawOf(pivot) == StepPivot(steerAngle, old(YawOf(pivot)))
  {
    if pivot != null {
      pivot.rotationY := pivot.rotationY + (steerAngle - pivot.rotationY) * SteerLerp;
    }
  }

  /** updateCar without its position, physics-body and camera part. Nothing
      happens while the car or its state is missing; otherwise the car and
      the state move on by one tick of Drive.TickCar. */
  method UpdateCar(car: Car?, keys: map<string, bool>, scheme: KeyScheme, state: ControlState?, ln: real -> real)
    requires LogNonNegative(ln)
    requires car != null ==> car.Valid()
    modifies car, state, if car == null then {} else car.Pivots()
    ensures car != null ==> car.frontLeftPivot == old(car.frontLeftPivot) && car.frontRightPivot == old(car.frontRightPivot)
    ensures car != null && state == null ==> unchanged(car) && unchanged(old(car.Pivots()))
    ensures car == null && state != null ==> unchanged(state)
    ensures car != null && state != null ==>
              (car.Snapshot(), state.Snapshot())
              == TickCar(ReadControls(keys, scheme), old(car.Snapshot()), old(state.Snapshot()), ln)
  {
    if car == null || state == null {
      return;
    }
    var c := ReadControls(keys, scheme);
    ghost var car0, st0 := car.Snapshot(), state.Snapshot();

    var timer, w := Accelerate(c, state.accelTimer, car.wheelRotationSpeed, ln);
    state.accelTimer := timer;
    car.wheelRotationSpeed := w;

    var dir := Turn(c, w, state.dir);
    state.dir := dir;

    var angles := SpinWheels(car.wheelAngles, w);
    assert angles == seq(|car0.wheelAngles|, j requires 0 <= j < |car0.wheelAngles| => car0.wheelAngles[j] - w);
    car.wheelAngles := angles;

    var steerAngle := ChooseSteerAngle(c);
    ghost var rightBefore := YawOf(car.frontRightPivot);
    SteerPivot(car.frontLeftPivot, steerAngle);
    assert YawOf(car.frontRightPivot) == rightBefore;
    ghost var leftAfter := YawOf(car.frontLeftPivot);
    SteerPivot(car.frontRightPivot, steerAngle);
    assert YawOf(car.frontLeftPivot) == leftAfter;

    car.speed := Abs(w * WheelCircumference * RotationToSpeedFactor);
    car.dir := dir;
    ghost var after := CarSnapshot(w, angles, StepPivot(steerAngle, car0.leftPivot),
                                   StepPivot(steerAngle, car0.rightPivot), LinearSpeed(w), dir);
    assert car.Snapshot() == after;
    assert TickCar(c, car0, st0, ln) == (after, ControlSnapshot(timer, dir));
  }
}
