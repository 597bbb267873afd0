/** The per-frame loop of main.js: both cars are driven from the shared
    key map, and on every TrailUpdateInterval-th frame the trail canvas is
    faded towards clean sand and each car's wheels stamp their marks. */
module GameLoop {
  import opened Wrappers
  import opened Arena
  import opened Drive
  import opened Vehicle
  import opened Trails

  /** A trail pass runs on every second frame. */
  const TrailUpdateInterval: nat := 2
  /** The opacity of the sand painted over old trails in a pass. */
  const FadeAlpha: real := 0.02

  /** Whether the frame with this counter value runs a trail pass. */
  predicate IsTrailFrame(frame: nat) {
    frame % TrailUpdateInterval == 0
  }

  /** The sand image as the page sees it before it has loaded: an image
      element that reports a width and height of 0, so a fill from it has
      an empty source rectangle and paints nothing (Arena.TileGridSource). */
  const Unloaded: Image := Image(0.0, 0.0)

  /** What one trail pass paints: a faint 16x16 sand fill, then the marks
      of car 1's wheels, then those of car 2's. */
  function TrailPass(sand: Image, wheels1: Option<seq<Vec3>>, wheels2: Option<seq<Vec3>>): (ops: seq<TrailOp>)
    ensures |ops| == 1 + |CarStamps(wheels1)| + |CarStamps(wheels2)|
    ensures ops[0] == Tiles(FadeAlpha, TileGrid(sand, TrailCanvasSize as real, 16))
  {
    [Tiles(FadeAlpha, TileGrid(sand, TrailCanvasSize as real, 16))]
    + Dots(CarStamps(wheels1)) + Dots(CarStamps(wheels2))
  }

  /** Every op of a pass after its sand fill is a dot on the canvas. (That
      the fill's tiles cover the canvas exactly is TilesCoverCanvas and
      TilesInsideCanvas.) */
  lemma TrailPassOnCanvas(sand: Image, wheels1: Option<seq<Vec3>>, wheels2: Option<seq<Vec3>>, k: int)
    requires 1 <= k < |TrailPass(sand, wheels1, wheels2)|
    ensures TrailPass(sand, wheels1, wheels2)[k].Dot?
    ensures InCanvas(TrailPass(sand, wheels1, wheels2)[k].at)
  {
    var n1 := |CarStamps(wheels1)|;
    if k - 1 < n1 {
      assert wheels1.Some?;
      TrailStampsSound(wheels1.value, k - 1);
    } else {
      assert wheels2.Some?;
      TrailStampsSound(wheels2.value, k - 1 - n1);
    }
  }

  /** Number of trail passes among the frames numbered start .. start+n-1. */
  function TrailPasses(start: nat, n: nat): nat {
    if n == 0 then 0 else TrailPasses(start, n - 1) + (if IsTrailFrame(start + n - 1) then 1 else 0)
  }

  /** From the first frame on, n frames run exactly ceil(n/2) trail passes:
      a wheel mark is laid down at least once in any two frames. */
  lemma {:induction false} TrailPassesFromStart(n: nat)
    ensures TrailPasses(0, n) == (n + 1) / 2
  {
    if n > 0 {
      TrailPassesFromStart(n - 1);
    }
  }

  /** Any two consecutive frames contain exactly one trail pass. */
  lemma TrailPassEveryOtherFrame(frame: nat)
    ensures TrailPasses(frame, 2) == 1
  {
    assert TrailPasses(frame, 1) == if IsTrailFrame(frame) then 1 else 0;
    assert IsTrailFrame(frame) != IsTrailFrame(frame + 1);
  }

  /** The page: two car slots filled in when their models load, the two
      players' control states, the trail canvas, whether its initial sand
      fill still waits for the image to load, and the frame counter. */
  class Game {
    var car1: Car?
    var car2: Car?
    const state1: ControlState
    const state2: ControlState
    const canvas: TrailCanvas
    const sand: Image
    var sandPending: bool
    var trailUpdateFrame: nat

    /** The two cars, their pivots and the two states are separate objects.
        (That each car stays within its driving bounds is a property of the
        tick itself: Drive.TickPreservesBounds.) */
    ghost predicate Valid()
      reads this`car1, this`car2, car1, car2
      reads if car1 == null then {} else car1.Pivots()
      reads if car2 == null then {} else car2.Pivots()
    {
      state1 != state2
      && (car1 != null ==> car1.Valid())
      && (car2 != null ==> car2.Valid())
      && (car1 != null && car2 != null ==> car1 != car2 && car1.Pivots() !! car2.Pivots())
    }

    constructor (sandImage: Image, complete: bool)
      ensures Valid()
      ensures car1 == null && car2 == null
      ensures fresh(state1) && fresh(state2) && fresh(canvas)
      ensures state1.Snapshot() == ControlSnapshot(0, 0.0) && state2.Snapshot() == ControlSnapshot(0, 0.0)
      ensures canvas.ops == (if complete then [Tiles(1.0, TileGrid(sandImage, TrailCanvasSize as real, 4))] else [])
      ensures canvas.needsUpdate
      ensures sandPending == !complete
      ensures sand == sandImage && trailUpdateFrame == 0
    {
      car1 := null;
      car2 := null;
      state1 := new ControlState();
      state2 := new ControlState();
      canvas := new TrailCanvas(sandImage, complete);
      sand := sandImage;
      sandPending := !complete;
      trailUpdateFrame := 0;
    }

    /** The sand image's onload handler, installed only when the image had
        not loaded at start-up: it paints the 4x4 fill over whatever the
        frames so far have painted, and then it is spent. */
    method SandLoaded()
      requires sandPending
      modifies this`sandPending, canvas
      ensures !sandPending
      ensures canvas.ops == old(canvas.ops) + [Tiles(1.0, TileGrid(sand, TrailCanvasSize as real, 4))]
      ensures canvas.needsUpdate == old(canvas.needsUpdate)
    {
      canvas.SandLoaded(sand);
      sandPending := false;
    }

    /** The load callback of the first car. */
    method LoadCar1(wheels: seq<real>)
      requires Valid()
      modifies this`car1
      ensures Valid()
      ensures car1 != null && fresh(car1) && fresh(car1.Pivots())
      ensures car1.Snapshot() == CarSnapshot(0.0, wheels, Some(0.0), Some(0.0), 0.0, 0.0)
      ensures car2 == old(car2) && trailUpdateFrame == old(trailUpdateFrame)
    {
      var car := new Car.Load(wheels);
      car1 := car;
    }

    /** The load callback of the second car. */
    method LoadCar2(wheels: seq<real>)
      requires Valid()
      modifies this`car2
      ensures Valid()
      ensures car2 != null && fresh(car2) && fresh(car2.Pivots())
      ensures car2.Snapshot() == CarSnapshot(0.0, wheels, Some(0.0), Some(0.0), 0.0, 0.0)
      ensures car1 == old(car1) && trailUpdateFrame == old(trailUpdateFrame)
    {
      var car := new Car.Load(wheels);
      car2 := car;
    }

    /** The two updateCar calls of a frame: car 1 with the w/s/a/d scheme,
        then car 2 with the arrow keys. */
    method DriveCars(keys: map<string, bool>, ln: real -> real)
      requires Valid() && LogNonNegative(ln)
      modifies state1, state2, car1, car2
      modifies if car1 == null then {} else car1.Pivots()
      modifies if car2 == null then {} else car2.Pivots()
      ensures Valid()
      ensures car1 != null ==>
                (car1.Snapshot(), state1.Snapshot())
                == TickCar(ReadControls(keys, Player1Keys), old(car1.Snapshot()), old(state1.Snapshot()), ln)
      ensures car2 != null ==>
                (car2.Snapshot(), state2.Snapshot())
                == TickCar(ReadControls(keys, Player2Keys), old(car2.Snapshot()), old(state2.Snapshot()), ln)
      ensures car1 == null ==> state1.Snapshot() == old(state1.Snapshot())
      ensures car2 == null ==> state2.Snapshot() == old(state2.Snapshot())
      ensures car1 != null ==> car1.frontLeftPivot == old(car1.frontLeftPivot) && car1.frontRightPivot == old(car1.frontRightPivot)
      ensures car2 != null ==> car2.frontLeftPivot == old(car2.frontLeftPivot) && car2.frontRightPivot == old(car2.frontRightPivot)
    {
      ghost var snap2 := if car2 == null then None else Some(car2.Snapshot());
      ghost var st2 := state2.Snapshot();

      UpdateCar(car1, keys, Player1Keys, state1, ln);
      ghost var after1 := if car1 == null then None else Some(car1.Snapshot());
      ghost var afterSt1 := state1.Snapshot();
      assert car2 != null ==> car2.Snapshot() == snap2.value;
      assert state2.Snapshot() == st2;

      UpdateCar(car2, keys, Player2Keys, state2, ln);
      assert car1 != null ==> car1.Snapshot() == after1.value;
      assert state1.Snapshot() == afterSt1;
    }

    /** The trail section of a frame: a faint sand fill over the whole
        canvas, then each car's wheel trails. The fill draws whatever the
        sand image element holds at that moment, which is the unloaded
        0x0 image until the sand has loaded. */
    method RunTrailPass(wheels1: Option<seq<Vec3>>, wheels2: Option<seq<Vec3>>)
      modifies canvas
      ensures canvas.ops == old(canvas.ops) + TrailPass(if sandPending then Unloaded else sand, wheels1, wheels2)
      ensures canvas.needsUpdate == (old(canvas.needsUpdate) || wheels1.Some? || wheels2.Some?)
    {
      ghost var ops0 := canvas.ops;
      var image := if sandPending then Unloaded else sand;
      canvas.Fade(image, FadeAlpha);
      canvas.DrawWheelTrails(wheels1);
      canvas.DrawWheelTrails(wheels2);
      assert canvas.ops == ops0 + ([Tiles(FadeAlpha, TileGrid(image, TrailCanvasSize as real, 16))]
                                   + Dots(CarStamps(wheels1)) + Dots(CarStamps(wheels2)));
    }

    /** One animation frame. Both cars advance by a tick with their own
        key scheme; on a trail frame the canvas receives a TrailPass, with
        each car's wheel world positions as they stand after the tick
        (None while the car is not loaded); the frame counter goes up. */
    method Animate(keys: map<string, bool>, ln: real -> real, wheels1: Option<seq<Vec3>>, wheels2: Option<seq<Vec3>>)
      requires Valid() && LogNonNegative(ln)
      requires car1 == null ==> wheels1.None?
      requires car2 == null ==> wheels2.None?
      modifies this`trailUpdateFrame, state1, state2, canvas, car1, car2
      modifies if car1 == null then {} else car1.Pivots()
      modifies if car2 == null then {} else car2.Pivots()
      ensures Valid()
      ensures car1 != null ==>
                (car1.Snapshot(), state1.Snapshot())
                == TickCar(ReadControls(keys, Player1Keys), old(car1.Snapshot()), old(state1.Snapshot()), ln)
      ensures car2 != null ==>
                (car2.Snapshot(), state2.Snapshot())
                == TickCar(ReadControls(keys, Player2Keys), old(car2.Snapshot()), old(state2.Snapshot()), ln)
      ensures car1 == null ==> state1.Snapshot() == old(state1.Snapshot())
      ensures car2 == null ==> state2.Snapshot() == old(state2.Snapshot())
      ensures car1 != null ==> car1.frontLeftPivot == old(car1.frontLeftPivot) && car1.frontRightPivot == old(car1.frontRightPivot)
      ensures car2 != null ==> car2.frontLeftPivot == old(car2.frontLeftPivot) && car2.frontRightPivot == old(car2.frontRightPivot)
      ensures canvas.ops == old(canvas.ops) + (if IsTrailFrame(old(trailUpdateFrame)) then TrailPass(if sandPending then Unloaded else sand, wheels1, wheels2) else [])
      ensures canvas.needsUpdate == (old(canvas.needsUpdate) || (IsTrailFrame(old(trailUpdateFrame)) && (wheels1.Some? || wheels2.Some?)))
      ensures trailUpdateFrame == old(trailUpdateFrame) + 1
    {
      DriveCars(keys, ln);
      if trailUpdateFrame % TrailUpdateInterval == 0 {
        RunTrailPass(wheels1, wheels2);
      }
      trailUpdateFrame := trailUpdateFrame + 1;
    }
  }
}
