/** Wheel trails: the trail canvas behind window.trailTexture, and
    drawWheelTrails (main.js), which stamps a dot where each grounded wheel
    touches the platform. */
module Trails {
  import opened Wrappers
  import opened Arena

  /** A wheel's world position. */
  datatype Vec3 = Vec3(x: real, y: real, z: real)

  /** A wheel counts as touching the ground while its height is strictly
      between -3 and 3. */
  predicate IsWheelOnGround(p: Vec3) {
    p.y < 3.0 && p.y > -3.0
  }

  /** The wheel is over the round platform of radius Radius (rim included). */
  predicate OnPlatform(p: Vec3) {
    p.x * p.x + p.z * p.z <= Radius * Radius
  }

  /** A wheel leaves a mark when both tests pass. */
  predicate LeavesMark(p: Vec3) {
    IsWheelOnGround(p) && OnPlatform(p)
  }

  /** A pixel position on the trail canvas. */
  datatype Pixel = Pixel(cx: int, cy: int)

  /** The radius of a trail dot, in canvas pixels. */
  const DotRadius: real := 5.0

  /** The canvas pixel a wheel's floor position maps to: its texture
      coordinates scaled to the canvas and rounded down. */
  function StampPixel(p: Vec3): Pixel {
    var uv := WorldToUV(p.x, p.z);
    Pixel((uv.u * TrailCanvasSize as real).Floor, (uv.v * TrailCanvasSize as real).Floor)
  }

  predicate InCanvas(px: Pixel) {
    0 <= px.cx <= TrailCanvasSize && 0 <= px.cy <= TrailCanvasSize
  }

  /** A mark always lands on the canvas; only a wheel exactly on the
      rim's far edge reaches column or row TrailCanvasSize, one past the
      last pixel. */
  lemma StampInCanvas(p: Vec3)
    requires OnPlatform(p)
    ensures InCanvas(StampPixel(p))
  {
    PlatformMapsIntoUnitSquare(p.x, p.z);
    var uv := WorldToUV(p.x, p.z);
    var n := TrailCanvasSize as real;
    ScaledFloorInRange(uv.u, n);
    ScaledFloorInRange(uv.v, n);
  }

  lemma ScaledFloorInRange(t: real, n: real)
    requires 0.0 <= t <= 1.0 && n >= 0.0
    ensures 0 <= (t * n).Floor && (t * n).Floor as real <= n
  {
    ProductSign(t, n);
    assert t * n <= n by {
      ProductSign(1.0 - t, n);
    }
  }

  /** The centre of the platform stamps the centre of the canvas, and the
      rim point on the positive x axis stamps column TrailCanvasSize. */
  lemma StampLandmarks()
    ensures StampPixel(Vec3(0.0, 0.0, 0.0)) == Pixel(256, 256)
    ensures StampPixel(Vec3(Radius, 0.0, 0.0)) == Pixel(TrailCanvasSize, 256)
    ensures OnPlatform(Vec3(Radius, 0.0, 0.0))
  {
    WorldToUVLandmarks();
  }

  /** The marks one car's wheels leave, in wheel order. */
  function TrailStamps(wheels: seq<Vec3>): (stamps: seq<Pixel>)
    ensures |stamps| <= |wheels|
  {
    if wheels == [] then []
    else
      var last := wheels[|wheels| - 1];
      TrailStamps(wheels[..|wheels| - 1]) + (if LeavesMark(last) then [StampPixel(last)] else [])
  }

  /** Every mark comes from a wheel that is grounded and over the platform,
      and lies on the canvas. */
  lemma {:induction false} TrailStampsSound(wheels: seq<Vec3>, k: int)
    requires 0 <= k < |TrailStamps(wheels)|
    ensures exists i :: 0 <= i < |wheels| && LeavesMark(wheels[i]) && TrailStamps(wheels)[k] == StampPixel(wheels[i])
    ensures InCanvas(TrailStamps(wheels)[k])
  {
    var init := wheels[..|wheels| - 1];
    var last := wheels[|wheels| - 1];
    if k < |TrailStamps(init)| {
      TrailStampsSound(init, k);
      var i :| 0 <= i < |init| && LeavesMark(init[i]) && TrailStamps(init)[k] == StampPixel(init[i]);
      assert wheels[i] == init[i];
    } else {
      assert LeavesMark(last) && TrailStamps(wheels)[k] == StampPixel(last);
      StampInCanvas(last);
    }
  }

  /** Every wheel that is grounded and over the platform leaves its mark. */
  lemma {:induction false} TrailStampsComplete(wheels: seq<Vec3>, i: int)
    requires 0 <= i < |wheels| && LeavesMark(wheels[i])
    ensures StampPixel(wheels[i]) in TrailStamps(wheels)
  {
    var init := wheels[..|wheels| - 1];
    if i < |wheels| - 1 {
      assert wheels[i] == init[i];
      TrailStampsComplete(init, i);
    }
  }

  /** A wheel in the air or off the platform leaves nothing: removing it
      does not change the marks. */
  lemma {:induction false} TrailStampsSkip(wheels: seq<Vec3>, i: int)
    requires 0 <= i < |wheels| && !LeavesMark(wheels[i])
    ensures TrailStamps(wheels) == TrailStamps(wheels[..i] + wheels[i + 1..])
  {
    var rest := wheels[..i] + wheels[i + 1..];
    if i == |wheels| - 1 {
      assert rest == wheels[..|wheels| - 1];
    } else {
      var init := wheels[..|wheels| - 1];
      TrailStampsSkip(init, i);
      assert init[..i] + init[i + 1..] == rest[..|rest| - 1];
      assert rest[|rest| - 1] == wheels[|wheels| - 1];
    }
  }

  /** What is painted on the trail canvas, in order. */
  datatype TrailOp =
    | Tiles(alpha: real, draws: seq<DrawCall>)  // a fill with the sand image
    | Dot(at: Pixel, radius: real)              // a filled wheel-trail circle

  function Dots(stamps: seq<Pixel>): (ops: seq<TrailOp>)
    ensures |ops| == |stamps|
    ensures forall k :: 0 <= k < |stamps| ==> ops[k] == Dot(stamps[k], DotRadius)
  {
    seq(|stamps|, k requires 0 <= k < |stamps| => Dot(stamps[k], DotRadius))
  }

  lemma DotsAppend(a: seq<Pixel>, b: seq<Pixel>)
    ensures Dots(a + b) == Dots(a) + Dots(b)
  {
    assert forall k :: 0 <= k < |a + b| ==> Dots(a + b)[k] == (Dots(a) + Dots(b))[k];
  }

  /** Taking one more wheel adds that wheel's dot, if it leaves a mark. */
  lemma DotsStep(ws: seq<Vec3>, i: int)
    requires 0 <= i < |ws|
    ensures Dots(TrailStamps(ws[..i + 1]))
         == Dots(TrailStamps(ws[..i])) + Dots(if LeavesMark(ws[i]) then [StampPixel(ws[i])] else [])
  {
    var mark := if LeavesMark(ws[i]) then [StampPixel(ws[i])] else [];
    assert ws[..i + 1][..i] == ws[..i];
    assert TrailStamps(ws[..i + 1]) == TrailStamps(ws[..i]) + mark;
    DotsAppend(TrailStamps(ws[..i]), mark);
  }

  lemma SeqAssoc<T>(a: seq<T>, b: seq<T>, c: seq<T>)
    ensures a + b + c == a + (b + c)
  {
  }

  /** The marks a car leaves this frame: none when the car or its wheels
      are missing. */
  function CarStamps(wheels: Option<seq<Vec3>>): seq<Pixel> {
    if wheels.None? then [] else TrailStamps(wheels.value)
  }

  /** The 512x512 canvas behind window.trailTexture, with that texture's
      needsUpdate flag. (No mesh in arena.js or main.js uses the texture as
      its map; the floor shows the plain sand texture.) */
  class TrailCanvas {
    var ops: seq<TrailOp>
    var needsUpdate: bool

    /** The canvas is created blank and the texture is marked for upload.
        When the sand image has already loaded (`complete`), it is tiled 4
        times across at once; otherwise that fill waits for SandLoaded. */
    constructor (sand: Image, complete: bool)
      ensures ops == if complete then [Tiles(1.0, TileGrid(sand, TrailCanvasSize as real, 4))] else []
      ensures needsUpdate
    {
      if complete {
        var draws := FillCanvasWithRepeatedImage(sand, TrailCanvasSize as real, 4);
        ops := [Tiles(1.0, draws)];
      } else {
        ops := [];
      }
      needsUpdate := true;
    }

    /** The sand image's onload handler: the 4x4 fill at full opacity, on
        top of whatever frames have painted by then. */
    method SandLoaded(sand: Image)
      modifies this
      ensures ops == old(ops) + [Tiles(1.0, TileGrid(sand, TrailCanvasSize as real, 4))]
      ensures needsUpdate == old(needsUpdate)
    {
      var draws := FillCanvasWithRepeatedImage(sand, TrailCanvasSize as real, 4);
      ops := ops + [Tiles(1.0, draws)];
    }

    /** Paints the sand image over the whole canvas, 16 tiles across, at
        the given opacity. */
    method Fade(sand: Image, alpha: real)
      modifies this
      ensures ops == old(ops) + [Tiles(alpha, TileGrid(sand, TrailCanvasSize as real, 16))]
      ensures needsUpdate == old(needsUpdate)
    {
      var draws := FillCanvasWithRepeatedImage(sand, TrailCanvasSize as real, 16);
      ops := ops + [Tiles(alpha, draws)];
    }

    /** The body of drawWheelTrails' forEach for one wheel: a dot where the
        wheel is grounded and over the platform, nothing otherwise. */
    method StampWheel(pos: Vec3)
      modifies this
      ensures ops == old(ops) + Dots(if LeavesMark(pos) then [StampPixel(pos)] else [])
      ensures needsUpdate == old(needsUpdate)
    {
      if IsWheelOnGround(pos) && pos.x * pos.x + pos.z * pos.z <= Radius * Radius {
        var uv := WorldToUV(pos.x, pos.z);
        var cx := (uv.u * TrailCanvasSize as real).Floor;
        var cy := (uv.v * TrailCanvasSize as real).Floor;
        ops := ops + [Dot(Pixel(cx, cy), DotRadius)];
      }
    }

    /** drawWheelTrails for one car, given its wheels' world positions
        (None for a car that is not loaded or has no wheel list). Each
        marking wheel adds a dot; the texture is flagged whenever the car
        and its wheel list exist, even if no wheel left a mark. */
    method DrawWheelTrails(wheels: Option<seq<Vec3>>)
      modifies this
      ensures ops == old(ops) + Dots(CarStamps(wheels))
      ensures needsUpdate == (old(needsUpdate) || wheels.Some?)
    {
      if wheels.None? {
        return;
      }
      var ws := wheels.value;
      ghost var before := ops;
      var i := 0;
      while i < |ws|
        invariant 0 <= i <= |ws|
        invariant needsUpdate == old(needsUpdate)
        invariant ops == before + Dots(TrailStamps(ws[..i]))
      {
        DotsStep(ws, i);
        StampWheel(ws[i]);
        SeqAssoc(before, Dots(TrailStamps(ws[..i])), Dots(if LeavesMark(ws[i]) then [StampPixel(ws[i])] else []));
        i := i + 1;
      }
      assert ws[..i] == ws;
      needsUpdate := true;
    }
  }
}
