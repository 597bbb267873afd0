# Crash-Royale: car controller and trail painting

Crash-Royale is a two-player, split-screen browser game. Each player drives
a rover on a round tower platform. This project models the part of its
main loop that runs once per frame:

- **Driving.** `updateCar` runs for each car with that player's keys. It
  updates the acceleration timer and the wheel speed. The speed ramps up
  along a capped logarithmic curve while a throttle key is held. It decays
  by 4% per frame and snaps to zero while no throttle key is held. The tick
  also turns the heading, spins the wheel meshes, eases the two
  front-wheel steering pivots towards their target yaw, and records the
  speed and heading on the car.
- **Trails.** A 512x512 trail canvas backs `window.trailTexture`. (No
  mesh in arena.js or main.js uses that texture; the floor's material
  shows the plain sand texture.) The sand image is tiled 4 times across the
  canvas. That happens at start-up if the image has already loaded, and
  otherwise in the image's load handler. Every second frame the canvas is
  faded by a faint 16x16 sand fill. Then every wheel that is near the
  ground and over the platform stamps a dot of radius 5 at the pixel that
  `worldToUV` maps it to.

The model has six modules, one per file:

- `Wrappers` holds `Option`.
- `Arena` covers the platform radius, the canvas size, `worldToUV` and
  `fillCanvasWithRepeatedImage`. The fill is modelled as the sequence of
  draw calls it issues.
- `Drive` describes one tick of `updateCar` as pure functions, with
  lemmas about repeated ticks.
- `Vehicle` has the `Car`, `Pivot` and `ControlState` objects.
  `Vehicle.UpdateCar` is a module-level method that takes the car and its
  control state as arguments, as `updateCar` does, and is proved equal to
  `Drive.TickCar`.
- `Trails` covers `isWheelOnGround`, `drawWheelTrails` and the trail
  canvas. The canvas is an object whose painting history is a sequence.
- `GameLoop` models the `animate` frame. It is a `Game` object holding
  the two car slots, the two control states, the canvas, whether the
  canvas's initial sand fill is still pending, and the frame counter.

JavaScript numbers are modelled as mathematical reals.

## Model

| member | source | states |
|---|---|---|
| Arena.WorldToUV | arena.js:113-117 | UVToWorld inverts the result exactly: the platform's diameter maps onto the unit interval, centred on 0.5 |
| Arena.UVToWorld | arena.js:113-117 | the inverse mapping sends the left half of the texture (u < 0.5) to negative x, and likewise v to z |
| Arena.UVRoundTrip | arena.js:113-117 | the other round trip: every texture point is the image of the floor point UVToWorld gives for it |
| Arena.WorldToUVLandmarks | arena.js:112-117 | with radius 35, the centre maps to (0.5, 0.5) and the ends of the x diameter to u = 1 and u = 0 |
| Arena.WorldToUVMonotone | arena.js:113-117 | u depends only on x and v only on z; each rises strictly with its coordinate (both directions of the iff) |
| Arena.PlatformMapsIntoUnitSquare | arena.js:112-117 | every point of the disc of radius 35 maps into [0,1] x [0,1] |
| Arena.FillCanvasWithRepeatedImage | arena.js:88-96 | the nested loops issue exactly TileGrid's draws: row by row, each row left to right, none for a non-positive count |
| Arena.TileGrid | arena.js:90-95 | the draws of an n by n fill in row-major order, y outside and x inside, and none for n = 0; its layout is stated by TileGridLength and TileGridAt |
| Arena.TileGridLength | arena.js:88-96 | an n by n fill issues n * n draws |
| Arena.TileGridAt | arena.js:88-96 | draw number y*n + x puts the whole image into the tile at column x, row y |
| Arena.TileGridSource | arena.js:92-93 | every draw of a fill takes the whole image, as wide and as high as the image reports, as its source; for an image that reports 0x0 (one not loaded yet) every source rectangle is empty |
| Arena.TileGeometry | arena.js:89-93 | tiles are squares of side canvasSize/n, and the last tile ends exactly at the canvas edge |
| Arena.TilesCoverCanvas | arena.js:88-96 | every canvas point lies in some tile of the grid |
| Arena.TilesDisjoint | arena.js:88-96 | no canvas point lies in two different tiles |
| Arena.TilesInsideCanvas | arena.js:88-96 | every point of every tile lies in [0, canvasSize)^2, so with TilesCoverCanvas the tiles cover exactly the canvas |
| Drive.Held | main.js:118-150 | keys[k] is truthy: the key has an entry that is true; a key never pressed counts as released. ReadControls and every Drive lemma below read keys through it |
| Drive.ReadControls | main.js:231-232 | each player's four logical keys are read with that player's key names (w/s/a/d or the arrow keys); DriveCars and UpdateCar state their results through it |
| Drive.AccelerationRate | main.js:107-111 | the rate lies between 0 and 0.03 and never exceeds 0.001 * log(1 + seconds held) |
| Drive.Coast | main.js:124-128 | coasting keeps the sign and loses at least 4% of the wheel speed; the result is zero iff the decayed speed is below 0.0005, and is otherwise at least 0.0005 |
| Drive.ThrottleStep | main.js:116-128 | forward (checked first) or back adds one to the timer and moves the speed by at most 0.03 towards a clamp of +-0.2; with neither key the timer resets and the speed coasts; the speed bound is preserved |
| Drive.TurnRate | main.js:132-134 | the turn rate is proportional to the wheel speed: zero iff the speed is zero, and 0.03 at full speed |
| Drive.Heading | main.js:130-141 | the heading turns only above 0.001 wheel speed and when exactly one of left/right is held; reversing mirrors the direction; it turns at most 0.03 per tick |
| Drive.SteerTarget | main.js:147-150 | the pivot target is 0.4 iff left is held, -0.4 iff only right is held, and 0 iff neither is held |
| Drive.PivotStep | main.js:152-153 | one pivot easing step moves the yaw a fifth of the way towards the target; its properties are PivotStepSmooths, PivotConverges and PivotRecentres |
| Drive.PivotStepSmooths | main.js:152-153 | one easing step cuts the distance to the target by exactly the factor 0.8, never overshoots, and stays within +-0.4 |
| Drive.StepPivot | main.js:152-153 | an existing pivot takes one PivotStep towards the steer target and a missing pivot stays missing; Drive.TickCar and Vehicle.SteerPivot are stated with it |
| Drive.LinearSpeed | main.js:156-178 | the reported car.speed is non-negative, zero iff the wheels stand still, and at most 12*pi while the wheel speed is within 0.2 |
| Drive.TickCar | main.js:101-180 | the car's dir equals the state's dir; every wheel angle drops by the new wheel speed; an existing pivot stays; the speed is LinearSpeed of the new wheel speed |
| Drive.TickPreservesBounds | main.js:116-153 | a tick keeps the wheel speed within +-0.2 and both pivots within +-0.4, so the reported speed stays at most 12*pi |
| Drive.ForwardWinsOverBack | main.js:118-123 | holding forward and back together is the same tick as holding forward alone |
| Drive.TimerCountsHeldTicks | main.js:118-125 | the timer goes up by one while a throttle key is held and resets to 0 otherwise |
| Drive.CoastDecaysGeometrically | main.js:124-128 | after n coasting ticks the wheel speed is at most 0.96^n of its start |
| Drive.CoastKeepsSign | main.js:124-128 | coasting never reverses the wheels |
| Drive.RestIsStable | main.js:124-128 | a stopped car with no throttle key held stays stopped |
| Drive.CoastStops | main.js:124-128 | any wheel speed within +-0.2 reaches exactly zero within 147 ticks of coasting |
| Drive.PivotConverges | main.js:152-153 | with a fixed target, the pivot's offset after n ticks is 0.8^n times its first offset |
| Drive.PivotRecentres | main.js:147-153 | with the steering keys released, a pivot within +-0.4 is within 0.0005 of straight ahead after 30 ticks |
| Vehicle.Pivot.constructor | main.js:77-78 | a new pivot starts at yaw 0 |
| Vehicle.Car.Load | main.js:71-81 | a loaded car starts at wheel speed 0, with two distinct fresh pivots at yaw 0, within the driving bounds |
| Vehicle.ControlState.constructor | main.js:66-67 | a player's state starts with timer 0 and heading 0 |
| Vehicle.Accelerate | main.js:116-128 | the acceleration section computes exactly ThrottleStep |
| Vehicle.Turn | main.js:130-141 | the steering section computes exactly Heading |
| Vehicle.SpinWheels | main.js:145 | every wheel's rotation.x drops by the wheel speed; the wheel count stays the same |
| Vehicle.ChooseSteerAngle | main.js:148-150 | the chosen angle is SteerTarget |
| Vehicle.SteerPivot | main.js:152-153 | an existing pivot takes one PivotStep towards the angle; a missing one stays missing |
| Vehicle.UpdateCar | main.js:101-180 | nothing changes while the car or the state is missing; otherwise the car and state afterwards are exactly TickCar of the keys read with the player's scheme, and the pivot objects are kept |
| Trails.IsWheelOnGround | main.js:192-195 | a wheel counts as on the ground iff its world height is strictly between -3 and 3; TrailStampsSound, TrailStampsComplete and TrailStampsSkip state its effect on the marks |
| Trails.OnPlatform | main.js:204 | a wheel is over the platform iff x*x + z*z <= 35*35, rim included; PlatformMapsIntoUnitSquare and StampInCanvas put the pixel of such a wheel on the canvas |
| Trails.LeavesMark | main.js:202-204 | a wheel leaves a mark iff it is on the ground and over the platform; TrailStampsSound, TrailStampsComplete, TrailStampsSkip and TrailCanvas.StampWheel are stated with it |
| Trails.StampPixel | main.js:205-207 | a wheel's pixel is its texture coordinates times 512, rounded down; StampInCanvas and StampLandmarks state where it lands |
| Trails.TrailStamps | main.js:200-213 | the marks of one car's wheels in wheel order, never more than there are wheels; TrailStampsSound, TrailStampsComplete and TrailStampsSkip characterise them |
| Trails.StampInCanvas | main.js:204-207 | every wheel over the platform stamps a pixel with both coordinates in 0..512 |
| Trails.StampLandmarks | main.js:204-207 | the platform centre stamps pixel (256, 256), and the rim point (35, 0) stamps column 512 |
| Trails.TrailStampsSound | main.js:200-213 | every dot comes from a wheel that is near the ground and over the platform, and lies on the canvas |
| Trails.TrailStampsComplete | main.js:200-213 | every wheel near the ground and over the platform leaves its dot |
| Trails.TrailStampsSkip | main.js:202-204 | a wheel in the air or off the platform contributes nothing |
| Trails.CarStamps | main.js:198 | a missing car or wheel list stamps nothing, otherwise the car stamps TrailStamps of its wheels; TrailCanvas.DrawWheelTrails and GameLoop.TrailPass are stated with it |
| Trails.TrailCanvas.constructor | arena.js:99-109 | the texture is flagged for upload; the canvas holds the 4x4 sand fill if the image had already loaded, and is blank otherwise |
| Trails.TrailCanvas.SandLoaded | arena.js:102-104 | the load handler appends the 4x4 sand fill at full opacity after whatever is already painted |
| Trails.TrailCanvas.Fade | main.js:237-239 | the canvas gains one 16x16 sand fill at the given opacity |
| Trails.TrailCanvas.StampWheel | main.js:202-212 | one wheel adds one dot at StampPixel iff it is grounded and over the platform, and nothing otherwise |
| Trails.TrailCanvas.DrawWheelTrails | main.js:197-215 | the canvas gains exactly the car's stamps as dots of radius 5, in wheel order; the texture is flagged iff the car and its wheel list exist |
| GameLoop.IsTrailFrame | main.js:236 | a frame runs a trail pass iff its counter is a multiple of 2; TrailPassesFromStart, TrailPassEveryOtherFrame and Game.Animate state the cadence |
| GameLoop.TrailPass | main.js:236-243 | a trail pass paints the faint 16x16 fill first, then one dot per stamp of each car |
| GameLoop.TrailPassOnCanvas | main.js:236-243 | every op after the fill in a trail pass is a dot on the canvas |
| GameLoop.TrailPassesFromStart | main.js:217-263 | counting from frame 0, n frames contain exactly ceil(n/2) trail passes |
| GameLoop.TrailPassEveryOtherFrame | main.js:236-263 | any two consecutive frames contain exactly one trail pass |
| GameLoop.Game.constructor | arena.js:99-109 | the canvas is flagged for upload and holds the 4x4 sand fill iff the sand image had already loaded, and otherwise that fill is pending; as at main.js:66-70 and 217, there are no cars yet, both control states start at timer 0 and heading 0, and the frame counter is 0 |
| GameLoop.Game.SandLoaded | arena.js:99-105 | the pending load handler appends the 4x4 sand fill after every frame painted so far, and then it is spent |
| GameLoop.Game.LoadCar1 | main.js:70-81 | car 1's load callback installs a fresh car, keeps the object invariant and leaves car 2 alone |
| GameLoop.Game.LoadCar2 | main.js:83-95 | car 2's load callback installs a fresh car, keeps the object invariant and leaves car 1 alone |
| GameLoop.Game.DriveCars | main.js:231-232 | each loaded car and its state advance by TickCar with its own key scheme; a missing car's state is untouched |
| GameLoop.Game.RunTrailPass | main.js:236-243 | the canvas gains exactly TrailPass, its fill drawn from the sand image once loaded and from the 0x0 unloaded image before; the texture is flagged iff a car has wheels |
| GameLoop.Game.Animate | main.js:222-264 | both cars tick; the canvas gains a TrailPass iff the frame counter was even, its fill drawn from the 0x0 unloaded image while the sand is still loading; the counter goes up by one; the object invariant holds |

## Left out

- The position, physics-body and camera part of `updateCar` (main.js:155-175) is left out. It is trigonometry on the heading applied to scene and physics objects. The model keeps the speed and heading that the part feeds on.
- `world.step`, the physics debugger, the renderer and viewport split, the HUD and window resizing are left out. They are calls into the 3D engine and the DOM.
- `loadCarModel`, `setupCarPhysics`, `wrapWheelInPivot` and the `world` object are not part of this model. car.js defines only `createCar`; the three names imported at main.js:5 are not defined there. `createCar` is also left out, because the main loop never uses it. A loaded car is modelled as its wheel meshes' rotation.x values plus two pivots. Each pivot starts at yaw 0.
- Vehicle.UpdateCar requires the two front pivots to be different objects (`Car.Valid`). That follows only if `wrapWheelInPivot` returns a new object per call, which is not part of this model. If both pivots were the same object, the source would step its yaw twice per tick.
- The scene, lighting, textures, conveyor belts, the physics engine and the random props of arena.js are left out. None of them feed the controller or the trail canvas.
- Numbers are reals, not IEEE doubles. Rounding is not modelled: for example, a heading that turns left and then right by the same rate ends exactly where it started.
- `Math.log` is a parameter. The only fact used about it is that log(y) >= 0 for y >= 1.
- Arena.FillCanvasWithRepeatedImage: the default `repeatCount = 16` (arena.js:88) is not modelled, and neither is a count that is not a whole number; the count is an integer. Every call passes 4 or 16.
- Canvas raster work is left out. The model records the ops in order: each fill's draw calls and each dot's centre pixel and radius. It does not rasterise the circle, the fill colour `rgba(120, 100, 60, 0.85)` or alpha blending. `globalAlpha` is recorded as the fill's opacity. Resetting it to 1.0 afterwards is left implicit, because every dot is painted with `globalAlpha` 1.0.
- A sand image that has not loaded is modelled as an image reporting width and height 0 (`GameLoop.Unloaded`). A fill from it is still recorded as its 16x16 draw calls, each with an empty source rectangle (`Arena.TileGridSource`). The browser paints nothing for such a draw, and the model does not separately state that these draws leave the canvas unchanged.
- Wheel world positions come from the scene graph through `getWorldPosition`. They are parameters of `DrawWheelTrails` and `Animate`, taken after the tick. The model does not tie them to the car's wheel angles.
- The `speed` and `steering` fields of the state objects (main.js:66-67) are never read or written by the code, so they are left out.
- Vehicle.Car.Load: `speed` and `dir` start at 0 in the model. The source leaves them unset until the first tick. Every tick overwrites both.
- The `??=` defaults at main.js:117 and 131 are left out. The model's car and state always hold numbers from the start, so the defaults never fire.
- The comment at main.js:218 says trails update every 5 frames. The code uses an interval of 2, and the model follows the code.
- GameLoop.Game.Animate: the object invariant `Game.Valid` is about object identity only. That the driving bounds survive every tick is stated separately by `Drive.TickPreservesBounds`.
- `requestAnimationFrame` scheduling is left out. `Animate` models a single frame.
