# Racing visualisation core, modelled in Dafny

This project models the computational core of the PolyTrack racing
visualisation mod (`RacingVizMod`). On a frame callback, the mod samples the
player's car into a bounded trail, at most once every 33 ms (strictly more
than 33 ms after the previous sample). It predicts a short path ahead of the car, projects
world points onto the overlay, and draws the trail and the prediction on a
minimap centred on the car. The model keeps the mod's own state and
constants:

- a trail capacity of 200;
- 60 prediction steps of 1/60 s each;
- a 33 ms sampling gate;
- a focal constant of 600 and a near plane of 0.1;
- a 220-pixel minimap at scale 0.4.

Files, one module each:

- `Geometry.dfy`: the value types `Vec3`, `Sample`, `Car` and `Camera`, plus the fallback for a missing velocity.
- `Trail.dfy`: the trail buffer's behaviour as functions (`Push`, `PushAll`, `Newest`), with the FIFO lemmas.
- `Predictor.dfy`: the constant-velocity integrator. `Predict` is a loop method proved against a closed form.
- `Projection.dfy`: the camera projector `WorldToScreen`, its inverse `Unproject` and its geometric properties.
- `Minimap.dfy`: the minimap's affine point mapping and its inverse.
- `Viz.dfy`: the `RacingViz` class. Its fields are `enabled`, `trail`, `maxTrail`, `predSteps` and `lastSample`. Its methods are the constructor, the keydown handler, the sampling step and the frame callback.

Parameters stand in for what the host or the browser supplies:

- the clock (`now`, in milliseconds);
- `Math.hypot`, as a function value `hypot: (real, real) -> real`;
- the cosine and sine of the negated yaw, carried by a `Pose` (`PoseOf` builds one from any `cos`/`sin` functions);
- the overlay's width and height;
- the game's car and camera, each an `Option`.

All coordinates are exact reals.

Some facts about the code that the model keeps:

- `predict` (0.2.0/main.mod.js:96-111) is a plain constant-velocity integrator. It has no acceleration, drag or steering term. It returns exactly `predSteps` positions, without the starting position and without a speed field.
- The projection returns only `x` and `y`, never a depth, and never applies pitch.
- There is no severity or colour classifier. Segment colours are fixed, with opacity given by the segment index.

## Model

| member | source | states |
|---|---|---|
| Geometry.VelocityOrRest | 0.2.0/main.mod.js:77 | a missing velocity reads as a car at rest on the ground plane (x = z = 0); a present one is used as is |
| Trail.Due | 0.2.0/main.mod.js:76 | the 33 ms gate: a due frame is strictly later than the last sample |
| Trail.DueSpacing | 0.2.0/main.mod.js:76-83 | two consecutive samples are more than 33 ms apart, so two samples after t0 lie beyond t0 + 66 ms; once due, every later frame is due too |
| Trail.TakeSample | 0.2.0/main.mod.js:77-81 | a sample holds a copy of the car's position and hypot of the velocity's x and z (hypot(0, 0) when the velocity is missing) |
| Trail.SampleIgnoresVerticalVelocity | 0.2.0/main.mod.js:77-81 | two cars differing only in vertical velocity produce the same sample |
| Trail.Push | 0.2.0/main.mod.js:78-82 | a trail within capacity stays within capacity; below capacity the sample is simply appended; at capacity the head is evicted, the rest kept in order and the sample is last |
| Trail.PushKeepsNewest | 0.2.0/main.mod.js:78-82 | one push on a trail within capacity leaves exactly the newest maxTrail samples of old trail plus sample |
| Trail.PushAllKeepsNewest | 0.2.0/main.mod.js:76-84 | FIFO by content: after any sequence of pushes the trail is exactly the newest maxTrail samples of old trail followed by the new samples, and its length never exceeds maxTrail |
| Trail.CapacityThreeScenario | 0.2.0/main.mod.js:78-82 | with capacity 3, pushing A, B, C, D leaves exactly [B, C, D] |
| Predictor.Step | 0.2.0/main.mod.js:103-107 | one integration step moves x and z by v times 1/60 s and keeps y |
| Predictor.AdvanceClosedForm | 0.2.0/main.mod.js:100-108 | k steps of the integrator equal one move by k times v times 1/60 s in x and z, with y unchanged |
| Predictor.Predict | 0.2.0/main.mod.js:96-111 | the path has exactly predSteps entries; entry i is pos + (i+1) v / 60 in x and z with y = pos.y, so the start is not included |
| Predictor.PredictedSpacing | 0.2.0/main.mod.js:102-108 | consecutive predicted positions are exactly v / 60 apart in x and z and share the starting height |
| Predictor.OneSecondHorizon | 0.2.0/main.mod.js:100-108 | with 60 steps the last predicted position is pos + v in the ground plane (one second ahead) |
| Predictor.AtRestStaysPut | 0.2.0/main.mod.js:89 | a car with no velocity is predicted to stay at its position |
| Projection.Yaw | 0.2.0/main.mod.js:188 | a camera without a yaw has yaw 0; otherwise its own yaw |
| Projection.PoseOf | 0.2.0/main.mod.js:188-189 | the pose carries the camera position and cos and sin of minus the yaw |
| Projection.MissingYawIsLevel | 0.2.0/main.mod.js:188-190 | with no yaw the rotation is the identity (c = 1, s = 0) |
| Projection.CameraSpace | 0.2.0/main.mod.js:184-190 | the camera-relative height is the plain height difference (no pitch); for a proper rotation the ground-plane distance to the camera is preserved |
| Projection.Perspective | 0.2.0/main.mod.js:192-198 | pinhole relation with focal length 600: the pixel offset from the viewport centre times depth is 600 times the camera-space offset, with y flipped |
| Projection.WorldToScreen | 0.2.0/main.mod.js:183-199 | the result is null exactly when the rotated camera-relative depth is at most 0.1 |
| Projection.UnprojectInvertsProjection | 0.2.0/main.mod.js:184-198 | round trip: a visible point's pixel, unprojected at its own depth, gives back the point (for a proper rotation) |
| Projection.ProjectionInvertsUnproject | 0.2.0/main.mod.js:184-198 | round trip: any pixel, unprojected at a depth beyond the near plane, projects back onto itself at that depth |
| Projection.ForwardRayToCentre | 0.2.0/main.mod.js:184-198 | for any yaw, a point straight ahead of the camera at its height and beyond the near plane lands at (width/2, height/2) |
| Projection.CentreScenario | 0.2.0/main.mod.js:184-198 | yaw 0, 800x600 viewport, a point 5 units straight ahead lands at (400, 300) |
| Projection.OffCentreScenario | 0.2.0/main.mod.js:184-198 | yaw 0, 800x600 viewport, a point 1 right, 1 up and 5 ahead lands 120 pixels right of and above centre, at (520, 180) |
| Projection.HeightOnlyMovesScreenY | 0.2.0/main.mod.js:185-197 | no pitch: a point's height neither decides visibility nor moves its screen x |
| Projection.ScreenSides | 0.2.0/main.mod.js:194-197 | a visible point right of the line of sight is drawn right of centre; one above the camera is drawn above centre (y flipped) |
| Projection.SameRaySamePixel | 0.2.0/main.mod.js:184-198 | two visible points on one ray from the camera land on the same pixel |
| Minimap.ToMinimap | 0.2.0/main.mod.js:156-159 | a point is drawn at the panel centre exactly when it shares the car's x and z; right of and below centre exactly when it is at greater x or greater z than the car |
| Minimap.MinimapPath | 0.2.0/main.mod.js:155-173 | a polyline of world points (trail positions or prediction) is drawn as one panel point per world point, in order |
| Minimap.TrailOnMinimap | 0.2.0/main.mod.js:155-161 | the drawn trail has one panel point per sample, the i-th at the panel point of sample i's position, oldest first |
| Minimap.CarAtCentre | 0.2.0/main.mod.js:144-159 | the car's own position is drawn at the panel centre (110, 110) |
| Minimap.MinimapIsScaledOffset | 0.2.0/main.mod.js:146-159 | the panel offset between two points, and from the centre, is 0.4 times the ground-plane world offset |
| Minimap.FromMinimapInvertsToMinimap | 0.2.0/main.mod.js:155-159 | round trip: the ground-plane point recovered from a drawn point is the original one |
| Minimap.ToMinimapInvertsFromMinimap | 0.2.0/main.mod.js:155-159 | round trip: every panel point is the drawing of the point recovered from it |
| Minimap.SamePanelPointIffSameGround | 0.2.0/main.mod.js:155-159 | two points share a panel position exactly when they share x and z |
| Minimap.PredictionOnMinimap | 0.2.0/main.mod.js:167-171 | predicted entry i of the car's own path is drawn at the centre plus 0.4 (i+1) v / 60 |
| Viz.Toggled | 0.2.0/main.mod.js:58 | the enabled flag changes exactly when the key code is "Digit7" |
| Viz.ToggleTwiceRestores | 0.2.0/main.mod.js:58 | toggling twice restores the enabled flag |
| Viz.TrailAlpha | 0.2.0/main.mod.js:119 | trail segment opacity lies in [0, 1) and is 0 exactly for the oldest segment |
| Viz.PredictionAlpha | 0.2.0/main.mod.js:134 | prediction segment opacity lies in (0, 1] and is 1 exactly for the first segment |
| Viz.RacingViz.constructor | 0.2.0/main.mod.js:4-19 | a new session is enabled, has an empty trail, lastSample 0, capacity 200 and 60 prediction steps |
| Viz.RacingViz.KeyDown | 0.2.0/main.mod.js:57-60 | "Digit7" negates enabled, "Digit9" empties the trail, nothing else changes; the capacity invariant is kept |
| Viz.RacingViz.SampleTrail | 0.2.0/main.mod.js:75-84 | if more than 33 ms have passed, the trail becomes Push of the car's sample and lastSample becomes now; otherwise both are unchanged; the capacity invariant is kept |
| Viz.RacingViz.Loop | 0.2.0/main.mod.js:65-94 | nothing changes and no prediction is made while disabled or without car or camera; otherwise the trail is sampled and the returned prediction has predSteps entries at their closed-form positions |
| Viz.SampledTrailEndsAtCar | 0.2.0/main.mod.js:78-82 | after a sample on a trail within capacity, the newest entry is at the car's position, the trail is within capacity and the older entries are the old trail, minus its head when full |
| Viz.SampledTrailEndsAtMinimapCentre | 0.2.0/main.mod.js:78-82 | on the minimap, a trail just sampled from the car ends at the panel centre (110, 110) |

## Left out

- The PolyMod base class and its import (0.2.0/main.mod.js:1-5): a foreign library; PolyMod is not part of this model.
- Canvas and DOM creation, CSS, the resize handler with `devicePixelRatio`, and the event-listener wiring (0.2.0/main.mod.js:21-63). These are UI plumbing. Only the state effects of the two keys are modelled, by `KeyDown`.
- `requestAnimationFrame` scheduling (0.2.0/main.mod.js:66). `Loop` models one invocation; the host calls it again.
- `performance.now()`, `Math.cos`, `Math.sin` and `Math.hypot`. Dafny has no clock and no trigonometry, so these are parameters. Lemmas that need a proper rotation require `c*c + s*s == 1`.
- All drawing calls in `drawTrajectory`, `drawPrediction` and `drawMinimap`: clearing, strokes, arcs, fills and colour strings. Only the opacity ratios and the minimap point mapping are modelled. The rule that a segment is skipped when either endpoint is not projectable (0.2.0/main.mod.js:117, 132) is not modelled as a separate operation; `WorldToScreen` returning None is that condition.
- IEEE floating point (NaN, infinities, rounding). All coordinates are exact reals. For this reason the `|| 0` on yaw is modelled only for a missing yaw, not for NaN.
- Predictor.Predict: returns the positions themselves, not `{ pos }` wrapper objects.
- Geometry.VelocityOrRest: the fallback `{ x: 0, z: 0 }` has no y; the model gives it y = 0, which is never read.
- A severity or colour classifier, and an accelerating, damped or steered predictor: neither exists in 0.2.0/main.mod.js.
