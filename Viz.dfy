/**
 * The visualisation session: the RacingViz object with the state its
 * frame callback and key handler update in place (enabled flag, trail,
 * time of the last sample). The host's clock, its hypot and its frame
 * scheduling are parameters; drawing is not modelled.
 */
module Viz {
  import opened Geometry
  import Trail
  import Predictor
  import Minimap

  /** Capacity of the trail. */
  const MAX_TRAIL: nat := 200

  /** Number of positions in each predicted path. */
  const PRED_STEPS: nat := 60

  /** What the host game offers on one frame: the local car and the camera, each possibly absent. */
  datatype Host = Host(car: Option<Car>, camera: Option<Camera>)

  /** The effect of a key code on the enabled flag: "Digit7" flips it, any other key leaves it. */
  function Toggled(enabled: bool, code: string): (r: bool)
    ensures r != enabled <==> code == "Digit7"
  {
    if code == "Digit7" then !enabled else enabled
  }

  /** Pressing "Digit7" twice restores the enabled flag. */
  lemma ToggleTwiceRestores(enabled: bool, code: string)
    ensures Toggled(Toggled(enabled, code), code) == enabled
  {
  }

  /** Opacity of trail segment `i` of a trail of `n` samples: older segments are fainter. */
  function TrailAlpha(i: nat, n: nat): (a: real)
    requires i < n
    ensures 0.0 <= a < 1.0
    ensures i == 0 <==> a == 0.0
  {
    i as real / n as real
  }

  /** Opacity of prediction segment `i` of a path of `n` positions: nearer segments are stronger. */
  function PredictionAlpha(i: nat, n: nat): (a: real)
    requires i < n
    ensures 0.0 < a <= 1.0
    ensures i == 0 <==> a == 1.0
  {
    1.0 - i as real / n as real
  }

  class RacingViz {
    var enabled: bool
    var trail: seq<Sample>
    const maxTrail: nat
    const predSteps: nat
    var lastSample: real

    /** The trail never holds more than `maxTrail` samples. */
    ghost predicate Valid()
      reads this
    {
      |trail| <= maxTrail
    }

    /** A fresh session: enabled, empty trail, no sample taken yet (time 0). */
    constructor ()
      ensures Valid()
      ensures enabled && trail == [] && lastSample == 0.0
      ensures maxTrail == MAX_TRAIL && predSteps == PRED_STEPS
    {
      enabled := true;
      trail := [];
      maxTrail := MAX_TRAIL;
      predSteps := PRED_STEPS;
      lastSample := 0.0;
    }

    /** The keydown handler: "Digit7" toggles the visualisation, "Digit9" clears the trail. */
    method KeyDown(code: string)
      requires Valid()
      modifies this
      ensures Valid()
      ensures enabled == Toggled(old(enabled), code)
      ensures trail == if code == "Digit9" then [] else old(trail)
      ensures lastSample == old(lastSample)
    {
      if code == "Digit7" {
        enabled := !enabled;
      }
      if code == "Digit9" {
        trail := [];
      }
    }

    /**
     * The sampling step of a frame at time `now` (milliseconds): when more
     * than the sampling interval has passed since the last sample, append a
     * sample of the car, drop the oldest one if the trail is over capacity,
     * and remember `now`; otherwise change nothing.
     */
    method SampleTrail(now: real, car: Car, hypot: (real, real) -> real)
      requires Valid()
      modifies this
      ensures Valid()
      ensures enabled == old(enabled)
      ensures Trail.Due(now, old(lastSample)) ==>
        trail == Trail.Push(old(trail), maxTrail, Trail.TakeSample(car, hypot)) && lastSample == now
      ensures !Trail.Due(now, old(lastSample)) ==> trail == old(trail) && lastSample == old(lastSample)
    {
      if now - lastSample > Trail.SAMPLE_INTERVAL {
        var vel := VelocityOrRest(car.velocity);
        trail := trail + [Sample(car.position, hypot(vel.x, vel.z))];
        if |trail| > maxTrail {
          trail := trail[1..];
        }
        lastSample := now;
      }
    }

    /**
     * One frame of the callback, minus drawing: nothing happens while the
     * visualisation is disabled or the host has no car or no camera;
     * otherwise the trail is sampled and a fresh prediction is computed from
     * the car's position and velocity and handed back for drawing.
     */
    method Loop(now: real, host: Host, hypot: (real, real) -> real) returns (prediction: Option<seq<Vec3>>)
      requires Valid()
      modifies this
      ensures Valid()
      ensures enabled == old(enabled)
      ensures prediction.None? <==> !old(enabled) || host.car.None? || host.camera.None?
      ensures prediction.None? ==> trail == old(trail) && lastSample == old(lastSample)
      ensures prediction.Some? ==>
        var car := host.car.value;
        && (Trail.Due(now, old(lastSample)) ==>
              trail == Trail.Push(old(trail), maxTrail, Trail.TakeSample(car, hypot)) && lastSample == now)
        && (!Trail.Due(now, old(lastSample)) ==> trail == old(trail) && lastSample == old(lastSample))
        && |prediction.value| == predSteps
        && forall i :: 0 <= i < predSteps ==>
             prediction.value[i] == Predictor.PredictedAt(car.position, VelocityOrRest(car.velocity), i)
    {
      if !enabled {
        return None;
      }
      if host.car.None? || host.camera.None? {
        return None;
      }
      var car := host.car.value;
      SampleTrail(now, car, hypot);
      var path := Predictor.Predict(car.position, VelocityOrRest(car.velocity), predSteps);
      prediction := Some(path);
    }
  }

  /**
   * After a sampling step that fires on a trail within capacity, the newest
   * entry is the car's current position and the trail is still within
   * capacity; a full trail loses exactly its oldest entry.
   */
  lemma SampledTrailEndsAtCar(trail: seq<Sample>, maxTrail: nat, car: Car, hypot: (real, real) -> real)
    requires 0 < maxTrail
    requires |trail| <= maxTrail
    ensures var r := Trail.Push(trail, maxTrail, Trail.TakeSample(car, hypot));
      && 0 < |r| <= maxTrail
      && r[|r| - 1].pos == car.position
      && (|trail| == maxTrail ==> r[..|r| - 1] == trail[1..])
      && (|trail| < maxTrail ==> r[..|r| - 1] == trail)
  {
    var r := Trail.Push(trail, maxTrail, Trail.TakeSample(car, hypot));
    if |trail| == maxTrail {
      assert r == trail[1..] + [Trail.TakeSample(car, hypot)];
      assert r[..|r| - 1] == trail[1..];
    } else {
      assert r[..|r| - 1] == trail;
    }
  }

  /**
   * On the minimap, a trail just sampled from the car ends at the panel
   * centre: the newest point of the drawn trail is where the car is drawn.
   */
  lemma SampledTrailEndsAtMinimapCentre(trail: seq<Sample>, maxTrail: nat, car: Car, hypot: (real, real) -> real)
    requires 0 < maxTrail
    requires |trail| <= maxTrail
    ensures var drawn := Minimap.TrailOnMinimap(Trail.Push(trail, maxTrail, Trail.TakeSample(car, hypot)), car.position);
      0 < |drawn| && drawn[|drawn| - 1] == Minimap.MapPoint(Minimap.CENTRE, Minimap.CENTRE)
  {
    SampledTrailEndsAtCar(trail, maxTrail, car, hypot);
  }
}
