/**
 * The trail buffer: a bounded FIFO of samples, oldest first, fed at most
 * once per sampling interval. The buffer's state lives in the RacingViz
 * class (Viz.dfy); this module holds the functions that specify how that
 * state changes and the lemmas about them.
 */
module Trail {
  import opened Geometry

  /** Milliseconds that must pass, strictly, before the next sample is taken. */
  const SAMPLE_INTERVAL: real := 33.0

  /** The sampling gate: a sample is due when more than the interval has passed since the last one. */
  predicate Due(now: real, lastSample: real)
    ensures Due(now, lastSample) ==> now > lastSample
  {
    now - lastSample > SAMPLE_INTERVAL
  }

  /**
   * Samples are strictly more than the interval apart: a frame due after a
   * sample at `t1` lies more than 33 ms after `t1`, and any later frame is
   * due as well.
   */
  lemma DueSpacing(t0: real, t1: real, t2: real)
    requires Due(t1, t0)
    ensures Due(t2, t1) ==> t2 > t0 + 2.0 * SAMPLE_INTERVAL
    ensures t2 >= t1 ==> Due(t2, t0)
  {
  }

  /**
   * The sample recorded for a car: a copy of its position and the value of
   * the (injected) hypot on the ground-plane components of its velocity.
   */
  function TakeSample(car: Car, hypot: (real, real) -> real): (s: Sample)
    ensures s.pos == car.position
    ensures car.velocity.None? ==> s.speed == hypot(0.0, 0.0)
    ensures car.velocity.Some? ==> s.speed == hypot(car.velocity.value.x, car.velocity.value.z)
  {
    var vel := VelocityOrRest(car.velocity);
    Sample(car.position, hypot(vel.x, vel.z))
  }

  /** The vertical velocity never reaches a sample: two cars that differ only there sample alike. */
  lemma SampleIgnoresVerticalVelocity(pos: Vec3, vx: real, vz: real, vy1: real, vy2: real, hypot: (real, real) -> real)
    ensures TakeSample(Car(pos, Some(Vec3(vx, vy1, vz))), hypot) == TakeSample(Car(pos, Some(Vec3(vx, vy2, vz))), hypot)
  {
  }

  /**
   * Append one sample at the tail, then drop the head once if the trail is
   * now longer than its capacity.
   */
  function Push(trail: seq<Sample>, maxTrail: nat, s: Sample): (r: seq<Sample>)
    ensures |trail| <= maxTrail ==> |r| <= maxTrail
    ensures |trail| < maxTrail ==> r == trail + [s]
    ensures 0 < |trail| == maxTrail ==> |r| == maxTrail && r == trail[1..] + [s]
    ensures 0 < |r| ==> r[|r| - 1] == s
  {
    var t := trail + [s];
    if |t| > maxTrail then
      assert trail != [] ==> t[1..] == trail[1..] + [s];
      t[1..]
    else
      t
  }

  /** The last `maxTrail` elements of `u`, or all of `u` when it is no longer than that. */
  function Newest(u: seq<Sample>, maxTrail: nat): (r: seq<Sample>)
    ensures |r| == if |u| <= maxTrail then |u| else maxTrail
  {
    if |u| <= maxTrail then u else u[|u| - maxTrail..]
  }

  /** The trail after feeding it `xs`, one Push per element, in order. */
  function PushAll(trail: seq<Sample>, maxTrail: nat, xs: seq<Sample>): seq<Sample>
    decreases |xs|
  {
    if xs == [] then trail else PushAll(Push(trail, maxTrail, xs[0]), maxTrail, xs[1..])
  }

  /** One Push on a trail within capacity keeps exactly the newest `maxTrail` samples. */
  lemma PushKeepsNewest(trail: seq<Sample>, maxTrail: nat, s: Sample)
    requires |trail| <= maxTrail
    ensures Push(trail, maxTrail, s) == Newest(trail + [s], maxTrail)
  {
  }

  /** Trimming to the newest `maxTrail` early or late makes no difference. */
  lemma NewestOfNewest(u: seq<Sample>, v: seq<Sample>, maxTrail: nat)
    ensures Newest(Newest(u, maxTrail) + v, maxTrail) == Newest(u + v, maxTrail)
  {
    if |u| > maxTrail {
      var w := u[|u| - maxTrail..];
      if |w + v| > maxTrail {
        assert (w + v)[|w + v| - maxTrail..] == (u + v)[|u + v| - maxTrail..];
      } else {
        assert v == [];
        assert u + v == u;
      }
    }
  }

  /**
   * FIFO by content: feeding any sequence of samples to a trail within
   * capacity leaves exactly the newest `maxTrail` of the old trail followed
   * by the new samples, in their original order; everything older is evicted.
   */
  lemma {:induction false} PushAllKeepsNewest(trail: seq<Sample>, maxTrail: nat, xs: seq<Sample>)
    requires |trail| <= maxTrail
    ensures PushAll(trail, maxTrail, xs) == Newest(trail + xs, maxTrail)
    ensures |PushAll(trail, maxTrail, xs)| <= maxTrail
    decreases |xs|
  {
    if xs == [] {
      assert trail + xs == trail;
    } else {
      var next := Push(trail, maxTrail, xs[0]);
      PushKeepsNewest(trail, maxTrail, xs[0]);
      PushAllKeepsNewest(next, maxTrail, xs[1..]);
      NewestOfNewest(trail + [xs[0]], xs[1..], maxTrail);
      assert trail + [xs[0]] + xs[1..] == trail + xs;
    }
  }

  /** A trail of capacity 3 fed A, B, C, D holds exactly B, C, D. */
  lemma CapacityThreeScenario(a: Sample, b: Sample, c: Sample, d: Sample)
    ensures PushAll([], 3, [a, b, c, d]) == [b, c, d]
  {
    PushAllKeepsNewest([], 3, [a, b, c, d]);
    assert [] + [a, b, c, d] == [a, b, c, d];
  }
}
