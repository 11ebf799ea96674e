/**
 * The trajectory predictor: a constant-velocity forward integrator in the
 * ground plane. Each of `steps` iterations advances x and z by the velocity
 * times a fixed step of 1/60 s and keeps y; every new position is recorded,
 * the starting one is not.
 */
module Predictor {
  import opened Geometry

  /** The fixed integration step, in seconds. */
  const DT: real := 1.0 / 60.0

  /** One integration step: move by `v * DT` in the ground plane, hold the height. */
  function Step(p: Vec3, v: Vec3): (r: Vec3)
    ensures r.y == p.y
    ensures r.x - p.x == v.x * DT && r.z - p.z == v.z * DT
  {
    Vec3(p.x + v.x * DT, p.y, p.z + v.z * DT)
  }

  /** The position after `k` integration steps from `p`: the reference definition of the loop. */
  function Advance(p: Vec3, v: Vec3, k: nat): Vec3 {
    if k == 0 then p else Step(Advance(p, v, k - 1), v)
  }

  /** Entry `i` of a predicted path, in closed form: `i + 1` steps of `v * DT` from `pos`. */
  function PredictedAt(pos: Vec3, v: Vec3, i: nat): Vec3 {
    Vec3(pos.x + (i + 1) as real * v.x * DT, pos.y, pos.z + (i + 1) as real * v.z * DT)
  }

  /** Iterating the step `k` times is the same as one move by `k * v * DT`. */
  lemma {:induction false} AdvanceClosedForm(p: Vec3, v: Vec3, k: nat)
    ensures Advance(p, v, k) == Vec3(p.x + k as real * v.x * DT, p.y, p.z + k as real * v.z * DT)
  {
    if k > 0 {
      AdvanceClosedForm(p, v, k - 1);
      var q := Advance(p, v, k - 1);
      assert q.x + v.x * DT == p.x + k as real * v.x * DT;
      assert q.z + v.z * DT == p.z + k as real * v.z * DT;
    }
  }

  /**
   * The predicted path: exactly `steps` positions, entry `i` the position
   * after `i + 1` steps, so the starting position itself is not included.
   */
  method Predict(pos: Vec3, vel: Vec3, steps: nat) returns (path: seq<Vec3>)
    ensures |path| == steps
    ensures forall i :: 0 <= i < steps ==> path[i] == PredictedAt(pos, vel, i)
  {
    path := [];
    var p := pos;
    for i := 0 to steps
      invariant |path| == i
      invariant p == Advance(pos, vel, i)
      invariant forall j :: 0 <= j < i ==> path[j] == Advance(pos, vel, j + 1)
    {
      p := Vec3(p.x + vel.x * DT, p.y, p.z + vel.z * DT);
      path := path + [p];
    }
    forall i | 0 <= i < steps
      ensures path[i] == PredictedAt(pos, vel, i)
    {
      AdvanceClosedForm(pos, vel, i + 1);
    }
  }

  /** Consecutive predicted positions are evenly spaced, `v * DT` apart, at the starting height. */
  lemma PredictedSpacing(pos: Vec3, v: Vec3, i: nat)
    ensures PredictedAt(pos, v, i + 1).x - PredictedAt(pos, v, i).x == v.x * DT
    ensures PredictedAt(pos, v, i + 1).z - PredictedAt(pos, v, i).z == v.z * DT
    ensures PredictedAt(pos, v, i + 1).y == PredictedAt(pos, v, i).y == pos.y
  {
    var a := (i + 1) as real;
    assert (a + 1.0) * v.x * DT - a * v.x * DT == v.x * DT;
    assert (a + 1.0) * v.z * DT - a * v.z * DT == v.z * DT;
  }

  /** With 60 steps the last entry lies one second of travel ahead: `pos + v` in the ground plane. */
  lemma OneSecondHorizon(pos: Vec3, v: Vec3)
    ensures PredictedAt(pos, v, 59) == Vec3(pos.x + v.x, pos.y, pos.z + v.z)
  {
  }

  /** A car without a velocity is predicted to stay where it is. */
  lemma AtRestStaysPut(pos: Vec3, i: nat)
    ensures PredictedAt(pos, VelocityOrRest(None), i) == pos
  {
  }
}
