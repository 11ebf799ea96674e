/**
 * Value types shared by the visualisation core: world-space points and
 * vectors, trail samples, and the host's car and camera records.
 * Coordinates are exact reals; floating point is not modelled.
 */
module Geometry {

  datatype Option<T> = None | Some(value: T)

  /** A point or a vector in world space (x and z span the ground plane, y is up). */
  datatype Vec3 = Vec3(x: real, y: real, z: real)

  /** One trail entry: a copy of the car's position and its ground-plane speed. */
  datatype Sample = Sample(pos: Vec3, speed: real)

  /** The player's car as the host game exposes it; its velocity may be missing. */
  datatype Car = Car(position: Vec3, velocity: Option<Vec3>)

  /** The host camera: a position and, possibly, a yaw angle in radians. */
  datatype Camera = Camera(position: Vec3, yaw: Option<real>)

  /**
   * The velocity the core works with: the car's own, or a car at rest when
   * the host gives none (the mod falls back to `{ x: 0, z: 0 }`, whose
   * missing y is never read; here it is 0).
   */
  function VelocityOrRest(v: Option<Vec3>): (r: Vec3)
    ensures v.Some? ==> r == v.value
    ensures v.None? ==> r.x == 0.0 && r.z == 0.0
  {
    match v
    case Some(u) => u
    case None => Vec3(0.0, 0.0, 0.0)
  }

  /** The positions of a sequence of samples, in order. */
  function Positions(samples: seq<Sample>): (r: seq<Vec3>)
    ensures |r| == |samples|
    ensures forall i :: 0 <= i < |r| ==> r[i] == samples[i].pos
  {
    seq(|samples|, i requires 0 <= i < |samples| => samples[i].pos)
  }
}
