/**
 * The minimap: a 220 x 220 panel centred on the car. A world point is drawn
 * at its ground-plane offset from the car, scaled by 0.4, around the panel's
 * centre (110, 110); world z runs down the panel. Height is dropped.
 */
module Minimap {
  import opened Geometry
  import Predictor

  /** Side of the square panel, in CSS pixels. */
  const SIZE: real := 220.0

  /** Panel coordinate of the car, on both axes. */
  const CENTRE: real := SIZE / 2.0

  /** Panel pixels per world unit. */
  const SCALE: real := 0.4

  /** A position on the minimap panel. */
  datatype MapPoint = MapPoint(x: real, y: real)

  /** Where a world point is drawn on a minimap centred on the car at `car`. */
  function ToMinimap(p: Vec3, car: Vec3): (m: MapPoint)
    ensures m == MapPoint(CENTRE, CENTRE) <==> p.x == car.x && p.z == car.z
    ensures m.x > CENTRE <==> p.x > car.x
    ensures m.y > CENTRE <==> p.z > car.z
  {
    MapPoint(CENTRE + (p.x - car.x) * SCALE, CENTRE + (p.z - car.z) * SCALE)
  }

  /** The ground-plane world point drawn at `m`, placed at height `y`: the inverse of ToMinimap. */
  function FromMinimap(m: MapPoint, car: Vec3, y: real): Vec3 {
    Vec3(car.x + (m.x - CENTRE) / SCALE, y, car.z + (m.y - CENTRE) / SCALE)
  }

  /** A polyline of world points, as the minimap draws it: one panel point per world point, in order. */
  function MinimapPath(points: seq<Vec3>, car: Vec3): (r: seq<MapPoint>)
    ensures |r| == |points|
    ensures forall i :: 0 <= i < |r| ==> r[i] == ToMinimap(points[i], car)
  {
    seq(|points|, i requires 0 <= i < |points| => ToMinimap(points[i], car))
  }

  /**
   * The trail as the minimap draws it: entry i is the panel point of the
   * i-th sample's position, oldest first.
   */
  function TrailOnMinimap(trail: seq<Sample>, car: Vec3): (r: seq<MapPoint>)
    ensures |r| == |trail|
    ensures forall i :: 0 <= i < |r| ==> r[i] == ToMinimap(trail[i].pos, car)
  {
    MinimapPath(Positions(trail), car)
  }

  /** The car itself is drawn at the centre of the panel, (110, 110). */
  lemma CarAtCentre(car: Vec3)
    ensures ToMinimap(car, car) == MapPoint(110.0, 110.0)
  {
  }

  /**
   * The map is affine with factor 0.4: the panel offset between two drawn
   * points is 0.4 times their ground-plane world offset, wherever the car is.
   */
  lemma MinimapIsScaledOffset(a: Vec3, b: Vec3, car: Vec3)
    ensures ToMinimap(a, car).x - ToMinimap(b, car).x == SCALE * (a.x - b.x)
    ensures ToMinimap(a, car).y - ToMinimap(b, car).y == SCALE * (a.z - b.z)
    ensures ToMinimap(a, car).x - CENTRE == SCALE * (a.x - car.x)
    ensures ToMinimap(a, car).y - CENTRE == SCALE * (a.z - car.z)
  {
  }

  /** Round trip: the world point recovered from a drawn point has the original ground-plane position. */
  lemma FromMinimapInvertsToMinimap(p: Vec3, car: Vec3)
    ensures FromMinimap(ToMinimap(p, car), car, p.y) == p
  {
    var m := ToMinimap(p, car);
    assert (m.x - CENTRE) / SCALE == p.x - car.x;
    assert (m.y - CENTRE) / SCALE == p.z - car.z;
  }

  /** Round trip the other way: every panel point is drawn for exactly the world points recovered from it. */
  lemma ToMinimapInvertsFromMinimap(m: MapPoint, car: Vec3, y: real)
    ensures ToMinimap(FromMinimap(m, car, y), car) == m
  {
    var p := FromMinimap(m, car, y);
    assert (p.x - car.x) * SCALE == m.x - CENTRE;
    assert (p.z - car.z) * SCALE == m.y - CENTRE;
  }

  /** Two points are drawn at one panel position exactly when they agree in the ground plane. */
  lemma SamePanelPointIffSameGround(a: Vec3, b: Vec3, car: Vec3)
    ensures ToMinimap(a, car) == ToMinimap(b, car) <==> a.x == b.x && a.z == b.z
  {
    if ToMinimap(a, car) == ToMinimap(b, car) {
      FromMinimapInvertsToMinimap(a, car);
      FromMinimapInvertsToMinimap(b, car);
      assert FromMinimap(ToMinimap(a, car), car, a.y).x == FromMinimap(ToMinimap(b, car), car, b.y).x;
      assert FromMinimap(ToMinimap(a, car), car, a.y).z == FromMinimap(ToMinimap(b, car), car, b.y).z;
    }
  }

  /**
   * The predicted path, drawn from the car's own position, is a straight
   * line of evenly spaced points leaving the centre along the velocity:
   * entry i sits at (110, 110) plus 0.4 times `(i + 1) * v * DT`.
   */
  lemma PredictionOnMinimap(car: Vec3, v: Vec3, i: nat)
    ensures ToMinimap(Predictor.PredictedAt(car, v, i), car)
      == MapPoint(CENTRE + SCALE * ((i + 1) as real * v.x * Predictor.DT),
                  CENTRE + SCALE * ((i + 1) as real * v.z * Predictor.DT))
  {
  }
}
