/**
 * The camera projector: world point to screen pixel. The point is moved into
 * camera-relative coordinates, turned about the vertical axis by minus the
 * camera's yaw, culled when its depth is at or below the near plane, and
 * otherwise divided by depth with a focal constant of 600 and centred in the
 * viewport with y pointing down. Pitch is never applied.
 *
 * There is no trigonometry here: a Pose carries the cosine and the sine of
 * the negated yaw, computed by whoever builds it (PoseOf takes the two
 * functions as parameters).
 */
module Projection {
  import opened Geometry

  /** Focal constant of the perspective divide, in pixels. */
  const FOCAL: real := 600.0

  /** Near plane: points at or below this camera-space depth are not drawn. */
  const NEAR: real := 0.1

  /** A pixel position on the overlay, y growing downwards. */
  datatype ScreenPoint = ScreenPoint(x: real, y: real)

  /** A camera position with `c == cos(-yaw)` and `s == sin(-yaw)`. */
  datatype Pose = Pose(position: Vec3, c: real, s: real)

  /** A proper rotation: the cosine and sine of one angle. */
  predicate Unit(pose: Pose) {
    pose.c * pose.c + pose.s * pose.s == 1.0
  }

  /** The camera's yaw, 0 when the camera has no rotation or no yaw. */
  function Yaw(cam: Camera): (r: real)
    ensures cam.yaw.None? ==> r == 0.0
    ensures cam.yaw.Some? ==> r == cam.yaw.value
  {
    match cam.yaw
    case Some(a) => a
    case None => 0.0
  }

  /** The pose of a camera, given the cosine and sine functions of the host. */
  function PoseOf(cam: Camera, cos: real -> real, sin: real -> real): (p: Pose)
    ensures p.position == cam.position
    ensures p.c == cos(-Yaw(cam)) && p.s == sin(-Yaw(cam))
  {
    Pose(cam.position, cos(-Yaw(cam)), sin(-Yaw(cam)))
  }

  /** A camera without a yaw looks straight down the world's +z axis. */
  lemma MissingYawIsLevel(cam: Camera, cos: real -> real, sin: real -> real)
    requires cam.yaw.None?
    requires cos(0.0) == 1.0 && sin(0.0) == 0.0
    ensures PoseOf(cam, cos, sin) == Pose(cam.position, 1.0, 0.0)
  {
    assert -Yaw(cam) == 0.0;
  }

  /** A world point in camera-relative coordinates: translated, then turned about y by minus the yaw. */
  function CameraSpace(pos: Vec3, pose: Pose): (q: Vec3)
    ensures q.y == pos.y - pose.position.y
    ensures Unit(pose) ==>
      q.x * q.x + q.z * q.z
        == (pos.x - pose.position.x) * (pos.x - pose.position.x) + (pos.z - pose.position.z) * (pos.z - pose.position.z)
  {
    var dx := pos.x - pose.position.x;
    var dy := pos.y - pose.position.y;
    var dz := pos.z - pose.position.z;
    Vec3(dx * pose.c - dz * pose.s, dy, dx * pose.s + dz * pose.c)
  }

  /**
   * The perspective divide of a camera-space point in front of the camera:
   * scale by focal length over depth, centre in the viewport, flip y.
   */
  function Perspective(q: Vec3, width: real, height: real): (r: ScreenPoint)
    requires q.z > NEAR
    ensures (r.x - width / 2.0) * q.z == FOCAL * q.x
    ensures (height / 2.0 - r.y) * q.z == FOCAL * q.y
  {
    var scale := FOCAL / q.z;
    ScreenPoint(q.x * scale + width / 2.0, -q.y * scale + height / 2.0)
  }

  /**
   * The screen position of a world point, or None when its camera-relative
   * depth is at or below the near plane (behind or too close to the camera).
   */
  function WorldToScreen(pos: Vec3, pose: Pose, width: real, height: real): (r: Option<ScreenPoint>)
    ensures r.None? <==> CameraSpace(pos, pose).z <= NEAR
  {
    var q := CameraSpace(pos, pose);
    if q.z <= NEAR then None else Some(Perspective(q, width, height))
  }

  /**
   * The world point that lies at camera-space depth `depth` behind screen
   * position `sp`: the inverse of WorldToScreen along one line of sight.
   */
  function Unproject(sp: ScreenPoint, depth: real, pose: Pose, width: real, height: real): Vec3
    requires depth > NEAR
  {
    var a := (sp.x - width / 2.0) * depth / FOCAL;
    var b := -(sp.y - height / 2.0) * depth / FOCAL;
    var p := pose.position;
    Vec3(p.x + pose.c * a + pose.s * depth, p.y + b, p.z - pose.s * a + pose.c * depth)
  }

  /** Turning back by the yaw after turning by minus the yaw restores the camera-relative offset. */
  lemma RotateBack(dx: real, dz: real, c: real, s: real)
    requires c * c + s * s == 1.0
    ensures c * (dx * c - dz * s) + s * (dx * s + dz * c) == dx
    ensures -s * (dx * c - dz * s) + c * (dx * s + dz * c) == dz
  {
    assert c * (dx * c - dz * s) + s * (dx * s + dz * c) == dx * (c * c + s * s);
    assert -s * (dx * c - dz * s) + c * (dx * s + dz * c) == dz * (c * c + s * s);
  }

  /** Dividing by a depth and multiplying back cancels. */
  lemma ScaleCancels(u: real, d: real)
    requires d > 0.0
    ensures (u * (FOCAL / d)) * d / FOCAL == u
    ensures (u * d / FOCAL) * (FOCAL / d) == u
  {
    assert u * (FOCAL / d) * d == u * FOCAL;
    assert (u * d / FOCAL) * FOCAL == u * d;
  }

  /** Round trip: a visible point, unprojected at its own depth, is the point itself. */
  lemma {:induction false} UnprojectInvertsProjection(pos: Vec3, pose: Pose, width: real, height: real)
    requires Unit(pose)
    requires WorldToScreen(pos, pose, width, height).Some?
    ensures Unproject(WorldToScreen(pos, pose, width, height).value, CameraSpace(pos, pose).z, pose, width, height) == pos
  {
    var q := CameraSpace(pos, pose);
    var sp := WorldToScreen(pos, pose, width, height).value;
    ScaleCancels(q.x, q.z);
    ScaleCancels(-q.y, q.z);
    assert (sp.x - width / 2.0) * q.z / FOCAL == q.x;
    assert -(sp.y - height / 2.0) * q.z / FOCAL == q.y;
    RotateBack(pos.x - pose.position.x, pos.z - pose.position.z, pose.c, pose.s);
  }

  /** Round trip the other way: any screen point, unprojected at a visible depth, projects back onto itself. */
  lemma {:induction false} ProjectionInvertsUnproject(sp: ScreenPoint, depth: real, pose: Pose, width: real, height: real)
    requires Unit(pose)
    requires depth > NEAR
    ensures CameraSpace(Unproject(sp, depth, pose, width, height), pose).z == depth
    ensures WorldToScreen(Unproject(sp, depth, pose, width, height), pose, width, height) == Some(sp)
  {
    var a := (sp.x - width / 2.0) * depth / FOCAL;
    var b := -(sp.y - height / 2.0) * depth / FOCAL;
    var c, s := pose.c, pose.s;
    var dx, dz := c * a + s * depth, -s * a + c * depth;
    assert dx * c - dz * s == a * (c * c + s * s);
    assert dx * s + dz * c == depth * (c * c + s * s);
    var q := CameraSpace(Unproject(sp, depth, pose, width, height), pose);
    assert q == Vec3(a, b, depth);
    ScaleCancels(sp.x - width / 2.0, depth);
    ScaleCancels(-(sp.y - height / 2.0), depth);
    assert a * (FOCAL / depth) + width / 2.0 == sp.x;
    assert -b * (FOCAL / depth) + height / 2.0 == sp.y;
    assert Perspective(Vec3(a, b, depth), width, height) == sp;
  }

  /**
   * Whatever the yaw, a point straight ahead of the camera (along its line of
   * sight, at the camera's height, beyond the near plane) lands on the centre
   * of the viewport.
   */
  lemma ForwardRayToCentre(pose: Pose, dist: real, width: real, height: real)
    requires Unit(pose)
    requires dist > NEAR
    ensures var p := pose.position;
      WorldToScreen(Vec3(p.x + pose.s * dist, p.y, p.z + pose.c * dist), pose, width, height)
        == Some(ScreenPoint(width / 2.0, height / 2.0))
  {
    var p := pose.position;
    var ahead := Vec3(p.x + pose.s * dist, p.y, p.z + pose.c * dist);
    assert (pose.s * dist) * pose.c - (pose.c * dist) * pose.s == 0.0;
    assert (pose.s * dist) * pose.s + (pose.c * dist) * pose.c == dist * (pose.c * pose.c + pose.s * pose.s);
    assert CameraSpace(ahead, pose) == Vec3(0.0, 0.0, dist);
    assert Perspective(Vec3(0.0, 0.0, dist), width, height) == ScreenPoint(width / 2.0, height / 2.0);
  }

  /** Camera anywhere with no yaw, 800x600 viewport: a point 5 units straight ahead lands at (400, 300). */
  lemma CentreScenario(p: Vec3)
    ensures WorldToScreen(Vec3(p.x, p.y, p.z + 5.0), Pose(p, 1.0, 0.0), 800.0, 600.0)
      == Some(ScreenPoint(400.0, 300.0))
  {
    ForwardRayToCentre(Pose(p, 1.0, 0.0), 5.0, 800.0, 600.0);
    assert Vec3(p.x + 0.0 * 5.0, p.y, p.z + 1.0 * 5.0) == Vec3(p.x, p.y, p.z + 5.0);
  }

  /**
   * Camera anywhere with no yaw, 800x600 viewport: a point 1 unit right,
   * 1 unit up and 5 units ahead lands 600 / 5 = 120 pixels right of and
   * above the centre, at (520, 180).
   */
  lemma OffCentreScenario(p: Vec3)
    ensures WorldToScreen(Vec3(p.x + 1.0, p.y + 1.0, p.z + 5.0), Pose(p, 1.0, 0.0), 800.0, 600.0)
      == Some(ScreenPoint(520.0, 180.0))
  {
    var pos := Vec3(p.x + 1.0, p.y + 1.0, p.z + 5.0);
    assert CameraSpace(pos, Pose(p, 1.0, 0.0)) == Vec3(1.0, 1.0, 5.0);
    assert Perspective(Vec3(1.0, 1.0, 5.0), 800.0, 600.0) == ScreenPoint(520.0, 180.0);
  }

  /**
   * No pitch: a point's height does not decide whether it is drawn and does
   * not move it sideways on screen; it only moves it vertically.
   */
  lemma HeightOnlyMovesScreenY(pos: Vec3, h: real, pose: Pose, width: real, height: real)
    ensures var r1 := WorldToScreen(pos, pose, width, height);
      var r2 := WorldToScreen(Vec3(pos.x, h, pos.z), pose, width, height);
      r1.Some? == r2.Some? && (r1.Some? ==> r1.value.x == r2.value.x)
  {
  }

  /**
   * Screen orientation: a visible point right of the line of sight is drawn
   * right of centre, and a point above the camera is drawn above centre
   * (smaller y), because the screen's y axis points down.
   */
  lemma ScreenSides(pos: Vec3, pose: Pose, width: real, height: real)
    requires WorldToScreen(pos, pose, width, height).Some?
    ensures var r := WorldToScreen(pos, pose, width, height).value;
      var q := CameraSpace(pos, pose);
      (r.x > width / 2.0 <==> q.x > 0.0) && (r.y < height / 2.0 <==> q.y > 0.0)
  {
    var q := CameraSpace(pos, pose);
    assert FOCAL / q.z > 0.0;
  }

  /** Scaling a camera-space offset and its depth by the same positive factor leaves its pixel offset alone. */
  lemma ScaleInvariant(u: real, d: real, k: real)
    requires d > 0.0 && k > 0.0
    ensures (k * u) * (FOCAL / (k * d)) == u * (FOCAL / d)
  {
    assert (k * u) * (FOCAL / (k * d)) == (k * u * FOCAL) / (k * d);
    assert (k * u * FOCAL) / (k * d) == (u * FOCAL) / d;
  }

  /** Scaling a camera-space point by a positive factor does not move its pixel. */
  lemma PerspectiveAlongRay(q: Vec3, k: real, width: real, height: real)
    requires k > 0.0 && q.z > NEAR && k * q.z > NEAR
    ensures Perspective(Vec3(k * q.x, k * q.y, k * q.z), width, height) == Perspective(q, width, height)
  {
    ScaleInvariant(q.x, q.z, k);
    ScaleInvariant(-q.y, q.z, k);
    assert -(k * q.y) == k * -q.y;
  }

  /** The point `k` times as far from the camera along the same ray. */
  function AlongRay(pos: Vec3, k: real, pose: Pose): Vec3 {
    var p := pose.position;
    Vec3(p.x + k * (pos.x - p.x), p.y + k * (pos.y - p.y), p.z + k * (pos.z - p.z))
  }

  /** Camera space is linear in the offset from the camera. */
  lemma CameraSpaceAlongRay(pos: Vec3, k: real, pose: Pose)
    ensures CameraSpace(AlongRay(pos, k, pose), pose)
      == Vec3(k * CameraSpace(pos, pose).x, k * CameraSpace(pos, pose).y, k * CameraSpace(pos, pose).z)
  {
    var q := CameraSpace(pos, pose);
    var dx, dz := pos.x - pose.position.x, pos.z - pose.position.z;
    assert (k * dx) * pose.c - (k * dz) * pose.s == k * q.x;
    assert (k * dx) * pose.s + (k * dz) * pose.c == k * q.z;
  }

  /**
   * Perspective: two visible points on one ray from the camera land on the
   * same pixel, however far along the ray they are.
   */
  lemma SameRaySamePixel(pos: Vec3, k: real, pose: Pose, width: real, height: real)
    requires k > 0.0
    requires WorldToScreen(pos, pose, width, height).Some?
    requires k * CameraSpace(pos, pose).z > NEAR
    ensures WorldToScreen(AlongRay(pos, k, pose), pose, width, height) == WorldToScreen(pos, pose, width, height)
  {
    var q := CameraSpace(pos, pose);
    var far := AlongRay(pos, k, pose);
    CameraSpaceAlongRay(pos, k, pose);
    PerspectiveAlongRay(q, k, width, height);
    assert CameraSpace(far, pose) == Vec3(k * q.x, k * q.y, k * q.z);
    assert WorldToScreen(far, pose, width, height) == Some(Perspective(Vec3(k * q.x, k * q.y, k * q.z), width, height));
  }
}
