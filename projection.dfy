/** Where a detection corner lands in the world: the quad-local corner encoding of
    `CreateNewLabel`/`CreateNewBox` and the pose-based unprojection of `GetFinalPosition`
    (Scripts/SceneOrganizer.cs). The environment mesh is not modelled: `Physics.Raycast` is
    an oracle. */
module Projection {
  import opened Common
  import opened Linear
  import opened Records

  /** `Physics.Raycast(origin, direction, maxDistance)` against the spatial-mapping layer:
      the hit point, if any. */
  type Raycast = (Vec3, Vec3, real) -> Option<Vec3>

  /** The quad's transform at the time of placement: quad-local position to world position. */
  type QuadPose = Vec3 -> Vec3

  const RaycastRange: real := 30.0

  // ---------------------------------------------------------------------------------------
  // Corners

  /** `left_top`: the label corner in normalised image coordinates (x = left, y = top). */
  function LabelCorner(b: BoundingBox): Vec2 { Vec2(b.left, b.top) }

  /** `right_bottom`: the box corner in normalised image coordinates. */
  function BoxCorner(b: BoundingBox): Vec2 { Vec2(b.right, b.bottom) }

  /** An image point as a position on the capture quad: centred, with y pointing up. */
  function ImageToQuad(c: Vec2): (v: Vec3)
    ensures v.z == 0.0
    ensures 0.0 <= c.x <= 1.0 ==> -0.5 <= v.x <= 0.5
    ensures 0.0 <= c.y <= 1.0 ==> -0.5 <= v.y <= 0.5
  {
    Vec3(c.x - 0.5, 0.5 - c.y, 0.0)
  }

  /** The inverse of `ImageToQuad` on the quad plane. */
  function QuadToImage(v: Vec3): Vec2 { Vec2(v.x + 0.5, 0.5 - v.y) }

  /** `label.transform.localPosition` as `CreateNewLabel` sets it: `(b[1] - 0.5, 0.5 - b[0], 0)`. */
  function LabelLocalPosition(b: BoundingBox): (v: Vec3)
    ensures QuadToImage(v) == LabelCorner(b) && v.z == 0.0
  {
    Vec3(b.left - 0.5, 0.5 - b.top, 0.0)
  }

  /** `box.transform.localPosition` as `CreateNewBox` sets it: `(b[3] - 0.5, 0.5 - b[2], 0)`. */
  function BoxLocalPosition(b: BoundingBox): (v: Vec3)
    ensures QuadToImage(v) == BoxCorner(b) && v.z == 0.0
  {
    Vec3(b.right - 0.5, 0.5 - b.bottom, 0.0)
  }

  /** Both local positions are the quad image of the corner they stand for, and the quad
      encoding loses nothing. */
  lemma LocalPositionsEncodeCorners(b: BoundingBox, v: Vec3)
    requires v.z == 0.0
    ensures LabelLocalPosition(b) == ImageToQuad(LabelCorner(b))
    ensures BoxLocalPosition(b) == ImageToQuad(BoxCorner(b))
    ensures ImageToQuad(QuadToImage(v)) == v
  {
  }

  /** For a proper box (left <= right and top <= bottom in image coordinates) the label sits
      at the upper-left of the box on the quad. */
  lemma LabelUpperLeftOfBox(b: BoundingBox)
    requires b.left <= b.right && b.top <= b.bottom
    ensures LabelLocalPosition(b).x <= BoxLocalPosition(b).x
    ensures LabelLocalPosition(b).y >= BoxLocalPosition(b).y
  {
  }

  // ---------------------------------------------------------------------------------------
  // Unprojection

  /** `projPos`: a normalised image point in [-1, 1] image space, at depth 1. */
  function ProjectedPosition(p: Vec2): (q: Vec3)
    ensures q.z == 1.0
    ensures 0.0 <= p.x <= 1.0 && 0.0 <= p.y <= 1.0 ==> -1.0 <= q.x <= 1.0 && -1.0 <= q.y <= 1.0
  {
    Vec3(p.x * 2.0 - 1.0, 1.0 - p.y * 2.0, 1.0)
  }

  /** The projection terms the unprojection divides by are non-zero. */
  predicate UsableProjection(proj: Matrix4x4) {
    proj.m00 != 0.0 && proj.m11 != 0.0 && proj.m22 != 0.0
  }

  /** A camera-space direction with homogeneous 0, given its depth `w`: the solution of the
      first two rows of the projection for the image point. */
  function DirectionAtDepth(p: Vec2, proj: Matrix4x4, w: real): (d: Vec4)
    requires proj.m00 != 0.0 && proj.m11 != 0.0
    ensures d.z == w && d.w == 0.0
    ensures proj.m00 * d.x + proj.m02 * d.z == ProjectedPosition(p).x
    ensures proj.m11 * d.y + proj.m12 * d.z == ProjectedPosition(p).y
  {
    var q := ProjectedPosition(p);
    Vec4((q.x - w * proj.m02) / proj.m00, (q.y - w * proj.m12) / proj.m11, w, 0.0)
  }

  /** The unprojection AS WRITTEN: `wn = projPos.z / cameraToWorld.m22`, the depth taken from
      the pose rather than from the projection. */
  function UnprojectAsWritten(p: Vec2, cameraToWorld: Matrix4x4, proj: Matrix4x4): (d: Vec4)
    requires cameraToWorld.m22 != 0.0 && proj.m00 != 0.0 && proj.m11 != 0.0
    ensures cameraToWorld.m22 * d.z == 1.0 && d.w == 0.0
  {
    DirectionAtDepth(p, proj, ProjectedPosition(p).z / cameraToWorld.m22)
  }

  /** The unprojection as intended: the camera-space direction that the projection maps
      back onto the image point, `wn = projPos.z / projection.m22`. */
  function Unproject(p: Vec2, proj: Matrix4x4): (d: Vec4)
    requires UsableProjection(proj)
    ensures proj.m22 * d.z == 1.0 && d.w == 0.0
  {
    DirectionAtDepth(p, proj, ProjectedPosition(p).z / proj.m22)
  }

  /** A ray from the camera position through a camera-space direction, both moved to world
      space by the pose. */
  datatype Ray = Ray(origin: Vec3, direction: Vec3)

  function CameraRay(cameraToWorld: Matrix4x4, d: Vec4): (r: Ray)
    requires d.w == 0.0
    ensures r.origin == Vec3(cameraToWorld.m03, cameraToWorld.m13, cameraToWorld.m23)
  {
    Ray(Apply(cameraToWorld, Vec4(0.0, 0.0, 0.0, 1.0)).XYZ(), Apply(cameraToWorld, d).XYZ())
  }

  /** The outcome of `GetFinalPosition`: its boolean result and its `out` position. */
  datatype Placement = Placement(hit: bool, position: Vec3)

  function Cast(cast: Raycast, ray: Ray): (r: Placement)
    ensures r.hit <==> cast(ray.origin, ray.direction, RaycastRange).Some?
    ensures r.hit ==> r.position == cast(ray.origin, ray.direction, RaycastRange).value
    ensures !r.hit ==> r.position == Zero3
  {
    match cast(ray.origin, ray.direction, RaycastRange)
    case Some(point) => Placement(true, point)
    case None => Placement(false, Zero3)
  }

  /** `GetFinalPosition(pxlPos, cameraToWorld, projection, out finalPosition)` as written. */
  function GetFinalPositionAsWritten(p: Vec2, cameraToWorld: Matrix4x4, proj: Matrix4x4,
                                     cast: Raycast): (r: Placement)
    requires cameraToWorld.m22 != 0.0 && proj.m00 != 0.0 && proj.m11 != 0.0
    ensures var ray := CameraRay(cameraToWorld, UnprojectAsWritten(p, cameraToWorld, proj));
            (r.hit <==> cast(ray.origin, ray.direction, RaycastRange).Some?) &&
            (!r.hit ==> r.position == Zero3)
  {
    Cast(cast, CameraRay(cameraToWorld, UnprojectAsWritten(p, cameraToWorld, proj)))
  }

  /** `GetFinalPosition` with the intended depth: cast from the camera position along the
      pose-rotated unprojected direction, at most 30 units; a miss gives false and the
      origin. */
  function GetFinalPosition(p: Vec2, cameraToWorld: Matrix4x4, proj: Matrix4x4,
                            cast: Raycast): (r: Placement)
    requires UsableProjection(proj)
    ensures var ray := CameraRay(cameraToWorld, Unproject(p, proj));
            && ray.origin == Vec3(cameraToWorld.m03, cameraToWorld.m13, cameraToWorld.m23)
            && (r.hit <==> cast(ray.origin, ray.direction, RaycastRange).Some?)
            && (r.hit ==> r.position == cast(ray.origin, ray.direction, RaycastRange).value)
            && (!r.hit ==> r.position == Zero3)
  {
    Cast(cast, CameraRay(cameraToWorld, Unproject(p, proj)))
  }

  /** The two depths give the same direction exactly when the pose's `m22` equals the
      projection's: only for such poses does the unprojection as written find the intended
      point. */
  lemma UnprojectionsAgree(p: Vec2, cameraToWorld: Matrix4x4, proj: Matrix4x4)
    requires UsableProjection(proj) && cameraToWorld.m22 != 0.0
    ensures UnprojectAsWritten(p, cameraToWorld, proj) == Unproject(p, proj) <==>
            cameraToWorld.m22 == proj.m22
  {
    var a, b := UnprojectAsWritten(p, cameraToWorld, proj), Unproject(p, proj);
    if a == b {
      assert cameraToWorld.m22 * a.z == proj.m22 * a.z;
      assert a.z != 0.0;
    }
  }

  /** The projection has the pinhole shape: no skew and no cross terms into depth. */
  predicate PinholeProjection(proj: Matrix4x4) {
    UsableProjection(proj) && proj.m01 == 0.0 && proj.m10 == 0.0 && proj.m20 == 0.0 && proj.m21 == 0.0
  }

  /** Round trip: projecting the unprojected direction gives back the projected image point. */
  lemma UnprojectRoundTrip(p: Vec2, proj: Matrix4x4)
    requires PinholeProjection(proj)
    ensures Apply(proj, Unproject(p, proj)).XYZ() == ProjectedPosition(p)
  {
    var d := Unproject(p, proj);
    var q := Apply(proj, d);
    assert q.x == proj.m00 * d.x + proj.m02 * d.z;
    assert q.y == proj.m11 * d.y + proj.m12 * d.z;
    assert q.z == proj.m22 * d.z;
  }

  /** The ray direction ignores the pose's translation (homogeneous 0); only the origin
      moves with it. */
  lemma DirectionIgnoresTranslation(p: Vec2, c: Matrix4x4, c': Matrix4x4, proj: Matrix4x4)
    requires UsableProjection(proj)
    requires c'.(m03 := c.m03, m13 := c.m13, m23 := c.m23) == c
    ensures CameraRay(c, Unproject(p, proj)).direction == CameraRay(c', Unproject(p, proj)).direction
  {
    var d := Unproject(p, proj);
    TranslationDropsOut(c, c', d);
  }

  /** A direction (homogeneous 0) is moved by the rotation part of a matrix only. */
  lemma TranslationDropsOut(c: Matrix4x4, c': Matrix4x4, d: Vec4)
    requires d.w == 0.0
    requires c'.(m03 := c.m03, m13 := c.m13, m23 := c.m23) == c
    ensures Apply(c, d).XYZ() == Apply(c', d).XYZ()
  {
    assert c.m00 == c'.m00 && c.m01 == c'.m01 && c.m02 == c'.m02;
    assert c.m10 == c'.m10 && c.m11 == c'.m11 && c.m12 == c'.m12;
    assert c.m20 == c'.m20 && c.m21 == c'.m21 && c.m22 == c'.m22;
  }

  /** A box centred in the image, with a centred projection and an identity pose, is cast
      straight along the forward axis from the world origin. */
  lemma CentreCastsForward(proj: Matrix4x4)
    requires UsableProjection(proj) && proj.m02 == 0.0 && proj.m12 == 0.0
    ensures CameraRay(Identity, Unproject(Vec2(0.5, 0.5), proj))
            == Ray(Zero3, Vec3(0.0, 0.0, 1.0 / proj.m22))
  {
    var w := 1.0 / proj.m22;
    assert ProjectedPosition(Vec2(0.5, 0.5)) == Vec3(0.0, 0.0, 1.0);
    assert Unproject(Vec2(0.5, 0.5), proj) == DirectionAtDepth(Vec2(0.5, 0.5), proj, w);
    assert (0.0 - w * proj.m02) / proj.m00 == 0.0 / proj.m00 == 0.0;
    assert (0.0 - w * proj.m12) / proj.m11 == 0.0 / proj.m11 == 0.0;
    assert DirectionAtDepth(Vec2(0.5, 0.5), proj, w) == Vec4(0.0, 0.0, w, 0.0);
    assert Apply(Identity, Vec4(0.0, 0.0, w, 0.0)).XYZ() == Vec3(0.0, 0.0, w);
  }

  /** The as-written depth ignores the projection: for a camera turned about the vertical
      axis (cos = 3/5, sin = 4/5) and an identity projection, the point at (0.75, 0.5) is
      unprojected to a direction that the projection does not map back onto its image
      point, while the intended unprojection does. */
  lemma AsWrittenDepthMisses()
    ensures var pose := Identity.(m00 := 0.6, m02 := 0.8, m20 := -0.8, m22 := 0.6);
            var p := Vec2(0.75, 0.5);
            && Apply(Identity, UnprojectAsWritten(p, pose, Identity)).XYZ() != ProjectedPosition(p)
            && Apply(Identity, Unproject(p, Identity)).XYZ() == ProjectedPosition(p)
  {
    var pose := Identity.(m00 := 0.6, m02 := 0.8, m20 := -0.8, m22 := 0.6);
    var p := Vec2(0.75, 0.5);
    assert ProjectedPosition(p) == Vec3(0.5, 0.0, 1.0);
    var d := UnprojectAsWritten(p, pose, Identity);
    assert d == DirectionAtDepth(p, Identity, 1.0 / 0.6);
    assert Apply(Identity, d).z == d.z == 1.0 / 0.6;
    UnprojectRoundTrip(p, Identity);
  }

  // ---------------------------------------------------------------------------------------
  // The fallback without pose: `GetFinalPosition(objDirection, headPosition, out ...)`

  /** The ray as written: from the head, with the object's world position as the direction. */
  function FallbackRayAsWritten(target: Vec3, head: Vec3): Ray { Ray(head, target) }

  /** The ray the method's own documentation describes: from the head towards the object. */
  function FallbackRay(target: Vec3, head: Vec3): (r: Ray)
    ensures r.origin == head && r.origin.Plus(r.direction) == target
  {
    Ray(head, target.Minus(head))
  }

  /** Fallback placement: the hit of the ray from the head towards the object's position. */
  function GetFallbackPosition(target: Vec3, head: Vec3, cast: Raycast): (r: Placement)
    ensures var ray := FallbackRay(target, head);
            && (r.hit <==> cast(ray.origin, ray.direction, RaycastRange).Some?)
            && (r.hit ==> r.position == cast(ray.origin, ray.direction, RaycastRange).value)
            && (!r.hit ==> r.position == Zero3)
  {
    Cast(cast, FallbackRay(target, head))
  }

  /** Fallback placement as written: the cast along `FallbackRayAsWritten`. */
  function GetFallbackPositionAsWritten(target: Vec3, head: Vec3, cast: Raycast): (r: Placement)
    ensures && (r.hit <==> cast(head, target, RaycastRange).Some?)
            && (r.hit ==> r.position == cast(head, target, RaycastRange).value)
            && (!r.hit ==> r.position == Zero3)
  {
    Cast(cast, FallbackRayAsWritten(target, head))
  }

  /** The two fallback rays coincide exactly when the head is at the world origin. */
  lemma FallbackRaysAgree(target: Vec3, head: Vec3)
    ensures FallbackRayAsWritten(target, head) == FallbackRay(target, head) <==> head == Zero3
  {
    if FallbackRayAsWritten(target, head) == FallbackRay(target, head) {
      assert target == target.Minus(head);
    }
  }

  /** Whether the point lies on the ray (at a non-negative distance). */
  ghost predicate OnRay(ray: Ray, point: Vec3) {
    exists t: real {:trigger ray.direction.Scale(t)} :: t >= 0.0 && ray.origin.Plus(ray.direction.Scale(t)) == point
  }

  /** The corrected ray passes through the object. */
  lemma FallbackRayThroughTarget(target: Vec3, head: Vec3)
    ensures OnRay(FallbackRay(target, head), target)
  {
    var r := FallbackRay(target, head);
    assert r.direction.Scale(1.0) == r.direction;
    assert r.origin.Plus(r.direction.Scale(1.0)) == target;
  }

  /** As written, the ray misses the object once the head has left the world origin: with the
      head at (1, 0, 0) and the object at (0, 1, 0) the ray runs along x = 1. */
  lemma AsWrittenFallbackMisses()
    ensures !OnRay(FallbackRayAsWritten(Vec3(0.0, 1.0, 0.0), Vec3(1.0, 0.0, 0.0)), Vec3(0.0, 1.0, 0.0))
  {
    var r := FallbackRayAsWritten(Vec3(0.0, 1.0, 0.0), Vec3(1.0, 0.0, 0.0));
    forall t: real | t >= 0.0
      ensures r.origin.Plus(r.direction.Scale(t)) != Vec3(0.0, 1.0, 0.0)
    {
      assert r.origin.Plus(r.direction.Scale(t)).x == 1.0;
    }
  }
}
