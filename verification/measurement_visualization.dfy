/** The measurement overlay: the ruler drawn beside a distance measurement
    (an arrow between two stoplines, placed on a side of the foot chosen
    per measurement type), the dashed rectangle around a girth's cross
    section, the info points a measurement's notes are anchored at, and the
    fit-zone highlight a measurement switches on in the foot material.

    `Math.sqrt` comes in a `Maths.Functions` record and `Ray.intersectBox`
    is the parameter `intersect`; THREE's plane operations are written out
    (`ProjectPoint`, `PlaneThrough`). */
module MeasurementVisualization {
  import Maths
  import opened Numbers
  import opened Wrappers
  import opened Vectors
  import opened Feet
  import opened JsValues
  import opened ThreeTools
  import opened FootMaterials
  import opened MeasurementDescriptions
  import FitZonesVisualization

  // ---------------------------------------------------------------------
  // Planes and boxes

  /** The plane `normal · p + constant == 0`, as `THREE.Plane` holds it. */
  datatype Plane = Plane(normal: Vec3, constant: real)

  /** The floor, z = 0. */
  const Floor := Plane(Vec3(0.0, 0.0, 1.0), 0.0)

  /** `plane.setComponents(v[0], v[1], v[2], v[3])`. */
  function PlaneOf(v: Vec4): Plane {
    Plane(Vec3(v.x, v.y, v.z), v.w)
  }

  /** `plane.distanceToPoint(p)`, in units of the normal's length. */
  function DistanceToPoint(plane: Plane, p: Vec3): real {
    Dot(plane.normal, p) + plane.constant
  }

  /** `plane.projectPoint(p)`: the point moved back along the normal by its
      distance. */
  function ProjectPoint(plane: Plane, p: Vec3): Vec3 {
    Sub(p, Scale(plane.normal, DistanceToPoint(plane, p)))
  }

  /** `new THREE.Plane().setFromNormalAndCoplanarPoint(normal, point)`. */
  function PlaneThrough(normal: Vec3, point: Vec3): (r: Plane)
    ensures r.normal == normal && DistanceToPoint(r, point) == 0.0
  {
    Plane(normal, -Dot(normal, point))
  }

  /** With a unit normal, a projected point lies on the plane. */
  lemma ProjectionIsOnPlane(plane: Plane, p: Vec3)
    requires LengthSquared(plane.normal) == 1.0
    ensures DistanceToPoint(plane, ProjectPoint(plane, p)) == 0.0
  {
    var n, d := plane.normal, DistanceToPoint(plane, p);
    assert Dot(n, Sub(p, Scale(n, d))) == Dot(n, p) - d * LengthSquared(n) by {
      assert n.x * (p.x - n.x * d) == n.x * p.x - d * (n.x * n.x);
      assert n.y * (p.y - n.y * d) == n.y * p.y - d * (n.y * n.y);
      assert n.z * (p.z - n.z * d) == n.z * p.z - d * (n.z * n.z);
    }
  }

  /** Projecting onto the plane across a unit axis through a point brings
      any point level with it along the axis. */
  lemma LevelAlongAxis(axis: Vec3, point: Vec3, q: Vec3)
    ensures LengthSquared(axis) == 1.0 ==> Dot(axis, ProjectPoint(PlaneThrough(axis, point), q)) == Dot(axis, point)
  {
    if LengthSquared(axis) == 1.0 {
      ProjectionIsOnPlane(PlaneThrough(axis, point), q);
    }
  }

  /** Moving along a direction parallel to the plane keeps the distance to
      it. */
  lemma SlideKeepsDistance(plane: Plane, p: Vec3, direction: Vec3, s: real)
    requires Dot(plane.normal, direction) == 0.0
    ensures DistanceToPoint(plane, AddScaled(p, direction, s)) == DistanceToPoint(plane, p)
  {
    var n := plane.normal;
    assert Dot(n, AddScaled(p, direction, s)) == Dot(n, p) + s * Dot(n, direction) by {
      assert n.x * (p.x + direction.x * s) == n.x * p.x + s * (n.x * direction.x);
      assert n.y * (p.y + direction.y * s) == n.y * p.y + s * (n.y * direction.y);
      assert n.z * (p.z + direction.z * s) == n.z * p.z + s * (n.z * direction.z);
    }
  }

  /** `THREE.Box3`. */
  datatype Box = Box(min: Vec3, max: Vec3)

  function Size(b: Box): Vec3 {
    Sub(b.max, b.min)
  }

  // ---------------------------------------------------------------------
  // Ruler placement

  /** The measurement types drawn as a ruler, and those drawn as a plane. */
  const DistanceTypes: set<string> := {"length", "width", "arch_height", "half_width", "heel_width", "height"}
  const GirthTypes: set<string> := {"ankle_wrap", "ball_girth", "instep_girth", "short_heel_girth", "waist_girth"}

  /** The types whose ruler sits on the same side of both feet. */
  const FixedSideTypes: set<string> := {"width", "half_width", "heel_width"}

  const OuterPadding: real := 0.02

  /** Everything `createAxisRulerObject3D` is given: the measured axis and
      end points, the plane the ruler lies in, the foot's bounds, the side
      (-1 or 1) and the paddings. */
  datatype RulerSetup = RulerSetup(
    axis: Vec3, from: Vec3, to: Vec3,
    plane: Plane, bounds: Box,
    sideFlip: real, rulerPadding: real, innerPadding: real)

  /** The side a ruler goes on unless the type decides: outside each foot. */
  function DefaultSideFlip(side: Side): real {
    if side == Left then -1.0 else 1.0
  }

  /** The description's plane, or the floor when it has none. */
  function DescriptionPlane(d: Description): Plane {
    if d.plane.Some? then PlaneOf(d.plane.value) else Floor
  }

  /** `createAxisRuler`'s placement policy.  It fails when the axis or an
      end point is not three numbers, and for 'half_width' bounds of no
      depth, where the source divides by zero. */
  function RulerSetupOf(side: Side, t: string, d: Description, bounds: Box): (r: Option<RulerSetup>)
    ensures r.Some? <==>
      && ParseVector3(d.axis).Some? && ParseVector3(d.from).Some? && ParseVector3(d.to).Some?
      && !(t == "half_width" && Size(bounds).y == 0.0)
    ensures r.Some? ==> r.value.axis == ParseVector3(d.axis).value && r.value.to == ParseVector3(d.to).value
    ensures r.Some? ==> (r.value.sideFlip == -1.0 || r.value.sideFlip == 1.0)
    ensures r.Some? ==> r.value.rulerPadding > 0.0 && r.value.innerPadding >= 0.0
    ensures r.Some? && t !in FixedSideTypes ==> r.value.sideFlip == DefaultSideFlip(side)
    ensures r.Some? && t == "width" ==> r.value.sideFlip == -1.0
    ensures r.Some? && t == "half_width" ==>
      && (r.value.sideFlip == 1.0 <==> r.value.axis.x > 0.0)
      && r.value.rulerPadding == 0.025 && r.value.innerPadding == 0.0
      && r.value.bounds.min == bounds.min
      && r.value.bounds.max == bounds.max.(z := bounds.max.z - Size(bounds).z * Abs(r.value.plane.constant) / Size(bounds).y)
    ensures r.Some? && t != "half_width" ==>
      r.value.rulerPadding == 0.01 && r.value.innerPadding == 0.025 && r.value.bounds == bounds
    ensures r.Some? && t == "heel_width" ==> r.value.sideFlip == 1.0 && r.value.plane == Floor
    ensures r.Some? && t != "heel_width" ==> r.value.plane == DescriptionPlane(d)
    ensures r.Some? && t == "height" ==> r.value.from == Vec3(r.value.to.x, r.value.to.y, 0.0)
    ensures r.Some? && t != "height" ==> r.value.from == ParseVector3(d.from).value
  {
    match (ParseVector3(d.axis), ParseVector3(d.from), ParseVector3(d.to))
    case (Some(axis), Some(from), Some(to)) =>
      var plane := DescriptionPlane(d);
      var setup := RulerSetup(axis, from, to, plane, bounds, DefaultSideFlip(side), 0.01, 0.025);
      if t == "width" then Some(setup.(sideFlip := -1.0))
      else if t == "half_width" then
        var size := Size(bounds);
        if size.y == 0.0 then None
        else
          var lowered := bounds.max.(z := bounds.max.z - size.z * Abs(plane.constant) / size.y);
          Some(setup.(sideFlip := if axis.x > 0.0 then 1.0 else -1.0, bounds := bounds.(max := lowered),
                      rulerPadding := 0.025, innerPadding := 0.0))
      else if t == "heel_width" then Some(setup.(sideFlip := 1.0, plane := Floor))
      else if t == "height" then Some(setup.(from := Vec3(to.x, to.y, 0.0)))
      else Some(setup)
    case _ => None
  }

  /** Width, half width and heel width put the rulers of both feet on the
      same side; every other type puts them on opposite sides. */
  lemma RulerSides(t: string, d: Description, bounds: Box)
    requires RulerSetupOf(Left, t, d, bounds).Some?
    ensures t in FixedSideTypes ==> RulerSetupOf(Left, t, d, bounds) == RulerSetupOf(Right, t, d, bounds)
    ensures t !in FixedSideTypes ==>
      RulerSetupOf(Left, t, d, bounds).value.sideFlip == -RulerSetupOf(Right, t, d, bounds).value.sideFlip
  {
  }

  // ---------------------------------------------------------------------
  // Ruler geometry

  /** The ruler's frame: `tangent` points across the axis toward the
      ruler, `cotangent` along the ruler from the first end to the second,
      and the ends are the point where the ruler meets the bounds, moved
      level with each measured point along the axis. */
  datatype Frame = Frame(tangent: Vec3, cotangent: Vec3, aOnAxis: Vec3, bOnAxis: Vec3)

  /** `getTangentToAxis(axis, plane).multiplyScalar(side_flip)`: a
      direction across the axis that lies in the plane. */
  function Tangent(m: Maths.Functions, axis: Vec3, plane: Plane, sideFlip: real): (r: Vec3)
    ensures Dot(r, axis) == 0.0 && Dot(r, plane.normal) == 0.0
  {
    var c := Cross(axis, plane.normal);
    ScaledKeepsPerpendicular(m, c, axis, sideFlip);
    ScaledKeepsPerpendicular(m, c, plane.normal, sideFlip);
    Scale(Normalize(m, c), sideFlip)
  }

  /** Normalizing and scaling a vector keeps it perpendicular to whatever it
      was perpendicular to. */
  lemma ScaledKeepsPerpendicular(m: Maths.Functions, v: Vec3, a: Vec3, k: real)
    requires Dot(v, a) == 0.0
    ensures Dot(Scale(Normalize(m, v), k), a) == 0.0
  {
    var n := Normalize(m, v);
    assert Dot(n, a) == 0.0 by {
      if Length(m, v) != 0.0 {
        ScaledDot(v, a, 1.0 / Length(m, v));
      }
    }
    ScaledDot(n, a, k);
  }

  /** Scaling a vector scales its dot products. */
  lemma ScaledDot(a: Vec3, b: Vec3, k: real)
    ensures Dot(Scale(a, k), b) == k * Dot(a, b)
  {
  }

  /** The frame of `createAxisRulerObject3D`.  The ray from one tangent
      beyond the midpoint back toward it must meet the bounds; the source
      fails on the miss. */
  function RulerFrame(m: Maths.Functions, s: RulerSetup, intersect: (Vec3, Vec3, Box) -> Option<Vec3>)
    : (r: Option<Frame>)
    ensures LengthSquared(s.axis) == 1.0 && r.Some? ==>
      Dot(s.axis, r.value.aOnAxis) == Dot(s.axis, s.from) && Dot(s.axis, r.value.bOnAxis) == Dot(s.axis, s.to)
  {
    var tangent := Tangent(m, s.axis, s.plane, s.sideFlip);
    var mid := Scale(Add(s.from, s.to), 0.5);
    match intersect(Add(mid, tangent), Scale(tangent, -1.0), s.bounds)
    case None => None
    case Some(onBounds) =>
      var planeA, planeB := PlaneThrough(s.axis, s.from), PlaneThrough(s.axis, s.to);
      var a, b := ProjectPoint(planeA, onBounds), ProjectPoint(planeB, onBounds);
      LevelAlongAxis(s.axis, s.from, onBounds);
      LevelAlongAxis(s.axis, s.to, onBounds);
      Some(Frame(tangent, Normalize(m, Sub(b, a)), a, b))
  }

  const ShortArrowLength: real := 0.015
  const ArrowheadDx: real := 0.0025

  /** How far back the barbs reach along the ruler; short arrows get their
      heads turned outward. */
  function ArrowheadDy(short: bool): (r: real)
    ensures r < 0.0 <==> short
    ensures r == 0.005 || r == -0.005
  {
    if short then -0.005 else 0.005
  }

  /** The arrow's line segments: the shaft, two barbs at each end, and for
      a short arrow a tail behind each head. */
  function ArrowVertices(a: Vec3, b: Vec3, tangent: Vec3, cotangent: Vec3, short: bool): (r: seq<Vec3>)
    ensures |r| == if short then 14 else 10
    ensures r[0] == a && r[1] == b
    ensures r[2] == a && r[4] == a && r[6] == b && r[8] == b
    ensures Scale(Add(r[3], r[5]), 0.5) == AddScaled(a, cotangent, ArrowheadDy(short))
    ensures Scale(Add(r[7], r[9]), 0.5) == AddScaled(b, cotangent, -ArrowheadDy(short))
    ensures Sub(r[5], r[3]) == Scale(tangent, 2.0 * ArrowheadDx) && Sub(r[9], r[7]) == Scale(tangent, 2.0 * ArrowheadDx)
    ensures short ==>
      && r[10] == a && r[11] == AddScaled(a, cotangent, 2.0 * ArrowheadDy(short))
      && r[12] == b && r[13] == AddScaled(b, cotangent, -2.0 * ArrowheadDy(short))
  {
    var dy := ArrowheadDy(short);
    var heads := [
      a, b,
      a, AddScaled(AddScaled(a, tangent, -ArrowheadDx), cotangent, dy),
      a, AddScaled(AddScaled(a, tangent, ArrowheadDx), cotangent, dy),
      b, AddScaled(AddScaled(b, tangent, -ArrowheadDx), cotangent, -dy),
      b, AddScaled(AddScaled(b, tangent, ArrowheadDx), cotangent, -dy)];
    if short then heads + [a, AddScaled(a, cotangent, dy * 2.0), b, AddScaled(b, cotangent, -dy * 2.0)]
    else heads
  }

  /** `translateAndProject`. */
  function TranslateAndProject(p: Vec3, direction: Vec3, distance: real, plane: Plane): Vec3 {
    ProjectPoint(plane, AddScaled(p, direction, distance))
  }

  /** Where the stoplines start, measured along the tangent from the
      ruler's ends: past the farther of the two measured points, by the
      inner padding. */
  function StoplineStart(m: Maths.Functions, f: Frame, s: RulerSetup): real {
    -(s.innerPadding + Max(Length(m, Sub(f.aOnAxis, s.from)), Length(m, Sub(f.bOnAxis, s.to))))
  }

  /** Where the stoplines stop: past the ruler, by the outer padding. */
  function StoplineStop(s: RulerSetup): real {
    s.rulerPadding + OuterPadding
  }

  /** The stoplines start on the foot's side of the ruler's ends and stop
      beyond them. */
  lemma StoplineExtent(m: Maths.Functions, f: Frame, s: RulerSetup)
    requires Maths.SqrtIsPositive(m)
    requires s.innerPadding >= 0.0 && s.rulerPadding > 0.0
    ensures StoplineStart(m, f, s) <= 0.0 < StoplineStop(s)
  {
    assert Length(m, Sub(f.aOnAxis, s.from)) >= 0.0;
  }

  datatype Ruler = Ruler(arrow: seq<Vec3>, stoplines: seq<Vec3>)

  /** The arrow and the two stoplines across its ends, all in the setup's
      plane. */
  function RulerGeometry(m: Maths.Functions, f: Frame, s: RulerSetup): (r: Ruler)
    ensures |r.stoplines| == 4
    ensures |r.arrow| == 10 || |r.arrow| == 14
    ensures r.stoplines[0] == TranslateAndProject(f.aOnAxis, f.tangent, StoplineStart(m, f, s), s.plane)
    ensures r.stoplines[1] == TranslateAndProject(f.aOnAxis, f.tangent, StoplineStop(s), s.plane)
    ensures r.stoplines[2] == TranslateAndProject(f.bOnAxis, f.tangent, StoplineStart(m, f, s), s.plane)
    ensures r.stoplines[3] == TranslateAndProject(f.bOnAxis, f.tangent, StoplineStop(s), s.plane)
    ensures r.arrow[0] == TranslateAndProject(f.aOnAxis, f.tangent, s.rulerPadding, s.plane)
    ensures r.arrow[1] == TranslateAndProject(f.bOnAxis, f.tangent, s.rulerPadding, s.plane)
    ensures |r.arrow| == 14 <==> Length(m, Sub(r.arrow[0], r.arrow[1])) < ShortArrowLength
  {
    var arrowA := TranslateAndProject(f.aOnAxis, f.tangent, s.rulerPadding, s.plane);
    var arrowB := TranslateAndProject(f.bOnAxis, f.tangent, s.rulerPadding, s.plane);
    var short := Length(m, Sub(arrowA, arrowB)) < ShortArrowLength;
    var start, stop := StoplineStart(m, f, s), StoplineStop(s);
    Ruler(ArrowVertices(arrowA, arrowB, f.tangent, f.cotangent, short),
          [TranslateAndProject(f.aOnAxis, f.tangent, start, s.plane),
           TranslateAndProject(f.aOnAxis, f.tangent, stop, s.plane),
           TranslateAndProject(f.bOnAxis, f.tangent, start, s.plane),
           TranslateAndProject(f.bOnAxis, f.tangent, stop, s.plane)])
  }

  /** With a unit plane normal the stoplines and the ends of the arrow lie
      in the ruler's plane. */
  lemma RulerIsOnPlane(m: Maths.Functions, f: Frame, s: RulerSetup)
    requires LengthSquared(s.plane.normal) == 1.0
    ensures forall i :: 0 <= i < 4 ==> DistanceToPoint(s.plane, RulerGeometry(m, f, s).stoplines[i]) == 0.0
    ensures DistanceToPoint(s.plane, RulerGeometry(m, f, s).arrow[0]) == 0.0
    ensures DistanceToPoint(s.plane, RulerGeometry(m, f, s).arrow[1]) == 0.0
  {
    var r := RulerGeometry(m, f, s);
    forall i | 0 <= i < 4
      ensures DistanceToPoint(s.plane, r.stoplines[i]) == 0.0
    {
      var p := if i < 2 then f.aOnAxis else f.bOnAxis;
      var distance := if i % 2 == 0 then StoplineStart(m, f, s) else StoplineStop(s);
      assert r.stoplines[i] == ProjectPoint(s.plane, AddScaled(p, f.tangent, distance));
      ProjectionIsOnPlane(s.plane, AddScaled(p, f.tangent, distance));
    }
    ProjectionIsOnPlane(s.plane, AddScaled(f.aOnAxis, f.tangent, s.rulerPadding));
    ProjectionIsOnPlane(s.plane, AddScaled(f.bOnAxis, f.tangent, s.rulerPadding));
  }

  /** `createAxisRuler`: the placement policy, then the geometry. */
  function CreateAxisRuler(side: Side, t: string, d: Description, bounds: Box, m: Maths.Functions,
                           intersect: (Vec3, Vec3, Box) -> Option<Vec3>): (r: Option<Ruler>)
    ensures r.Some? <==>
      RulerSetupOf(side, t, d, bounds).Some? && RulerFrame(m, RulerSetupOf(side, t, d, bounds).value, intersect).Some?
    ensures r.Some? ==> r.value == RulerGeometry(m, RulerFrame(m, RulerSetupOf(side, t, d, bounds).value, intersect).value,
                                                 RulerSetupOf(side, t, d, bounds).value)
  {
    var s :- RulerSetupOf(side, t, d, bounds);
    var f :- RulerFrame(m, s, intersect);
    Some(RulerGeometry(m, f, s))
  }

  // ---------------------------------------------------------------------
  // The cross-section rectangle

  /** The point `u·tangent + v·cotangent`, projected onto the plane. */
  function UvPoint(tangent: Vec3, cotangent: Vec3, u: real, v: real, plane: Plane): Vec3 {
    ProjectPoint(plane, AddScaled(AddScaled(Origin, tangent, u), cotangent, v))
  }

  /** The direction a point below the floor is slid along: whichever of
      the two climbs more steeply. */
  function Climb(tangent: Vec3, cotangent: Vec3): (r: Vec3)
    ensures r.z == 0.0 <==> tangent.z == 0.0 && cotangent.z == 0.0
  {
    if Abs(tangent.z) > Abs(cotangent.z) then tangent else cotangent
  }

  /** A point slid along a climbing direction until it meets the floor. */
  function SlideToFloor(p: Vec3, direction: Vec3): (r: Vec3)
    requires direction.z != 0.0
    ensures r.z == 0.0
  {
    var s := -p.z / direction.z;
    assert direction.z * s == -p.z;
    AddScaled(p, direction, s)
  }

  /** `projectUvOnPlaneAboveGround`: the point `u·tangent + v·cotangent`
      projected onto the plane and, when that is below the floor, slid up
      along whichever of the two directions climbs more steeply until it
      meets the floor.  When neither climbs the source divides by zero;
      that is a failure here. */
  function ProjectUvAboveGround(tangent: Vec3, cotangent: Vec3, u: real, v: real, plane: Plane): (r: Option<Vec3>)
    ensures r.None? <==> UvPoint(tangent, cotangent, u, v, plane).z < 0.0 && tangent.z == 0.0 && cotangent.z == 0.0
    ensures UvPoint(tangent, cotangent, u, v, plane).z >= 0.0 ==> r == Some(UvPoint(tangent, cotangent, u, v, plane))
    ensures UvPoint(tangent, cotangent, u, v, plane).z < 0.0 && r.Some? ==> r.value.z == 0.0
    ensures r.Some? ==> r.value.z >= 0.0
  {
    var p := UvPoint(tangent, cotangent, u, v, plane);
    if p.z >= 0.0 then Some(p)
    else
      var direction := Climb(tangent, cotangent);
      if direction.z == 0.0 then None else Some(SlideToFloor(p, direction))
  }

  /** A corner built from directions lying in a plane with a unit normal
      stays in that plane, slid or not. */
  lemma CornerIsOnPlane(tangent: Vec3, cotangent: Vec3, u: real, v: real, plane: Plane)
    requires LengthSquared(plane.normal) == 1.0
    requires Dot(plane.normal, tangent) == 0.0 && Dot(plane.normal, cotangent) == 0.0
    requires ProjectUvAboveGround(tangent, cotangent, u, v, plane).Some?
    ensures DistanceToPoint(plane, ProjectUvAboveGround(tangent, cotangent, u, v, plane).value) == 0.0
  {
    var p := UvPoint(tangent, cotangent, u, v, plane);
    ProjectionIsOnPlane(plane, AddScaled(AddScaled(Origin, tangent, u), cotangent, v));
    if p.z < 0.0 {
      var direction := Climb(tangent, cotangent);
      SlideKeepsDistance(plane, p, direction, -p.z / direction.z);
    }
  }

  const RectanglePadding: real := 0.01

  datatype Corners = Corners(lowerLeft: Vec3, lowerRight: Vec3, upperLeft: Vec3, upperRight: Vec3)

  /** The four corners of the cross section's bounds, each widened by the
      padding, in the plane and above the floor. */
  function RectangleCorners(u: Vec3, v: Vec3, cs: CrossSection, plane: Plane): (r: Option<Corners>)
    ensures r.Some? ==>
      && Some(r.value.lowerLeft) == ProjectUvAboveGround(u, v, cs.tangentMin - RectanglePadding, cs.cotangentMin - RectanglePadding, plane)
      && Some(r.value.lowerRight) == ProjectUvAboveGround(u, v, cs.tangentMax + RectanglePadding, cs.cotangentMin - RectanglePadding, plane)
      && Some(r.value.upperLeft) == ProjectUvAboveGround(u, v, cs.tangentMin - RectanglePadding, cs.cotangentMax + RectanglePadding, plane)
      && Some(r.value.upperRight) == ProjectUvAboveGround(u, v, cs.tangentMax + RectanglePadding, cs.cotangentMax + RectanglePadding, plane)
    ensures r.Some? ==>
      r.value.lowerLeft.z >= 0.0 && r.value.lowerRight.z >= 0.0 && r.value.upperLeft.z >= 0.0 && r.value.upperRight.z >= 0.0
    ensures r.None? <==>
      || ProjectUvAboveGround(u, v, cs.tangentMin - RectanglePadding, cs.cotangentMin - RectanglePadding, plane).None?
      || ProjectUvAboveGround(u, v, cs.tangentMax + RectanglePadding, cs.cotangentMin - RectanglePadding, plane).None?
      || ProjectUvAboveGround(u, v, cs.tangentMin - RectanglePadding, cs.cotangentMax + RectanglePadding, plane).None?
      || ProjectUvAboveGround(u, v, cs.tangentMax + RectanglePadding, cs.cotangentMax + RectanglePadding, plane).None?
  {
    var uMin, uMax := cs.tangentMin - RectanglePadding, cs.tangentMax + RectanglePadding;
    var vMin, vMax := cs.cotangentMin - RectanglePadding, cs.cotangentMax + RectanglePadding;
    var lowerLeft :- ProjectUvAboveGround(u, v, uMin, vMin, plane);
    var lowerRight :- ProjectUvAboveGround(u, v, uMax, vMin, plane);
    var upperLeft :- ProjectUvAboveGround(u, v, uMin, vMax, plane);
    var upperRight :- ProjectUvAboveGround(u, v, uMax, vMax, plane);
    Some(Corners(lowerLeft, lowerRight, upperLeft, upperRight))
  }

  /** The line segments of a `THREE.LineSegments` vertex list: vertices
      2i and 2i + 1. */
  function Segments(vertices: seq<Vec3>): (r: seq<(Vec3, Vec3)>)
    ensures |r| == |vertices| / 2
  {
    seq(|vertices| / 2, i requires 0 <= i < |vertices| / 2 => (vertices[2 * i], vertices[2 * i + 1]))
  }

  /** The vertex list draws the segment between p and q. */
  predicate Draws(vertices: seq<Vec3>, p: Vec3, q: Vec3) {
    (p, q) in Segments(vertices) || (q, p) in Segments(vertices)
  }

  /** The rectangle as line segments: its four sides and nothing else. */
  function Outline(c: Corners): (r: seq<Vec3>)
    ensures |r| == 8
    ensures Draws(r, c.upperLeft, c.upperRight) && Draws(r, c.upperRight, c.lowerRight)
    ensures Draws(r, c.lowerRight, c.lowerLeft) && Draws(r, c.lowerLeft, c.upperLeft)
    ensures forall i :: 0 <= i < 8 ==> r[i] in {c.upperLeft, c.upperRight, c.lowerLeft, c.lowerRight}
  {
    var r := [c.upperLeft, c.upperRight, c.lowerLeft, c.upperLeft, c.lowerRight, c.upperRight, c.lowerLeft, c.lowerRight];
    var segments := Segments(r);
    assert segments[0] == (c.upperLeft, c.upperRight);
    assert segments[1] == (c.lowerLeft, c.upperLeft);
    assert segments[2] == (c.lowerRight, c.upperRight);
    assert segments[3] == (c.lowerLeft, c.lowerRight);
    r
  }

  /** `createPlaneRectangle`: the padded cross section outlined in the
      description's plane, above the floor.  A description without a plane
      or cross section bounds, or whose directions are not three numbers,
      is a failure. */
  function CreatePlaneRectangle(d: Description): (r: Option<seq<Vec3>>)
    ensures r.Some? <==>
      && d.plane.Some? && d.crossSection.Some?
      && ParseVector3(d.crossSection.value.tangent).Some? && ParseVector3(d.crossSection.value.cotangent).Some?
      && RectangleCorners(ParseVector3(d.crossSection.value.tangent).value, ParseVector3(d.crossSection.value.cotangent).value,
                          d.crossSection.value, PlaneOf(d.plane.value)).Some?
    ensures r.Some? ==>
      r.value == Outline(RectangleCorners(ParseVector3(d.crossSection.value.tangent).value,
                                          ParseVector3(d.crossSection.value.cotangent).value,
                                          d.crossSection.value, PlaneOf(d.plane.value)).value)
    ensures r.Some? ==> |r.value| == 8 && forall i :: 0 <= i < 8 ==> r.value[i].z >= 0.0
  {
    var plane :- d.plane;
    var cs :- d.crossSection;
    var u :- ParseVector3(cs.tangent);
    var v :- ParseVector3(cs.cotangent);
    var c :- RectangleCorners(u, v, cs, PlaneOf(plane));
    Some(Outline(c))
  }

  // ---------------------------------------------------------------------
  // Fit zones of measurements

  /** `getFitZoneFromMeasurementType`. */
  function FitZoneFromMeasurementType(t: string): (r: Option<FitZone>)
    ensures r.Some? <==> t in {"length", "width", "height", "heel_width"}
  {
    if t == "length" then Some(Toe)
    else if t == "width" then Some(Ball)
    else if t == "height" then Some(Instep)
    else if t == "heel_width" then Some(Heel)
    else None
  }

  /** The measurement type that highlights a zone. */
  function MeasurementTypeOfZone(z: FitZone): string {
    match z
    case Toe => "length"
    case Ball => "width"
    case Instep => "height"
    case Heel => "heel_width"
  }

  /** Each zone belongs to exactly one measurement type. */
  lemma FitZoneOfTypeInverse(t: string, z: FitZone)
    ensures FitZoneFromMeasurementType(t) == Some(z) <==> t == MeasurementTypeOfZone(z)
  {
  }

  /** One foot's material with one zone highlighted: its colour and its
      marker set, every other zone and every other uniform unchanged. */
  function Highlight(u: FootUniforms, z: FitZone, color: Vec3, marker: Vec3): (r: FootUniforms)
    ensures r.zoneColors.Get(z) == color && r.zoneMarkers.Get(z) == marker
    ensures forall other: FitZone :: other != z ==>
      r.zoneColors.Get(other) == u.zoneColors.Get(other) && r.zoneMarkers.Get(other) == u.zoneMarkers.Get(other)
    ensures r == u.(zoneColors := r.zoneColors, zoneMarkers := r.zoneMarkers)
  {
    u.(zoneColors := u.zoneColors.Set(z, color), zoneMarkers := u.zoneMarkers.Set(z, marker))
  }

  /** `updateMeasurementFitZoneUniformsOfFootMaterials`: for a measurement
      with a fit zone, that zone of both feet is highlighted at the zone's
      anchor.  No type changes nothing.  A type without a zone, or
      descriptions without the anchors, is a failure: the source then
      writes through a uniform or an anchor that does not exist.
      `highlight` is THREE's reading of '#B9DBE5'. */
  function UpdateMeasurementZoneUniforms(materials: Sides<FootUniforms>, t: string, ds: Descriptions, highlight: Vec3)
    : (r: Option<Sides<FootUniforms>>)
    ensures t == "" ==> r == Some(materials)
    ensures t != "" ==>
      (r.Some? <==> FitZoneFromMeasurementType(t).Some? && FitZonesVisualization.FitZoneInfoPositions(ds).Some?)
    ensures t != "" && r.Some? ==> forall s: Side ::
      r.value.Get(s) == Highlight(materials.Get(s), FitZoneFromMeasurementType(t).value, highlight,
                                  FitZonesVisualization.FitZoneInfoPositions(ds).value.Get(s).Get(FitZoneFromMeasurementType(t).value))
  {
    if t == "" then Some(materials)
    else
      var z :- FitZoneFromMeasurementType(t);
      var anchors :- FitZonesVisualization.FitZoneInfoPositions(ds);
      Some(Sides(Highlight(materials.left, z, highlight, anchors.left.Get(z)),
                 Highlight(materials.right, z, highlight, anchors.right.Get(z))))
  }

  /** Every measurement that carries notes in the viewer (length, width,
      height and heel width) highlights its zone without failing. */
  lemma NotedMeasurementsHighlight(materials: Sides<FootUniforms>, z: FitZone, ds: Descriptions, highlight: Vec3)
    requires FitZonesVisualization.FitZoneInfoPositions(ds).Some?
    ensures UpdateMeasurementZoneUniforms(materials, MeasurementTypeOfZone(z), ds, highlight).Some?
  {
  }

  // ---------------------------------------------------------------------
  // Measurement info points

  const InfoPointName := "measurement_info"

  /** One info point: at the marker, tagged with the measurement type and
      the marker's name. */
  function InfoPoint(t: string, marker: Marker): (r: Node)
    ensures r.name == InfoPointName && r.position == marker.position && IsLeaf(r)
    ensures Get(r.userData, "measurement_type") == Str(t) && Get(r.userData, "marker") == Str(marker.key)
  {
    Node(InfoPointName, marker.position, map["measurement_type" := Str(t), "marker" := Str(marker.key)], [], [])
  }

  /** `createMeasurementInfoPoints`: a group holding an info point per
      marker, in the description's order. */
  function MeasurementInfoPoints(t: string, d: Description): (r: Node)
    ensures r.name != InfoPointName
    ensures |r.children| == |d.markers|
    ensures forall i :: 0 <= i < |d.markers| ==> r.children[i] == InfoPoint(t, d.markers[i])
  {
    Group("").(children := seq(|d.markers|, i requires 0 <= i < |d.markers| => InfoPoint(t, d.markers[i])))
  }

  /** `getMeasurementAnchorPointsCanvasPositions`: nothing unless both
      roots have children and info points are found under both; otherwise,
      per foot, a canvas position under each measurement type. */
  function MeasurementCanvasPositions(roots: Sides<Node>, project: Node -> Vec3, width: real, height: real)
    : (r: Option<Sides<map<string, Option<CanvasPoint>>>>)
    ensures r.None? <==>
      || |roots.left.children| == 0 || |roots.right.children| == 0
      || |FindAllByName(roots.left, InfoPointName)| == 0 || |FindAllByName(roots.right, InfoPointName)| == 0
  {
    var at := (n: Node) => ToCanvasPosition(project(n), width, height);
    if |roots.left.children| == 0 || |roots.right.children| == 0 then None
    else
      var left, right := FindAllByName(roots.left, InfoPointName), FindAllByName(roots.right, InfoPointName);
      if |left| == 0 || |right| == 0 then None
      else Some(Sides(PositionsByTag(left, "measurement_type", map[], at), PositionsByTag(right, "measurement_type", map[], at)))
  }

  /** A notes root holding only the info points of a description: the
      search finds exactly those points. */
  lemma FoundInfoPoints(t: string, d: Description)
    ensures FindAllByName(AddChild(Group(""), MeasurementInfoPoints(t, d)), InfoPointName) == MeasurementInfoPoints(t, d).children
  {
    var group := MeasurementInfoPoints(t, d);
    var root := AddChild(Group(""), group);
    FoundLeafChildren(group, InfoPointName);
    assert root.children == [group];
    assert FindInChildren(root, 1, InfoPointName) == [];
    assert FindInChildren(root, 0, InfoPointName) == FindAllByName(group, InfoPointName);
  }

  /** Once each foot's notes root holds the info points of its description
      of the measurement, and each description has a marker, the
      measurement's card is placed at the last marker of each foot. */
  lemma NotesCardPosition(t: string, ds: Sides<Description>, project: Node -> Vec3, width: real, height: real, s: Side)
    requires |ds.left.markers| > 0 && |ds.right.markers| > 0
    ensures var roots := Sides(AddChild(Group(""), MeasurementInfoPoints(t, ds.left)),
                               AddChild(Group(""), MeasurementInfoPoints(t, ds.right)));
            var r := MeasurementCanvasPositions(roots, project, width, height);
            var last := ds.Get(s).markers[|ds.Get(s).markers| - 1];
            && r.Some?
            && t in r.value.Get(s)
            && r.value.Get(s)[t] == Some(ToCanvasPosition(project(InfoPoint(t, last)), width, height))
  {
    var roots := Sides(AddChild(Group(""), MeasurementInfoPoints(t, ds.left)),
                       AddChild(Group(""), MeasurementInfoPoints(t, ds.right)));
    FoundInfoPoints(t, ds.left);
    FoundInfoPoints(t, ds.right);
    var points := MeasurementInfoPoints(t, ds.Get(s)).children;
    assert FindAllByName(roots.Get(s), InfoPointName) == points;
    var at := (n: Node) => ToCanvasPosition(project(n), width, height);
    LastTaggedWins(points, "measurement_type", map[], at, t, |points| - 1);
  }
}
