/** The named camera poses the viewer moves between.  Each is given as a
    radius in metres and two angles, and is turned into a position on a
    sphere of a fixed "legacy" radius around the origin, an Euler rotation
    and a zoom that makes the legacy sphere look as large as the requested
    one.

    The scene is Z-up while THREE's spherical coordinates are Y-up; the
    quaternion the source builds to turn +Z onto +Y is a quarter turn about
    the X axis, and its inverse is written out here as `YUpToZUp`. */
module CameraOrientations {
  import opened Vectors
  import Maths

  /** Euler angles about X, Y and Z, in radians. */
  datatype Euler = Euler(x: real, y: real, z: real)

  datatype Orientation = Orientation(up: Vec3, target: Vec3, position: Vec3, rotation: Euler, zoom: real)

  /** The radius every orientation places the camera at; the zoom makes up
      the difference. */
  const LegacyRadius: real := 0.4426

  const Up := Vec3(0.0, 0.0, 1.0)

  /** THREE's `Vector3.setFromSpherical`: phi from the +Y axis, theta
      around it starting at +Z. */
  function FromSpherical(m: Maths.Functions, s: Spherical): (r: Vec3)
    ensures r.y == s.radius * m.cos(s.phi)
  {
    var sinPhiRadius := m.sin(s.phi) * s.radius;
    Vec3(sinPhiRadius * m.sin(s.theta), m.cos(s.phi) * s.radius, sinPhiRadius * m.cos(s.theta))
  }

  /** The inverse of the rotation that takes +Z onto +Y. */
  function YUpToZUp(v: Vec3): (r: Vec3)
    ensures v == Vec3(0.0, 1.0, 0.0) ==> r == Up
  {
    Vec3(v.x, -v.z, v.y)
  }

  /** The rotation that takes +Z onto +Y. */
  function ZUpToYUp(v: Vec3): (r: Vec3)
    ensures v == Up ==> r == Vec3(0.0, 1.0, 0.0)
  {
    Vec3(v.x, v.z, -v.y)
  }

  /** The two rotations undo each other and neither changes a length. */
  lemma RotationsAreInverse(v: Vec3)
    ensures YUpToZUp(ZUpToYUp(v)) == v && ZUpToYUp(YUpToZUp(v)) == v
    ensures LengthSquared(YUpToZUp(v)) == LengthSquared(v)
  {
    var r := YUpToZUp(v);
    assert r.y * r.y == v.z * v.z;
  }

  /** `new CameraOrientation(radius, phi, theta)`. */
  function MakeOrientation(m: Maths.Functions, radius: real, phi: real, theta: real): (r: Orientation)
    requires radius != 0.0
    ensures r.up == Up && r.target == Origin
    ensures r.rotation == Euler(phi, 0.0, theta)
    ensures r.zoom * radius == LegacyRadius
    ensures radius > 0.0 ==> r.zoom > 0.0
    ensures r.position.z == LegacyRadius * m.cos(MakeSafe(phi))
    ensures r.position.x == m.sin(MakeSafe(phi)) * LegacyRadius * m.sin(theta)
    ensures r.position.y == -(m.sin(MakeSafe(phi)) * LegacyRadius * m.cos(theta))
  {
    var onSphere := FromSpherical(m, Spherical(LegacyRadius, MakeSafe(phi), theta));
    var zoom := LegacyRadius / radius;
    assert zoom * radius == LegacyRadius;
    Orientation(Up, Origin, YUpToZUp(onSphere), Euler(phi, 0.0, theta), zoom)
  }

  // ---------------------------------------------------------------------
  // The presets

  datatype Preset =
    | FrontRight | FrontLeft | FrontView | HighFrontView | Initial | InsideView
    | PreInitial | RearSideView | RearView | SideView | TopSideView | TopView
    | Visir | ToeLeft | BallLeft | InstepLeft | HeelLeft | InitialBeta | InitialSplash

  /** Radius in metres, then phi and theta as fractions of pi. */
  function Coordinates(p: Preset): (r: (real, real, real))
    ensures 0.3 <= r.0 <= 1.0
    ensures 0.0 <= r.1 <= 0.5 && -1.0 <= r.2 <= 1.12
  {
    match p
    case FrontRight => (0.40, 0.4, 0.8)
    case FrontLeft => (0.40, 0.4, -0.8)
    case FrontView => (0.40, 0.37, 1.0)
    case HighFrontView => (0.40, 0.15, 1.0)
    case Initial => (0.4426, 0.3, 0.723)
    case InsideView => (0.30, 0.37, 0.71)
    case PreInitial => (0.36, 0.5, -0.2)
    case RearSideView => (0.40, 0.37, 0.25)
    case RearView => (0.40, 0.37, 0.0)
    case SideView => (0.48, 0.5, 0.5)
    case TopSideView => (0.432, 0.0, 0.5)
    case TopView => (0.432, 0.0, 0.0)
    case Visir => (0.67, 0.28, 0.73)
    case ToeLeft => (0.42, 0.48, -0.92)
    case BallLeft => (0.38, 0.5, -0.7)
    case InstepLeft => (0.42, 0.3, -0.5)
    case HeelLeft => (0.37, 0.5, -0.1)
    case InitialBeta => (0.62, 0.3, 0.723)
    case InitialSplash => (1.00, 0.1, 1.12)
  }

  function PresetOrientation(m: Maths.Functions, p: Preset): (r: Orientation)
    ensures r.zoom > 0.0 && r.up == Up && r.target == Origin
  {
    var c := Coordinates(p);
    MakeOrientation(m, c.0, c.1 * Maths.Pi, c.2 * Maths.Pi)
  }

  /** The initial preset sits at the legacy radius, so it needs no zoom. */
  lemma InitialZoomIsOne(m: Maths.Functions)
    ensures PresetOrientation(m, Initial).zoom == 1.0
  {
  }

  /** Every preset's zoom lies between the ones the nearest and the
      farthest preset get: legacy radius over 0.3 and over 1. */
  lemma PresetZoomBounds(m: Maths.Functions, p: Preset)
    ensures LegacyRadius <= PresetOrientation(m, p).zoom <= LegacyRadius / 0.3
  {
    var r := PresetOrientation(m, p);
    var radius := Coordinates(p).0;
    assert r.zoom * radius == LegacyRadius;
    ZoomBetween(r.zoom, radius);
  }

  lemma ZoomBetween(zoom: real, radius: real)
    requires 0.3 <= radius <= 1.0 && zoom * radius == LegacyRadius
    ensures LegacyRadius <= zoom <= LegacyRadius / 0.3
  {
    assert zoom > 0.0;
    assert zoom * radius <= zoom * 1.0;
    assert zoom * radius >= zoom * 0.3;
  }
}
