/** The uniforms of the materials the overlays and the paint loop write:
    the detailed foot material (one per foot), the mesh-line material and
    the ground material.  Values are those `getDetailedMaterial` starts
    with; textures and colours read from the page are left to the caller. */
module FootMaterials {
  import opened Vectors

  /** The four zones a shoe's fit is reported for. */
  datatype FitZone = Toe | Ball | Instep | Heel

  /** The order the foot-material uniforms are written in. */
  const UniformOrder: seq<FitZone> := [Toe, Ball, Instep, Heel]

  /** One value per fit zone. */
  datatype Zones<T> = Zones(toe: T, ball: T, instep: T, heel: T) {
    function Get(z: FitZone): T {
      match z
      case Toe => toe
      case Ball => ball
      case Instep => instep
      case Heel => heel
    }

    function Set(z: FitZone, v: T): (r: Zones<T>)
      ensures r.Get(z) == v
      ensures forall y: FitZone :: y != z ==> r.Get(y) == Get(y)
    {
      match z
      case Toe => this.(toe := v)
      case Ball => this.(ball := v)
      case Instep => this.(instep := v)
      case Heel => this.(heel := v)
    }
  }

  function AllZones<T>(v: T): Zones<T> {
    Zones(v, v, v, v)
  }

  /** The key a zone goes by in the source's records. */
  function ZoneKey(z: FitZone): string {
    match z
    case Toe => "toe"
    case Ball => "ball"
    case Instep => "instep"
    case Heel => "heel"
  }

  /** The detailed foot material's uniforms. */
  datatype FootUniforms = FootUniforms(
    accentColor: Vec4,
    cutoffHeight: real,
    errorVis: real,
    girthPlane: Vec4,
    measurementLineColor: Vec4,
    stopline1P1: Vec3, stopline1P2: Vec3, stopline2P1: Vec3, stopline2P2: Vec3,
    zoneColors: Zones<Vec3>,
    zoneMarkers: Zones<Vec3>,
    timeFitZones: real)

  /** A point below the ground the shaders draw no stopline through, and a
      girth plane far from the foot. */
  const NoStopline := Vec3(0.0, 0.0, -1.0)
  const NoGirthPlane := Vec4(0.0, 0.0, 1.0, 1.0)

  const InitialFootUniforms := FootUniforms(
    Vec4(1.0, 1.0, 1.0, 1.0), 0.0, 0.0, NoGirthPlane, Vec4(0.0, 0.0, 0.0, 1.0),
    NoStopline, NoStopline, NoStopline, NoStopline,
    AllZones(White), AllZones(Origin), 0.0)

  /** The mesh-line material's animated uniforms. */
  datatype LineUniforms = LineUniforms(cutoffHeight: real, time: real)
}
