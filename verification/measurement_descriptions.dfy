/** The per-foot measurement descriptions the scan result carries, keyed
    `<side>_<measurement id>` (as in `left_length`): the axis and end points
    a ruler is drawn between, an optional plane, an optional cross-section
    rectangle for girths, and named marker points in the order the record
    lists them. */
module MeasurementDescriptions {
  import opened Wrappers
  import opened Vectors
  import opened Feet

  datatype CrossSection = CrossSection(
    tangent: seq<real>, cotangent: seq<real>,
    tangentMin: real, tangentMax: real,
    cotangentMin: real, cotangentMax: real)

  datatype Marker = Marker(key: string, position: Vec3)

  datatype Description = Description(
    axis: seq<real>,
    from: seq<real>,
    to: seq<real>,
    plane: Option<Vec4>,
    crossSection: Option<CrossSection>,
    markers: seq<Marker>)

  type Descriptions = map<string, Description>

  /** The key a foot's description of a measurement is stored under. */
  function DescriptionKey(side: Side, id: string): string {
    Key(side) + "_" + id
  }

  /** `descriptions[<side>_<id>]`. */
  function DescriptionOf(ds: Descriptions, side: Side, id: string): (r: Option<Description>)
    ensures r.Some? <==> DescriptionKey(side, id) in ds
  {
    var key := DescriptionKey(side, id);
    if key in ds then Some(ds[key]) else None
  }

  /** `description.markers[key]`: the first marker of that name. */
  function MarkerAt(markers: seq<Marker>, key: string): (r: Option<Vec3>)
    ensures r.Some? <==> exists i :: 0 <= i < |markers| && markers[i].key == key
    ensures r.Some? ==> exists i :: 0 <= i < |markers| && markers[i] == Marker(key, r.value)
  {
    if |markers| == 0 then None
    else if markers[0].key == key then Some(markers[0].position)
    else
      var rest := MarkerAt(markers[1..], key);
      assert forall i :: 1 <= i < |markers| ==> markers[i] == markers[1..][i - 1];
      rest
  }

  /** A marker of a foot's description of a measurement. */
  function MarkerOf(ds: Descriptions, side: Side, id: string, key: string): (r: Option<Vec3>)
    ensures r.Some? ==> DescriptionKey(side, id) in ds
  {
    match DescriptionOf(ds, side, id)
    case None => None
    case Some(d) => MarkerAt(d.markers, key)
  }
}
