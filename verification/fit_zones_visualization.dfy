/** The fit-zone overlay: an anchor point per fit zone on each foot, placed
    from the foot's measurement markers and tagged with its zone, its foot
    and the fit reported for the zone; the foot materials' zone colours and
    markers; and the canvas positions the info cards are placed at.

    An anchor's colour is always `getFitColor` of its fit (creation and
    update both derive it so), so the model tracks the fit only.  The
    colour the foot material gets for a fit is `fitColor`, standing for
    THREE's reading of `getFitColor`'s hexadecimal text. */
module FitZonesVisualization {
  import opened Wrappers
  import opened Vectors
  import opened Feet
  import opened JsValues
  import opened ThreeTools
  import opened FootMaterials
  import opened MeasurementDescriptions

  const InfoPointName := "fit_zone_info"

  /** The order the anchors are created in, on each foot. */
  const CreationOrder: seq<FitZone> := [Ball, Heel, Instep, Toe]

  // ---------------------------------------------------------------------
  // Anchor positions

  /** The ball anchor: the midpoint of the two width markers, raised by the
      forefoot height's top marker. */
  function BallAnchor(lateral: Vec3, medial: Vec3, forefootTop: Vec3): (r: Vec3)
    ensures r.x == (lateral.x + medial.x) / 2.0 && r.y == (lateral.y + medial.y) / 2.0
    ensures r.z - (lateral.z + medial.z) / 2.0 == forefootTop.z
  {
    Vec3((lateral.x + medial.x) / 2.0 + 0.0, (lateral.y + medial.y) / 2.0 + 0.0, (lateral.z + medial.z) / 2.0 + forefootTop.z)
  }

  /** One foot's anchors: toe and heel from the length markers, instep at
      the instep height's top marker, ball as `BallAnchor`.  A missing
      description or marker is a failure. */
  function FootAnchors(ds: Descriptions, side: Side): (r: Option<Zones<Vec3>>)
    ensures r.Some? <==>
      && MarkerOf(ds, side, "length", "toe").Some? && MarkerOf(ds, side, "length", "heel").Some?
      && MarkerOf(ds, side, "instep_height", "maxz").Some?
      && MarkerOf(ds, side, "width", "width_lateral").Some? && MarkerOf(ds, side, "width", "width_medial").Some?
      && MarkerOf(ds, side, "forefoot_height", "maxz").Some?
    ensures r.Some? ==> MarkerOf(ds, side, "length", "toe") == Some(r.value.toe)
    ensures r.Some? ==> MarkerOf(ds, side, "length", "heel") == Some(r.value.heel)
    ensures r.Some? ==> MarkerOf(ds, side, "instep_height", "maxz") == Some(r.value.instep)
    ensures r.Some? ==> exists lateral, medial, top ::
      && MarkerOf(ds, side, "width", "width_lateral") == Some(lateral)
      && MarkerOf(ds, side, "width", "width_medial") == Some(medial)
      && MarkerOf(ds, side, "forefoot_height", "maxz") == Some(top)
      && r.value.ball == BallAnchor(lateral, medial, top)
  {
    match (MarkerOf(ds, side, "length", "toe"), MarkerOf(ds, side, "length", "heel"),
           MarkerOf(ds, side, "instep_height", "maxz"), MarkerOf(ds, side, "width", "width_lateral"),
           MarkerOf(ds, side, "width", "width_medial"), MarkerOf(ds, side, "forefoot_height", "maxz"))
    case (Some(toe), Some(heel), Some(instep), Some(lateral), Some(medial), Some(top)) =>
      Some(Zones(toe, BallAnchor(lateral, medial, top), instep, heel))
    case _ => None
  }

  /** `getFitZoneInfoPositions(descriptions)`. */
  function FitZoneInfoPositions(ds: Descriptions): (r: Option<Sides<Zones<Vec3>>>)
    ensures r.Some? <==> FootAnchors(ds, Left).Some? && FootAnchors(ds, Right).Some?
    ensures r.Some? ==> r.value.left == FootAnchors(ds, Left).value && r.value.right == FootAnchors(ds, Right).value
  {
    match (FootAnchors(ds, Left), FootAnchors(ds, Right))
    case (Some(l), Some(rt)) => Some(Sides(l, rt))
    case _ => None
  }

  /** The descriptions a foot's anchors are read from. */
  predicate SameFootDescriptions(ds: Descriptions, es: Descriptions, side: Side) {
    forall id :: id in {"length", "instep_height", "width", "forefoot_height"} ==>
      DescriptionOf(ds, side, id) == DescriptionOf(es, side, id)
  }

  /** A foot's anchors depend on that foot's descriptions only. */
  lemma AnchorsArePerFoot(ds: Descriptions, es: Descriptions, side: Side)
    requires SameFootDescriptions(ds, es, side)
    ensures FootAnchors(ds, side) == FootAnchors(es, side)
  {
    assert DescriptionOf(ds, side, "length") == DescriptionOf(es, side, "length");
    assert DescriptionOf(ds, side, "instep_height") == DescriptionOf(es, side, "instep_height");
    assert DescriptionOf(ds, side, "width") == DescriptionOf(es, side, "width");
    assert DescriptionOf(ds, side, "forefoot_height") == DescriptionOf(es, side, "forefoot_height");
  }

  // ---------------------------------------------------------------------
  // Anchor points

  /** The anchor of one zone on one foot. */
  function Anchor(side: Side, z: FitZone, fit: Value, position: Vec3): (r: Node)
    ensures r.name == InfoPointName && r.position == position && r.children == []
    ensures Get(r.userData, "fitZone") == Str(ZoneKey(z)) && Get(r.userData, "footSide") == Str(Key(side))
    ensures Get(r.userData, "fit") == fit
  {
    Node(InfoPointName, position,
         map["fitZone" := Str(ZoneKey(z)), "footSide" := Str(Key(side)), "fit" := fit], [], [])
  }

  function Anchors(side: Side, classes: Zones<Value>, anchors: Zones<Vec3>): (r: seq<Node>)
    ensures |r| == 4
    ensures forall i :: 0 <= i < 4 ==> r[i] == Anchor(side, CreationOrder[i], classes.Get(CreationOrder[i]), anchors.Get(CreationOrder[i]))
  {
    seq(4, i requires 0 <= i < 4 => Anchor(side, CreationOrder[i], classes.Get(CreationOrder[i]), anchors.Get(CreationOrder[i])))
  }

  /** `createFitZoneInfoPoints`: four anchors added to each foot's root, in
      creation order, each carrying its zone's fit. */
  function CreateInfoPoints(roots: Sides<Node>, classes: Zones<Value>, positions: Sides<Zones<Vec3>>): (r: Sides<Node>)
    ensures forall s: Side :: r.Get(s).(children := roots.Get(s).children) == roots.Get(s)
    ensures forall s: Side :: |r.Get(s).children| == |roots.Get(s).children| + 4
    ensures forall s: Side :: r.Get(s).children[..|roots.Get(s).children|] == roots.Get(s).children
    ensures forall s: Side, i :: 0 <= i < 4 ==>
      r.Get(s).children[|roots.Get(s).children| + i]
        == Anchor(s, CreationOrder[i], classes.Get(CreationOrder[i]), positions.Get(s).Get(CreationOrder[i]))
  {
    var l := roots.left.(children := roots.left.children + Anchors(Left, classes, positions.left));
    var rt := roots.right.(children := roots.right.children + Anchors(Right, classes, positions.right));
    assert l.children[..|roots.left.children|] == roots.left.children;
    assert rt.children[..|roots.right.children|] == roots.right.children;
    Sides(l, rt)
  }

  /** The zone a `fitZone` tag names. */
  function ZoneOfTag(tag: Value): (r: Option<FitZone>)
    ensures forall z: FitZone :: r == Some(z) <==> tag == Str(ZoneKey(z))
  {
    if tag == Str("toe") then Some(Toe)
    else if tag == Str("ball") then Some(Ball)
    else if tag == Str("instep") then Some(Instep)
    else if tag == Str("heel") then Some(Heel)
    else None
  }

  /** `fitZoneClassifications[tag]`: undefined for a tag that is no zone. */
  function FitOfTag(classes: Zones<Value>, tag: Value): Value {
    match ZoneOfTag(tag)
    case Some(z) => classes.Get(z)
    case None => Undefined
  }

  /** `{ ...userData, fit: <the zone's new fit> }`. */
  function SetFit(classes: Zones<Value>): map<string, Value> -> map<string, Value> {
    (data: map<string, Value>) => Spread(data, map["fit" := FitOfTag(classes, Get(data, "fitZone"))])
  }

  /** `updateFitZoneInfoPoints`: every anchor found under each root gets the
      fit of its zone; nothing else changes. */
  function UpdateInfoPoints(roots: Sides<Node>, classes: Zones<Value>): (r: Sides<Node>)
    ensures forall s: Side :: |r.Get(s).children| == |roots.Get(s).children|
  {
    Sides(UpdateNamedData(roots.left, InfoPointName, SetFit(classes)),
          UpdateNamedData(roots.right, InfoPointName, SetFit(classes)))
  }

  /** After an update a search finds as many anchors as before, each at the
      same place with the same zone and foot tags and the new fit of its
      zone. */
  lemma UpdateKeepsAnchors(root: Node, classes: Zones<Value>)
    ensures |FindAllByName(UpdateNamedData(root, InfoPointName, SetFit(classes)), InfoPointName)|
         == |FindAllByName(root, InfoPointName)|
    ensures forall i :: 0 <= i < |FindAllByName(root, InfoPointName)| ==>
      var before := FindAllByName(root, InfoPointName)[i];
      var after := FindAllByName(UpdateNamedData(root, InfoPointName, SetFit(classes)), InfoPointName)[i];
      && after.position == before.position
      && Get(after.userData, "fitZone") == Get(before.userData, "fitZone")
      && Get(after.userData, "footSide") == Get(before.userData, "footSide")
      && Get(after.userData, "fit") == FitOfTag(classes, Get(before.userData, "fitZone"))
  {
    FindAfterUpdate(root, InfoPointName, SetFit(classes));
  }

  // ---------------------------------------------------------------------
  // Foot material uniforms

  predicate LooseOrTight(fit: Value) {
    fit == Str("snug") || fit == Str("roomy")
  }

  /** The blend alpha: zones that are snug or roomy are drawn faintly. */
  function FitAlpha(fit: Value): (r: real)
    ensures r == if LooseOrTight(fit) then 0.35 else 1.0
  {
    if LooseOrTight(fit) then 0.35 else 1.0
  }

  /** `new THREE.Color().lerp(fitColor, alpha)`: white moved toward the fit
      colour by the zone's alpha. */
  function ZoneColor(fit: Value, fitColor: Value -> Vec3): Vec3 {
    Lerp(White, fitColor(fit), FitAlpha(fit))
  }

  function ZoneColors(classes: Zones<Value>, fitColor: Value -> Vec3): Zones<Vec3> {
    Zones(ZoneColor(classes.toe, fitColor), ZoneColor(classes.ball, fitColor),
          ZoneColor(classes.instep, fitColor), ZoneColor(classes.heel, fitColor))
  }

  /** `updateFitZoneUniformsOfFootMaterials`: on both feet every zone gets
      its colour and its marker at the zone's anchor; nothing else
      changes. */
  function UpdateZoneUniforms(materials: Sides<FootUniforms>, classes: Zones<Value>, positions: Sides<Zones<Vec3>>,
                              fitColor: Value -> Vec3): (r: Sides<FootUniforms>)
    ensures forall s: Side :: r.Get(s) == materials.Get(s).(zoneColors := r.Get(s).zoneColors, zoneMarkers := r.Get(s).zoneMarkers)
    ensures forall s: Side, z: FitZone :: r.Get(s).zoneMarkers.Get(z) == positions.Get(s).Get(z)
    ensures forall s: Side, z: FitZone :: r.Get(s).zoneColors.Get(z) == ZoneColor(classes.Get(z), fitColor)
  {
    var colors := ZoneColors(classes, fitColor);
    Sides(materials.left.(zoneColors := colors, zoneMarkers := positions.left),
          materials.right.(zoneColors := colors, zoneMarkers := positions.right))
  }

  /** A zone reported as neither snug nor roomy shows its fit colour as it
      is; a snug or roomy one is a faint tint of it. */
  lemma ZoneColorStrength(fit: Value, fitColor: Value -> Vec3)
    ensures !LooseOrTight(fit) ==> ZoneColor(fit, fitColor) == fitColor(fit)
    ensures LooseOrTight(fit) ==> ZoneColor(fit, fitColor) == Lerp(White, fitColor(fit), 0.35)
  {
  }

  /** `clearFitZoneUniformsOfFootMaterials`: every zone colour of both feet
      back to white; the markers and everything else are left alone. */
  function ClearZoneUniforms(materials: Sides<FootUniforms>): (r: Sides<FootUniforms>)
    ensures forall s: Side :: r.Get(s) == materials.Get(s).(zoneColors := r.Get(s).zoneColors)
    ensures forall s: Side, z: FitZone :: r.Get(s).zoneColors.Get(z) == White
  {
    Sides(materials.left.(zoneColors := AllZones(White)), materials.right.(zoneColors := AllZones(White)))
  }

  /** Clearing undoes the colours an update set, and only those. */
  lemma ClearUndoesColors(materials: Sides<FootUniforms>, classes: Zones<Value>, positions: Sides<Zones<Vec3>>,
                          fitColor: Value -> Vec3)
    requires forall s: Side :: materials.Get(s).zoneColors == AllZones(White)
    ensures ClearZoneUniforms(UpdateZoneUniforms(materials, classes, positions, fitColor))
         == Sides(materials.left.(zoneMarkers := positions.left), materials.right.(zoneMarkers := positions.right))
  {
    assert materials.Get(Left).zoneColors == AllZones(White);
    assert materials.Get(Right).zoneColors == AllZones(White);
  }

  // ---------------------------------------------------------------------
  // visualizeFitZones

  /** `visualizeFitZones`: the uniforms are updated, and the anchors are
      created when the left root has none, otherwise updated.  Missing
      measurement markers are a failure. */
  function VisualizeFitZones(roots: Sides<Node>, materials: Sides<FootUniforms>, classes: Zones<Value>,
                             ds: Descriptions, fitColor: Value -> Vec3): (r: Option<(Sides<Node>, Sides<FootUniforms>)>)
    ensures r.Some? <==> FitZoneInfoPositions(ds).Some?
    ensures r.Some? ==> r.value.1 == UpdateZoneUniforms(materials, classes, FitZoneInfoPositions(ds).value, fitColor)
    ensures r.Some? && |roots.left.children| == 0 ==>
      r.value.0 == CreateInfoPoints(roots, classes, FitZoneInfoPositions(ds).value)
    ensures r.Some? && |roots.left.children| > 0 ==>
      r.value.0 == UpdateInfoPoints(roots, classes)
  {
    match FitZoneInfoPositions(ds)
    case None => None
    case Some(positions) =>
      var uniforms := UpdateZoneUniforms(materials, classes, positions, fitColor);
      if |roots.left.children| == 0 then Some((CreateInfoPoints(roots, classes, positions), uniforms))
      else Some((UpdateInfoPoints(roots, classes), uniforms))
  }

  /** Anchors are created once: showing the fit zones again, with any new
      fits, keeps four anchors per foot on roots that started empty, and
      each keeps its place and tags. */
  lemma ShowTwiceKeepsAnchors(roots: Sides<Node>, materials: Sides<FootUniforms>, classes: Zones<Value>,
                              classes2: Zones<Value>, ds: Descriptions, fitColor: Value -> Vec3)
    requires |roots.left.children| == 0 && |roots.right.children| == 0
    requires FitZoneInfoPositions(ds).Some?
    ensures var first := VisualizeFitZones(roots, materials, classes, ds, fitColor).value;
            var second := VisualizeFitZones(first.0, first.1, classes2, ds, fitColor).value;
            && |second.0.left.children| == 4 && |second.0.right.children| == 4
            && second.0 == UpdateInfoPoints(first.0, classes2)
  {
    var first := VisualizeFitZones(roots, materials, classes, ds, fitColor).value;
    assert |first.0.left.children| == 4;
    assert |first.0.right.children| == 4;
  }

  // ---------------------------------------------------------------------
  // Canvas positions

  /** The keys the result starts with, all unset. */
  const NoPositions: map<string, Option<CanvasPoint>> :=
    map["heel" := None, "instep" := None, "toe" := None, "ball" := None]

  /** `getFitZoneAnchorPointsCanvasPositions`: nothing unless both roots
      have children and anchors are found under both; otherwise, per foot,
      the canvas position of each anchor under its zone.  `project` is the
      anchor's world position projected by the camera. */
  function AnchorCanvasPositions(roots: Sides<Node>, project: Node -> Vec3, width: real, height: real)
    : (r: Option<Sides<map<string, Option<CanvasPoint>>>>)
    ensures r.None? <==>
      || |roots.left.children| == 0 || |roots.right.children| == 0
      || |FindAllByName(roots.left, InfoPointName)| == 0 || |FindAllByName(roots.right, InfoPointName)| == 0
    ensures r.Some? ==> forall s: Side :: NoPositions.Keys <= r.value.Get(s).Keys
  {
    var at := (n: Node) => ToCanvasPosition(project(n), width, height);
    if |roots.left.children| == 0 || |roots.right.children| == 0 then None
    else
      var left, right := FindAllByName(roots.left, InfoPointName), FindAllByName(roots.right, InfoPointName);
      if |left| == 0 || |right| == 0 then None
      else Some(Sides(PositionsByTag(left, "fitZone", NoPositions, at), PositionsByTag(right, "fitZone", NoPositions, at)))
  }

  /** Once the anchors exist on empty roots, every zone of both feet has a
      canvas position: that of the zone's own anchor. */
  lemma CreatedAnchorsHavePositions(roots: Sides<Node>, classes: Zones<Value>, positions: Sides<Zones<Vec3>>,
                                    project: Node -> Vec3, width: real, height: real, s: Side, z: FitZone)
    requires roots.left == Group("") && roots.right == Group("")
    ensures var created := CreateInfoPoints(roots, classes, positions);
            var r := AnchorCanvasPositions(created, project, width, height);
            && r.Some?
            && r.value.Get(s)[ZoneKey(z)]
              == Some(ToCanvasPosition(project(Anchor(s, z, classes.Get(z), positions.Get(s).Get(z))), width, height))
  {
    CreatedOnEmptyRoots(roots, classes, positions);
    PositionsOfAnchorRoots(classes, positions, project, width, height, s, z);
  }

  /** On empty roots, each created root holds just its foot's anchors. */
  lemma CreatedOnEmptyRoots(roots: Sides<Node>, classes: Zones<Value>, positions: Sides<Zones<Vec3>>)
    requires roots.left == Group("") && roots.right == Group("")
    ensures CreateInfoPoints(roots, classes, positions)
         == Sides(Group("").(children := Anchors(Left, classes, positions.left)),
                  Group("").(children := Anchors(Right, classes, positions.right)))
  {
    var left, right := Anchors(Left, classes, positions.left), Anchors(Right, classes, positions.right);
    assert CreateInfoPoints(roots, classes, positions)
        == Sides(roots.left.(children := roots.left.children + left), roots.right.(children := roots.right.children + right));
    assert roots.left.children + left == left;
    assert roots.right.children + right == right;
  }

  /** Roots holding just the anchors give each zone its own anchor's
      canvas position. */
  lemma PositionsOfAnchorRoots(classes: Zones<Value>, positions: Sides<Zones<Vec3>>,
                               project: Node -> Vec3, width: real, height: real, s: Side, z: FitZone)
    ensures var roots := Sides(Group("").(children := Anchors(Left, classes, positions.left)),
                               Group("").(children := Anchors(Right, classes, positions.right)));
            var r := AnchorCanvasPositions(roots, project, width, height);
            && r.Some?
            && r.value.Get(s)[ZoneKey(z)]
              == Some(ToCanvasPosition(project(Anchor(s, z, classes.Get(z), positions.Get(s).Get(z))), width, height))
  {
    var roots := Sides(Group("").(children := Anchors(Left, classes, positions.left)),
                       Group("").(children := Anchors(Right, classes, positions.right)));
    var at := (n: Node) => ToCanvasPosition(project(n), width, height);
    CreatedAnchorsFound(Left, classes, positions.left);
    CreatedAnchorsFound(Right, classes, positions.right);
    assert FindAllByName(roots.Get(s), InfoPointName) == Anchors(s, classes, positions.Get(s));
    LastAnchorOfZone(s, classes, positions.Get(s), z, at);
  }

  /** On an empty group, the search finds exactly the created anchors. */
  lemma CreatedAnchorsFound(side: Side, classes: Zones<Value>, anchors: Zones<Vec3>)
    ensures FindAllByName(Group("").(children := Anchors(side, classes, anchors)), InfoPointName)
         == Anchors(side, classes, anchors)
  {
    FoundLeafChildren(Group("").(children := Anchors(side, classes, anchors)), InfoPointName);
  }

  /** Each zone's tag is carried by exactly one of a foot's anchors. */
  lemma LastAnchorOfZone(side: Side, classes: Zones<Value>, anchors: Zones<Vec3>, z: FitZone, at: Node -> CanvasPoint)
    ensures PositionsByTag(Anchors(side, classes, anchors), "fitZone", NoPositions, at)[ZoneKey(z)]
         == Some(at(Anchor(side, z, classes.Get(z), anchors.Get(z))))
  {
    var found := Anchors(side, classes, anchors);
    var i := match z case Ball => 0 case Heel => 1 case Instep => 2 case Toe => 3;
    assert CreationOrder[i] == z;
    forall j | 0 <= j < 4
      ensures Get(found[j].userData, "fitZone") == Str(ZoneKey(CreationOrder[j]))
    {
    }
    LastTaggedWins(found, "fitZone", NoPositions, at, ZoneKey(z), i);
  }
}
