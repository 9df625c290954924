/** The scan-results viewer (`FeetScanMeshView`): the measurement overlays
    it adds and removes (rulers, girth planes, notes), the fit-zone overlay,
    the listeners it keeps on the orbit controls, the fit-zone timer of its
    paint loop, and the foot annotations a click opens, adds or closes.

    `measurementTypeFromId`, the foot's bounding box, the ray casts and the
    camera projection are parameters. */
module FeetScanView {
  import Maths
  import opened Wrappers
  import opened Vectors
  import opened Feet
  import opened JsValues
  import opened ThreeTools
  import opened FootMaterials
  import opened MeasurementDescriptions
  import FitZonesVisualization
  import MeasurementVisualization
  import MeshView

  datatype ColorMode = DefaultColors | ArchTypeColors | FitZoneColors

  // ---------------------------------------------------------------------
  // Listener slots

  /** The two entries of `controlsListeners` the view fills. */
  datatype SlotName = MeasurementInfoPositions | FitZonesPositions

  /** A 'change' listener of the controls: a closure made for one slot,
      told apart from every other closure by when it was made. */
  datatype Listener = Listener(slot: SlotName, id: nat)

  /** The listener kept in each slot, if any. */
  datatype Slots = Slots(measurement: Option<Listener>, fitZones: Option<Listener>) {
    function Get(n: SlotName): Option<Listener> {
      match n
      case MeasurementInfoPositions => measurement
      case FitZonesPositions => fitZones
    }

    function Set(n: SlotName, l: Option<Listener>): (r: Slots)
      ensures r.Get(n) == l
      ensures forall other: SlotName :: other != n ==> r.Get(other) == Get(other)
    {
      match n
      case MeasurementInfoPositions => this.(measurement := l)
      case FitZonesPositions => this.(fitZones := l)
    }
  }

  /** The listeners a slot holds, as a set. */
  function Held(l: Option<Listener>): set<Listener> {
    if l.Some? then {l.value} else {}
  }

  /** The view's state: the foot materials' uniforms, the overlay roots
      under each foot, the colour mode, when the fit zones were shown, the
      slot listeners registered on the controls, the slots, how many
      closures were made, and whether clicks annotate. */
  datatype View = View(
    uniforms: Sides<FootUniforms>,
    descriptionRoots: Sides<Node>,
    notesRoots: Sides<Node>,
    fitZoneRoots: Sides<Node>,
    annotationRoots: Sides<Node>,
    colorMode: ColorMode,
    fitZonesStartTime: Option<real>,
    changeListeners: set<Listener>,
    slots: Slots,
    closuresMade: nat,
    annotationMode: bool)

  const EmptyRoots := Sides(Group(""), Group(""))

  const InitialView := View(
    Sides(InitialFootUniforms, InitialFootUniforms), EmptyRoots, EmptyRoots, EmptyRoots, EmptyRoots,
    DefaultColors, None, {}, Slots(None, None), 0, false)

  /** The slot listeners registered on the controls are exactly those the
      slots hold, each in its own slot. */
  predicate ListenersInSlots(v: View) {
    && v.changeListeners == Held(v.slots.measurement) + Held(v.slots.fitZones)
    && (v.slots.measurement.Some? ==> v.slots.measurement.value.slot == MeasurementInfoPositions)
    && (v.slots.fitZones.Some? ==> v.slots.fitZones.value.slot == FitZonesPositions)
  }

  /** While the listeners are those in the slots, no slot has two
      listeners registered. */
  lemma AtMostOneListenerPerSlot(v: View, a: Listener, b: Listener)
    requires ListenersInSlots(v)
    requires a in v.changeListeners && b in v.changeListeners && a.slot == b.slot
    ensures a == b
  {
  }

  /** The unregistering and registering of `showDescriptionNotes` and
      `showFitZones`: the slot's old listener (if any) is removed, a new
      closure is made, kept in the slot and registered. */
  function ReplaceListener(v: View, n: SlotName): (r: View)
    ensures r.slots.Get(n) == Some(Listener(n, v.closuresMade))
    ensures forall other: SlotName :: other != n ==> r.slots.Get(other) == v.slots.Get(other)
    ensures r.changeListeners == v.changeListeners - Held(v.slots.Get(n)) + {Listener(n, v.closuresMade)}
    ensures r == v.(changeListeners := r.changeListeners, slots := r.slots, closuresMade := v.closuresMade + 1)
    ensures ListenersInSlots(v) ==> ListenersInSlots(r)
  {
    var l := Listener(n, v.closuresMade);
    v.(changeListeners := v.changeListeners - Held(v.slots.Get(n)) + {l},
       slots := v.slots.Set(n, Some(l)),
       closuresMade := v.closuresMade + 1)
  }

  /** The unregistering of `removeDescriptions` and `removeFitZones`: the
      slot's listener (if any) is removed and the slot emptied. */
  function DropListener(v: View, n: SlotName): (r: View)
    ensures r.slots.Get(n).None?
    ensures forall other: SlotName :: other != n ==> r.slots.Get(other) == v.slots.Get(other)
    ensures r.changeListeners == v.changeListeners - Held(v.slots.Get(n))
    ensures r == v.(changeListeners := r.changeListeners, slots := r.slots)
    ensures ListenersInSlots(v) ==> ListenersInSlots(r) && forall l :: l in r.changeListeners ==> l.slot != n
  {
    v.(changeListeners := v.changeListeners - Held(v.slots.Get(n)), slots := v.slots.Set(n, None))
  }

  // ---------------------------------------------------------------------
  // Measurement overlays

  /** The object `showDescription` adds for a ruler: named 'ruler', the
      arrow's segments, and a 'stoplines' child. */
  function RulerNode(r: MeasurementVisualization.Ruler): Node {
    Node("ruler", Origin, map[], r.arrow, [Node("stoplines", Origin, map[], r.stoplines, [])])
  }

  /** The object `showDescription` adds for a cross section, named
      'plane'. */
  function PlaneNode(outline: seq<Vec3>): Node {
    Node("plane", Origin, map[], outline, [])
  }

  /** The four stopline vertices, in order, as the two stoplines' ends. */
  function WithStoplines(u: FootUniforms, stoplines: seq<Vec3>): (r: FootUniforms)
    requires |stoplines| == 4
    ensures [r.stopline1P1, r.stopline1P2, r.stopline2P1, r.stopline2P2] == stoplines
    ensures r == u.(stopline1P1 := r.stopline1P1, stopline1P2 := r.stopline1P2,
                    stopline2P1 := r.stopline2P1, stopline2P2 := r.stopline2P2)
  {
    u.(stopline1P1 := stoplines[0], stopline1P2 := stoplines[1], stopline2P1 := stoplines[2], stopline2P2 := stoplines[3])
  }

  /** The ruler of a distance measurement added to one foot: the ruler
      object appended to its root, its stoplines copied in order; the
      other foot and everything else unchanged. */
  function AddRuler(v: View, side: Side, ruler: MeasurementVisualization.Ruler): (r: View)
    requires |ruler.stoplines| == 4
    ensures r.descriptionRoots.Get(side) == AddChild(v.descriptionRoots.Get(side), RulerNode(ruler))
    ensures r.uniforms.Get(side) == WithStoplines(v.uniforms.Get(side), ruler.stoplines)
    ensures r.descriptionRoots.Get(Other(side)) == v.descriptionRoots.Get(Other(side))
    ensures r.uniforms.Get(Other(side)) == v.uniforms.Get(Other(side))
    ensures r == v.(descriptionRoots := r.descriptionRoots, uniforms := r.uniforms)
  {
    v.(descriptionRoots := v.descriptionRoots.Set(side, AddChild(v.descriptionRoots.Get(side), RulerNode(ruler))),
       uniforms := v.uniforms.Set(side, WithStoplines(v.uniforms.Get(side), ruler.stoplines)))
  }

  /** The plane of a girth measurement set on one foot, and its cross
      section appended when there is one; the other foot and everything
      else unchanged. */
  function AddGirthPlane(v: View, side: Side, plane: Vec4, outline: Option<seq<Vec3>>): (r: View)
    ensures r.uniforms.Get(side) == v.uniforms.Get(side).(girthPlane := plane)
    ensures outline.None? ==> r.descriptionRoots == v.descriptionRoots
    ensures outline.Some? ==> r.descriptionRoots.Get(side) == AddChild(v.descriptionRoots.Get(side), PlaneNode(outline.value))
    ensures r.descriptionRoots.Get(Other(side)) == v.descriptionRoots.Get(Other(side))
    ensures r.uniforms.Get(Other(side)) == v.uniforms.Get(Other(side))
    ensures r == v.(descriptionRoots := r.descriptionRoots, uniforms := r.uniforms)
  {
    var shown := v.(uniforms := v.uniforms.Set(side, v.uniforms.Get(side).(girthPlane := plane)));
    match outline
    case None => shown
    case Some(o) => shown.(descriptionRoots := v.descriptionRoots.Set(side, AddChild(v.descriptionRoots.Get(side), PlaneNode(o))))
  }

  /** The girth branch of `showDescription`: nothing without a plane; the
      plane, and the cross section when the description has one.  A
      malformed cross section is a failure. */
  function ShowGirth(v: View, side: Side, d: Description): (r: Option<View>)
    ensures d.plane.None? ==> r == Some(v)
    ensures d.plane.Some? && d.crossSection.None? ==> r == Some(AddGirthPlane(v, side, d.plane.value, None))
    ensures d.plane.Some? && d.crossSection.Some? ==>
      (r.Some? <==> MeasurementVisualization.CreatePlaneRectangle(d).Some?)
    ensures d.plane.Some? && d.crossSection.Some? && r.Some? ==>
      r.value == AddGirthPlane(v, side, d.plane.value, MeasurementVisualization.CreatePlaneRectangle(d))
  {
    match d.plane
    case None => Some(v)
    case Some(plane) =>
      if d.crossSection.None? then Some(AddGirthPlane(v, side, plane, None))
      else
        var outline :- MeasurementVisualization.CreatePlaneRectangle(d);
        Some(AddGirthPlane(v, side, plane, Some(outline)))
  }

  /** The view the girth branch leaves, whether or not it throws: the
      plane is set before the cross section is built, so a malformed
      cross section leaves the plane set and adds no object. */
  function AfterShowGirth(v: View, side: Side, d: Description): (r: View)
    ensures ShowGirth(v, side, d).Some? ==> r == ShowGirth(v, side, d).value
    ensures ShowGirth(v, side, d).None? ==>
      && d.plane.Some? && d.crossSection.Some?
      && r.uniforms.Get(side) == v.uniforms.Get(side).(girthPlane := d.plane.value)
      && r.uniforms.Get(Other(side)) == v.uniforms.Get(Other(side))
      && r == v.(uniforms := r.uniforms)
  {
    match ShowGirth(v, side, d)
    case Some(shown) => shown
    case None => AddGirthPlane(v, side, d.plane.value, None)
  }

  /** `showDescription` of one foot for a measurement of type `t`.  An
      empty id, a missing description, a ruler that cannot be placed or a
      malformed cross section is a failure; a type that is neither a
      distance nor a girth only warns. */
  function ShowDescription(v: View, side: Side, id: string, t: string, ds: Descriptions, bounds: MeasurementVisualization.Box,
                           m: Maths.Functions, intersect: (Vec3, Vec3, MeasurementVisualization.Box) -> Option<Vec3>)
    : (r: Option<View>)
    ensures r.Some? ==> id != "" && DescriptionKey(side, id) in ds
    ensures r.Some? && t in MeasurementVisualization.DistanceTypes ==>
      var ruler := MeasurementVisualization.CreateAxisRuler(side, t, ds[DescriptionKey(side, id)], bounds, m, intersect);
      && ruler.Some?
      && r.value == AddRuler(v, side, ruler.value)
    ensures id != "" && DescriptionKey(side, id) in ds && t !in MeasurementVisualization.DistanceTypes ==>
      r == if t in MeasurementVisualization.GirthTypes then ShowGirth(v, side, ds[DescriptionKey(side, id)]) else Some(v)
    ensures r.Some? ==> r.value == v.(descriptionRoots := r.value.descriptionRoots, uniforms := r.value.uniforms)
    ensures r.Some? ==> (r.value.descriptionRoots.Get(Other(side)) == v.descriptionRoots.Get(Other(side))
                         && r.value.uniforms.Get(Other(side)) == v.uniforms.Get(Other(side)))
  {
    if id == "" then None
    else
      var d :- DescriptionOf(ds, side, id);
      if t in MeasurementVisualization.DistanceTypes then
        var ruler :- MeasurementVisualization.CreateAxisRuler(side, t, d, bounds, m, intersect);
        Some(AddRuler(v, side, ruler))
      else if t in MeasurementVisualization.GirthTypes then ShowGirth(v, side, d)
      else Some(v)
  }

  /** The view `showDescription` leaves, whether or not it throws.  The
      checks on the id and the description, and the ruler's construction,
      come before any write; only a girth measurement with a malformed
      cross section throws after writing, leaving its plane set. */
  function AfterShowDescription(v: View, side: Side, id: string, t: string, ds: Descriptions, bounds: MeasurementVisualization.Box,
                                m: Maths.Functions, intersect: (Vec3, Vec3, MeasurementVisualization.Box) -> Option<Vec3>): (r: View)
    ensures ShowDescription(v, side, id, t, ds, bounds, m, intersect).Some? ==>
      r == ShowDescription(v, side, id, t, ds, bounds, m, intersect).value
    ensures ShowDescription(v, side, id, t, ds, bounds, m, intersect).None? ==>
      && r.descriptionRoots == v.descriptionRoots
      && r.uniforms.Get(Other(side)) == v.uniforms.Get(Other(side))
      && r == v.(uniforms := r.uniforms)
      && (r != v ==> t in MeasurementVisualization.GirthTypes && id != "" && DescriptionKey(side, id) in ds
                     && r.uniforms.Get(side) == v.uniforms.Get(side).(girthPlane := ds[DescriptionKey(side, id)].plane.value))
    ensures (&& ShowDescription(v, side, id, t, ds, bounds, m, intersect).None?
             && id != "" && DescriptionKey(side, id) in ds && t !in MeasurementVisualization.DistanceTypes
             && t in MeasurementVisualization.GirthTypes)
      ==> r.uniforms.Get(side).girthPlane == ds[DescriptionKey(side, id)].plane.value
  {
    match ShowDescription(v, side, id, t, ds, bounds, m, intersect)
    case Some(shown) => shown
    case None =>
      if id != "" && DescriptionKey(side, id) in ds && t !in MeasurementVisualization.DistanceTypes
         && t in MeasurementVisualization.GirthTypes
      then AfterShowGirth(v, side, ds[DescriptionKey(side, id)])
      else v
  }

  /** A distance measurement's ruler copies its four stopline vertices, in
      order, into the foot's two stoplines, and adds one object. */
  lemma ShowDistanceOverlay(v: View, side: Side, id: string, t: string, ds: Descriptions, bounds: MeasurementVisualization.Box,
                            m: Maths.Functions, intersect: (Vec3, Vec3, MeasurementVisualization.Box) -> Option<Vec3>)
    requires ShowDescription(v, side, id, t, ds, bounds, m, intersect).Some?
    requires t in MeasurementVisualization.DistanceTypes
    ensures var r := ShowDescription(v, side, id, t, ds, bounds, m, intersect).value;
            var u := r.uniforms.Get(side);
            && [u.stopline1P1, u.stopline1P2, u.stopline2P1, u.stopline2P2]
               == MeasurementVisualization.CreateAxisRuler(side, t, ds[DescriptionKey(side, id)], bounds, m, intersect).value.stoplines
            && |r.descriptionRoots.Get(side).children| == |v.descriptionRoots.Get(side).children| + 1
  {
  }

  /** A girth measurement with a plane sets the foot's girth plane to it,
      and adds an object exactly when the description also has a cross
      section; without a plane nothing changes. */
  lemma ShowGirthOverlay(v: View, side: Side, d: Description)
    requires ShowGirth(v, side, d).Some?
    ensures var r := ShowGirth(v, side, d).value;
            && (d.plane.None? ==> r == v)
            && (d.plane.Some? ==> r.uniforms.Get(side).girthPlane == d.plane.value)
            && (d.plane.Some? && d.crossSection.Some? <==>
                  |r.descriptionRoots.Get(side).children| == |v.descriptionRoots.Get(side).children| + 1)
            && (d.plane.None? || d.crossSection.None? <==> r.descriptionRoots == v.descriptionRoots)
  {
    if d.plane.Some? && d.crossSection.Some? {
      AddedChildDiffers(v.descriptionRoots.Get(side), PlaneNode(MeasurementVisualization.CreatePlaneRectangle(d).value));
    }
  }

  /** A type that is neither a distance nor a girth changes nothing. */
  lemma ShowOtherTypeChangesNothing(v: View, side: Side, id: string, t: string, ds: Descriptions, bounds: MeasurementVisualization.Box,
                                    m: Maths.Functions, intersect: (Vec3, Vec3, MeasurementVisualization.Box) -> Option<Vec3>)
    requires id != "" && DescriptionKey(side, id) in ds
    requires t !in MeasurementVisualization.DistanceTypes && t !in MeasurementVisualization.GirthTypes
    ensures ShowDescription(v, side, id, t, ds, bounds, m, intersect) == Some(v)
  {
  }

  /** `removeDescriptions`: the rulers, planes and notes of both feet
      removed, the stoplines and girth plane moved off the foot, the fit
      zone colours cleared, the timer reset and the notes listener
      dropped; nothing else changes. */
  function RemoveDescriptions(v: View): (r: View)
    ensures forall s: Side :: r.descriptionRoots.Get(s) == v.descriptionRoots.Get(s).(children := [])
    ensures forall s: Side :: r.notesRoots.Get(s) == v.notesRoots.Get(s).(children := [])
    ensures forall s: Side :: (r.uniforms.Get(s) ==
      v.uniforms.Get(s).(stopline1P1 := NoStopline, stopline1P2 := NoStopline, stopline2P1 := NoStopline,
                         stopline2P2 := NoStopline, girthPlane := NoGirthPlane, zoneColors := AllZones(White)))
    ensures r.fitZonesStartTime == Some(0.0)
    ensures r.slots.measurement.None? && r.slots.fitZones == v.slots.fitZones
    ensures r.changeListeners == v.changeListeners - Held(v.slots.measurement)
    ensures r == v.(descriptionRoots := r.descriptionRoots, notesRoots := r.notesRoots, uniforms := r.uniforms,
                    fitZonesStartTime := r.fitZonesStartTime, changeListeners := r.changeListeners, slots := r.slots)
    ensures ListenersInSlots(v) ==> ListenersInSlots(r)
  {
    var reset := (u: FootUniforms) =>
      u.(stopline1P1 := NoStopline, stopline1P2 := NoStopline, stopline2P1 := NoStopline,
         stopline2P2 := NoStopline, girthPlane := NoGirthPlane);
    var cleared := FitZonesVisualization.ClearZoneUniforms(Sides(reset(v.uniforms.left), reset(v.uniforms.right)));
    var emptied := v.(
      descriptionRoots := Sides(v.descriptionRoots.left.(children := []), v.descriptionRoots.right.(children := [])),
      notesRoots := Sides(v.notesRoots.left.(children := []), v.notesRoots.right.(children := [])),
      uniforms := cleared,
      fitZonesStartTime := Some(0.0));
    DropListener(emptied, MeasurementInfoPositions)
  }

  /** Removing the descriptions undoes showing one: whatever a successful
      `showDescription` added is gone again. */
  lemma RemoveUndoesShowDescription(v: View, side: Side, id: string, t: string, ds: Descriptions,
                                    bounds: MeasurementVisualization.Box, m: Maths.Functions,
                                    intersect: (Vec3, Vec3, MeasurementVisualization.Box) -> Option<Vec3>)
    requires ShowDescription(v, side, id, t, ds, bounds, m, intersect).Some?
    ensures RemoveDescriptions(ShowDescription(v, side, id, t, ds, bounds, m, intersect).value) == RemoveDescriptions(v)
  {
    var d := ds[DescriptionKey(side, id)];
    if t in MeasurementVisualization.DistanceTypes {
      RemoveUndoesRuler(v, side, MeasurementVisualization.CreateAxisRuler(side, t, d, bounds, m, intersect).value);
    } else if t in MeasurementVisualization.GirthTypes && d.plane.Some? {
      var outline := if d.crossSection.Some? then MeasurementVisualization.CreatePlaneRectangle(d) else None;
      RemoveUndoesGirthPlane(v, side, d.plane.value, outline);
    }
  }

  lemma RemoveUndoesRuler(v: View, side: Side, ruler: MeasurementVisualization.Ruler)
    requires |ruler.stoplines| == 4
    ensures RemoveDescriptions(AddRuler(v, side, ruler)) == RemoveDescriptions(v)
  {
    var a, b := RemoveDescriptions(AddRuler(v, side, ruler)), RemoveDescriptions(v);
    SidesEqual(a.uniforms, b.uniforms, side);
    SidesEqual(a.descriptionRoots, b.descriptionRoots, side);
  }

  lemma RemoveUndoesGirthPlane(v: View, side: Side, plane: Vec4, outline: Option<seq<Vec3>>)
    ensures RemoveDescriptions(AddGirthPlane(v, side, plane, outline)) == RemoveDescriptions(v)
  {
    var a, b := RemoveDescriptions(AddGirthPlane(v, side, plane, outline)), RemoveDescriptions(v);
    SidesEqual(a.uniforms, b.uniforms, side);
    SidesEqual(a.descriptionRoots, b.descriptionRoots, side);
  }

  /** Two pairs agreeing on both sides are equal. */
  lemma SidesEqual<T>(a: Sides<T>, b: Sides<T>, side: Side)
    requires a.Get(side) == b.Get(side) && a.Get(Other(side)) == b.Get(Other(side))
    ensures a == b
  {
  }

  /** `showDescriptionNotes` of one foot: the measurement's info points
      added to the foot's notes root, its fit zone highlighted on both
      feet, the timer started, and the notes listener replaced.  A missing
      description, or a zone that cannot be highlighted, is a failure. */
  function ShowDescriptionNotes(v: View, side: Side, id: string, t: string, ds: Descriptions, now: real, highlight: Vec3)
    : (r: Option<View>)
    ensures r.Some? <==>
      DescriptionKey(side, id) in ds && MeasurementVisualization.UpdateMeasurementZoneUniforms(v.uniforms, t, ds, highlight).Some?
    ensures r.Some? ==>
      && r.value.notesRoots.Get(side) == AddChild(v.notesRoots.Get(side), MeasurementVisualization.MeasurementInfoPoints(t, ds[DescriptionKey(side, id)]))
      && r.value.notesRoots.Get(Other(side)) == v.notesRoots.Get(Other(side))
      && r.value.uniforms == MeasurementVisualization.UpdateMeasurementZoneUniforms(v.uniforms, t, ds, highlight).value
      && r.value.fitZonesStartTime == Some(now)
      && r.value.slots.measurement == Some(Listener(MeasurementInfoPositions, v.closuresMade))
      && r.value.slots.fitZones == v.slots.fitZones
      && r.value.changeListeners == v.changeListeners - Held(v.slots.measurement) + {Listener(MeasurementInfoPositions, v.closuresMade)}
    ensures r.Some? ==> (r.value.descriptionRoots == v.descriptionRoots && r.value.fitZoneRoots == v.fitZoneRoots
                         && r.value.annotationRoots == v.annotationRoots && r.value.colorMode == v.colorMode)
    ensures r.Some? && ListenersInSlots(v) ==> ListenersInSlots(r.value)
  {
    var d :- DescriptionOf(ds, side, id);
    var uniforms :- MeasurementVisualization.UpdateMeasurementZoneUniforms(v.uniforms, t, ds, highlight);
    var noted := v.(notesRoots := v.notesRoots.Set(side, AddChild(v.notesRoots.Get(side), MeasurementVisualization.MeasurementInfoPoints(t, d))),
                    uniforms := uniforms,
                    fitZonesStartTime := Some(now));
    Some(ReplaceListener(noted, MeasurementInfoPositions))
  }

  /** The view `showDescriptionNotes` leaves, whether or not it throws:
      the info points are added before the zone is highlighted, so a zone
      that cannot be highlighted leaves them added and changes nothing
      else; a missing description changes nothing. */
  function AfterShowDescriptionNotes(v: View, side: Side, id: string, t: string, ds: Descriptions, now: real, highlight: Vec3)
    : (r: View)
    ensures ShowDescriptionNotes(v, side, id, t, ds, now, highlight).Some? ==>
      r == ShowDescriptionNotes(v, side, id, t, ds, now, highlight).value
    ensures DescriptionKey(side, id) !in ds ==> r == v
    ensures DescriptionKey(side, id) in ds && ShowDescriptionNotes(v, side, id, t, ds, now, highlight).None? ==>
      && r.notesRoots.Get(side) == AddChild(v.notesRoots.Get(side), MeasurementVisualization.MeasurementInfoPoints(t, ds[DescriptionKey(side, id)]))
      && r.notesRoots.Get(Other(side)) == v.notesRoots.Get(Other(side))
      && r == v.(notesRoots := r.notesRoots)
  {
    match ShowDescriptionNotes(v, side, id, t, ds, now, highlight)
    case Some(shown) => shown
    case None =>
      match DescriptionOf(ds, side, id)
      case None => v
      case Some(d) =>
        v.(notesRoots := v.notesRoots.Set(side, AddChild(v.notesRoots.Get(side), MeasurementVisualization.MeasurementInfoPoints(t, d))))
  }

  /** What the notes listener reports each time the camera moves. */
  function NotesPositions(v: View, project: Node -> Vec3, width: real, height: real)
    : Option<Sides<map<string, Option<CanvasPoint>>>>
  {
    MeasurementVisualization.MeasurementCanvasPositions(v.notesRoots, project, width, height)
  }

  /** `showDescriptionInMesh`: the description of both feet, then, when
      there are notes, the notes of both feet. */
  function ShowDescriptionInMesh(v: View, id: string, t: string, notes: string, ds: Descriptions,
                                 bounds: Sides<MeasurementVisualization.Box>, m: Maths.Functions,
                                 intersect: (Vec3, Vec3, MeasurementVisualization.Box) -> Option<Vec3>,
                                 now: real, highlight: Vec3): (r: Option<View>)
    ensures r.Some? ==> id != "" && DescriptionKey(Left, id) in ds && DescriptionKey(Right, id) in ds
    ensures r.Some? && notes == "" ==> r.value.notesRoots == v.notesRoots && r.value.slots == v.slots
    ensures r.Some? && notes != "" ==>
      && r.value.notesRoots ==
         Sides(AddChild(v.notesRoots.left, MeasurementVisualization.MeasurementInfoPoints(t, ds[DescriptionKey(Left, id)])),
               AddChild(v.notesRoots.right, MeasurementVisualization.MeasurementInfoPoints(t, ds[DescriptionKey(Right, id)])))
      && r.value.slots.measurement == Some(Listener(MeasurementInfoPositions, v.closuresMade + 1))
  {
    var left :- ShowDescription(v, Left, id, t, ds, bounds.left, m, intersect);
    var both :- ShowDescription(left, Right, id, t, ds, bounds.right, m, intersect);
    if notes == "" then Some(both)
    else
      var leftNotes :- ShowDescriptionNotes(both, Left, id, t, ds, now, highlight);
      ShowDescriptionNotes(leftNotes, Right, id, t, ds, now, highlight)
  }

  /** The view `showDescriptionInMesh` leaves, whether or not it throws:
      each step's writes stay when a later step throws. */
  function AfterShowDescriptionInMesh(v: View, id: string, t: string, notes: string, ds: Descriptions,
                                      bounds: Sides<MeasurementVisualization.Box>, m: Maths.Functions,
                                      intersect: (Vec3, Vec3, MeasurementVisualization.Box) -> Option<Vec3>, now: real, highlight: Vec3): (r: View)
    ensures ShowDescriptionInMesh(v, id, t, notes, ds, bounds, m, intersect, now, highlight).Some? ==>
      r == ShowDescriptionInMesh(v, id, t, notes, ds, bounds, m, intersect, now, highlight).value
    ensures ShowDescription(v, Left, id, t, ds, bounds.left, m, intersect).None? ==>
      r == AfterShowDescription(v, Left, id, t, ds, bounds.left, m, intersect)
  {
    var left := AfterShowDescription(v, Left, id, t, ds, bounds.left, m, intersect);
    if ShowDescription(v, Left, id, t, ds, bounds.left, m, intersect).None? then left
    else
      var both := AfterShowDescription(left, Right, id, t, ds, bounds.right, m, intersect);
      if ShowDescription(left, Right, id, t, ds, bounds.right, m, intersect).None? || notes == "" then both
      else
        var leftNotes := AfterShowDescriptionNotes(both, Left, id, t, ds, now, highlight);
        if ShowDescriptionNotes(both, Left, id, t, ds, now, highlight).None? then leftNotes
        else AfterShowDescriptionNotes(leftNotes, Right, id, t, ds, now, highlight)
  }

  /** A throw on the right foot keeps what was shown on the left one. */
  lemma RightFailureKeepsLeft(v: View, id: string, t: string, notes: string, ds: Descriptions,
                              bounds: Sides<MeasurementVisualization.Box>, m: Maths.Functions,
                              intersect: (Vec3, Vec3, MeasurementVisualization.Box) -> Option<Vec3>, now: real, highlight: Vec3)
    requires ShowDescription(v, Left, id, t, ds, bounds.left, m, intersect).Some?
    requires ShowDescription(ShowDescription(v, Left, id, t, ds, bounds.left, m, intersect).value,
                             Right, id, t, ds, bounds.right, m, intersect).None?
    ensures var left := ShowDescription(v, Left, id, t, ds, bounds.left, m, intersect).value;
            var r := AfterShowDescriptionInMesh(v, id, t, notes, ds, bounds, m, intersect, now, highlight);
            && ShowDescriptionInMesh(v, id, t, notes, ds, bounds, m, intersect, now, highlight).None?
            && r.descriptionRoots.left == left.descriptionRoots.left
            && r.uniforms.left == left.uniforms.left
            && r.notesRoots == v.notesRoots
  {
    var left := ShowDescription(v, Left, id, t, ds, bounds.left, m, intersect).value;
    var r := AfterShowDescription(left, Right, id, t, ds, bounds.right, m, intersect);
    assert r.uniforms.Get(Other(Right)) == left.uniforms.Get(Other(Right));
  }

  /** Adding a child changes a node. */
  lemma AddedChildDiffers(parent: Node, child: Node)
    ensures AddChild(parent, child) != parent
  {
    assert |AddChild(parent, child).children| == |parent.children| + 1;
  }

  /** Showing a noted measurement on a view without notes places each
      foot's card at the last marker of the foot's description, as
      reported by the listener just registered. */
  lemma NotesPlacedAtLastMarker(v: View, id: string, t: string, ds: Descriptions, bounds: Sides<MeasurementVisualization.Box>,
                                m: Maths.Functions, intersect: (Vec3, Vec3, MeasurementVisualization.Box) -> Option<Vec3>,
                                now: real, highlight: Vec3, project: Node -> Vec3, width: real, height: real,
                                described: Sides<Description>, s: Side)
    requires v.notesRoots == EmptyRoots
    requires ShowDescriptionInMesh(v, id, t, "notes", ds, bounds, m, intersect, now, highlight).Some?
    requires described == Sides(ds[DescriptionKey(Left, id)], ds[DescriptionKey(Right, id)])
    requires |described.left.markers| > 0 && |described.right.markers| > 0
    ensures var r := ShowDescriptionInMesh(v, id, t, "notes", ds, bounds, m, intersect, now, highlight).value;
            var markers := described.Get(s).markers;
            var reported := NotesPositions(r, project, width, height);
            && r.slots.measurement.Some?
            && reported.Some? && t in reported.value.Get(s)
            && reported.value.Get(s)[t] ==
               Some(ToCanvasPosition(project(MeasurementVisualization.InfoPoint(t, markers[|markers| - 1])), width, height))
  {
    var r := ShowDescriptionInMesh(v, id, t, "notes", ds, bounds, m, intersect, now, highlight).value;
    CardsAtLastMarkers(r, t, described, project, width, height, s);
  }

  /** Notes roots holding exactly the info points of each foot's
      description report each card at the foot's last marker. */
  lemma CardsAtLastMarkers(r: View, t: string, described: Sides<Description>, project: Node -> Vec3,
                           width: real, height: real, s: Side)
    requires |described.left.markers| > 0 && |described.right.markers| > 0
    requires r.notesRoots == Sides(AddChild(Group(""), MeasurementVisualization.MeasurementInfoPoints(t, described.left)),
                                   AddChild(Group(""), MeasurementVisualization.MeasurementInfoPoints(t, described.right)))
    ensures var markers := described.Get(s).markers;
            var reported := NotesPositions(r, project, width, height);
            && reported.Some? && t in reported.value.Get(s)
            && reported.value.Get(s)[t] ==
               Some(ToCanvasPosition(project(MeasurementVisualization.InfoPoint(t, markers[|markers| - 1])), width, height))
  {
    MeasurementVisualization.NotesCardPosition(t, described, project, width, height, s);
  }

  // ---------------------------------------------------------------------
  // The fit-zone overlay

  /** `showFitZones`: fit-zone colours on, the timer started, the anchors
      created or updated and the zone uniforms set, and the fit-zone
      listener replaced.  Descriptions without the zones' markers are a
      failure. */
  function ShowFitZones(v: View, classes: Zones<Value>, ds: Descriptions, now: real, fitColor: Value -> Vec3): (r: Option<View>)
    ensures r.Some? <==> FitZonesVisualization.FitZoneInfoPositions(ds).Some?
    ensures r.Some? ==>
      var shown := FitZonesVisualization.VisualizeFitZones(v.fitZoneRoots, v.uniforms, classes, ds, fitColor).value;
      && r.value.colorMode == FitZoneColors
      && r.value.fitZonesStartTime == Some(now)
      && r.value.fitZoneRoots == shown.0 && r.value.uniforms == shown.1
      && r.value.slots.fitZones == Some(Listener(FitZonesPositions, v.closuresMade))
      && r.value.slots.measurement == v.slots.measurement
      && r.value.descriptionRoots == v.descriptionRoots && r.value.notesRoots == v.notesRoots
    ensures r.Some? && ListenersInSlots(v) ==> ListenersInSlots(r.value)
  {
    var shown :- FitZonesVisualization.VisualizeFitZones(v.fitZoneRoots, v.uniforms, classes, ds, fitColor);
    Some(ReplaceListener(v.(colorMode := FitZoneColors, fitZonesStartTime := Some(now),
                            fitZoneRoots := shown.0, uniforms := shown.1), FitZonesPositions))
  }

  /** The view `showFitZones` leaves, whether or not it throws: the colour
      mode and the timer are set before the anchors are read, so missing
      markers leave both set and change nothing else. */
  function AfterShowFitZones(v: View, classes: Zones<Value>, ds: Descriptions, now: real, fitColor: Value -> Vec3): (r: View)
    ensures ShowFitZones(v, classes, ds, now, fitColor).Some? ==> r == ShowFitZones(v, classes, ds, now, fitColor).value
    ensures r.colorMode == FitZoneColors && r.fitZonesStartTime == Some(now)
    ensures ShowFitZones(v, classes, ds, now, fitColor).None? ==>
      r == v.(colorMode := r.colorMode, fitZonesStartTime := r.fitZonesStartTime)
  {
    match ShowFitZones(v, classes, ds, now, fitColor)
    case Some(shown) => shown
    case None => v.(colorMode := FitZoneColors, fitZonesStartTime := Some(now))
  }

  /** `removeFitZones`: the zone colours cleared, the anchors removed, the
      fit-zone listener dropped, default colours and the timer reset. */
  function RemoveFitZones(v: View): (r: View)
    ensures r.uniforms == FitZonesVisualization.ClearZoneUniforms(v.uniforms)
    ensures forall s: Side :: r.fitZoneRoots.Get(s) == v.fitZoneRoots.Get(s).(children := [])
    ensures r.colorMode == DefaultColors && r.fitZonesStartTime == Some(0.0)
    ensures r.slots.fitZones.None? && r.slots.measurement == v.slots.measurement
    ensures r.changeListeners == v.changeListeners - Held(v.slots.fitZones)
    ensures r == v.(uniforms := r.uniforms, fitZoneRoots := r.fitZoneRoots, colorMode := r.colorMode,
                    fitZonesStartTime := r.fitZonesStartTime, changeListeners := r.changeListeners, slots := r.slots)
    ensures ListenersInSlots(v) ==> ListenersInSlots(r)
  {
    var cleared := v.(uniforms := FitZonesVisualization.ClearZoneUniforms(v.uniforms),
                      fitZoneRoots := Sides(v.fitZoneRoots.left.(children := []), v.fitZoneRoots.right.(children := [])));
    DropListener(cleared, FitZonesPositions).(colorMode := DefaultColors, fitZonesStartTime := Some(0.0))
  }

  /** What the fit-zone listener reports each time the camera moves. */
  function FitZonePositions(v: View, project: Node -> Vec3, width: real, height: real)
    : Option<Sides<map<string, Option<CanvasPoint>>>>
  {
    FitZonesVisualization.AnchorCanvasPositions(v.fitZoneRoots, project, width, height)
  }

  /** Removing the fit zones undoes showing them: back to default colours,
      no anchors, no fit-zone listener, and nothing for it to report; the
      measurement overlays are untouched. */
  lemma RemoveUndoesShowFitZones(v: View, classes: Zones<Value>, ds: Descriptions, now: real, fitColor: Value -> Vec3,
                                 project: Node -> Vec3, width: real, height: real)
    requires ListenersInSlots(v)
    requires ShowFitZones(v, classes, ds, now, fitColor).Some?
    ensures var r := RemoveFitZones(ShowFitZones(v, classes, ds, now, fitColor).value);
            && r.colorMode == DefaultColors
            && r.slots.fitZones.None? && ListenersInSlots(r)
            && (forall l :: l in r.changeListeners ==> l.slot == MeasurementInfoPositions)
            && FitZonePositions(r, project, width, height).None?
            && r.descriptionRoots == v.descriptionRoots && r.notesRoots == v.notesRoots
            && r.slots.measurement == v.slots.measurement
  {
  }

  // ---------------------------------------------------------------------
  // Paint

  /** The scan viewer's `paint`: the base schedule, and each foot's
      fit-zone time, the seconds since the fit zones or notes were shown
      (zero while that time is unset or zero). */
  function Paint(v: View, line: LineUniforms, shadows: Sides<real>, hasContainer: bool, now: real,
                 feetLoaded: Option<real>, visible: Sides<bool>): (r: MeshView.Frame)
    ensures !hasContainer ==> r == MeshView.Frame(v.uniforms, line, shadows)
    ensures hasContainer ==> forall s: Side ::
      && r.feet.Get(s).timeFitZones == MeshView.SinceLoaded(now, v.fitZonesStartTime)
      && r.feet.Get(s) == MeshView.Paint(MeshView.Frame(v.uniforms, line, shadows), MeshView.ScanTiming, true, now, feetLoaded, visible)
                            .feet.Get(s).(timeFitZones := r.feet.Get(s).timeFitZones)
    ensures r.line == MeshView.Paint(MeshView.Frame(v.uniforms, line, shadows), MeshView.ScanTiming, hasContainer, now, feetLoaded, visible).line
    ensures r.shadows == MeshView.Paint(MeshView.Frame(v.uniforms, line, shadows), MeshView.ScanTiming, hasContainer, now, feetLoaded, visible).shadows
  {
    var base := MeshView.Paint(MeshView.Frame(v.uniforms, line, shadows), MeshView.ScanTiming, hasContainer, now, feetLoaded, visible);
    if !hasContainer then base
    else
      var t := MeshView.SinceLoaded(now, v.fitZonesStartTime);
      base.(feet := Sides(base.feet.left.(timeFitZones := t), base.feet.right.(timeFitZones := t)))
  }

  /** The fit-zone timer counts from when the zones are shown and is back
      at zero once they are removed. */
  lemma FitZoneTimer(v: View, classes: Zones<Value>, ds: Descriptions, shownAt: real, fitColor: Value -> Vec3,
                     line: LineUniforms, shadows: Sides<real>, now: real, feetLoaded: Option<real>, visible: Sides<bool>, s: Side)
    requires shownAt != 0.0
    requires ShowFitZones(v, classes, ds, shownAt, fitColor).Some?
    ensures var shown := ShowFitZones(v, classes, ds, shownAt, fitColor).value;
            && Paint(shown, line, shadows, true, now, feetLoaded, visible).feet.Get(s).timeFitZones == now - shownAt
            && Paint(RemoveFitZones(shown), line, shadows, true, now, feetLoaded, visible).feet.Get(s).timeFitZones == 0.0
  {
  }

  // ---------------------------------------------------------------------
  // Foot annotations

  /** `FootAnnotationData`. */
  datatype Annotation = Annotation(text: string, footSide: Side, pointInFoot: Vec3)

  const AnnotationName := "annotation"

  /** The point object of the i-th annotation: named 'annotation', its id
      the index, its one point where the annotation is on the foot. */
  function AnnotationNode(a: Annotation, i: nat): Node {
    Node(AnnotationName, Origin, map["annotation_id" := Num(i as real)], [a.pointInFoot], [])
  }

  /** The indices of the annotations on one foot, in order. */
  function SideIndices(annotations: seq<Annotation>, side: Side): (r: seq<nat>)
    ensures forall k :: 0 <= k < |r| ==> r[k] < |annotations| && annotations[r[k]].footSide == side
    ensures forall k, l :: 0 <= k < l < |r| ==> r[k] < r[l]
  {
    if |annotations| == 0 then []
    else
      var last := |annotations| - 1;
      var earlier := SideIndices(annotations[..last], side);
      assert forall k :: 0 <= k < |earlier| ==> annotations[earlier[k]] == annotations[..last][earlier[k]];
      if annotations[last].footSide == side then earlier + [last] else earlier
  }

  /** Every annotation on a foot is among that foot's indices. */
  lemma {:induction false} EveryAnnotationIndexed(annotations: seq<Annotation>, side: Side, i: nat)
    requires i < |annotations| && annotations[i].footSide == side
    ensures i in SideIndices(annotations, side)
  {
    var last := |annotations| - 1;
    if i < last {
      assert annotations[..last][i] == annotations[i];
      EveryAnnotationIndexed(annotations[..last], side, i);
    }
  }

  /** The annotation objects under one foot's root. */
  function AnnotationNodes(annotations: seq<Annotation>, side: Side): seq<Node> {
    var indices := SideIndices(annotations, side);
    seq(|indices|, k requires 0 <= k < |indices| => AnnotationNode(annotations[indices[k]], indices[k]))
  }

  /** `updateFootAnnotations`: each foot's annotations replaced by the
      given ones on that foot, in order; nothing else changes. */
  function UpdateFootAnnotations(v: View, annotations: seq<Annotation>): (r: View)
    ensures forall s: Side :: r.annotationRoots.Get(s) == v.annotationRoots.Get(s).(children := AnnotationNodes(annotations, s))
    ensures r == v.(annotationRoots := r.annotationRoots)
  {
    v.(annotationRoots := Sides(v.annotationRoots.left.(children := AnnotationNodes(annotations, Left)),
                                v.annotationRoots.right.(children := AnnotationNodes(annotations, Right))))
  }

  /** Every annotation is placed under its own foot with its index as
      id. */
  lemma AnnotationPlaced(v: View, annotations: seq<Annotation>, i: nat)
    requires i < |annotations|
    ensures AnnotationNode(annotations[i], i) in UpdateFootAnnotations(v, annotations).annotationRoots.Get(annotations[i].footSide).children
  {
    var side := annotations[i].footSide;
    EveryAnnotationIndexed(annotations, side, i);
    var indices := SideIndices(annotations, side);
    var k :| 0 <= k < |indices| && indices[k] == i;
    assert AnnotationNodes(annotations, side)[k] == AnnotationNode(annotations[i], i);
  }

  /** Every object under a foot's annotation root is an annotation of that
      foot, with its index as id. */
  lemma OnlyAnnotationsPlaced(v: View, annotations: seq<Annotation>, s: Side, n: Node)
    requires n in UpdateFootAnnotations(v, annotations).annotationRoots.Get(s).children
    ensures exists j :: 0 <= j < |annotations| && annotations[j].footSide == s && n == AnnotationNode(annotations[j], j)
  {
    var children := UpdateFootAnnotations(v, annotations).annotationRoots.Get(s).children;
    var idx := SideIndices(annotations, s);
    var l :| 0 <= l < |children| && children[l] == n;
    assert n == AnnotationNode(annotations[idx[l]], idx[l]);
  }

  /** A canvas rectangle: its offset on the page and its size. */
  datatype Rect = Rect(left: real, top: real, width: real, height: real)

  /** The click in normalised device coordinates, as `onMouseUp` computes
      it; mapping it back to the canvas gives the click's offset in the
      canvas. */
  function ClickToNdc(clientX: real, clientY: real, rect: Rect): (r: Vec3)
    requires rect.width != 0.0 && rect.height != 0.0
    ensures r.z == 0.0
    ensures ToCanvasPosition(r, rect.width, rect.height) == CanvasPoint(clientX - rect.left, clientY - rect.top)
  {
    var x, y := clientX - rect.left, clientY - rect.top;
    var r := Vec3((x / rect.width) * 2.0 - 1.0, -(y / rect.height) * 2.0 + 1.0, 0.0);
    assert ((r.x + 1.0) * 0.5) * rect.width == x;
    assert ((1.0 - r.y) * 0.5) * rect.height == y;
    r
  }

  /** The foot a ray meets, and where, in the foot's own coordinates. */
  datatype FootHit = FootHit(side: Side, localPoint: Vec3)

  /** What a ray from the camera meets, nearest first: annotation points,
      and foot meshes. */
  datatype Hits = Hits(annotations: seq<Node>, feet: seq<FootHit>)

  /** What a click asks the page to do. */
  datatype Action =
    | NoAction
    | OpenExisting(screenX: real, screenY: real, id: Value)
    | OpenNew(screenX: real, screenY: real, data: Annotation)
    | CloseAnnotation

  /** `checkAnnotationIntersection` (with `addFootAnnotation`): an
      annotation under the click is opened; otherwise a foot under the
      click gets a new, empty annotation; otherwise the open one is
      closed. */
  function CheckAnnotationIntersection(hits: Hits, screenX: real, screenY: real): (r: Action)
    ensures r.OpenExisting? <==> |hits.annotations| > 0
    ensures r.OpenNew? <==> |hits.annotations| == 0 && |hits.feet| > 0
    ensures r.CloseAnnotation? <==> |hits.annotations| == 0 && |hits.feet| == 0
    ensures r.OpenExisting? ==> r == OpenExisting(screenX, screenY, Get(hits.annotations[0].userData, "annotation_id"))
    ensures r.OpenNew? ==> r.data == Annotation("", hits.feet[0].side, hits.feet[0].localPoint)
    ensures !r.NoAction? && !r.CloseAnnotation? ==> r.screenX == screenX && r.screenY == screenY
  {
    if |hits.annotations| > 0 then OpenExisting(screenX, screenY, Get(hits.annotations[0].userData, "annotation_id"))
    else if |hits.feet| == 0 then CloseAnnotation
    else OpenNew(screenX, screenY, Annotation("", hits.feet[0].side, hits.feet[0].localPoint))
  }

  /** `onMouseUp`: in annotation mode, the ray through the click decides
      the action; otherwise a click does nothing. */
  function OnMouseUp(v: View, clientX: real, clientY: real, rect: Rect, cast: Vec3 -> Hits): (r: Action)
    requires rect.width != 0.0 && rect.height != 0.0
    ensures !v.annotationMode ==> r == NoAction
    ensures v.annotationMode ==> r == CheckAnnotationIntersection(cast(ClickToNdc(clientX, clientY, rect)), clientX, clientY)
  {
    if v.annotationMode then CheckAnnotationIntersection(cast(ClickToNdc(clientX, clientY, rect)), clientX, clientY)
    else NoAction
  }

  /** `initFootAnnotation`: clicks annotate from now on. */
  function InitFootAnnotation(v: View): (r: View)
    ensures r.annotationMode && r == v.(annotationMode := true)
  {
    v.(annotationMode := true)
  }

  /** A click on one of the annotations shown opens it by its index:
      the annotation the page opens is the one the object was made from. */
  lemma ClickOpensShownAnnotation(v: View, annotations: seq<Annotation>, clientX: real, clientY: real, rect: Rect,
                                  cast: Vec3 -> Hits, s: Side)
    requires rect.width != 0.0 && rect.height != 0.0
    requires v.annotationMode
    requires var hits := cast(ClickToNdc(clientX, clientY, rect));
             |hits.annotations| > 0 && hits.annotations[0] in UpdateFootAnnotations(v, annotations).annotationRoots.Get(s).children
    ensures var r := OnMouseUp(UpdateFootAnnotations(v, annotations), clientX, clientY, rect, cast);
            exists j :: 0 <= j < |annotations| && annotations[j].footSide == s &&
                        r == OpenExisting(clientX, clientY, Num(j as real))
  {
    var n := cast(ClickToNdc(clientX, clientY, rect)).annotations[0];
    OnlyAnnotationsPlaced(v, annotations, s, n);
  }
}
