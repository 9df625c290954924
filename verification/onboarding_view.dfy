/** The onboarding viewer (`OnboardingMeshView`): the scene is shifted by
    a fixed offset, the controls look at the shifted feet, the paint loop
    runs a faster schedule and also animates the background ground, whose
    accent colour is always opaque.

    Fetching the scene file is a parameter: its parsed content, or nothing
    when the fetch or the parse fails. */
module OnboardingView {
  import opened Wrappers
  import opened Vectors
  import opened Feet
  import opened ThreeTools
  import OrbitControls
  import MeshView

  /** `SCENE_OBJECTS_TRANSLATE_X` and `SCENE_OBJECTS_TRANSLATE_Y`. */
  const SceneOffset := Vec3(0.2, 0.1, 0.0)

  /** The onboarding paint constants: mesh lines and feet both after a
      tenth of a second, a fast cutoff, slow shadows, and the wave after a
      tenth of a second. */
  const OnboardingTiming := MeshView.Timing(0.1, 0.1, 0.3, 0.1, 0.1)

  // ---------------------------------------------------------------------
  // Controls and materials

  /** `setupControls`: the viewer's controls, looking at the shifted
      scene. */
  function SetupControls(c: OrbitControls.Controls): (r: OrbitControls.Controls)
    ensures r.target == Vec3(SceneOffset.x, 0.0, 0.0)
    ensures r == MeshView.SetupControls(c).(target := r.target)
  {
    MeshView.SetupControls(c).(target := Vec3(SceneOffset.x, 0.0, 0.0))
  }

  /** `updateMaterials` for the background ground: when its material
      exists, its accent colour is the page's colour made opaque. */
  function UpdateGroundAccent(accent: Option<Vec4>, pageColor: Vec4): (r: Option<Vec4>)
    ensures r.Some? <==> accent.Some?
    ensures r.Some? ==> r.value.w == 1.0 && r.value == pageColor.(w := 1.0)
  {
    if accent.Some? then Some(pageColor.(w := 1.0)) else None
  }

  // ---------------------------------------------------------------------
  // The scene file

  /** A root's placement: its matrix and whether THREE recomputes it. */
  datatype Placement = Placement(matrix: Matrix, autoUpdate: bool)

  /** The roots the scene file places: each foot's and the base plate's. */
  datatype SceneRoots = SceneRoots(feet: Sides<Placement>, basePlate: Placement)

  /** The matrices of a scene file, each missing when the file lacks it. */
  datatype SceneFile = SceneFile(leftFoot: Option<seq<seq<real>>>, rightFoot: Option<seq<seq<real>>>,
                                 ground: Option<seq<seq<real>>>)

  /** A matrix is present in the file and can be read. */
  predicate Readable(value: Option<seq<seq<real>>>) {
    value.Some? && ParseMatrix(value.value).Some?
  }

  /** All three matrices of the file can be read. */
  predicate AllReadable(f: SceneFile) {
    Readable(f.leftFoot) && Readable(f.rightFoot) && Readable(f.ground)
  }

  /** `matrix.makeTranslation(offset).multiply(parseMatrix(value))`: the
      translation is set first, so a value that cannot be read leaves the
      root at the bare offset and stops the load. */
  function Place(p: Placement, value: Option<seq<seq<real>>>): (r: (Placement, bool))
    ensures r.1 <==> Readable(value)
    ensures r.1 ==> r.0 == p.(matrix := Multiply(Translation(SceneOffset), ParseMatrix(value.value).value))
    ensures !r.1 ==> r.0 == p.(matrix := Translation(SceneOffset))
  {
    match value
    case Some(rows) =>
      (match ParseMatrix(rows)
       case Some(m) => (p.(matrix := Multiply(Translation(SceneOffset), m)), true)
       case None => (p.(matrix := Translation(SceneOffset)), false))
    case None => (p.(matrix := Translation(SceneOffset)), false)
  }

  /** `loadSceneFile`: the left foot, the right foot and the base plate
      are placed in turn, and when all three are read, none of them is
      recomputed any more.  A failed fetch changes nothing; a failure
      part-way keeps what was set before it.  The success callback runs
      either way. */
  function LoadSceneFile(roots: SceneRoots, file: Option<SceneFile>): (r: SceneRoots)
    ensures file.None? ==> r == roots
    ensures file.Some? ==> r.feet.left.matrix == Place(roots.feet.left, file.value.leftFoot).0.matrix
    ensures file.Some? && !Readable(file.value.leftFoot) ==>
      r.feet.right == roots.feet.right && r.basePlate == roots.basePlate
    ensures file.Some? && Readable(file.value.leftFoot) ==>
      r.feet.right.matrix == Place(roots.feet.right, file.value.rightFoot).0.matrix
    ensures file.Some? && Readable(file.value.leftFoot) && !Readable(file.value.rightFoot) ==>
      r.basePlate == roots.basePlate
    ensures file.Some? && Readable(file.value.leftFoot) && Readable(file.value.rightFoot) ==>
      r.basePlate.matrix == Place(roots.basePlate, file.value.ground).0.matrix
    ensures file.Some? && AllReadable(file.value) ==>
      !r.feet.left.autoUpdate && !r.feet.right.autoUpdate && !r.basePlate.autoUpdate
    ensures file.None? || !AllReadable(file.value) ==>
      && r.feet.left.autoUpdate == roots.feet.left.autoUpdate
      && r.feet.right.autoUpdate == roots.feet.right.autoUpdate
      && r.basePlate.autoUpdate == roots.basePlate.autoUpdate
  {
    match file
    case None => roots
    case Some(f) =>
      var (left, leftRead) := Place(roots.feet.left, f.leftFoot);
      if !leftRead then roots.(feet := roots.feet.(left := left))
      else
        var (right, rightRead) := Place(roots.feet.right, f.rightFoot);
        if !rightRead then roots.(feet := Sides(left, right))
        else
          var (plate, plateRead) := Place(roots.basePlate, f.ground);
          if !plateRead then SceneRoots(Sides(left, right), plate)
          else SceneRoots(Sides(left.(autoUpdate := false), right.(autoUpdate := false)), plate.(autoUpdate := false))
  }

  /** The file written from three matrices places each root at the offset
      times its matrix, frozen. */
  lemma LoadWrittenScene(roots: SceneRoots, left: Matrix, right: Matrix, ground: Matrix)
    ensures var r := LoadSceneFile(roots, Some(SceneFile(Some(Rows(left)), Some(Rows(right)), Some(Rows(ground)))));
            && r.feet.left == Placement(Multiply(Translation(SceneOffset), left), false)
            && r.feet.right == Placement(Multiply(Translation(SceneOffset), right), false)
            && r.basePlate == Placement(Multiply(Translation(SceneOffset), ground), false)
  {
    ParseRows(left);
    ParseRows(right);
    ParseRows(ground);
  }

  /** A file missing the left foot's matrix leaves that root at the bare
      offset and the rest as they were. */
  lemma LoadWithoutLeftFoot(roots: SceneRoots, f: SceneFile)
    requires f.leftFoot.None?
    ensures LoadSceneFile(roots, Some(f)) == roots.(feet := roots.feet.(left := roots.feet.left.(matrix := Translation(SceneOffset))))
  {
  }

  /** Translating after the scene matrix moves its last column by the
      offset and leaves the rest. */
  lemma TranslationMovesLastColumn(t: Vec3, m: Matrix)
    requires At(m, 3, 0) == 0.0 && At(m, 3, 1) == 0.0 && At(m, 3, 2) == 0.0 && At(m, 3, 3) == 1.0
    ensures var r := Multiply(Translation(t), m);
            && (forall row, column :: 0 <= row < 4 && 0 <= column < 3 ==> At(r, row, column) == At(m, row, column))
            && At(r, 0, 3) == At(m, 0, 3) + t.x && At(r, 1, 3) == At(m, 1, 3) + t.y && At(r, 2, 3) == At(m, 2, 3) + t.z
            && At(r, 3, 3) == 1.0
  {
    TranslatedCells(t, m);
    LastRowKept(Multiply(Translation(t), m), m, t);
  }

  /** Each element of a translated matrix gains the offset's coordinate
      for its row times the bottom element of its column. */
  lemma TranslatedCells(t: Vec3, m: Matrix)
    ensures forall row, column :: 0 <= row < 4 && 0 <= column < 4 ==>
      At(Multiply(Translation(t), m), row, column) == At(m, row, column) + Offset(t, row) * At(m, 3, column)
  {
    var tr := Translation(t);
    TranslationEntries(t);
    forall row, column | 0 <= row < 4 && 0 <= column < 4
      ensures At(Multiply(tr, m), row, column) == At(m, row, column) + Offset(t, row) * At(m, 3, column)
    {
      TranslatedCell(tr, m, t, row, column);
    }
  }

  /** With the bottom row (0, 0, 0, 1), only the last column moves. */
  lemma LastRowKept(r: Matrix, m: Matrix, t: Vec3)
    requires At(m, 3, 0) == 0.0 && At(m, 3, 1) == 0.0 && At(m, 3, 2) == 0.0 && At(m, 3, 3) == 1.0
    requires forall row, column :: 0 <= row < 4 && 0 <= column < 4 ==>
      At(r, row, column) == At(m, row, column) + Offset(t, row) * At(m, 3, column)
    ensures forall row, column :: 0 <= row < 4 && 0 <= column < 3 ==> At(r, row, column) == At(m, row, column)
    ensures At(r, 0, 3) == At(m, 0, 3) + t.x && At(r, 1, 3) == At(m, 1, 3) + t.y && At(r, 2, 3) == At(m, 2, 3) + t.z
    ensures At(r, 3, 3) == 1.0
  {
    forall row, column | 0 <= row < 4 && 0 <= column < 3
      ensures At(r, row, column) == At(m, row, column)
    {
      assert At(m, 3, column) == 0.0 by {
        if column == 0 {} else if column == 1 {} else {}
      }
    }
  }

  /** The offset's coordinate for a row of the last column; zero for the
      bottom row. */
  function Offset(t: Vec3, row: nat): real {
    if row == 0 then t.x else if row == 1 then t.y else if row == 2 then t.z else 0.0
  }

  /** A translation is the identity with the offset in its last column. */
  lemma TranslationEntries(t: Vec3)
    ensures forall row, column :: 0 <= row < 4 && 0 <= column < 4 ==>
      At(Translation(t), row, column) == if column == 3 && row < 3 then Offset(t, row) else if row == column then 1.0 else 0.0
  {
  }

  /** An element of a product with a translation on the left. */
  lemma TranslatedCell(tr: Matrix, m: Matrix, t: Vec3, row: nat, column: nat)
    requires row < 4 && column < 4
    requires forall row, column :: 0 <= row < 4 && 0 <= column < 4 ==>
      At(tr, row, column) == if column == 3 && row < 3 then Offset(t, row) else if row == column then 1.0 else 0.0
    ensures Cell(tr, m, row, column) == At(m, row, column) + Offset(t, row) * At(m, 3, column)
  {
    assert At(tr, row, 0) == (if row == 0 then 1.0 else 0.0);
    assert At(tr, row, 1) == (if row == 1 then 1.0 else 0.0);
    assert At(tr, row, 2) == (if row == 2 then 1.0 else 0.0);
    assert At(tr, row, 3) == (if row == 3 then 1.0 else Offset(t, row));
  }

  // ---------------------------------------------------------------------
  // Paint

  /** The background ground's two animated times: the ground's and its
      grid lines'. */
  datatype GroundTimes = GroundTimes(ground: real, lines: real)

  /** The onboarding `paint`: the base schedule with the onboarding
      constants; once the wave starts, the background ground and its lines
      run on the wave's clock, and before that they keep whatever time
      they had. */
  function Paint(f: MeshView.Frame, g: GroundTimes, hasContainer: bool, now: real, feetLoaded: Option<real>, visible: Sides<bool>)
    : (r: (MeshView.Frame, GroundTimes))
    ensures r.0 == MeshView.Paint(f, OnboardingTiming, hasContainer, now, feetLoaded, visible)
    ensures !hasContainer || MeshView.SinceLoaded(now, feetLoaded) < 0.1 ==> r.1 == g
    ensures hasContainer && MeshView.SinceLoaded(now, feetLoaded) >= 0.1 ==>
      r.1 == GroundTimes(MeshView.SinceLoaded(now, feetLoaded) - 0.1, MeshView.SinceLoaded(now, feetLoaded) - 0.1)
  {
    var frame := MeshView.Paint(f, OnboardingTiming, hasContainer, now, feetLoaded, visible);
    var t := MeshView.SinceLoaded(now, feetLoaded);
    if hasContainer && t >= OnboardingTiming.initialAnimationTime then
      (frame, GroundTimes(t - OnboardingTiming.initialAnimationTime, t - OnboardingTiming.initialAnimationTime))
    else (frame, g)
  }

  /** In the onboarding the feet and the mesh lines rise together, the
      shadows take ten seconds to fade in, and from the wave's start the
      background runs in step with it. */
  lemma OnboardingSchedule(f: MeshView.Frame, g: GroundTimes, now: real, feetLoaded: Option<real>, visible: Sides<bool>, s: Side)
    ensures var (frame, ground) := Paint(f, g, true, now, feetLoaded, visible);
            var t := MeshView.SinceLoaded(now, feetLoaded);
            && frame.feet.Get(s).cutoffHeight == frame.line.cutoffHeight == 0.3 * (t - 0.1)
            && (visible.Get(s) && t >= 10.1 ==> frame.shadows.Get(s) == 1.0)
            && (t >= 0.1 ==> ground.ground == ground.lines == frame.line.time)
  {
  }
}
