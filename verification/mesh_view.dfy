/** The base viewer (`MeshView`): the renderer's size and its
    super-sampled render target, the time-driven uniforms each frame sets,
    the mouse listeners that tell a click from a drag, the centre of the
    visible feet, and the orbit controls' limits.

    The clock, the container's size and `window.devicePixelRatio` are
    parameters; the rendering itself is left out. */
module MeshView {
  import Maths
  import opened Numbers
  import opened Wrappers
  import opened Vectors
  import opened Feet
  import opened FootMaterials
  import OrbitControls
  import CameraOrientations

  // ---------------------------------------------------------------------
  // Renderer size

  /** What `Math.sqrt(2.0)` may be assumed to be: the non-negative number
      whose square is two. */
  ghost predicate SqrtOfTwo(m: Maths.Functions) {
    m.sqrt(2.0) >= 0.0 && m.sqrt(2.0) * m.sqrt(2.0) == 2.0
  }

  /** `superSampling`: the square root of two on high-density screens,
      two elsewhere. */
  function SuperSampling(m: Maths.Functions, devicePixelRatio: real): (r: real)
    ensures devicePixelRatio > 1.0 ==> r == m.sqrt(2.0)
    ensures devicePixelRatio <= 1.0 ==> r == 2.0
  {
    if devicePixelRatio > 1.0 then m.sqrt(2.0) else 2.0
  }

  /** The square root of two exceeds 1.4. */
  lemma SqrtTwoAbove(m: Maths.Functions)
    requires SqrtOfTwo(m)
    ensures m.sqrt(2.0) > 1.4
  {
    var s := m.sqrt(2.0);
    if s <= 1.4 {
      NonNegativeProduct(s, 1.4 - s, s * (1.4 - s));
      assert false;
    }
  }

  /** The viewer always super-samples: the factor exceeds one on every
      screen, so a render target is always made. */
  lemma AlwaysSuperSampled(m: Maths.Functions, devicePixelRatio: real)
    requires SqrtOfTwo(m)
    ensures SuperSampling(m, devicePixelRatio) > 1.0
  {
    SqrtTwoAbove(m);
  }

  /** A size in whole pixels. */
  datatype Size = Size(width: int, height: int)

  /** What `updateRendererSize` keeps: the cached container size, the
      camera's aspect, the canvas size, the render target (if any) and how
      many render targets were made so far. */
  datatype Renderer = Renderer(dimensions: Size, aspect: real, canvas: Size, target: Option<Size>, targetsMade: nat)

  /** The size of the super-sampled render target for a container. */
  function TargetSize(ssaa: real, devicePixelRatio: real, container: Size): Size {
    Size((ssaa * container.width as real * devicePixelRatio).Floor,
         (ssaa * container.height as real * devicePixelRatio).Floor)
  }

  /** `hasRendererSizeChanged`. */
  predicate HasRendererSizeChanged(v: Renderer, container: Size) {
    v.dimensions != container
  }

  /** The container has a size to render at. */
  predicate Usable(container: Size) {
    container.width != 0 && container.height != 0
  }

  /** The sizing shared by both versions of `updateRendererSize`: the
      dimensions are cached, the aspect and canvas set, and a new target
      made when `stale` says so and super-sampling is on. */
  function Resize(v: Renderer, container: Size, ssaa: real, devicePixelRatio: real, stale: bool): (r: Renderer)
    requires Usable(container)
    ensures r.dimensions == container && r.canvas == container
    ensures r.aspect == container.width as real / container.height as real
    ensures stale && ssaa > 1.0 ==>
      r.target == Some(TargetSize(ssaa, devicePixelRatio, container)) && r.targetsMade == v.targetsMade + 1
    ensures !(stale && ssaa > 1.0) ==> r.target == v.target && r.targetsMade == v.targetsMade
  {
    var sized := v.(dimensions := container, canvas := container,
                    aspect := container.width as real / container.height as real);
    if stale && ssaa > 1.0 then
      sized.(target := Some(TargetSize(ssaa, devicePixelRatio, container)), targetsMade := v.targetsMade + 1)
    else sized
  }

  /** `updateRendererSize` as written: no container, or one with a zero
      side, changes nothing; otherwise the target is remade when it is
      missing or differs from the container's own size, which is not the
      size it is made at. */
  function UpdateRendererSizeAsWritten(v: Renderer, container: Option<Size>, m: Maths.Functions, devicePixelRatio: real)
    : (r: Renderer)
    ensures container.None? || !Usable(container.value) ==> r == v
    ensures container.Some? && Usable(container.value) ==>
      r == Resize(v, container.value, SuperSampling(m, devicePixelRatio), devicePixelRatio,
                  v.target != Some(container.value))
  {
    match container
    case None => v
    case Some(c) =>
      if !Usable(c) then v
      else Resize(v, c, SuperSampling(m, devicePixelRatio), devicePixelRatio, v.target != Some(c))
  }

  /** `updateRendererSize` comparing the target with the size it is made
      at. */
  function UpdateRendererSize(v: Renderer, container: Option<Size>, m: Maths.Functions, devicePixelRatio: real)
    : (r: Renderer)
    ensures container.None? || !Usable(container.value) ==> r == v
    ensures container.Some? && Usable(container.value) ==>
      r == Resize(v, container.value, SuperSampling(m, devicePixelRatio), devicePixelRatio,
                  v.target != Some(TargetSize(SuperSampling(m, devicePixelRatio), devicePixelRatio, container.value)))
  {
    match container
    case None => v
    case Some(c) =>
      if !Usable(c) then v
      else
        var ssaa := SuperSampling(m, devicePixelRatio);
        Resize(v, c, ssaa, devicePixelRatio, v.target != Some(TargetSize(ssaa, devicePixelRatio, c)))
  }

  /** After a resize to a usable container the size no longer counts as
      changed, in either version. */
  lemma ResizeSettles(v: Renderer, c: Size, m: Maths.Functions, devicePixelRatio: real)
    requires Usable(c)
    ensures !HasRendererSizeChanged(UpdateRendererSize(v, Some(c), m, devicePixelRatio), c)
    ensures !HasRendererSizeChanged(UpdateRendererSizeAsWritten(v, Some(c), m, devicePixelRatio), c)
  {
  }

  /** With the intended comparison, resizing to the same container again
      changes nothing and makes no new target, and the target always has
      the super-sampled size. */
  lemma UpdateRendererSizeIdempotent(v: Renderer, c: Option<Size>, m: Maths.Functions, devicePixelRatio: real)
    requires SqrtOfTwo(m)
    ensures var once := UpdateRendererSize(v, c, m, devicePixelRatio);
            UpdateRendererSize(once, c, m, devicePixelRatio) == once
    ensures c.Some? && Usable(c.value) ==>
      UpdateRendererSize(v, c, m, devicePixelRatio).target == Some(TargetSize(SuperSampling(m, devicePixelRatio), devicePixelRatio, c.value))
  {
    AlwaysSuperSampled(m, devicePixelRatio);
  }

  /** On a screen of density at least one and a container at least three
      pixels wide, the target is made wider than the container, so the
      comparison as written finds it stale on every call and a new target
      is made each time. */
  lemma AsWrittenRemakesTarget(v: Renderer, c: Size, m: Maths.Functions, devicePixelRatio: real)
    requires SqrtOfTwo(m)
    requires devicePixelRatio >= 1.0 && c.width >= 3 && c.height >= 1
    requires v.target != Some(c)
    ensures var once := UpdateRendererSizeAsWritten(v, Some(c), m, devicePixelRatio);
            UpdateRendererSizeAsWritten(once, Some(c), m, devicePixelRatio).targetsMade == once.targetsMade + 1
  {
    var ssaa := SuperSampling(m, devicePixelRatio);
    AlwaysSuperSampled(m, devicePixelRatio);
    if devicePixelRatio > 1.0 {
      SqrtTwoAbove(m);
    }
    WiderTarget(ssaa, c.width, devicePixelRatio);
    var once := UpdateRendererSizeAsWritten(v, Some(c), m, devicePixelRatio);
    assert once.target.value.width > c.width;
  }

  /** A factor above 1.4 on a density of at least one widens a width of at
      least three by a whole pixel. */
  lemma WiderTarget(ssaa: real, width: int, devicePixelRatio: real)
    requires ssaa > 1.4 && width >= 3 && devicePixelRatio >= 1.0
    ensures (ssaa * width as real * devicePixelRatio).Floor > width
  {
    var w := width as real;
    var sw := ssaa * w;
    NonNegativeProduct(ssaa - 1.4, w, sw - 1.4 * w);
    NonNegativeProduct(sw, devicePixelRatio - 1.0, sw * devicePixelRatio - sw);
    assert sw * devicePixelRatio >= w + 1.0;
  }

  /** The smallest case: a 100 by 100 container on a standard screen.  The
      first call makes a 200 by 200 target; the second remakes it. */
  lemma AsWrittenRemakesTargetExample(m: Maths.Functions)
    ensures var v := Renderer(Size(0, 0), 1.0, Size(0, 0), None, 0);
            var once := UpdateRendererSizeAsWritten(v, Some(Size(100, 100)), m, 1.0);
            var twice := UpdateRendererSizeAsWritten(once, Some(Size(100, 100)), m, 1.0);
            && once.target == Some(Size(200, 200)) && once.targetsMade == 1
            && twice.target == Some(Size(200, 200)) && twice.targetsMade == 2
  {
  }

  // ---------------------------------------------------------------------
  // The paint schedule

  /** The constants of a view's `paint`: when the mesh lines and the feet
      start to appear, how fast the cutoff rises and the shadows fade in,
      and when the mesh-line wave starts. */
  datatype Timing = Timing(
    wireframeDelay: real, meshDelay: real, cutoffSpeed: real, shadowSpeed: real, initialAnimationTime: real)

  const ScanTiming := Timing(0.0, 1.0, 0.04, 1.5, 3.0)

  /** `this.allFeetLoadedTime ? now - this.allFeetLoadedTime : 0.0`: no
      time, or time zero, counts as not loaded. */
  function SinceLoaded(now: real, loaded: Option<real>): (r: real)
    ensures loaded.None? || loaded.value == 0.0 ==> r == 0.0
    ensures loaded.Some? && loaded.value != 0.0 ==> r == now - loaded.value
  {
    match loaded
    case Some(start) => if start != 0.0 then now - start else 0.0
    case None => 0.0
  }

  /** The uniforms `paint` animates: each foot's material, the mesh
      lines', and the ground's shadow strength under each foot. */
  datatype Frame = Frame(feet: Sides<FootUniforms>, line: LineUniforms, shadows: Sides<real>)

  /** A foot's shadow: faded in over time when the foot is visible, none
      otherwise. */
  function Shadow(timing: Timing, t: real, visible: bool): (r: real)
    ensures 0.0 <= r <= 1.0
    ensures !visible ==> r == 0.0
    ensures visible ==> r == Clamp(timing.shadowSpeed * (t - timing.meshDelay), 0.0, 1.0)
  {
    if visible then Clamp(timing.shadowSpeed * (t - timing.meshDelay), 0.0, 1.0) else 0.0
  }

  /** The mesh-line wave's time: held at zero until the initial animation
      is over, then counted from there. */
  function WaveTime(timing: Timing, t: real): (r: real)
    ensures t < timing.initialAnimationTime ==> r == 0.0
    ensures t >= timing.initialAnimationTime ==> r == t - timing.initialAnimationTime
  {
    if t < timing.initialAnimationTime then 0.0 else t - timing.initialAnimationTime
  }

  /** `paint`'s uniforms at `t` seconds after the feet loaded: the error
      visualisation off, the feet's cutoff and the mesh lines' cutoff
      rising, the shadows and the wave time; nothing else changes. */
  function PaintUniforms(f: Frame, timing: Timing, t: real, visible: Sides<bool>): (r: Frame)
    ensures forall s: Side ::
      r.feet.Get(s) == f.feet.Get(s).(errorVis := 0.0, cutoffHeight := timing.cutoffSpeed * (t - timing.meshDelay))
    ensures r.line == LineUniforms(timing.cutoffSpeed * (t - timing.wireframeDelay), WaveTime(timing, t))
    ensures forall s: Side :: r.shadows.Get(s) == Shadow(timing, t, visible.Get(s))
  {
    var cutoff := timing.cutoffSpeed * (t - timing.meshDelay);
    Frame(Sides(f.feet.left.(errorVis := 0.0, cutoffHeight := cutoff), f.feet.right.(errorVis := 0.0, cutoffHeight := cutoff)),
          LineUniforms(timing.cutoffSpeed * (t - timing.wireframeDelay), WaveTime(timing, t)),
          Sides(Shadow(timing, t, visible.left), Shadow(timing, t, visible.right)))
  }

  /** `paint`: nothing without a container; otherwise the uniforms at
      the time since the feet loaded. */
  function Paint(f: Frame, timing: Timing, hasContainer: bool, now: real, feetLoaded: Option<real>, visible: Sides<bool>)
    : (r: Frame)
    ensures !hasContainer ==> r == f
    ensures hasContainer && (feetLoaded.None? || feetLoaded.value == 0.0) ==> r == PaintUniforms(f, timing, 0.0, visible)
    ensures hasContainer && feetLoaded.Some? && feetLoaded.value != 0.0 ==>
      r == PaintUniforms(f, timing, now - feetLoaded.value, visible)
  {
    if hasContainer then PaintUniforms(f, timing, SinceLoaded(now, feetLoaded), visible) else f
  }

  /** Every animated uniform only grows as time passes. */
  lemma PaintIsMonotone(f: Frame, timing: Timing, t1: real, t2: real, visible: Sides<bool>, s: Side)
    requires timing.cutoffSpeed >= 0.0 && timing.shadowSpeed >= 0.0 && t1 <= t2
    ensures var a, b := PaintUniforms(f, timing, t1, visible), PaintUniforms(f, timing, t2, visible);
            && a.feet.Get(s).cutoffHeight <= b.feet.Get(s).cutoffHeight
            && a.line.cutoffHeight <= b.line.cutoffHeight
            && a.line.time <= b.line.time
            && a.shadows.Get(s) <= b.shadows.Get(s)
  {
    RisesWithTime(timing.cutoffSpeed, timing.meshDelay, t1, t2);
    RisesWithTime(timing.cutoffSpeed, timing.wireframeDelay, t1, t2);
    ShadowIsMonotone(timing, t1, t2, visible.Get(s));
  }

  lemma ShadowIsMonotone(timing: Timing, t1: real, t2: real, visible: bool)
    requires timing.shadowSpeed >= 0.0 && t1 <= t2
    ensures Shadow(timing, t1, visible) <= Shadow(timing, t2, visible)
  {
    if visible {
      var a, b := timing.shadowSpeed * (t1 - timing.meshDelay), timing.shadowSpeed * (t2 - timing.meshDelay);
      NonNegativeProduct(timing.shadowSpeed, t2 - t1, b - a);
      ClampMonotone(a, b, 0.0, 1.0);
    }
  }

  /** A value rising at a non-negative speed from a start time. */
  lemma RisesWithTime(speed: real, start: real, t1: real, t2: real)
    requires speed >= 0.0 && t1 <= t2
    ensures speed * (t1 - start) <= speed * (t2 - start)
  {
    NonNegativeProduct(speed, t2 - t1, speed * (t2 - t1));
  }

  /** The scan viewer before its feet load: feet cut off below the floor,
      no shadows, the wave held; from 1⅔ seconds on the shadows of the
      visible feet are full. */
  lemma ScanTimingPhases(f: Frame, t: real, visible: Sides<bool>, s: Side)
    ensures var r := PaintUniforms(f, ScanTiming, 0.0, visible);
            r.feet.Get(s).cutoffHeight < 0.0 && r.shadows.Get(s) == 0.0 && r.line.time == 0.0
    ensures t >= 1.0 + 1.0 / 1.5 && visible.Get(s) ==> PaintUniforms(f, ScanTiming, t, visible).shadows.Get(s) == 1.0
  {
  }

  // ---------------------------------------------------------------------
  // Mouse listeners

  datatype MouseEvent = MouseDown | MouseMove | MouseUp

  datatype Listener = OnMouseUp | OnMouseMove

  const BothListeners: set<Listener> := {OnMouseUp, OnMouseMove}

  /** The container's mouse listeners after one event, and whether the
      mouse-up handler ran: a press registers both (registering twice is
      a no-op), and whichever of them runs first unregisters both. */
  function Dispatch(listeners: set<Listener>, e: MouseEvent): (r: (set<Listener>, bool))
    ensures r.1 <==> e == MouseUp && OnMouseUp in listeners
  {
    match e
    case MouseDown => (listeners + BothListeners, false)
    case MouseMove => if OnMouseMove in listeners then (listeners - BothListeners, false) else (listeners, false)
    case MouseUp => if OnMouseUp in listeners then (listeners - BothListeners, true) else (listeners, false)
  }

  /** The listeners after a sequence of events, starting with none. */
  function Listeners(events: seq<MouseEvent>): (r: set<Listener>)
    ensures r == {} || r == BothListeners
  {
    if |events| == 0 then {} else Dispatch(Listeners(events[..|events| - 1]), events[|events| - 1]).0
  }

  /** Whether the mouse-up handler runs for the event at index k. */
  function Clicked(events: seq<MouseEvent>, k: nat): bool
    requires k < |events|
  {
    Dispatch(Listeners(events[..k]), events[k]).1
  }

  /** The listeners are registered exactly when the last event was a
      press. */
  lemma {:induction false} ListenersAfter(events: seq<MouseEvent>)
    ensures Listeners(events) == BothListeners <==> |events| > 0 && events[|events| - 1] == MouseDown
  {
    if |events| > 0 {
      ListenersAfter(events[..|events| - 1]);
    }
  }

  /** A release reaches the mouse-up handler exactly when it directly
      follows a press: any movement in between, that is any drag, keeps
      it from being a click. */
  lemma ClickIffNoDrag(events: seq<MouseEvent>, k: nat)
    requires k < |events|
    ensures Clicked(events, k) <==> events[k] == MouseUp && k > 0 && events[k - 1] == MouseDown
  {
    ListenersAfter(events[..k]);
    if k > 0 {
      assert events[..k][k - 1] == events[k - 1];
    }
  }

  // ---------------------------------------------------------------------
  // The centre of the visible feet

  datatype Foot = Foot(visible: bool, position: Vec3)

  /** `positions.reduce((acc, x) => acc.add(x), origin)`. */
  function Sum(positions: seq<Vec3>): Vec3 {
    if |positions| == 0 then Origin else Add(Sum(positions[..|positions| - 1]), positions[|positions| - 1])
  }

  lemma SumOfTwo(positions: seq<Vec3>)
    requires |positions| == 2
    ensures Sum(positions) == Add(Add(Origin, positions[0]), positions[1])
  {
    var first := positions[..1];
    assert first == [positions[0]];
    assert first[..0] == [];
    assert Sum(first) == Add(Origin, positions[0]);
  }

  /** `averageVector3`: the mean position; an empty list is a failure. */
  function AverageVector3(positions: seq<Vec3>): (r: Option<Vec3>)
    ensures r.Some? <==> |positions| > 0
    ensures |positions| == 1 ==> r == Some(positions[0])
    ensures |positions| == 2 ==> r.value.x == (positions[0].x + positions[1].x) / 2.0
  {
    if |positions| == 0 then None
    else
      assert |positions| == 2 ==> Sum(positions) == Add(Add(Origin, positions[0]), positions[1]) by {
        if |positions| == 2 {
          SumOfTwo(positions);
        }
      }
      assert |positions| == 1 ==> Scale(Sum(positions), 1.0 / |positions| as real) == positions[0] by {
        if |positions| == 1 {
          assert positions[..0] == [];
          assert Sum(positions) == Add(Origin, positions[0]);
          assert 1.0 / |positions| as real == 1.0;
        }
      }
      Some(Scale(Sum(positions), 1.0 / |positions| as real))
  }

  /** The positions of the visible feet, left first. */
  function VisiblePositions(feet: Sides<Foot>): (r: seq<Vec3>)
    ensures |r| <= 2
  {
    (if feet.left.visible then [feet.left.position] else []) + (if feet.right.visible then [feet.right.position] else [])
  }

  /** `getVisibleCenter`: across the feet, halfway between the visible
      ones (at a visible one when only one is), and the origin when none
      is; always on the x axis. */
  function VisibleCenter(feet: Sides<Foot>): (r: Vec3)
    ensures r.y == 0.0 && r.z == 0.0
    ensures !feet.left.visible && !feet.right.visible ==> r == Origin
    ensures feet.left.visible && !feet.right.visible ==> r.x == feet.left.position.x
    ensures !feet.left.visible && feet.right.visible ==> r.x == feet.right.position.x
    ensures feet.left.visible && feet.right.visible ==> r.x == (feet.left.position.x + feet.right.position.x) / 2.0
  {
    var positions := VisiblePositions(feet);
    var center := if |positions| == 0 then Origin else AverageVector3(positions).value;
    center.(y := 0.0, z := 0.0)
  }

  // ---------------------------------------------------------------------
  // Orbit controls

  /** The limits and speeds `setupControls` gives the controls. */
  function ViewerSettings(s: OrbitControls.Settings): OrbitControls.Settings {
    s.(minDistance := 0.2, maxDistance := OrbitControls.At(1.5),
       minZoom := 0.2, maxZoom := OrbitControls.At(5.0),
       rotateSpeed := 0.75,
       animationRadiusSpeed := 0.25, animationTargetSpeed := 0.25, animationZoomSpeed := 2.0)
  }

  /** `setupControls`: the viewer's limits and speeds, looking at the
      origin. */
  function SetupControls(c: OrbitControls.Controls): (r: OrbitControls.Controls)
    ensures r.target == Origin
    ensures r.settings.minDistance == 0.2 && r.settings.maxDistance == OrbitControls.At(1.5)
    ensures r.settings.minZoom == 0.2 && r.settings.maxZoom == OrbitControls.At(5.0)
    ensures r.settings.rotateSpeed == 0.75
    ensures r.settings.animationRadiusSpeed == 0.25 && r.settings.animationTargetSpeed == 0.25
    ensures r.settings.animationZoomSpeed == 2.0
    ensures r.settings == c.settings.(
      minDistance := r.settings.minDistance, maxDistance := r.settings.maxDistance,
      minZoom := r.settings.minZoom, maxZoom := r.settings.maxZoom,
      rotateSpeed := r.settings.rotateSpeed,
      animationRadiusSpeed := r.settings.animationRadiusSpeed,
      animationTargetSpeed := r.settings.animationTargetSpeed,
      animationZoomSpeed := r.settings.animationZoomSpeed)
    ensures r == c.(settings := r.settings, target := Origin)
  {
    c.(settings := ViewerSettings(c.settings), target := Origin)
  }

  /** Every camera preset lies within the viewer's limits: its radius
      between the nearest and farthest distance, its zoom between the
      smallest and largest zoom.  And with a usable logarithm the
      animation speeds allow animating to them. */
  lemma PresetsWithinLimits(c: OrbitControls.Controls, m: Maths.Functions, p: CameraOrientations.Preset)
    ensures var s := SetupControls(c).settings;
            && s.minDistance <= CameraOrientations.Coordinates(p).0 <= s.maxDistance.value
            && OrbitControls.InZoomRange(s, CameraOrientations.PresetOrientation(m, p).zoom)
    ensures c.settings.animationRotationSpeed > 0.0 && m.log(2.0) != 0.0 ==>
      OrbitControls.AnimationSpeedsValid(SetupControls(c).settings, m)
  {
    CameraOrientations.PresetZoomBounds(m, p);
  }
}
