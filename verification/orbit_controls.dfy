/** The orbit camera controller: a record-valued state machine.  Its state
    is the camera's spherical position around a target, the pending
    rotation deltas, the zoom, the running animation and the gesture in
    progress; every handler and `update` maps one state to the next.

    Time (`Date.now()`), the element's size, the transcendental functions
    and THREE's conversions between positions and spherical coordinates
    arrive in an `Env`; frame scheduling and the `change` event (which
    compares the camera's position and quaternion with the last ones) are
    not part of the model. */
module OrbitControls {
  import opened Numbers
  import opened OrbitMath
  import opened Vectors
  import Maths
  import Wrappers

  /** A limit that may be infinite: `Infinity` or `-Infinity` in the
      source. */
  datatype Limit = Unbounded | At(value: real)

  /** `Math.max(lo, Math.min(hi, x))`. */
  function Restrict(lo: Limit, hi: Limit, x: real): (r: real)
    ensures lo.At? ==> r >= lo.value
    ensures hi.At? && (lo.Unbounded? || lo.value <= hi.value) ==> r <= hi.value
    ensures (lo.Unbounded? || lo.value <= x) && (hi.Unbounded? || x <= hi.value) ==> r == x
  {
    var below := if hi.At? then Min(hi.value, x) else x;
    if lo.At? then Max(lo.value, below) else below
  }

  /** Restricting twice is restricting once. */
  lemma RestrictIdempotent(lo: Limit, hi: Limit, x: real)
    requires lo.Unbounded? || hi.Unbounded? || lo.value <= hi.value
    ensures Restrict(lo, hi, Restrict(lo, hi, x)) == Restrict(lo, hi, x)
  {
  }

  datatype Gesture = None | Rotate | Dolly | TouchRotate | TouchDolly

  datatype Point = Point(x: real, y: real)

  /** The controller's options. */
  datatype Settings = Settings(
    enabled: bool,
    minDistance: real, maxDistance: Limit,
    minZoom: real, maxZoom: Limit,
    minPolarAngle: real, maxPolarAngle: real,
    minAzimuthAngle: Limit, maxAzimuthAngle: Limit,
    enableDamping: bool, dampingFactor: real,
    enableZoom: bool, zoomSpeed: real,
    enableRotate: bool, rotateSpeed: real,
    orbitButton: int, zoomButton: int,
    animationRotationSpeed: real, animationRadiusSpeed: real,
    animationTargetSpeed: real, animationZoomSpeed: real)

  /** The options a new controller starts with; the buttons are
      `THREE.MOUSE.LEFT` and `THREE.MOUSE.MIDDLE`. */
  const DefaultSettings := Settings(
    true,
    0.0, Unbounded,
    0.0, Unbounded,
    0.0, Maths.Pi / 2.0,
    Unbounded, Unbounded,
    false, 0.25,
    true, 1.0,
    true, 1.0,
    0, 1,
    2.0, 2.0, 2.0, 2.0)

  /** The animation from pose 0 to pose 1. */
  datatype Animation = Animation(
    spherical0: Spherical, spherical1: Spherical, sphericalDelta: Spherical,
    target0: Vec3, target1: Vec3, targetDelta: Vec3,
    zoom0: real, zoom1: real, zoomFactor: real,
    time0: real, timeDelta: real)

  const NoAnimation := Animation(
    Spherical(1.0, 0.0, 0.0), Spherical(1.0, 0.0, 0.0), Spherical(1.0, 0.0, 0.0),
    Origin, Origin, Origin, 1.0, 1.0, 1.0, 0.0, 0.0)

  datatype Controls = Controls(
    settings: Settings,
    state: Gesture,
    spherical: Spherical,
    sphericalDelta: Spherical,
    animate: bool,
    animation: Animation,
    target: Vec3,
    zoom: real,
    position: Vec3,
    orthographicLerp: real,
    zoomChanged: bool,
    rotateStart: Point,
    dollyStart: Point,
    listening: bool)

  /** What the controller reads from outside. */
  datatype Env = Env(
    now: real,
    elementWidth: real,
    elementHeight: real,
    maths: Maths.Functions,
    positionFromSpherical: Spherical -> Vec3,
    sphericalFromPosition: Vec3 -> Spherical)

  /** The events the controller dispatches to its listeners. */
  datatype Notice = Start | End

  // ---------------------------------------------------------------------
  // update

  /** How far through the animation `now` is, clamped to [0, 1]; a zero
      duration counts as finished. */
  function AnimationProgress(a: Animation, now: real): (t: real)
    ensures 0.0 <= t <= 1.0
    ensures a.timeDelta > 0.0 && now >= a.time0 + a.timeDelta ==> t == 1.0
  {
    if a.timeDelta == 0.0 then 1.0
    else
      var ratio := (now - a.time0) / a.timeDelta;
      assert a.timeDelta > 0.0 && now >= a.time0 + a.timeDelta ==> ratio >= 1.0 by {
        if a.timeDelta > 0.0 && now >= a.time0 + a.timeDelta {
          RatioAtLeastOne(now - a.time0, a.timeDelta, ratio);
        }
      }
      Clamp(ratio, 0.0, 1.0)
  }

  lemma RatioAtLeastOne(x: real, d: real, q: real)
    requires d > 0.0 && x >= d && q == x / d
    ensures q >= 1.0
  {
    assert q * d == x;
  }

  /** The pose an animation has reached at eased time `t`. */
  function AnimatedSpherical(a: Animation, t: real): Spherical {
    Spherical(
      a.spherical0.radius + a.sphericalDelta.radius * t,
      a.spherical0.phi + a.sphericalDelta.phi * t,
      a.spherical0.theta + a.sphericalDelta.theta * t)
  }

  /** The limits applied after every step, then THREE's `makeSafe`. */
  function Constrain(s: Settings, sp: Spherical): (r: Spherical)
    ensures s.minAzimuthAngle.At? ==> r.theta >= s.minAzimuthAngle.value
    ensures s.maxAzimuthAngle.At? && (s.minAzimuthAngle.Unbounded? || s.minAzimuthAngle.value <= s.maxAzimuthAngle.value)
      ==> r.theta <= s.maxAzimuthAngle.value
    ensures s.minAzimuthAngle.Unbounded? && s.maxAzimuthAngle.Unbounded? ==> r.theta == sp.theta
    ensures SafeEps <= r.phi <= Maths.Pi - SafeEps
    ensures SafeEps <= s.minPolarAngle <= s.maxPolarAngle <= Maths.Pi - SafeEps
      ==> s.minPolarAngle <= r.phi <= s.maxPolarAngle
    ensures r.radius >= s.minDistance
    ensures s.maxDistance.At? && s.minDistance <= s.maxDistance.value ==> r.radius <= s.maxDistance.value
  {
    var theta := Restrict(s.minAzimuthAngle, s.maxAzimuthAngle, sp.theta);
    var phi := Restrict(At(s.minPolarAngle), At(s.maxPolarAngle), sp.phi);
    var radius := Restrict(At(s.minDistance), s.maxDistance, sp.radius);
    Spherical(radius, MakeSafe(phi), theta)
  }

  /** The pending rotation after a step: decayed with damping, dropped
      without. */
  function Damp(s: Settings, delta: Spherical): (r: Spherical)
    ensures s.enableDamping ==> r.theta == delta.theta * (1.0 - s.dampingFactor)
    ensures s.enableDamping ==> r.phi == delta.phi * (1.0 - s.dampingFactor)
    ensures !s.enableDamping ==> r.theta == 0.0 && r.phi == 0.0
  {
    if s.enableDamping then
      delta.(theta := delta.theta * (1.0 - s.dampingFactor), phi := delta.phi * (1.0 - s.dampingFactor))
    else Spherical(0.0, 0.0, 0.0)
  }

  /** `update()`: advance a running animation (only when no gesture is in
      progress) or apply the pending rotation, constrain, place the camera
      and decay the deltas. */
  function Update(c: Controls, env: Env): (r: Controls)
    ensures r.settings == c.settings && r.state == c.state && r.listening == c.listening
    ensures r.animation == c.animation
    ensures c.state != None ==> !r.animate
    ensures !c.animate ==> !r.animate && r.target == c.target && r.zoom == c.zoom
    ensures !c.animate ==> r.spherical.radius == Constrain(c.settings, c.spherical).radius
    ensures !(c.animate && c.state == None) ==>
      && !r.animate && r.target == c.target && r.zoom == c.zoom
      && r.spherical == Constrain(c.settings, Spherical(c.spherical.radius,
           c.spherical.phi + c.sphericalDelta.phi, c.spherical.theta + c.sphericalDelta.theta))
    ensures c.animate && c.state == None ==>
      var t := EaseInEaseOut(AnimationProgress(c.animation, env.now));
      && r.spherical == Constrain(c.settings, AnimatedSpherical(c.animation, t))
      && r.target == AddScaled(c.animation.target0, c.animation.targetDelta, t)
      && r.zoom == c.animation.zoom0 * env.maths.pow(c.animation.zoomFactor, t)
      && (r.animate <==> t < 1.0)
    ensures r.sphericalDelta == Damp(c.settings, c.sphericalDelta)
    ensures r.spherical == Constrain(r.settings, r.spherical)
    ensures r.position == Add(env.positionFromSpherical(r.spherical), r.target)
    ensures !r.zoomChanged
  {
    var animating := c.animate && c.state == None;
    var t := EaseInEaseOut(AnimationProgress(c.animation, env.now));
    var a := c.animation;
    var raw := if animating then AnimatedSpherical(a, t)
               else c.spherical.(theta := c.spherical.theta + c.sphericalDelta.theta,
                                 phi := c.spherical.phi + c.sphericalDelta.phi);
    var target := if animating then AddScaled(a.target0, a.targetDelta, t) else c.target;
    var zoom := if animating then a.zoom0 * env.maths.pow(a.zoomFactor, t) else c.zoom;
    var s := Constrain(c.settings, raw);
    ConstrainIdempotent(c.settings, raw);
    c.(spherical := s,
       target := target,
       zoom := zoom,
       animate := animating && t < 1.0,
       position := Add(env.positionFromSpherical(s), target),
       sphericalDelta := Damp(c.settings, c.sphericalDelta),
       orthographicLerp := env.maths.pow(1.0 - env.maths.sin(s.phi), 2.0),
       zoomChanged := false)
  }

  /** Constraining a constrained position changes nothing. */
  lemma ConstrainIdempotent(s: Settings, sp: Spherical)
    ensures Constrain(s, Constrain(s, sp)) == Constrain(s, sp)
  {
    var once := Constrain(s, sp);
    var theta := Restrict(s.minAzimuthAngle, s.maxAzimuthAngle, sp.theta);
    var phi := Restrict(At(s.minPolarAngle), At(s.maxPolarAngle), sp.phi);
    var radius := Restrict(At(s.minDistance), s.maxDistance, sp.radius);
    assert Restrict(s.minAzimuthAngle, s.maxAzimuthAngle, theta) == theta by {
      LimitsRestrictOnce(s.minAzimuthAngle, s.maxAzimuthAngle, sp.theta);
    }
    assert Restrict(At(s.minDistance), s.maxDistance, radius) == radius by {
      LimitsRestrictOnce(At(s.minDistance), s.maxDistance, sp.radius);
    }
    assert MakeSafe(Restrict(At(s.minPolarAngle), At(s.maxPolarAngle), MakeSafe(phi))) == MakeSafe(phi) by {
      SafePolarOnce(s.minPolarAngle, s.maxPolarAngle, phi);
    }
  }

  /** Even with crossed limits, `Math.max(lo, Math.min(hi, x))` settles
      after one application. */
  lemma LimitsRestrictOnce(lo: Limit, hi: Limit, x: real)
    ensures Restrict(lo, hi, Restrict(lo, hi, x)) == Restrict(lo, hi, x)
  {
  }

  lemma SafePolarOnce(lo: real, hi: real, phi: real)
    ensures MakeSafe(Restrict(At(lo), At(hi), MakeSafe(Restrict(At(lo), At(hi), phi))))
         == MakeSafe(Restrict(At(lo), At(hi), phi))
  {
  }

  // ---------------------------------------------------------------------
  // Animations

  /** The options every animation-duration computation needs: positive
      speeds, and a zoom speed whose logarithm can be divided by. */
  predicate AnimationSpeedsValid(s: Settings, m: Maths.Functions) {
    && s.animationRotationSpeed > 0.0
    && s.animationRadiusSpeed > 0.0
    && s.animationTargetSpeed > 0.0
    && m.log(s.animationZoomSpeed) != 0.0
  }

  /** The animation's length in milliseconds: the slowest of rotating,
      moving the radius, moving the target and zooming at their set speeds,
      and never under one millisecond. */
  function Duration(s: Settings, m: Maths.Functions, delta: Spherical, targetDelta: Vec3, zoomFactor: real): (d: real)
    requires AnimationSpeedsValid(s, m)
    ensures d >= 1.0
    ensures d >= 1000.0 * (m.sqrt(delta.phi * delta.phi + delta.theta * delta.theta) / s.animationRotationSpeed)
    ensures d >= 1000.0 * (Abs(delta.radius) / s.animationRadiusSpeed)
    ensures d >= 1000.0 * (Length(m, targetDelta) / s.animationTargetSpeed)
    ensures d >= 1000.0 * Abs(m.log(zoomFactor) / m.log(s.animationZoomSpeed))
    ensures || d == 1.0
            || d == 1000.0 * (m.sqrt(delta.phi * delta.phi + delta.theta * delta.theta) / s.animationRotationSpeed)
            || d == 1000.0 * (Abs(delta.radius) / s.animationRadiusSpeed)
            || d == 1000.0 * (Length(m, targetDelta) / s.animationTargetSpeed)
            || d == 1000.0 * Abs(m.log(zoomFactor) / m.log(s.animationZoomSpeed))
  {
    var rotationMagnitude := m.sqrt(delta.phi * delta.phi + delta.theta * delta.theta);
    1000.0 * Max(Max(Max(Max(
      rotationMagnitude / s.animationRotationSpeed,
      Abs(delta.radius) / s.animationRadiusSpeed),
      Length(m, targetDelta) / s.animationTargetSpeed),
      Abs(m.log(zoomFactor) / m.log(s.animationZoomSpeed))),
      0.001)
  }

  /** Whether JavaScript's `if (duration_factor)` takes the branch: a
      missing factor and zero do not. */
  predicate FactorApplies(factor: Wrappers.Option<real>) {
    factor.Some? && factor.value != 0.0
  }

  /** The change from `from` to `to`, each angle taken the shorter way
      round. */
  function ShortestDelta(from: Spherical, to: Spherical): (d: Spherical)
    ensures d.radius == to.radius - from.radius
    ensures -Maths.Pi <= d.phi <= Maths.Pi && -Maths.Pi <= d.theta <= Maths.Pi
    ensures MultipleOf(to.phi - from.phi - d.phi, 2.0 * Maths.Pi)
    ensures MultipleOf(to.theta - from.theta - d.theta, 2.0 * Maths.Pi)
  {
    Spherical(
      to.radius - from.radius,
      SignedRemainder(to.phi - from.phi, 2.0 * Maths.Pi),
      SignedRemainder(to.theta - from.theta, 2.0 * Maths.Pi))
  }

  /** `updateAnimationInternals(duration_factor)`: the deltas from pose 0 to
      pose 1 (angles the shorter way round), the start time and the
      duration. */
  function UpdateAnimationInternals(c: Controls, factor: Wrappers.Option<real>, env: Env): (r: Controls)
    requires AnimationSpeedsValid(c.settings, env.maths) && c.animation.zoom0 != 0.0
    ensures r == c.(animation := r.animation)
    ensures var a, b := c.animation, r.animation;
      && b.spherical0 == a.spherical0 && b.spherical1 == a.spherical1
      && b.target0 == a.target0 && b.target1 == a.target1
      && b.zoom0 == a.zoom0 && b.zoom1 == a.zoom1
      && b.targetDelta == Sub(a.target1, a.target0)
      && b.zoomFactor == a.zoom1 / a.zoom0
      && b.sphericalDelta == ShortestDelta(a.spherical0, a.spherical1)
      && b.time0 == env.now
    ensures !FactorApplies(factor) ==> r.animation.timeDelta >= 1.0
    ensures FactorApplies(factor) ==> r.animation.timeDelta != 0.0
    ensures FactorApplies(factor) && factor.value > 0.0 ==> r.animation.timeDelta > 0.0
  {
    var a := c.animation;
    var delta := ShortestDelta(a.spherical0, a.spherical1);
    var targetDelta := Sub(a.target1, a.target0);
    var zoomFactor := a.zoom1 / a.zoom0;
    var base := Duration(c.settings, env.maths, delta, targetDelta, zoomFactor);
    var timeDelta := ScaledByFactor(base, factor);
    c.(animation := a.(
      sphericalDelta := delta,
      targetDelta := targetDelta,
      zoomFactor := zoomFactor,
      time0 := env.now,
      timeDelta := timeDelta))
  }

  /** The duration, multiplied by the factor when one applies. */
  function ScaledByFactor(base: real, factor: Wrappers.Option<real>): (d: real)
    requires base >= 1.0
    ensures !FactorApplies(factor) ==> d == base
    ensures FactorApplies(factor) ==> d == base * factor.value && d != 0.0
    ensures FactorApplies(factor) && factor.value > 0.0 ==> d > 0.0
  {
    if FactorApplies(factor) then
      ScaledDuration(base, factor.value, base * factor.value);
      base * factor.value
    else base
  }

  lemma QuotientTimesDivisor(x: real, d: real, q: real)
    requires d != 0.0 && q == x / d
    ensures q * d == x
  {
  }

  lemma ScaledDuration(base: real, f: real, d: real)
    requires base >= 1.0 && f != 0.0 && d == base * f
    ensures d != 0.0
    ensures f > 0.0 ==> d > 0.0
  {
    if f > 0.0 {
      assert base * f >= 1.0 * f;
    } else {
      assert base * -f >= 1.0 * -f;
    }
  }

  /** `animateToPose(relative_position, target, zoom, duration_factor)`:
      start an animation from the current pose to the given one, then
      update once. */
  function AnimateToPose(c: Controls, relativePosition: Vec3, target: Vec3, zoom: real,
                         factor: Wrappers.Option<real>, env: Env): (r: Controls)
    requires AnimationSpeedsValid(c.settings, env.maths) && c.zoom != 0.0
    ensures r.animation.spherical0 == c.spherical
    ensures r.animation.spherical1 == env.sphericalFromPosition(relativePosition)
    ensures r.animation.target0 == c.target && r.animation.target1 == target
    ensures r.animation.zoom0 == c.zoom && r.animation.zoom1 == zoom
    ensures r.animation.time0 == env.now
    ensures r.animation.targetDelta == Sub(target, c.target)
    ensures r.animation.zoomFactor == zoom / c.zoom
    ensures r.animation.sphericalDelta == ShortestDelta(c.spherical, env.sphericalFromPosition(relativePosition))
    ensures !FactorApplies(factor) ==> r.animation.timeDelta >= 1.0
    ensures r.state == c.state && r.settings == c.settings
    ensures c.state != None ==> !r.animate
    ensures c.state == None && r.animation.timeDelta > 0.0 ==> r.animate && r.target == c.target
  {
    var a := c.animation.(
      spherical0 := c.spherical,
      spherical1 := env.sphericalFromPosition(relativePosition),
      target0 := c.target,
      target1 := target,
      zoom0 := c.zoom,
      zoom1 := zoom);
    var started := UpdateAnimationInternals(c.(animation := a, animate := true), factor, env);
    var b := started.animation;
    assert b.timeDelta > 0.0 ==> AnimationProgress(b, env.now) == 0.0 by {
      if b.timeDelta > 0.0 {
        assert (env.now - b.time0) / b.timeDelta == 0.0;
      }
    }
    assert AddScaled(b.target0, b.targetDelta, 0.0) == b.target0;
    Update(started, env)
  }

  /** `jumpToPose(relative_position, target, zoom)`: stop any animation and
      move there at once. */
  function JumpToPose(c: Controls, relativePosition: Vec3, target: Vec3, zoom: real, env: Env): (r: Controls)
    ensures !r.animate && r.target == target && r.zoom == zoom
    ensures r.state == c.state && r.animation == c.animation
    ensures r.spherical.radius == Constrain(c.settings, env.sphericalFromPosition(relativePosition)).radius
  {
    Update(c.(animate := false,
              position := Add(relativePosition, target),
              target := target,
              zoom := zoom,
              spherical := env.sphericalFromPosition(relativePosition)), env)
  }

  /** `updateTarget(target)`: retarget a running animation from where the
      camera is now, or animate to the new target from the current
      offset. */
  function UpdateTarget(c: Controls, target: Vec3, env: Env): (r: Controls)
    requires AnimationSpeedsValid(c.settings, env.maths) && c.zoom != 0.0
    ensures r.animation.target0 == c.target && r.animation.target1 == target
    ensures r.animation.spherical0 == c.spherical && r.animation.zoom0 == c.zoom
    ensures c.animate ==> r.animation.spherical1 == c.animation.spherical1 && r.animation.zoom1 == c.animation.zoom1
    ensures c.animate ==> r.animate && r.spherical == c.spherical && r.target == c.target
    ensures !c.animate ==> r.animation.zoom1 == c.zoom
  {
    if c.animate then
      var a := c.animation.(spherical0 := c.spherical, target0 := c.target, target1 := target, zoom0 := c.zoom);
      UpdateAnimationInternals(c.(animation := a), Wrappers.None, env)
    else
      AnimateToPose(c, Sub(c.position, c.target), target, c.zoom, Wrappers.None, env)
  }

  // ---------------------------------------------------------------------
  // Zoom

  /** `getZoomScale()`. */
  function ZoomScale(c: Controls, env: Env): real {
    env.maths.pow(0.95, c.settings.zoomSpeed)
  }

  function ZoomLimit(c: Controls, z: real): (r: real)
    ensures r >= c.settings.minZoom
    ensures c.settings.maxZoom.At? && c.settings.minZoom <= c.settings.maxZoom.value ==> r <= c.settings.maxZoom.value
    ensures InZoomRange(c.settings, z) ==> r == z
  {
    Restrict(At(c.settings.minZoom), c.settings.maxZoom, z)
  }

  predicate InZoomRange(s: Settings, z: real) {
    s.minZoom <= z && (s.maxZoom.Unbounded? || z <= s.maxZoom.value)
  }

  /** `dollyIn(scale)`: multiply the zoom, within its limits. */
  function DollyIn(c: Controls, scale: real): (r: Controls)
    ensures r == c.(zoom := r.zoom, zoomChanged := true)
    ensures r.zoom == ZoomLimit(c, c.zoom * scale)
  {
    c.(zoom := ZoomLimit(c, c.zoom * scale), zoomChanged := true)
  }

  /** `dollyOut(scale)`: divide the zoom, within its limits. */
  function DollyOut(c: Controls, scale: real): (r: Controls)
    requires scale != 0.0
    ensures r == c.(zoom := r.zoom, zoomChanged := true)
    ensures r.zoom == ZoomLimit(c, c.zoom / scale)
  {
    c.(zoom := ZoomLimit(c, c.zoom / scale), zoomChanged := true)
  }

  // ---------------------------------------------------------------------
  // Gesture handlers

  /** The element has a size to divide by; only a rotation reads it. */
  predicate Sized(env: Env) {
    env.elementWidth != 0.0 && env.elementHeight != 0.0
  }

  /** The zoom scale can be divided by, as `dollyOut` does. */
  predicate Zoomable(c: Controls, env: Env) {
    ZoomScale(c, env) != 0.0
  }

  /** The input is a drag or a one-finger move that rotates the camera,
      the only inputs that divide by the element size. */
  predicate Rotates(c: Controls, input: Input) {
    || (input.MouseMove? && c.state == Rotate)
    || (input.TouchMove? && |input.touches| == 1 && c.state == TouchRotate)
  }

  /** What `Handle` needs: a zoom scale, and a sized element when the
      input rotates. */
  predicate Sound(c: Controls, input: Input, env: Env) {
    Zoomable(c, env) && (Rotates(c, input) ==> Sized(env))
  }

  /** A drag to `p` while rotating: a full element width turns the camera
      a full circle. */
  function MoveRotate(c: Controls, p: Point, env: Env): (r: Controls)
    requires Sized(env)
    ensures r.state == c.state && r.rotateStart == p
  {
    var dx := p.x - c.rotateStart.x;
    var dy := p.y - c.rotateStart.y;
    var left := 2.0 * Maths.Pi * dx / env.elementWidth * c.settings.rotateSpeed;
    var up := 2.0 * Maths.Pi * dy / env.elementHeight * c.settings.rotateSpeed;
    var delta := c.sphericalDelta.(theta := c.sphericalDelta.theta - left, phi := c.sphericalDelta.phi - up);
    Update(c.(sphericalDelta := delta, rotateStart := p), env)
  }

  /** A drag to `p` while dollying: down zooms out, up zooms in. */
  function MoveDolly(c: Controls, p: Point, env: Env): (r: Controls)
    requires Zoomable(c, env)
    ensures r.state == c.state && r.dollyStart == p
  {
    var dy := p.y - c.dollyStart.y;
    var zoomed := if dy > 0.0 then DollyIn(c, ZoomScale(c, env))
                  else if dy < 0.0 then DollyOut(c, ZoomScale(c, env))
                  else c;
    Update(zoomed.(dollyStart := p), env)
  }

  /** The distance between the first two touches. */
  function TouchDistance(ts: seq<Point>, m: Maths.Functions): real
    requires |ts| >= 2
  {
    var dx := ts[0].x - ts[1].x;
    var dy := ts[0].y - ts[1].y;
    m.sqrt(dx * dx + dy * dy)
  }

  /** A pinch to `distance`: spreading zooms in, squeezing zooms out. */
  function MoveTouchDolly(c: Controls, distance: real, env: Env): (r: Controls)
    requires Zoomable(c, env)
    ensures r.state == c.state && r.dollyStart == Point(0.0, distance)
  {
    var dy := distance - c.dollyStart.y;
    var zoomed := if dy > 0.0 then DollyOut(c, ZoomScale(c, env))
                  else if dy < 0.0 then DollyIn(c, ZoomScale(c, env))
                  else c;
    Update(zoomed.(dollyStart := Point(0.0, distance)), env)
  }

  /** A wheel turn: scrolling up zooms in, down zooms out. */
  function Wheel(c: Controls, deltaY: real, env: Env): (r: Controls)
    requires Zoomable(c, env)
    ensures r.state == c.state
  {
    var zoomed := if deltaY < 0.0 then DollyOut(c, ZoomScale(c, env))
                  else if deltaY > 0.0 then DollyIn(c, ZoomScale(c, env))
                  else c;
    Update(zoomed, env)
  }

  datatype Input =
    | MouseDown(button: int, clientX: real, clientY: real)
    | MouseMove(clientX: real, clientY: real)
    | MouseUp
    | MouseWheel(deltaY: real)
    | TouchStart(touches: seq<Point>)
    | TouchMove(touches: seq<Point>)
    | TouchEnd

  /** `onMouseDown`: the orbit button starts rotating, the zoom button
      dollying; while any gesture is on, the document listeners are
      registered and `start` is dispatched. */
  function OnMouseDown(c: Controls, button: int, x: real, y: real): (r: (Controls, seq<Notice>))
    ensures r.0.settings == c.settings
    ensures !c.settings.enabled ==> r == (c, [])
    ensures c.settings.enabled && button == c.settings.orbitButton && c.settings.enableRotate
      ==> r == (c.(rotateStart := Point(x, y), state := Rotate, listening := true), [Start])
    ensures c.settings.enabled && button != c.settings.orbitButton && button == c.settings.zoomButton && c.settings.enableZoom
      ==> r == (c.(dollyStart := Point(x, y), state := Dolly, listening := true), [Start])
    ensures c.settings.enabled && button != c.settings.orbitButton && button != c.settings.zoomButton ==>
      r.0 == c.(listening := c.listening || c.state != None) && (r.1 == [Start] <==> c.state != None)
    ensures r.1 == [] || r.1 == [Start]
    ensures r.1 == [Start] ==> r.0.state != None && r.0.listening
    ensures r.1 == [] ==> r.0 == c
  {
    var s := c.settings;
    if !s.enabled then (c, [])
    else if button == s.orbitButton then
      if !s.enableRotate then (c, [])
      else (c.(rotateStart := Point(x, y), state := Rotate, listening := true), [Start])
    else if button == s.zoomButton then
      if !s.enableZoom then (c, [])
      else (c.(dollyStart := Point(x, y), state := Dolly, listening := true), [Start])
    else if c.state != None then (c.(listening := true), [Start])
    else (c, [])
  }

  /** `onMouseMove`, delivered only while the document listeners are
      registered: drags rotate or dolly according to the gesture. */
  function OnMouseMove(c: Controls, x: real, y: real, env: Env): (r: Controls)
    requires Zoomable(c, env) && (c.state == Rotate ==> Sized(env))
    ensures r.settings == c.settings && r.state == c.state && r.listening == c.listening
    ensures !c.settings.enabled || !c.listening || (c.state != Rotate && c.state != Dolly) ==> r == c
  {
    var s := c.settings;
    if !s.enabled || !c.listening then c
    else if c.state == Rotate then
      if !s.enableRotate then c else MoveRotate(c, Point(x, y), env)
    else if c.state == Dolly then
      if !s.enableZoom then c else MoveDolly(c, Point(x, y), env)
    else c
  }

  /** `onMouseUp`, delivered only while the document listeners are
      registered: ends the gesture and unregisters them. */
  function OnMouseUp(c: Controls): (r: (Controls, seq<Notice>))
    ensures c.settings.enabled && c.listening ==> r == (c.(listening := false, state := None), [End])
    ensures !c.settings.enabled || !c.listening ==> r == (c, [])
  {
    if !c.settings.enabled || !c.listening then (c, [])
    else (c.(listening := false, state := None), [End])
  }

  /** `onMouseWheel`: zooms only when nothing but a rotation is in
      progress. */
  function OnMouseWheel(c: Controls, deltaY: real, env: Env): (r: (Controls, seq<Notice>))
    requires Zoomable(c, env)
    ensures r.0.settings == c.settings && r.0.state == c.state
    ensures !c.settings.enabled || !c.settings.enableZoom || (c.state != None && c.state != Rotate) ==> r == (c, [])
    ensures c.settings.enabled && c.settings.enableZoom && (c.state == None || c.state == Rotate)
      ==> r.1 == [Start, End]
  {
    var s := c.settings;
    if !s.enabled || !s.enableZoom || (c.state != None && c.state != Rotate) then (c, [])
    else (Wheel(c, deltaY, env), [Start, End])
  }

  /** `onTouchStart`: one finger rotates, two dolly, three are ignored, any
      other count ends the gesture. */
  function OnTouchStart(c: Controls, ts: seq<Point>, m: Maths.Functions): (r: (Controls, seq<Notice>))
    ensures r.0.settings == c.settings
    ensures !c.settings.enabled || |ts| == 3 ==> r == (c, [])
    ensures c.settings.enabled && |ts| == 1 && c.settings.enableRotate
      ==> r == (c.(rotateStart := ts[0], state := TouchRotate), [Start])
    ensures c.settings.enabled && |ts| == 2 && c.settings.enableZoom
      ==> r == (c.(dollyStart := Point(0.0, TouchDistance(ts, m)), state := TouchDolly), [Start])
    ensures c.settings.enabled && (|ts| == 0 || |ts| > 3) ==> r == (c.(state := None), [])
  {
    var s := c.settings;
    if !s.enabled then (c, [])
    else if |ts| == 1 then
      if !s.enableRotate then (c, [])
      else (c.(rotateStart := ts[0], state := TouchRotate), [Start])
    else if |ts| == 2 then
      if !s.enableZoom then (c, [])
      else (c.(dollyStart := Point(0.0, TouchDistance(ts, m)), state := TouchDolly), [Start])
    else if |ts| == 3 then (c, [])
    else (c.(state := None), [])
  }

  /** `onTouchMove`: moves only the gesture the finger count started. */
  function OnTouchMove(c: Controls, ts: seq<Point>, env: Env): (r: Controls)
    requires Zoomable(c, env) && (|ts| == 1 && c.state == TouchRotate ==> Sized(env))
    ensures r.settings == c.settings
    ensures !c.settings.enabled || |ts| == 3 ==> r == c
    ensures |ts| == 1 && c.state != TouchRotate ==> r == c
    ensures |ts| == 2 && c.state != TouchDolly ==> r == c
    ensures c.settings.enabled && (|ts| == 0 || |ts| > 3) ==> r == c.(state := None)
    ensures 1 <= |ts| <= 3 ==> r.state == c.state
  {
    var s := c.settings;
    if !s.enabled then c
    else if |ts| == 1 then
      if !s.enableRotate || c.state != TouchRotate then c
      else MoveRotate(c, ts[0], env)
    else if |ts| == 2 then
      if !s.enableZoom || c.state != TouchDolly then c
      else MoveTouchDolly(c, TouchDistance(ts, env.maths), env)
    else if |ts| == 3 then c
    else c.(state := None)
  }

  /** `onTouchEnd`: ends the gesture. */
  function OnTouchEnd(c: Controls): (r: (Controls, seq<Notice>))
    ensures c.settings.enabled ==> r == (c.(state := None), [End])
    ensures !c.settings.enabled ==> r == (c, [])
  {
    if !c.settings.enabled then (c, []) else (c.(state := None), [End])
  }

  /** One input delivered to its handler. */
  function Handle(c: Controls, input: Input, env: Env): (r: (Controls, seq<Notice>))
    requires Sound(c, input, env)
    ensures r.0.settings == c.settings
    ensures !c.settings.enabled ==> r == (c, [])
  {
    match input
    case MouseDown(button, x, y) => OnMouseDown(c, button, x, y)
    case MouseMove(x, y) => (OnMouseMove(c, x, y, env), [])
    case MouseUp => OnMouseUp(c)
    case MouseWheel(deltaY) => OnMouseWheel(c, deltaY, env)
    case TouchStart(ts) => OnTouchStart(c, ts, env.maths)
    case TouchMove(ts) => (OnTouchMove(c, ts, env), [])
    case TouchEnd => OnTouchEnd(c)
  }

  // ---------------------------------------------------------------------
  // Properties

  /** Without a running animation, no gesture takes the zoom outside its
      limits. */
  lemma GesturesKeepZoomInRange(c: Controls, input: Input, env: Env)
    requires Sound(c, input, env) && !c.animate
    requires c.settings.maxZoom.At? ==> c.settings.minZoom <= c.settings.maxZoom.value
    requires InZoomRange(c.settings, c.zoom)
    ensures InZoomRange(c.settings, Handle(c, input, env).0.zoom)
  {
    match input
    case MouseMove(x, y) => MouseMoveKeepsZoom(c, x, y, env);
    case TouchMove(ts) => TouchMoveKeepsZoom(c, ts, env);
    case MouseWheel(deltaY) => WheelKeepsZoom(c, deltaY, env);
    case _ =>
  }

  lemma MouseMoveKeepsZoom(c: Controls, x: real, y: real, env: Env)
    requires Zoomable(c, env) && (c.state == Rotate ==> Sized(env)) && !c.animate
    requires c.settings.maxZoom.At? ==> c.settings.minZoom <= c.settings.maxZoom.value
    requires InZoomRange(c.settings, c.zoom)
    ensures InZoomRange(c.settings, OnMouseMove(c, x, y, env).zoom)
  {
    var scale := ZoomScale(c, env);
    assert InZoomRange(c.settings, DollyIn(c, scale).zoom);
    assert InZoomRange(c.settings, DollyOut(c, scale).zoom);
    if c.listening && c.state == Dolly && c.settings.enableZoom {
      var p := Point(x, y);
      var dy := p.y - c.dollyStart.y;
      var zoomed := if dy > 0.0 then DollyIn(c, scale) else if dy < 0.0 then DollyOut(c, scale) else c;
      assert MoveDolly(c, p, env).zoom == zoomed.zoom;
    }
  }

  lemma TouchMoveKeepsZoom(c: Controls, ts: seq<Point>, env: Env)
    requires Zoomable(c, env) && (|ts| == 1 && c.state == TouchRotate ==> Sized(env)) && !c.animate
    requires c.settings.maxZoom.At? ==> c.settings.minZoom <= c.settings.maxZoom.value
    requires InZoomRange(c.settings, c.zoom)
    ensures InZoomRange(c.settings, OnTouchMove(c, ts, env).zoom)
  {
    var scale := ZoomScale(c, env);
    assert InZoomRange(c.settings, DollyIn(c, scale).zoom);
    assert InZoomRange(c.settings, DollyOut(c, scale).zoom);
    if |ts| == 2 && c.settings.enableZoom && c.state == TouchDolly {
      var distance := TouchDistance(ts, env.maths);
      var dy := distance - c.dollyStart.y;
      var zoomed := if dy > 0.0 then DollyOut(c, scale) else if dy < 0.0 then DollyIn(c, scale) else c;
      assert MoveTouchDolly(c, distance, env).zoom == zoomed.zoom;
    }
  }

  lemma WheelKeepsZoom(c: Controls, deltaY: real, env: Env)
    requires Zoomable(c, env) && !c.animate
    requires c.settings.maxZoom.At? ==> c.settings.minZoom <= c.settings.maxZoom.value
    requires InZoomRange(c.settings, c.zoom)
    ensures InZoomRange(c.settings, OnMouseWheel(c, deltaY, env).0.zoom)
  {
    var scale := ZoomScale(c, env);
    assert InZoomRange(c.settings, DollyIn(c, scale).zoom);
    assert InZoomRange(c.settings, DollyOut(c, scale).zoom);
    var zoomed := if deltaY < 0.0 then DollyOut(c, scale) else if deltaY > 0.0 then DollyIn(c, scale) else c;
    assert Wheel(c, deltaY, env).zoom == zoomed.zoom;
  }

  /** An update at or after the end of a running animation lands on its
      final pose and stops it. */
  lemma UpdateAtEnd(c: Controls, env: Env)
    requires c.animate && c.state == None
    requires c.animation.timeDelta > 0.0 && env.now >= c.animation.time0 + c.animation.timeDelta
    ensures var r, a := Update(c, env), c.animation;
      && !r.animate
      && r.target == Add(a.target0, a.targetDelta)
      && (env.maths.pow(a.zoomFactor, 1.0) == a.zoomFactor ==> r.zoom == a.zoom0 * a.zoomFactor)
      && r.spherical == Constrain(c.settings, Spherical(
           a.spherical0.radius + a.sphericalDelta.radius,
           a.spherical0.phi + a.sphericalDelta.phi,
           a.spherical0.theta + a.sphericalDelta.theta))
  {
    var a := c.animation;
    assert AnimationProgress(a, env.now) == 1.0;
    assert EaseInEaseOut(1.0) == 1.0;
    assert AddScaled(a.target0, a.targetDelta, 1.0) == Add(a.target0, a.targetDelta);
    assert AnimatedSpherical(a, 1.0) == Spherical(
      a.spherical0.radius + a.sphericalDelta.radius,
      a.spherical0.phi + a.sphericalDelta.phi,
      a.spherical0.theta + a.sphericalDelta.theta);
  }

  /** An animation started with no duration factor, once its duration has
      passed, leaves the camera on the requested target and zoom, and
      stops. */
  lemma AnimationEndsAtPose(c: Controls, relativePosition: Vec3, target: Vec3, zoom: real, env: Env, later: Env)
    requires AnimationSpeedsValid(c.settings, env.maths) && c.zoom != 0.0 && c.state == None
    requires var started := AnimateToPose(c, relativePosition, target, zoom, Wrappers.None, env);
      later.now >= started.animation.time0 + started.animation.timeDelta
    requires later.maths.pow(zoom / c.zoom, 1.0) == zoom / c.zoom
    ensures var r := Update(AnimateToPose(c, relativePosition, target, zoom, Wrappers.None, env), later);
      !r.animate && r.target == target && r.zoom == zoom
  {
    var started := AnimateToPose(c, relativePosition, target, zoom, Wrappers.None, env);
    PoseReached(c.target, c.zoom, started, later, target, zoom);
  }

  /** A running animation from `from` at `zoom0`, past its end, lands. */
  lemma PoseReached(from: Vec3, zoom0: real, started: Controls, later: Env, target: Vec3, zoom: real)
    requires started.animate && started.state == None && started.animation.timeDelta >= 1.0
    requires started.animation.target0 == from && started.animation.targetDelta == Sub(target, from)
    requires zoom0 != 0.0 && started.animation.zoom0 == zoom0 && started.animation.zoomFactor == zoom / zoom0
    requires later.now >= started.animation.time0 + started.animation.timeDelta
    requires later.maths.pow(zoom / zoom0, 1.0) == zoom / zoom0
    ensures var r := Update(started, later); !r.animate && r.target == target && r.zoom == zoom
  {
    StartedAnimation(started.animation, from, target, zoom);
    FinishedAnimationLands(started, later, target, zoom);
  }

  /** The end pose an animation records is the one it was started with. */
  lemma StartedAnimation(a: Animation, from: Vec3, target: Vec3, zoom: real)
    requires a.target0 == from && a.targetDelta == Sub(target, from)
    requires a.zoom0 != 0.0 && a.zoomFactor == zoom / a.zoom0
    ensures Add(a.target0, a.targetDelta) == target
    ensures a.zoom0 * a.zoomFactor == zoom
  {
    AddSubCancel(from, target);
    QuotientTimesDivisor(zoom, a.zoom0, a.zoomFactor);
    Commute(a.zoomFactor, a.zoom0, zoom, a.zoom0 * a.zoomFactor);
  }

  lemma FinishedAnimationLands(started: Controls, later: Env, target: Vec3, zoom: real)
    requires started.animate && started.state == None && started.animation.timeDelta > 0.0
    requires later.now >= started.animation.time0 + started.animation.timeDelta
    requires later.maths.pow(started.animation.zoomFactor, 1.0) == started.animation.zoomFactor
    requires Add(started.animation.target0, started.animation.targetDelta) == target
    requires started.animation.zoom0 * started.animation.zoomFactor == zoom
    ensures var r := Update(started, later); !r.animate && r.target == target && r.zoom == zoom
  {
    UpdateAtEnd(started, later);
  }

  lemma Commute(x: real, y: real, p: real, q: real)
    requires p == x * y && q == y * x
    ensures q == p
  {
  }

  lemma AddSubCancel(a: Vec3, b: Vec3)
    ensures Add(a, Sub(b, a)) == b
  {
  }

  /** The same animation, when the azimuth is not limited, ends on the
      requested azimuth up to whole turns. */
  lemma AnimationEndsOnAzimuth(c: Controls, relativePosition: Vec3, target: Vec3, zoom: real, env: Env, later: Env)
    requires AnimationSpeedsValid(c.settings, env.maths) && c.zoom != 0.0 && c.state == None
    requires c.settings.minAzimuthAngle.Unbounded? && c.settings.maxAzimuthAngle.Unbounded?
    requires var started := AnimateToPose(c, relativePosition, target, zoom, Wrappers.None, env);
      later.now >= started.animation.time0 + started.animation.timeDelta
    ensures var r := Update(AnimateToPose(c, relativePosition, target, zoom, Wrappers.None, env), later);
      MultipleOf(env.sphericalFromPosition(relativePosition).theta - r.spherical.theta, 2.0 * Maths.Pi)
  {
    var started := AnimateToPose(c, relativePosition, target, zoom, Wrappers.None, env);
    var a := started.animation;
    assert a.timeDelta >= 1.0 && started.state == None && started.animate;
    var from, to := a.spherical0, env.sphericalFromPosition(relativePosition);
    assert a.sphericalDelta == ShortestDelta(from, to);
    UpdateAtEnd(started, later);
    assert to.theta - (from.theta + a.sphericalDelta.theta) == to.theta - from.theta - a.sphericalDelta.theta;
  }
}
