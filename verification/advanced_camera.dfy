/** The viewer's camera: a perspective camera whose projection matrix is
    blended, element by element, with an orthographic one framing the
    same view at the target's distance.  A blend factor of 0 is the
    perspective projection and 1 the orthographic one.

    THREE's `Matrix4.makePerspective`, `makeOrthographic`, `invert`,
    `Vector3.applyMatrix4` and `Object3D.updateMatrix` are not written
    out: they arrive in a `Projections` record, as the transcendental
    functions arrive in `Maths.Functions`. */
module AdvancedCamera {
  import opened Wrappers
  import opened Numbers
  import opened Vectors
  import Maths
  import CameraOrientations

  const Deg2Rad: real := Maths.Pi / 180.0

  /** The four planes of a view frustum, at some distance from the camera. */
  datatype Bounds = Bounds(left: real, right: real, top: real, bottom: real)

  /** `setViewOffset`: the part of a larger, tiled image this camera
      renders. */
  datatype View = View(fullWidth: real, fullHeight: real, offsetX: real, offsetY: real, width: real, height: real)

  datatype Ray = Ray(origin: Vec3, direction: Vec3)

  /** The parameters of `THREE.PerspectiveCamera` the bounds depend on. */
  datatype Lens = Lens(
    fov: real, aspect: real, near: real, far: real, zoom: real,
    view: Option<View>, filmOffset: real, filmGauge: real)

  datatype Camera = Camera(
    lens: Lens,
    position: Vec3, rotation: CameraOrientations.Euler, up: Vec3,
    target: Option<Vec3>,
    orthographicLerp: real,
    projection: Matrix, matrix: Matrix, matrixWorld: Matrix)

  datatype Projections = Projections(
    makePerspective: (Bounds, real, real) -> Matrix,
    makeOrthographic: (Bounds, real, real) -> Matrix,
    invert: Matrix -> Matrix,
    apply: (Vec3, Matrix) -> Vec3,
    compose: (Vec3, CameraOrientations.Euler) -> Matrix,
    maths: Maths.Functions)

  /** THREE's `getFilmWidth`. */
  function FilmWidth(l: Lens): real {
    l.filmGauge * Min(l.aspect, 1.0)
  }

  /** What the bounds computation divides by is non-zero. */
  predicate Sound(l: Lens) {
    && l.zoom != 0.0
    && (l.view.Some? ==> l.view.value.fullWidth != 0.0 && l.view.value.fullHeight != 0.0)
    && (l.filmOffset != 0.0 ==> FilmWidth(l) != 0.0)
  }

  // ---------------------------------------------------------------------
  // Bounds

  /** The frustum at `distance` for the whole image, centred on the view
      axis: the vertical field of view gives the top, the aspect ratio the
      sides. */
  function Frustum(l: Lens, m: Maths.Functions, distance: real): (r: Bounds)
    requires l.zoom != 0.0
    ensures r.top == distance * m.tan(Deg2Rad * 0.5 * l.fov) / l.zoom
    ensures r.bottom == -r.top && r.left == -r.right
    ensures r.right == l.aspect * r.top
  {
    var top := distance * m.tan(Deg2Rad * 0.5 * l.fov) / l.zoom;
    var height := 2.0 * top;
    var width := l.aspect * height;
    var left := -0.5 * width;
    Bounds(left, left + width, top, top - height)
  }

  /** The part of the frustum a sub-view covers: shifted right by its
      horizontal offset and down by its vertical one, both as fractions of
      the full image, and scaled by its share of the full width and
      height. */
  function SubView(f: Bounds, view: Option<View>): (r: Bounds)
    requires view.Some? ==> view.value.fullWidth != 0.0 && view.value.fullHeight != 0.0
    ensures view.None? ==> r == f
    ensures view.Some? ==> var v := view.value;
      && r.left == f.left + v.offsetX * (f.right - f.left) / v.fullWidth
      && r.top == f.top - v.offsetY * (f.top - f.bottom) / v.fullHeight
      && r.right - r.left == (f.right - f.left) * (v.width / v.fullWidth)
      && r.top - r.bottom == (f.top - f.bottom) * (v.height / v.fullHeight)
  {
    if view.None? then f
    else
      var v := view.value;
      var width, height := f.right - f.left, f.top - f.bottom;
      var left := f.left + v.offsetX * width / v.fullWidth;
      var top := f.top - v.offsetY * height / v.fullHeight;
      Bounds(left, left + width * (v.width / v.fullWidth), top, top - height * (v.height / v.fullHeight))
  }

  /** A sub-view that is the whole image, with no offset, covers the whole
      frustum. */
  lemma WholeSubView(f: Bounds, v: View)
    requires v.fullWidth != 0.0 && v.fullHeight != 0.0
    requires v.offsetX == 0.0 && v.offsetY == 0.0 && v.width == v.fullWidth && v.height == v.fullHeight
    ensures SubView(f, Some(v)) == SubView(f, None)
  {
    assert v.width / v.fullWidth == 1.0 && v.height / v.fullHeight == 1.0;
  }

  /** The film offset moves the bounds sideways by `near * offset / film
      width` and changes nothing else. */
  function FilmShift(b: Bounds, l: Lens): (r: Bounds)
    requires l.filmOffset != 0.0 ==> FilmWidth(l) != 0.0
    ensures r.top == b.top && r.bottom == b.bottom
    ensures r.right - r.left == b.right - b.left
    ensures l.filmOffset == 0.0 ==> r == b
    ensures l.filmOffset != 0.0 ==> r.left == b.left + l.near * l.filmOffset / FilmWidth(l)
  {
    if l.filmOffset == 0.0 then b
    else
      var left := b.left + l.near * l.filmOffset / FilmWidth(l);
      Bounds(left, left + (b.right - b.left), b.top, b.bottom)
  }

  /** `getPerspectiveViewBounds(distance)`. */
  function ViewBounds(l: Lens, m: Maths.Functions, distance: real): (r: Bounds)
    requires Sound(l)
    ensures l.view.None? && l.filmOffset == 0.0 ==> r == Frustum(l, m, distance)
    ensures l.view.None? ==> r.top == -r.bottom && r.right - r.left == 2.0 * l.aspect * r.top
  {
    FilmShift(SubView(Frustum(l, m, distance), l.view), l)
  }

  // ---------------------------------------------------------------------
  // The projection

  /** Element by element, `(1 - t)` of `p` plus `t` of `o`. */
  function Blend(t: real, p: Matrix, o: Matrix): (r: Matrix) {
    seq(16, i requires 0 <= i < 16 => (1.0 - t) * p[i] + t * o[i])
  }

  lemma BlendEnds(p: Matrix, o: Matrix)
    ensures Blend(0.0, p, o) == p && Blend(1.0, p, o) == o
  {
  }

  /** For a blend factor between 0 and 1 each element lies between the
      two it blends. */
  lemma BlendBetween(t: real, p: Matrix, o: Matrix, i: nat)
    requires 0.0 <= t <= 1.0 && i < 16
    ensures Min(p[i], o[i]) <= Blend(t, p, o)[i] <= Max(p[i], o[i])
  {
    var a, b := p[i], o[i];
    Between(t, a, b, t * (b - a));
    assert Blend(t, p, o)[i] == a + t * (b - a);
  }

  lemma Between(t: real, a: real, b: real, d: real)
    requires 0.0 <= t <= 1.0 && d == t * (b - a)
    ensures a <= b ==> 0.0 <= d <= b - a
    ensures b <= a ==> b - a <= d <= 0.0
  {
    var w := b - a;
    assert (1.0 - t) * w == w - d;
    if a <= b {
      NonNegativeProduct(t, w, d);
      NonNegativeProduct(1.0 - t, w, w - d);
    } else {
      NonNegativeProduct(t, -w, -d);
      NonNegativeProduct(1.0 - t, -w, d - w);
    }
  }

  /** The distance the orthographic frustum is taken at. */
  function DistanceToTarget(c: Camera, m: Maths.Functions): real
    requires c.target.Some?
  {
    Length(m, Sub(c.position, c.target.value))
  }

  function PerspectiveMatrix(c: Camera, p: Projections): Matrix
    requires Sound(c.lens)
  {
    p.makePerspective(ViewBounds(c.lens, p.maths, c.lens.near), c.lens.near, c.lens.far)
  }

  function OrthographicMatrix(c: Camera, p: Projections): Matrix
    requires Sound(c.lens) && c.target.Some?
  {
    p.makeOrthographic(ViewBounds(c.lens, p.maths, DistanceToTarget(c, p.maths)), c.lens.near, c.lens.far)
  }

  /** `updateProjectionMatrix()`: while the target is not yet set (during
      THREE's own constructor) nothing happens; otherwise the projection
      becomes the blend of the two matrices, and nothing else changes. */
  function UpdateProjectionMatrix(c: Camera, p: Projections): (r: Camera)
    requires Sound(c.lens)
    ensures c.target.None? ==> r == c
    ensures r == c.(projection := r.projection)
    ensures c.target.Some? ==> forall i :: 0 <= i < 16 ==>
      r.projection[i] == (1.0 - c.orthographicLerp) * PerspectiveMatrix(c, p)[i]
                         + c.orthographicLerp * OrthographicMatrix(c, p)[i]
  {
    if c.target.None? then c
    else c.(projection := Blend(c.orthographicLerp, PerspectiveMatrix(c, p), OrthographicMatrix(c, p)))
  }

  /** A blend factor of 0 gives the perspective projection of the frustum
      at the near plane, 1 the orthographic projection of the frustum at
      the target. */
  lemma ProjectionEnds(c: Camera, p: Projections)
    requires Sound(c.lens) && c.target.Some?
    ensures c.orthographicLerp == 0.0 ==>
      UpdateProjectionMatrix(c, p).projection
        == p.makePerspective(ViewBounds(c.lens, p.maths, c.lens.near), c.lens.near, c.lens.far)
    ensures c.orthographicLerp == 1.0 ==>
      UpdateProjectionMatrix(c, p).projection
        == p.makeOrthographic(ViewBounds(c.lens, p.maths, DistanceToTarget(c, p.maths)), c.lens.near, c.lens.far)
  {
    BlendEnds(PerspectiveMatrix(c, p), OrthographicMatrix(c, p));
  }

  /** Updating twice is updating once: the projection depends on nothing
      the update changes. */
  lemma UpdateProjectionIdempotent(c: Camera, p: Projections)
    requires Sound(c.lens)
    ensures UpdateProjectionMatrix(UpdateProjectionMatrix(c, p), p) == UpdateProjectionMatrix(c, p)
  {
  }

  /** `setAspect(aspect)`: the aspect ratio changes and the projection is
      recomputed for it. */
  function SetAspect(c: Camera, aspect: real, p: Projections): (r: Camera)
    requires Sound(c.lens.(aspect := aspect))
    ensures r.lens == c.lens.(aspect := aspect)
    ensures r == c.(lens := r.lens, projection := r.projection)
    ensures c.target.Some? ==>
      r.projection == Blend(c.orthographicLerp, PerspectiveMatrix(r, p), OrthographicMatrix(r, p))
  {
    UpdateProjectionMatrix(c.(lens := c.lens.(aspect := aspect)), p)
  }

  /** Setting the same aspect ratio twice is setting it once. */
  lemma SetAspectIdempotent(c: Camera, aspect: real, p: Projections)
    requires Sound(c.lens.(aspect := aspect))
    ensures SetAspect(SetAspect(c, aspect, p), aspect, p) == SetAspect(c, aspect, p)
  {
    var r := SetAspect(c, aspect, p);
    assert r.(lens := r.lens.(aspect := aspect)) == r;
    UpdateProjectionIdempotent(c.(lens := c.lens.(aspect := aspect)), p);
  }

  /** `setOrientation(orientation)`: position, rotation, target and up
      are copied (every orientation has an up vector), the projection is
      recomputed and the local matrix recomposed. */
  function SetOrientation(c: Camera, o: CameraOrientations.Orientation, p: Projections): (r: Camera)
    requires Sound(c.lens)
    ensures r.position == o.position && r.rotation == o.rotation
    ensures r.target == Some(o.target) && r.up == o.up
    ensures r.matrix == p.compose(o.position, o.rotation)
    ensures r.lens == c.lens && r.matrixWorld == c.matrixWorld
    ensures UpdateProjectionMatrix(r, p) == r
  {
    var d := c.(position := o.position, rotation := o.rotation, target := Some(o.target), up := o.up);
    var e := UpdateProjectionMatrix(d, p);
    e.(matrix := p.compose(e.position, e.rotation))
  }

  // ---------------------------------------------------------------------
  // Picking

  /** `unprojectVector3(v)`: refresh the projection, invert it in place,
      then map `v` through the inverse and the world matrix.  The camera
      is left holding the inverted matrix. */
  function Unproject(c: Camera, v: Vec3, p: Projections): (r: (Camera, Vec3))
    requires Sound(c.lens)
    ensures var inverse := p.invert(UpdateProjectionMatrix(c, p).projection);
      && r.0 == c.(projection := inverse)
      && r.1 == p.apply(p.apply(v, inverse), c.matrixWorld)
  {
    var inverse := p.invert(UpdateProjectionMatrix(c, p).projection);
    (c.(projection := inverse), p.apply(p.apply(v, inverse), c.matrixWorld))
  }

  /** `getRay(coords)`: from the near-plane point under the cursor
      towards the far-plane point, as a unit direction.  Once the target
      is set both points go through the same inverse projection; the
      camera is left holding that inverse until the next update. */
  function GetRay(c: Camera, x: real, y: real, p: Projections): (r: (Camera, Ray))
    requires Sound(c.lens)
    ensures c.target.Some? ==>
      var inverse := p.invert(UpdateProjectionMatrix(c, p).projection);
      var near := p.apply(p.apply(Vec3(x, y, -1.0), inverse), c.matrixWorld);
      var far := p.apply(p.apply(Vec3(x, y, 1.0), inverse), c.matrixWorld);
      && r.1.origin == near
      && r.1.direction == Normalize(p.maths, Sub(far, near))
      && r.0 == c.(projection := inverse)
  {
    var (c1, near) := Unproject(c, Vec3(x, y, -1.0), p);
    assert c.target.Some? ==> UpdateProjectionMatrix(c1, p) == UpdateProjectionMatrix(c, p) by {
      if c.target.Some? {
        assert PerspectiveMatrix(c1, p) == PerspectiveMatrix(c, p);
        assert OrthographicMatrix(c1, p) == OrthographicMatrix(c, p);
      }
    }
    var (c2, far) := Unproject(c1, Vec3(x, y, 1.0), p);
    (c2, Ray(near, Normalize(p.maths, Sub(far, near))))
  }
}
