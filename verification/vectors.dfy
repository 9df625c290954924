/** Three-component vectors of reals, as `THREE.Vector3` holds them,
    spherical coordinates, as `THREE.Spherical` holds them, and the few
    operations on them the viewer performs. */
module Vectors {
  import Maths
  import opened Numbers

  datatype Vec3 = Vec3(x: real, y: real, z: real)

  const Origin := Vec3(0.0, 0.0, 0.0)

  function Add(a: Vec3, b: Vec3): Vec3 {
    Vec3(a.x + b.x, a.y + b.y, a.z + b.z)
  }

  function Sub(a: Vec3, b: Vec3): Vec3 {
    Vec3(a.x - b.x, a.y - b.y, a.z - b.z)
  }

  function Scale(a: Vec3, s: real): Vec3 {
    Vec3(a.x * s, a.y * s, a.z * s)
  }

  function LengthSquared(a: Vec3): (r: real)
    ensures r >= 0.0
  {
    Square(a.x);
    Square(a.y);
    Square(a.z);
    a.x * a.x + a.y * a.y + a.z * a.z
  }

  lemma Square(x: real)
    ensures x * x >= 0.0
  {
    if x < 0.0 {
      assert x * x == (-x) * (-x);
    }
  }

  /** `v.length()`. */
  function Length(m: Maths.Functions, a: Vec3): real {
    m.sqrt(LengthSquared(a))
  }

  /** `v.normalize()`: divides by the length, or by 1 when the length is
      zero. */
  function Normalize(m: Maths.Functions, a: Vec3): (r: Vec3)
    ensures Length(m, a) != 0.0 ==> r == Scale(a, 1.0 / Length(m, a))
    ensures Length(m, a) == 0.0 ==> r == a
  {
    var len := Length(m, a);
    Scale(a, 1.0 / (if len != 0.0 then len else 1.0))
  }

  /** `a.dot(b)`. */
  function Dot(a: Vec3, b: Vec3): real {
    a.x * b.x + a.y * b.y + a.z * b.z
  }

  /** `a.cross(b)`: perpendicular to both. */
  function Cross(a: Vec3, b: Vec3): (r: Vec3)
    ensures Dot(r, a) == 0.0 && Dot(r, b) == 0.0
  {
    Vec3(a.y * b.z - a.z * b.y, a.z * b.x - a.x * b.z, a.x * b.y - a.y * b.x)
  }

  /** `a.copy(a0).addScaledVector(d, t)`. */
  function AddScaled(a: Vec3, d: Vec3, t: real): Vec3 {
    Add(a, Scale(d, t))
  }

  // ---------------------------------------------------------------------
  // Spherical coordinates

  /** A radius, a polar angle `phi` measured from the up axis and an
      azimuth `theta` around it. */
  datatype Spherical = Spherical(radius: real, phi: real, theta: real)

  /** THREE's `Spherical.makeSafe`: keeps phi a hair away from the poles. */
  const SafeEps: real := 0.000001

  function MakeSafe(phi: real): (r: real)
    ensures SafeEps <= r <= Maths.Pi - SafeEps
    ensures SafeEps <= phi <= Maths.Pi - SafeEps ==> r == phi
  {
    Max(SafeEps, Min(Maths.Pi - SafeEps, phi))
  }

  // ---------------------------------------------------------------------
  // Colours, four-vectors and matrices

  /** `THREE.Vector4`. */
  datatype Vec4 = Vec4(x: real, y: real, z: real, w: real)

  /** A colour's red, green and blue parts, as `THREE.Color` holds them. */
  const White := Vec3(1.0, 1.0, 1.0)

  /** `a.lerp(b, t)`: each part moves the fraction `t` of the way to `b`. */
  function Lerp(a: Vec3, b: Vec3, t: real): Vec3 {
    Vec3(a.x + (b.x - a.x) * t, a.y + (b.y - a.y) * t, a.z + (b.z - a.z) * t)
  }

  lemma LerpEnds(a: Vec3, b: Vec3)
    ensures Lerp(a, b, 0.0) == a && Lerp(a, b, 1.0) == b
  {
  }

  /** A 4x4 matrix as THREE stores it: sixteen elements, column by column,
      so the element in row `r` and column `c` is at `4 * c + r`. */
  type Matrix = m: seq<real> | |m| == 16 witness seq(16, i => 0.0)

  function At(m: Matrix, row: nat, column: nat): real
    requires row < 4 && column < 4
  {
    m[4 * column + row]
  }

  /** `a.multiply(b)`: the product `a * b`. */
  function Multiply(a: Matrix, b: Matrix): (r: Matrix)
    ensures forall row, column :: 0 <= row < 4 && 0 <= column < 4 ==> At(r, row, column) == Cell(a, b, row, column)
  {
    seq(16, i requires 0 <= i < 16 => Cell(a, b, i % 4, i / 4))
  }

  /** One element of a product: a row of `a` against a column of `b`. */
  function Cell(a: Matrix, b: Matrix, row: nat, column: nat): real
    requires row < 4 && column < 4
  {
    At(a, row, 0) * At(b, 0, column) + At(a, row, 1) * At(b, 1, column)
    + At(a, row, 2) * At(b, 2, column) + At(a, row, 3) * At(b, 3, column)
  }

  /** `makeTranslation(x, y, z)`: the identity with the offset in the last
      column. */
  function Translation(t: Vec3): (r: Matrix) {
    seq(16, i requires 0 <= i < 16 =>
      if i == 0 || i == 5 || i == 10 || i == 15 then 1.0
      else if i == 12 then t.x else if i == 13 then t.y else if i == 14 then t.z
      else 0.0)
  }
}
