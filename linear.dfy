/** The value types of cgmath that the crate computes with: `Vector1`..`Vector4`
    and `Matrix2`..`Matrix4` over `f64`.

    cgmath itself is not part of this model. Its operators are stated here as
    the componentwise definitions cgmath documents (a matrix is its vector
    fields, combined field by field), over the symbolic floats of `F64`. The
    `Vector1`..`Matrix4` wrappers in the crate's vectors and matrices directories are
    single-field Rust newtypes whose operators forward to these, so they are
    identified with them. */
module Linear {
  import opened F64

  /** The float literal 0.0 (IEEE-754 bit pattern all zeros). */
  const Zero: Num := Lit(0)

  /** cgmath's `Vector1<f64>`: components x. */
  datatype Vector1 = Vector1(x: Num) {

    /** All components, in the order x. */
    function Components(): seq<Num> { [x] }

    /** Component `i`, counting x from 0. */
    function At(i: nat): Num
      requires i < 1
    {
      Components()[i]
    }

    /** `self + other`: the componentwise sum. */
    function Add(other: Vector1): (r: Vector1)
      ensures forall i | 0 <= i < 1 :: r.At(i) == Sum(At(i), other.At(i))
    {
      Vector1(Sum(x, other.x))
    }

    /** `self - other`: the componentwise difference. */
    function Sub(other: Vector1): (r: Vector1)
      ensures forall i | 0 <= i < 1 :: r.At(i) == Difference(At(i), other.At(i))
    {
      Vector1(Difference(x, other.x))
    }

    /** `self * s` for a scalar `s`: the product of every component with `s`. */
    function Mul(s: Num): (r: Vector1)
      ensures forall i | 0 <= i < 1 :: r.At(i) == Product(At(i), s)
    {
      Vector1(Product(x, s))
    }

    /** `self / s` for a scalar `s`: the quotient of every component with `s`. */
    function Div(s: Num): (r: Vector1)
      ensures forall i | 0 <= i < 1 :: r.At(i) == Quotient(At(i), s)
    {
      Vector1(Quotient(x, s))
    }

    /** `self % s` for a scalar `s`: the remainder of every component with `s`. */
    function Rem(s: Num): (r: Vector1)
      ensures forall i | 0 <= i < 1 :: r.At(i) == Remainder(At(i), s)
    {
      Vector1(Remainder(x, s))
    }
  }

  /** cgmath's `Vector2<f64>`: components x, y. */
  datatype Vector2 = Vector2(x: Num, y: Num) {

    /** All components, in the order x, y. */
    function Components(): seq<Num> { [x, y] }

    /** Component `i`, counting x, y from 0. */
    function At(i: nat): Num
      requires i < 2
    {
      Components()[i]
    }

    /** `self + other`: the componentwise sum. */
    function Add(other: Vector2): (r: Vector2)
      ensures forall i | 0 <= i < 2 :: r.At(i) == Sum(At(i), other.At(i))
    {
      Vector2(Sum(x, other.x), Sum(y, other.y))
    }

    /** `self - other`: the componentwise difference. */
    function Sub(other: Vector2): (r: Vector2)
      ensures forall i | 0 <= i < 2 :: r.At(i) == Difference(At(i), other.At(i))
    {
      Vector2(Difference(x, other.x), Difference(y, other.y))
    }

    /** `self * s` for a scalar `s`: the product of every component with `s`. */
    function Mul(s: Num): (r: Vector2)
      ensures forall i | 0 <= i < 2 :: r.At(i) == Product(At(i), s)
    {
      Vector2(Product(x, s), Product(y, s))
    }

    /** `self / s` for a scalar `s`: the quotient of every component with `s`. */
    function Div(s: Num): (r: Vector2)
      ensures forall i | 0 <= i < 2 :: r.At(i) == Quotient(At(i), s)
    {
      Vector2(Quotient(x, s), Quotient(y, s))
    }

    /** `self % s` for a scalar `s`: the remainder of every component with `s`. */
    function Rem(s: Num): (r: Vector2)
      ensures forall i | 0 <= i < 2 :: r.At(i) == Remainder(At(i), s)
    {
      Vector2(Remainder(x, s), Remainder(y, s))
    }

    /** cgmath's `perp_dot`: `self.x * other.y - self.y * other.x`, a scalar. */
    function PerpDot(other: Vector2): Num
    {
      Difference(Product(x, other.y), Product(y, other.x))
    }
  }

  /** cgmath's `Vector3<f64>`: components x, y, z. */
  datatype Vector3 = Vector3(x: Num, y: Num, z: Num) {

    /** All components, in the order x, y, z. */
    function Components(): seq<Num> { [x, y, z] }

    /** Component `i`, counting x, y, z from 0. */
    function At(i: nat): Num
      requires i < 3
    {
      Components()[i]
    }

    /** `self + other`: the componentwise sum. */
    function Add(other: Vector3): (r: Vector3)
      ensures forall i | 0 <= i < 3 :: r.At(i) == Sum(At(i), other.At(i))
    {
      Vector3(Sum(x, other.x), Sum(y, other.y), Sum(z, other.z))
    }

    /** `self - other`: the componentwise difference. */
    function Sub(other: Vector3): (r: Vector3)
      ensures forall i | 0 <= i < 3 :: r.At(i) == Difference(At(i), other.At(i))
    {
      Vector3(Difference(x, other.x), Difference(y, other.y), Difference(z, other.z))
    }

    /** `self * s` for a scalar `s`: the product of every component with `s`. */
    function Mul(s: Num): (r: Vector3)
      ensures forall i | 0 <= i < 3 :: r.At(i) == Product(At(i), s)
    {
      Vector3(Product(x, s), Product(y, s), Product(z, s))
    }

    /** `self / s` for a scalar `s`: the quotient of every component with `s`. */
    function Div(s: Num): (r: Vector3)
      ensures forall i | 0 <= i < 3 :: r.At(i) == Quotient(At(i), s)
    {
      Vector3(Quotient(x, s), Quotient(y, s), Quotient(z, s))
    }

    /** `self % s` for a scalar `s`: the remainder of every component with `s`. */
    function Rem(s: Num): (r: Vector3)
      ensures forall i | 0 <= i < 3 :: r.At(i) == Remainder(At(i), s)
    {
      Vector3(Remainder(x, s), Remainder(y, s), Remainder(z, s))
    }

    /** cgmath's `cross`: component `i` is built from the two components that
        follow `i` cyclically, `a[i+1] * b[i+2] - a[i+2] * b[i+1]`. */
    function Cross(other: Vector3): (r: Vector3)
      ensures forall i | 0 <= i < 3 ::
        r.At(i) == Difference(Product(At((i + 1) % 3), other.At((i + 2) % 3)),
                              Product(At((i + 2) % 3), other.At((i + 1) % 3)))
    {
      Vector3(Difference(Product(y, other.z), Product(z, other.y)),
              Difference(Product(z, other.x), Product(x, other.z)),
              Difference(Product(x, other.y), Product(y, other.x)))
    }
  }

  /** cgmath's `Vector4<f64>`: components x, y, z, w. */
  datatype Vector4 = Vector4(x: Num, y: Num, z: Num, w: Num) {

    /** All components, in the order x, y, z, w. */
    function Components(): seq<Num> { [x, y, z, w] }

    /** Component `i`, counting x, y, z, w from 0. */
    function At(i: nat): Num
      requires i < 4
    {
      Components()[i]
    }

    /** `self + other`: the componentwise sum. */
    function Add(other: Vector4): (r: Vector4)
      ensures forall i | 0 <= i < 4 :: r.At(i) == Sum(At(i), other.At(i))
    {
      Vector4(Sum(x, other.x), Sum(y, other.y), Sum(z, other.z), Sum(w, other.w))
    }

    /** `self - other`: the componentwise difference. */
    function Sub(other: Vector4): (r: Vector4)
      ensures forall i | 0 <= i < 4 :: r.At(i) == Difference(At(i), other.At(i))
    {
      Vector4(Difference(x, other.x), Difference(y, other.y), Difference(z, other.z), Difference(w, other.w))
    }

    /** `self * s` for a scalar `s`: the product of every component with `s`. */
    function Mul(s: Num): (r: Vector4)
      ensures forall i | 0 <= i < 4 :: r.At(i) == Product(At(i), s)
    {
      Vector4(Product(x, s), Product(y, s), Product(z, s), Product(w, s))
    }

    /** `self / s` for a scalar `s`: the quotient of every component with `s`. */
    function Div(s: Num): (r: Vector4)
      ensures forall i | 0 <= i < 4 :: r.At(i) == Quotient(At(i), s)
    {
      Vector4(Quotient(x, s), Quotient(y, s), Quotient(z, s), Quotient(w, s))
    }

    /** `self % s` for a scalar `s`: the remainder of every component with `s`. */
    function Rem(s: Num): (r: Vector4)
      ensures forall i | 0 <= i < 4 :: r.At(i) == Remainder(At(i), s)
    {
      Vector4(Remainder(x, s), Remainder(y, s), Remainder(z, s), Remainder(w, s))
    }
  }

  /** cgmath's `Matrix2<f64>`: 2 vector fields x, y of 2 components each.
      Entry `At(i, j)` is component `j` of field `i`. */
  datatype Matrix2 = Matrix2(x: Vector2, y: Vector2) {

    /** cgmath's `Matrix2::new`: the first 2 arguments fill field x, the next 2 field y, and so on. */
    static function New(c0r0: Num, c0r1: Num, c1r0: Num, c1r1: Num): Matrix2
    {
      Matrix2(Vector2(c0r0, c0r1), Vector2(c1r0, c1r1))
    }

    /** Vector field `i`, counting x, y from 0. */
    function Field(i: nat): Vector2
      requires i < 2
    {
      [x, y][i]
    }

    /** Component `j` of field `i`. */
    function At(i: nat, j: nat): Num
      requires i < 2 && j < 2
    {
      Field(i).At(j)
    }

    /** All 4 entries, field by field: x.x, x.y, ..., y.y. */
    function Components(): seq<Num> { x.Components() + y.Components() }

    /** Entry `k` of `Components()` is `At(k / 2, k % 2)`. */
    lemma ComponentsAreEntries()
      ensures |Components()| == 4
      ensures forall k | 0 <= k < 4 :: Components()[k] == At(k / 2, k % 2)
    {
    }

    /** `self + other`: the entrywise sum (not a matrix product). */
    function Add(other: Matrix2): (r: Matrix2)
      ensures forall i, j | 0 <= i < 2 && 0 <= j < 2 :: r.At(i, j) == Sum(At(i, j), other.At(i, j))
    {
      Matrix2(x.Add(other.x), y.Add(other.y))
    }

    /** `self - other`: the entrywise difference (not a matrix product). */
    function Sub(other: Matrix2): (r: Matrix2)
      ensures forall i, j | 0 <= i < 2 && 0 <= j < 2 :: r.At(i, j) == Difference(At(i, j), other.At(i, j))
    {
      Matrix2(x.Sub(other.x), y.Sub(other.y))
    }

    /** `self * s` for a scalar `s`: the product of every entry with `s`. */
    function Mul(s: Num): (r: Matrix2)
      ensures forall i, j | 0 <= i < 2 && 0 <= j < 2 :: r.At(i, j) == Product(At(i, j), s)
    {
      Matrix2(x.Mul(s), y.Mul(s))
    }

    /** `self / s` for a scalar `s`: the quotient of every entry with `s`. */
    function Div(s: Num): (r: Matrix2)
      ensures forall i, j | 0 <= i < 2 && 0 <= j < 2 :: r.At(i, j) == Quotient(At(i, j), s)
    {
      Matrix2(x.Div(s), y.Div(s))
    }

    /** `self % s` for a scalar `s`: the remainder of every entry with `s`. */
    function Rem(s: Num): (r: Matrix2)
      ensures forall i, j | 0 <= i < 2 && 0 <= j < 2 :: r.At(i, j) == Remainder(At(i, j), s)
    {
      Matrix2(x.Rem(s), y.Rem(s))
    }
  }

  /** cgmath's `Matrix3<f64>`: 3 vector fields x, y, z of 3 components each.
      Entry `At(i, j)` is component `j` of field `i`. */
  datatype Matrix3 = Matrix3(x: Vector3, y: Vector3, z: Vector3) {

    /** cgmath's `Matrix3::new`: the first 3 arguments fill field x, the next 3 field y, and so on. */
    static function New(c0r0: Num, c0r1: Num, c0r2: Num, c1r0: Num, c1r1: Num, c1r2: Num, c2r0: Num, c2r1: Num, c2r2: Num): Matrix3
    {
      Matrix3(Vector3(c0r0, c0r1, c0r2), Vector3(c1r0, c1r1, c1r2), Vector3(c2r0, c2r1, c2r2))
    }

    /** Vector field `i`, counting x, y, z from 0. */
    function Field(i: nat): Vector3
      requires i < 3
    {
      [x, y, z][i]
    }

    /** Component `j` of field `i`. */
    function At(i: nat, j: nat): Num
      requires i < 3 && j < 3
    {
      Field(i).At(j)
    }

    /** All 9 entries, field by field: x.x, x.y, ..., z.z. */
    function Components(): seq<Num> { x.Components() + y.Components() + z.Components() }

    /** Entry `k` of `Components()` is `At(k / 3, k % 3)`. */
    lemma ComponentsAreEntries()
      ensures |Components()| == 9
      ensures forall k | 0 <= k < 9 :: Components()[k] == At(k / 3, k % 3)
    {
    }

    /** `self + other`: the entrywise sum (not a matrix product). */
    function Add(other: Matrix3): (r: Matrix3)
      ensures forall i, j | 0 <= i < 3 && 0 <= j < 3 :: r.At(i, j) == Sum(At(i, j), other.At(i, j))
    {
      Matrix3(x.Add(other.x), y.Add(other.y), z.Add(other.z))
    }

    /** `self - other`: the entrywise difference (not a matrix product). */
    function Sub(other: Matrix3): (r: Matrix3)
      ensures forall i, j | 0 <= i < 3 && 0 <= j < 3 :: r.At(i, j) == Difference(At(i, j), other.At(i, j))
    {
      Matrix3(x.Sub(other.x), y.Sub(other.y), z.Sub(other.z))
    }

    /** `self * s` for a scalar `s`: the product of every entry with `s`. */
    function Mul(s: Num): (r: Matrix3)
      ensures forall i, j | 0 <= i < 3 && 0 <= j < 3 :: r.At(i, j) == Product(At(i, j), s)
    {
      Matrix3(x.Mul(s), y.Mul(s), z.Mul(s))
    }

    /** `self / s` for a scalar `s`: the quotient of every entry with `s`. */
    function Div(s: Num): (r: Matrix3)
      ensures forall i, j | 0 <= i < 3 && 0 <= j < 3 :: r.At(i, j) == Quotient(At(i, j), s)
    {
      Matrix3(x.Div(s), y.Div(s), z.Div(s))
    }

    /** `self % s` for a scalar `s`: the remainder of every entry with `s`. */
    function Rem(s: Num): (r: Matrix3)
      ensures forall i, j | 0 <= i < 3 && 0 <= j < 3 :: r.At(i, j) == Remainder(At(i, j), s)
    {
      Matrix3(x.Rem(s), y.Rem(s), z.Rem(s))
    }
  }

  /** cgmath's `Matrix4<f64>`: 4 vector fields x, y, z, w of 4 components each.
      Entry `At(i, j)` is component `j` of field `i`. */
  datatype Matrix4 = Matrix4(x: Vector4, y: Vector4, z: Vector4, w: Vector4) {

    /** cgmath's `Matrix4::new`: the first 4 arguments fill field x, the next 4 field y, and so on. */
    static function New(c0r0: Num, c0r1: Num, c0r2: Num, c0r3: Num, c1r0: Num, c1r1: Num, c1r2: Num, c1r3: Num, c2r0: Num, c2r1: Num, c2r2: Num, c2r3: Num, c3r0: Num, c3r1: Num, c3r2: Num, c3r3: Num): Matrix4
    {
      Matrix4(Vector4(c0r0, c0r1, c0r2, c0r3), Vector4(c1r0, c1r1, c1r2, c1r3), Vector4(c2r0, c2r1, c2r2, c2r3), Vector4(c3r0, c3r1, c3r2, c3r3))
    }

    /** Vector field `i`, counting x, y, z, w from 0. */
    function Field(i: nat): Vector4
      requires i < 4
    {
      [x, y, z, w][i]
    }

    /** Component `j` of field `i`. */
    function At(i: nat, j: nat): Num
      requires i < 4 && j < 4
    {
      Field(i).At(j)
    }

    /** All 16 entries, field by field: x.x, x.y, ..., w.w. */
    function Components(): seq<Num> { x.Components() + y.Components() + z.Components() + w.Components() }

    /** Entry `k` of `Components()` is `At(k / 4, k % 4)`. */
    lemma ComponentsAreEntries()
      ensures |Components()| == 16
      ensures forall k | 0 <= k < 16 :: Components()[k] == At(k / 4, k % 4)
    {
    }

    /** `self + other`: the entrywise sum (not a matrix product). */
    function Add(other: Matrix4): (r: Matrix4)
      ensures forall i, j | 0 <= i < 4 && 0 <= j < 4 :: r.At(i, j) == Sum(At(i, j), other.At(i, j))
    {
      Matrix4(x.Add(other.x), y.Add(other.y), z.Add(other.z), w.Add(other.w))
    }

    /** `self - other`: the entrywise difference (not a matrix product). */
    function Sub(other: Matrix4): (r: Matrix4)
      ensures forall i, j | 0 <= i < 4 && 0 <= j < 4 :: r.At(i, j) == Difference(At(i, j), other.At(i, j))
    {
      Matrix4(x.Sub(other.x), y.Sub(other.y), z.Sub(other.z), w.Sub(other.w))
    }

    /** `self * s` for a scalar `s`: the product of every entry with `s`. */
    function Mul(s: Num): (r: Matrix4)
      ensures forall i, j | 0 <= i < 4 && 0 <= j < 4 :: r.At(i, j) == Product(At(i, j), s)
    {
      Matrix4(x.Mul(s), y.Mul(s), z.Mul(s), w.Mul(s))
    }

    /** `self / s` for a scalar `s`: the quotient of every entry with `s`. */
    function Div(s: Num): (r: Matrix4)
      ensures forall i, j | 0 <= i < 4 && 0 <= j < 4 :: r.At(i, j) == Quotient(At(i, j), s)
    {
      Matrix4(x.Div(s), y.Div(s), z.Div(s), w.Div(s))
    }

    /** `self % s` for a scalar `s`: the remainder of every entry with `s`. */
    function Rem(s: Num): (r: Matrix4)
      ensures forall i, j | 0 <= i < 4 && 0 <= j < 4 :: r.At(i, j) == Remainder(At(i, j), s)
    {
      Matrix4(x.Rem(s), y.Rem(s), z.Rem(s), w.Rem(s))
    }
  }

  /** The seven value types, as shapes a term can be decoded as. */
  datatype Shape = V1 | V2 | V3 | V4 | M2 | M3 | M4

  /** A value of any of the seven types. */
  datatype Value =
    | Vec1(v1: Vector1)
    | Vec2(v2: Vector2)
    | Vec3(v3: Vector3)
    | Vec4(v4: Vector4)
    | Mat2(m2: Matrix2)
    | Mat3(m3: Matrix3)
    | Mat4(m4: Matrix4)
  {
    /** All components; for a matrix, field by field. */
    function Components(): seq<Num>
    {
      match this
      case Vec1(a) => a.Components()
      case Vec2(a) => a.Components()
      case Vec3(a) => a.Components()
      case Vec4(a) => a.Components()
      case Mat2(a) => a.Components()
      case Mat3(a) => a.Components()
      case Mat4(a) => a.Components()
    }
  }

  function ShapeOf(v: Value): Shape
  {
    match v
    case Vec1(_) => V1
    case Vec2(_) => V2
    case Vec3(_) => V3
    case Vec4(_) => V4
    case Mat2(_) => M2
    case Mat3(_) => M3
    case Mat4(_) => M4
  }

  /** The number of components of a vector shape, or of fields of a matrix
      shape (each field then has as many components). */
  function Dim(s: Shape): nat
  {
    match s
    case V1 => 1
    case V2 | M2 => 2
    case V3 | M3 => 3
    case V4 | M4 => 4
  }

  /** The perpendicular dot product is the z component of the cross product
      of the two vectors placed in the plane z = 0. */
  lemma PerpDotIsPlanarCross(a: Vector2, b: Vector2)
    ensures a.PerpDot(b) == Vector3(a.x, a.y, Zero).Cross(Vector3(b.x, b.y, Zero)).z
  {
  }
}
