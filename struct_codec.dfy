/** The struct codec of the crate's `vectors` and `matrices` modules (a later
    revision of the tuple codec; lib.rs does not declare these modules, so
    no handler uses them).

    Each wrapper travels as an Elixir struct: `%Kinemat.Vector.VectorN{x: .., ..}`
    with float fields, or `%Kinemat.Matrix.MatrixN{x: .., ..}` whose fields are
    `Kinemat.Vector.VectorN` structs. Unlike the tuple codec, decoding checks
    the struct's module; like rustler's derived decoders it reads the
    declared fields by key and ignores any other key. */
module StructCodec {
  import opened F64
  import opened Linear
  import opened Terms

  const Vector1Module := "Kinemat.Vector.Vector1"
  const Vector2Module := "Kinemat.Vector.Vector2"
  const Vector3Module := "Kinemat.Vector.Vector3"
  const Vector4Module := "Kinemat.Vector.Vector4"
  const Matrix2Module := "Kinemat.Matrix.Matrix2"
  const Matrix3Module := "Kinemat.Matrix.Matrix3"
  const Matrix4Module := "Kinemat.Matrix.Matrix4"

  /** The field names of the structs, in declaration order: x, y, z, w. */
  const FieldNames: seq<string> := ["x", "y", "z", "w"]

  /** The struct fields of `t`, when `t` is a struct of `moduleName`. */
  function DecodeStruct(t: Term, moduleName: string): Result<map<string, Term>>
  {
    if t.Struct? && t.moduleName == moduleName then Ok(t.fields) else Err(BadArg)
  }

  /** The value under key `name`, which must be present. */
  function GetField(fields: map<string, Term>, name: string): Result<Term>
  {
    if name in fields then Ok(fields[name]) else Err(BadArg)
  }

  /** A struct of `moduleName` whose first `n` declared fields are floats. */
  predicate IsExVector(t: Term, moduleName: string, n: nat)
    requires n <= 4
  {
    t.Struct? && t.moduleName == moduleName &&
    forall i | 0 <= i < n :: FieldNames[i] in t.fields && t.fields[FieldNames[i]].Float?
  }

  /** A struct of `moduleName` whose first `n` declared fields are
      `IsExVector` structs of `rowModule` with `n` float fields. */
  predicate IsExMatrix(t: Term, moduleName: string, rowModule: string, n: nat)
    requires n <= 4
  {
    t.Struct? && t.moduleName == moduleName &&
    forall i | 0 <= i < n :: FieldNames[i] in t.fields && IsExVector(t.fields[FieldNames[i]], rowModule, n)
  }

  /** `<Vector1 as Decoder>::decode`: decode an `ExVector1` struct and build the vector
      from its fields x. */
  function DecodeVector1(t: Term): (r: Result<Vector1>)
    ensures r.Ok? <==> IsExVector(t, Vector1Module, 1)
    ensures r.Ok? ==> forall i | 0 <= i < 1 :: r.value.At(i) == t.fields[FieldNames[i]].value
  {
    var fields :- DecodeStruct(t, Vector1Module);
    var xTerm :- GetField(fields, FieldNames[0]);
    var x :- DecodeF64(xTerm);
    Ok(Vector1(x))
  }

  /** `<Vector1 as Encoder>::encode`: an `ExVector1` struct holding each component
      under its own field name, and no other field. */
  function EncodeVector1(v: Vector1): (r: Term)
    ensures IsExVector(r, Vector1Module, 1) && r.fields.Keys == {"x"}
    ensures forall i | 0 <= i < 1 :: r.fields[FieldNames[i]] == Float(v.At(i))
  {
    Struct(Vector1Module, map["x" := Float(v.x)])
  }

  /** `<Vector2 as Decoder>::decode`: decode an `ExVector2` struct and build the vector
      from its fields x, y. */
  function DecodeVector2(t: Term): (r: Result<Vector2>)
    ensures r.Ok? <==> IsExVector(t, Vector2Module, 2)
    ensures r.Ok? ==> forall i | 0 <= i < 2 :: r.value.At(i) == t.fields[FieldNames[i]].value
  {
    var fields :- DecodeStruct(t, Vector2Module);
    var xTerm :- GetField(fields, FieldNames[0]);
    var x :- DecodeF64(xTerm);
    var yTerm :- GetField(fields, FieldNames[1]);
    var y :- DecodeF64(yTerm);
    Ok(Vector2(x, y))
  }

  /** `<Vector2 as Encoder>::encode`: an `ExVector2` struct holding each component
      under its own field name, and no other field. */
  function EncodeVector2(v: Vector2): (r: Term)
    ensures IsExVector(r, Vector2Module, 2) && r.fields.Keys == {"x", "y"}
    ensures forall i | 0 <= i < 2 :: r.fields[FieldNames[i]] == Float(v.At(i))
  {
    Struct(Vector2Module, map["x" := Float(v.x), "y" := Float(v.y)])
  }

  /** `<Vector3 as Decoder>::decode`: decode an `ExVector3` struct and build the vector
      from its fields x, y, z. */
  function DecodeVector3(t: Term): (r: Result<Vector3>)
    ensures r.Ok? <==> IsExVector(t, Vector3Module, 3)
    ensures r.Ok? ==> forall i | 0 <= i < 3 :: r.value.At(i) == t.fields[FieldNames[i]].value
  {
    var fields :- DecodeStruct(t, Vector3Module);
    var xTerm :- GetField(fields, FieldNames[0]);
    var x :- DecodeF64(xTerm);
    var yTerm :- GetField(fields, FieldNames[1]);
    var y :- DecodeF64(yTerm);
    var zTerm :- GetField(fields, FieldNames[2]);
    var z :- DecodeF64(zTerm);
    Ok(Vector3(x, y, z))
  }

  /** `<Vector3 as Encoder>::encode`: an `ExVector3` struct holding each component
      under its own field name, and no other field. */
  function EncodeVector3(v: Vector3): (r: Term)
    ensures IsExVector(r, Vector3Module, 3) && r.fields.Keys == {"x", "y", "z"}
    ensures forall i | 0 <= i < 3 :: r.fields[FieldNames[i]] == Float(v.At(i))
  {
    Struct(Vector3Module, map["x" := Float(v.x), "y" := Float(v.y), "z" := Float(v.z)])
  }

  /** `<Vector4 as Decoder>::decode`: decode an `ExVector4` struct and build the vector
      from its fields x, y, z, w. */
  function DecodeVector4(t: Term): (r: Result<Vector4>)
    ensures r.Ok? <==> IsExVector(t, Vector4Module, 4)
    ensures r.Ok? ==> forall i | 0 <= i < 4 :: r.value.At(i) == t.fields[FieldNames[i]].value
  {
    var fields :- DecodeStruct(t, Vector4Module);
    var xTerm :- GetField(fields, FieldNames[0]);
    var x :- DecodeF64(xTerm);
    var yTerm :- GetField(fields, FieldNames[1]);
    var y :- DecodeF64(yTerm);
    var zTerm :- GetField(fields, FieldNames[2]);
    var z :- DecodeF64(zTerm);
    var wTerm :- GetField(fields, FieldNames[3]);
    var w :- DecodeF64(wTerm);
    Ok(Vector4(x, y, z, w))
  }

  /** `<Vector4 as Encoder>::encode`: an `ExVector4` struct holding each component
      under its own field name, and no other field. */
  function EncodeVector4(v: Vector4): (r: Term)
    ensures IsExVector(r, Vector4Module, 4) && r.fields.Keys == {"x", "y", "z", "w"}
    ensures forall i | 0 <= i < 4 :: r.fields[FieldNames[i]] == Float(v.At(i))
  {
    Struct(Vector4Module, map["x" := Float(v.x), "y" := Float(v.y), "z" := Float(v.z), "w" := Float(v.w)])
  }

  /** `<Matrix2 as Decoder>::decode`: decode an `ExMatrix2` struct, whose fields are
      `ExVector2` structs, and pass their components to `Matrix2::new` field by field. */
  function DecodeMatrix2(t: Term): (r: Result<Matrix2>)
    ensures r.Ok? <==> IsExMatrix(t, Matrix2Module, Vector2Module, 2)
    ensures r.Ok? ==> forall i, j | 0 <= i < 2 && 0 <= j < 2 ::
      r.value.At(i, j) == t.fields[FieldNames[i]].fields[FieldNames[j]].value
  {
    var fields :- DecodeStruct(t, Matrix2Module);
    var xTerm :- GetField(fields, FieldNames[0]);
    var mx :- DecodeVector2(xTerm);
    var yTerm :- GetField(fields, FieldNames[1]);
    var my :- DecodeVector2(yTerm);
    Ok(Matrix2.New(mx.x, mx.y, my.x, my.y))
  }

  /** `<Matrix2 as Encoder>::encode`: an `ExMatrix2` struct whose field `i` is the
      `ExVector2` encoding of the matrix's field `i`, and no other field. */
  function EncodeMatrix2(m: Matrix2): (r: Term)
    ensures IsExMatrix(r, Matrix2Module, Vector2Module, 2) && r.fields.Keys == {"x", "y"}
    ensures forall i | 0 <= i < 2 :: r.fields[FieldNames[i]] == EncodeVector2(m.Field(i))
  {
    Struct(Matrix2Module, map[
      "x" := Struct(Vector2Module, map["x" := Float(m.x.x), "y" := Float(m.x.y)]),
      "y" := Struct(Vector2Module, map["x" := Float(m.y.x), "y" := Float(m.y.y)])])
  }

  /** `<Matrix3 as Decoder>::decode`: decode an `ExMatrix3` struct, whose fields are
      `ExVector3` structs, and pass their components to `Matrix3::new` field by field. */
  function DecodeMatrix3(t: Term): (r: Result<Matrix3>)
    ensures r.Ok? <==> IsExMatrix(t, Matrix3Module, Vector3Module, 3)
    ensures r.Ok? ==> forall i, j | 0 <= i < 3 && 0 <= j < 3 ::
      r.value.At(i, j) == t.fields[FieldNames[i]].fields[FieldNames[j]].value
  {
    var fields :- DecodeStruct(t, Matrix3Module);
    var xTerm :- GetField(fields, FieldNames[0]);
    var mx :- DecodeVector3(xTerm);
    var yTerm :- GetField(fields, FieldNames[1]);
    var my :- DecodeVector3(yTerm);
    var zTerm :- GetField(fields, FieldNames[2]);
    var mz :- DecodeVector3(zTerm);
    Ok(Matrix3.New(mx.x, mx.y, mx.z, my.x, my.y, my.z, mz.x, mz.y, mz.z))
  }

  /** `<Matrix3 as Encoder>::encode`: an `ExMatrix3` struct whose field `i` is the
      `ExVector3` encoding of the matrix's field `i`, and no other field. */
  function EncodeMatrix3(m: Matrix3): (r: Term)
    ensures IsExMatrix(r, Matrix3Module, Vector3Module, 3) && r.fields.Keys == {"x", "y", "z"}
    ensures forall i | 0 <= i < 3 :: r.fields[FieldNames[i]] == EncodeVector3(m.Field(i))
  {
    Struct(Matrix3Module, map[
      "x" := Struct(Vector3Module, map["x" := Float(m.x.x), "y" := Float(m.x.y), "z" := Float(m.x.z)]),
      "y" := Struct(Vector3Module, map["x" := Float(m.y.x), "y" := Float(m.y.y), "z" := Float(m.y.z)]),
      "z" := Struct(Vector3Module, map["x" := Float(m.z.x), "y" := Float(m.z.y), "z" := Float(m.z.z)])])
  }

  /** `<Matrix4 as Decoder>::decode`: decode an `ExMatrix4` struct, whose fields are
      `ExVector4` structs, and pass their components to `Matrix4::new` field by field. */
  function DecodeMatrix4(t: Term): (r: Result<Matrix4>)
    ensures r.Ok? <==> IsExMatrix(t, Matrix4Module, Vector4Module, 4)
    ensures r.Ok? ==> forall i, j | 0 <= i < 4 && 0 <= j < 4 ::
      r.value.At(i, j) == t.fields[FieldNames[i]].fields[FieldNames[j]].value
  {
    var fields :- DecodeStruct(t, Matrix4Module);
    var xTerm :- GetField(fields, FieldNames[0]);
    var mx :- DecodeVector4(xTerm);
    var yTerm :- GetField(fields, FieldNames[1]);
    var my :- DecodeVector4(yTerm);
    var zTerm :- GetField(fields, FieldNames[2]);
    var mz :- DecodeVector4(zTerm);
    var wTerm :- GetField(fields, FieldNames[3]);
    var mw :- DecodeVector4(wTerm);
    Ok(Matrix4.New(mx.x, mx.y, mx.z, mx.w, my.x, my.y, my.z, my.w, mz.x, mz.y, mz.z, mz.w, mw.x, mw.y, mw.z, mw.w))
  }

  /** `<Matrix4 as Encoder>::encode`: an `ExMatrix4` struct whose field `i` is the
      `ExVector4` encoding of the matrix's field `i`, and no other field. */
  function EncodeMatrix4(m: Matrix4): (r: Term)
    ensures IsExMatrix(r, Matrix4Module, Vector4Module, 4) && r.fields.Keys == {"x", "y", "z", "w"}
    ensures forall i | 0 <= i < 4 :: r.fields[FieldNames[i]] == EncodeVector4(m.Field(i))
  {
    Struct(Matrix4Module, map[
      "x" := Struct(Vector4Module, map["x" := Float(m.x.x), "y" := Float(m.x.y), "z" := Float(m.x.z), "w" := Float(m.x.w)]),
      "y" := Struct(Vector4Module, map["x" := Float(m.y.x), "y" := Float(m.y.y), "z" := Float(m.y.z), "w" := Float(m.y.w)]),
      "z" := Struct(Vector4Module, map["x" := Float(m.z.x), "y" := Float(m.z.y), "z" := Float(m.z.z), "w" := Float(m.z.w)]),
      "w" := Struct(Vector4Module, map["x" := Float(m.w.x), "y" := Float(m.w.y), "z" := Float(m.w.z), "w" := Float(m.w.w)])])
  }
  /** The Elixir module of the struct that carries shape `s`. */
  function ModuleOf(s: Shape): string
  {
    match s
    case V1 => Vector1Module
    case V2 => Vector2Module
    case V3 => Vector3Module
    case V4 => Vector4Module
    case M2 => Matrix2Module
    case M3 => Matrix3Module
    case M4 => Matrix4Module
  }

  /** The `Decoder` impl of the wrapper of shape `s`. */
  function Decode(s: Shape, t: Term): (r: Result<Value>)
    ensures r.Ok? ==> ShapeOf(r.value) == s && t.Struct? && t.moduleName == ModuleOf(s)
  {
    match s
    case V1 => var a :- DecodeVector1(t); Ok(Vec1(a))
    case V2 => var a :- DecodeVector2(t); Ok(Vec2(a))
    case V3 => var a :- DecodeVector3(t); Ok(Vec3(a))
    case V4 => var a :- DecodeVector4(t); Ok(Vec4(a))
    case M2 => var a :- DecodeMatrix2(t); Ok(Mat2(a))
    case M3 => var a :- DecodeMatrix3(t); Ok(Mat3(a))
    case M4 => var a :- DecodeMatrix4(t); Ok(Mat4(a))
  }

  /** The `Encoder` impl of the wrapper of the shape of `v`. */
  function Encode(v: Value): (r: Term)
    ensures r.Struct? && r.moduleName == ModuleOf(ShapeOf(v))
  {
    match v
    case Vec1(a) => EncodeVector1(a)
    case Vec2(a) => EncodeVector2(a)
    case Vec3(a) => EncodeVector3(a)
    case Vec4(a) => EncodeVector4(a)
    case Mat2(a) => EncodeMatrix2(a)
    case Mat3(a) => EncodeMatrix3(a)
    case Mat4(a) => EncodeMatrix4(a)
  }

  /** Decoding an encoding gives the wrapped value back. */
  lemma RoundTrip(v: Value)
    ensures Decode(ShapeOf(v), Encode(v)) == Ok(v)
  {
  }

  /** Every shape has its own struct module. */
  lemma ModulesDistinct(s: Shape, s': Shape)
    requires s != s'
    ensures ModuleOf(s) != ModuleOf(s')
  {
  }

  /** Decoding the encoding of one shape as another fails on the module
      name, whatever the fields. */
  lemma CrossShapeRejected(s: Shape, v: Value)
    requires s != ShapeOf(v)
    ensures Decode(s, Encode(v)).Err?
  {
    ModulesDistinct(s, ShapeOf(v));
  }

  /** Decoding reads the declared fields only: a key that the shape does not
      declare (any key but x for vector1, any key but x and y for vector2 or
      matrix2, ...) can be added or changed without changing the result. */
  lemma ExtraFieldIgnored(s: Shape, t: Term, k: string, extra: Term)
    requires t.Struct? && k !in DeclaredFields(Dim(s))
    ensures Decode(s, Struct(t.moduleName, t.fields[k := extra])) == Decode(s, t)
  {
    match s
    case V1 => Vector1ExtraFieldIgnored(t, k, extra);
    case V2 => Vector2ExtraFieldIgnored(t, k, extra);
    case V3 => Vector3ExtraFieldIgnored(t, k, extra);
    case V4 => Vector4ExtraFieldIgnored(t, k, extra);
    case M2 => Matrix2ExtraFieldIgnored(t, k, extra);
    case M3 => Matrix3ExtraFieldIgnored(t, k, extra);
    case M4 => Matrix4ExtraFieldIgnored(t, k, extra);
  }

  /** `ExtraFieldIgnored` for vector1. */
  lemma Vector1ExtraFieldIgnored(t: Term, k: string, extra: Term)
    requires t.Struct? && k !in DeclaredFields(1)
    ensures DecodeVector1(Struct(t.moduleName, t.fields[k := extra])) == DecodeVector1(t)
  {
  }

  /** `ExtraFieldIgnored` for vector2. */
  lemma Vector2ExtraFieldIgnored(t: Term, k: string, extra: Term)
    requires t.Struct? && k !in DeclaredFields(2)
    ensures DecodeVector2(Struct(t.moduleName, t.fields[k := extra])) == DecodeVector2(t)
  {
  }

  /** `ExtraFieldIgnored` for vector3. */
  lemma Vector3ExtraFieldIgnored(t: Term, k: string, extra: Term)
    requires t.Struct? && k !in DeclaredFields(3)
    ensures DecodeVector3(Struct(t.moduleName, t.fields[k := extra])) == DecodeVector3(t)
  {
  }

  /** `ExtraFieldIgnored` for vector4. */
  lemma Vector4ExtraFieldIgnored(t: Term, k: string, extra: Term)
    requires t.Struct? && k !in DeclaredFields(4)
    ensures DecodeVector4(Struct(t.moduleName, t.fields[k := extra])) == DecodeVector4(t)
  {
  }

  /** `ExtraFieldIgnored` for matrix2. */
  lemma Matrix2ExtraFieldIgnored(t: Term, k: string, extra: Term)
    requires t.Struct? && k !in DeclaredFields(2)
    ensures DecodeMatrix2(Struct(t.moduleName, t.fields[k := extra])) == DecodeMatrix2(t)
  {
  }

  /** `ExtraFieldIgnored` for matrix3. */
  lemma Matrix3ExtraFieldIgnored(t: Term, k: string, extra: Term)
    requires t.Struct? && k !in DeclaredFields(3)
    ensures DecodeMatrix3(Struct(t.moduleName, t.fields[k := extra])) == DecodeMatrix3(t)
  {
  }

  /** `ExtraFieldIgnored` for matrix4. */
  lemma Matrix4ExtraFieldIgnored(t: Term, k: string, extra: Term)
    requires t.Struct? && k !in DeclaredFields(4)
    ensures DecodeMatrix4(Struct(t.moduleName, t.fields[k := extra])) == DecodeMatrix4(t)
  {
  }

  /** The names of the first `n` declared fields. */
  function DeclaredFields(n: nat): set<string>
    requires n <= 4
  {
    if n == 0 then {} else if n == 1 then {"x"} else if n == 2 then {"x", "y"} else if n == 3 then {"x", "y", "z"} else {"x", "y", "z", "w"}
  }

  /** `t` has no key besides the declared fields of shape `s`, and neither
      have its nested structs. */
  predicate HasOnlyDeclaredFields(s: Shape, t: Term)
    requires t.Struct?
  {
    t.fields.Keys == DeclaredFields(Dim(s)) &&
    ((s.M2? || s.M3? || s.M4?) ==>
      forall i | 0 <= i < Dim(s) ::
        FieldNames[i] in t.fields && t.fields[FieldNames[i]].Struct? && t.fields[FieldNames[i]].fields.Keys == DeclaredFields(Dim(s)))
  }

  /** A struct with no undeclared key is encoded back to itself after
      decoding. */
  lemma ExactStructReencoded(s: Shape, t: Term)
    requires Decode(s, t).Ok? && HasOnlyDeclaredFields(s, t)
    ensures Encode(Decode(s, t).value) == t
  {
    match s
    case V1 => ExactVector1Reencoded(t);
    case V2 => ExactVector2Reencoded(t);
    case V3 => ExactVector3Reencoded(t);
    case V4 => ExactVector4Reencoded(t);
    case M2 => ExactMatrix2Reencoded(t);
    case M3 => ExactMatrix3Reencoded(t);
    case M4 => ExactMatrix4Reencoded(t);
  }

  /** `ExactStructReencoded` for vector1. */
  lemma ExactVector1Reencoded(t: Term)
    requires DecodeVector1(t).Ok? && t.fields.Keys == DeclaredFields(1)
    ensures EncodeVector1(DecodeVector1(t).value) == t
  {
    var r := EncodeVector1(DecodeVector1(t).value);
    forall f | f in t.fields
      ensures r.fields[f] == t.fields[f]
    {
    }
    assert r.fields == t.fields;
  }

  /** `ExactStructReencoded` for vector2. */
  lemma ExactVector2Reencoded(t: Term)
    requires DecodeVector2(t).Ok? && t.fields.Keys == DeclaredFields(2)
    ensures EncodeVector2(DecodeVector2(t).value) == t
  {
    var r := EncodeVector2(DecodeVector2(t).value);
    forall f | f in t.fields
      ensures r.fields[f] == t.fields[f]
    {
    }
    assert r.fields == t.fields;
  }

  /** `ExactStructReencoded` for vector3. */
  lemma ExactVector3Reencoded(t: Term)
    requires DecodeVector3(t).Ok? && t.fields.Keys == DeclaredFields(3)
    ensures EncodeVector3(DecodeVector3(t).value) == t
  {
    var r := EncodeVector3(DecodeVector3(t).value);
    forall f | f in t.fields
      ensures r.fields[f] == t.fields[f]
    {
    }
    assert r.fields == t.fields;
  }

  /** `ExactStructReencoded` for vector4. */
  lemma ExactVector4Reencoded(t: Term)
    requires DecodeVector4(t).Ok? && t.fields.Keys == DeclaredFields(4)
    ensures EncodeVector4(DecodeVector4(t).value) == t
  {
    var r := EncodeVector4(DecodeVector4(t).value);
    forall f | f in t.fields
      ensures r.fields[f] == t.fields[f]
    {
    }
    assert r.fields == t.fields;
  }

  /** `ExactStructReencoded` for matrix2: each field is re-encoded as the
      vector struct it was decoded from. */
  lemma ExactMatrix2Reencoded(t: Term)
    requires DecodeMatrix2(t).Ok? && HasOnlyDeclaredFields(M2, t)
    ensures EncodeMatrix2(DecodeMatrix2(t).value) == t
  {
    var r := EncodeMatrix2(DecodeMatrix2(t).value);
    forall i | 0 <= i < 2
      ensures r.fields[FieldNames[i]] == t.fields[FieldNames[i]]
    {
      Matrix2RowReencoded(t, i);
    }
    assert r.fields == t.fields;
  }

  /** Field `i` of a decoded matrix2 is re-encoded as the struct it came from. */
  lemma Matrix2RowReencoded(t: Term, i: nat)
    requires DecodeMatrix2(t).Ok? && HasOnlyDeclaredFields(M2, t) && i < 2
    ensures EncodeMatrix2(DecodeMatrix2(t).value).fields[FieldNames[i]] == t.fields[FieldNames[i]]
  {
    var row := t.fields[FieldNames[i]];
    ExactVector2Reencoded(row);
    assert DecodeMatrix2(t).value.Field(i) == DecodeVector2(row).value;
  }

  /** `ExactStructReencoded` for matrix3: each field is re-encoded as the
      vector struct it was decoded from. */
  lemma ExactMatrix3Reencoded(t: Term)
    requires DecodeMatrix3(t).Ok? && HasOnlyDeclaredFields(M3, t)
    ensures EncodeMatrix3(DecodeMatrix3(t).value) == t
  {
    var r := EncodeMatrix3(DecodeMatrix3(t).value);
    forall i | 0 <= i < 3
      ensures r.fields[FieldNames[i]] == t.fields[FieldNames[i]]
    {
      Matrix3RowReencoded(t, i);
    }
    assert r.fields == t.fields;
  }

  /** Field `i` of a decoded matrix3 is re-encoded as the struct it came from. */
  lemma Matrix3RowReencoded(t: Term, i: nat)
    requires DecodeMatrix3(t).Ok? && HasOnlyDeclaredFields(M3, t) && i < 3
    ensures EncodeMatrix3(DecodeMatrix3(t).value).fields[FieldNames[i]] == t.fields[FieldNames[i]]
  {
    var row := t.fields[FieldNames[i]];
    ExactVector3Reencoded(row);
    assert DecodeMatrix3(t).value.Field(i) == DecodeVector3(row).value;
  }

  /** `ExactStructReencoded` for matrix4: each field is re-encoded as the
      vector struct it was decoded from. */
  lemma ExactMatrix4Reencoded(t: Term)
    requires DecodeMatrix4(t).Ok? && HasOnlyDeclaredFields(M4, t)
    ensures EncodeMatrix4(DecodeMatrix4(t).value) == t
  {
    var r := EncodeMatrix4(DecodeMatrix4(t).value);
    forall i | 0 <= i < 4
      ensures r.fields[FieldNames[i]] == t.fields[FieldNames[i]]
    {
      Matrix4RowReencoded(t, i);
    }
    assert r.fields == t.fields;
  }

  /** Field `i` of a decoded matrix4 is re-encoded as the struct it came from. */
  lemma Matrix4RowReencoded(t: Term, i: nat)
    requires DecodeMatrix4(t).Ok? && HasOnlyDeclaredFields(M4, t) && i < 4
    ensures EncodeMatrix4(DecodeMatrix4(t).value).fields[FieldNames[i]] == t.fields[FieldNames[i]]
  {
    var row := t.fields[FieldNames[i]];
    ExactVector4Reencoded(row);
    assert DecodeMatrix4(t).value.Field(i) == DecodeVector4(row).value;
  }
}
