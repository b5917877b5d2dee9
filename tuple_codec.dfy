/** The tuple codec of the NIF library: `decode_vector1`..`decode_matrix4` and
    `encode_vector1`..`encode_matrix4`.

    A vector travels as `{:vectorN, x, y, ...}`, a matrix as
    `{:matrixN, {:vectorN, ...}, ...}` with one nested vector tuple per field.
    Encoding writes the canonical atoms; decoding binds every atom to an
    unused variable and never compares it. */
module TupleCodec {
  import opened F64
  import opened Linear
  import opened Terms

  const Vector1Tag := "vector1"
  const Vector2Tag := "vector2"
  const Vector3Tag := "vector3"
  const Vector4Tag := "vector4"
  const Matrix2Tag := "matrix2"
  const Matrix3Tag := "matrix3"
  const Matrix4Tag := "matrix4"

  /** An `n + 1`-tuple of an atom followed by `n` floats. */
  predicate IsFloatTuple(t: Term, n: nat)
  {
    t.Tuple? && |t.elems| == n + 1 && t.elems[0].Atom? &&
    forall i | 1 <= i <= n :: t.elems[i].Float?
  }

  /** An `n + 1`-tuple of an atom followed by `n` float tuples of arity `n + 1`. */
  predicate IsMatrixTuple(t: Term, n: nat)
  {
    t.Tuple? && |t.elems| == n + 1 && t.elems[0].Atom? &&
    forall i | 1 <= i <= n :: IsFloatTuple(t.elems[i], n)
  }

  /** `decode_vector1`: `let (_vector1, x): (Atom, f64) = arg.decode()?`. */
  function DecodeVector1(t: Term): (r: Result<Vector1>)
    ensures r.Ok? <==> IsFloatTuple(t, 1)
    ensures r.Ok? ==> forall i | 0 <= i < 1 :: r.value.At(i) == t.elems[i + 1].value
  {
    var elems :- DecodeTuple(t, 2);
    var tag :- DecodeAtom(elems[0]);
    var x :- DecodeF64(elems[1]);
    Ok(Vector1(x))
  }

  /** `decode_vector2`: `let (_vector2, x, y): (Atom, f64, f64) = arg.decode()?`. */
  function DecodeVector2(t: Term): (r: Result<Vector2>)
    ensures r.Ok? <==> IsFloatTuple(t, 2)
    ensures r.Ok? ==> forall i | 0 <= i < 2 :: r.value.At(i) == t.elems[i + 1].value
  {
    var elems :- DecodeTuple(t, 3);
    var tag :- DecodeAtom(elems[0]);
    var x :- DecodeF64(elems[1]);
    var y :- DecodeF64(elems[2]);
    Ok(Vector2(x, y))
  }

  /** `decode_vector3`: `let (_vector3, x, y, z): (Atom, f64, f64, f64) = arg.decode()?`. */
  function DecodeVector3(t: Term): (r: Result<Vector3>)
    ensures r.Ok? <==> IsFloatTuple(t, 3)
    ensures r.Ok? ==> forall i | 0 <= i < 3 :: r.value.At(i) == t.elems[i + 1].value
  {
    var elems :- DecodeTuple(t, 4);
    var tag :- DecodeAtom(elems[0]);
    var x :- DecodeF64(elems[1]);
    var y :- DecodeF64(elems[2]);
    var z :- DecodeF64(elems[3]);
    Ok(Vector3(x, y, z))
  }

  /** `decode_vector4`: `let (_vector4, x, y, z, w): (Atom, f64, f64, f64, f64) = arg.decode()?`. */
  function DecodeVector4(t: Term): (r: Result<Vector4>)
    ensures r.Ok? <==> IsFloatTuple(t, 4)
    ensures r.Ok? ==> forall i | 0 <= i < 4 :: r.value.At(i) == t.elems[i + 1].value
  {
    var elems :- DecodeTuple(t, 5);
    var tag :- DecodeAtom(elems[0]);
    var x :- DecodeF64(elems[1]);
    var y :- DecodeF64(elems[2]);
    var z :- DecodeF64(elems[3]);
    var w :- DecodeF64(elems[4]);
    Ok(Vector4(x, y, z, w))
  }

  /** `decode_matrix2`: an atom, then 2 nested `(Atom, f64, f64)` tuples whose
      floats are passed to `Matrix2::new` tuple by tuple. */
  function DecodeMatrix2(t: Term): (r: Result<Matrix2>)
    ensures r.Ok? <==> IsMatrixTuple(t, 2)
    ensures r.Ok? ==> forall i, j | 0 <= i < 2 && 0 <= j < 2 ::
      r.value.At(i, j) == t.elems[i + 1].elems[j + 1].value
  {
    var elems :- DecodeTuple(t, 3);
    var tag :- DecodeAtom(elems[0]);
    var vx :- DecodeVector2(elems[1]);
    var vy :- DecodeVector2(elems[2]);
    Ok(Matrix2.New(vx.x, vx.y, vy.x, vy.y))
  }

  /** `decode_matrix3`: an atom, then 3 nested `(Atom, f64, f64, f64)` tuples whose
      floats are passed to `Matrix3::new` tuple by tuple. */
  function DecodeMatrix3(t: Term): (r: Result<Matrix3>)
    ensures r.Ok? <==> IsMatrixTuple(t, 3)
    ensures r.Ok? ==> forall i, j | 0 <= i < 3 && 0 <= j < 3 ::
      r.value.At(i, j) == t.elems[i + 1].elems[j + 1].value
  {
    var elems :- DecodeTuple(t, 4);
    var tag :- DecodeAtom(elems[0]);
    var vx :- DecodeVector3(elems[1]);
    var vy :- DecodeVector3(elems[2]);
    var vz :- DecodeVector3(elems[3]);
    Ok(Matrix3.New(vx.x, vx.y, vx.z, vy.x, vy.y, vy.z, vz.x, vz.y, vz.z))
  }

  /** `decode_matrix4`: an atom, then 4 nested `(Atom, f64, f64, f64, f64)` tuples whose
      floats are passed to `Matrix4::new` tuple by tuple. */
  function DecodeMatrix4(t: Term): (r: Result<Matrix4>)
    ensures r.Ok? <==> IsMatrixTuple(t, 4)
    ensures r.Ok? ==> forall i, j | 0 <= i < 4 && 0 <= j < 4 ::
      r.value.At(i, j) == t.elems[i + 1].elems[j + 1].value
  {
    var elems :- DecodeTuple(t, 5);
    var tag :- DecodeAtom(elems[0]);
    var vx :- DecodeVector4(elems[1]);
    var vy :- DecodeVector4(elems[2]);
    var vz :- DecodeVector4(elems[3]);
    var vw :- DecodeVector4(elems[4]);
    Ok(Matrix4.New(vx.x, vx.y, vx.z, vx.w, vy.x, vy.y, vy.z, vy.w, vz.x, vz.y, vz.z, vz.w, vw.x, vw.y, vw.z, vw.w))
  }

  /** `encode_vector1`: the `vector1` atom, then the components x. It never fails. */
  function EncodeVector1(v: Vector1): (r: Result<Term>)
    ensures r.Ok? && IsFloatTuple(r.value, 1) && r.value.elems[0] == Atom(Vector1Tag)
    ensures forall i | 0 <= i < 1 :: r.value.elems[i + 1] == Float(v.At(i))
  {
    Ok(Tuple([Atom(Vector1Tag), Float(v.x)]))
  }

  /** `encode_vector2`: the `vector2` atom, then the components x, y. It never fails. */
  function EncodeVector2(v: Vector2): (r: Result<Term>)
    ensures r.Ok? && IsFloatTuple(r.value, 2) && r.value.elems[0] == Atom(Vector2Tag)
    ensures forall i | 0 <= i < 2 :: r.value.elems[i + 1] == Float(v.At(i))
  {
    Ok(Tuple([Atom(Vector2Tag), Float(v.x), Float(v.y)]))
  }

  /** `encode_vector3`: the `vector3` atom, then the components x, y, z. It never fails. */
  function EncodeVector3(v: Vector3): (r: Result<Term>)
    ensures r.Ok? && IsFloatTuple(r.value, 3) && r.value.elems[0] == Atom(Vector3Tag)
    ensures forall i | 0 <= i < 3 :: r.value.elems[i + 1] == Float(v.At(i))
  {
    Ok(Tuple([Atom(Vector3Tag), Float(v.x), Float(v.y), Float(v.z)]))
  }

  /** `encode_vector4`: the `vector4` atom, then the components x, y, z, w. It never fails. */
  function EncodeVector4(v: Vector4): (r: Result<Term>)
    ensures r.Ok? && IsFloatTuple(r.value, 4) && r.value.elems[0] == Atom(Vector4Tag)
    ensures forall i | 0 <= i < 4 :: r.value.elems[i + 1] == Float(v.At(i))
  {
    Ok(Tuple([Atom(Vector4Tag), Float(v.x), Float(v.y), Float(v.z), Float(v.w)]))
  }

  /** `encode_matrix2`: the `matrix2` atom, then one `vector2` tuple per field x, y.
      It never fails, and each nested tuple is the `encode_vector2` of its field. */
  function EncodeMatrix2(m: Matrix2): (r: Result<Term>)
    ensures r.Ok? && IsMatrixTuple(r.value, 2) && r.value.elems[0] == Atom(Matrix2Tag)
    ensures forall i | 0 <= i < 2 :: EncodeVector2(m.Field(i)) == Ok(r.value.elems[i + 1])
  {
    Ok(Tuple([Atom(Matrix2Tag),
              Tuple([Atom(Vector2Tag), Float(m.x.x), Float(m.x.y)]),
              Tuple([Atom(Vector2Tag), Float(m.y.x), Float(m.y.y)])]))
  }

  /** `encode_matrix3`: the `matrix3` atom, then one `vector3` tuple per field x, y, z.
      It never fails, and each nested tuple is the `encode_vector3` of its field. */
  function EncodeMatrix3(m: Matrix3): (r: Result<Term>)
    ensures r.Ok? && IsMatrixTuple(r.value, 3) && r.value.elems[0] == Atom(Matrix3Tag)
    ensures forall i | 0 <= i < 3 :: EncodeVector3(m.Field(i)) == Ok(r.value.elems[i + 1])
  {
    Ok(Tuple([Atom(Matrix3Tag),
              Tuple([Atom(Vector3Tag), Float(m.x.x), Float(m.x.y), Float(m.x.z)]),
              Tuple([Atom(Vector3Tag), Float(m.y.x), Float(m.y.y), Float(m.y.z)]),
              Tuple([Atom(Vector3Tag), Float(m.z.x), Float(m.z.y), Float(m.z.z)])]))
  }

  /** `encode_matrix4`: the `matrix4` atom, then one `vector4` tuple per field x, y, z, w.
      It never fails, and each nested tuple is the `encode_vector4` of its field. */
  function EncodeMatrix4(m: Matrix4): (r: Result<Term>)
    ensures r.Ok? && IsMatrixTuple(r.value, 4) && r.value.elems[0] == Atom(Matrix4Tag)
    ensures forall i | 0 <= i < 4 :: EncodeVector4(m.Field(i)) == Ok(r.value.elems[i + 1])
  {
    Ok(Tuple([Atom(Matrix4Tag),
              Tuple([Atom(Vector4Tag), Float(m.x.x), Float(m.x.y), Float(m.x.z), Float(m.x.w)]),
              Tuple([Atom(Vector4Tag), Float(m.y.x), Float(m.y.y), Float(m.y.z), Float(m.y.w)]),
              Tuple([Atom(Vector4Tag), Float(m.z.x), Float(m.z.y), Float(m.z.z), Float(m.z.w)]),
              Tuple([Atom(Vector4Tag), Float(m.w.x), Float(m.w.y), Float(m.w.z), Float(m.w.w)])]))
  }

  /** The `decode_*` function for shape `s`. */
  function Decode(s: Shape, t: Term): (r: Result<Value>)
    ensures r.Ok? ==> ShapeOf(r.value) == s
    ensures r.Err? ==> r.error == BadArg
  {
    match s
    case V1 => var a :- DecodeVector1(t); Ok(Vec1(a))
    case V2 => var a :- DecodeVector2(t); Ok(Vec2(a))
    case V3 => var a :- DecodeVector3(t); Ok(Vec3(a))
    case V4 => var a :- DecodeVector4(t); Ok(Vec4(a))
    case M2 => var a :- DecodeMatrix2(t); Ok(Mat2(a))
    case M3 => var a :- DecodeMatrix3(t); Ok(Mat3(a))
    case M4 => var a :- DecodeMatrix4(t); Ok(Mat4(a))
  }

  /** The shape whose decoder a term fits, read off its structure alone: its
      arity, and whether what follows the leading atom is floats or float
      tuples of the same arity. */
  function Classify(t: Term): Option<Shape>
  {
    if !t.Tuple? || |t.elems| < 2 || 5 < |t.elems| || !t.elems[0].Atom? then None
    else
      var n := |t.elems| - 1;
      if forall i | 1 <= i <= n :: t.elems[i].Float? then Some([V1, V2, V3, V4][n - 1])
      else if 2 <= n && forall i | 1 <= i <= n :: IsFloatTuple(t.elems[i], n) then Some([M2, M3, M4][n - 2])
      else None
  }

  /** The atom `encode_*` writes at the head of a value of shape `s`. */
  function Tag(s: Shape): string
  {
    match s
    case V1 => Vector1Tag
    case V2 => Vector2Tag
    case V3 => Vector3Tag
    case V4 => Vector4Tag
    case M2 => Matrix2Tag
    case M3 => Matrix3Tag
    case M4 => Matrix4Tag
  }

  /** The shape of the fields of a matrix of shape `s`. */
  function RowShape(s: Shape): Shape
    requires s in {M2, M3, M4}
  {
    match s
    case M2 => V2
    case M3 => V3
    case M4 => V4
  }

  /** The `encode_*` function for the shape of `v`: it never fails, its
      output has the structure of that shape, and it is tagged with the
      shape's atom and, for a matrix, each nested tuple with the atom of the
      matrix's vector shape. */
  function Encode(v: Value): (r: Result<Term>)
    ensures r.Ok? && Classify(r.value) == Some(ShapeOf(v))
    ensures r.value.elems[0] == Atom(Tag(ShapeOf(v)))
    ensures ShapeOf(v) in {M2, M3, M4} ==>
      forall i | 1 <= i < |r.value.elems| ::
        IsFloatTuple(r.value.elems[i], Dim(ShapeOf(v))) && r.value.elems[i].elems[0] == Atom(Tag(RowShape(ShapeOf(v))))
  {
    match v
    case Vec1(a) => EncodeVector1(a)
    case Vec2(a) => EncodeVector2(a)
    case Vec3(a) => EncodeVector3(a)
    case Vec4(a) => EncodeVector4(a)
    case Mat2(a) => assert !EncodeMatrix2(a).value.elems[1].Float?; EncodeMatrix2(a)
    case Mat3(a) => assert !EncodeMatrix3(a).value.elems[1].Float?; EncodeMatrix3(a)
    case Mat4(a) => assert !EncodeMatrix4(a).value.elems[1].Float?; EncodeMatrix4(a)
  }

  /** Each decoder accepts exactly the terms `Classify` assigns to its shape.
      As `Classify` is a function, no term is accepted by two decoders. */
  lemma DecodeAcceptsExactlyItsShape(s: Shape, t: Term)
    ensures Decode(s, t).Ok? <==> Classify(t) == Some(s)
  {
  }

  /** Decoding an encoding gives the value back. */
  lemma RoundTrip(v: Value)
    ensures Decode(ShapeOf(v), Encode(v).value) == Ok(v)
  {
  }

  /** Decoding the encoding of one shape as another always fails: a vector3
      is never truncated to a vector2, nor a matrix2 read as a vector2. */
  lemma CrossShapeRejected(s: Shape, v: Value)
    requires s != ShapeOf(v)
    ensures Decode(s, Encode(v).value).Err?
  {
    DecodeAcceptsExactlyItsShape(s, Encode(v).value);
  }

  /** Encodings of different shapes differ in arity, or in whether the
      element after the tag is a float or a tuple. */
  lemma DistinctShapesEncodeApart(v: Value, w: Value)
    requires ShapeOf(v) != ShapeOf(w)
    ensures var a, b := Encode(v).value, Encode(w).value;
      |a.elems| != |b.elems| || a.elems[1].Float? != b.elems[1].Float?
  {
  }

  /** `t` and `u` are equal except perhaps for the names of their atoms. */
  predicate SameUpToTags(t: Term, u: Term)
  {
    match t
    case Atom(_) => u.Atom?
    case Tuple(ts) =>
      u.Tuple? && |ts| == |u.elems| && forall i | 0 <= i < |ts| :: SameUpToTags(ts[i], u.elems[i])
    case _ => t == u
  }

  /** Terms equal up to tags agree on being float tuples, and then carry the
      same floats. */
  lemma FloatTupleUpToTags(t: Term, u: Term, n: nat)
    requires SameUpToTags(t, u)
    ensures IsFloatTuple(t, n) <==> IsFloatTuple(u, n)
    ensures IsFloatTuple(t, n) ==> forall i | 1 <= i <= n :: t.elems[i] == u.elems[i]
  {
    if t.Tuple? && |t.elems| == n + 1 {
      forall i | 1 <= i <= n
        ensures t.elems[i].Float? <==> u.elems[i].Float?
        ensures t.elems[i].Float? ==> t.elems[i] == u.elems[i]
      {
        assert SameUpToTags(t.elems[i], u.elems[i]);
      }
    }
  }

  /** `decode_vector1` ignores the tag. */
  lemma Vector1IgnoresTags(t: Term, u: Term)
    requires SameUpToTags(t, u)
    ensures DecodeVector1(t) == DecodeVector1(u)
  {
    FloatTupleUpToTags(t, u, 1);
  }

  /** `decode_vector2` ignores the tag. */
  lemma Vector2IgnoresTags(t: Term, u: Term)
    requires SameUpToTags(t, u)
    ensures DecodeVector2(t) == DecodeVector2(u)
  {
    FloatTupleUpToTags(t, u, 2);
  }

  /** `decode_vector3` ignores the tag. */
  lemma Vector3IgnoresTags(t: Term, u: Term)
    requires SameUpToTags(t, u)
    ensures DecodeVector3(t) == DecodeVector3(u)
  {
    FloatTupleUpToTags(t, u, 3);
  }

  /** `decode_vector4` ignores the tag. */
  lemma Vector4IgnoresTags(t: Term, u: Term)
    requires SameUpToTags(t, u)
    ensures DecodeVector4(t) == DecodeVector4(u)
  {
    FloatTupleUpToTags(t, u, 4);
  }

  /** `decode_matrix2` ignores every tag, its own and its rows'. */
  lemma Matrix2IgnoresTags(t: Term, u: Term)
    requires SameUpToTags(t, u)
    ensures DecodeMatrix2(t) == DecodeMatrix2(u)
  {
    if t.Tuple? && |t.elems| == 3 {
      forall i | 1 <= i <= 2
        ensures DecodeVector2(t.elems[i]) == DecodeVector2(u.elems[i])
      {
        Vector2IgnoresTags(t.elems[i], u.elems[i]);
      }
    }
  }

  /** `decode_matrix3` ignores every tag, its own and its rows'. */
  lemma Matrix3IgnoresTags(t: Term, u: Term)
    requires SameUpToTags(t, u)
    ensures DecodeMatrix3(t) == DecodeMatrix3(u)
  {
    if t.Tuple? && |t.elems| == 4 {
      forall i | 1 <= i <= 3
        ensures DecodeVector3(t.elems[i]) == DecodeVector3(u.elems[i])
      {
        Vector3IgnoresTags(t.elems[i], u.elems[i]);
      }
    }
  }

  /** `decode_matrix4` ignores every tag, its own and its rows'. */
  lemma Matrix4IgnoresTags(t: Term, u: Term)
    requires SameUpToTags(t, u)
    ensures DecodeMatrix4(t) == DecodeMatrix4(u)
  {
    if t.Tuple? && |t.elems| == 5 {
      forall i | 1 <= i <= 4
        ensures DecodeVector4(t.elems[i]) == DecodeVector4(u.elems[i])
      {
        Vector4IgnoresTags(t.elems[i], u.elems[i]);
      }
    }
  }

  /** No decoder looks at an atom's name: renaming the tags of a term does
      not change what it decodes to. */
  lemma DecodeIgnoresTags(s: Shape, t: Term, u: Term)
    requires SameUpToTags(t, u)
    ensures Decode(s, t) == Decode(s, u)
  {
    match s
    case V1 => Vector1IgnoresTags(t, u);
    case V2 => Vector2IgnoresTags(t, u);
    case V3 => Vector3IgnoresTags(t, u);
    case V4 => Vector4IgnoresTags(t, u);
    case M2 => Matrix2IgnoresTags(t, u);
    case M3 => Matrix3IgnoresTags(t, u);
    case M4 => Matrix4IgnoresTags(t, u);
  }

  /** What a decoder accepts is encoded back to the same term up to its tags:
      decoding forgets only the atom names. */
  lemma EncodeDecodedUpToTags(s: Shape, t: Term)
    requires Decode(s, t).Ok?
    ensures SameUpToTags(Encode(Decode(s, t).value).value, t)
  {
    match s
    case V1 => EncodeDecodedVectorUpToTags(s, t);
    case V2 => EncodeDecodedVectorUpToTags(s, t);
    case V3 => EncodeDecodedVectorUpToTags(s, t);
    case V4 => EncodeDecodedVectorUpToTags(s, t);
    case M2 => EncodeDecodedMatrixUpToTags(s, t);
    case M3 => EncodeDecodedMatrixUpToTags(s, t);
    case M4 => EncodeDecodedMatrixUpToTags(s, t);
  }

  lemma EncodeDecodedVectorUpToTags(s: Shape, t: Term)
    requires s in {V1, V2, V3, V4} && Decode(s, t).Ok?
    ensures SameUpToTags(Encode(Decode(s, t).value).value, t)
  {
  }

  lemma EncodeDecodedMatrixUpToTags(s: Shape, t: Term)
    requires s in {M2, M3, M4} && Decode(s, t).Ok?
    ensures SameUpToTags(Encode(Decode(s, t).value).value, t)
  {
  }
}
