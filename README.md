# kinemat_matrix_nif in Dafny

A model of `kinemat_matrix_nif`, the Rust NIF library behind Kinemat's
`Kinemat.MatrixNif` Elixir module. The library takes vectors and matrices
as Erlang terms, computes with them through cgmath, and hands the results
back as terms. The model covers four parts:

- `f64.dfy` (`F64`) holds the symbolic double-precision floats. A float is a
  term of a free algebra: a literal bit pattern, or one of the five operators
  the crate uses (`+ - * / %`) applied to two floats. Only equations between
  such terms carry over to f64. Distinct terms can denote the same f64, so no
  lemma here concludes that two floats differ, and nothing proved depends on
  IEEE-754 arithmetic.
- `linear.dfy` (`Linear`) holds cgmath's `Vector1`..`Vector4` and
  `Matrix2`..`Matrix4` as records, and the arithmetic of the crate's
  wrappers in `vectors/*.rs` and `matrices/*.rs`: `+`, `-`, and `*`, `/`, `%`
  by a scalar, plus `cross` and `perp_dot`. A matrix is a record of N vector
  fields `x, y[, z, w]`. `new` fills `x` first, as cgmath's column-major
  constructor does. The closed sums `Shape` and `Value` cover the seven types.
- `terms.dfy` (`Terms`) holds Erlang terms: atoms, floats, tuples and Elixir
  structs (a module name plus a map of fields). It also holds rustler's
  decoding errors and the `Result` that models Rust's `?`.
- `tuple_codec.dfy` (`TupleCodec`) models `decode.rs` and `encode.rs`. Values
  travel as `{:vector2, x, y}` and `{:matrix2, {:vector2, .., ..}, ..}`.
  Decoding binds every atom and never compares it. Encoding cannot fail. The
  model proves the round trip, exact acceptance by structure, cross-shape
  rejection, and that tags are ignored.
- `nif.dfy` (`Nif`) models `lib.rs`. Its parts:
  - one generic `Handle(shape, op, args)` stands for the 27 handlers, which
    decode `args[0]`, then `args[1]`, apply the operation, encode the result
    and wrap it as `{:ok, result}`;
  - the export list of `rustler_export_nifs!` is a literal table of 27
    entries;
  - `Dispatch` finds the handler for a name and arity, as the BEAM does when
    the module's function is called.
- `struct_codec.dfy` (`StructCodec`) models the `Decoder`/`Encoder` impls
  of the wrappers in `vectors/*.rs` and `matrices/*.rs`. These read and write
  `%Kinemat.Vector.VectorN{}` and `%Kinemat.Matrix.MatrixN{}` structs.
  Decoding checks the module name and reads the declared fields by key.

## Model

| member | source | states |
|---|---|---|
| Linear.Vector1.Add | native/kinemat_matrix_nif/src/vectors/vector1.rs:29-35 | the result is a vector1 whose component i is the sum of the two operands' components i |
| Linear.Vector1.Sub | native/kinemat_matrix_nif/src/vectors/vector1.rs:37-43 | the result is a vector1 whose component i is the difference of the two operands' components i |
| Linear.Vector1.Mul | native/kinemat_matrix_nif/src/vectors/vector1.rs:45-51 | the result is a vector1 whose component i is the product of component i and the f64 scalar |
| Linear.Vector1.Div | native/kinemat_matrix_nif/src/vectors/vector1.rs:53-59 | the result is a vector1 whose component i is the quotient of component i and the f64 scalar |
| Linear.Vector1.Rem | native/kinemat_matrix_nif/src/vectors/vector1.rs:61-67 | the result is a vector1 whose component i is the remainder of component i and the f64 scalar |
| Linear.Vector2.Add | native/kinemat_matrix_nif/src/vectors/vector2.rs:39-45 | the result is a vector2 whose component i is the sum of the two operands' components i |
| Linear.Vector2.Sub | native/kinemat_matrix_nif/src/vectors/vector2.rs:47-53 | the result is a vector2 whose component i is the difference of the two operands' components i |
| Linear.Vector2.Mul | native/kinemat_matrix_nif/src/vectors/vector2.rs:55-61 | the result is a vector2 whose component i is the product of component i and the f64 scalar |
| Linear.Vector2.Div | native/kinemat_matrix_nif/src/vectors/vector2.rs:63-69 | the result is a vector2 whose component i is the quotient of component i and the f64 scalar |
| Linear.Vector2.Rem | native/kinemat_matrix_nif/src/vectors/vector2.rs:71-77 | the result is a vector2 whose component i is the remainder of component i and the f64 scalar |
| Linear.Vector3.Add | native/kinemat_matrix_nif/src/vectors/vector3.rs:41-47 | the result is a vector3 whose component i is the sum of the two operands' components i |
| Linear.Vector3.Sub | native/kinemat_matrix_nif/src/vectors/vector3.rs:49-55 | the result is a vector3 whose component i is the difference of the two operands' components i |
| Linear.Vector3.Mul | native/kinemat_matrix_nif/src/vectors/vector3.rs:57-63 | the result is a vector3 whose component i is the product of component i and the f64 scalar |
| Linear.Vector3.Div | native/kinemat_matrix_nif/src/vectors/vector3.rs:65-71 | the result is a vector3 whose component i is the quotient of component i and the f64 scalar |
| Linear.Vector3.Rem | native/kinemat_matrix_nif/src/vectors/vector3.rs:73-79 | the result is a vector3 whose component i is the remainder of component i and the f64 scalar |
| Linear.Vector3.Cross | native/kinemat_matrix_nif/src/vectors/vector3.rs:9-13 | `cross` returns a vector3 whose component i is the difference of the products of components i+1 and i+2 of the operands, taken cyclically |
| Linear.Vector4.Add | native/kinemat_matrix_nif/src/vectors/vector4.rs:37-43 | the result is a vector4 whose component i is the sum of the two operands' components i |
| Linear.Vector4.Sub | native/kinemat_matrix_nif/src/vectors/vector4.rs:45-51 | the result is a vector4 whose component i is the difference of the two operands' components i |
| Linear.Vector4.Mul | native/kinemat_matrix_nif/src/vectors/vector4.rs:53-59 | the result is a vector4 whose component i is the product of component i and the f64 scalar |
| Linear.Vector4.Div | native/kinemat_matrix_nif/src/vectors/vector4.rs:61-67 | the result is a vector4 whose component i is the quotient of component i and the f64 scalar |
| Linear.Vector4.Rem | native/kinemat_matrix_nif/src/vectors/vector4.rs:69-75 | the result is a vector4 whose component i is the remainder of component i and the f64 scalar |
| Linear.Matrix2.Add | native/kinemat_matrix_nif/src/matrices/matrix2.rs:40-46 | the result is a matrix2 whose entry (i, j) is the sum of the operands' entries (i, j) |
| Linear.Matrix2.Sub | native/kinemat_matrix_nif/src/matrices/matrix2.rs:48-54 | the result is a matrix2 whose entry (i, j) is the difference of the operands' entries (i, j) |
| Linear.Matrix2.Mul | native/kinemat_matrix_nif/src/matrices/matrix2.rs:56-62 | the result is a matrix2 whose entry (i, j) is the product of entry (i, j) and the f64 scalar |
| Linear.Matrix2.Div | native/kinemat_matrix_nif/src/matrices/matrix2.rs:64-70 | the result is a matrix2 whose entry (i, j) is the quotient of entry (i, j) and the f64 scalar |
| Linear.Matrix2.Rem | native/kinemat_matrix_nif/src/matrices/matrix2.rs:72-78 | the result is a matrix2 whose entry (i, j) is the remainder of entry (i, j) and the f64 scalar |
| Linear.Matrix3.Add | native/kinemat_matrix_nif/src/matrices/matrix3.rs:50-56 | the result is a matrix3 whose entry (i, j) is the sum of the operands' entries (i, j) |
| Linear.Matrix3.Sub | native/kinemat_matrix_nif/src/matrices/matrix3.rs:58-64 | the result is a matrix3 whose entry (i, j) is the difference of the operands' entries (i, j) |
| Linear.Matrix3.Mul | native/kinemat_matrix_nif/src/matrices/matrix3.rs:66-72 | the result is a matrix3 whose entry (i, j) is the product of entry (i, j) and the f64 scalar |
| Linear.Matrix3.Div | native/kinemat_matrix_nif/src/matrices/matrix3.rs:74-80 | the result is a matrix3 whose entry (i, j) is the quotient of entry (i, j) and the f64 scalar |
| Linear.Matrix3.Rem | native/kinemat_matrix_nif/src/matrices/matrix3.rs:82-88 | the result is a matrix3 whose entry (i, j) is the remainder of entry (i, j) and the f64 scalar |
| Linear.Matrix4.Add | native/kinemat_matrix_nif/src/matrices/matrix4.rs:61-67 | the result is a matrix4 whose entry (i, j) is the sum of the operands' entries (i, j) |
| Linear.Matrix4.Sub | native/kinemat_matrix_nif/src/matrices/matrix4.rs:69-75 | the result is a matrix4 whose entry (i, j) is the difference of the operands' entries (i, j) |
| Linear.Matrix4.Mul | native/kinemat_matrix_nif/src/matrices/matrix4.rs:77-83 | the result is a matrix4 whose entry (i, j) is the product of entry (i, j) and the f64 scalar |
| Linear.Matrix4.Div | native/kinemat_matrix_nif/src/matrices/matrix4.rs:85-91 | the result is a matrix4 whose entry (i, j) is the quotient of entry (i, j) and the f64 scalar |
| Linear.Matrix4.Rem | native/kinemat_matrix_nif/src/matrices/matrix4.rs:93-99 | the result is a matrix4 whose entry (i, j) is the remainder of entry (i, j) and the f64 scalar |
| Linear.PerpDotIsPlanarCross | native/kinemat_matrix_nif/src/vectors/vector2.rs:9-13 | `perp_dot` of two vector2 is the z component of the cross product of the same vectors lifted to the plane z = 0 |
| TupleCodec.DecodeVector1 | native/kinemat_matrix_nif/src/decode.rs:6-9 | succeeds exactly on a 2-tuple of an atom followed by 1 floats, whatever the atom, and component i is the float at position i + 1 |
| TupleCodec.DecodeVector2 | native/kinemat_matrix_nif/src/decode.rs:11-14 | succeeds exactly on a 3-tuple of an atom followed by 2 floats, whatever the atom, and component i is the float at position i + 1 |
| TupleCodec.DecodeVector3 | native/kinemat_matrix_nif/src/decode.rs:16-19 | succeeds exactly on a 4-tuple of an atom followed by 3 floats, whatever the atom, and component i is the float at position i + 1 |
| TupleCodec.DecodeVector4 | native/kinemat_matrix_nif/src/decode.rs:21-24 | succeeds exactly on a 5-tuple of an atom followed by 4 floats, whatever the atom, and component i is the float at position i + 1 |
| TupleCodec.DecodeMatrix2 | native/kinemat_matrix_nif/src/decode.rs:26-34 | succeeds exactly on a 3-tuple of an atom followed by 2 tuples each of an atom and 2 floats; entry (i, j) is float j of nested tuple i |
| TupleCodec.DecodeMatrix3 | native/kinemat_matrix_nif/src/decode.rs:36-40 | succeeds exactly on a 4-tuple of an atom followed by 3 tuples each of an atom and 3 floats; entry (i, j) is float j of nested tuple i |
| TupleCodec.DecodeMatrix4 | native/kinemat_matrix_nif/src/decode.rs:42-60 | succeeds exactly on a 5-tuple of an atom followed by 4 tuples each of an atom and 4 floats; entry (i, j) is float j of nested tuple i |
| TupleCodec.EncodeVector1 | native/kinemat_matrix_nif/src/encode.rs:5-7 | never fails; gives the `vector1` atom followed by the components x, in that order |
| TupleCodec.EncodeVector2 | native/kinemat_matrix_nif/src/encode.rs:9-11 | never fails; gives the `vector2` atom followed by the components x, y, in that order |
| TupleCodec.EncodeVector3 | native/kinemat_matrix_nif/src/encode.rs:13-15 | never fails; gives the `vector3` atom followed by the components x, y, z, in that order |
| TupleCodec.EncodeVector4 | native/kinemat_matrix_nif/src/encode.rs:17-19 | never fails; gives the `vector4` atom followed by the components x, y, z, w, in that order |
| TupleCodec.EncodeMatrix2 | native/kinemat_matrix_nif/src/encode.rs:21-28 | never fails; gives the `matrix2` atom followed by one nested tuple per field, each equal to `encode_vector2` of that field |
| TupleCodec.EncodeMatrix3 | native/kinemat_matrix_nif/src/encode.rs:30-38 | never fails; gives the `matrix3` atom followed by one nested tuple per field, each equal to `encode_vector3` of that field |
| TupleCodec.EncodeMatrix4 | native/kinemat_matrix_nif/src/encode.rs:40-73 | never fails; gives the `matrix4` atom followed by one nested tuple per field, each equal to `encode_vector4` of that field |
| TupleCodec.Decode | native/kinemat_matrix_nif/src/decode.rs:6-60 | a decoded value has the requested shape, and every decoding failure is a `badarg` error |
| TupleCodec.Encode | native/kinemat_matrix_nif/src/encode.rs:5-73 | every encoder succeeds; its output has the structure (arity, floats or float tuples) of the value's shape, starts with the shape's atom and, for a matrix, each nested tuple starts with the atom of its vector shape |
| TupleCodec.DecodeAcceptsExactlyItsShape | native/kinemat_matrix_nif/src/decode.rs:6-60 | a decoder accepts a term if and only if the term's structure is that of its shape, so no term is accepted by two decoders |
| TupleCodec.RoundTrip | native/kinemat_matrix_nif/src/decode.rs:6-60 | decoding the encoding of any value with its own shape's decoder gives the value back |
| TupleCodec.CrossShapeRejected | native/kinemat_matrix_nif/src/decode.rs:11-34 | decoding the encoding of a value with the decoder of any other shape fails |
| TupleCodec.DistinctShapesEncodeApart | native/kinemat_matrix_nif/src/encode.rs:5-73 | encodings of two different shapes differ in tuple arity or in whether the elements after the tag are floats |
| TupleCodec.FloatTupleUpToTags | native/kinemat_matrix_nif/src/decode.rs:6-24 | two terms that differ only in their atoms are both float tuples of a given arity or neither, and then carry the same floats |
| TupleCodec.Vector1IgnoresTags | native/kinemat_matrix_nif/src/decode.rs:6-9 | `decode_vector1` gives the same result on two terms that differ only in their atoms |
| TupleCodec.Vector2IgnoresTags | native/kinemat_matrix_nif/src/decode.rs:11-14 | `decode_vector2` gives the same result on two terms that differ only in their atoms |
| TupleCodec.Vector3IgnoresTags | native/kinemat_matrix_nif/src/decode.rs:16-19 | `decode_vector3` gives the same result on two terms that differ only in their atoms |
| TupleCodec.Vector4IgnoresTags | native/kinemat_matrix_nif/src/decode.rs:21-24 | `decode_vector4` gives the same result on two terms that differ only in their atoms |
| TupleCodec.Matrix2IgnoresTags | native/kinemat_matrix_nif/src/decode.rs:26-34 | `decode_matrix2` gives the same result on two terms that differ only in their atoms, at either nesting level |
| TupleCodec.Matrix3IgnoresTags | native/kinemat_matrix_nif/src/decode.rs:36-40 | `decode_matrix3` gives the same result on two terms that differ only in their atoms, at either nesting level |
| TupleCodec.Matrix4IgnoresTags | native/kinemat_matrix_nif/src/decode.rs:42-60 | `decode_matrix4` gives the same result on two terms that differ only in their atoms, at either nesting level |
| TupleCodec.DecodeIgnoresTags | native/kinemat_matrix_nif/src/decode.rs:6-60 | no decoder compares an atom: renaming the atoms of a term never changes what it decodes to |
| TupleCodec.EncodeDecodedUpToTags | native/kinemat_matrix_nif/src/encode.rs:5-73 | re-encoding a decoded term gives the term back except for its atoms |
| TupleCodec.EncodeDecodedVectorUpToTags | native/kinemat_matrix_nif/src/encode.rs:5-19 | re-encoding a decoded vector term gives the term back except for its atom |
| TupleCodec.EncodeDecodedMatrixUpToTags | native/kinemat_matrix_nif/src/encode.rs:21-73 | re-encoding a decoded matrix term gives the term back except for its atoms |
| Nif.Combine | native/kinemat_matrix_nif/src/lib.rs:74-88 | an `_add`/`_sub` result keeps the operands' shape, and each of its components is the sum or difference of the matching operand components |
| Nif.Scale | native/kinemat_matrix_nif/src/lib.rs:90-112 | a `_mul`/`_div`/`_mod` result keeps the operand's shape, and each of its components is the product, quotient or remainder of the matching component and the scalar |
| Nif.CombineMatrix2 | native/kinemat_matrix_nif/src/matrices/matrix2.rs:40-54 | matrix2 `+`/`-` combine the flattened components position by position |
| Nif.ScaleMatrix2 | native/kinemat_matrix_nif/src/matrices/matrix2.rs:56-78 | matrix2 `*`/`/`/`%` by a scalar act on each flattened component |
| Nif.CombineMatrix3 | native/kinemat_matrix_nif/src/matrices/matrix3.rs:50-64 | matrix3 `+`/`-` combine the flattened components position by position |
| Nif.ScaleMatrix3 | native/kinemat_matrix_nif/src/matrices/matrix3.rs:66-88 | matrix3 `*`/`/`/`%` by a scalar act on each flattened component |
| Nif.CombineMatrix4 | native/kinemat_matrix_nif/src/matrices/matrix4.rs:61-75 | matrix4 `+`/`-` combine the flattened components position by position |
| Nif.ScaleMatrix4 | native/kinemat_matrix_nif/src/matrices/matrix4.rs:77-99 | matrix4 `*`/`/`/`%` by a scalar act on each flattened component |
| Nif.Handle | native/kinemat_matrix_nif/src/lib.rs:74-289 | the 27 handlers (no matrix3 or matrix4 operation, `perp_dot` only on vector2, `cross` only on vector3): an error decoding `args[0]` is returned unchanged; a success is the 2-tuple of the `ok` atom and the result; every failure is `badarg` |
| Nif.HandleSucceedsIff | native/kinemat_matrix_nif/src/lib.rs:74-289 | a handler succeeds if and only if `args[0]` decodes as its shape and `args[1]` decodes as the same shape, or is a float for `mul`, `div` and `mod`; otherwise it answers `badarg` |
| Nif.HandleCombines | native/kinemat_matrix_nif/src/lib.rs:114-128 | an `_add`/`_sub` answer carries exactly that shape's encoding, tags included, of the combined decoded arguments, and that term decodes to their componentwise sum or difference |
| Nif.HandleScales | native/kinemat_matrix_nif/src/lib.rs:90-112 | a successful `_mul`/`_div`/`_mod` took a bare float as second argument; its answer carries exactly that shape's encoding, tags included, of the scaled first argument, which decodes to the first argument with every component combined with that float |
| Nif.HandlePerpDot | native/kinemat_matrix_nif/src/lib.rs:194-200 | `vector2_perp_dot` answers `ok` with an untagged float, the perpendicular dot product of the decoded vectors |
| Nif.HandleCross | native/kinemat_matrix_nif/src/lib.rs:202-209 | `vector3_cross` answers `ok` with `encode_vector3` of the cross product of the decoded vectors |
| Nif.RegistryArities | native/kinemat_matrix_nif/src/lib.rs:40-72 | every exported function has arity 2 |
| Nif.RegistryHandlersExist | native/kinemat_matrix_nif/src/lib.rs:40-72 | every exported name is bound to one of the handlers lib.rs defines: no matrix3 or matrix4 operation, `perp_dot` only on vector2, `cross` only on vector3 |
| Nif.RegistryHasNoMatrix3Or4 | native/kinemat_matrix_nif/src/lib.rs:40-72 | no matrix3 or matrix4 operation is exported |
| Nif.RegistryShape | native/kinemat_matrix_nif/src/lib.rs:40-72 | the export list has 27 entries, each of arity 2 with an existing handler, none for matrix3 or matrix4 |
| Nif.NamesDistinctFrom0 | native/kinemat_matrix_nif/src/lib.rs:43-51 | each of the first nine exported names differs from every later one |
| Nif.NamesDistinctFrom9 | native/kinemat_matrix_nif/src/lib.rs:52-60 | each of the exported names 10 to 18 differs from every later one |
| Nif.NamesDistinctFrom18 | native/kinemat_matrix_nif/src/lib.rs:61-69 | each of the last nine exported names differs from every later one |
| Nif.RegistryNamesDistinct | native/kinemat_matrix_nif/src/lib.rs:40-72 | the 27 exported names are pairwise distinct |
| Nif.Lookup | native/kinemat_matrix_nif/src/lib.rs:40-72 | finding a (name, arity) pair gives the first entry of the table with that name and arity; finding none means no entry has both |
| Nif.LookupFindsEntry | native/kinemat_matrix_nif/src/lib.rs:40-72 | in a table of distinct names, looking up an entry's own name and arity finds that entry |
| Nif.Dispatch | native/kinemat_matrix_nif/src/lib.rs:40-72 | a call fails with `undef` if and only if no exported entry has that name and arity |
| Nif.DispatchRoutes | native/kinemat_matrix_nif/src/lib.rs:40-72 | calling an exported name runs the handler of the shape and operation registered under it |
| StructCodec.DecodeVector1 | native/kinemat_matrix_nif/src/vectors/vector1.rs:15-20 | succeeds exactly on a `Kinemat.Vector.Vector1` struct whose fields x are floats; component i is the float under field name i |
| StructCodec.EncodeVector1 | native/kinemat_matrix_nif/src/vectors/vector1.rs:22-27 | gives a `Kinemat.Vector.Vector1` struct with exactly the keys x, each holding its own component |
| StructCodec.DecodeVector2 | native/kinemat_matrix_nif/src/vectors/vector2.rs:22-27 | succeeds exactly on a `Kinemat.Vector.Vector2` struct whose fields x, y are floats; component i is the float under field name i |
| StructCodec.EncodeVector2 | native/kinemat_matrix_nif/src/vectors/vector2.rs:29-37 | gives a `Kinemat.Vector.Vector2` struct with exactly the keys x, y, each holding its own component |
| StructCodec.DecodeVector3 | native/kinemat_matrix_nif/src/vectors/vector3.rs:23-28 | succeeds exactly on a `Kinemat.Vector.Vector3` struct whose fields x, y, z are floats; component i is the float under field name i |
| StructCodec.EncodeVector3 | native/kinemat_matrix_nif/src/vectors/vector3.rs:30-39 | gives a `Kinemat.Vector.Vector3` struct with exactly the keys x, y, z, each holding its own component |
| StructCodec.DecodeVector4 | native/kinemat_matrix_nif/src/vectors/vector4.rs:18-23 | succeeds exactly on a `Kinemat.Vector.Vector4` struct whose fields x, y, z, w are floats; component i is the float under field name i |
| StructCodec.EncodeVector4 | native/kinemat_matrix_nif/src/vectors/vector4.rs:25-35 | gives a `Kinemat.Vector.Vector4` struct with exactly the keys x, y, z, w, each holding its own component |
| StructCodec.DecodeMatrix2 | native/kinemat_matrix_nif/src/matrices/matrix2.rs:17-22 | succeeds exactly on a `Kinemat.Matrix.Matrix2` struct whose fields x, y are decodable `Kinemat.Vector.Vector2` structs; entry (i, j) is field j of field i |
| StructCodec.EncodeMatrix2 | native/kinemat_matrix_nif/src/matrices/matrix2.rs:24-38 | gives a `Kinemat.Matrix.Matrix2` struct with exactly the keys x, y, field i being the vector2 encoding of the matrix's field i |
| StructCodec.DecodeMatrix3 | native/kinemat_matrix_nif/src/matrices/matrix3.rs:18-25 | succeeds exactly on a `Kinemat.Matrix.Matrix3` struct whose fields x, y, z are decodable `Kinemat.Vector.Vector3` structs; entry (i, j) is field j of field i |
| StructCodec.EncodeMatrix3 | native/kinemat_matrix_nif/src/matrices/matrix3.rs:27-48 | gives a `Kinemat.Matrix.Matrix3` struct with exactly the keys x, y, z, field i being the vector3 encoding of the matrix's field i |
| StructCodec.DecodeMatrix4 | native/kinemat_matrix_nif/src/matrices/matrix4.rs:19-27 | succeeds exactly on a `Kinemat.Matrix.Matrix4` struct whose fields x, y, z, w are decodable `Kinemat.Vector.Vector4` structs; entry (i, j) is field j of field i |
| StructCodec.EncodeMatrix4 | native/kinemat_matrix_nif/src/matrices/matrix4.rs:29-59 | gives a `Kinemat.Matrix.Matrix4` struct with exactly the keys x, y, z, w, field i being the vector4 encoding of the matrix's field i |
| StructCodec.Decode | native/kinemat_matrix_nif/src/vectors/vector1.rs:15-20 | a decoded value has the requested shape and came from a struct of that shape's module |
| StructCodec.Encode | native/kinemat_matrix_nif/src/vectors/vector1.rs:22-27 | an encoding is a struct of the module of the value's shape |
| StructCodec.RoundTrip | native/kinemat_matrix_nif/src/matrices/matrix4.rs:19-59 | decoding the struct encoding of any value with its own shape's decoder gives the value back |
| StructCodec.ModulesDistinct | native/kinemat_matrix_nif/src/vectors/vector2.rs:15-20 | the seven wrappers are tagged with pairwise distinct module names |
| StructCodec.CrossShapeRejected | native/kinemat_matrix_nif/src/matrices/matrix2.rs:10-22 | decoding the struct encoding of a value as any other shape fails |
| StructCodec.ExtraFieldIgnored | native/kinemat_matrix_nif/src/vectors/vector3.rs:23-28 | adding or changing a key that the shape does not declare (such as `y` on a vector1 struct) does not change what a struct decodes to |
| StructCodec.Vector1ExtraFieldIgnored | native/kinemat_matrix_nif/src/vectors/vector1.rs:15-20 | a key other than x added to or changed in a struct does not change what `Vector1` decodes it to |
| StructCodec.Vector2ExtraFieldIgnored | native/kinemat_matrix_nif/src/vectors/vector2.rs:22-27 | a key other than x, y added to or changed in a struct does not change what `Vector2` decodes it to |
| StructCodec.Vector3ExtraFieldIgnored | native/kinemat_matrix_nif/src/vectors/vector3.rs:23-28 | a key other than x, y, z added to or changed in a struct does not change what `Vector3` decodes it to |
| StructCodec.Vector4ExtraFieldIgnored | native/kinemat_matrix_nif/src/vectors/vector4.rs:18-23 | a key other than x, y, z, w added to or changed in a struct does not change what `Vector4` decodes it to |
| StructCodec.Matrix2ExtraFieldIgnored | native/kinemat_matrix_nif/src/matrices/matrix2.rs:17-22 | a key other than x, y added to or changed in a struct does not change what `Matrix2` decodes it to |
| StructCodec.Matrix3ExtraFieldIgnored | native/kinemat_matrix_nif/src/matrices/matrix3.rs:18-25 | a key other than x, y, z added to or changed in a struct does not change what `Matrix3` decodes it to |
| StructCodec.Matrix4ExtraFieldIgnored | native/kinemat_matrix_nif/src/matrices/matrix4.rs:19-27 | a key other than x, y, z, w added to or changed in a struct does not change what `Matrix4` decodes it to |
| StructCodec.ExactStructReencoded | native/kinemat_matrix_nif/src/matrices/matrix3.rs:18-48 | a decodable struct with no undeclared key, at either nesting level, is encoded back to itself |
| StructCodec.ExactVector1Reencoded | native/kinemat_matrix_nif/src/vectors/vector1.rs:15-27 | a decodable vector1 struct with exactly the keys x is encoded back to itself |
| StructCodec.ExactVector2Reencoded | native/kinemat_matrix_nif/src/vectors/vector2.rs:22-37 | a decodable vector2 struct with exactly the keys x, y is encoded back to itself |
| StructCodec.ExactVector3Reencoded | native/kinemat_matrix_nif/src/vectors/vector3.rs:23-39 | a decodable vector3 struct with exactly the keys x, y, z is encoded back to itself |
| StructCodec.ExactVector4Reencoded | native/kinemat_matrix_nif/src/vectors/vector4.rs:18-35 | a decodable vector4 struct with exactly the keys x, y, z, w is encoded back to itself |
| StructCodec.ExactMatrix2Reencoded | native/kinemat_matrix_nif/src/matrices/matrix2.rs:17-38 | a decodable matrix2 struct with exactly the keys x, y, each holding a struct with exactly those keys, is encoded back to itself |
| StructCodec.Matrix2RowReencoded | native/kinemat_matrix_nif/src/matrices/matrix2.rs:17-38 | field i of the re-encoded matrix2 is the nested struct field i of the input |
| StructCodec.ExactMatrix3Reencoded | native/kinemat_matrix_nif/src/matrices/matrix3.rs:18-48 | a decodable matrix3 struct with exactly the keys x, y, z, each holding a struct with exactly those keys, is encoded back to itself |
| StructCodec.Matrix3RowReencoded | native/kinemat_matrix_nif/src/matrices/matrix3.rs:18-48 | field i of the re-encoded matrix3 is the nested struct field i of the input |
| StructCodec.ExactMatrix4Reencoded | native/kinemat_matrix_nif/src/matrices/matrix4.rs:19-59 | a decodable matrix4 struct with exactly the keys x, y, z, w, each holding a struct with exactly those keys, is encoded back to itself |
| StructCodec.Matrix4RowReencoded | native/kinemat_matrix_nif/src/matrices/matrix4.rs:19-59 | field i of the re-encoded matrix4 is the nested struct field i of the input |

## Left out

- IEEE-754 semantics: rounding, NaN, infinities, division by zero and `%` as fmod are not modelled. Floats are symbolic (`F64.Num`), and no float identity is assumed or proved.
- cgmath is not part of this model. Its componentwise `+ - * / %`, `cross` and `perp_dot` are written as the formulas cgmath documents, over the symbolic floats. The `Vector1`..`Matrix4` wrappers are single-field newtypes whose operators forward to cgmath, so each wrapper is identified with the value it wraps.
- Linear.Vector2.PerpDot: has no contract of its own. Its meaning is stated by `Linear.PerpDotIsPlanarCross` in terms of `Cross`.
- Rustler machinery is left out: `Env` and term allocation, atom interning (`rustler_atoms!`, lib.rs:22-36), and loading the library through `rustler_export_nifs!`. The export list itself is modelled.
- Rustler's error variants are not distinguished. Every decoding failure is the single error `BadArg`, both from tuple decoding and from the `NifStruct` derive. A name or arity that is not exported gives `Undef`, which stands for the BEAM's undefined-function error.
- Which Erlang numbers rustler accepts as `f64` is left out. Only a `Float` term decodes as a component.
- An Elixir struct is a module name plus a map of fields. The `__struct__` key and the `Elixir.` prefix of module names are not modelled.
- Nif.Handle: the order in which a handler decodes its arguments is only observable through which error comes back. Since every decoding error is `BadArg`, the contract states only that an error on `args[0]` is returned unchanged.
- The struct codec is not wired to any handler, because lib.rs declares only the `decode` and `encode` modules (lib.rs:13-14).
- Concurrency, the BEAM scheduler, panics across the NIF boundary and the `extern crate`/`lazy_static` plumbing are left out.
