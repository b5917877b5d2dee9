/** The NIF library `Elixir.Kinemat.MatrixNif`: its 27 handlers and the
    table that exports them by name and arity.

    Every handler decodes `args[0]`, then `args[1]`, stopping at the first
    error as Rust's `?` does; applies one operation; encodes the result; and
    answers `{:ok, result}`. */
module Nif {
  import opened F64
  import opened Linear
  import opened Terms
  import opened TupleCodec

  const OkAtom := "ok"

  /** The operation a handler applies; `Rem` is exported as `mod`. */
  datatype Op = Add | Sub | Mul | Div | Rem | PerpDot | Cross

  /** The five operations cgmath applies component by component. */
  predicate IsElementwise(op: Op)
  {
    op in {Add, Sub, Mul, Div, Rem}
  }

  /** The float operator behind an elementwise operation. */
  function Apply(op: Op, a: Num, b: Num): Num
    requires IsElementwise(op)
  {
    match op
    case Add => Sum(a, b)
    case Sub => Difference(a, b)
    case Mul => Product(a, b)
    case Div => Quotient(a, b)
    case Rem => Remainder(a, b)
  }

  /** `lhs + rhs` or `lhs - rhs` on two values of one shape: the same shape,
      each component combined with the matching one. */
  function Combine(op: Op, a: Value, b: Value): (r: Value)
    requires op in {Add, Sub} && ShapeOf(a) == ShapeOf(b)
    ensures ShapeOf(r) == ShapeOf(a)
    ensures |r.Components()| == |a.Components()| == |b.Components()|
    ensures forall k | 0 <= k < |r.Components()| ::
      r.Components()[k] == Apply(op, a.Components()[k], b.Components()[k])
  {
    match a
    case Vec1(x) => Vec1(if op == Add then x.Add(b.v1) else x.Sub(b.v1))
    case Vec2(x) => Vec2(if op == Add then x.Add(b.v2) else x.Sub(b.v2))
    case Vec3(x) => Vec3(if op == Add then x.Add(b.v3) else x.Sub(b.v3))
    case Vec4(x) => Vec4(if op == Add then x.Add(b.v4) else x.Sub(b.v4))
    case Mat2(x) =>
      CombineMatrix2(op, x, b.m2);
      Mat2(if op == Add then x.Add(b.m2) else x.Sub(b.m2))
    case Mat3(x) =>
      CombineMatrix3(op, x, b.m3);
      Mat3(if op == Add then x.Add(b.m3) else x.Sub(b.m3))
    case Mat4(x) =>
      CombineMatrix4(op, x, b.m4);
      Mat4(if op == Add then x.Add(b.m4) else x.Sub(b.m4))
  }

  /** `lhs * s`, `lhs / s` or `lhs % s` for a float `s`: the same shape, each
      component combined with `s`. */
  function Scale(op: Op, a: Value, s: Num): (r: Value)
    requires op in {Mul, Div, Rem}
    ensures ShapeOf(r) == ShapeOf(a)
    ensures |r.Components()| == |a.Components()|
    ensures forall k | 0 <= k < |r.Components()| :: r.Components()[k] == Apply(op, a.Components()[k], s)
  {
    match a
    case Vec1(x) => Vec1(match op case Mul => x.Mul(s) case Div => x.Div(s) case Rem => x.Rem(s))
    case Vec2(x) => Vec2(match op case Mul => x.Mul(s) case Div => x.Div(s) case Rem => x.Rem(s))
    case Vec3(x) => Vec3(match op case Mul => x.Mul(s) case Div => x.Div(s) case Rem => x.Rem(s))
    case Vec4(x) => Vec4(match op case Mul => x.Mul(s) case Div => x.Div(s) case Rem => x.Rem(s))
    case Mat2(x) =>
      ScaleMatrix2(op, x, s);
      Mat2(match op case Mul => x.Mul(s) case Div => x.Div(s) case Rem => x.Rem(s))
    case Mat3(x) =>
      ScaleMatrix3(op, x, s);
      Mat3(match op case Mul => x.Mul(s) case Div => x.Div(s) case Rem => x.Rem(s))
    case Mat4(x) =>
      ScaleMatrix4(op, x, s);
      Mat4(match op case Mul => x.Mul(s) case Div => x.Div(s) case Rem => x.Rem(s))
  }

  /** The matrix2 case of `Combine`, stated over the flattened components. */
  lemma CombineMatrix2(op: Op, a: Matrix2, b: Matrix2)
    requires op in {Add, Sub}
    ensures var r := if op == Add then a.Add(b) else a.Sub(b);
      |r.Components()| == |a.Components()| == |b.Components()| &&
      forall k | 0 <= k < |r.Components()| ::
        r.Components()[k] == Apply(op, a.Components()[k], b.Components()[k])
  {
    var r := if op == Add then a.Add(b) else a.Sub(b);
    a.ComponentsAreEntries(); b.ComponentsAreEntries(); r.ComponentsAreEntries();
  }

  /** The matrix2 case of `Scale`, stated over the flattened components. */
  lemma ScaleMatrix2(op: Op, a: Matrix2, s: Num)
    requires op in {Mul, Div, Rem}
    ensures var r := match op case Mul => a.Mul(s) case Div => a.Div(s) case Rem => a.Rem(s);
      |r.Components()| == |a.Components()| &&
      forall k | 0 <= k < |r.Components()| :: r.Components()[k] == Apply(op, a.Components()[k], s)
  {
    var r := match op case Mul => a.Mul(s) case Div => a.Div(s) case Rem => a.Rem(s);
    a.ComponentsAreEntries(); r.ComponentsAreEntries();
  }

  /** The matrix3 case of `Combine`, stated over the flattened components. */
  lemma CombineMatrix3(op: Op, a: Matrix3, b: Matrix3)
    requires op in {Add, Sub}
    ensures var r := if op == Add then a.Add(b) else a.Sub(b);
      |r.Components()| == |a.Components()| == |b.Components()| &&
      forall k | 0 <= k < |r.Components()| ::
        r.Components()[k] == Apply(op, a.Components()[k], b.Components()[k])
  {
    var r := if op == Add then a.Add(b) else a.Sub(b);
    a.ComponentsAreEntries(); b.ComponentsAreEntries(); r.ComponentsAreEntries();
  }

  /** The matrix3 case of `Scale`, stated over the flattened components. */
  lemma ScaleMatrix3(op: Op, a: Matrix3, s: Num)
    requires op in {Mul, Div, Rem}
    ensures var r := match op case Mul => a.Mul(s) case Div => a.Div(s) case Rem => a.Rem(s);
      |r.Components()| == |a.Components()| &&
      forall k | 0 <= k < |r.Components()| :: r.Components()[k] == Apply(op, a.Components()[k], s)
  {
    var r := match op case Mul => a.Mul(s) case Div => a.Div(s) case Rem => a.Rem(s);
    a.ComponentsAreEntries(); r.ComponentsAreEntries();
  }

  /** The matrix4 case of `Combine`, stated over the flattened components. */
  lemma CombineMatrix4(op: Op, a: Matrix4, b: Matrix4)
    requires op in {Add, Sub}
    ensures var r := if op == Add then a.Add(b) else a.Sub(b);
      |r.Components()| == |a.Components()| == |b.Components()| &&
      forall k | 0 <= k < |r.Components()| ::
        r.Components()[k] == Apply(op, a.Components()[k], b.Components()[k])
  {
    var r := if op == Add then a.Add(b) else a.Sub(b);
    a.ComponentsAreEntries(); b.ComponentsAreEntries(); r.ComponentsAreEntries();
  }

  /** The matrix4 case of `Scale`, stated over the flattened components. */
  lemma ScaleMatrix4(op: Op, a: Matrix4, s: Num)
    requires op in {Mul, Div, Rem}
    ensures var r := match op case Mul => a.Mul(s) case Div => a.Div(s) case Rem => a.Rem(s);
      |r.Components()| == |a.Components()| &&
      forall k | 0 <= k < |r.Components()| :: r.Components()[k] == Apply(op, a.Components()[k], s)
  {
    var r := match op case Mul => a.Mul(s) case Div => a.Div(s) case Rem => a.Rem(s);
    a.ComponentsAreEntries(); r.ComponentsAreEntries();
  }
  /** The shape and operation pairs lib.rs has a handler for: no operation
      on matrix3 or matrix4, `perp_dot` only for vector2 and `cross` only
      for vector3. */
  predicate HasHandler(shape: Shape, op: Op)
  {
    shape != M3 && shape != M4 &&
    (op == PerpDot ==> shape == V2) && (op == Cross ==> shape == V3)
  }

  /** `(atoms::ok(), result).encode(env)`. */
  function OkTuple(result: Term): Term
  {
    Tuple([Atom(OkAtom), result])
  }

  /** The handler `{shape}_{op}` of lib.rs applied to its two arguments. */
  function Handle(shape: Shape, op: Op, args: seq<Term>): (r: Result<Term>)
    requires |args| == 2 && HasHandler(shape, op)
    ensures Decode(shape, args[0]).Err? ==> r == Err(Decode(shape, args[0]).error)
    ensures r.Ok? ==> r.value.Tuple? && |r.value.elems| == 2 && r.value.elems[0] == Atom(OkAtom)
    ensures r.Err? ==> r.error == BadArg
  {
    var lhs :- Decode(shape, args[0]);
    match op
    case Add | Sub =>
      var rhs :- Decode(shape, args[1]);
      Ok(OkTuple(Encode(Combine(op, lhs, rhs)).value))
    case Mul | Div | Rem =>
      var rhs :- DecodeF64(args[1]);
      Ok(OkTuple(Encode(Scale(op, lhs, rhs)).value))
    case PerpDot =>
      var rhs :- Decode(V2, args[1]);
      Ok(OkTuple(Float(lhs.v2.PerpDot(rhs.v2))))
    case Cross =>
      var rhs :- Decode(V3, args[1]);
      Ok(OkTuple(EncodeVector3(lhs.v3.Cross(rhs.v3)).value))
  }

  /** A handler succeeds exactly when both arguments decode: `args[0]` as its
      shape, and `args[1]` as the same shape or, for `mul`, `div` and `mod`,
      as a bare float. Otherwise it answers the first decode error. */
  lemma HandleSucceedsIff(shape: Shape, op: Op, args: seq<Term>)
    requires |args| == 2 && HasHandler(shape, op)
    ensures Handle(shape, op, args).Ok? <==>
      Decode(shape, args[0]).Ok? &&
      (if op in {Mul, Div, Rem} then args[1].Float? else Decode(shape, args[1]).Ok?)
    ensures Decode(shape, args[0]).Ok? && Handle(shape, op, args).Err? ==>
      Handle(shape, op, args).error == BadArg
  {
  }

  /** `{shape}_add` and `{shape}_sub` answer `{:ok, t}` where `t` is the
      encoding, tagged with the shape's atoms, of the elementwise sum or
      difference of the two decoded arguments. */
  lemma HandleCombines(shape: Shape, op: Op, args: seq<Term>)
    requires |args| == 2 && op in {Add, Sub} && HasHandler(shape, op)
    requires Handle(shape, op, args).Ok?
    ensures var t := Handle(shape, op, args).value.elems[1];
      var a, b := Decode(shape, args[0]).value, Decode(shape, args[1]).value;
      t == Encode(Combine(op, a, b)).value && t.elems[0] == Atom(Tag(shape))
    ensures var t := Handle(shape, op, args).value.elems[1];
      var a, b := Decode(shape, args[0]).value, Decode(shape, args[1]).value;
      Classify(t) == Some(shape) && Decode(shape, t).Ok? &&
      var c := Decode(shape, t).value;
      |c.Components()| == |a.Components()| == |b.Components()| &&
      forall k | 0 <= k < |c.Components()| :: c.Components()[k] == Apply(op, a.Components()[k], b.Components()[k])
  {
    var a, b := Decode(shape, args[0]).value, Decode(shape, args[1]).value;
    RoundTrip(Combine(op, a, b));
  }

  /** `{shape}_mul`, `{shape}_div` and `{shape}_mod` take a bare float `s` as
      second argument and answer `{:ok, t}` where `t` is the encoding, tagged
      with the shape's atoms, of the first argument with every component
      combined with `s`. */
  lemma HandleScales(shape: Shape, op: Op, args: seq<Term>)
    requires |args| == 2 && op in {Mul, Div, Rem} && HasHandler(shape, op)
    requires Handle(shape, op, args).Ok?
    ensures args[1].Float?
    ensures var t := Handle(shape, op, args).value.elems[1];
      var a := Decode(shape, args[0]).value;
      t == Encode(Scale(op, a, args[1].value)).value && t.elems[0] == Atom(Tag(shape))
    ensures var t := Handle(shape, op, args).value.elems[1];
      var a := Decode(shape, args[0]).value;
      Classify(t) == Some(shape) && Decode(shape, t).Ok? &&
      var c := Decode(shape, t).value;
      |c.Components()| == |a.Components()| &&
      forall k | 0 <= k < |c.Components()| :: c.Components()[k] == Apply(op, a.Components()[k], args[1].value)
  {
    var a := Decode(shape, args[0]).value;
    RoundTrip(Scale(op, a, args[1].value));
  }

  /** `vector2_perp_dot` answers `{:ok, f}` with `f` an untagged float: the
      perpendicular dot product of the two decoded vectors. */
  lemma HandlePerpDot(args: seq<Term>)
    requires |args| == 2 && Handle(V2, PerpDot, args).Ok?
    ensures Handle(V2, PerpDot, args).value ==
      OkTuple(Float(Decode(V2, args[0]).value.v2.PerpDot(Decode(V2, args[1]).value.v2)))
  {
  }

  /** `vector3_cross` answers `{:ok, t}` with `t` the vector3 encoding of the
      cross product of the two decoded vectors. */
  lemma HandleCross(args: seq<Term>)
    requires |args| == 2 && Handle(V3, Cross, args).Ok?
    ensures Ok(Handle(V3, Cross, args).value.elems[1]) ==
      EncodeVector3(Decode(V3, args[0]).value.v3.Cross(Decode(V3, args[1]).value.v3))
  {
  }

  /** One row of `rustler_export_nifs!`: the exported name, the arity, and
      the handler it names. */
  datatype Entry = Entry(name: string, arity: nat, shape: Shape, op: Op)

  /** The export list of lib.rs, in its order. */
  const Registry: seq<Entry> := [
    Entry("vector1_add", 2, V1, Add),
    Entry("vector1_sub", 2, V1, Sub),
    Entry("vector1_mul", 2, V1, Mul),
    Entry("vector1_div", 2, V1, Div),
    Entry("vector1_mod", 2, V1, Rem),
    Entry("vector2_add", 2, V2, Add),
    Entry("vector2_sub", 2, V2, Sub),
    Entry("vector2_mul", 2, V2, Mul),
    Entry("vector2_div", 2, V2, Div),
    Entry("vector2_mod", 2, V2, Rem),
    Entry("vector3_add", 2, V3, Add),
    Entry("vector3_sub", 2, V3, Sub),
    Entry("vector3_mul", 2, V3, Mul),
    Entry("vector3_div", 2, V3, Div),
    Entry("vector3_mod", 2, V3, Rem),
    Entry("vector2_perp_dot", 2, V2, PerpDot),
    Entry("vector3_cross", 2, V3, Cross),
    Entry("vector4_add", 2, V4, Add),
    Entry("vector4_sub", 2, V4, Sub),
    Entry("vector4_mul", 2, V4, Mul),
    Entry("vector4_div", 2, V4, Div),
    Entry("vector4_mod", 2, V4, Rem),
    Entry("matrix2_add", 2, M2, Add),
    Entry("matrix2_sub", 2, M2, Sub),
    Entry("matrix2_mul", 2, M2, Mul),
    Entry("matrix2_div", 2, M2, Div),
    Entry("matrix2_mod", 2, M2, Rem)
  ]

  lemma RegistryArities()
    ensures forall i | 0 <= i < |Registry| :: Registry[i].arity == 2
  {
  }

  lemma RegistryHandlersExist()
    ensures forall i | 0 <= i < |Registry| :: HasHandler(Registry[i].shape, Registry[i].op)
  {
  }

  lemma RegistryHasNoMatrix3Or4()
    ensures forall i | 0 <= i < |Registry| :: Registry[i].shape != M3 && Registry[i].shape != M4
  {
  }

  /** The table has 27 entries, all of arity 2 and naming an existing
      handler, and exports no matrix3 or matrix4 operation. */
  lemma RegistryShape()
    ensures |Registry| == 27
    ensures Exportable(Registry)
    ensures forall i | 0 <= i < |Registry| :: Registry[i].shape != M3 && Registry[i].shape != M4
  {
    RegistryArities();
    RegistryHandlersExist();
    RegistryHasNoMatrix3Or4();
  }

  lemma NamesDistinctFrom0()
    ensures forall i, j | 0 <= i < 9 && i < j < |Registry| :: Registry[i].name != Registry[j].name
  {
  }

  lemma NamesDistinctFrom9()
    ensures forall i, j | 9 <= i < 18 && i < j < |Registry| :: Registry[i].name != Registry[j].name
  {
  }

  lemma NamesDistinctFrom18()
    ensures forall i, j | 18 <= i < 27 && i < j < |Registry| :: Registry[i].name != Registry[j].name
  {
  }

  /** No two entries of the table share a name. */
  lemma RegistryNamesDistinct()
    ensures NamesDistinct(Registry)
  {
    NamesDistinctFrom0();
    NamesDistinctFrom9();
    NamesDistinctFrom18();
  }

  /** The first entry of `table` exported under `name` with `arity`. */
  function Lookup(table: seq<Entry>, name: string, arity: nat): (r: Option<Entry>)
    ensures r.Some? ==> exists i | 0 <= i < |table| ::
      table[i] == r.value && forall j | 0 <= j < i :: !(table[j].name == name && table[j].arity == arity)
    ensures r.Some? ==> r.value in table && r.value.name == name && r.value.arity == arity
    ensures r.None? ==> forall e | e in table :: !(e.name == name && e.arity == arity)
  {
    if table == [] then None
    else if table[0].name == name && table[0].arity == arity then Some(table[0])
    else Lookup(table[1..], name, arity)
  }

  /** Every entry of `table` names a handler that exists, with arity 2. */
  predicate Exportable(table: seq<Entry>)
  {
    forall i | 0 <= i < |table| :: table[i].arity == 2 && HasHandler(table[i].shape, table[i].op)
  }

  /** No two entries of `table` share a name. */
  predicate NamesDistinct(table: seq<Entry>)
  {
    forall i, j | 0 <= i < j < |table| :: table[i].name != table[j].name
  }

  /** In a table without repeated names, looking up an entry's name and
      arity finds that entry. */
  lemma {:induction false} LookupFindsEntry(table: seq<Entry>, i: nat)
    requires i < |table| && NamesDistinct(table)
    ensures Lookup(table, table[i].name, table[i].arity) == Some(table[i])
  {
    if i > 0 {
      assert table[0].name != table[i].name;
      assert NamesDistinct(table[1..]) by {
        forall a, b | 0 <= a < b < |table[1..]|
          ensures table[1..][a].name != table[1..][b].name
        {
          assert table[1..][a] == table[a + 1] && table[1..][b] == table[b + 1];
        }
      }
      LookupFindsEntry(table[1..], i - 1);
      assert table[1..][i - 1] == table[i];
    }
  }

  /** A call from Elixir to the NIF library exporting `table`: run the
      handler exported under `name` with the arity of `args`, or fail with
      `Undef` when there is none. */
  function Dispatch(table: seq<Entry>, name: string, args: seq<Term>): (r: Result<Term>)
    requires Exportable(table)
    ensures r == Err(Undef) <==> forall e | e in table :: !(e.name == name && e.arity == |args|)
  {
    match Lookup(table, name, |args|)
    case None => Err(Undef)
    case Some(e) =>
      assert exists i :: 0 <= i < |table| && table[i] == e;
      Handle(e.shape, e.op, args)
  }

  /** Calling a name of lib.rs's table with two arguments runs exactly the
      handler exported under it. */
  lemma DispatchRoutes(i: nat, args: seq<Term>)
    requires i < |Registry| && |args| == 2
    ensures Exportable(Registry)
    ensures Dispatch(Registry, Registry[i].name, args) == Handle(Registry[i].shape, Registry[i].op, args)
  {
    RegistryShape();
    RegistryNamesDistinct();
    LookupFindsEntry(Registry, i);
  }
}
