/** The slice of Erlang terms the crate exchanges with the BEAM, and the
    rustler decoders it builds on. */
module Terms {
  import opened F64

  /** An Erlang term: an atom, a float, a tuple, or an Elixir struct (a map
      whose `__struct__` key names `moduleName`; `fields` holds its other keys). */
  datatype Term =
    | Atom(name: string)
    | Float(value: Num)
    | Tuple(elems: seq<Term>)
    | Struct(moduleName: string, fields: map<string, Term>)

  /** rustler's `Error`: every decode failure here is `BadArg`; `Undef` is what
      the BEAM reports for a name and arity the NIF library does not export. */
  datatype Error = BadArg | Undef

  datatype Option<+T> = None | Some(value: T)

  /** rustler's `NifResult<T>`, usable with `:-` like Rust's `?`. */
  datatype Result<+T> = Ok(value: T) | Err(error: Error) {
    predicate IsFailure() { Err? }
    function PropagateFailure<U>(): Result<U> requires Err? { Err(error) }
    function Extract(): T requires Ok? { value }
  }

  /** `term.decode::<Atom>()`. */
  function DecodeAtom(t: Term): Result<string>
  {
    if t.Atom? then Ok(t.name) else Err(BadArg)
  }

  /** `term.decode::<f64>()`: only a float term is accepted. */
  function DecodeF64(t: Term): Result<Num>
  {
    if t.Float? then Ok(t.value) else Err(BadArg)
  }

  /** The arity check of rustler's tuple decoders: the elements of a tuple of
      exactly `arity` elements. */
  function DecodeTuple(t: Term, arity: nat): Result<seq<Term>>
  {
    if t.Tuple? && |t.elems| == arity then Ok(t.elems) else Err(BadArg)
  }
}
