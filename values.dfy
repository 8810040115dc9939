/** Element values as the storage-strategy engine sees them.

    The host runtime's objects are reduced to what the strategies inspect:
    their runtime type, an unboxed payload for the two primitive types, and
    identity.  Float payloads are opaque tokens compared by equality. */
module Values {

  /** A boxed object of the host runtime. */
  datatype Value =
    | Nil                 // the runtime's nil object
    | Fixnum(n: int)      // a small integer
    | Float(token: int)   // a float, as an opaque token
    | Obj(id: nat)        // any other object, identified by its id

  /** The runtime type of a value, as an `isinstance` test sees it. */
  datatype ValueType = NilType | FixnumType | FloatType | ObjectType

  function TypeOf(v: Value): ValueType {
    match v
    case Nil => NilType
    case Fixnum(_) => FixnumType
    case Float(_) => FloatType
    case Obj(_) => ObjectType
  }

  /** Types whose values have an unboxed form. */
  predicate Unboxable(t: ValueType) {
    t == FixnumType || t == FloatType
  }

  /** The unboxed form of a primitive value. */
  function Unbox(v: Value): int
    requires Unboxable(TypeOf(v))
  {
    match v
    case Fixnum(n) => n
    case Float(t) => t
  }

  /** The boxed value of type `t` whose unboxed form is `p`. */
  function Box(t: ValueType, p: int): (v: Value)
    requires Unboxable(t)
    ensures TypeOf(v) == t && Unbox(v) == p
  {
    if t == FixnumType then Fixnum(p) else Float(p)
  }

  lemma BoxUnbox(v: Value)
    requires Unboxable(TypeOf(v))
    ensures Box(TypeOf(v), Unbox(v)) == v
  {
  }

  /** Errors raised by the engine and by the array methods. */
  datatype Error =
    | IndexError          // an out-of-range index or range
    | ArgumentError       // a negative count passed to an array method
    | ConfigurationError  // the lattice has no class for a value
    | NameError           // a reference to an undefined name

  datatype Result<T> = Ok(value: T) | Err(error: Error)

  datatype Option<T> = None | Some(value: T)

  /** Outcome of a mutating call that returns nothing on success. */
  datatype Status = Done | Raised(error: Error)

  function Min(a: int, b: int): int { if a <= b then a else b }
  function Max(a: int, b: int): int { if a >= b then a else b }
}
