/** The per-type table entries of src/lib.rs: each downcasts its erased
    argument to the type `T` it was instantiated for (panicking if that
    fails) and then delegates to `T`'s own trait implementation. */
module Lib {
  import opened Every

  /** The trait implementations of one concrete type: `PartialEq::eq`, the
      text `Debug::fmt` writes, `Clone::clone`, and the bytes `Hash::hash`
      feeds the hasher. */
  datatype Natives = Natives(
    eq: (Value, Value) -> bool,
    fmt: Value -> string,
    clone: Value -> Value,
    hash: Value -> seq<bv8>)

  /** The laws Rust documents for `Eq`, `Clone` and `Hash` implementations;
      the compiler does not enforce them, so results that need them say so. */
  ghost predicate Lawful(n: Natives) {
    && (forall a :: n.eq(a, a))
    && (forall a, b :: n.eq(a, b) ==> n.eq(b, a))
    && (forall a, b, c :: n.eq(a, b) && n.eq(b, c) ==> n.eq(a, c))
    && (forall a, b :: n.eq(a, b) ==> n.hash(a) == n.hash(b))
    && (forall a :: n.eq(n.clone(a), a))
  }

  /** A concrete type `T` together with its trait implementations. */
  datatype TypeDesc = TypeDesc(ty: Ty, natives: Natives)

  /** `partial_eq::<T>(subject, other)`: `subject` must be a `T` (else panic);
      an `other` of another type is unequal. */
  function PartialEq(subject: Erased, other: Erased, t: TypeDesc): (r: Outcome<bool>)
    ensures r.Panicked? <==> !Is(subject, t.ty)
    ensures r.Panicked? ==> r.message == Display(CannotDowncast(subject, t.ty))
    ensures r.Return? ==>
      (r.value <==> Is(other, t.ty) && t.natives.eq(subject.payload, other.payload))
  {
    match UnwrapOrPanic(DowncastRef(subject, t.ty))
    case Panicked(m) => Panicked(m)
    case Return(lhs) =>
      Return(match DowncastRef(other, t.ty)
             case Ok(rhs) => t.natives.eq(lhs, rhs)
             case Err(_) => false)
  }

  /** `debug::<T>(subject, f)`: the text written is `T`'s own formatting. */
  function Debug(subject: Erased, t: TypeDesc): (r: Outcome<string>)
    ensures r.Panicked? <==> !Is(subject, t.ty)
    ensures r.Panicked? ==> r.message == Display(CannotDowncast(subject, t.ty))
    ensures r.Return? ==> r.value == t.natives.fmt(subject.payload)
  {
    match UnwrapOrPanic(DowncastRef(subject, t.ty))
    case Panicked(m) => Panicked(m)
    case Return(value) => Return(t.natives.fmt(value))
  }

  /** `clone::<T>(subject)`: a new box of type `T` holding `T`'s clone. */
  function Clone(subject: Erased, t: TypeDesc): (r: Outcome<Erased>)
    ensures r.Panicked? <==> !Is(subject, t.ty)
    ensures r.Panicked? ==> r.message == Display(CannotDowncast(subject, t.ty))
    ensures r.Return? ==> r.value.ty == t.ty && r.value.payload == t.natives.clone(subject.payload)
    ensures r.Return? && Lawful(t.natives) ==> t.natives.eq(r.value.payload, subject.payload)
  {
    match UnwrapOrPanic(DowncastRef(subject, t.ty))
    case Panicked(m) => Panicked(m)
    case Return(value) => Return(Erased(t.ty, t.natives.clone(value)))
  }

  /** The bytes `hash::<T>(subject, state)` feeds the hasher. */
  function HashInput(subject: Erased, t: TypeDesc): (r: Outcome<seq<bv8>>)
    ensures r.Panicked? <==> !Is(subject, t.ty)
    ensures r.Panicked? ==> r.message == Display(CannotDowncast(subject, t.ty))
    ensures r.Return? ==> r.value == t.natives.hash(subject.payload)
  {
    match UnwrapOrPanic(DowncastRef(subject, t.ty))
    case Panicked(m) => Panicked(m)
    case Return(value) => Return(t.natives.hash(value))
  }

  /** A `Hasher`, seen as the byte stream written into it so far. */
  class Hasher {
    var written: seq<bv8>

    constructor ()
      ensures written == []
    {
      written := [];
    }

    method Write(bytes: seq<bv8>)
      modifies this
      ensures written == old(written) + bytes
    {
      written := written + bytes;
    }
  }

  /** `hash::<T>(subject, state)`. */
  method Hash(subject: Erased, t: TypeDesc, state: Hasher) returns (o: Outcome<()>)
    modifies state
    ensures o.Return? <==> Is(subject, t.ty)
    ensures o.Panicked? ==> o.message == Display(CannotDowncast(subject, t.ty))
    ensures o.Return? ==> state.written == old(state.written) + t.natives.hash(subject.payload)
    ensures o.Panicked? ==> state.written == old(state.written)
  {
    match HashInput(subject, t)
    case Panicked(m) =>
      o := Panicked(m);
    case Return(bytes) =>
      state.Write(bytes);
      o := Return(());
  }

  /** With lawful `Eq`, `partial_eq::<T>` is reflexive on `T` values. */
  lemma PartialEqReflexive(a: Erased, t: TypeDesc)
    requires Lawful(t.natives) && Is(a, t.ty)
    ensures PartialEq(a, a, t) == Return(true)
  {
  }

  /** `partial_eq::<T>` is symmetric between two `T` values. */
  lemma PartialEqSymmetric(a: Erased, b: Erased, t: TypeDesc)
    requires Lawful(t.natives) && Is(a, t.ty) && Is(b, t.ty)
    ensures PartialEq(a, b, t) == PartialEq(b, a, t)
  {
  }

  /** A clone compares equal to its original, in both directions. */
  lemma CloneIsEqual(a: Erased, t: TypeDesc)
    requires Lawful(t.natives) && Is(a, t.ty)
    ensures Clone(a, t).Return?
    ensures PartialEq(Clone(a, t).value, a, t) == Return(true)
    ensures PartialEq(a, Clone(a, t).value, t) == Return(true)
  {
  }

  /** Values that `partial_eq::<T>` calls equal feed identical bytes to the hasher. */
  lemma EqualValuesHashAlike(a: Erased, b: Erased, t: TypeDesc)
    requires Lawful(t.natives)
    requires PartialEq(a, b, t) == Return(true)
    ensures HashInput(a, t).Return? && HashInput(b, t).Return?
    ensures HashInput(a, t) == HashInput(b, t)
  {
  }
}
