/** Erased values that remember the concrete type they were boxed at, and the
    checked downcasts that recover that type or report a `DowncastError`
    naming both the actual and the requested type (src/every.rs). */
module Every {

  /** A runtime type identity (`TypeId`); it is only ever compared for equality. */
  type TypeId = nat

  /** A concrete type as seen at run time: its identity and its `type_name`.
      Distinct types have distinct ids; names are for diagnostics only. */
  datatype Ty = Ty(id: TypeId, name: string)

  /** The concrete values the model can box. */
  datatype Value = Int(i: int) | Str(s: string) | Unit

  /** `Box<dyn Every>`: a payload together with the type it was boxed at. */
  datatype Erased = Erased(ty: Ty, payload: Value)

  /** The record built by a failed downcast. */
  datatype DowncastError = DowncastError(
    sourceTypeId: TypeId, sourceTypeName: string,
    targetTypeId: TypeId, targetTypeName: string)

  datatype Option<+T> = None | Some(value: T)

  /** `Result<_, DowncastError>` as returned by the checked downcasts. */
  datatype Result<+T> = Ok(value: T) | Err(error: DowncastError)

  /** Either the value an operation returns, or the message it panicked with. */
  datatype Outcome<+T> = Return(value: T) | Panicked(message: string)

  /** `__downcast` gives back either the unboxed payload or the untouched box. */
  datatype BoxResult = Unboxed(value: Value) | Rejected(original: Erased)

  /** `is::<T>()`: the runtime type identities agree. */
  predicate Is(e: Erased, t: Ty)
    ensures e.ty == t ==> Is(e, t)
  {
    e.ty.id == t.id
  }

  /** A value boxed at `t` is a `t`, and is no other type. */
  lemma BoxedIsItsType(t: Ty, u: Ty, v: Value)
    ensures Is(Erased(t, v), t)
    ensures Is(Erased(t, v), u) <==> u.id == t.id
  {
  }

  /** `cannot_downcast::<T>(source)`. */
  function CannotDowncast(source: Erased, t: Ty): (err: DowncastError)
    ensures err.sourceTypeId == source.ty.id && err.sourceTypeName == source.ty.name
    ensures err.targetTypeId == t.id && err.targetTypeName == t.name
  {
    DowncastError(source.ty.id, source.ty.name, t.id, t.name)
  }

  /** `__downcast_ref::<T>()` and `__downcast_mut::<T>()`: the payload, exactly
      when the type check passes. */
  function DowncastOpt(e: Erased, t: Ty): (r: Option<Value>)
    ensures r.Some? <==> Is(e, t)
    ensures r.Some? ==> r.value == e.payload
  {
    if Is(e, t) then Some(e.payload) else None
  }

  /** `downcast_ref::<T>()`. */
  function DowncastRef(e: Erased, t: Ty): (r: Result<Value>)
    ensures r.Ok? <==> Is(e, t)
    ensures r.Ok? ==> r.value == e.payload
    ensures r.Err? ==> r.error == DowncastError(e.ty.id, e.ty.name, t.id, t.name)
  {
    match DowncastOpt(e, t)
    case Some(v) => Ok(v)
    case None => Err(CannotDowncast(e, t))
  }

  /** `downcast_mut::<T>()`, followed by storing `v` through the `&mut T` it
      hands out on success. The type is kept; on failure the box is untouched
      and the error is built from it. */
  function WriteThrough(e: Erased, t: Ty, v: Value): (r: Result<Erased>)
    ensures r.Ok? <==> Is(e, t)
    ensures r.Ok? ==> r.value.ty == e.ty && r.value.payload == v
    ensures r.Err? ==> r.error == CannotDowncast(e, t)
  {
    match DowncastOpt(e, t)
    case Some(_) => Ok(Erased(e.ty, v))
    case None => Err(CannotDowncast(e, t))
  }

  /** A write through `downcast_mut` is seen by a later `downcast_ref`. */
  lemma WriteThenRead(e: Erased, t: Ty, v: Value)
    requires Is(e, t)
    ensures WriteThrough(e, t, v).Ok?
    ensures DowncastRef(WriteThrough(e, t, v).value, t) == Ok(v)
  {
  }

  /** `__downcast::<T>(s)`: on a mismatch the box comes back undisturbed. */
  function DowncastBox(s: Erased, t: Ty): (r: BoxResult)
    ensures r.Unboxed? <==> Is(s, t)
    ensures r.Unboxed? ==> r.value == s.payload
    ensures r.Rejected? ==> r.original == s
  {
    if Is(s, t) then Unboxed(s.payload) else Rejected(s)
  }

  /** `BoxDowncast::downcast::<T>()`: consuming the box gives the same answer
      as `downcast_ref`, the error being built from the returned box. */
  function Downcast(s: Erased, t: Ty): (r: Result<Value>)
    ensures r == DowncastRef(s, t)
  {
    match DowncastBox(s, t)
    case Unboxed(v) => Ok(v)
    case Rejected(original) => Err(CannotDowncast(original, t))
  }

  /** `Display for DowncastError`. */
  function Display(err: DowncastError): (s: string)
    ensures |s| == 22 + |err.sourceTypeName| + |err.targetTypeName|
    ensures s[..16] == "cannot downcast "
  {
    "cannot downcast " + err.sourceTypeName + " into " + err.targetTypeName
  }

  /** The message names the source type right after the fixed prefix and
      ends with the target type. */
  lemma DisplayLayout(err: DowncastError)
    ensures var s, n := Display(err), |err.sourceTypeName|;
      && |s| == 22 + n + |err.targetTypeName|
      && s[..16] == "cannot downcast "
      && s[16..16 + n] == err.sourceTypeName
      && s[16 + n..22 + n] == " into "
      && s[22 + n..] == err.targetTypeName
  {
    var s, n := Display(err), |err.sourceTypeName|;
    assert s == ("cannot downcast " + err.sourceTypeName) + (" into " + err.targetTypeName);
  }

  /** `panic(error)`: abort with the error's display text. */
  function Panic<R>(err: DowncastError): (o: Outcome<R>)
    ensures o.Panicked? && o.message == Display(err)
  {
    Panicked(Display(err))
  }

  /** `r.unwrap_or_else(panic)`. */
  function UnwrapOrPanic<R>(r: Result<R>): (o: Outcome<R>)
    ensures o.Return? <==> r.Ok?
    ensures o.Return? ==> o.value == r.value
    ensures o.Panicked? ==> o.message == Display(r.error)
  {
    match r
    case Ok(v) => Return(v)
    case Err(err) => Panic(err)
  }
}
