/** `CHED`: a boxed erased value paired with a `ched::VTable` reference;
    clone, debug, equality and hashing dispatch through the table
    (src/ched.rs). */
module Ched {
  import opened Every
  import opened Lib
  import opened Vtable

  /** The identity of `ched::VTable` as a table kind. */
  const VTableKind: Ty := Ty(0, "vtable::ched::VTable")

  datatype CHED = CHED(inner: Erased, vtable: Table)

  /** The container's invariant: its table is a `ched::VTable` specialised
      for the inner value's runtime type. */
  predicate Valid(c: CHED) {
    c.vtable.kind.id == VTableKind.id && c.vtable.elem.ty.id == c.inner.ty.id
  }

  /** The natives the container's table dispatches to. */
  function NativesOf(c: CHED): Natives {
    c.vtable.elem.natives
  }

  /** `CHED::new(value, tok)`: `tok: &Token<T>` is a token for the value's own
      type `t`, handed out by `Token::default`. */
  function New(value: Value, t: Ty, tok: Token): (c: CHED)
    requires tok.phantom == t && tok.SpecialisedFor(VTableKind)
    ensures Valid(c)
    ensures c.inner == Erased(t, value) && c.vtable == tok.VtableRef()
  {
    CHED(Erased(t, value), tok.VtableRef())
  }

  /** `inner()`. */
  function Inner(c: CHED): (e: Erased)
    ensures Valid(c) ==> Is(e, c.vtable.elem.ty)
  {
    c.inner
  }

  /** `into_inner()`. */
  function IntoInner(c: CHED): (e: Erased)
    ensures Valid(c) ==> Is(e, c.vtable.elem.ty)
  {
    c.inner
  }

  /** `into_inner()` then `downcast` to the value's own type gives the value
      back; to any other type it fails, naming both types. */
  lemma IntoInnerDowncast(value: Value, t: Ty, tok: Token, u: Ty)
    requires tok.phantom == t && tok.SpecialisedFor(VTableKind)
    ensures Downcast(IntoInner(New(value, t, tok)), t) == Ok(value)
    ensures u.id != t.id ==>
      Downcast(IntoInner(New(value, t, tok)), u) == Err(DowncastError(t.id, t.name, u.id, u.name))
    ensures u.id != t.id ==>
      UnwrapOrPanic(Downcast(IntoInner(New(value, t, tok)), u))
        == Panicked("cannot downcast " + t.name + " into " + u.name)
  {
  }

  /** `*c.inner_mut() = replacement`, as the source allows: `inner_mut`
      returns `&mut Box<dyn Every>`, so the whole box can be swapped. */
  function InnerMutAsWritten(c: CHED, replacement: Erased): (r: CHED)
    ensures r.vtable == c.vtable && r.inner == replacement
  {
    c.(inner := replacement)
  }

  /** A replacement of another type breaks the invariant, and every later
      operation through the table panics. */
  lemma InnerMutBreaksInvariant(c: CHED, replacement: Erased)
    requires Valid(c) && replacement.ty.id != c.inner.ty.id
    ensures var r := InnerMutAsWritten(c, replacement);
      var msg := Display(CannotDowncast(replacement, c.vtable.elem.ty));
      && !Valid(r)
      && Eq(r, r) == Panicked(msg)
      && Clone(r) == Panicked(msg)
      && Debug(r) == Panicked(msg)
      && HashInput(r) == Panicked(msg)
  {
  }

  /** `inner_mut()` handing out `&mut dyn Every`: the only write is through
      `downcast_mut::<T>()`, which keeps the type. */
  function InnerMut(c: CHED, t: Ty, v: Value): (r: Result<CHED>)
    ensures r.Ok? <==> Is(c.inner, t)
    ensures r.Ok? ==> r.value.vtable == c.vtable && r.value.inner == Erased(c.inner.ty, v)
    ensures r.Err? ==> r.error == CannotDowncast(c.inner, t)
    ensures Valid(c) && r.Ok? ==> Valid(r.value)
  {
    match WriteThrough(c.inner, t, v)
    case Ok(e) => Ok(c.(inner := e))
    case Err(err) => Err(err)
  }

  /** `Debug for CHED`: the table's `debug` entry on the inner value. */
  function Debug(c: CHED): (r: Outcome<string>)
    ensures r.Panicked? <==> !Is(c.inner, c.vtable.elem.ty)
    ensures r.Panicked? ==> r.message == Display(CannotDowncast(c.inner, c.vtable.elem.ty))
    ensures Valid(c) ==> r == Return(NativesOf(c).fmt(c.inner.payload))
  {
    Lib.Debug(c.inner, c.vtable.elem)
  }

  /** `Clone for CHED`: the table's `clone` entry, sharing the same table. */
  function Clone(c: CHED): (r: Outcome<CHED>)
    ensures r.Panicked? <==> !Is(c.inner, c.vtable.elem.ty)
    ensures r.Panicked? ==> r.message == Display(CannotDowncast(c.inner, c.vtable.elem.ty))
    ensures Valid(c) ==> r.Return? && Valid(r.value)
    ensures Valid(c) ==> r.value.vtable == c.vtable && r.value.inner.ty.id == c.inner.ty.id
    ensures Valid(c) ==> r.value.inner.payload == NativesOf(c).clone(c.inner.payload)
  {
    match Lib.Clone(c.inner, c.vtable.elem)
    case Panicked(m) => Panicked(m)
    case Return(e) => Return(CHED(e, c.vtable))
  }

  /** `PartialEq for CHED`: the left operand's `partial_eq` entry. Two
      containers are equal exactly when they hold the same type and natively
      equal payloads. */
  function Eq(a: CHED, b: CHED): (r: Outcome<bool>)
    ensures r.Panicked? <==> !Is(a.inner, a.vtable.elem.ty)
    ensures r.Panicked? ==> r.message == Display(CannotDowncast(a.inner, a.vtable.elem.ty))
    ensures Valid(a) ==> r.Return?
    ensures Valid(a) ==>
      (r.value <==> a.inner.ty.id == b.inner.ty.id && NativesOf(a).eq(a.inner.payload, b.inner.payload))
  {
    PartialEq(a.inner, b.inner, a.vtable.elem)
  }

  /** The bytes `Hash for CHED` feeds the hasher. */
  function HashInput(c: CHED): (r: Outcome<seq<bv8>>)
    ensures r.Panicked? <==> !Is(c.inner, c.vtable.elem.ty)
    ensures r.Panicked? ==> r.message == Display(CannotDowncast(c.inner, c.vtable.elem.ty))
    ensures Valid(c) ==> r == Return(NativesOf(c).hash(c.inner.payload))
  {
    Lib.HashInput(c.inner, c.vtable.elem)
  }

  /** `Hash for CHED`: the table's `hash` entry on the inner value. */
  method Hash(c: CHED, state: Hasher) returns (o: Outcome<()>)
    modifies state
    ensures o.Panicked? <==> !Is(c.inner, c.vtable.elem.ty)
    ensures o.Panicked? ==> o.message == Display(CannotDowncast(c.inner, c.vtable.elem.ty))
    ensures o.Panicked? ==> state.written == old(state.written)
    ensures Valid(c) ==> o.Return?
    ensures o.Return? ==> state.written == old(state.written) + NativesOf(c).hash(c.inner.payload)
  {
    o := Lib.Hash(c.inner, c.vtable.elem, state);
  }

  /** Containers of one type share their table: what the registry ensures
      for containers built from the tokens it issues. */
  predicate SharesTable(a: CHED, b: CHED) {
    a.inner.ty.id == b.inner.ty.id ==> a.vtable == b.vtable
  }

  /** Containers built from tokens one registry issued for the table kind
      share tables, whatever their values. */
  lemma IssuedTokensShareTables(reg: Registry, v: Value, t: Ty, tok: Token, w: Value, u: Ty, tok': Token)
    requires Issued(reg, tok, VTableKind) && Issued(reg, tok', VTableKind)
    requires tok.phantom == t && tok.SpecialisedFor(VTableKind)
    requires tok'.phantom == u && tok'.SpecialisedFor(VTableKind)
    ensures SharesTable(New(v, t, tok), New(w, u, tok'))
  {
    if t.id == u.id {
      IssuedTokensShareTable(reg, tok, tok', VTableKind);
    }
  }

  /** Equality is reflexive (with a lawful `Eq`). */
  lemma EqReflexive(c: CHED)
    requires Valid(c) && Lawful(NativesOf(c))
    ensures Eq(c, c) == Return(true)
  {
  }

  /** Equality is symmetric between containers that share tables. */
  lemma EqSymmetric(a: CHED, b: CHED)
    requires Valid(a) && Valid(b) && SharesTable(a, b) && Lawful(NativesOf(a))
    ensures Eq(a, b) == Eq(b, a)
  {
  }

  /** A clone equals its original, in both directions. */
  lemma CloneEqualsOriginal(c: CHED)
    requires Valid(c) && Lawful(NativesOf(c))
    ensures Clone(c).Return?
    ensures Eq(c, Clone(c).value) == Return(true)
    ensures Eq(Clone(c).value, c) == Return(true)
  {
  }

  /** Containers built from values of one type with one token are equal
      exactly when the values are natively equal. */
  lemma NewEqIffNativeEq(v: Value, w: Value, t: Ty, tok: Token)
    requires tok.phantom == t && tok.SpecialisedFor(VTableKind)
    ensures Eq(New(v, t, tok), New(w, t, tok)) == Return(tok.vtable.elem.natives.eq(v, w))
  {
  }

  /** Containers of different types are never equal. */
  lemma CrossTypeNotEqual(v: Value, t: Ty, tok: Token, w: Value, u: Ty, tok': Token)
    requires tok.phantom == t && tok.SpecialisedFor(VTableKind)
    requires tok'.phantom == u && tok'.SpecialisedFor(VTableKind)
    requires t.id != u.id
    ensures Eq(New(v, t, tok), New(w, u, tok')) == Return(false)
    ensures Eq(New(w, u, tok'), New(v, t, tok)) == Return(false)
  {
  }

  /** Equal containers feed the hasher identical bytes. */
  lemma EqualHashAlike(a: CHED, b: CHED)
    requires Valid(a) && Valid(b) && SharesTable(a, b) && Lawful(NativesOf(a))
    requires Eq(a, b) == Return(true)
    ensures HashInput(a).Return? && HashInput(a) == HashInput(b)
  {
  }

  /** Writing through the original after cloning leaves the clone as it was. */
  lemma CloneIndependent(c: CHED, t: Ty, v: Value)
    requires Valid(c) && Is(c.inner, t)
    ensures Clone(c).Return? && InnerMut(c, t, v).Ok?
    ensures DowncastRef(InnerMut(c, t, v).value.inner, t) == Ok(v)
    ensures DowncastRef(Clone(c).value.inner, t) == Ok(NativesOf(c).clone(c.inner.payload))
  {
  }

  /** Lookup in a `HashMap<CHED, _>` holding `keys`: a key is found when one
      stored key has the same hash bytes and compares equal to it. */
  function Find(keys: seq<CHED>, k: CHED): bool {
    if keys == [] then false
    else (HashInput(keys[0]) == HashInput(k) && Eq(k, keys[0]) == Return(true)) || Find(keys[1..], k)
  }

  /** `HashMap::insert`: reports whether the key was already present and
      adds it if not. */
  function Insert(keys: seq<CHED>, k: CHED): (bool, seq<CHED>) {
    if Find(keys, k) then (true, keys) else (false, keys + [k])
  }

  /** Every stored key, and the looked-up key, obey the invariant and share
      tables; the looked-up key's `Eq` and `Hash` are lawful. */
  ghost predicate KeysCoherent(keys: seq<CHED>, k: CHED) {
    && Valid(k) && Lawful(NativesOf(k))
    && forall i | 0 <= i < |keys| :: Valid(keys[i]) && SharesTable(keys[i], k)
  }

  /** The hash test: the lookup finds a key exactly when some stored key
      equals it, so insertion reports an existing key only on re-insertion
      of an equal one. */
  lemma {:induction false} FindIffEqualKey(keys: seq<CHED>, k: CHED)
    requires KeysCoherent(keys, k)
    ensures Find(keys, k) <==> exists i | 0 <= i < |keys| :: Eq(k, keys[i]) == Return(true)
    ensures Insert(keys, k).0 <==> exists i | 0 <= i < |keys| :: Eq(k, keys[i]) == Return(true)
  {
    if keys != [] {
      assert KeysCoherent(keys[1..], k) by {
        forall i | 0 <= i < |keys[1..]| ensures Valid(keys[1..][i]) && SharesTable(keys[1..][i], k) {
          assert keys[1..][i] == keys[i + 1];
        }
      }
      FindIffEqualKey(keys[1..], k);
      if Eq(k, keys[0]) == Return(true) {
        EqualHashAlike(k, keys[0]);
      }
      if exists i | 0 <= i < |keys| :: Eq(k, keys[i]) == Return(true) {
        var i :| 0 <= i < |keys| && Eq(k, keys[i]) == Return(true);
        if i > 0 {
          assert keys[1..][i - 1] == keys[i];
        }
      }
      if exists i | 0 <= i < |keys[1..]| :: Eq(k, keys[1..][i]) == Return(true) {
        var i :| 0 <= i < |keys[1..]| && Eq(k, keys[1..][i]) == Return(true);
        assert keys[1..][i] == keys[i + 1];
      }
    }
  }

  /** Inserting a key equal to none stored reports it absent and appends it. */
  lemma InsertNewKey(keys: seq<CHED>, k: CHED)
    requires KeysCoherent(keys, k)
    requires forall i | 0 <= i < |keys| :: Eq(k, keys[i]) == Return(false)
    ensures Insert(keys, k) == (false, keys + [k])
  {
    FindIffEqualKey(keys, k);
  }

  /** Re-inserting a key equal to a stored one reports it present. */
  lemma InsertEqualKey(keys: seq<CHED>, k: CHED, i: nat)
    requires KeysCoherent(keys, k)
    requires i < |keys| && Eq(k, keys[i]) == Return(true)
    ensures Insert(keys, k) == (true, keys)
  {
    FindIffEqualKey(keys, k);
  }
}
