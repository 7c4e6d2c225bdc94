# vtable: type-erased values with per-type dispatch tables

This project is a Dafny model of the `vtable` Rust crate. The crate has three parts:

- **`every`** — `dyn Every` is `dyn Any` that also knows its type's name. Downcasts are checked. A failed downcast returns a `DowncastError` that names both the actual type and the requested one. `panic` turns that error into a panic whose message is "cannot downcast *source* into *target*".
- **`lib` + `vtable`** — one generic table entry per trait (`partial_eq`, `debug`, `clone`, `hash`). Each entry downcasts its erased argument to the type `T` it was instantiated for and then calls `T`'s own implementation. A process-wide registry builds at most one table per pair (concrete type, table kind). It hands out `'static` references to that table, wrapped in `Token`s.
- **`ched`** — `CHED` is a boxed `dyn Every` together with a reference to a `ched::VTable`. It implements `Clone`, `Debug`, `PartialEq`/`Eq` and `Hash` by dispatching through that table.

How the model represents these:

- A type is a runtime value `Ty(id, name)`. Type checks compare ids only, as the crate compares `TypeId`s.
- The trait implementations of a concrete type are a `Natives` record of functions. The laws Rust documents for `Eq`, `Hash` and `Clone`, which the compiler does not enforce, are the predicate `Lib.Lawful`. Results that rely on those laws require it.
- A panic is the value `Outcome.Panicked(message)`.
- Tables are objects of class `Vtable.Table`, so "the same `&'static` reference" is object identity. The registry is a class whose `types` map is updated in place.
- The crate's unit tests are restated as lemmas and methods in module `Scenarios`. They use `i32`, `u32`, `&str` and a unit `Custom` type.

## Model

| member | source | states |
|---|---|---|
| Every.Is | src/every.rs:58-60 | a value boxed at a type passes `is` for that type |
| Every.BoxedIsItsType | src/every.rs:56-60 | `is::<T>()` holds exactly for the type the value was boxed at (by id) |
| Every.CannotDowncast | src/every.rs:151-158 | the error carries the source's type id and name and the target's type id and name |
| Every.DowncastOpt | src/every.rs:78-100 | `__downcast_ref`/`__downcast_mut` give the payload exactly when the type check passes |
| Every.DowncastRef | src/every.rs:62-66 | `downcast_ref` succeeds iff the types agree, yielding the payload; otherwise it fails with the error naming both types |
| Every.WriteThrough | src/every.rs:68-76 | `downcast_mut` then a store: succeeds iff the types agree, keeps the box's type and holds the new value; otherwise the box is untouched and the error is built from it |
| Every.WriteThenRead | src/every.rs:264-269 | a value stored through `downcast_mut` is what a later `downcast_ref` returns |
| Every.DowncastBox | src/every.rs:188-195 | `__downcast` unboxes iff the types agree; on a mismatch it returns the original box unchanged |
| Every.Downcast | src/every.rs:165-171 | consuming `downcast` gives the same result (value or error) as `downcast_ref` |
| Every.Display | src/every.rs:214-222 | the message starts with "cannot downcast " and is 22 characters longer than the two type names together |
| Every.DisplayLayout | src/every.rs:214-222 | the message is "cannot downcast ", the source type name, " into ", then the target type name, with those exact positions and length |
| Every.Panic | src/every.rs:226-228 | `panic` never returns a value: it always panics, with the error's display text as the message |
| Every.UnwrapOrPanic | src/every.rs:226-228 | `unwrap_or_else(panic)` returns the value of `Ok`, and panics with the error's display text on `Err` |
| Lib.PartialEq | src/lib.rs:11-15 | panics with the downcast message iff the left operand is not a `T`; otherwise true iff the right operand is a `T` and `T::eq` holds |
| Lib.Debug | src/lib.rs:19-25 | panics iff the operand is not a `T`; otherwise writes `T`'s own formatting |
| Lib.Clone | src/lib.rs:29-33 | panics iff the operand is not a `T`; otherwise a new `T` box holding `T::clone`, which is equal to the original under lawful `Eq`/`Clone` |
| Lib.HashInput | src/lib.rs:37-40 | panics iff the operand is not a `T`; otherwise the bytes are `T`'s own hash input |
| Lib.Hash | src/lib.rs:37-40 | on success the hasher receives exactly `T`'s hash bytes appended; on panic it receives nothing |
| Lib.PartialEqReflexive | src/lib.rs:11-15 | with lawful `Eq`, `partial_eq::<T>(a, a)` is true for every `T` value |
| Lib.PartialEqSymmetric | src/lib.rs:11-15 | `partial_eq::<T>` is symmetric on `T` values |
| Lib.CloneIsEqual | src/lib.rs:29-33 | a `clone::<T>` result compares equal to the original in both directions |
| Lib.EqualValuesHashAlike | src/lib.rs:11-15 | values `partial_eq::<T>` calls equal feed the hasher identical bytes (the `Hash`/`Eq` contract a `HashMap` relies on) |
| Vtable.KeyOf | src/vtable.rs:32 | the registry key is the pair (type id of `T`, type id of `V`) |
| Vtable.KeysSeparate | src/vtable.rs:32 | registry keys coincide iff both the type id and the table-kind id coincide |
| Vtable.Table.Specialise | src/vtable.rs:7-10 | a table holds the kind and the per-type entries it was specialised with |
| Vtable.Registry.constructor | src/vtable.rs:12-20 | the registry starts empty and satisfies its invariant |
| Vtable.Registry.TryGet | src/vtable.rs:81-88 | `try_get` finds a table iff the key is stored; the table is the stored one, of that type and kind |
| Vtable.Registry.GetOrCreate | src/vtable.rs:30-47 | occupied: returns the stored table and changes nothing; vacant: builds a fresh table for exactly this type and kind and stores it under the key; existing entries are never altered; the invariant (one table per key, every table stored) is kept |
| Vtable.GetOrCreateTwice | src/vtable.rs:30-47 | two calls for one type and kind return the same table, and only the first can change the registry |
| Vtable.Token.VtableRef | src/vtable.rs:57-59 | `vtable_ref` returns the token's table (that this is the registry's entry for the token's type is stated by `DefaultToken`) |
| Vtable.DefaultToken | src/vtable.rs:68-73 | `Token::default` carries the registry's table for its type and kind, creating it only if absent |
| Vtable.IssuedTokensShareTable | src/vtable.rs:50-60 | two tokens issued for one type and kind refer to the same table |
| Ched.New | src/ched.rs:18-23 | the new container boxes the value at its type and holds the token's table, so the container invariant holds |
| Ched.Inner | src/ched.rs:25-29 | `inner` exposes the box, which on a valid container is of the table's type |
| Ched.IntoInner | src/ched.rs:36-39 | `into_inner` gives up the box, which on a valid container is of the table's type |
| Ched.IntoInnerDowncast | src/ched.rs:36-39 | `into_inner().downcast::<T>()` returns the stored value; any other type fails with an error, or panics with the message, naming both types |
| Ched.InnerMutAsWritten | src/ched.rs:31-34 | replacing the box through `inner_mut` keeps the table and stores the replacement as given, of whatever type |
| Ched.InnerMutBreaksInvariant | src/ched.rs:31-34 | a replacement of another type breaks the invariant; `==`, `clone`, `Debug` and `hash` then all panic with the downcast message |
| Ched.InnerMut | src/ched.rs:31-34 | the corrected `inner_mut` writes through `downcast_mut`: it succeeds iff the type matches, keeps the table and the type, and preserves the invariant |
| Ched.Debug | src/ched.rs:60-64 | panics with the downcast message iff the box's type is not the table's; on a valid container, the text is the stored type's own formatting of the value |
| Ched.Clone | src/ched.rs:66-73 | panics with the downcast message iff the box's type is not the table's; on a valid container, it does not panic; the clone shares the table, keeps the type, holds `T::clone` of the value and is valid |
| Ched.Eq | src/ched.rs:76-81 | panics with the downcast message iff the left box's type is not its table's; on a valid left operand, it does not panic and is true iff both hold the same type and `T::eq` holds |
| Ched.HashInput | src/ched.rs:85-90 | panics with the downcast message iff the box's type is not the table's; on a valid container, the hash input is the stored type's own hash bytes |
| Ched.Hash | src/ched.rs:85-90 | panics with the downcast message iff the box's type is not the table's, leaving the hasher unchanged; on a valid container it does not panic, and whenever it returns the hasher receives exactly the stored type's hash bytes appended |
| Ched.IssuedTokensShareTables | src/ched.rs:18-23 | containers built from tokens one registry issued for `ched::VTable` share their table whenever they hold the same type |
| Ched.EqReflexive | src/ched.rs:99-103 | a valid container equals itself |
| Ched.EqSymmetric | src/ched.rs:76-81 | equality is symmetric between valid containers that share tables |
| Ched.CloneEqualsOriginal | src/ched.rs:113-118 | a clone equals its original, in both directions |
| Ched.NewEqIffNativeEq | src/ched.rs:105-127 | containers built with one token are equal iff their values are natively equal |
| Ched.CrossTypeNotEqual | src/ched.rs:129-134 | containers of different types are unequal, whichever side is asked |
| Ched.EqualHashAlike | src/ched.rs:76-90 | equal containers feed the hasher identical bytes |
| Ched.CloneIndependent | src/ched.rs:171-184 | after cloning, writing through the original's `downcast_mut` changes the original and leaves the clone's value unchanged |
| Ched.FindIffEqualKey | src/ched.rs:143-160 | a hash-then-eq lookup finds a key iff some stored key equals it; insertion reports "already present" in exactly that case |
| Ched.InsertNewKey | src/ched.rs:149-153 | inserting a key equal to no stored key reports it absent and adds it |
| Ched.InsertEqualKey | src/ched.rs:155-159 | re-inserting a key equal to a stored one reports it present and leaves the map unchanged |
| Scenarios.EveryTests | src/every.rs:237-316 | the every.rs tests on a boxed `42i32`: `is`, `downcast_ref`/`downcast_mut`/`downcast` success and the exact error records, and the panic text "cannot downcast i32 into &str" |
| Scenarios.SingletonRegistryTest | src/vtable.rs:91-114 | the table is absent before `get_or_create`, present after it and on a later look, and a second call returns the same table |
| Scenarios.EqualityTests | src/ched.rs:99-134 | self-equal, same value equal, clone equal, different values unequal, different types unequal |
| Scenarios.DebugTest | src/ched.rs:136-141 | `format!("{obj:?}")` of a container holding 42 is "42" |
| Scenarios.HashTestInsert42 | src/ched.rs:149 | the first insertion of 42 reports it absent |
| Scenarios.HashTestInsert43 | src/ched.rs:150 | 43 is then absent as well |
| Scenarios.HashTestInsertFoo | src/ched.rs:151-153 | "foo" is then absent as well |
| Scenarios.HashTestReinsert | src/ched.rs:155-159 | each of the three keys is then reported present |
| Scenarios.HashTest | src/ched.rs:143-160 | the six insertions report absent, absent, absent, present, present, present |
| Scenarios.DowncastTests | src/ched.rs:162-204 | the value is read as 42; after a write of 13 the original reads 13 and a clone taken earlier still reads 42; `into_inner().downcast()` gives 42; the wrong-type variants panic with "cannot downcast i32 into u32" |
| Scenarios.InnerMutSwapTest | src/ched.rs:31-34 | swapping a boxed `u32` into an `i32` container makes `c == c` and hashing `c` panic with "cannot downcast u32 into i32", with nothing written to the hasher |

## Left out

- The `RwLock` and `LazyLock` around the registry singleton (src/vtable.rs:13-28) are left out, because the model is sequential. The registry is passed as a parameter instead of being a global.
- `Box::leak` (src/vtable.rs:41-42) is modelled as a freshly allocated table object that is never changed. The stored `Record` is the table itself, not a `Box<dyn Any>` around a reference.
- Vtable.Registry.GetOrCreate: the `downcast_ref::<&'static V>().unwrap()` on an occupied entry is not modelled as a possible panic. The registry invariant guarantees that every stored table has the key's kind, so the unwrap cannot fail.
- The `dyn Every + Send` and `dyn Every + Send + Sync` methods, and the matching `BoxDowncast` impls (src/every.rs:117-149 and 174-186), are not modelled separately. They only delegate to the plain `dyn Every` versions, so the model of those covers them.
- `AsEvery`, `AsEveryMut` and `IntoEvery` are plain upcasts that return their argument, so they have no separate members.
- Real `TypeId` and `type_name` values come from the compiler; the model takes them as parameters.
- The `Formatter` and the `fmt::Error` a sink may return are left out. `Debug` is modelled as the text it writes.
- The `Hasher` is modelled only as the byte stream written to it. The hash function itself is left out.
- `std::collections::HashMap` is reduced to a lookup that needs equal hash bytes and `Eq`. Buckets, resizing and the stored values are left out.
- The `i32`, `&str` and `Custom` trait implementations in `Scenarios` approximate std's. Text is ASCII only, and `Debug` does not escape characters inside the quotes.
- Lib.Clone, Ched.EqReflexive, Ched.EqSymmetric, Ched.CloneEqualsOriginal and Ched.EqualHashAlike state equality and hashing facts only under `Lawful`. These are the documented `Eq`, `Hash` and `Clone` laws, which Rust does not check for a type's own implementations.
- `CHED`'s uniquely owned `Box<dyn Every>` is modelled as a value, so a clone and its original can never alias. Ched.CloneIndependent therefore states what the test at src/ched.rs:171-184 observes, but not the absence of sharing that makes it hold in Rust.
- benches/bench.rs is not part of this model.

## Findings

| source | as written | input that shows it | evidently intended | confidence | as-written member | corrected member |
|---|---|---|---|---|---|---|
| src/ched.rs:31-34 | `inner_mut` returns `&mut Box<dyn Every>`, so safe code can put a box of another type into the container while it keeps the old table | `*c.inner_mut() = Box::new(7u32)` on `CHED::new(42i32, ..)`, then `c == c` panics with "cannot downcast u32 into i32" (and so do `clone`, `Debug` and `hash`) | hand out `&mut dyn Every`, so the only write is through `downcast_mut::<T>()`, which keeps the type matching the table | medium; not executed | Ched.InnerMutAsWritten | Ched.InnerMut |
