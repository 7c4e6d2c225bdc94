/** The unit tests of src/every.rs, src/vtable.rs and src/ched.rs, restated
    over concrete types: `i32`, `u32`, `&str`, and the test's `Custom` type
    with its unit table kind. */
module Scenarios {
  import opened Every
  import opened Lib
  import opened Vtable
  import opened Ched

  const I32: Ty := Ty(1, "i32")
  const U32: Ty := Ty(2, "u32")
  const StrRef: Ty := Ty(3, "&str")
  const Custom: Ty := Ty(4, "Custom")
  /** The test's own unit `VTable` kind, distinct from `ched::VTable`. */
  const UnitKind: Ty := Ty(5, "VTable")

  /** Decimal digits of a natural number. */
  function Digits(n: nat): (s: string)
    ensures |s| >= 1
  {
    var d := (48 + n % 10) as char;
    if n < 10 then [d] else Digits(n / 10) + [d]
  }

  /** `Debug` for an integer: optional minus sign, then decimal digits. */
  function DecimalString(i: int): string {
    if i < 0 then "-" + Digits(-i) else Digits(i)
  }

  /** `Hash for i32`: the four bytes of the two's-complement value, least
      significant first. */
  function LittleEndian32(i: int): (b: seq<bv8>)
    ensures |b| == 4
  {
    var u := i % 0x1_0000_0000;
    [(u % 0x100) as bv8, (u / 0x100 % 0x100) as bv8,
     (u / 0x1_0000 % 0x100) as bv8, (u / 0x100_0000 % 0x100) as bv8]
  }

  /** The bytes of ASCII text. */
  function AsciiBytes(s: string): (b: seq<bv8>)
    ensures |b| == |s|
  {
    if s == [] then [] else [(s[0] as int % 0x100) as bv8] + AsciiBytes(s[1..])
  }

  const I32Natives: Natives := Natives(
    (a: Value, b: Value) => a == b,
    (v: Value) => if v.Int? then DecimalString(v.i) else "",
    (v: Value) => v,
    (v: Value) => if v.Int? then LittleEndian32(v.i) else [])

  /** `&str`: `Debug` quotes the text; `Hash` writes its bytes and then 0xff. */
  const StrNatives: Natives := Natives(
    (a: Value, b: Value) => a == b,
    (v: Value) => if v.Str? then "\"" + v.s + "\"" else "",
    (v: Value) => v,
    (v: Value) => if v.Str? then AsciiBytes(v.s) + [0xff] else [])

  /** Placeholder natives for `Custom`, which implements none of the traits:
      its table kind `UnitKind` has no entries, so nothing ever calls these. */
  const UnitNatives: Natives := Natives(
    (a: Value, b: Value) => true,
    (v: Value) => "Custom",
    (v: Value) => Unit,
    (v: Value) => [])

  const I32Desc: TypeDesc := TypeDesc(I32, I32Natives)
  const StrDesc: TypeDesc := TypeDesc(StrRef, StrNatives)
  const CustomDesc: TypeDesc := TypeDesc(Custom, UnitNatives)

  lemma I32Lawful()
    ensures Lawful(I32Natives)
  {
  }

  lemma StrLawful()
    ensures Lawful(StrNatives)
  {
  }

  /** The tests of src/every.rs on a boxed `42i32`. */
  lemma EveryTests()
    ensures var val := Erased(I32, Int(42));
      && Is(val, I32) && !Is(val, StrRef)
      && DowncastRef(val, I32) == Ok(Int(42))
      && DowncastRef(val, StrRef) == Err(DowncastError(1, "i32", 3, "&str"))
      && DowncastRef(WriteThrough(val, I32, Int(13)).value, I32) == Ok(Int(13))
      && WriteThrough(val, StrRef, Str("x")) == Err(DowncastError(1, "i32", 3, "&str"))
      && Downcast(val, I32) == Ok(Int(42))
      && Downcast(val, StrRef) == Err(DowncastError(1, "i32", 3, "&str"))
      && UnwrapOrPanic(DowncastRef(val, StrRef)) == Panicked("cannot downcast i32 into &str")
  {
  }

  /** `singleton_registry`: absent before the first `get_or_create`, present
      after it and on later looks; a second call returns the same table. */
  method SingletonRegistryTest() returns (before: bool, after: bool, later: bool, same: bool)
    ensures !before && after && later && same
  {
    var virtuals := new Registry();
    before := virtuals.TryGet(Custom, UnitKind).Some?;
    var first := virtuals.GetOrCreate(CustomDesc, UnitKind);
    after := virtuals.TryGet(Custom, UnitKind).Some?;
    later := virtuals.TryGet(Custom, UnitKind).Some?;
    var second := virtuals.GetOrCreate(CustomDesc, UnitKind);
    same := first == second;
  }

  /** The equality tests of src/ched.rs. */
  method EqualityTests() returns (selfEq: bool, sameValue: bool, cloned: bool,
                                  differentValues: bool, differentTypes: bool)
    ensures selfEq && sameValue && cloned && !differentValues && !differentTypes
  {
    var reg := new Registry();
    var tokI32 := DefaultToken(reg, I32Desc, VTableKind);
    var obj := New(Int(42), I32, tokI32);
    selfEq := Eq(obj, obj) == Return(true);
    sameValue := Eq(obj, New(Int(42), I32, tokI32)) == Return(true);
    var copy := Ched.Clone(obj);
    cloned := copy.Return? && Eq(obj, copy.value) == Return(true);
    differentValues := Eq(obj, New(Int(43), I32, tokI32)) == Return(true);
    var tokStr := DefaultToken(reg, StrDesc, VTableKind);
    differentTypes := Eq(obj, New(Str("foo"), StrRef, tokStr)) == Return(true);
  }

  /** `test_debug`. */
  method DebugTest() returns (text: Outcome<string>)
    ensures text == Return("42")
  {
    var reg := new Registry();
    var tok := DefaultToken(reg, I32Desc, VTableKind);
    assert Digits(42) == Digits(4) + ['2'] && Digits(4) == "4";
    assert tok.vtable.elem.natives.fmt(Int(42)) == DecimalString(42) == "42";
    text := Ched.Debug(New(Int(42), I32, tok));
  }

  /** The first insertion of `test_hash`: 42 into the empty map is new. */
  lemma HashTestInsert42(tI32: Table)
    requires tI32.kind == VTableKind && tI32.elem == I32Desc
    ensures var k42 := CHED(Erased(I32, Int(42)), tI32);
      Insert([], k42) == (false, [k42])
  {
    var k42 := CHED(Erased(I32, Int(42)), tI32);
    I32Lawful();
    InsertNewKey([], k42);
    assert [] + [k42] == [k42];
  }

  /** The second insertion: 43 differs from 42, so it is new. */
  lemma HashTestInsert43(tI32: Table)
    requires tI32.kind == VTableKind && tI32.elem == I32Desc
    ensures var k42, k43 := CHED(Erased(I32, Int(42)), tI32), CHED(Erased(I32, Int(43)), tI32);
      Insert([k42], k43) == (false, [k42, k43])
  {
    var k42, k43 := CHED(Erased(I32, Int(42)), tI32), CHED(Erased(I32, Int(43)), tI32);
    I32Lawful();
    InsertNewKey([k42], k43);
    assert [k42] + [k43] == [k42, k43];
  }

  /** The third insertion: a string key equals no `i32` key, so it is new. */
  lemma HashTestInsertFoo(tI32: Table, tStr: Table)
    requires tI32.kind == VTableKind && tI32.elem == I32Desc
    requires tStr.kind == VTableKind && tStr.elem == StrDesc
    ensures var k42, k43, kFoo := CHED(Erased(I32, Int(42)), tI32), CHED(Erased(I32, Int(43)), tI32),
                                  CHED(Erased(StrRef, Str("foo")), tStr);
      Insert([k42, k43], kFoo) == (false, [k42, k43, kFoo])
  {
    var k42, k43, kFoo := CHED(Erased(I32, Int(42)), tI32), CHED(Erased(I32, Int(43)), tI32),
                          CHED(Erased(StrRef, Str("foo")), tStr);
    StrLawful();
    InsertNewKey([k42, k43], kFoo);
    assert [k42, k43] + [kFoo] == [k42, k43, kFoo];
  }

  /** The last three insertions of `test_hash`: each re-inserted key is found. */
  lemma HashTestReinsert(tI32: Table, tStr: Table, k: CHED, i: nat)
    requires tI32.kind == VTableKind && tI32.elem == I32Desc
    requires tStr.kind == VTableKind && tStr.elem == StrDesc
    requires i < 3
    requires k == [CHED(Erased(I32, Int(42)), tI32), CHED(Erased(I32, Int(43)), tI32),
                   CHED(Erased(StrRef, Str("foo")), tStr)][i]
    ensures var keys := [CHED(Erased(I32, Int(42)), tI32), CHED(Erased(I32, Int(43)), tI32),
                         CHED(Erased(StrRef, Str("foo")), tStr)];
      Insert(keys, k) == (true, keys)
  {
    var keys := [CHED(Erased(I32, Int(42)), tI32), CHED(Erased(I32, Int(43)), tI32),
                 CHED(Erased(StrRef, Str("foo")), tStr)];
    if i < 2 { I32Lawful(); } else { StrLawful(); }
    InsertEqualKey(keys, k, i);
  }

  /** `test_hash`: what each `insert` into a `HashMap<CHED, ()>` reports. */
  method HashTest() returns (existed: seq<bool>)
    ensures existed == [false, false, false, true, true, true]
  {
    var reg := new Registry();
    var tokI32 := DefaultToken(reg, I32Desc, VTableKind);
    var tokStr := DefaultToken(reg, StrDesc, VTableKind);
    HashTestInsert42(tokI32.vtable);
    HashTestInsert43(tokI32.vtable);
    HashTestInsertFoo(tokI32.vtable, tokStr.vtable);
    var map0: seq<CHED> := [];
    var r1, map1 := Insert(map0, New(Int(42), I32, tokI32)).0, Insert(map0, New(Int(42), I32, tokI32)).1;
    var r2, map2 := Insert(map1, New(Int(43), I32, tokI32)).0, Insert(map1, New(Int(43), I32, tokI32)).1;
    var r3, map3 := Insert(map2, New(Str("foo"), StrRef, tokStr)).0, Insert(map2, New(Str("foo"), StrRef, tokStr)).1;
    HashTestReinsert(tokI32.vtable, tokStr.vtable, New(Int(42), I32, tokI32), 0);
    HashTestReinsert(tokI32.vtable, tokStr.vtable, New(Int(43), I32, tokI32), 1);
    HashTestReinsert(tokI32.vtable, tokStr.vtable, New(Str("foo"), StrRef, tokStr), 2);
    var r4 := Insert(map3, New(Int(42), I32, tokI32)).0;
    var r5 := Insert(map3, New(Int(43), I32, tokI32)).0;
    var r6 := Insert(map3, New(Str("foo"), StrRef, tokStr)).0;
    existed := [r1, r2, r3, r4, r5, r6];
  }

  /** `downcast_ref`, `downcast_mut`, `downcast` and the two wrong-type tests of src/ched.rs. */
  method DowncastTests() returns (read: Outcome<Value>, written: Outcome<Value>, clonedAfter: Outcome<Value>,
                                  consumed: Result<Value>, wrongRef: Outcome<Value>, wrongConsume: Outcome<Value>)
    ensures read == Return(Int(42))
    ensures written == Return(Int(13)) && clonedAfter == Return(Int(42))
    ensures consumed == Ok(Int(42))
    ensures wrongRef == Panicked("cannot downcast i32 into u32")
    ensures wrongConsume == Panicked("cannot downcast i32 into u32")
  {
    var reg := new Registry();
    var tok := DefaultToken(reg, I32Desc, VTableKind);
    var obj := New(Int(42), I32, tok);
    read := UnwrapOrPanic(DowncastRef(Inner(obj), I32));

    var obj1 := obj;
    var obj2 := Ched.Clone(obj1).value;
    obj1 := InnerMut(obj1, I32, Int(13)).value;
    written := UnwrapOrPanic(DowncastRef(Inner(obj1), I32));
    clonedAfter := UnwrapOrPanic(DowncastRef(Inner(obj2), I32));

    consumed := Downcast(IntoInner(obj), I32);
    wrongRef := UnwrapOrPanic(DowncastRef(Inner(obj), U32));
    wrongConsume := UnwrapOrPanic(Downcast(IntoInner(obj), U32));
  }

  /** The finding on `inner_mut`: swapping in a boxed `7u32` makes `c == c` panic. */
  method InnerMutSwapTest() returns (eq: Outcome<bool>, hashed: Outcome<()>, written: seq<bv8>)
    ensures eq == Panicked("cannot downcast u32 into i32")
    ensures hashed == Panicked("cannot downcast u32 into i32") && written == []
  {
    var reg := new Registry();
    var tok := DefaultToken(reg, I32Desc, VTableKind);
    var c := InnerMutAsWritten(New(Int(42), I32, tok), Erased(U32, Int(7)));
    eq := Eq(c, c);
    var state := new Hasher();
    hashed := Ched.Hash(c, state);
    written := state.written;
  }
}
