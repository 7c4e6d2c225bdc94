/** The registry that builds at most one table per (concrete type, table
    kind) pair and hands out references to it, and the tokens through which
    those references reach their users (src/vtable.rs). */
module Vtable {
  import opened Every
  import opened Lib

  /** `(TypeId::of::<T>(), TypeId::of::<V>())`. */
  datatype Key = Key(ty: TypeId, kind: TypeId)

  function KeyOf(t: Ty, kind: Ty): (k: Key)
    ensures k.ty == t.id && k.kind == kind.id
  {
    Key(t.id, kind.id)
  }

  /** A different type, or a different table kind, gives a different key. */
  lemma KeysSeparate(t: Ty, kind: Ty, u: Ty, kind': Ty)
    ensures KeyOf(t, kind) == KeyOf(u, kind') <==> t.id == u.id && kind.id == kind'.id
  {
  }

  /** A table of kind `kind` specialised for `elem` (`V::specialise()` for `T`),
      leaked so that it lives as long as the registry and is never changed. */
  class Table {
    const kind: Ty
    const elem: TypeDesc

    constructor Specialise(kind: Ty, elem: TypeDesc)
      ensures this.kind == kind && this.elem == elem
    {
      this.kind := kind;
      this.elem := elem;
    }
  }

  /** The process-wide registry, as one sequential object. */
  class Registry {
    var types: map<Key, Table>
    /** Every table this registry has ever built. */
    ghost var built: set<Table>

    /** Each entry is a table of the key's kind, specialised for the key's
        type; every table built is stored, under exactly one key. */
    ghost predicate Valid()
      reads this
    {
      && built == types.Values
      && (forall k | k in types :: types[k].elem.ty.id == k.ty && types[k].kind.id == k.kind)
      && (forall k, k' | k in types && k' in types && types[k] == types[k'] :: k == k')
    }

    constructor ()
      ensures Valid() && types == map[] && built == {}
    {
      types := map[];
      built := {};
    }

    /** The test helper `try_get::<T, V>()`. */
    function TryGet(t: Ty, kind: Ty): (r: Option<Table>)
      requires Valid()
      reads this
      ensures r.Some? <==> KeyOf(t, kind) in types
      ensures r.Some? ==> r.value == types[KeyOf(t, kind)]
      ensures r.Some? ==> r.value.elem.ty.id == t.id && r.value.kind.id == kind.id
    {
      var key := KeyOf(t, kind);
      if key in types then Some(types[key]) else None
    }

    /** `get_or_create::<T, V>()`: the stored table if there is one, otherwise a
        freshly specialised one, stored under the key before it is returned. */
    method GetOrCreate(t: TypeDesc, kind: Ty) returns (tbl: Table)
      requires Valid()
      modifies this
      ensures Valid()
      ensures tbl.elem.ty.id == t.ty.id && tbl.kind.id == kind.id
      ensures KeyOf(t.ty, kind) in types && types[KeyOf(t.ty, kind)] == tbl
      ensures KeyOf(t.ty, kind) in old(types) ==>
        tbl == old(types)[KeyOf(t.ty, kind)] && types == old(types) && built == old(built)
      ensures KeyOf(t.ty, kind) !in old(types) ==>
        && fresh(tbl) && tbl.elem == t && tbl.kind == kind
        && types == old(types)[KeyOf(t.ty, kind) := tbl]
        && built == old(built) + {tbl}
      ensures forall k | k in old(types) :: k in types && types[k] == old(types)[k]
      ensures |types| <= |old(types)| + 1
    {
      var key := KeyOf(t.ty, kind);
      if key in types {
        // The stored record is a table of kind `kind` (Valid), so the
        // `downcast_ref::<&'static V>().unwrap()` of the source cannot fail.
        tbl := types[key];
      } else {
        tbl := new Table.Specialise(kind, t);
        ghost var before := types;
        types := types[key := tbl];
        built := built + {tbl};
        assert types.Values == before.Values + {tbl} by {
          forall v | v in types.Values ensures v in before.Values + {tbl} {
            var k :| k in types && types[k] == v;
            if k != key { assert k in before && before[k] == v; }
          }
          assert key in types && types[key] == tbl;
          forall v | v in before.Values ensures v in types.Values {
            var k :| k in before && before[k] == v;
            assert k != key && types[k] == v;
          }
        }
      }
    }
  }

  /** Two `get_or_create::<T, V>()` calls in a row return the same table,
      and the second changes nothing. */
  method GetOrCreateTwice(reg: Registry, t: TypeDesc, kind: Ty) returns (first: Table, second: Table)
    requires reg.Valid()
    modifies reg
    ensures reg.Valid()
    ensures first == second
    ensures KeyOf(t.ty, kind) in old(reg.types) ==> reg.types == old(reg.types)
    ensures KeyOf(t.ty, kind) !in old(reg.types) ==>
      fresh(first) && reg.types == old(reg.types)[KeyOf(t.ty, kind) := first]
  {
    first := reg.GetOrCreate(t, kind);
    ghost var afterFirst := reg.types;
    second := reg.GetOrCreate(t, kind);
    assert reg.types == afterFirst;
  }

  /** `Token<T, V>`: a table reference, with the type `T` it was resolved for. */
  datatype Token = Token(phantom: Ty, vtable: Table) {
    /** The table is of kind `kind` and specialised for the token's type. */
    predicate SpecialisedFor(kind: Ty) {
      vtable.elem.ty.id == phantom.id && vtable.kind.id == kind.id
    }

    /** `vtable_ref()`. */
    function VtableRef(): (v: Table)
      ensures v == vtable
    {
      vtable
    }
  }

  /** The token is the registry's current entry for its type and `kind`. */
  ghost predicate Issued(reg: Registry, tok: Token, kind: Ty)
    reads reg
  {
    KeyOf(tok.phantom, kind) in reg.types && reg.types[KeyOf(tok.phantom, kind)] == tok.vtable
  }

  /** `Token::<T, V>::default()`, with the registry singleton as a parameter. */
  method DefaultToken(reg: Registry, t: TypeDesc, kind: Ty) returns (tok: Token)
    requires reg.Valid()
    modifies reg
    ensures reg.Valid()
    ensures tok.phantom == t.ty && tok.SpecialisedFor(kind)
    ensures Issued(reg, tok, kind)
    ensures tok.VtableRef() == reg.types[KeyOf(t.ty, kind)]
    ensures KeyOf(t.ty, kind) in old(reg.types) ==>
      tok.vtable == old(reg.types)[KeyOf(t.ty, kind)] && reg.types == old(reg.types)
    ensures KeyOf(t.ty, kind) !in old(reg.types) ==>
      && fresh(tok.vtable) && tok.vtable.elem == t && tok.vtable.kind == kind
      && reg.types == old(reg.types)[KeyOf(t.ty, kind) := tok.vtable]
    ensures forall k | k in old(reg.types) :: k in reg.types && reg.types[k] == old(reg.types)[k]
  {
    var vtable := reg.GetOrCreate(t, kind);
    tok := Token(t.ty, vtable);
  }

  /** Two tokens the same registry issued for one type and one kind share
      their table, whatever type descriptions they were requested with. */
  lemma IssuedTokensShareTable(reg: Registry, tok: Token, tok': Token, kind: Ty)
    requires Issued(reg, tok, kind) && Issued(reg, tok', kind)
    requires tok.phantom.id == tok'.phantom.id
    ensures tok.vtable == tok'.vtable
  {
  }
}
