/**
 * The binding table of njak.py: a wrapper around a mutable dictionary.
 * Built from a dictionary it holds a copy; built from another table it shares
 * that table's dictionary, so writes through either are seen by both.
 */
module Bindings {
  import opened Results

  /** A mutable dictionary. */
  class Dict<K(==), V> {
    var entries: map<K, V>

    constructor (m: map<K, V>)
      ensures entries == m
    {
      entries := m;
    }

    /** `d[key] = value` on the dictionary itself. */
    method Put(key: K, value: V)
      modifies this
      ensures entries == old(entries)[key := value]
    {
      entries := entries[key := value];
    }
  }

  /** What a table may be built from or updated with: nothing, a dictionary or another table. */
  datatype Source<K(==), V> = NoSource | FromDict(dict: Dict<K, V>) | FromTable(table: Njak<K, V>)

  /** The one way a lookup fails. */
  datatype LookupError = KeyMissing

  class Njak<K(==), V> {
    /** The dictionary the table reads and writes; chosen once, by the constructor. */
    const store: Dict<K, V>

    /** `Njak(d)`: an empty table, a copy of a dictionary, or a table sharing another's dictionary. */
    constructor (d: Source<K, V>)
      ensures d.FromTable? ==> store == d.table.store
      ensures d.NoSource? ==> fresh(store) && store.entries == map[]
      ensures d.FromDict? ==> fresh(store) && store.entries == d.dict.entries
    {
      match d
      case NoSource =>
        store := new Dict(map[]);
      case FromDict(src) =>
        store := new Dict(src.entries);
      case FromTable(other) =>
        store := other.store;
    }

    /** `n[key]`: the bound value, or a failure for a key that is not bound. */
    function Get(key: K): (r: Result<V, LookupError>)
      reads this, store
      ensures r.Ok? <==> key in store.entries
      ensures r.Ok? ==> r.value == store.entries[key]
    {
      if key in store.entries then Ok(store.entries[key]) else Err(KeyMissing)
    }

    /** `n[key] = value`: binds the key in the shared dictionary. */
    method Set(key: K, value: V)
      modifies store
      ensures store.entries == old(store.entries)[key := value]
    {
      store.entries := store.entries[key := value];
    }

    /** `update(other)`: the other's bindings are added, replacing those of the same keys. */
    method Update(other: Source<K, V>)
      modifies store
      ensures other.NoSource? ==> store.entries == old(store.entries)
      ensures other.FromDict? ==> store.entries == old(store.entries) + old(other.dict.entries)
      ensures other.FromTable? ==> store.entries == old(store.entries) + old(other.table.store.entries)
    {
      match other
      case NoSource =>
      case FromDict(src) =>
        store.entries := store.entries + src.entries;
      case FromTable(t) =>
        store.entries := store.entries + t.store.entries;
    }
  }

  /** The binding of `key` after a merge: the incoming one when there is one, the old one otherwise. */
  lemma MergedBinding<K, V>(base: map<K, V>, incoming: map<K, V>, key: K)
    ensures key in incoming ==> key in base + incoming && (base + incoming)[key] == incoming[key]
    ensures key !in incoming ==> (key in base + incoming <==> key in base)
    ensures key !in incoming && key in base ==> (base + incoming)[key] == base[key]
  {
  }

  /** After `n[key] = value` the key reads back as the value, and every other key reads as before. */
  method SetThenGet<K(==), V>(m: map<K, V>, key: K, value: V, other: K)
      returns (got: Result<V, LookupError>, untouched: Result<V, LookupError>)
    requires other != key
    ensures got == Ok(value)
    ensures untouched == if other in m then Ok(m[other]) else Err(KeyMissing)
  {
    var d := new Dict(m);
    var n := new Njak(FromDict(d));
    n.Set(key, value);
    got := n.Get(key);
    untouched := n.Get(other);
  }

  /** A table built from a dictionary does not see later writes to that dictionary. */
  method CopyIsInsulated<K(==), V>(m: map<K, V>, key: K, value: V) returns (seen: Result<V, LookupError>)
    ensures seen == if key in m then Ok(m[key]) else Err(KeyMissing)
  {
    var d := new Dict(m);
    var n := new Njak(FromDict(d));
    d.Put(key, value);
    seen := n.Get(key);
  }

  /** A table built from another shares its bindings: a write through either shows in both. */
  method SharingIsAliasing<K(==), V>(m: map<K, V>, k1: K, v1: V, k2: K, v2: V)
      returns (first: Result<V, LookupError>, second: Result<V, LookupError>)
    requires k1 != k2
    ensures first == Ok(v2)
    ensures second == Ok(v1)
  {
    var d := new Dict(m);
    var a := new Njak(FromDict(d));
    var b := new Njak(FromTable(a));
    b.Set(k1, v1);
    a.Set(k2, v2);
    first := b.Get(k2);
    second := a.Get(k1);
  }

  /** Updating with nothing changes nothing; updating with a table or a dictionary merges the same way. */
  method UpdateKinds<K(==), V>(m: map<K, V>, o: map<K, V>, key: K)
      returns (kept: Result<V, LookupError>, viaDict: Result<V, LookupError>, viaTable: Result<V, LookupError>)
    ensures kept == if key in m then Ok(m[key]) else Err(KeyMissing)
    ensures viaDict == viaTable
    ensures viaDict == if key in o then Ok(o[key]) else if key in m then Ok(m[key]) else Err(KeyMissing)
  {
    var d0 := new Dict(m);
    var n0 := new Njak(FromDict(d0));
    n0.Update(NoSource);
    kept := n0.Get(key);
    var d1 := new Dict(m);
    var n1 := new Njak(FromDict(d1));
    var o1 := new Dict(o);
    n1.Update(FromDict(o1));
    viaDict := n1.Get(key);
    var d2 := new Dict(m);
    var n2 := new Njak(FromDict(d2));
    var o2 := new Dict(o);
    var src := new Njak(FromDict(o2));
    n2.Update(FromTable(src));
    viaTable := n2.Get(key);
    MergedBinding(m, o, key);
  }

  /** The documented lookups `33` and `444`, and the overwrite to `5`. */
  method LookupExamples() returns (aa: Result<int, LookupError>, bb: Result<int, LookupError>,
                                   aaAfterSet: Result<int, LookupError>)
    ensures aa == Ok(33) && bb == Ok(444)
    ensures aaAfterSet == Ok(5)
  {
    var d := new Dict(map["aa" := 33, "bb" := 444]);
    var n := new Njak(FromDict(d));
    aa := n.Get("aa");
    bb := n.Get("bb");
    n.Set("aa", 5);
    aaAfterSet := n.Get("aa");
  }

  /** The documented update of `{aa: 33, bb: 444}` with a table `{bb: 123, cc: 7}`, for any three distinct keys. */
  method UpdateExample<K(==)>(aa: K, bb: K, cc: K) returns (after: map<K, int>)
    requires aa != bb && bb != cc && aa != cc
    ensures after == map[aa := 33, bb := 123, cc := 7]
  {
    var du := new Dict(map[aa := 33, bb := 444]);
    var u := new Njak(FromDict(du));
    var dv := new Dict(map[bb := 123, cc := 7]);
    var v := new Njak(FromDict(dv));
    u.Update(FromTable(v));
    after := u.store.entries;
    assert after == map[aa := 33, bb := 444] + map[bb := 123, cc := 7];
  }
}
