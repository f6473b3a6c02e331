/**
 * JavaScript's `Map` with string keys, as the notification component uses
 * it: entries are kept in insertion order, `set` on a present key replaces
 * the value where it stands, `set` on a new key appends, and `delete`
 * removes the entry and keeps the order of the rest.
 */
module JsMaps {
  import opened Wrappers

  type Entries<V> = seq<(string, V)>

  /** The keys of `e`, in order. */
  function KeysOf<V>(e: Entries<V>): (ks: seq<string>)
    ensures |ks| == |e|
    ensures forall i :: 0 <= i < |e| ==> ks[i] == e[i].0
  {
    if e == [] then [] else [e[0].0] + KeysOf(e[1..])
  }

  predicate Distinct(ks: seq<string>) {
    forall i, j :: 0 <= i < j < |ks| ==> ks[i] != ks[j]
  }

  /** `ks` without `k`, the rest in order. */
  function Without(ks: seq<string>, k: string): (r: seq<string>)
    ensures k !in r
    ensures forall x :: x in r <==> x in ks && x != k
  {
    if ks == [] then []
    else if ks[0] == k then Without(ks[1..], k)
    else [ks[0]] + Without(ks[1..], k)
  }

  /** `m.get(k)`: the value of the first entry with key `k`. */
  function Lookup<V>(e: Entries<V>, k: string): (r: Option<V>)
    ensures r.Some? <==> k in KeysOf(e)
  {
    if e == [] then None
    else if e[0].0 == k then Some(e[0].1)
    else Lookup(e[1..], k)
  }

  /** `m.set(k, v)`: replace the value in place when `k` is present, otherwise append. */
  function Put<V>(e: Entries<V>, k: string, v: V): (r: Entries<V>)
    ensures KeysOf(r) == if k in KeysOf(e) then KeysOf(e) else KeysOf(e) + [k]
    ensures forall x :: Lookup(r, x) == if x == k then Some(v) else Lookup(e, x)
  {
    if e == [] then [(k, v)]
    else if e[0].0 == k then [(k, v)] + e[1..]
    else [e[0]] + Put(e[1..], k, v)
  }

  /** `m.delete(k)`: drop every entry with key `k`. */
  function Remove<V>(e: Entries<V>, k: string): (r: Entries<V>)
    ensures KeysOf(r) == Without(KeysOf(e), k)
    ensures forall x :: Lookup(r, x) == if x == k then None else Lookup(e, x)
  {
    if e == [] then []
    else if e[0].0 == k then Remove(e[1..], k)
    else [e[0]] + Remove(e[1..], k)
  }

  lemma {:induction false} WithoutDistinct(ks: seq<string>, k: string)
    requires Distinct(ks)
    ensures Distinct(Without(ks, k))
    ensures |Without(ks, k)| == if k in ks then |ks| - 1 else |ks|
  {
    if ks != [] {
      assert Distinct(ks[1..]);
      WithoutDistinct(ks[1..], k);
      if ks[0] == k {
        assert k !in ks[1..];
        assert Without(ks[1..], k) == ks[1..] by {
          WithoutAbsent(ks[1..], k);
        }
      } else {
        assert ks[0] !in ks[1..];
      }
    }
  }

  lemma {:induction false} WithoutAbsent(ks: seq<string>, k: string)
    requires k !in ks
    ensures Without(ks, k) == ks
  {
    if ks != [] {
      WithoutAbsent(ks[1..], k);
    }
  }

  /** In a map without repeated keys, looking up the key of an entry finds that entry's value. */
  lemma {:induction false} LookupAt<V>(e: Entries<V>, i: nat)
    requires Distinct(KeysOf(e))
    requires i < |e|
    ensures Lookup(e, e[i].0) == Some(e[i].1)
  {
    if i > 0 {
      assert KeysOf(e)[0] != KeysOf(e)[i];
      assert KeysOf(e[1..]) == KeysOf(e)[1..];
      LookupAt(e[1..], i - 1);
    }
  }

  /** A JavaScript `Map<string, V>`: its entries in insertion order. */
  datatype JsMap<V> = JsMap(entries: Entries<V>) {

    /** No key occurs twice. */
    predicate Valid() {
      Distinct(KeysOf(entries))
    }

    function Keys(): seq<string> {
      KeysOf(entries)
    }

    function Size(): nat {
      |entries|
    }

    predicate Has(k: string) {
      k in Keys()
    }

    function Get(k: string): Option<V> {
      Lookup(entries, k)
    }

    function Set(k: string, v: V): JsMap<V> {
      JsMap(Put(entries, k, v))
    }

    function Delete(k: string): JsMap<V> {
      JsMap(Remove(entries, k))
    }

    /** The key-value content, forgetting the order. */
    function Contents(): map<string, V> {
      map k | k in Keys() :: Get(k).value
    }
  }

  /** The i-th entry of a well-formed map: its key is the i-th key, and `get` on it finds its value. */
  lemma EntryAt<V>(m: JsMap<V>, i: nat)
    requires m.Valid() && i < m.Size()
    ensures m.Keys()[i] == m.entries[i].0
    ensures m.Has(m.entries[i].0) && m.Get(m.entries[i].0) == Some(m.entries[i].1)
  {
    LookupAt(m.entries, i);
    assert m.Keys()[i] in m.Keys();
  }

  function Empty<V>(): (m: JsMap<V>)
    ensures m.Valid() && m.Size() == 0
  {
    JsMap([])
  }

  lemma DistinctAppend(ks: seq<string>, k: string)
    requires Distinct(ks) && k !in ks
    ensures Distinct(ks + [k])
  {
    var r := ks + [k];
    forall i, j | 0 <= i < j < |r| ensures r[i] != r[j] {
      if j == |ks| {
        assert r[i] == ks[i];
      } else {
        assert r[i] == ks[i] && r[j] == ks[j];
      }
    }
  }

  /**
   * `set` keeps the map well formed, keeps every other key where it was,
   * appends a new key at the end and grows the map by one exactly when the
   * key is new; its content is the old content with `k` bound to `v`.
   */
  lemma SetSpec<V>(m: JsMap<V>, k: string, v: V)
    requires m.Valid()
    ensures m.Set(k, v).Valid()
    ensures m.Set(k, v).Keys() == if m.Has(k) then m.Keys() else m.Keys() + [k]
    ensures m.Set(k, v).Size() == if m.Has(k) then m.Size() else m.Size() + 1
    ensures m.Set(k, v).Contents() == m.Contents()[k := v]
  {
    SetKeys(m, k, v);
    SetContents(m, k, v);
  }

  lemma SetKeys<V>(m: JsMap<V>, k: string, v: V)
    requires m.Valid()
    ensures m.Set(k, v).Valid()
    ensures m.Set(k, v).Keys() == if m.Has(k) then m.Keys() else m.Keys() + [k]
    ensures m.Set(k, v).Size() == if m.Has(k) then m.Size() else m.Size() + 1
  {
    var r := m.Set(k, v);
    assert |KeysOf(r.entries)| == r.Size() && |KeysOf(m.entries)| == m.Size();
    if !m.Has(k) {
      DistinctAppend(m.Keys(), k);
    }
  }

  lemma SetContents<V>(m: JsMap<V>, k: string, v: V)
    ensures m.Set(k, v).Contents() == m.Contents()[k := v]
  {
    var r := m.Set(k, v);
    var want := m.Contents()[k := v];
    forall x ensures x in r.Contents() <==> x in want {
      assert x in r.Keys() <==> x in m.Keys() || x == k;
    }
    forall x | x in r.Contents() ensures r.Contents()[x] == want[x] {
      assert r.Get(x) == if x == k then Some(v) else m.Get(x);
    }
  }

  /**
   * `delete` keeps the map well formed and the remaining keys in order,
   * shrinks the map by one exactly when the key was present, and its content
   * is the old content without `k`.
   */
  lemma DeleteSpec<V>(m: JsMap<V>, k: string)
    requires m.Valid()
    ensures m.Delete(k).Valid()
    ensures m.Delete(k).Keys() == Without(m.Keys(), k)
    ensures m.Delete(k).Size() == if m.Has(k) then m.Size() - 1 else m.Size()
    ensures m.Delete(k).Contents() == m.Contents() - {k}
  {
    DeleteKeys(m, k);
    DeleteContents(m, k);
  }

  lemma DeleteKeys<V>(m: JsMap<V>, k: string)
    requires m.Valid()
    ensures m.Delete(k).Valid()
    ensures m.Delete(k).Keys() == Without(m.Keys(), k)
    ensures m.Delete(k).Size() == if m.Has(k) then m.Size() - 1 else m.Size()
  {
    var r := m.Delete(k);
    WithoutDistinct(m.Keys(), k);
    assert |KeysOf(r.entries)| == r.Size();
  }

  lemma DeleteContents<V>(m: JsMap<V>, k: string)
    ensures m.Delete(k).Contents() == m.Contents() - {k}
  {
    var r := m.Delete(k);
    var want := m.Contents() - {k};
    forall x ensures x in r.Contents() <==> x in want {
      assert x in r.Keys() <==> x in Without(m.Keys(), k);
    }
    forall x | x in r.Contents() ensures r.Contents()[x] == want[x] {
      assert r.Get(x) == m.Get(x);
    }
  }
}
