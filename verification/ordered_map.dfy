/** A JavaScript `Map`: entries in insertion order, `set` on a present key
    overwrites the value in place, `set` on a new key appends, and
    `Array.from(map)` lists the entries in that order. */
module OrderedMap {
  import opened Common

  /** One `[key, value]` pair of the map. */
  datatype Entry<K, V> = Entry(key: K, value: V)

  /** The keys in iteration order. */
  function Keys<K, V>(m: seq<Entry<K, V>>): (ks: seq<K>)
    ensures |ks| == |m|
    ensures forall i :: 0 <= i < |m| ==> ks[i] == m[i].key
  {
    if |m| == 0 then [] else [m[0].key] + Keys(m[1..])
  }

  /** No key occurs twice; every map built with `Put` keeps this. */
  predicate DistinctKeys<K(==), V>(m: seq<Entry<K, V>>)
  {
    forall i, j :: 0 <= i < j < |m| ==> m[i].key != m[j].key
  }

  /** Position of the entry for `k`, if any. */
  function IndexOf<K(==), V>(m: seq<Entry<K, V>>, k: K): (r: Option<nat>)
    ensures r.Some? ==> r.value < |m| && m[r.value].key == k
    ensures r.Some? ==> forall j :: 0 <= j < r.value ==> m[j].key != k
    ensures r.None? ==> forall j :: 0 <= j < |m| ==> m[j].key != k
  {
    if |m| == 0 then None
    else if m[0].key == k then Some(0)
    else
      match IndexOf(m[1..], k)
      case None => None
      case Some(i) => Some(i + 1)
  }

  /** `map.has(k)`. */
  predicate Has<K(==), V>(m: seq<Entry<K, V>>, k: K)
  {
    IndexOf(m, k).Some?
  }

  /** A key is present exactly when it is one of the keys. */
  lemma HasKeys<K, V>(m: seq<Entry<K, V>>, k: K)
    ensures Has(m, k) <==> k in Keys(m)
  {
    if k in Keys(m) {
      var j :| 0 <= j < |m| && Keys(m)[j] == k;
      assert m[j].key == k;
    }
  }

  /** `map.get(k)`: the value stored under `k`, or absent. */
  function Get<K(==), V>(m: seq<Entry<K, V>>, k: K): (r: Option<V>)
    ensures r.Some? <==> Has(m, k)
    ensures r.Some? ==> m[IndexOf(m, k).value] == Entry(k, r.value)
  {
    match IndexOf(m, k)
    case None => None
    case Some(i) => Some(m[i].value)
  }

  /** `map.get(k) || 0`: the number stored under `k`, or 0 when absent. */
  function GetOrZero<K(==)>(m: seq<Entry<K, real>>, k: K): (r: real)
    ensures Has(m, k) ==> Get(m, k) == Some(r)
    ensures !Has(m, k) ==> r == 0.0
  {
    match IndexOf(m, k)
    case Some(i) => m[i].value
    case None => 0.0
  }

  /** `map.set(k, v)`: overwrite in place when `k` is present, append otherwise. */
  function Put<K(==), V>(m: seq<Entry<K, V>>, k: K, v: V): (r: seq<Entry<K, V>>)
    ensures Has(m, k) ==> |r| == |m| && r[IndexOf(m, k).value] == Entry(k, v)
    ensures !Has(m, k) ==> r == m + [Entry(k, v)]
    ensures forall i :: 0 <= i < |m| && m[i].key != k ==> r[i] == m[i]
  {
    match IndexOf(m, k)
    case None => m + [Entry(k, v)]
    case Some(i) => m[i := Entry(k, v)]
  }

  /** `set` keeps every key in place and appends a new key at the end. */
  lemma PutKeys<K, V>(m: seq<Entry<K, V>>, k: K, v: V)
    ensures Keys(Put(m, k, v)) == if Has(m, k) then Keys(m) else Keys(m) + [k]
  {
    var r := Put(m, k, v);
    if Has(m, k) {
      assert forall i :: 0 <= i < |m| ==> Keys(r)[i] == Keys(m)[i];
    } else {
      assert forall i :: 0 <= i < |r| ==> Keys(r)[i] == (Keys(m) + [k])[i];
    }
  }

  /** `set` never introduces a duplicate key. */
  lemma PutDistinct<K, V>(m: seq<Entry<K, V>>, k: K, v: V)
    requires DistinctKeys(m)
    ensures DistinctKeys(Put(m, k, v))
  {
  }

  /** After `set(k, v)`, `get(k)` yields `v`. */
  lemma PutGetSame<K, V>(m: seq<Entry<K, V>>, k: K, v: V)
    requires DistinctKeys(m)
    ensures Get(Put(m, k, v), k) == Some(v)
  {
    var r := Put(m, k, v);
    PutDistinct(m, k, v);
    var i := if Has(m, k) then IndexOf(m, k).value else |m|;
    assert r[i] == Entry(k, v);
    assert Has(r, k);
    assert IndexOf(r, k).value == i;
  }

  /** After `set(k, v)`, every other key reads as before. */
  lemma PutGetOther<K, V>(m: seq<Entry<K, V>>, k: K, v: V, k': K)
    requires DistinctKeys(m)
    requires k' != k
    ensures Get(Put(m, k, v), k') == Get(m, k')
  {
    var r := Put(m, k, v);
    if Has(m, k') {
      var a := IndexOf(m, k').value;
      var b := IndexOf(r, k').value;
      assert r[a] == m[a];
      assert a == b;
    }
  }

  /** `map.set(k, (map.get(k) || 0) + a)`: add `a` to the number under `k`,
      creating the entry at the end when `k` is absent. */
  function AddAt<K(==)>(m: seq<Entry<K, real>>, k: K, a: real): (r: seq<Entry<K, real>>)
    ensures |r| == if Has(m, k) then |m| else |m| + 1
  {
    match IndexOf(m, k)
    case None => m + [Entry(k, a)]
    case Some(i) => m[i := Entry(k, m[i].value + a)]
  }

  /** `AddAt` is `set` applied to the number `get` reads (0 when absent). */
  lemma AddAtIsPut<K>(m: seq<Entry<K, real>>, k: K, a: real, v: real)
    requires v == GetOrZero(m, k) + a
    ensures AddAt(m, k, a) == Put(m, k, v)
  {
  }

  /** `AddAt` keeps the keys in place and appends a new key at the end; it
      never introduces a duplicate. */
  lemma AddAtKeys<K>(m: seq<Entry<K, real>>, k: K, a: real)
    requires DistinctKeys(m)
    ensures Keys(AddAt(m, k, a)) == if Has(m, k) then Keys(m) else Keys(m) + [k]
    ensures DistinctKeys(AddAt(m, k, a))
  {
    var v := GetOrZero(m, k) + a;
    AddAtIsPut(m, k, a, v);
    PutKeys(m, k, v);
    PutDistinct(m, k, v);
  }

  /** After `AddAt(m, k, a)` the number under `k` has grown by `a` and every
      other key reads as before. */
  lemma AddAtGet<K>(m: seq<Entry<K, real>>, k: K, a: real, c: K)
    requires DistinctKeys(m)
    ensures GetOrZero(AddAt(m, k, a), c) == GetOrZero(m, c) + (if c == k then a else 0.0)
  {
    var v := GetOrZero(m, k) + a;
    AddAtIsPut(m, k, a, v);
    if c == k {
      PutGetSame(m, k, v);
    } else {
      PutGetOther(m, k, v, c);
    }
  }

  /** Entry by entry: only the entry for `k` changes, and it grows by `a`. */
  lemma AddAtEntry<K>(m: seq<Entry<K, real>>, k: K, a: real, j: nat)
    requires DistinctKeys(m)
    requires j < |m|
    ensures AddAt(m, k, a)[j] == if m[j].key == k then Entry(k, m[j].value + a) else m[j]
  {
    match IndexOf(m, k)
    case None =>
    case Some(i) =>
      if m[j].key == k {
        assert i == j;
      }
  }

  /** After `AddAt(m, k, a)` the map has `k` and every key it had before,
      and nothing else. */
  lemma AddAtHas<K>(m: seq<Entry<K, real>>, k: K, a: real, c: K)
    requires DistinctKeys(m)
    ensures Has(AddAt(m, k, a), c) <==> Has(m, c) || c == k
  {
    AddAtKeys(m, k, a);
    HasKeys(m, c);
    HasKeys(AddAt(m, k, a), c);
  }

  /** The value of an entry, for summing a map's values. */
  function ValueOf<K>(e: Entry<K, real>): real
  {
    e.value
  }

  /** Sum of all values, in iteration order. */
  function SumValues<K>(m: seq<Entry<K, real>>): real
  {
    SumBy(m, ValueOf)
  }

  /** `AddAt(m, k, a)` raises the sum of the values by exactly `a`. */
  lemma AddAtSum<K>(m: seq<Entry<K, real>>, k: K, a: real)
    ensures SumValues(AddAt(m, k, a)) == SumValues(m) + a
  {
    match IndexOf(m, k)
    case None =>
      SumBySnoc(m, Entry(k, a), ValueOf);
    case Some(i) =>
      SumByUpdate(m, i, Entry(k, m[i].value + a), ValueOf);
  }
}
