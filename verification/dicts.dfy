/**
 * Python's `dict`: a finite map that remembers the order in which keys were
 * first inserted. Assigning to an existing key replaces its value in place;
 * `pop` removes the key; iteration follows insertion order.
 */
module Dicts {

  import opened Wrappers

  datatype Dict<K, V> = Dict(keys: seq<K>, items: map<K, V>)

  /** No key is listed twice and the listed keys are exactly the mapped ones. */
  predicate Valid<K, V>(d: Dict<K, V>) {
    && (forall i, j :: 0 <= i < j < |d.keys| ==> d.keys[i] != d.keys[j])
    && d.items.Keys == (set k | k in d.keys)
  }

  function Empty<K, V>(): (d: Dict<K, V>)
    ensures Valid(d) && d.items == map[] && d.keys == []
  {
    Dict([], map[])
  }

  /** `d[k] = v`: a new key goes to the end, an existing key keeps its place. */
  function Put<K, V>(d: Dict<K, V>, k: K, v: V): (r: Dict<K, V>)
    requires Valid(d)
    ensures Valid(r)
    ensures r.items == d.items[k := v]
    ensures k in d.items ==> r.keys == d.keys
    ensures k !in d.items ==> r.keys == d.keys + [k]
  {
    if k in d.items then Dict(d.keys, d.items[k := v]) else Dict(d.keys + [k], d.items[k := v])
  }

  /** Two dicts with the same keys in the same order and the same value under each key are equal. */
  lemma SameEntries<K, V>(a: Dict<K, V>, b: Dict<K, V>)
    requires Valid(a) && Valid(b) && a.keys == b.keys
    requires forall k :: k in a.items ==> k in b.items && a.items[k] == b.items[k]
    ensures a == b
  {
    assert a.items.Keys == b.items.Keys;
    assert a.items == b.items;
  }

  /** A new key leaves every earlier entry as it was. */
  lemma PutNewKeeps<K, V>(d: Dict<K, V>, k: K, v: V)
    requires Valid(d) && k !in d.items
    ensures forall i :: 0 <= i < |d.keys| ==> d.keys[i] in Put(d, k, v).items && Put(d, k, v).items[d.keys[i]] == d.items[d.keys[i]]
  {
  }

  /** The sequence with every occurrence of `x` left out, order kept. */
  function Without<K(==)>(s: seq<K>, x: K): (r: seq<K>)
    ensures forall i :: 0 <= i < |r| ==> r[i] in s && r[i] != x
    ensures forall i :: 0 <= i < |s| && s[i] != x ==> s[i] in r
    ensures |r| <= |s|
  {
    if s == [] then [] else (if s[0] == x then [] else [s[0]]) + Without(s[1..], x)
  }

  lemma {:induction false} WithoutDistinct<K>(s: seq<K>, x: K)
    requires forall i, j :: 0 <= i < j < |s| ==> s[i] != s[j]
    ensures forall i, j :: 0 <= i < j < |Without(s, x)| ==> Without(s, x)[i] != Without(s, x)[j]
  {
    if s != [] {
      WithoutDistinct(s[1..], x);
      assert s[0] !in s[1..];
    }
  }

  /** `d.pop(k)` for a key that is present: every other key keeps its value and relative order. */
  function Pop<K, V>(d: Dict<K, V>, k: K): (r: Dict<K, V>)
    requires Valid(d) && k in d.items
    ensures Valid(r)
    ensures r.items == d.items - {k}
    ensures r.keys == Without(d.keys, k)
    ensures |r.keys| == |d.keys| - 1
  {
    WithoutDistinct(d.keys, k);
    var r := Dict(Without(d.keys, k), d.items - {k});
    assert |r.items| == |d.items| - 1;
    DistinctKeysCount(d);
    DistinctKeysCount(r);
    r
  }

  /** In a valid dict the key list and the key set have the same size. */
  lemma DistinctKeysCount<K, V>(d: Dict<K, V>)
    requires Valid(d)
    ensures |d.keys| == |d.items|
  {
    DistinctSeqCard(d.keys);
    assert (set k | k in d.keys) == d.items.Keys;
  }

  lemma {:induction false} DistinctSeqCard<K>(s: seq<K>)
    requires forall i, j :: 0 <= i < j < |s| ==> s[i] != s[j]
    ensures |set k | k in s| == |s|
  {
    if s != [] {
      DistinctSeqCard(s[1..]);
      assert (set k | k in s) == (set k | k in s[1..]) + {s[0]};
      assert s[0] !in s[1..];
    }
  }

  /** `next(iter(d))`, or `None` for an empty dict. */
  function First<K, V>(d: Dict<K, V>): (r: Option<K>)
    requires Valid(d)
    ensures r.None? <==> d.items == map[]
    ensures r.Some? ==> r.value in d.items && r.value == d.keys[0]
  {
    if |d.keys| == 0 then None
    else assert d.keys[0] in d.items.Keys; Some(d.keys[0])
  }

  /** Applies `f` to every value, keeping the keys and their order. */
  function MapValues<K, V, W>(d: Dict<K, V>, f: V -> W): (r: Dict<K, W>)
    requires Valid(d)
    ensures Valid(r) && r.keys == d.keys
    ensures r.items.Keys == d.items.Keys
    ensures forall k :: k in d.items ==> r.items[k] == f(d.items[k])
  {
    Dict(d.keys, map k | k in d.items :: f(d.items[k]))
  }
}
