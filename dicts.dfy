/** Python's insertion-ordered `dict`, as a value: assigning a new key appends
    it, assigning an existing key keeps its position, deleting a key leaves the
    others in order. */
module Dicts {

  /** `items` holds the mapping, `keys` the iteration order. */
  datatype Dict<K(==), V> = Dict(keys: seq<K>, items: map<K, V>) {

    predicate Valid() {
      Distinct(keys) && items.Keys == set k | k in keys
    }

    /** `d[k] = v` */
    function Put(k: K, v: V): (d: Dict<K, V>)
      requires Valid()
      ensures d.Valid()
      ensures d.items == items[k := v]
      ensures d.keys == if k in items then keys else keys + [k]
    {
      if k in items then Dict(keys, items[k := v]) else Dict(keys + [k], items[k := v])
    }

    /** `del d[k]`, where a missing key is ignored (the caller catches the
        `KeyError`). */
    function Remove(k: K): (d: Dict<K, V>)
      requires Valid()
      ensures d.Valid()
      ensures d.items == items - {k}
      ensures d.keys == Without(keys, {k})
    {
      WithoutDistinct(keys, {k});
      Dict(Without(keys, {k}), items - {k})
    }

    /** `d.values()` in iteration order. */
    function Values(): (vs: seq<V>)
      requires Valid()
      ensures |vs| == |keys| && forall i :: 0 <= i < |keys| ==> vs[i] == items[keys[i]]
    {
      seq(|keys|, i requires 0 <= i < |keys| => items[keys[i]])
    }
  }

  function Empty<K(==), V>(): (d: Dict<K, V>)
    ensures d.Valid() && d.keys == [] && d.items == map[]
  {
    Dict([], map[])
  }

  predicate Distinct<K(==)>(s: seq<K>) {
    forall i, j :: 0 <= i < j < |s| ==> s[i] != s[j]
  }

  /** `s` without the elements of `drop`, order kept. */
  function Without<K(==)>(s: seq<K>, drop: set<K>): (r: seq<K>)
    ensures |r| <= |s|
    ensures forall i :: 0 <= i < |r| ==> r[i] in s && r[i] !in drop
    ensures forall i :: 0 <= i < |s| && s[i] !in drop ==> s[i] in r
  {
    if s == [] then []
    else if s[0] in drop then Without(s[1..], drop)
    else [s[0]] + Without(s[1..], drop)
  }

  lemma {:induction false} WithoutDistinct<K>(s: seq<K>, drop: set<K>)
    requires Distinct(s)
    ensures Distinct(Without(s, drop))
  {
    if s != [] {
      assert Distinct(s[1..]);
      WithoutDistinct(s[1..], drop);
      assert s[0] !in s[1..];
    }
  }

  lemma {:induction false} WithoutWithout<K>(s: seq<K>, a: set<K>, b: set<K>)
    ensures Without(Without(s, a), b) == Without(s, a + b)
  {
    if s != [] {
      WithoutWithout(s[1..], a, b);
      if s[0] !in a {
        assert Without(s, a) == [s[0]] + Without(s[1..], a);
        assert Without(s, a)[1..] == Without(s[1..], a);
      }
    }
  }

  lemma {:induction false} WithoutNothing<K>(s: seq<K>)
    ensures Without(s, {}) == s
  {
    if s != [] {
      WithoutNothing(s[1..]);
    }
  }

  lemma MapSubtractTwice<K, V>(m: map<K, V>, a: set<K>, b: set<K>)
    ensures (m - a) - b == m - (a + b)
  {
  }

  lemma MapSubtractAbsent<K, V>(m: map<K, V>, a: set<K>, b: set<K>)
    requires forall x :: x in b ==> x !in m
    ensures m - (a + b) == m - a
  {
  }
}
