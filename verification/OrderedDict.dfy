/** Insertion-ordered dictionaries: re-assigning a key keeps its place, the first key is the oldest. */
module OrderedDict {
  datatype Dict<K(==), +V> = Dict(keys: seq<K>, at: map<K, V>)

  predicate Distinct<K(==)>(s: seq<K>) {
    forall i, j :: 0 <= i < j < |s| ==> s[i] != s[j]
  }

  predicate Valid<K, V>(d: Dict<K, V>) {
    && Distinct(d.keys)
    && (forall k :: k in d.keys ==> k in d.at)
    && (forall k :: k in d.at ==> k in d.keys)
  }

  function Empty<K, V>(): Dict<K, V> {
    Dict([], map[])
  }

  function Put<K, V>(d: Dict<K, V>, k: K, v: V): Dict<K, V> {
    Dict(if k in d.at then d.keys else d.keys + [k], d.at[k := v])
  }

  function Without<K(==)>(s: seq<K>, drop: set<K>): (r: seq<K>)
    ensures |r| <= |s|
    ensures forall k :: k in r ==> k in s && k !in drop
    ensures forall k :: k in s ==> k in drop || k in r
  {
    if s == [] then []
    else (if s[0] in drop then [] else [s[0]]) + Without(s[1..], drop)
  }

  /** Remove every listed key that is present. */
  function Drop<K, V>(d: Dict<K, V>, drop: set<K>): Dict<K, V> {
    Dict(Without(d.keys, drop), d.at - drop)
  }

  function Pop<K, V>(d: Dict<K, V>, k: K): Dict<K, V> {
    Drop(d, {k})
  }

  lemma {:induction false} WithoutDistinct<K>(s: seq<K>, drop: set<K>)
    requires Distinct(s)
    ensures Distinct(Without(s, drop))
  {
    if s != [] {
      assert forall i :: 0 < i < |s| ==> s[i] != s[0];
      assert s[0] !in s[1..];
      WithoutDistinct(s[1..], drop);
    }
  }

  lemma {:induction false} WithoutNothing<K>(s: seq<K>, drop: set<K>)
    requires forall k :: k in s ==> k !in drop
    ensures Without(s, drop) == s
  {
    if s != [] {
      assert s[0] in s;
      assert forall k :: k in s[1..] ==> k in s;
      WithoutNothing(s[1..], drop);
    }
  }

  /** Dropping the oldest key leaves the rest in order. */
  lemma {:induction false} WithoutFirst<K>(s: seq<K>)
    requires s != [] && Distinct(s)
    ensures Without(s, {s[0]}) == s[1..]
  {
    assert forall i :: 0 < i < |s| ==> s[i] != s[0];
    WithoutNothing(s[1..], {s[0]});
  }

  lemma WithoutCons<K>(x: K, s: seq<K>, drop: set<K>)
    ensures Without([x] + s, drop) == (if x in drop then [] else [x]) + Without(s, drop)
  {
    assert ([x] + s)[1..] == s;
  }

  lemma {:induction false} WithoutTwice<K>(s: seq<K>, a: set<K>, b: set<K>)
    ensures Without(Without(s, a), b) == Without(s, a + b)
  {
    if s != [] {
      var x, rest := s[0], s[1..];
      WithoutTwice(rest, a, b);
      assert s == [x] + rest;
      WithoutCons(x, rest, a);
      WithoutCons(x, rest, a + b);
      WithoutCons(x, Without(rest, a), b);
      hide Without;
      if x in a {
        assert Without(s, a) == Without(rest, a);
      } else {
        assert Without(s, a) == [x] + Without(rest, a);
      }
    }
  }

  /** A present key is removed exactly once. */
  lemma {:induction false} WithoutOne<K>(s: seq<K>, k: K)
    requires Distinct(s) && k in s
    ensures |Without(s, {k})| == |s| - 1
  {
    if s[0] == k {
      WithoutFirst(s);
    } else {
      WithoutOne(s[1..], k);
    }
  }

  lemma PutValid<K, V>(d: Dict<K, V>, k: K, v: V)
    requires Valid(d)
    ensures Valid(Put(d, k, v))
  {}

  lemma DropValid<K, V>(d: Dict<K, V>, drop: set<K>)
    requires Valid(d)
    ensures Valid(Drop(d, drop))
  {
    WithoutDistinct(d.keys, drop);
  }

  lemma DropTwice<K, V>(d: Dict<K, V>, a: set<K>, b: set<K>)
    ensures Drop(Drop(d, a), b) == Drop(d, a + b)
  {
    WithoutTwice(d.keys, a, b);
    assert d.at - a - b == d.at - (a + b);
  }

  lemma DropNothing<K, V>(d: Dict<K, V>, drop: set<K>)
    requires Valid(d) && forall k :: k in d.at ==> k !in drop
    ensures Drop(d, drop) == d
  {
    WithoutNothing(d.keys, drop);
    assert d.at - drop == d.at;
  }

  lemma PopFirst<K, V>(d: Dict<K, V>)
    requires Valid(d) && d.keys != []
    ensures d.keys[0] in d.at
    ensures Pop(d, d.keys[0]) == Dict(d.keys[1..], d.at - {d.keys[0]})
  {
    WithoutFirst(d.keys);
  }

  /** The values in key order. */
  function Values<K, V>(keys: seq<K>, at: map<K, V>): (r: seq<V>)
    requires forall k :: k in keys ==> k in at
    ensures |r| == |keys| && forall i :: 0 <= i < |r| ==> r[i] == at[keys[i]]
  {
    if keys == [] then [] else [at[keys[0]]] + Values(keys[1..], at)
  }
}
