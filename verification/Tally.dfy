/** Counting the holders of a feature over a finite map, and totals over its values. */
module Tally {
  import opened Wrappers

  /** The keys whose value has the feature `x`. */
  function Holders<K, V, F(==)>(m: map<K, V>, f: V -> Option<F>, x: F): set<K> {
    set k | k in m && f(m[k]) == Some(x)
  }

  function One(b: bool): int {
    if b then 1 else 0
  }

  /** Replacing one value changes the count of a feature by what the old and the new value contribute. */
  lemma HoldersReplace<K, V, F>(m: map<K, V>, f: V -> Option<F>, x: F, k: K, v: V)
    ensures |Holders(m[k := v], f, x)|
         == |Holders(m, f, x)| - One(k in m && f(m[k]) == Some(x)) + One(f(v) == Some(x))
  {
    var before, after := Holders(m, f, x), Holders(m[k := v], f, x);
    assert after - {k} == before - {k};
    SizeSplit(before, k);
    SizeSplit(after, k);
  }

  lemma SizeSplit<K>(s: set<K>, k: K)
    ensures |s| == |s - {k}| + One(k in s)
  {
    if k !in s {
      assert s - {k} == s;
    }
  }

  // ---------------------------------------------------------------- counters without zeros

  /** Add to a counter and drop the key when it reaches zero. */
  function AdjustedCounter<F(==)>(c: map<F, int>, x: F, direction: int): map<F, int> {
    var n := (if x in c then c[x] else 0) + direction;
    if n == 0 then c - {x} else c[x := n]
  }

  function Adjusted<F(==)>(c: map<F, int>, x: Option<F>, direction: int): map<F, int> {
    if x.None? then c else AdjustedCounter(c, x.value, direction)
  }

  function Get<F(==)>(c: map<F, int>, x: F): int {
    if x in c then c[x] else 0
  }

  predicate NoZeros<F(==)>(c: map<F, int>) {
    forall x :: x in c ==> c[x] != 0
  }

  ghost predicate CounterExact<K(!new), V, F(!new)>(c: map<F, int>, m: map<K, V>, f: V -> Option<F>) {
    NoZeros(c) && forall x :: Get(c, x) == |Holders(m, f, x)|
  }

  lemma AdjustedGet<F>(c: map<F, int>, x: Option<F>, direction: int, y: F)
    requires NoZeros(c)
    ensures NoZeros(Adjusted(c, x, direction))
    ensures Get(Adjusted(c, x, direction), y) == Get(c, y) + (if x == Some(y) then direction else 0)
  {}

  /** Taking the previous value out and putting the new one in keeps a counter exact. */
  lemma {:induction false} CounterReplace<K(!new), V, F(!new)>(
    c: map<F, int>, m: map<K, V>, f: V -> Option<F>, k: K, v: V
  )
    requires CounterExact(c, m, f)
    ensures var out := if k in m then Adjusted(c, f(m[k]), -1) else c;
            CounterExact(Adjusted(out, f(v), 1), m[k := v], f)
  {
    hide Holders, Adjusted;
    var out := if k in m then Adjusted(c, f(m[k]), -1) else c;
    var r := Adjusted(out, f(v), 1);
    if k in m && f(m[k]).Some? {
      AdjustedGet(c, f(m[k]), -1, f(m[k]).value);
    } else if k in m {
      AdjustedNothing(c, -1);
    }
    if f(v).Some? {
      AdjustedGet(out, f(v), 1, f(v).value);
    } else {
      AdjustedNothing(out, 1);
    }
    forall x ensures Get(r, x) == |Holders(m[k := v], f, x)| {
      if k in m {
        AdjustedGet(c, f(m[k]), -1, x);
      }
      AdjustedGet(out, f(v), 1, x);
      HoldersReplace(m, f, x, k, v);
    }
  }

  lemma AdjustedNothing<F>(c: map<F, int>, direction: int)
    ensures Adjusted(c, None, direction) == c
  {}

  // ---------------------------------------------------------------- distributions

  function Given(x: Option<int>): multiset<int> {
    if x.Some? then multiset{x.value} else multiset{}
  }

  ghost predicate DistributionExact<K(!new), V>(d: multiset<int>, m: map<K, V>, f: V -> Option<int>) {
    forall x :: d[x] == |Holders(m, f, x)|
  }

  /** The value being discarded is present, and the replaced distribution is exact. */
  lemma {:induction false} DistributionReplace<K(!new), V>(
    d: multiset<int>, m: map<K, V>, f: V -> Option<int>, k: K, v: V
  )
    requires DistributionExact(d, m, f)
    ensures k in m ==> Given(f(m[k])) <= d
    ensures DistributionExact((if k in m then d - Given(f(m[k])) else d) + Given(f(v)), m[k := v], f)
  {
    if k in m && f(m[k]).Some? {
      assert k in Holders(m, f, f(m[k]).value);
    }
    var r := (if k in m then d - Given(f(m[k])) else d) + Given(f(v));
    forall x ensures r[x] == |Holders(m[k := v], f, x)| {
      HoldersReplace(m, f, x, k, v);
    }
  }

  // ---------------------------------------------------------------- totals over a map

  ghost function Total(m: map<string, nat>, g: nat -> nat): nat
    decreases |m|
  {
    if m == map[] then 0
    else
      var k :| k in m;
      g(m[k]) + Total(m - {k}, g)
  }

  /** Any key may be taken out first. */
  lemma {:induction false} TotalWithout(m: map<string, nat>, g: nat -> nat, k: string)
    requires k in m
    ensures Total(m, g) == g(m[k]) + Total(m - {k}, g)
    decreases |m|
  {
    var j :| j in m && Total(m, g) == g(m[j]) + Total(m - {j}, g);
    if j != k {
      TotalWithout(m - {j}, g, k);
      TotalWithout(m - {k}, g, j);
      assert m - {j} - {k} == m - {k} - {j};
    }
  }

  lemma {:induction false} TotalUpdate(m: map<string, nat>, g: nat -> nat, k: string, v: nat)
    ensures Total(m[k := v], g) == Total(m, g) - (if k in m then g(m[k]) else 0) + g(v)
  {
    TotalWithout(m[k := v], g, k);
    assert m[k := v] - {k} == m - {k};
    if k in m {
      TotalWithout(m, g, k);
    } else {
      assert m - {k} == m;
    }
  }

  function Count(m: map<string, nat>, k: string): nat {
    if k in m then m[k] else 0
  }

  /** Maps that agree up to absent zeros have equal totals. */
  lemma {:induction false} TotalAgrees(a: map<string, nat>, b: map<string, nat>, g: nat -> nat)
    requires g(0) == 0 && forall k :: Count(a, k) == Count(b, k)
    ensures Total(a, g) == Total(b, g)
    decreases |a|
  {
    if a == map[] {
      AllZero(b, g, a);
    } else {
      var k :| k in a;
      TotalWithout(a, g, k);
      if k in b {
        TotalWithout(b, g, k);
      } else {
        assert b - {k} == b;
      }
      assert Count(a, k) == Count(b, k);
      forall j ensures Count(a - {k}, j) == Count(b - {k}, j) {
        assert Count(a, j) == Count(b, j);
      }
      TotalAgrees(a - {k}, b - {k}, g);
    }
  }

  lemma {:induction false} AllZero(b: map<string, nat>, g: nat -> nat, a: map<string, nat>)
    requires a == map[] && g(0) == 0 && forall k :: Count(a, k) == Count(b, k)
    ensures Total(b, g) == 0
    decreases |b|
  {
    if b != map[] {
      var k :| k in b;
      TotalWithout(b, g, k);
      assert Count(a, k) == Count(b, k);
      forall j ensures Count(a, j) == Count(b - {k}, j) {
        assert Count(a, j) == Count(b, j);
      }
      AllZero(b - {k}, g, a);
    }
  }
}
