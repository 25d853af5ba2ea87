/** Finite sums of reals over sequences and maps. */
module Sums {

  function Sum(s: seq<real>): real {
    if s == [] then 0.0 else Sum(s[..|s| - 1]) + s[|s| - 1]
  }

  function SumBy<T>(s: seq<T>, w: T -> real): real {
    if s == [] then 0.0 else SumBy(s[..|s| - 1], w) + w(s[|s| - 1])
  }

  lemma {:induction false} SumByConcat<T>(a: seq<T>, b: seq<T>, w: T -> real)
    ensures SumBy(a + b, w) == SumBy(a, w) + SumBy(b, w)
  {
    if b == [] {
      assert a + b == a;
    } else {
      assert (a + b)[..|a + b| - 1] == a + b[..|b| - 1];
      SumByConcat(a, b[..|b| - 1], w);
    }
  }

  lemma SumBySplit<T>(s: seq<T>, i: nat, w: T -> real)
    requires i < |s|
    ensures SumBy(s, w) == SumBy(s[..i], w) + w(s[i]) + SumBy(s[i + 1..], w)
  {
    assert s == s[..i] + ([s[i]] + s[i + 1..]);
    SumByConcat(s[..i], [s[i]] + s[i + 1..], w);
    SumByConcat([s[i]], s[i + 1..], w);
    assert SumBy([s[i]], w) == w(s[i]);
  }

  lemma {:induction false} SumByAgree<T>(s: seq<T>, v: T -> real, w: T -> real)
    requires forall x | x in s :: v(x) == w(x)
    ensures SumBy(s, v) == SumBy(s, w)
  {
    if s == [] {
    } else {
      SumByAgree(s[..|s| - 1], v, w);
    }
  }

  lemma SameRest<T>(a: multiset<T>, b: multiset<T>, x: T)
    requires a + multiset{x} == b + multiset{x}
    ensures a == b
  {
    assert a == a + multiset{x} - multiset{x};
    assert b == b + multiset{x} - multiset{x};
  }

  lemma WithoutOne<T>(s: seq<T>, i: nat)
    requires i < |s|
    ensures multiset(s) == multiset(s[..i] + s[i + 1..]) + multiset{s[i]}
  {
    assert s == s[..i] + [s[i]] + s[i + 1..];
  }

  /** The order of the terms does not matter. */
  lemma {:induction false} SumByPermutation<T>(a: seq<T>, b: seq<T>, w: T -> real)
    requires multiset(a) == multiset(b)
    ensures SumBy(a, w) == SumBy(b, w)
    decreases |a|
  {
    assert |multiset(a)| == |multiset(b)|;
    if a == [] {
    } else {
      var front, x := a[..|a| - 1], a[|a| - 1];
      assert x in multiset(a) && x in multiset(b);
      var i :| 0 <= i < |b| && b[i] == x;
      assert a == front + [x] && multiset(a) == multiset(front) + multiset{x};
      WithoutOne(b, i);
      SameRest(multiset(front), multiset(b[..i] + b[i + 1..]), x);
      SumByPermutation(front, b[..i] + b[i + 1..], w);
      SumByConcat(b[..i], b[i + 1..], w);
      SumBySplit(b, i, w);
    }
  }

  /** A common divisor can be taken out of a sum. */
  lemma {:induction false} SumByScale<T>(s: seq<T>, v: T -> real, w: T -> real, scale: real)
    requires forall x | x in s :: w(x) * scale == v(x)
    ensures SumBy(s, w) * scale == SumBy(s, v)
  {
    if s == [] {
    } else {
      SumByScale(s[..|s| - 1], v, w, scale);
      Distribute(SumBy(s[..|s| - 1], w), w(s[|s| - 1]), scale);
    }
  }

  lemma Distribute(a: real, b: real, scale: real)
    ensures (a + b) * scale == a * scale + b * scale
  {
  }

  /** The sum of a dictionary's values, in whatever order they are visited. */
  ghost function SumMap<K>(m: map<K, real>): real
    decreases |m|
  {
    if m == map[] then 0.0
    else
      var k :| k in m;
      m[k] + SumMap(m - {k})
  }

  lemma {:induction false} SumMapRemove<K>(m: map<K, real>, k: K)
    requires k in m
    ensures SumMap(m) == m[k] + SumMap(m - {k})
    decreases |m|
  {
    var c :| c in m && SumMap(m) == m[c] + SumMap(m - {c});
    if c != k {
      SumMapRemove(m - {c}, k);
      SumMapRemove(m - {k}, c);
      assert m - {c} - {k} == m - {k} - {c};
    }
  }

  lemma SumMapUpdate<K>(m: map<K, real>, k: K, v: real)
    ensures SumMap(m[k := v]) == SumMap(m) - (if k in m then m[k] else 0.0) + v
  {
    SumMapRemove(m[k := v], k);
    if k in m {
      SumMapRemove(m, k);
      assert m[k := v] - {k} == m - {k};
    } else {
      assert m[k := v] - {k} == m;
    }
  }

  lemma {:induction false} SumMapZero<K>(m: map<K, real>)
    requires forall k | k in m :: m[k] == 0.0
    ensures SumMap(m) == 0.0
    decreases |m|
  {
    if m == map[] {
    } else {
      var k :| k in m;
      SumMapRemove(m, k);
      SumMapZero(m - {k});
    }
  }

  lemma {:induction false} SumMapNonnegative<K>(m: map<K, real>)
    requires forall k | k in m :: m[k] >= 0.0
    ensures SumMap(m) >= 0.0
    decreases |m|
  {
    if m == map[] {
    } else {
      var k :| k in m;
      SumMapRemove(m, k);
      SumMapNonnegative(m - {k});
    }
  }

  lemma ListedBut<K>(m: map<K, real>, keys: seq<K>)
    requires keys != [] && forall k | k in m :: k in keys
    requires forall i, j | 0 <= i < j < |keys| :: keys[i] != keys[j]
    ensures var k, rest := keys[|keys| - 1], keys[..|keys| - 1];
            k !in rest && (forall x | x in m - {k} :: x in rest) && forall x | x in rest :: x in keys
  {
    var k, rest := keys[|keys| - 1], keys[..|keys| - 1];
    forall x | x in m - {k}
      ensures x in rest
    {
      var i :| 0 <= i < |keys| && keys[i] == x;
      assert rest[i] == x;
    }
    forall x | x in rest
      ensures x != k
    {
      var i :| 0 <= i < |rest| && rest[i] == x;
      assert keys[i] == x;
    }
  }

  /** Visiting every key once, in any order and perhaps among others that weigh nothing, gives the same sum. */
  lemma {:induction false} SumMapListing<K>(m: map<K, real>, keys: seq<K>, w: K -> real)
    requires forall k | k in m :: k in keys && w(k) == m[k]
    requires forall k | k in keys && k !in m :: w(k) == 0.0
    requires forall i, j | 0 <= i < j < |keys| :: keys[i] != keys[j]
    ensures SumBy(keys, w) == SumMap(m)
    decreases |keys|
  {
    if keys == [] {
      assert m == map[];
    } else {
      var k, rest := keys[|keys| - 1], keys[..|keys| - 1];
      ListedBut(m, keys);
      if k in m {
        SumMapRemove(m, k);
      } else {
        assert m - {k} == m;
      }
      SumMapListing(m - {k}, rest, w);
    }
  }
}
