/** Stable sorting, filtering and enumeration: what the source gets from `sorted` and comprehensions. */
module Sorting {

  ghost predicate TotalPreorder<T(!new)>(le: (T, T) -> bool) {
    && (forall x, y :: le(x, y) || le(y, x))
    && (forall x, y, z :: le(x, y) && le(y, z) ==> le(x, z))
  }

  ghost predicate TotalOrder<T(!new)>(le: (T, T) -> bool) {
    && TotalPreorder(le)
    && (forall x, y :: le(x, y) && le(y, x) ==> x == y)
  }

  ghost predicate Sorted<T>(le: (T, T) -> bool, s: seq<T>) {
    forall i, j | 0 <= i < j < |s| :: le(s[i], s[j])
  }

  /** No two different elements of `s` share a sort key. */
  ghost predicate DistinctKeys<T>(le: (T, T) -> bool, s: seq<T>) {
    forall x, y | x in s && y in s && le(x, y) && le(y, x) :: x == y
  }

  function Insert<T>(le: (T, T) -> bool, s: seq<T>, x: T): seq<T> {
    if s == [] then [x]
    else if le(s[|s| - 1], x) then s + [x]
    else Insert(le, s[..|s| - 1], x) + [s[|s| - 1]]
  }

  /** `sorted(s, key=...)`: equal keys keep their relative order. */
  function SortBy<T>(le: (T, T) -> bool, s: seq<T>): seq<T> {
    if s == [] then [] else Insert(le, SortBy(le, s[..|s| - 1]), s[|s| - 1])
  }

  function Filter<T>(p: T -> bool, s: seq<T>): seq<T> {
    if s == [] then []
    else Filter(p, s[..|s| - 1]) + (if p(s[|s| - 1]) then [s[|s| - 1]] else [])
  }

  lemma {:induction false} InsertPermutes<T>(le: (T, T) -> bool, s: seq<T>, x: T)
    ensures multiset(Insert(le, s, x)) == multiset(s) + multiset{x}
  {
    if s != [] && !le(s[|s| - 1], x) {
      assert s == s[..|s| - 1] + [s[|s| - 1]];
      InsertPermutes(le, s[..|s| - 1], x);
    }
  }

  lemma {:induction false} SortByPermutes<T>(le: (T, T) -> bool, s: seq<T>)
    ensures multiset(SortBy(le, s)) == multiset(s)
  {
    if s == [] {
    } else {
      assert s == s[..|s| - 1] + [s[|s| - 1]];
      SortByPermutes(le, s[..|s| - 1]);
      InsertPermutes(le, SortBy(le, s[..|s| - 1]), s[|s| - 1]);
    }
  }

  lemma AppendSorted<T>(le: (T, T) -> bool, s: seq<T>, x: T)
    requires Sorted(le, s) && forall y | y in s :: le(y, x)
    ensures Sorted(le, s + [x])
  {
  }

  lemma BelowLast<T>(le: (T, T) -> bool, s: seq<T>, y: T)
    requires Sorted(le, s) && s != [] && y in s[..|s| - 1]
    ensures le(y, s[|s| - 1])
  {
    var i :| 0 <= i < |s| - 1 && s[i] == y;
    assert le(s[i], s[|s| - 1]);
  }

  lemma BelowAll<T(!new)>(le: (T, T) -> bool, s: seq<T>, x: T, y: T)
    requires TotalPreorder(le) && Sorted(le, s) && s != [] && le(s[|s| - 1], x) && y in s
    ensures le(y, x)
  {
    var i :| 0 <= i < |s| && s[i] == y;
    assert i < |s| - 1 ==> le(s[i], s[|s| - 1]);
  }

  lemma {:induction false} InsertSorts<T(!new)>(le: (T, T) -> bool, s: seq<T>, x: T)
    requires TotalPreorder(le) && Sorted(le, s)
    ensures Sorted(le, Insert(le, s, x))
  {
    if s == [] {
    } else if le(s[|s| - 1], x) {
      forall y | y in s
        ensures le(y, x)
      {
        BelowAll(le, s, x, y);
      }
      AppendSorted(le, s, x);
    } else {
      var front, last := s[..|s| - 1], s[|s| - 1];
      InsertSorts(le, front, x);
      InsertPermutes(le, front, x);
      var r := Insert(le, front, x);
      forall y | y in r
        ensures le(y, last)
      {
        assert y in multiset(r);
        if y != x {
          assert y in multiset(front);
          BelowLast(le, s, y);
        }
      }
      AppendSorted(le, r, last);
    }
  }

  /** Sorting puts the same elements in order. */
  lemma {:induction false} SortBySorts<T(!new)>(le: (T, T) -> bool, s: seq<T>)
    requires TotalPreorder(le)
    ensures Sorted(le, SortBy(le, s))
    ensures multiset(SortBy(le, s)) == multiset(s)
  {
    SortByPermutes(le, s);
    if s == [] {
    } else {
      SortBySorts(le, s[..|s| - 1]);
      InsertSorts(le, SortBy(le, s[..|s| - 1]), s[|s| - 1]);
    }
  }

  lemma SameElements<T>(a: seq<T>, b: seq<T>)
    requires multiset(a) == multiset(b)
    ensures |a| == |b|
    ensures forall x :: x in a <==> x in b
  {
    assert |multiset(a)| == |multiset(b)|;
    forall x
      ensures x in a <==> x in b
    {
      assert x in a <==> x in multiset(a);
      assert x in b <==> x in multiset(b);
    }
  }

  lemma LastIsUnique<T>(le: (T, T) -> bool, a: seq<T>, b: seq<T>)
    requires Sorted(le, a) && Sorted(le, b)
    requires |a| == |b| > 0
    requires forall x :: x in a <==> x in b
    requires DistinctKeys(le, a)
    ensures a[|a| - 1] == b[|b| - 1]
  {
    var x, y := a[|a| - 1], b[|b| - 1];
    assert x in b && y in a;
    var i :| 0 <= i < |a| && a[i] == y;
    var j :| 0 <= j < |b| && b[j] == x;
    assert i < |a| - 1 ==> le(y, x);
    assert j < |b| - 1 ==> le(x, y);
  }

  lemma DropLast<T>(s: seq<T>)
    requires s != []
    ensures multiset(s[..|s| - 1]) == multiset(s) - multiset{s[|s| - 1]}
    ensures s == s[..|s| - 1] + [s[|s| - 1]]
  {
    assert s == s[..|s| - 1] + [s[|s| - 1]];
    assert multiset(s) == multiset(s[..|s| - 1]) + multiset{s[|s| - 1]};
  }

  /** Two sorted arrangements of the same distinctly keyed elements are the same sequence. */
  lemma {:induction false} SortedUnique<T>(le: (T, T) -> bool, a: seq<T>, b: seq<T>)
    requires Sorted(le, a) && Sorted(le, b)
    requires multiset(a) == multiset(b)
    requires DistinctKeys(le, a)
    ensures a == b
    decreases |a|
  {
    SameElements(a, b);
    if a == [] {
    } else {
      LastIsUnique(le, a, b);
      DropLast(a);
      DropLast(b);
      assert forall x | x in a[..|a| - 1] :: x in a;
      SortedUnique(le, a[..|a| - 1], b[..|b| - 1]);
    }
  }

  lemma {:induction false} FilterMember<T>(p: T -> bool, s: seq<T>, x: T)
    ensures x in Filter(p, s) <==> x in s && p(x)
  {
    if s == [] {
    } else {
      FilterMember(p, s[..|s| - 1], x);
      assert s == s[..|s| - 1] + [s[|s| - 1]];
    }
  }

  lemma {:induction false} FilterMembers<T>(p: T -> bool, s: seq<T>)
    ensures forall x :: x in Filter(p, s) <==> x in s && p(x)
  {
    if s == [] {
    } else {
      FilterMembers(p, s[..|s| - 1]);
      assert s == s[..|s| - 1] + [s[|s| - 1]];
    }
  }

  lemma {:induction false} FilterCount<T>(p: T -> bool, s: seq<T>, x: T)
    ensures multiset(Filter(p, s))[x] == if p(x) then multiset(s)[x] else 0
  {
    if s == [] {
    } else {
      FilterCount(p, s[..|s| - 1], x);
      assert s == s[..|s| - 1] + [s[|s| - 1]];
    }
  }

  lemma {:induction false} FilterSorted<T>(le: (T, T) -> bool, p: T -> bool, s: seq<T>)
    requires Sorted(le, s)
    ensures Sorted(le, Filter(p, s))
  {
    if s == [] {
    } else {
      var front, last := s[..|s| - 1], s[|s| - 1];
      FilterSorted(le, p, front);
      forall x | x in front
        ensures le(x, last)
      {
        var i :| 0 <= i < |front| && front[i] == x;
        assert le(s[i], s[|s| - 1]);
      }
      var f := Filter(p, front);
      forall i | 0 <= i < |f|
        ensures le(f[i], last)
      {
        assert f[i] in f;
        FilterMember(p, front, f[i]);
      }
    }
  }

  lemma {:induction false} FilterConcat<T>(p: T -> bool, a: seq<T>, b: seq<T>)
    ensures Filter(p, a + b) == Filter(p, a) + Filter(p, b)
  {
    if b == [] {
      assert a + b == a;
    } else {
      assert (a + b)[..|a + b| - 1] == a + b[..|b| - 1];
      FilterConcat(p, a, b[..|b| - 1]);
    }
  }

  lemma FilterCovers<T>(p: T -> bool, a: seq<T>, b: seq<T>)
    requires multiset(a) == multiset(b)
    ensures multiset(Filter(p, a)) - multiset(Filter(p, b)) == multiset{}
  {
    var rest := multiset(Filter(p, a)) - multiset(Filter(p, b));
    if rest != multiset{} {
      var x :| x in rest;
      FilterCount(p, a, x);
      FilterCount(p, b, x);
      assert false;
    }
  }

  lemma FilterPermutation<T>(p: T -> bool, a: seq<T>, b: seq<T>)
    requires multiset(a) == multiset(b)
    ensures multiset(Filter(p, a)) == multiset(Filter(p, b))
  {
    var fa, fb := multiset(Filter(p, a)), multiset(Filter(p, b));
    FilterCovers(p, a, b);
    FilterCovers(p, b, a);
    assert fa - fb == multiset{} && fb - fa == multiset{};
  }

  /** Sorting a selection is selecting from the sorted sequence. */
  lemma FilterOfSort<T(!new)>(le: (T, T) -> bool, p: T -> bool, s: seq<T>)
    requires TotalPreorder(le) && DistinctKeys(le, s)
    ensures Filter(p, SortBy(le, s)) == SortBy(le, Filter(p, s))
  {
    SortBySorts(le, s);
    SortBySorts(le, Filter(p, s));
    FilterSorted(le, p, SortBy(le, s));
    FilterPermutation(p, SortBy(le, s), s);
    FilterMembers(p, s);
    SameElements(SortBy(le, Filter(p, s)), Filter(p, s));
    SortedUnique(le, SortBy(le, Filter(p, s)), Filter(p, SortBy(le, s)));
  }

  /** Sorting does not depend on the order in which distinctly keyed elements arrive. */
  lemma SortPermutation<T(!new)>(le: (T, T) -> bool, a: seq<T>, b: seq<T>)
    requires TotalPreorder(le) && DistinctKeys(le, a)
    requires multiset(a) == multiset(b)
    ensures SortBy(le, a) == SortBy(le, b)
  {
    SortBySorts(le, a);
    SortBySorts(le, b);
    SameElements(SortBy(le, a), a);
    SortedUnique(le, SortBy(le, a), SortBy(le, b));
  }

  lemma {:induction false} SortOfSorted<T(!new)>(le: (T, T) -> bool, s: seq<T>)
    requires Sorted(le, s)
    ensures SortBy(le, s) == s
  {
    if s == [] {
    } else {
      SortOfSorted(le, s[..|s| - 1]);
    }
  }

  lemma {:induction false} LeastExists<K(!new)>(le: (K, K) -> bool, s: set<K>)
    requires TotalOrder(le) && s != {}
    ensures exists m :: m in s && forall y | y in s :: le(m, y)
    decreases |s|
  {
    var x :| x in s;
    if s == {x} {
      assert forall y | y in s :: le(x, y);
    } else {
      assert s - {x} != {};
      LeastExists(le, s - {x});
      var m :| m in s - {x} && forall y | y in s - {x} :: le(m, y);
      if le(m, x) {
        assert forall y | y in s :: le(m, y);
      } else {
        assert forall y | y in s :: le(x, y);
      }
    }
  }

  function Least<K(!new)>(le: (K, K) -> bool, s: set<K>): (m: K)
    requires TotalOrder(le) && s != {}
    ensures m in s && forall y | y in s :: le(m, y)
  {
    LeastExists(le, s);
    var m :| m in s && forall y | y in s :: le(m, y);
    m
  }

  /** `r` lists the elements of `s` once each, in ascending order. */
  ghost predicate Listing<K(!new)>(le: (K, K) -> bool, r: seq<K>, s: set<K>) {
    && (forall k :: k in r <==> k in s)
    && (forall i, j | 0 <= i < j < |r| :: r[i] != r[j] && le(r[i], r[j]))
  }

  /** The keys of a dictionary listed in sorted order. */
  function Enumerate<K(!new)>(le: (K, K) -> bool, s: set<K>): (r: seq<K>)
    requires TotalOrder(le)
    ensures Listing(le, r, s)
    decreases |s|
  {
    if s == {} then []
    else
      var m := Least(le, s);
      [m] + Enumerate(le, s - {m})
  }

  lemma ListingFront<K(!new)>(le: (K, K) -> bool, r: seq<K>, s: set<K>)
    requires TotalOrder(le) && Listing(le, r, s) && r != []
    ensures Listing(le, r[..|r| - 1], s - {r[|r| - 1]})
    ensures r[|r| - 1] in s
    ensures forall k | k in s :: le(k, r[|r| - 1])
  {
    var front, last := r[..|r| - 1], r[|r| - 1];
    assert r == front + [last];
    forall k
      ensures k in front <==> k in s - {last}
    {
      if k in front {
        var i :| 0 <= i < |front| && front[i] == k;
        assert r[i] != r[|r| - 1];
      }
    }
    forall k | k in s
      ensures le(k, last)
    {
      var i :| 0 <= i < |r| && r[i] == k;
      assert i < |r| - 1 ==> le(r[i], r[|r| - 1]);
    }
  }

  lemma {:induction false} ListingUnique<K(!new)>(le: (K, K) -> bool, a: seq<K>, b: seq<K>, s: set<K>)
    requires TotalOrder(le) && Listing(le, a, s) && Listing(le, b, s)
    ensures a == b
    decreases |a|
  {
    assert b != [] ==> b[0] in a;
    assert a != [] ==> a[0] in b;
    if a == [] {
    } else {
      ListingFront(le, a, s);
      ListingFront(le, b, s);
      assert a[|a| - 1] == b[|b| - 1];
      ListingUnique(le, a[..|a| - 1], b[..|b| - 1], s - {a[|a| - 1]});
      assert a == a[..|a| - 1] + [a[|a| - 1]] && b == b[..|b| - 1] + [b[|b| - 1]];
    }
  }

  lemma {:induction false} FilterListing<K(!new)>(le: (K, K) -> bool, p: K -> bool, r: seq<K>, s: set<K>)
    requires TotalOrder(le) && Listing(le, r, s)
    ensures Listing(le, Filter(p, r), set k | k in s && p(k))
    decreases |r|
  {
    if r == [] {
    } else {
      var front, last := r[..|r| - 1], r[|r| - 1];
      ListingFront(le, r, s);
      FilterListing(le, p, front, s - {last});
      var f := Filter(p, front);
      forall i | 0 <= i < |f|
        ensures f[i] != last && le(f[i], last)
      {
        assert f[i] in f;
      }
    }
  }
}
