/** Reconstruction depends on the set of facts and the cutoff, never on arrival order or later facts. */
module Determinism {
  import opened Wrappers
  import opened Sorting
  import opened LedgerTypes
  import opened PortfolioEngine

  lemma ValidityOfPermutation(fundId: Id, a: seq<LedgerTransaction>, b: seq<LedgerTransaction>)
    requires multiset(a) == multiset(b) && ValidInput(fundId, a)
    ensures ValidInput(fundId, b)
  {
    UniqueIdsOfPermutation(a, b);
    SameElements(a, b);
  }

  lemma OrderOfPermutation(a: seq<LedgerTransaction>, b: seq<LedgerTransaction>, asOf: Instant, accountId: Option<Id>)
    requires multiset(a) == multiset(b) && UniqueIds(a)
    ensures Ordered(a, asOf, accountId) == Ordered(b, asOf, accountId)
  {
    var p := Included(asOf, accountId);
    FilterPermutation(p, a, b);
    FilterUnique(p, a);
    UniqueIdsGiveDistinctKeys(Filter(p, a));
    OrdersAreTotal();
    SortPermutation(ReplayLe, Filter(p, a), Filter(p, b));
  }

  /** Permuting the input gives the same state, or fails both times. */
  lemma ArrivalOrderIsIrrelevant(fundId: Id, a: seq<LedgerTransaction>, b: seq<LedgerTransaction>,
                                 asOf: Instant, accountId: Option<Id>)
    requires multiset(a) == multiset(b)
    ensures Reconstruct(fundId, a, asOf, accountId).Success? <==> Reconstruct(fundId, b, asOf, accountId).Success?
    ensures Reconstruct(fundId, a, asOf, accountId).Success? ==>
              Reconstruct(fundId, a, asOf, accountId) == Reconstruct(fundId, b, asOf, accountId)
  {
    AcceptanceMeansValid(fundId, a);
    AcceptanceMeansValid(fundId, b);
    if ValidInput(fundId, a) {
      ValidityOfPermutation(fundId, a, b);
      OrderOfPermutation(a, b, asOf, accountId);
    } else if ValidInput(fundId, b) {
      ValidityOfPermutation(fundId, b, a);
    }
  }

  lemma {:induction false} FilterNone<T>(p: T -> bool, s: seq<T>)
    requires forall x | x in s :: !p(x)
    ensures Filter(p, s) == []
  {
    if s == [] {
    } else {
      assert s == s[..|s| - 1] + [s[|s| - 1]];
      assert s[|s| - 1] in s;
      FilterNone(p, s[..|s| - 1]);
    }
  }

  lemma {:induction false} FilterAll<T>(p: T -> bool, s: seq<T>)
    requires forall x | x in s :: p(x)
    ensures Filter(p, s) == s
  {
    if s == [] {
    } else {
      assert s == s[..|s| - 1] + [s[|s| - 1]];
      assert s[|s| - 1] in s;
      FilterAll(p, s[..|s| - 1]);
    }
  }

  lemma {:induction false} FilterAgree<T>(p: T -> bool, q: T -> bool, s: seq<T>)
    requires forall x | x in s :: p(x) <==> q(x)
    ensures Filter(p, s) == Filter(q, s)
  {
    if s == [] {
    } else {
      assert s == s[..|s| - 1] + [s[|s| - 1]];
      assert s[|s| - 1] in s;
      FilterAgree(p, q, s[..|s| - 1]);
    }
  }

  lemma {:induction false} FilterTwice<T>(p: T -> bool, q: T -> bool, s: seq<T>)
    requires forall x | x in s :: p(x) ==> q(x)
    ensures Filter(p, Filter(q, s)) == Filter(p, s)
  {
    if s == [] {
    } else {
      FilterTwice(p, q, s[..|s| - 1]);
      var last := if q(s[|s| - 1]) then [s[|s| - 1]] else [];
      FilterConcat(p, Filter(q, s[..|s| - 1]), last);
    }
  }

  lemma ValidityOfPart(fundId: Id, a: seq<LedgerTransaction>, b: seq<LedgerTransaction>)
    requires ValidInput(fundId, a + b)
    ensures ValidInput(fundId, a)
  {
    forall i, j | 0 <= i < j < |a|
      ensures a[i].id != a[j].id
    {
      assert (a + b)[i].id != (a + b)[j].id;
    }
    assert forall t | t in a :: t in a + b;
  }

  /** Facts that only take effect after the cutoff change nothing. */
  lemma LaterFactsAreIgnored(fundId: Id, supplied: seq<LedgerTransaction>, late: seq<LedgerTransaction>,
                             asOf: Instant, accountId: Option<Id>)
    requires ValidInput(fundId, supplied + late)
    requires forall t | t in late :: t.effectiveAt > asOf
    ensures Reconstruct(fundId, supplied + late, asOf, accountId) == Reconstruct(fundId, supplied, asOf, accountId)
  {
    ValidityOfPart(fundId, supplied, late);
    ReconstructIsReplay(fundId, supplied + late, asOf, accountId);
    ReconstructIsReplay(fundId, supplied, asOf, accountId);
    FilterConcat(Included(asOf, accountId), supplied, late);
    FilterNone(Included(asOf, accountId), late);
    assert Filter(Included(asOf, accountId), supplied + late) == Filter(Included(asOf, accountId), supplied);
  }

  function UpTo(cutoff: Instant): LedgerTransaction -> bool {
    (t: LedgerTransaction) => t.effectiveAt <= cutoff
  }

  lemma EarlierThanLast(s: seq<LedgerTransaction>, cutoff: Instant)
    requires Sorted(ReplayLe, s) && s != [] && s[|s| - 1].effectiveAt <= cutoff
    ensures forall x | x in s :: UpTo(cutoff)(x)
  {
    forall x | x in s
      ensures x.effectiveAt <= cutoff
    {
      var i :| 0 <= i < |s| && s[i] == x;
      assert i < |s| - 1 ==> ReplayLe(s[i], s[|s| - 1]);
    }
  }

  lemma SortedFront(s: seq<LedgerTransaction>)
    requires Sorted(ReplayLe, s) && s != []
    ensures Sorted(ReplayLe, s[..|s| - 1])
  {
  }

  lemma {:induction false} CutIsPrefix(s: seq<LedgerTransaction>, cutoff: Instant)
    requires Sorted(ReplayLe, s)
    ensures Filter(UpTo(cutoff), s) <= s
  {
    if s == [] {
    } else {
      if s[|s| - 1].effectiveAt <= cutoff {
        EarlierThanLast(s, cutoff);
        FilterAll(UpTo(cutoff), s);
      } else {
        SortedFront(s);
        CutIsPrefix(s[..|s| - 1], cutoff);
        CutDropsLast(s, cutoff);
      }
    }
  }

  lemma CutDropsLast(s: seq<LedgerTransaction>, cutoff: Instant)
    requires s != [] && s[|s| - 1].effectiveAt > cutoff
    ensures Filter(UpTo(cutoff), s) == Filter(UpTo(cutoff), s[..|s| - 1])
  {
  }

  /** The replay at an earlier cutoff is a prefix of the replay at a later one. */
  lemma EarlierOrderIsPrefix(fundId: Id, supplied: seq<LedgerTransaction>, t1: Instant, t2: Instant,
                             accountId: Option<Id>)
    requires ValidInput(fundId, supplied) && t1 <= t2
    ensures Ordered(supplied, t1, accountId) <= Ordered(supplied, t2, accountId)
  {
    var p, q := Included(t1, accountId), Included(t2, accountId);
    var later := Filter(q, supplied);
    OrdersAreTotal();
    FilterUnique(q, supplied);
    UniqueIdsGiveDistinctKeys(later);
    FilterOfSort(ReplayLe, UpTo(t1), later);
    FilterMembers(q, supplied);
    FilterAgree(UpTo(t1), p, later);
    FilterTwice(p, q, supplied);
    SortBySorts(ReplayLe, later);
    CutIsPrefix(Ordered(supplied, t2, accountId), t1);
  }

  /** So the later replay continues the earlier one from the books that one ended with. */
  lemma LaterReplayContinues(fundId: Id, supplied: seq<LedgerTransaction>, t1: Instant, t2: Instant,
                             accountId: Option<Id>)
    requires ValidInput(fundId, supplied) && t1 <= t2
    ensures var early, late := Ordered(supplied, t1, accountId), Ordered(supplied, t2, accountId);
            && early <= late
            && (Replay(early).Failure? ==> Replay(late) == Replay(early))
            && (Replay(early).Success? ==> Replay(late) == ReplayFrom(Replay(early).value, late[|early|..]))
  {
    var early, late := Ordered(supplied, t1, accountId), Ordered(supplied, t2, accountId);
    EarlierOrderIsPrefix(fundId, supplied, t1, t2, accountId);
    assert late == early + late[|early|..];
    ReplayConcat(EMPTY_BOOKS, early, late[|early|..]);
  }
}
