/** Accounts never touch each other: a fund-wide replay is its accounts' replays side by side. */
module AccountSeparation {
  import opened Wrappers
  import opened Sums
  import opened Sorting
  import opened LedgerTypes
  import opened PortfolioEngine
  import opened Conservation
  import opened Determinism

  /** The part of the books that belongs to one account. */
  function Project(b: Books, a: Id): Books {
    Books(
      map x | x in b.cash && x == a :: b.cash[x],
      map k | k in b.positions && k.0 == a :: b.positions[k],
      map x | x in b.effects && b.effects[x].accountId == a :: b.effects[x],
      set x | x in b.reversed && x in b.effects && b.effects[x].accountId == a)
  }

  function OfAccount(a: Id): LedgerTransaction -> bool {
    (t: LedgerTransaction) => t.accountId == a
  }

  ghost predicate Tidy(b: Books) {
    b.reversed <= b.effects.Keys
  }

  lemma StepParts(b: Books, t: LedgerTransaction)
    ensures Step(b, t).Success? <==>
              && EffectOf(b, t).Success?
              && (EffectOf(b, t).value.instrumentId.Some? ==>
                    ApplyPositionEffect(t.id, EffectOf(b, t).value, b.positions).Success?)
    ensures Step(b, t).Success? ==>
              && Step(b, t).value.cash ==
                   b.cash[t.accountId := CashAt(b.cash, t.accountId) + EffectOf(b, t).value.cashDelta]
              && Step(b, t).value.positions ==
                 if EffectOf(b, t).value.instrumentId.None? then b.positions
                 else ApplyPositionEffect(t.id, EffectOf(b, t).value, b.positions).value
  {
  }

  lemma PositionsElsewhere(b: Books, t: LedgerTransaction, a: Id)
    requires Step(b, t).Success? && t.accountId != a
    ensures (map k | k in Step(b, t).value.positions && k.0 == a :: Step(b, t).value.positions[k]) ==
            (map k | k in b.positions && k.0 == a :: b.positions[k])
  {
    StepParts(b, t);
  }

  lemma OthersUntouched(b: Books, t: LedgerTransaction, a: Id)
    requires Tidy(b) && Step(b, t).Success? && t.accountId != a && t.id !in b.effects
    ensures Project(Step(b, t).value, a) == Project(b, a)
  {
    StepFacts(b, t);
    StepParts(b, t);
    PositionsElsewhere(b, t, a);
    EffectsElsewhere(b, Step(b, t).value, t, a);
    var c := Step(b, t).value;
    assert Project(c, a).cash == Project(b, a).cash;
  }

  lemma EffectsElsewhere(b: Books, c: Books, t: LedgerTransaction, a: Id)
    requires Tidy(b) && t.accountId != a && t.id !in b.effects
    requires !t.kind.Reversal? ==>
               && c.reversed == b.reversed
               && exists e: Effect :: e.accountId == t.accountId && c.effects == b.effects[t.id := e]
    requires t.kind.Reversal? ==>
               && t.reverses.Some? && t.reverses.value in b.effects
               && b.effects[t.reverses.value].accountId == t.accountId
               && c.effects == b.effects && c.reversed == b.reversed + {t.reverses.value}
    ensures Project(c, a).effects == Project(b, a).effects
    ensures Project(c, a).reversed == Project(b, a).reversed
  {
  }

  lemma OriginalReadsItsKey(t: LedgerTransaction, p: map<Key, Position>, q: map<Key, Position>)
    requires t.instrumentId.Some? ==>
               PositionAt(p, (t.accountId, t.instrumentId.value)) == PositionAt(q, (t.accountId, t.instrumentId.value))
    ensures ApplyOriginal(t, p) == ApplyOriginal(t, q)
  {
  }

  lemma EffectOfProjection(b: Books, t: LedgerTransaction)
    requires Tidy(b)
    ensures EffectOf(Project(b, t.accountId), t).Success? <==> EffectOf(b, t).Success?
    ensures EffectOf(b, t).Success? ==> EffectOf(Project(b, t.accountId), t) == EffectOf(b, t)
  {
    var p := Project(b, t.accountId);
    if t.kind.Reversal? {
      if t.reverses.Some? && t.reverses.value in p.effects {
        assert t.reverses.value in b.reversed <==> t.reverses.value in p.reversed;
      }
    } else {
      OriginalReadsItsKey(t, p.positions, b.positions);
    }
  }

  lemma PositionEffectOfProjection(b: Books, id: Id, e: Effect)
    requires e.instrumentId.Some?
    ensures var p := Project(b, e.accountId);
            var x, y := ApplyPositionEffect(id, e, p.positions), ApplyPositionEffect(id, e, b.positions);
            && (x.Success? <==> y.Success?)
            && (y.Success? ==> x.value == map k | k in y.value && k.0 == e.accountId :: y.value[k])
  {
    var p := Project(b, e.accountId);
    var key := (e.accountId, e.instrumentId.value);
    assert PositionAt(p.positions, key) == PositionAt(b.positions, key);
    var x, y := ApplyPositionEffect(id, e, p.positions), ApplyPositionEffect(id, e, b.positions);
    if y.Success? {
      assert x.value == map k | k in y.value && k.0 == e.accountId :: y.value[k];
    }
  }

  lemma RecordsOfProjection(b: Books, c: Books, p: Books, d: Books, t: LedgerTransaction)
    requires Tidy(b) && t.id !in b.effects && p == Project(b, t.accountId)
    requires !t.kind.Reversal? ==>
               exists e: Effect :: e.accountId == t.accountId
                                   && c.effects == b.effects[t.id := e] && c.reversed == b.reversed
                                   && d.effects == p.effects[t.id := e] && d.reversed == p.reversed
    requires t.kind.Reversal? ==>
               && t.reverses.Some? && t.reverses.value in p.effects
               && c.effects == b.effects && c.reversed == b.reversed + {t.reverses.value}
               && d.effects == p.effects && d.reversed == p.reversed + {t.reverses.value}
    ensures d.effects == Project(c, t.accountId).effects
    ensures d.reversed == Project(c, t.accountId).reversed
  {
  }

  /** A transaction does to its own account's books exactly what it does fund-wide. */
  lemma OwnAccountFollows(b: Books, t: LedgerTransaction)
    requires Tidy(b) && t.id !in b.effects
    ensures Step(Project(b, t.accountId), t).Success? <==> Step(b, t).Success?
    ensures Step(b, t).Success? ==> Step(Project(b, t.accountId), t).value == Project(Step(b, t).value, t.accountId)
  {
    var a := t.accountId;
    var p := Project(b, a);
    EffectOfProjection(b, t);
    StepParts(b, t);
    StepParts(p, t);
    if EffectOf(b, t).Success? {
      var e := EffectOf(b, t).value;
      if e.instrumentId.Some? {
        PositionEffectOfProjection(b, t.id, e);
      }
      if Step(b, t).Success? {
        StepFacts(b, t);
        StepFacts(p, t);
        RecordsOfProjection(b, Step(b, t).value, p, Step(p, t).value, t);
        CashOfProjection(b.cash, a, CashAt(b.cash, a) + e.cashDelta);
      }
    }
  }

  lemma CashOfProjection(cash: map<Id, real>, a: Id, v: real)
    ensures (map x | x in cash && x == a :: cash[x])[a := v] ==
            var next := cash[a := v]; map x | x in next && x == a :: next[x]
    ensures CashAt(map x | x in cash && x == a :: cash[x], a) == CashAt(cash, a)
  {
  }

  lemma {:induction false} ReplayProjects(fundId: Id, ts: seq<LedgerTransaction>, a: Id)
    requires ValidInput(fundId, ts) && Replay(ts).Success?
    ensures Replay(Filter(OfAccount(a), ts)) == Success(Project(Replay(ts).value, a))
  {
    if ts == [] {
      assert Project(EMPTY_BOOKS, a) == EMPTY_BOOKS;
    } else {
      var front, t := ts[..|ts| - 1], ts[|ts| - 1];
      var b := Replay(front).value;
      ValidFront(fundId, ts);
      ReplayProjects(fundId, front, a);
      ReplayRecords(fundId, front);
      if t.accountId == a {
        OwnAccountFollows(b, t);
        ReplayConcat(EMPTY_BOOKS, Filter(OfAccount(a), front), [t]);
        assert ReplayFrom(Project(b, a), [t]) == Step(Project(b, a), t) by {
          assert [t][..0] == [];
        }
      } else {
        OthersUntouched(b, t, a);
        assert Filter(OfAccount(a), ts) == Filter(OfAccount(a), front);
      }
    }
  }

  /** If every account's own replay succeeds, so does the fund's. */
  lemma {:induction false} AccountsSuffice(fundId: Id, ts: seq<LedgerTransaction>)
    requires ValidInput(fundId, ts)
    requires forall a :: Replay(Filter(OfAccount(a), ts)).Success?
    ensures Replay(ts).Success?
  {
    if ts == [] {
    } else {
      var front, t := ts[..|ts| - 1], ts[|ts| - 1];
      ValidFront(fundId, ts);
      forall a
        ensures Replay(Filter(OfAccount(a), front)).Success?
      {
        assert Replay(Filter(OfAccount(a), ts)).Success?;
        ReplayConcat(EMPTY_BOOKS, Filter(OfAccount(a), front), if t.accountId == a then [t] else []);
      }
      AccountsSuffice(fundId, front);
      var b, a := Replay(front).value, t.accountId;
      ReplayProjects(fundId, front, a);
      ReplayRecords(fundId, front);
      OwnAccountFollows(b, t);
      assert Replay(Filter(OfAccount(a), ts)).Success?;
      ReplayConcat(EMPTY_BOOKS, Filter(OfAccount(a), front), [t]);
      assert [t][..0] == [];
    }
  }

  lemma OrderOfAccount(fundId: Id, supplied: seq<LedgerTransaction>, asOf: Instant, a: Id)
    requires ValidInput(fundId, supplied)
    ensures Ordered(supplied, asOf, Some(a)) == Filter(OfAccount(a), Ordered(supplied, asOf, None))
  {
    var all := Filter(Included(asOf, None), supplied);
    OrdersAreTotal();
    FilterUnique(Included(asOf, None), supplied);
    UniqueIdsGiveDistinctKeys(all);
    FilterOfSort(ReplayLe, OfAccount(a), all);
    FilterMembers(Included(asOf, None), supplied);
    FilterAgree(OfAccount(a), Included(asOf, Some(a)), all);
    FilterTwice(Included(asOf, Some(a)), Included(asOf, None), supplied);
  }

  /**
   * A fund-wide reconstruction succeeds exactly when the scoped reconstruction of every account
   * does, and each account's books are then its projection of the fund's.
   */
  lemma AccountsAreSeparate(fundId: Id, supplied: seq<LedgerTransaction>, asOf: Instant)
    requires ValidInput(fundId, supplied)
    ensures Replay(Ordered(supplied, asOf, None)).Success? <==>
            forall a :: Replay(Ordered(supplied, asOf, Some(a))).Success?
    ensures Replay(Ordered(supplied, asOf, None)).Success? ==>
              forall a :: Replay(Ordered(supplied, asOf, Some(a))) ==
                          Success(Project(Replay(Ordered(supplied, asOf, None)).value, a))
  {
    var ordered := Ordered(supplied, asOf, None);
    OrderedValid(fundId, supplied, asOf, None);
    forall a
      ensures Ordered(supplied, asOf, Some(a)) == Filter(OfAccount(a), ordered)
      ensures Replay(ordered).Success? ==>
                Replay(Ordered(supplied, asOf, Some(a))) == Success(Project(Replay(ordered).value, a))
    {
      OrderOfAccount(fundId, supplied, asOf, a);
      if Replay(ordered).Success? {
        ReplayProjects(fundId, ordered, a);
      }
    }
    if forall a :: Replay(Ordered(supplied, asOf, Some(a))).Success? {
      forall a
        ensures Replay(Filter(OfAccount(a), ordered)).Success?
      {
        assert Replay(Ordered(supplied, asOf, Some(a))).Success?;
      }
      AccountsSuffice(fundId, ordered);
    }
  }

  // ---------------------------------------------------------------- the reported state

  function KeyOfAccount(a: Id): Key -> bool {
    (k: Key) => k.0 == a
  }

  function StateOfAccount(a: Id): PositionState -> bool {
    (p: PositionState) => p.accountId == a
  }

  lemma FilterNext<T>(p: T -> bool, s: seq<T>, x: T)
    ensures Filter(p, s + [x]) == if p(x) then Filter(p, s) + [x] else Filter(p, s)
  {
    assert (s + [x])[..|s|] == s;
  }

  lemma ListOne(keys: seq<Key>, k: Key, positions: map<Key, Position>)
    ensures ListPositions(keys + [k], positions) ==
            if PositionAt(positions, k).quantity == 0.0 then ListPositions(keys, positions)
            else ListPositions(keys, positions) + [StateOf(k, PositionAt(positions, k))]
  {
    assert (keys + [k])[..|keys|] == keys;
  }

  lemma {:induction false} ListFiltered(keys: seq<Key>, positions: map<Key, Position>, a: Id)
    ensures Filter(StateOfAccount(a), ListPositions(keys, positions)) ==
            ListPositions(Filter(KeyOfAccount(a), keys), positions)
  {
    if keys == [] {
    } else {
      var front, k := keys[..|keys| - 1], keys[|keys| - 1];
      ListFiltered(front, positions, a);
      ListFilteredNext(front, k, positions, a);
      assert keys == front + [k];
    }
  }

  lemma ListFilteredNext(front: seq<Key>, k: Key, positions: map<Key, Position>, a: Id)
    requires Filter(StateOfAccount(a), ListPositions(front, positions)) ==
             ListPositions(Filter(KeyOfAccount(a), front), positions)
    ensures Filter(StateOfAccount(a), ListPositions(front + [k], positions)) ==
            ListPositions(Filter(KeyOfAccount(a), front + [k]), positions)
  {
    var p := PositionAt(positions, k);
    FilterNext(KeyOfAccount(a), front, k);
    ListOne(front, k, positions);
    ListOne(Filter(KeyOfAccount(a), front), k, positions);
    if p.quantity != 0.0 {
      FilterNext(StateOfAccount(a), ListPositions(front, positions), StateOf(k, p));
    }
  }

  lemma {:induction false} ListAgrees(keys: seq<Key>, p: map<Key, Position>, q: map<Key, Position>)
    requires forall k | k in keys :: PositionAt(p, k) == PositionAt(q, k)
    ensures ListPositions(keys, p) == ListPositions(keys, q)
  {
    if keys == [] {
    } else {
      ListAgrees(keys[..|keys| - 1], p, q);
    }
  }

  lemma PositionsOfProjection(b: Books, a: Id)
    ensures ListPositions(SortedKeys(Project(b, a).positions.Keys), Project(b, a).positions) ==
            Filter(StateOfAccount(a), ListPositions(SortedKeys(b.positions.Keys), b.positions))
  {
    var p := Project(b, a).positions;
    var keys := SortedKeys(b.positions.Keys);
    OrdersAreTotal();
    FilterListing(KeyLe, KeyOfAccount(a), keys, b.positions.Keys);
    assert p.Keys == set k | k in b.positions.Keys && KeyOfAccount(a)(k);
    ListingUnique(KeyLe, SortedKeys(p.Keys), Filter(KeyOfAccount(a), keys), p.Keys);
    ListFiltered(keys, b.positions, a);
    ListAgrees(SortedKeys(p.Keys), p, b.positions);
  }

  lemma {:induction false} CashListed(accounts: seq<Id>, cash: map<Id, real>)
    ensures CashTotal(ListCash(accounts, cash)) == SumBy(accounts, (a: Id) => CashAt(cash, a))
  {
    if accounts == [] {
    } else {
      var front := accounts[..|accounts| - 1];
      CashListed(front, cash);
      assert ListCash(accounts, cash)[..|accounts| - 1] == ListCash(front, cash);
    }
  }

  /** The reported cash is the sum of the cash dictionary, whatever order it is visited in. */
  lemma ReportedCash(fundId: Id, accountId: Option<Id>, asOf: Instant, ordered: seq<LedgerTransaction>, b: Books)
    ensures Output(fundId, accountId, asOf, ordered, b).cash == SumMap(b.cash)
  {
    var accounts := SortedAccounts(b.cash.Keys);
    CashListed(accounts, b.cash);
    SumMapListing(b.cash, accounts, (a: Id) => CashAt(b.cash, a));
  }

  lemma CashOfOneAccount(b: Books, a: Id)
    ensures SumMap(Project(b, a).cash) == CashAt(b.cash, a)
  {
    var c := Project(b, a).cash;
    if a in b.cash {
      SumMapRemove(c, a);
      assert c - {a} == map[];
    } else {
      assert c == map[];
    }
  }

  lemma ValidReconstructionSeparates(fundId: Id, supplied: seq<LedgerTransaction>, asOf: Instant)
    requires ValidInput(fundId, supplied)
    ensures Reconstruct(fundId, supplied, asOf, None).Success? <==>
            forall a :: Reconstruct(fundId, supplied, asOf, Some(a)).Success?
    ensures Reconstruct(fundId, supplied, asOf, None).Success? ==>
              var fund := Reconstruct(fundId, supplied, asOf, None).value;
              var books := Replay(Ordered(supplied, asOf, None)).value;
              && fund.cash == SumMap(books.cash)
              && (forall a ::
                    var scoped := Reconstruct(fundId, supplied, asOf, Some(a)).value;
                    && scoped.cash == CashAt(books.cash, a)
                    && scoped.positions == Filter(StateOfAccount(a), fund.positions))
  {
    var ordered := Ordered(supplied, asOf, None);
    AccountsAreSeparate(fundId, supplied, asOf);
    ReconstructIsReplay(fundId, supplied, asOf, None);
    forall a {
      ReconstructIsReplay(fundId, supplied, asOf, Some(a));
    }
    assert Reconstruct(fundId, supplied, asOf, None).Success? <==> Replay(ordered).Success?;
    if Replay(ordered).Success? {
      var books := Replay(ordered).value;
      ReportedCash(fundId, None, asOf, ordered, books);
      forall a
        ensures var scoped := Reconstruct(fundId, supplied, asOf, Some(a)).value;
                && scoped.cash == CashAt(books.cash, a)
                && scoped.positions ==
                     Filter(StateOfAccount(a), Reconstruct(fundId, supplied, asOf, None).value.positions)
      {
        ReconstructIsReplay(fundId, supplied, asOf, Some(a));
        ReportedCash(fundId, Some(a), asOf, Ordered(supplied, asOf, Some(a)), Project(books, a));
        CashOfOneAccount(books, a);
        PositionsOfProjection(books, a);
      }
    }
  }

  lemma InvalidInputFailsEveryScope(fundId: Id, supplied: seq<LedgerTransaction>, asOf: Instant, accountId: Option<Id>)
    requires !ValidInput(fundId, supplied)
    ensures Reconstruct(fundId, supplied, asOf, accountId).Failure?
  {
    AcceptanceMeansValid(fundId, supplied);
  }

  /**
   * Account separation, on what `reconstruct` returns: the fund-wide call succeeds exactly when every
   * account-scoped call does; each scoped result lists that account's positions (with their sources)
   * and cash as the fund-wide result has them; and the fund's cash is the sum over its accounts.
   */
  lemma ReconstructionSeparates(fundId: Id, supplied: seq<LedgerTransaction>, asOf: Instant)
    ensures Reconstruct(fundId, supplied, asOf, None).Success? <==>
            forall a :: Reconstruct(fundId, supplied, asOf, Some(a)).Success?
    ensures Reconstruct(fundId, supplied, asOf, None).Success? ==>
              var fund := Reconstruct(fundId, supplied, asOf, None).value;
              var books := Replay(Ordered(supplied, asOf, None)).value;
              && fund.cash == SumMap(books.cash)
              && (forall a ::
                    var scoped := Reconstruct(fundId, supplied, asOf, Some(a)).value;
                    && scoped.cash == CashAt(books.cash, a)
                    && scoped.positions == Filter(StateOfAccount(a), fund.positions))
  {
    if ValidInput(fundId, supplied) {
      ValidReconstructionSeparates(fundId, supplied, asOf);
    } else {
      InvalidInputFailsEveryScope(fundId, supplied, asOf, None);
      InvalidInputFailsEveryScope(fundId, supplied, asOf, Some(0));
    }
  }
}
