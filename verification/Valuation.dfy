/**
 * Valuation (app/valuation/engine.py, `ValuationEngine`; app/valuation/service.py) and the identity
 * it satisfies together with the replay and the realized P&L: every dollar of portfolio value is
 * attributed to a live fact of the ledger.
 */
module Valuation {
  import opened Wrappers
  import opened Sums
  import opened LedgerTypes
  import opened PortfolioEngine
  import opened Conservation
  import opened RealizedPnl
  import opened ReplayEngine
  import AccountSeparation
  import MovingAverage
  import StrandedCost

  datatype PriceQuote = PriceQuote(price: real, currency: string)

  datatype ValuationError = MissingPrice(instrumentId: Id) | CurrencyMismatch(instrumentId: Id)

  datatype PositionValuation = PositionValuation(
    accountId: Id,
    instrumentId: Id,
    quantity: real,
    price: real,
    marketValue: real,
    costBasis: Option<real>,
    unrealized: Option<real>)

  datatype ValuationResult = ValuationResult(
    fundId: Id,
    asOf: Instant,
    cashValue: real,
    securitiesValue: real,
    portfolioValue: real,
    unrealized: Option<real>,
    realized: Option<real>,
    positions: seq<PositionValuation>,
    inputRecord: CanonicalInput)

  function Priced(p: PositionState, price: real): PositionValuation {
    PositionValuation(
      p.accountId, p.instrumentId, p.quantity, price, p.quantity * price, p.totalCostBasis,
      if p.totalCostBasis.None? then None else Some(p.quantity * price - p.totalCostBasis.value))
  }

  function QuoteError(quotes: map<Id, PriceQuote>, p: PositionState): Option<ValuationError> {
    if p.instrumentId !in quotes then Some(MissingPrice(p.instrumentId))
    else if quotes[p.instrumentId].currency != USD then Some(CurrencyMismatch(p.instrumentId))
    else None
  }

  function MarketValue(): PositionValuation -> real {
    (p: PositionValuation) => p.marketValue
  }

  function Unrealized(): PositionValuation -> real {
    (p: PositionValuation) => p.unrealized.GetOr(0.0)
  }

  /** What a valuation of `state` at `quotes` is, position by position and in total. */
  ghost predicate IsValuation(state: PortfolioState, quotes: map<Id, PriceQuote>, realized: Option<real>,
                              v: ValuationResult)
  {
    && v.fundId == state.fundId && v.asOf == state.asOf && v.inputRecord == state.inputRecord
    && v.cashValue == state.cash && v.realized == realized
    && |v.positions| == |state.positions|
    && (forall i | 0 <= i < |v.positions| ::
          QuoteError(quotes, state.positions[i]).None?
          && v.positions[i] == Priced(state.positions[i], quotes[state.positions[i].instrumentId].price))
    && v.securitiesValue == SumBy(v.positions, MarketValue())
    && v.portfolioValue == v.cashValue + v.securitiesValue
    && v.unrealized ==
       if exists p :: p in v.positions && p.unrealized.None? then None else Some(SumBy(v.positions, Unrealized()))
  }

  /** `ValuationEngine.value`: the first position without a usable quote fails the call. */
  method RunValue(state: PortfolioState, quotes: map<Id, PriceQuote>, realized: Option<real>)
    returns (r: Result<ValuationResult, ValuationError>)
    ensures r.Success? <==>
            forall p | p in state.positions ::
              p.instrumentId in quotes && quotes[p.instrumentId].currency == "USD"
    ensures r.Success? ==> IsValuation(state, quotes, realized, r.value)
    ensures r.Success? ==> ValuedInFields(state, quotes, r.value)
    ensures r.Failure? ==>
              exists i :: && 0 <= i < |state.positions| && FailsAt(state.positions[i].instrumentId, quotes, r.error)
                          && forall j | 0 <= j < i :: QuoteError(quotes, state.positions[j]).None?
  {
    var positions: seq<PositionValuation> := [];
    var securities, unrealized, known := 0.0, 0.0, true;
    var i := 0;
    while i < |state.positions|
      invariant 0 <= i <= |state.positions| && |positions| == i
      invariant forall j | 0 <= j < i ::
                  QuoteError(quotes, state.positions[j]).None?
                  && positions[j] == Priced(state.positions[j], quotes[state.positions[j].instrumentId].price)
      invariant securities == SumBy(positions, MarketValue())
      invariant unrealized == SumBy(positions, Unrealized())
      invariant known <==> forall p | p in positions :: p.unrealized.Some?
    {
      var p := state.positions[i];
      var problem := QuoteError(quotes, p);
      if problem.Some? {
        return Failure(problem.value);
      }
      var valued := Priced(p, quotes[p.instrumentId].price);
      ghost var before := positions;
      positions := positions + [valued];
      assert positions[..|positions| - 1] == before;
      securities := securities + valued.marketValue;
      unrealized := unrealized + valued.unrealized.GetOr(0.0);
      known := known && valued.unrealized.Some?;
      i := i + 1;
    }
    var v := ValuationResult(
      state.fundId, state.asOf, state.cash, securities, state.cash + securities,
      if known then Some(unrealized) else None, realized, positions, state.inputRecord);
    ValuationIsInFields(state, quotes, realized, v);
    return Success(v);
  }

  // ---------------------------------------------------------------- a valuation in its own figures

  /** Every position at its quoted price: quantity times price, less the reported basis if there is one. */
  ghost predicate ValuedInFields(state: PortfolioState, quotes: map<Id, PriceQuote>, v: ValuationResult) {
    && |v.positions| == |state.positions|
    && (forall i | 0 <= i < |v.positions| ::
          var p, valued := state.positions[i], v.positions[i];
          && p.instrumentId in quotes && quotes[p.instrumentId].currency == "USD"
          && valued.accountId == p.accountId && valued.instrumentId == p.instrumentId && valued.quantity == p.quantity
          && valued.price == quotes[p.instrumentId].price
          && valued.marketValue == p.quantity * quotes[p.instrumentId].price
          && valued.costBasis == p.totalCostBasis
          && (valued.unrealized.Some? <==> p.totalCostBasis.Some?)
          && (valued.unrealized.Some? ==>
                valued.unrealized.value == p.quantity * quotes[p.instrumentId].price - p.totalCostBasis.value))
    && v.portfolioValue == state.cash + SumBy(state.positions, Worth(quotes))
    && (v.unrealized.Some? <==> AllKnown(state.positions))
    && (v.unrealized.Some? ==>
          v.unrealized.value == SumBy(state.positions, Worth(quotes)) - SumBy(state.positions, Basis()))
  }

  predicate FailsAt(instrumentId: Id, quotes: map<Id, PriceQuote>, e: ValuationError) {
    if instrumentId !in quotes then e == MissingPrice(instrumentId)
    else quotes[instrumentId].currency != "USD" && e == CurrencyMismatch(instrumentId)
  }

  /** What a holding is worth at its quote. */
  function Worth(quotes: map<Id, PriceQuote>): PositionState -> real {
    (p: PositionState) => if p.instrumentId in quotes then p.quantity * quotes[p.instrumentId].price else 0.0
  }

  lemma {:induction false} WorthOfPriced(states: seq<PositionState>, valued: seq<PositionValuation>,
                                         quotes: map<Id, PriceQuote>)
    requires |states| == |valued|
    requires forall i | 0 <= i < |states| ::
               QuoteError(quotes, states[i]).None?
               && valued[i] == Priced(states[i], quotes[states[i].instrumentId].price)
    ensures SumBy(valued, MarketValue()) == SumBy(states, Worth(quotes))
  {
    if states == [] {
    } else {
      WorthOfPriced(states[..|states| - 1], valued[..|valued| - 1], quotes);
    }
  }

  lemma ValuationIsInFields(state: PortfolioState, quotes: map<Id, PriceQuote>, realized: Option<real>,
                            v: ValuationResult)
    requires IsValuation(state, quotes, realized, v)
    ensures ValuedInFields(state, quotes, v)
  {
    WorthOfPriced(state.positions, v.positions, quotes);
    UnrealizedKnown(state, quotes, realized, v);
    if AllKnown(state.positions) {
      GainOverBasis(state.positions, v.positions, quotes);
    }
  }

  // ---------------------------------------------------------------- what live facts contribute

  function OfKind(kind: Kind): LedgerTransaction -> real {
    (t: LedgerTransaction) => if t.kind == kind then t.amount.GetOr(0.0) else 0.0
  }

  /** The cost basis that a priced opening brings without any cash. */
  function PricedOpening(): LedgerTransaction -> real {
    (t: LedgerTransaction) => if t.kind.OpeningPosition? then FieldCost(t) else 0.0
  }

  /** Live capital and income: everything but trading gains. */
  function Contributed(ts: seq<LedgerTransaction>): real {
    LiveSum(ts, OfKind(OpeningCash)) + LiveSum(ts, OfKind(CashDeposit)) - LiveSum(ts, OfKind(CashWithdrawal))
    + LiveSum(ts, OfKind(Dividend)) - LiveSum(ts, OfKind(Fee)) + LiveSum(ts, PricedOpening())
  }

  function Costs(positions: map<Key, Position>): map<Key, real> {
    map k | k in positions :: positions[k].knownCost
  }

  function ClosedCosts(positions: map<Key, Position>): map<Key, real> {
    map k | k in positions :: if positions[k].quantity == 0.0 then positions[k].knownCost else 0.0
  }

  /** Known cost that reversals have left at keys whose quantity is zero. */
  ghost function Residual(b: Books): real {
    SumMap(ClosedCosts(b.positions))
  }

  // ---------------------------------------------------------------- cash plus cost is conserved

  function CashAndCost(): Effect -> real {
    (e: Effect) => e.cashDelta + (if e.instrumentId.Some? then e.costDelta else 0.0)
  }

  ghost function BookTotal(): Books -> real {
    (b: Books) => SumMap(b.cash) + SumMap(Costs(b.positions))
  }

  lemma CostsAfter(positions: map<Key, Position>, id: Id, e: Effect)
    requires e.instrumentId.Some? && ApplyPositionEffect(id, e, positions).Success?
    ensures SumMap(Costs(ApplyPositionEffect(id, e, positions).value)) == SumMap(Costs(positions)) + e.costDelta
  {
    var key := (e.accountId, e.instrumentId.value);
    var p := PositionAt(positions, key);
    var after := ApplyPositionEffect(id, e, positions).value;
    assert Costs(after) == Costs(positions)[key := p.knownCost + e.costDelta];
    SumMapUpdate(Costs(positions), key, p.knownCost + e.costDelta);
  }

  lemma TotalAccumulates()
    ensures Accumulates(CashAndCost(), BookTotal())
    ensures Odd(CashAndCost())
  {
    assert Costs(EMPTY_BOOKS.positions) == map[];
    forall b, t | Step(b, t).Success?
      ensures BookTotal()(Step(b, t).value) == BookTotal()(b) + CashAndCost()(EffectOf(b, t).value)
    {
      AccountSeparation.StepParts(b, t);
      var e := EffectOf(b, t).value;
      SumMapUpdate(b.cash, t.accountId, CashAt(b.cash, t.accountId) + e.cashDelta);
      if e.instrumentId.Some? {
        CostsAfter(b.positions, t.id, e);
      }
    }
  }

  // ---------------------------------------------------------------- splitting the live sum

  lemma {:induction false} SumByAdd<T>(s: seq<T>, u: T -> real, v: T -> real, w: T -> real)
    requires forall x | x in s :: w(x) == u(x) + v(x)
    ensures SumBy(s, w) == SumBy(s, u) + SumBy(s, v)
  {
    if s == [] {
    } else {
      SumByAdd(s[..|s| - 1], u, v, w);
    }
  }

  lemma {:induction false} SumByNegate<T>(s: seq<T>, u: T -> real, w: T -> real)
    requires forall x | x in s :: w(x) == -u(x)
    ensures SumBy(s, w) == -SumBy(s, u)
  {
    if s == [] {
    } else {
      SumByNegate(s[..|s| - 1], u, w);
    }
  }

  function Minus(u: LedgerTransaction -> real): LedgerTransaction -> real {
    (t: LedgerTransaction) => -u(t)
  }

  function Plus(u: LedgerTransaction -> real, v: LedgerTransaction -> real): LedgerTransaction -> real {
    (t: LedgerTransaction) => u(t) + v(t)
  }

  lemma LivePlus(ts: seq<LedgerTransaction>, u: LedgerTransaction -> real, v: LedgerTransaction -> real)
    ensures LiveSum(ts, Plus(u, v)) == LiveSum(ts, u) + LiveSum(ts, v)
  {
    var r := Targets(ts);
    SumByAdd(ts, LiveWeight(r, u), LiveWeight(r, v), LiveWeight(r, Plus(u, v)));
  }

  lemma LiveMinus(ts: seq<LedgerTransaction>, u: LedgerTransaction -> real)
    ensures LiveSum(ts, Minus(u)) == -LiveSum(ts, u)
  {
    SumByNegate(ts, LiveWeight(Targets(ts), u), LiveWeight(Targets(ts), Minus(u)));
  }

  /** Capital and income as one signed weight. */
  function Inflow(): LedgerTransaction -> real {
    Plus(Plus(Plus(Plus(Plus(OfKind(OpeningCash), OfKind(CashDeposit)), Minus(OfKind(CashWithdrawal))),
                   OfKind(Dividend)), Minus(OfKind(Fee))), PricedOpening())
  }

  lemma ContributedIsLive(ts: seq<LedgerTransaction>)
    ensures LiveSum(ts, Inflow()) == Contributed(ts)
  {
    var a := Plus(OfKind(OpeningCash), OfKind(CashDeposit));
    var b := Plus(a, Minus(OfKind(CashWithdrawal)));
    var c := Plus(b, OfKind(Dividend));
    var d := Plus(c, Minus(OfKind(Fee)));
    LivePlus(ts, OfKind(OpeningCash), OfKind(CashDeposit));
    LivePlus(ts, a, Minus(OfKind(CashWithdrawal)));
    LiveMinus(ts, OfKind(CashWithdrawal));
    LivePlus(ts, b, OfKind(Dividend));
    LivePlus(ts, c, Minus(OfKind(Fee)));
    LiveMinus(ts, OfKind(Fee));
    LivePlus(ts, d, PricedOpening());
  }

  /** A live original adds its inflow plus, if it is a sale, its recorded gain. */
  lemma EffectSplits(t: LedgerTransaction, e: Effect)
    requires Matches(e, t) && ShapeError(t).None? && !t.kind.Reversal?
    requires t.kind.Sell? ==> e.uncertaintyDelta == 0
    ensures CashAndCost()(e) == Inflow()(t) + KnownGain()(e)
  {
  }

  lemma LiveTotal(fundId: Id, ts: seq<LedgerTransaction>)
    requires ValidInput(fundId, ts) && Replay(ts).Success?
    requires LiveUnknownSales(Replay(ts).value) == {}
    ensures var b := Replay(ts).value;
            SumMap(b.cash) + SumMap(Costs(b.positions)) ==
            Contributed(ts) + LiveSum(ts, EffectWeight(b.effects, KnownGain()))
  {
    var b := Replay(ts).value;
    TotalAccumulates();
    Conserved(fundId, ts, CashAndCost(), BookTotal());
    ReplayRecords(fundId, ts);
    var total, gain := EffectWeight(b.effects, CashAndCost()), EffectWeight(b.effects, KnownGain());
    var r := Targets(ts);
    forall t | t in ts
      ensures LiveWeight(r, total)(t) == LiveWeight(r, Inflow())(t) + LiveWeight(r, gain)(t)
    {
      if !t.kind.Reversal? && t.id !in r {
        assert t.id !in LiveUnknownSales(b);
        EffectSplits(t, b.effects[t.id]);
      }
    }
    SumByAdd(ts, LiveWeight(r, Inflow()), LiveWeight(r, gain), LiveWeight(r, total));
    ContributedIsLive(ts);
  }

  // ---------------------------------------------------------------- cost of what is held

  function Basis(): PositionState -> real {
    (p: PositionState) => p.totalCostBasis.GetOr(0.0)
  }

  function CostAt(positions: map<Key, Position>): Key -> real {
    (k: Key) => PositionAt(positions, k).knownCost
  }

  function ClosedCostAt(positions: map<Key, Position>): Key -> real {
    (k: Key) => if PositionAt(positions, k).quantity == 0.0 then PositionAt(positions, k).knownCost else 0.0
  }

  ghost predicate AllKnown(positions: seq<PositionState>) {
    forall p | p in positions :: p.totalCostBasis.Some?
  }

  lemma {:induction false} ListedBasis(keys: seq<Key>, positions: map<Key, Position>)
    requires AllKnown(ListPositions(keys, positions))
    ensures SumBy(keys, CostAt(positions)) ==
            SumBy(ListPositions(keys, positions), Basis()) + SumBy(keys, ClosedCostAt(positions))
  {
    if keys == [] {
    } else {
      var front, k := keys[..|keys| - 1], keys[|keys| - 1];
      var p := PositionAt(positions, k);
      var listed := ListPositions(front, positions);
      AccountSeparation.ListOne(front, k, positions);
      assert front + [k] == keys;
      assert forall x | x in listed :: x in ListPositions(keys, positions);
      ListedBasis(front, positions);
      if p.quantity == 0.0 {
        assert ListPositions(keys, positions) == listed;
      } else {
        var s := StateOf(k, p);
        assert s in ListPositions(keys, positions);
        assert (listed + [s])[..|listed|] == listed;
      }
    }
  }

  /** With every held basis known, the books' cost is the reported basis plus the residual. */
  lemma CostIsBasisPlusResidual(fundId: Id, accountId: Option<Id>, asOf: Instant, ordered: seq<LedgerTransaction>,
                                b: Books)
    requires AllKnown(Output(fundId, accountId, asOf, ordered, b).positions)
    ensures SumMap(Costs(b.positions)) ==
            SumBy(Output(fundId, accountId, asOf, ordered, b).positions, Basis()) + Residual(b)
  {
    var keys := SortedKeys(b.positions.Keys);
    SumMapListing(Costs(b.positions), keys, CostAt(b.positions));
    SumMapListing(ClosedCosts(b.positions), keys, ClosedCostAt(b.positions));
    ListedBasis(keys, b.positions);
  }

  lemma {:induction false} GainOverBasis(states: seq<PositionState>, valued: seq<PositionValuation>,
                                         quotes: map<Id, PriceQuote>)
    requires AllKnown(states) && |states| == |valued|
    requires forall i | 0 <= i < |valued| ::
               states[i].instrumentId in quotes && valued[i] == Priced(states[i], quotes[states[i].instrumentId].price)
    ensures SumBy(valued, MarketValue()) == SumBy(valued, Unrealized()) + SumBy(states, Basis())
  {
    if states == [] {
    } else {
      var n := |states| - 1;
      assert states[n] in states;
      GainOverBasis(states[..n], valued[..n], quotes);
    }
  }

  lemma UnrealizedKnown(state: PortfolioState, quotes: map<Id, PriceQuote>, realized: Option<real>, v: ValuationResult)
    requires IsValuation(state, quotes, realized, v)
    ensures v.unrealized.Some? <==> AllKnown(state.positions)
  {
    if v.unrealized.Some? {
      forall p | p in state.positions
        ensures p.totalCostBasis.Some?
      {
        var i :| 0 <= i < |state.positions| && state.positions[i] == p;
        assert v.positions[i] in v.positions;
      }
    } else {
      var p :| p in v.positions && p.unrealized.None?;
      var i :| 0 <= i < |v.positions| && v.positions[i] == p;
      assert state.positions[i] in state.positions;
    }
  }

  // ---------------------------------------------------------------- the identity

  /** The identity for a history as replayed, once realized P&L is the live sum of recorded gains. */
  lemma ReplayedValue(fundId: Id, accountId: Option<Id>, asOf: Instant, ordered: seq<LedgerTransaction>, b: Books,
                      quotes: map<Id, PriceQuote>, v: ValuationResult)
    requires ValidInput(fundId, ordered) && Replay(ordered) == Success(b)
    requires IsValuation(Output(fundId, accountId, asOf, ordered, b), quotes, v.realized, v)
    requires v.realized.Some? && v.unrealized.Some?
    requires LiveUnknownSales(b) == {}
    requires v.realized.value == LiveSum(ordered, EffectWeight(b.effects, KnownGain()))
    ensures v.portfolioValue == Contributed(ordered) + v.realized.value + v.unrealized.value - Residual(b)
  {
    var state := Output(fundId, accountId, asOf, ordered, b);
    UnrealizedKnown(state, quotes, v.realized, v);
    LiveTotal(fundId, ordered);
    CostIsBasisPlusResidual(fundId, accountId, asOf, ordered, b);
    GainOverBasis(state.positions, v.positions, quotes);
    AccountSeparation.ReportedCash(fundId, accountId, asOf, ordered, b);
  }

  /**
   * Profit attribution. For every accepted history that replays, whenever realized P&L is available
   * and every held basis is known, portfolio value is live capital and income, plus realized gains,
   * plus unrealized gains, less the known cost that reversals left on keys without quantity.
   */
  lemma ProfitAttribution(fundId: Id, supplied: seq<LedgerTransaction>, asOf: Instant, accountId: Option<Id>,
                          quotes: map<Id, PriceQuote>, v: ValuationResult)
    requires Reconstruct(fundId, supplied, asOf, accountId).Success?
    requires Calculate(fundId, supplied, asOf, accountId).Success?
    requires IsValuation(Reconstruct(fundId, supplied, asOf, accountId).value, quotes,
                         Calculate(fundId, supplied, asOf, accountId).value, v)
    requires v.realized.Some? && v.unrealized.Some?
    ensures Replay(Ordered(supplied, asOf, accountId)).Success?
    ensures v.portfolioValue ==
            Contributed(Ordered(supplied, asOf, accountId)) + v.realized.value + v.unrealized.value
            - Residual(Replay(Ordered(supplied, asOf, accountId)).value)
  {
    var ordered := Ordered(supplied, asOf, accountId);
    AcceptanceMeansValid(fundId, supplied);
    ReconstructIsReplay(fundId, supplied, asOf, accountId);
    OrderedValid(fundId, supplied, asOf, accountId);
    CalculateRefinesOnePass(fundId, supplied, asOf, accountId);
    ReplayedValue(fundId, accountId, asOf, ordered, Replay(ordered).value, quotes, v);
  }

  lemma ResidualCountsStranded(b: Books)
    requires forall k | k in b.positions :: b.positions[k].knownCost >= 0.0
    ensures Residual(b) >= 0.0
    ensures Residual(b) == 0.0 <==> forall k :: !StrandedCost.Stranded(PositionAt(b.positions, k))
  {
    var m := ClosedCosts(b.positions);
    SumMapNonnegative(m);
    if forall k :: !StrandedCost.Stranded(PositionAt(b.positions, k)) {
      forall k | k in m
        ensures m[k] == 0.0
      {
        assert PositionAt(b.positions, k) == b.positions[k];
      }
      SumMapZero(m);
    } else {
      var k: Key :| StrandedCost.Stranded(PositionAt(b.positions, k));
      assert k in m && m[k] > 0.0;
      SumMapRemove(m, k);
      SumMapNonnegative(m - {k});
    }
  }

  /** The residual is never negative, and zero exactly when no reversal has left a key stranded since. */
  lemma ResidualZeroExactly(fundId: Id, ts: seq<LedgerTransaction>)
    requires ValidInput(fundId, ts) && Replay(ts).Success?
    ensures Residual(Replay(ts).value) >= 0.0
    ensures Residual(Replay(ts).value) == 0.0 <==>
            forall key: Key, i: nat :: !StrandedCost.StrandedSince(ts, i, key)
  {
    var b := Replay(ts).value;
    forall k
      ensures PositionAt(b.positions, k).knownCost >= 0.0
      ensures StrandedCost.Stranded(PositionAt(b.positions, k)) <==> exists i :: StrandedCost.StrandedSince(ts, i, k)
    {
      BalancesNonnegative(ts, k);
      StrandedCost.StrandedByHistory(fundId, ts, k);
    }
    forall k | k in b.positions
      ensures b.positions[k].knownCost >= 0.0
    {
      assert PositionAt(b.positions, k) == b.positions[k];
    }
    ResidualCountsStranded(b);
    if Residual(b) == 0.0 {
      forall key: Key, i: nat
        ensures !StrandedCost.StrandedSince(ts, i, key)
      {
        assert !StrandedCost.Stranded(PositionAt(b.positions, key));
      }
    } else {
      var key: Key :| StrandedCost.Stranded(PositionAt(b.positions, key));
      var i: nat :| StrandedCost.StrandedSince(ts, i, key);
    }
  }

  /** Without reversals nothing is left behind. */
  lemma NoResidualWithoutReversals(fundId: Id, ts: seq<LedgerTransaction>)
    requires ValidInput(fundId, ts) && MovingAverage.ReversalFree(ts) && Replay(ts).Success?
    ensures Residual(Replay(ts).value) == 0.0
  {
    var positions := Replay(ts).value.positions;
    forall k | k in positions
      ensures positions[k].quantity == 0.0 ==> positions[k].knownCost == 0.0
    {
      MovingAverage.FrontIsSound(fundId, ts, k);
    }
    SumMapZero(ClosedCosts(positions));
  }

  datatype ServiceError = Engine(engine: EngineError) | Pricing(pricing: ValuationError)

  /**
   * `HistoricalValuationService.value_at`: reconstruct, calculate realized P&L, value. Its every
   * complete result satisfies the attribution identity.
   */
  method RunValueAt(fundId: Id, supplied: seq<LedgerTransaction>, asOf: Instant, accountId: Option<Id>,
                    quotes: map<Id, PriceQuote>)
    returns (r: Result<ValuationResult, ServiceError>)
    ensures r.Success? ==>
              && Reconstruct(fundId, supplied, asOf, accountId).Success?
              && Calculate(fundId, supplied, asOf, accountId).Success?
              && IsValuation(Reconstruct(fundId, supplied, asOf, accountId).value, quotes,
                             Calculate(fundId, supplied, asOf, accountId).value, r.value)
              && ValuedInFields(Reconstruct(fundId, supplied, asOf, accountId).value, quotes, r.value)
    ensures r.Success? && r.value.realized.Some? && r.value.unrealized.Some? ==>
              var ordered := Ordered(supplied, asOf, accountId);
              && Replay(ordered).Success?
              && r.value.portfolioValue ==
                 Contributed(ordered) + r.value.realized.value + r.value.unrealized.value -
                     Residual(Replay(ordered).value)
    ensures r.Failure? && r.error.Engine? ==> Reconstruct(fundId, supplied, asOf, accountId) == Failure(r.error.engine)
    ensures r.Failure? && r.error.Pricing? ==> Reconstruct(fundId, supplied, asOf, accountId).Success?
  {
    var state := RunReconstruct(fundId, supplied, asOf, accountId);
    if state.Failure? {
      return Failure(Engine(state.error));
    }
    PnlNeverFailsAfterReplay(fundId, supplied, asOf, accountId);
    var pnl := RunCalculate(fundId, supplied, asOf, accountId);
    var v := RunValue(state.value, quotes, pnl.value);
    if v.Failure? {
      return Failure(Pricing(v.error));
    }
    if v.value.realized.Some? && v.value.unrealized.Some? {
      ProfitAttribution(fundId, supplied, asOf, accountId, quotes, v.value);
    }
    return Success(v.value);
  }

  lemma PnlNeverFailsAfterReplay(fundId: Id, supplied: seq<LedgerTransaction>, asOf: Instant, accountId: Option<Id>)
    requires Reconstruct(fundId, supplied, asOf, accountId).Success?
    ensures Calculate(fundId, supplied, asOf, accountId).Success?
  {
    AcceptanceMeansValid(fundId, supplied);
    ReconstructIsReplay(fundId, supplied, asOf, accountId);
    CalculateRefinesOnePass(fundId, supplied, asOf, accountId);
  }
}
