/** The moving-average cost basis, over histories that contain no reversal. */
module MovingAverage {
  import opened Wrappers
  import opened LedgerTypes
  import opened PortfolioEngine
  import opened Conservation

  ghost predicate ReversalFree(ts: seq<LedgerTransaction>) {
    forall t | t in ts :: !t.kind.Reversal?
  }

  /** A purchase or priced opening, which brings known cost into `key`. */
  predicate BringsCost(t: LedgerTransaction, key: Key) {
    && t.accountId == key.0 && t.instrumentId == Some(key.1)
    && t.quantity.Some? && t.unitPrice.Some?
    && (t.kind.Buy? || t.kind.OpeningPosition?)
  }

  /** What a purchase cost, trade fees included, or what an opening was valued at. */
  function Paid(t: LedgerTransaction): real
    requires t.quantity.Some? && t.unitPrice.Some?
  {
    t.quantity.value * t.unitPrice.value + (if t.kind.Buy? then t.fees else 0.0)
  }

  /** What one unit cost, trade fees included: `u` with `u * quantity == price * quantity + fees`. */
  ghost predicate UnitCostWithin(t: LedgerTransaction, lo: real, hi: real)
    requires t.quantity.Some? && t.unitPrice.Some?
  {
    lo * t.quantity.value <= Paid(t) <= hi * t.quantity.value
  }

  ghost predicate PurchasesWithin(ts: seq<LedgerTransaction>, key: Key, lo: real, hi: real) {
    forall t | t in ts && BringsCost(t, key) :: UnitCostWithin(t, lo, hi)
  }

  /** What a reversal-free replay keeps at every key. */
  ghost predicate SoundBasis(p: Position, lo: real, hi: real) {
    && p.quantity >= 0.0 && p.knownCost >= 0.0 && p.uncertainty >= 0
    && (p.quantity == 0.0 ==> p.knownCost == 0.0)
    && (p.uncertainty == 0 ==> lo * p.quantity <= p.knownCost <= hi * p.quantity)
  }

  lemma Proportion(cost: real, sold: real, held: real)
    requires 0.0 < sold <= held
    ensures cost - cost * sold / held == (cost / held) * (held - sold)
  {
    var average := cost / held;
    assert average * held == cost;
    assert cost * sold / held == average * sold by {
      assert cost * sold == (average * sold) * held;
    }
  }

  lemma Scaled(average: real, bound: real, held: real, rest: real)
    requires held > 0.0 && rest >= 0.0
    ensures bound * held <= average * held ==> bound * rest <= average * rest
    ensures average * held <= bound * held ==> average * rest <= bound * rest
  {
    if bound * held <= average * held {
      assert (average - bound) * held >= 0.0;
      assert average - bound >= 0.0;
      assert (average - bound) * rest >= 0.0;
    }
    if average * held <= bound * held {
      assert (bound - average) * held >= 0.0;
      assert bound - average >= 0.0;
      assert (bound - average) * rest >= 0.0;
    }
  }

  lemma ProductNonnegative(x: real, y: real)
    requires x >= 0.0 && y >= 0.0
    ensures x * y >= 0.0
  {
  }

  /** A sale of a known holding takes basis in proportion, so it never overdraws or shifts the average. */
  lemma SaleIsProportional(p: Position, sold: real, rest: real, remaining: real, lo: real, hi: real)
    requires SoundBasis(p, lo, hi) && p.uncertainty == 0 && 0.0 < sold <= p.quantity
    requires rest == p.knownCost - p.knownCost * sold / p.quantity && remaining == p.quantity - sold
    ensures rest >= 0.0
    ensures sold == p.quantity ==> rest == 0.0
    ensures lo * remaining <= rest <= hi * remaining
  {
    var average := p.knownCost / p.quantity;
    Proportion(p.knownCost, sold, p.quantity);
    assert average * p.quantity == p.knownCost;
    Scaled(average, lo, p.quantity, remaining);
    Scaled(average, hi, p.quantity, remaining);
    ProductNonnegative(average, remaining);
  }

  lemma PurchaseKeepsBounds(lo: real, hi: real, held: real, cost: real, bought: real, paid: real)
    requires lo * held <= cost <= hi * held && lo * bought <= paid <= hi * bought
    ensures lo * (held + bought) <= cost + paid <= hi * (held + bought)
  {
  }

  lemma SaleMovesBasis(id: Id, p: Position, t: LedgerTransaction, instrument: Id, sold: real, price: real, lo: real,
                       hi: real)
    requires SoundBasis(p, lo, hi) && sold > 0.0 && SaleEffect(t, instrument, sold, price, p).Success?
    ensures var r := MovePosition(id, SaleEffect(t, instrument, sold, price, p).value, p);
            r.Success? && SoundBasis(r.value, lo, hi)
  {
    if p.uncertainty == 0 {
      var rest := p.knownCost - p.knownCost * sold / p.quantity;
      SaleIsProportional(p, sold, rest, p.quantity - sold, lo, hi);
      var e := SaleEffect(t, instrument, sold, price, p).value;
      assert e.costDelta == rest - p.knownCost && e.quantityDelta == -sold;
    }
  }

  lemma SoundSale(id: Id, p: Position, t: LedgerTransaction, positions: map<Key, Position>, key: Key, lo: real,
                  hi: real)
    requires ShapeError(t).None? && t.kind.Sell? && key == (t.accountId, t.instrumentId.value)
    requires p == PositionAt(positions, key) && SoundBasis(p, lo, hi)
    requires ApplyOriginal(t, positions).Success?
    ensures var r := ApplyPositionEffect(id, ApplyOriginal(t, positions).value, positions);
            r.Success? && SoundBasis(PositionAt(r.value, key), lo, hi)
  {
    SaleMovesBasis(id, p, t, key.1, t.quantity.value, t.unitPrice.value, lo, hi);
  }

  /** A purchase that leaves the cost nonnegative keeps the basis sound, whatever the sign of what was paid. */
  lemma PurchaseIsSound(p: Position, bought: real, paid: real, uncertain: int, sources: seq<Id>, lo: real, hi: real)
    requires SoundBasis(p, lo, hi) && bought > 0.0 && p.knownCost + paid >= 0.0 && uncertain >= 0
    requires uncertain == 0 ==> lo * bought <= paid <= hi * bought
    ensures SoundBasis(Position(p.quantity + bought, p.knownCost + paid, p.uncertainty + uncertain, sources), lo, hi)
  {
    if p.uncertainty == 0 && uncertain == 0 {
      PurchaseKeepsBounds(lo, hi, p.quantity, p.knownCost, bought, paid);
    }
  }

  /** What a purchase or opening brings, without regard to the sign of its price. */
  lemma PurchaseEffect(t: LedgerTransaction, positions: map<Key, Position>)
    requires ShapeError(t).None? && (t.kind.Buy? || t.kind.OpeningPosition?)
    ensures ApplyOriginal(t, positions).Success?
    ensures var e := ApplyOriginal(t, positions).value;
            && t.quantity.Some? && e.quantityDelta == t.quantity.value > 0.0
            && (t.unitPrice.Some? ==> e.uncertaintyDelta == 0 && e.costDelta == Paid(t))
            && (t.unitPrice.None? ==> e.uncertaintyDelta == 1 && e.costDelta == 0.0)
            && e.accountId == t.accountId && e.instrumentId == t.instrumentId && t.instrumentId.Some?
  {
  }

  lemma SoundPurchase(id: Id, p: Position, t: LedgerTransaction, positions: map<Key, Position>, key: Key,
                      lo: real, hi: real)
    requires ShapeError(t).None? && (t.kind.Buy? || t.kind.OpeningPosition?)
    requires key == (t.accountId, t.instrumentId.value)
    requires p == PositionAt(positions, key) && SoundBasis(p, lo, hi)
    requires BringsCost(t, key) ==> UnitCostWithin(t, lo, hi)
    ensures ApplyOriginal(t, positions).Success?
    ensures var r := ApplyPositionEffect(id, ApplyOriginal(t, positions).value, positions);
            r.Success? ==> SoundBasis(PositionAt(r.value, key), lo, hi)
  {
    PurchaseEffect(t, positions);
    var e := ApplyOriginal(t, positions).value;
    if MovePosition(id, e, p).Success? {
      PurchaseIsSound(p, e.quantityDelta, e.costDelta, e.uncertaintyDelta, p.sources + [id], lo, hi);
    }
  }

  lemma SoundStep(b: Books, t: LedgerTransaction, key: Key, lo: real, hi: real)
    requires ShapeError(t).None? && !t.kind.Reversal?
    requires SoundBasis(PositionAt(b.positions, key), lo, hi)
    requires BringsCost(t, key) ==> UnitCostWithin(t, lo, hi)
    ensures Step(b, t).Success? ==> SoundBasis(PositionAt(Step(b, t).value.positions, key), lo, hi)
  {
    if Step(b, t).Success? && HeldInstrument(t) == Some(key.1) && t.accountId == key.0 {
      if t.kind.Sell? {
        SoundSale(t.id, PositionAt(b.positions, key), t, b.positions, key, lo, hi);
      } else {
        SoundPurchase(t.id, PositionAt(b.positions, key), t, b.positions, key, lo, hi);
      }
    }
  }

  /**
   * Without reversals, zero quantity means zero cost, and while the basis is known the average lies
   * between the cheapest and the dearest unit cost ever brought in: every pair of bounds on those
   * unit costs also bounds the average.
   */
  lemma {:induction false} AverageIsSound(fundId: Id, ts: seq<LedgerTransaction>, key: Key, lo: real, hi: real)
    requires ValidInput(fundId, ts) && ReversalFree(ts) && Replay(ts).Success?
    requires PurchasesWithin(ts, key, lo, hi)
    ensures SoundBasis(PositionAt(Replay(ts).value.positions, key), lo, hi)
  {
    if ts == [] {
    } else {
      var front, t := ts[..|ts| - 1], ts[|ts| - 1];
      ValidFront(fundId, ts);
      LastOf(ts);
      AverageIsSound(fundId, front, key, lo, hi);
      SoundStep(Replay(front).value, t, key, lo, hi);
    }
  }

  /** Quantity, cost and counter as a reversal-free replay keeps them, bounds aside. */
  predicate SoundFigures(p: Position) {
    p.quantity >= 0.0 && p.knownCost >= 0.0 && p.uncertainty >= 0 && (p.quantity == 0.0 ==> p.knownCost == 0.0)
  }

  lemma NoBounds(p: Position)
    requires SoundFigures(p)
    ensures SoundBasis(p, 0.0, if p.quantity == 0.0 then 0.0 else p.knownCost / p.quantity)
  {
  }

  /** An opening whose price is negative, which the engine's own shape check lets through. */
  predicate NegativelyPriced(t: LedgerTransaction) {
    t.kind.OpeningPosition? && t.unitPrice.Some? && t.unitPrice.value < 0.0
  }

  ghost predicate OpeningPriceNonnegative(t: LedgerTransaction) {
    !NegativelyPriced(t)
  }

  lemma PaidNonnegative(t: LedgerTransaction)
    requires ShapeError(t).None? && (t.kind.Buy? || t.kind.OpeningPosition?) && t.fees >= 0.0
    requires t.quantity.Some? && t.unitPrice.Some? && !NegativelyPriced(t)
    ensures Paid(t) >= 0.0
  {
    ProductNonnegative(t.quantity.value, t.unitPrice.value);
  }

  function TradeKey(t: LedgerTransaction): Key {
    (t.accountId, t.instrumentId.GetOr(0))
  }

  /** A sale of more than the transactions before it, by their own quantities, have brought to its key. */
  predicate Oversells(ts: seq<LedgerTransaction>, i: nat)
    requires i < |ts|
  {
    ts[i].kind.Sell? && ts[i].quantity.GetOr(0.0) > LiveSum(ts[..i], QuantityWeight(TradeKey(ts[i])))
  }

  /** A negatively priced opening that takes more cost out of its key than is there. */
  predicate Overdraws(b: Books, t: LedgerTransaction) {
    NegativelyPriced(t) && PositionAt(b.positions, TradeKey(t)).knownCost + FieldCost(t) < 0.0
  }

  /** The error with which a replay stops at a transaction of its own. */
  function StopError(t: LedgerTransaction): EngineError {
    if t.kind.Sell? then NegativeHolding(t.id) else NegativeCostBasis(t.id)
  }

  /** The sale's own basis removal never overdraws known cost; only a negative opening price or a reversal can. */
  lemma StepFailsExactly(b: Books, t: LedgerTransaction)
    requires ShapeError(t).None? && t.fees >= 0.0 && !t.kind.Reversal?
    requires SoundFigures(PositionAt(b.positions, TradeKey(t)))
    ensures Step(b, t).Failure? <==>
            || (t.kind.Sell? && t.quantity.GetOr(0.0) > PositionAt(b.positions, TradeKey(t)).quantity)
            || Overdraws(b, t)
    ensures Step(b, t).Failure? ==> Step(b, t) == Failure(StopError(t))
  {
    var key := TradeKey(t);
    var p := PositionAt(b.positions, key);
    NoBounds(p);
    if t.kind.Sell? {
      if ApplyOriginal(t, b.positions).Success? {
        SoundSale(t.id, p, t, b.positions, key, 0.0, if p.quantity == 0.0 then 0.0 else p.knownCost / p.quantity);
      }
    } else if t.kind.Buy? || t.kind.OpeningPosition? {
      PurchaseEffect(t, b.positions);
      if t.unitPrice.Some? && !NegativelyPriced(t) {
        PaidNonnegative(t);
      }
    }
  }

  /** The i-th transaction is the one that stops a reversal-free replay: it oversells or overdraws. */
  ghost predicate StopsAt(ts: seq<LedgerTransaction>, i: nat) {
    && i < |ts| && Replay(ts[..i]).Success?
    && (Oversells(ts, i) || Overdraws(Replay(ts[..i]).value, ts[i]))
  }

  lemma LastStops(fundId: Id, ts: seq<LedgerTransaction>)
    requires ts != [] && ValidInput(fundId, ts) && ReversalFree(ts) && Replay(ts[..|ts| - 1]).Success?
    ensures Replay(ts).Failure? <==> StopsAt(ts, |ts| - 1)
    ensures Replay(ts).Failure? ==> Replay(ts) == Failure(StopError(ts[|ts| - 1]))
  {
    var front, t := ts[..|ts| - 1], ts[|ts| - 1];
    ValidFront(fundId, ts);
    LastOf(ts);
    FrontIsSound(fundId, front, TradeKey(t));
    QuantityConserved(fundId, front, TradeKey(t));
    StepFailsExactly(Replay(front).value, t);
  }

  lemma StopsInFront(ts: seq<LedgerTransaction>, i: nat)
    requires i + 1 < |ts|
    ensures StopsAt(ts, i) <==> StopsAt(ts[..|ts| - 1], i)
  {
    assert ts[..|ts| - 1][..i] == ts[..i];
  }

  lemma {:induction false} StopsThere(fundId: Id, ts: seq<LedgerTransaction>, i: nat)
    requires ValidInput(fundId, ts) && ReversalFree(ts) && StopsAt(ts, i)
    ensures Replay(ts) == Failure(StopError(ts[i]))
  {
    if i == |ts| - 1 {
      LastStops(fundId, ts);
    } else {
      ValidFront(fundId, ts);
      LastOf(ts);
      StopsInFront(ts, i);
      StopsThere(fundId, ts[..|ts| - 1], i);
    }
  }

  lemma {:induction false} WhereItStops(fundId: Id, ts: seq<LedgerTransaction>) returns (i: nat)
    requires ValidInput(fundId, ts) && ReversalFree(ts) && Replay(ts).Failure?
    ensures StopsAt(ts, i)
  {
    ValidFront(fundId, ts);
    LastOf(ts);
    if Replay(ts[..|ts| - 1]).Success? {
      LastStops(fundId, ts);
      i := |ts| - 1;
    } else {
      i := WhereItStops(fundId, ts[..|ts| - 1]);
      StopsInFront(ts, i);
    }
  }

  /**
   * A reversal-free history fails exactly when one of its sales oversells or one of its negatively priced openings
   * overdraws, and that transaction is the one reported.
   */
  lemma ReversalFreeFailsExactly(fundId: Id, ts: seq<LedgerTransaction>)
    requires ValidInput(fundId, ts) && ReversalFree(ts)
    ensures Replay(ts).Failure? <==> exists i: nat :: StopsAt(ts, i)
    ensures forall i: nat | StopsAt(ts, i) :: Replay(ts) == Failure(StopError(ts[i]))
  {
    forall i: nat | StopsAt(ts, i)
      ensures Replay(ts) == Failure(StopError(ts[i]))
    {
      StopsThere(fundId, ts, i);
    }
    if Replay(ts).Failure? {
      var i := WhereItStops(fundId, ts);
    }
  }

  lemma OversellingFails(fundId: Id, ts: seq<LedgerTransaction>, i: nat)
    requires ValidInput(fundId, ts) && ReversalFree(ts) && i < |ts| && Oversells(ts, i)
    ensures Replay(ts).Failure?
  {
    if Replay(ts).Success? {
      ReplayPrefix(ts, i);
      StopsThere(fundId, ts, i);
    }
  }

  /** So without negative prices it fails exactly when some sale oversells, by the transactions' own quantities. */
  lemma OnlyOversellingFails(fundId: Id, ts: seq<LedgerTransaction>)
    requires ValidInput(fundId, ts) && ReversalFree(ts)
    requires forall t | t in ts :: OpeningPriceNonnegative(t)
    ensures Replay(ts).Failure? <==> exists i :: 0 <= i < |ts| && Oversells(ts, i)
    ensures Replay(ts).Failure? ==> Replay(ts).error.NegativeHolding?
  {
    if Replay(ts).Failure? {
      var i := WhereItStops(fundId, ts);
      assert OpeningPriceNonnegative(ts[i]);
      StopsThere(fundId, ts, i);
    }
    if i :| 0 <= i < |ts| && Oversells(ts, i) {
      OversellingFails(fundId, ts, i);
    }
  }

  lemma {:induction false} FrontIsSound(fundId: Id, ts: seq<LedgerTransaction>, key: Key)
    requires ValidInput(fundId, ts) && ReversalFree(ts) && Replay(ts).Success?
    ensures SoundFigures(PositionAt(Replay(ts).value.positions, key))
  {
    var lo, hi := CostBounds(ts, key);
    AverageIsSound(fundId, ts, key, lo, hi);
  }

  lemma WidenBounds(t: LedgerTransaction, lo: real, hi: real, lower: real, higher: real)
    requires t.quantity.Some? && t.unitPrice.Some? && t.quantity.value > 0.0
    requires UnitCostWithin(t, lo, hi) && lower <= lo && hi <= higher
    ensures UnitCostWithin(t, lower, higher)
  {
    assert lower * t.quantity.value <= lo * t.quantity.value;
    assert hi * t.quantity.value <= higher * t.quantity.value;
  }

  lemma OwnUnitCost(t: LedgerTransaction) returns (unit: real)
    requires t.quantity.Some? && t.unitPrice.Some? && t.quantity.value > 0.0
    ensures UnitCostWithin(t, unit, unit)
  {
    unit := Paid(t) / t.quantity.value;
    assert unit * t.quantity.value == Paid(t);
  }

  /** Finitely many purchases always have a common pair of bounds. */
  lemma {:induction false} CostBounds(ts: seq<LedgerTransaction>, key: Key) returns (lo: real, hi: real)
    requires forall t | t in ts :: t.quantity.Some? ==> t.quantity.value > 0.0 || !BringsCost(t, key)
    ensures PurchasesWithin(ts, key, lo, hi)
  {
    if ts == [] {
      lo, hi := 0.0, 0.0;
    } else {
      var front, t := ts[..|ts| - 1], ts[|ts| - 1];
      LastOf(ts);
      lo, hi := CostBounds(front, key);
      if BringsCost(t, key) {
        var unit := OwnUnitCost(t);
        var lower, higher := if unit < lo then unit else lo, if unit > hi then unit else hi;
        forall x | x in ts && BringsCost(x, key)
          ensures UnitCostWithin(x, lower, higher)
        {
          if x in front {
            WidenBounds(x, lo, hi, lower, higher);
          } else {
            WidenBounds(x, unit, unit, lower, higher);
          }
        }
        lo, hi := lower, higher;
      }
    }
  }

  /**
   * What a sale moves: proceeds net of fees into its account's cash, its quantity out of the position, and known
   * cost in proportion; while the basis is uncertain, all cost or none, and one more on the counter.
   */
  lemma SaleMoves(b: Books, t: LedgerTransaction)
    requires ShapeError(t).None? && t.kind.Sell? && Step(b, t).Success?
    ensures var key, sold := (t.accountId, t.instrumentId.value), t.quantity.value;
            var p, q := PositionAt(b.positions, key), PositionAt(Step(b, t).value.positions, key);
            && 0.0 < sold <= p.quantity
            && CashAt(Step(b, t).value.cash, t.accountId) ==
                 CashAt(b.cash, t.accountId) + sold * t.unitPrice.value - t.fees
            && q.quantity == p.quantity - sold
            && (p.uncertainty == 0 ==>
                q.uncertainty == 0 && q.knownCost == p.knownCost - p.knownCost * sold / p.quantity)
            && (p.uncertainty != 0 ==>
                  && q.uncertainty == p.uncertainty + 1
                  && q.knownCost == if sold == p.quantity then 0.0 else p.knownCost)
  {
  }

  lemma Cancel(x: real, y: real)
    requires y != 0.0
    ensures (x * y) / y == x
  {
  }

  lemma RatioKept(p: Position, sold: real, q: Position)
    requires 0.0 < sold <= p.quantity && q.quantity == p.quantity - sold
    requires q.knownCost == p.knownCost - p.knownCost * sold / p.quantity
    ensures q.quantity > 0.0 ==> q.knownCost / q.quantity == p.knownCost / p.quantity
  {
    Proportion(p.knownCost, sold, p.quantity);
    if q.quantity > 0.0 {
      Cancel(p.knownCost / p.quantity, q.quantity);
    }
  }

  lemma SaleStepKeepsAverage(b: Books, sale: LedgerTransaction)
    requires ShapeError(sale).None? && sale.kind.Sell? && Step(b, sale).Success?
    requires PositionAt(b.positions, TradeKey(sale)).uncertainty >= 0
    ensures var p := PositionAt(b.positions, TradeKey(sale));
            var q := PositionAt(Step(b, sale).value.positions, TradeKey(sale));
            p.quantity > 0.0
            && (q.uncertainty == 0 && q.quantity > 0.0 ==> q.knownCost / q.quantity == p.knownCost / p.quantity)
  {
    SaleMoves(b, sale);
    if PositionAt(b.positions, TradeKey(sale)).uncertainty == 0 {
      RatioKept(PositionAt(b.positions, TradeKey(sale)), sale.quantity.value,
                PositionAt(Step(b, sale).value.positions, TradeKey(sale)));
    }
  }

  /**
   * In any history, reversals included, a sale that leaves a remainder with known basis leaves the
   * average cost where it was.
   */
  lemma SaleKeepsAverage(fundId: Id, ts: seq<LedgerTransaction>)
    requires ts != [] && ValidInput(fundId, ts) && Replay(ts).Success?
    requires ts[|ts| - 1].kind.Sell?
    ensures Replay(ts[..|ts| - 1]).Success?
    ensures var before := PositionAt(Replay(ts[..|ts| - 1]).value.positions, TradeKey(ts[|ts| - 1]));
            var after := PositionAt(Replay(ts).value.positions, TradeKey(ts[|ts| - 1]));
            && before.quantity > 0.0
            && (after.uncertainty == 0 && after.quantity > 0.0 ==>
                  after.knownCost / after.quantity == before.knownCost / before.quantity)
  {
    var front, sale := ts[..|ts| - 1], ts[|ts| - 1];
    ValidFront(fundId, ts);
    UncertaintyCounts(fundId, front);
    SaleStepKeepsAverage(Replay(front).value, sale);
  }
}
