/**
 * Three corners of the replay engine that its documentation does not lead one to expect: an uncertain basis
 * outlives a full liquidation, a reversal can strand cost at a zero quantity (`StrandedCost` says exactly when), and
 * the engine alone accepts an opening position with a negative price as long as its key holds the cost.
 */
module LedgerCorners {
  import opened Wrappers
  import opened LedgerTypes
  import opened PortfolioEngine

  predicate TradesKey(t: LedgerTransaction, key: Key) {
    t.accountId == key.0 && t.instrumentId == Some(key.1)
  }

  /**
   * Selling everything while the basis is uncertain removes the known cost but raises the counter, so a later
   * purchase at the same key still has no known basis.
   */
  lemma UncertaintyOutlivesLiquidation(b: Books, sale: LedgerTransaction, purchase: LedgerTransaction, key: Key)
    requires sale.kind.Sell? && TradesKey(sale, key) && Required(sale.unitPrice).Success?
    requires PositionAt(b.positions, key).uncertainty > 0 && PositionAt(b.positions, key).quantity > 0.0
    requires sale.quantity == Some(PositionAt(b.positions, key).quantity)
    requires purchase.kind.Buy? && TradesKey(purchase, key)
    requires Required(purchase.quantity).Success? && Required(purchase.unitPrice).Success?
    requires purchase.fees >= 0.0
    ensures Step(b, sale).Success?
    ensures var sold := PositionAt(Step(b, sale).value.positions, key);
            sold.quantity == 0.0 && sold.knownCost == 0.0
              && sold.uncertainty == PositionAt(b.positions, key).uncertainty + 1
    ensures Step(Step(b, sale).value, purchase).Success?
    ensures var held := PositionAt(Step(Step(b, sale).value, purchase).value.positions, key);
            held.quantity > 0.0 && StateOf(key, held).totalCostBasis.None? && StateOf(key, held).averageCost.None?
  {
    LiquidationRaisesCounter(b, sale, key);
    PurchaseKeepsCounter(Step(b, sale).value, purchase, key);
  }

  lemma LiquidationRaisesCounter(b: Books, sale: LedgerTransaction, key: Key)
    requires sale.kind.Sell? && TradesKey(sale, key) && Required(sale.unitPrice).Success?
    requires PositionAt(b.positions, key).uncertainty > 0 && PositionAt(b.positions, key).quantity > 0.0
    requires sale.quantity == Some(PositionAt(b.positions, key).quantity)
    ensures Step(b, sale).Success?
    ensures var sold := PositionAt(Step(b, sale).value.positions, key);
            sold.quantity == 0.0 && sold.knownCost == 0.0
              && sold.uncertainty == PositionAt(b.positions, key).uncertainty + 1
  {
  }

  lemma PurchaseKeepsCounter(b: Books, purchase: LedgerTransaction, key: Key)
    requires PositionAt(b.positions, key).quantity == 0.0 && PositionAt(b.positions, key).knownCost == 0.0
    requires PositionAt(b.positions, key).uncertainty > 0
    requires purchase.kind.Buy? && TradesKey(purchase, key)
    requires Required(purchase.quantity).Success? && Required(purchase.unitPrice).Success?
    requires purchase.fees >= 0.0
    ensures Step(b, purchase).Success?
    ensures var held := PositionAt(Step(b, purchase).value.positions, key);
            held.quantity == purchase.quantity.value && held.uncertainty == PositionAt(b.positions, key).uncertainty
  {
  }

  // ---------------------------------------------------------------- a stranded cost

  function Trade(id: Id, kind: Kind, price: real): LedgerTransaction {
    LedgerTransaction(id, 1, 2, kind, id, id, "manual", "x", Some(3), Some(10.0), Some(price), None, 0.0, USD, None,
                      None, None)
  }

  function Undo(id: Id, target: Id): LedgerTransaction {
    LedgerTransaction(id, 1, 2, Reversal, id, id, "manual", "x", None, None, None, None, 0.0, USD, None, None,
                      Some(target))
  }

  const HISTORY := [Trade(1, Buy, 10.0), Trade(2, Buy, 20.0), Trade(3, Sell, 30.0), Undo(4, 1)]
  const KEY: Key := (2, 3)

  predicate Holds(b: Books, quantity: real, cost: real) {
    KEY in b.positions && b.positions[KEY].quantity == quantity && b.positions[KEY].knownCost == cost
    && b.positions[KEY].uncertainty == 0
  }

  lemma FirstBuy(b: Books)
    requires b == EMPTY_BOOKS
    ensures Step(b, HISTORY[0]).Success?
    ensures var n := Step(b, HISTORY[0]).value;
            && Holds(n, 10.0, 100.0) && n.reversed == {}
            && 1 in n.effects && n.effects[1] == Effect(Buy, 2, Some(3), -100.0, 10.0, 100.0, 0)
  {
    var t := HISTORY[0];
    assert t == Trade(1, Buy, 10.0);
    assert EffectOf(b, t) == Success(Effect(Buy, 2, Some(3), -100.0, 10.0, 100.0, 0));
  }

  lemma SecondBuy(b: Books)
    requires Holds(b, 10.0, 100.0)
    ensures Step(b, HISTORY[1]).Success?
    ensures var n := Step(b, HISTORY[1]).value;
            Holds(n, 20.0, 300.0) && n.reversed == b.reversed
              && (1 in b.effects ==> 1 in n.effects && n.effects[1] == b.effects[1])
  {
  }

  lemma Sale(b: Books)
    requires Holds(b, 20.0, 300.0)
    ensures Step(b, HISTORY[2]).Success?
    ensures var n := Step(b, HISTORY[2]).value;
            Holds(n, 10.0, 150.0) && n.reversed == b.reversed
              && (1 in b.effects ==> 1 in n.effects && n.effects[1] == b.effects[1])
  {
    assert 300.0 * 10.0 / 20.0 == 150.0;
  }

  lemma UndoFirstBuy(b: Books)
    requires Holds(b, 10.0, 150.0) && b.reversed == {}
    requires 1 in b.effects && b.effects[1] == Effect(Buy, 2, Some(3), -100.0, 10.0, 100.0, 0)
    ensures Step(b, HISTORY[3]).Success? && Holds(Step(b, HISTORY[3]).value, 0.0, 50.0)
  {
  }

  lemma TradeIsValid(id: Id, kind: Kind, price: real)
    requires kind.Buy? || kind.Sell? || kind.OpeningPosition?
    requires price > 0.0 || kind.OpeningPosition?
    ensures TransactionError(1, Trade(id, kind, price)).None?
  {
  }

  lemma HistoryIsValid()
    ensures ValidInput(1, HISTORY)
  {
    TradeIsValid(1, Buy, 10.0);
    TradeIsValid(2, Buy, 20.0);
    TradeIsValid(3, Sell, 30.0);
    assert TransactionError(1, Undo(4, 1)).None?;
  }

  /** Two purchases, a sale at their average and the reversal of the cheaper purchase leave cost but no shares. */
  lemma ReversalCanStrandCost()
    ensures ValidInput(1, HISTORY)
    ensures Replay(HISTORY).Success? && Holds(Replay(HISTORY).value, 0.0, 50.0)
  {
    HistoryIsValid();
    FirstBuy(EMPTY_BOOKS);
    var one := Step(EMPTY_BOOKS, HISTORY[0]).value;
    SecondBuy(one);
    var two := Step(one, HISTORY[1]).value;
    Sale(two);
    var three := Step(two, HISTORY[2]).value;
    UndoFirstBuy(three);
    FourSteps(HISTORY, one, two, three, Step(three, HISTORY[3]).value);
  }

  lemma FourSteps(ts: seq<LedgerTransaction>, one: Books, two: Books, three: Books, four: Books)
    requires |ts| == 4 && Step(EMPTY_BOOKS, ts[0]) == Success(one) && Step(one, ts[1]) == Success(two)
    requires Step(two, ts[2]) == Success(three) && Step(three, ts[3]) == Success(four)
    ensures Replay(ts) == Success(four)
  {
    assert ts[..0] == [];
    assert Replay(ts[..0]) == Success(EMPTY_BOOKS);
    ReplayNext(ts, 0, EMPTY_BOOKS);
    ReplayNext(ts, 1, one);
    ReplayNext(ts, 2, two);
    ReplayNext(ts, 3, three);
    assert ts[..4] == ts;
  }

  // ---------------------------------------------------------------- an uncertainty that outlives its shares

  const UNPRICED := [Trade(1, OpeningPosition, 1.0).(unitPrice := None), Trade(2, Sell, 10.0), Trade(3, Buy, 10.0)]

  predicate HoldsUncertain(b: Books, quantity: real, cost: real, uncertainty: int) {
    var held := PositionAt(b.positions, KEY);
    held.quantity == quantity && held.knownCost == cost && held.uncertainty == uncertainty
  }

  lemma OpenUnpriced(b: Books)
    requires b == EMPTY_BOOKS
    ensures Step(b, UNPRICED[0]).Success? && HoldsUncertain(Step(b, UNPRICED[0]).value, 10.0, 0.0, 1)
  {
    assert EffectOf(b, UNPRICED[0]) == Success(Effect(OpeningPosition, 2, Some(3), 0.0, 10.0, 0.0, 1));
  }

  lemma SellTen(b: Books)
    requires HoldsUncertain(b, 10.0, 0.0, 1)
    ensures Step(b, UNPRICED[1]).Success? && HoldsUncertain(Step(b, UNPRICED[1]).value, 0.0, 0.0, 2)
  {
    LiquidationRaisesCounter(b, UNPRICED[1], KEY);
  }

  lemma BuyTen(b: Books)
    requires HoldsUncertain(b, 0.0, 0.0, 2)
    ensures Step(b, UNPRICED[2]).Success? && HoldsUncertain(Step(b, UNPRICED[2]).value, 10.0, 100.0, 2)
  {
    assert EffectOf(b, UNPRICED[2]) == Success(Effect(Buy, 2, Some(3), -100.0, 10.0, 100.0, 0));
  }

  lemma UnpricedIsValid()
    ensures ValidInput(1, UNPRICED)
  {
    assert TransactionError(1, UNPRICED[0]).None?;
    TradeIsValid(2, Sell, 10.0);
    TradeIsValid(3, Buy, 10.0);
  }

  /** Ten opened without a price, ten sold, ten bought: what is held was all bought at 10, and its basis is unknown. */
  lemma LiquidatedAndStillUncertain()
    ensures ValidInput(1, UNPRICED)
    ensures Replay(UNPRICED).Success? && HoldsUncertain(Replay(UNPRICED).value, 10.0, 100.0, 2)
    ensures StateOf(KEY, PositionAt(Replay(UNPRICED).value.positions, KEY)).totalCostBasis.None?
  {
    UnpricedIsValid();
    OpenUnpriced(EMPTY_BOOKS);
    var one := Step(EMPTY_BOOKS, UNPRICED[0]).value;
    SellTen(one);
    var two := Step(one, UNPRICED[1]).value;
    BuyTen(two);
    ThreeSteps(UNPRICED, one, two, Step(two, UNPRICED[2]).value);
  }

  lemma ThreeSteps(ts: seq<LedgerTransaction>, one: Books, two: Books, three: Books)
    requires |ts| == 3 && Step(EMPTY_BOOKS, ts[0]) == Success(one) && Step(one, ts[1]) == Success(two)
    requires Step(two, ts[2]) == Success(three)
    ensures Replay(ts) == Success(three)
  {
    assert ts[..0] == [];
    assert Replay(ts[..0]) == Success(EMPTY_BOOKS);
    ReplayNext(ts, 0, EMPTY_BOOKS);
    ReplayNext(ts, 1, one);
    ReplayNext(ts, 2, two);
    assert ts[..3] == ts;
  }

  // ---------------------------------------------------------------- a negative opening price

  /**
   * The engine's own checks leave the sign of an opening price open. On any books a priced opening fails exactly
   * when it would take more cost out of its key than the key holds, and then as a negative cost basis.
   */
  lemma PricedOpeningFailsExactly(b: Books, t: LedgerTransaction, key: Key)
    requires ShapeError(t).None? && t.kind.OpeningPosition? && TradesKey(t, key) && t.unitPrice.Some?
    requires PositionAt(b.positions, key).quantity >= 0.0 && PositionAt(b.positions, key).uncertainty >= 0
    ensures Step(b, t).Failure? <==>
            PositionAt(b.positions, key).knownCost + t.quantity.value * t.unitPrice.value < 0.0
    ensures Step(b, t).Failure? ==> Step(b, t) == Failure(NegativeCostBasis(t.id))
  {
    var e := ApplyOriginal(t, b.positions).value;
    assert e.costDelta == t.quantity.value * t.unitPrice.value;
  }

  function Opening(id: Id, price: real): LedgerTransaction {
    Trade(id, OpeningPosition, price)
  }

  const NEGATIVE_OPENING := [Trade(1, Buy, 100.0), Opening(2, -1.0)]

  /** So a negative opening price goes through when enough cost is held: ten bought at 100, then ten opened at -1. */
  lemma NegativeOpeningCanPass()
    ensures ValidInput(1, NEGATIVE_OPENING)
    ensures Replay(NEGATIVE_OPENING).Success? && Holds(Replay(NEGATIVE_OPENING).value, 20.0, 990.0)
  {
    NegativeOpeningIsValid();
    BuyAtHundred(EMPTY_BOOKS);
    var one := Step(EMPTY_BOOKS, NEGATIVE_OPENING[0]).value;
    OpenAtMinusOne(one);
    TwoSteps(NEGATIVE_OPENING, one, Step(one, NEGATIVE_OPENING[1]).value);
  }

  lemma NegativeOpeningIsValid()
    ensures ValidInput(1, NEGATIVE_OPENING)
  {
    TradeIsValid(1, Buy, 100.0);
    TradeIsValid(2, OpeningPosition, -1.0);
  }

  lemma TwoSteps(ts: seq<LedgerTransaction>, one: Books, two: Books)
    requires |ts| == 2 && Step(EMPTY_BOOKS, ts[0]) == Success(one) && Step(one, ts[1]) == Success(two)
    ensures Replay(ts) == Success(two)
  {
    assert ts[..0] == [];
    assert Replay(ts[..0]) == Success(EMPTY_BOOKS);
    ReplayNext(ts, 0, EMPTY_BOOKS);
    ReplayNext(ts, 1, one);
    assert ts[..2] == ts;
  }

  lemma BuyAtHundred(b: Books)
    requires b == EMPTY_BOOKS
    ensures Step(b, Trade(1, Buy, 100.0)).Success? && Holds(Step(b, Trade(1, Buy, 100.0)).value, 10.0, 1000.0)
  {
    var t := Trade(1, Buy, 100.0);
    assert EffectOf(b, t) == Success(Effect(Buy, 2, Some(3), -1000.0, 10.0, 1000.0, 0));
  }

  lemma OpenAtMinusOne(b: Books)
    requires Holds(b, 10.0, 1000.0)
    ensures Step(b, Opening(2, -1.0)).Success? && Holds(Step(b, Opening(2, -1.0)).value, 20.0, 990.0)
  {
    var t := Opening(2, -1.0);
    assert EffectOf(b, t) == Success(Effect(OpeningPosition, 2, Some(3), 0.0, 10.0, -10.0, 0));
  }
}
