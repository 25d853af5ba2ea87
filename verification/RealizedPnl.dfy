/**
 * Realized profit and loss (app/valuation/engine.py, `RealizedPnlEngine`).
 *
 * The source replays the whole prefix again before every sale. It is shown to agree with a single
 * pass over the effects that one full replay records.
 */
module RealizedPnl {
  import opened Wrappers
  import opened Sorting
  import opened LedgerTypes
  import opened PortfolioEngine
  import opened Conservation
  import opened Determinism
  import opened ReplayEngine

  /** The loop variables: each sale's gain (absent when unknown), the running total, unknown sales still active. */
  datatype PnlRun = PnlRun(gains: map<Id, Option<real>>, total: real, unknown: set<Id>)

  const NO_SALES := PnlRun(map[], 0.0, {})

  /** The first listed position for the sale's account and instrument. */
  function FindPosition(positions: seq<PositionState>, t: LedgerTransaction): Option<PositionState> {
    if positions == [] then None
    else if positions[0].accountId == t.accountId && Some(positions[0].instrumentId) == t.instrumentId
        then Some(positions[0])
    else FindPosition(positions[1..], t)
  }

  /** Proceeds of a sale less its quantity at the average cost held before it. */
  function GainAt(quantity: real, price: real, fees: real, averageCost: real): real {
    quantity * price - fees - quantity * averageCost
  }

  function SaleGain(prior: PortfolioState, t: LedgerTransaction): Option<real> {
    var position := FindPosition(prior.positions, t);
    if position.None? || t.quantity.None? || t.unitPrice.None? || position.value.averageCost.None? then None
    else Some(GainAt(t.quantity.value, t.unitPrice.value, t.fees, position.value.averageCost.value))
  }

  /** What a sale gained against the state replayed from everything before it. */
  function SaleValue(fundId: Id, prefix: seq<LedgerTransaction>, t: LedgerTransaction, accountId: Option<Id>)
    : Result<Option<real>, EngineError>
  {
    var prior :- Reconstruct(fundId, prefix, t.effectiveAt, accountId);
    Success(SaleGain(prior, t))
  }

  method RunSaleValue(fundId: Id, prefix: seq<LedgerTransaction>, t: LedgerTransaction, accountId: Option<Id>)
    returns (r: Result<Option<real>, EngineError>)
    ensures r == SaleValue(fundId, prefix, t, accountId)
  {
    var prior := RunReconstruct(fundId, prefix, t.effectiveAt, accountId);
    if prior.Failure? {
      return Failure(prior.error);
    }
    return Success(SaleGain(prior.value, t));
  }

  function AddSale(run: PnlRun, id: Id, gain: Option<real>): PnlRun {
    match gain
    case None => PnlRun(run.gains[id := None], run.total, run.unknown + {id})
    case Some(g) => PnlRun(run.gains[id := gain], run.total + g, run.unknown)
  }

  function TakeBack(run: PnlRun, target: Option<Id>): PnlRun {
    if target.None? || target.value !in run.gains then run
    else
      match run.gains[target.value]
      case None => run.(unknown := run.unknown - {target.value})
      case Some(g) => run.(total := run.total - g)
  }

  /** One turn of the loop: a sale is valued against a fresh replay of everything before it. */
  function PnlNext(fundId: Id, prefix: seq<LedgerTransaction>, t: LedgerTransaction, accountId: Option<Id>, run: PnlRun)
    : Result<PnlRun, EngineError>
  {
    if t.kind.Sell? then
      var gain :- SaleValue(fundId, prefix, t, accountId);
      Success(AddSale(run, t.id, gain))
    else if t.kind.Reversal? then Success(TakeBack(run, t.reverses))
    else Success(run)
  }

  function PnlLoop(fundId: Id, eligible: seq<LedgerTransaction>, accountId: Option<Id>): Result<PnlRun, EngineError> {
    if eligible == [] then Success(NO_SALES)
    else
      var run :- PnlLoop(fundId, eligible[..|eligible| - 1], accountId);
      PnlNext(fundId, eligible[..|eligible| - 1], eligible[|eligible| - 1], accountId, run)
  }

  function Amount(run: PnlRun): Option<real> {
    if run.unknown != {} then None else Some(run.total)
  }

  function Calculate(fundId: Id, supplied: seq<LedgerTransaction>, asOf: Instant, accountId: Option<Id>)
    : Result<Option<real>, EngineError>
  {
    var run :- PnlLoop(fundId, Ordered(supplied, asOf, accountId), accountId);
    Success(Amount(run))
  }

  /** `RealizedPnlEngine.calculate` as it runs. */
  method RunCalculate(fundId: Id, supplied: seq<LedgerTransaction>, asOf: Instant, accountId: Option<Id>)
    returns (r: Result<Option<real>, EngineError>)
    ensures r == Calculate(fundId, supplied, asOf, accountId)
  {
    r := RunLoop(fundId, Ordered(supplied, asOf, accountId), accountId);
  }

  method RecordSale(gains: map<Id, Option<real>>, total: real, unknown: set<Id>, id: Id, gain: Option<real>)
    returns (gains': map<Id, Option<real>>, total': real, unknown': set<Id>)
    ensures PnlRun(gains', total', unknown') == AddSale(PnlRun(gains, total, unknown), id, gain)
  {
    gains', total', unknown' := gains[id := gain], total, unknown;
    if gain.None? {
      unknown' := unknown' + {id};
    } else {
      total' := total' + gain.value;
    }
  }

  method RecordReversal(gains: map<Id, Option<real>>, total: real, unknown: set<Id>, target: Option<Id>)
    returns (total': real, unknown': set<Id>)
    ensures PnlRun(gains, total', unknown') == TakeBack(PnlRun(gains, total, unknown), target)
  {
    total', unknown' := total, unknown;
    if target.Some? && target.value in gains {
      var gain := gains[target.value];
      if gain.None? {
        unknown' := unknown' - {target.value};
      } else {
        total' := total' - gain.value;
      }
    }
  }

  /** One turn of the loop on its variables; a failed one settles the whole loop. */
  method RunTurn(fundId: Id, eligible: seq<LedgerTransaction>, i: nat, accountId: Option<Id>,
                 gains: map<Id, Option<real>>, total: real, unknown: set<Id>)
    returns (problem: Option<EngineError>, gains': map<Id, Option<real>>, total': real, unknown': set<Id>)
    requires i < |eligible| && PnlLoop(fundId, eligible[..i], accountId) == Success(PnlRun(gains, total, unknown))
    ensures problem.None? ==> PnlLoop(fundId, eligible[..i + 1], accountId) == Success(PnlRun(gains', total', unknown'))
    ensures problem.Some? ==> PnlLoop(fundId, eligible, accountId) == Failure(problem.value)
  {
    LoopNext(fundId, eligible, i, accountId, PnlRun(gains, total, unknown));
    problem, gains', total', unknown' := None, gains, total, unknown;
    var t := eligible[i];
    if t.kind.Sell? {
      var value := RunSaleValue(fundId, eligible[..i], t, accountId);
      if value.Failure? {
        problem := Some(value.error);
        return;
      }
      gains', total', unknown' := RecordSale(gains, total, unknown, t.id, value.value);
    } else if t.kind.Reversal? {
      total', unknown' := RecordReversal(gains, total, unknown, t.reverses);
    }
  }

  method RunLoop(fundId: Id, eligible: seq<LedgerTransaction>, accountId: Option<Id>)
    returns (r: Result<Option<real>, EngineError>)
    ensures var run := PnlLoop(fundId, eligible, accountId);
            r == if run.Failure? then Failure(run.error) else Success(Amount(run.value))
  {
    var gains: map<Id, Option<real>> := map[];
    var total := 0.0;
    var unknown: set<Id> := {};
    for i := 0 to |eligible|
      invariant PnlLoop(fundId, eligible[..i], accountId) == Success(PnlRun(gains, total, unknown))
    {
      var problem, gains', total', unknown' := RunTurn(fundId, eligible, i, accountId, gains, total, unknown);
      if problem.Some? {
        return Failure(problem.value);
      }
      gains, total, unknown := gains', total', unknown';
    }
    assert eligible[..|eligible|] == eligible;
    return Success(if unknown != {} then None else Some(total));
  }

  /** What one turn makes of the loop, and what a failed one makes of the whole. */
  lemma LoopNext(fundId: Id, eligible: seq<LedgerTransaction>, i: nat, accountId: Option<Id>, run: PnlRun)
    requires i < |eligible| && PnlLoop(fundId, eligible[..i], accountId) == Success(run)
    ensures var next := PnlNext(fundId, eligible[..i], eligible[i], accountId, run);
            && PnlLoop(fundId, eligible[..i + 1], accountId) == next
            && (next.Failure? ==> PnlLoop(fundId, eligible, accountId) == next)
  {
    assert eligible[..i + 1][..i] == eligible[..i];
    if PnlLoop(fundId, eligible[..i + 1], accountId).Failure? {
      LoopStops(fundId, eligible, i + 1, accountId);
    }
  }

  lemma {:induction false} LoopStops(fundId: Id, eligible: seq<LedgerTransaction>, n: nat, accountId: Option<Id>)
    requires n <= |eligible| && PnlLoop(fundId, eligible[..n], accountId).Failure?
    ensures PnlLoop(fundId, eligible, accountId) == PnlLoop(fundId, eligible[..n], accountId)
  {
    if n < |eligible| {
      assert eligible[..|eligible| - 1][..n] == eligible[..n];
      LoopStops(fundId, eligible[..|eligible| - 1], n, accountId);
    } else {
      assert eligible[..n] == eligible;
    }
  }

  // ---------------------------------------------------------------- the one-pass form

  /** What a sale's recorded effect says it gained: its proceeds net of the basis it removed. */
  function KnownGain(): Effect -> real {
    (e: Effect) => if e.kind.Sell? && e.uncertaintyDelta == 0 then e.cashDelta + e.costDelta else 0.0
  }

  /** Sales that ran while the basis was uncertain and have not been reversed. */
  ghost function LiveUnknownSales(b: Books): set<Id> {
    set x | x in b.effects && x !in b.reversed && b.effects[x].kind.Sell? && b.effects[x].uncertaintyDelta == 1
  }

  function RecordedGain(e: Effect): Option<real> {
    if e.uncertaintyDelta == 1 then None else Some(e.cashDelta + e.costDelta)
  }

  /** The quadratic loop after `ts` holds what one replay of `ts` recorded. */
  ghost predicate Agrees(run: PnlRun, ts: seq<LedgerTransaction>, b: Books) {
    && run.gains == GainsOf(b.effects)
    && run.total == LiveSum(ts, EffectWeight(b.effects, KnownGain()))
    && run.unknown == LiveUnknownSales(b)
  }

  /** A sorted prefix replayed at the cutoff of the transaction after it is replayed whole. */
  lemma PrefixIsItsOwnSelection(ts: seq<LedgerTransaction>, asOf: Instant, accountId: Option<Id>)
    requires Sorted(ReplayLe, ts)
    requires forall t | t in ts :: Included(asOf, accountId)(t)
    ensures Ordered(ts, asOf, accountId) == ts
  {
    FilterAll(Included(asOf, accountId), ts);
    SortOfSorted(ReplayLe, ts);
  }

  lemma FindConcat(a: seq<PositionState>, b: seq<PositionState>, t: LedgerTransaction)
    ensures FindPosition(a + b, t) == if FindPosition(a, t).Some? then FindPosition(a, t) else FindPosition(b, t)
  {
    if a == [] {
      assert a + b == b;
    } else {
      assert (a + b)[1..] == a[1..] + b;
      FindConcat(a[1..], b, t);
    }
  }

  /** An open position is found in the listing exactly once, as the state at its key. */
  lemma {:induction false} FindListed(keys: seq<Key>, positions: map<Key, Position>, t: LedgerTransaction, key: Key)
    requires t.instrumentId == Some(key.1) && t.accountId == key.0
    requires PositionAt(positions, key).quantity != 0.0
    ensures FindPosition(ListPositions(keys, positions), t) ==
            if key in keys then Some(StateOf(key, PositionAt(positions, key))) else None
  {
    if keys == [] {
    } else {
      var front, k := keys[..|keys| - 1], keys[|keys| - 1];
      var p := PositionAt(positions, k);
      var last := if p.quantity == 0.0 then [] else [StateOf(k, p)];
      FindListed(front, positions, t, key);
      FindConcat(ListPositions(front, positions), last, t);
      assert keys == front + [k];
      if p.quantity != 0.0 {
        assert [StateOf(k, p)][1..] == [];
        assert FindPosition(last, t) == if k == key then Some(StateOf(k, p)) else None;
      }
    }
  }

  lemma AverageTimesQuantity(cost: real, sold: real, held: real, average: real)
    requires held != 0.0 && average == cost / held
    ensures sold * average == cost * sold / held
  {
    assert average * held == cost;
    assert cost * sold == (sold * average) * held;
  }

  lemma SaleOfKnownBasis(t: LedgerTransaction, p: Position, instrument: Id, quantity: real, price: real, average: real)
    requires p.uncertainty == 0 && SaleEffect(t, instrument, quantity, price, p).Success?
    ensures p.quantity != 0.0
    ensures var recorded := RecordedGain(SaleEffect(t, instrument, quantity, price, p).value);
            recorded.Some? && (average == p.knownCost / p.quantity ==>
                               recorded.value == GainAt(quantity, price, t.fees, average))
  {
    var e := SaleEffect(t, instrument, quantity, price, p).value;
    if average == p.knownCost / p.quantity {
      AverageTimesQuantity(p.knownCost, quantity, p.quantity, average);
      assert e.costDelta == -(quantity * average);
      assert e.cashDelta == quantity * price - t.fees;
    }
  }

  lemma GainFormula(t: LedgerTransaction, p: Position, key: Key)
    requires t.kind.Sell? && ShapeError(t).None? && key == (t.accountId, t.instrumentId.value)
    requires SaleEffect(t, key.1, t.quantity.value, t.unitPrice.value, p).Success?
    ensures p.quantity != 0.0
    ensures var average := StateOf(key, p).averageCost;
            RecordedGain(SaleEffect(t, key.1, t.quantity.value, t.unitPrice.value, p).value) ==
            if average.None? then None else Some(GainAt(t.quantity.value, t.unitPrice.value, t.fees, average.value))
  {
    if p.uncertainty == 0 {
      SaleOfKnownBasis(t, p, key.1, t.quantity.value, t.unitPrice.value, StateOf(key, p).averageCost.value);
    }
  }

  lemma GainAgainst(prior: PortfolioState, positions: map<Key, Position>, t: LedgerTransaction, key: Key, e: Effect)
    requires t.kind.Sell? && ShapeError(t).None? && key == (t.accountId, t.instrumentId.value)
    requires SaleEffect(t, key.1, t.quantity.value, t.unitPrice.value, PositionAt(positions, key)) == Success(e)
    requires prior.positions == ListPositions(SortedKeys(positions.Keys), positions)
    ensures SaleGain(prior, t) == RecordedGain(e)
  {
    GainFormula(t, PositionAt(positions, key), key);
    FindListed(SortedKeys(positions.Keys), positions, t, key);
  }

  lemma SaleEffectOf(b: Books, t: LedgerTransaction)
    requires t.kind.Sell? && ShapeError(t).None?
    ensures EffectOf(b, t) ==
            SaleEffect(t, t.instrumentId.value, t.quantity.value, t.unitPrice.value,
                       PositionAt(b.positions, (t.accountId, t.instrumentId.value)))
  {
  }

  /** Valuing a sale against the replayed prefix gives what the replay itself records for it. */
  lemma GainIsRecorded(fundId: Id, prefix: seq<LedgerTransaction>, t: LedgerTransaction, accountId: Option<Id>)
    requires ValidInput(fundId, prefix) && Replay(prefix).Success?
    requires Sorted(ReplayLe, prefix)
    requires forall x | x in prefix :: Included(t.effectiveAt, accountId)(x)
    requires t.kind.Sell? && ShapeError(t).None? && EffectOf(Replay(prefix).value, t).Success?
    ensures SaleValue(fundId, prefix, t, accountId) == Success(RecordedGain(EffectOf(Replay(prefix).value, t).value))
  {
    PrefixIsItsOwnSelection(prefix, t.effectiveAt, accountId);
    ReconstructIsReplay(fundId, prefix, t.effectiveAt, accountId);
    var b := Replay(prefix).value;
    var e := EffectOf(b, t).value;
    SaleEffectOf(b, t);
    GainAgainst(Output(fundId, accountId, t.effectiveAt, prefix, b), b.positions, t,
                (t.accountId, t.instrumentId.value), e);
  }

  lemma UnknownAfterOriginal(b: Books, c: Books, x: Id, e: Effect)
    requires x !in b.effects && x !in b.reversed
    requires c.effects == b.effects[x := e] && c.reversed == b.reversed
    ensures LiveUnknownSales(c) == LiveUnknownSales(b) + (if e.kind.Sell? && e.uncertaintyDelta == 1 then {x} else {})
  {
  }

  ghost function GainsOf(effects: map<Id, Effect>): map<Id, Option<real>> {
    map x | x in effects && effects[x].kind.Sell? :: RecordedGain(effects[x])
  }

  lemma GainsAfterOriginal(effects: map<Id, Effect>, x: Id, e: Effect)
    requires x !in effects
    ensures GainsOf(effects[x := e]) ==
            if e.kind.Sell? then GainsOf(effects)[x := RecordedGain(e)] else GainsOf(effects)
  {
  }

  lemma AgreesAfterOriginal(run: PnlRun, ts: seq<LedgerTransaction>, b: Books, c: Books, t: LedgerTransaction,
                            e: Effect)
    requires Agrees(run, ts, b) && Recorded(ts, b)
    requires !t.kind.Reversal? && Matches(e, t) && (forall x | x in ts :: x.id != t.id)
    requires c.effects == b.effects[t.id := e] && c.reversed == b.reversed
    ensures Agrees(if t.kind.Sell? then AddSale(run, t.id, RecordedGain(e)) else run, ts + [t], c)
  {
    assert t.id !in b.effects;
    SumAfterOriginal(ts, t, b.effects, e, KnownGain());
    UnknownAfterOriginal(b, c, t.id, e);
    GainsAfterOriginal(b.effects, t.id, e);
  }

  lemma AgreesAfterReversal(run: PnlRun, ts: seq<LedgerTransaction>, b: Books, c: Books, t: LedgerTransaction)
    requires Agrees(run, ts, b) && Recorded(ts, b) && UniqueIds(ts)
    requires t.kind.Reversal? && t.reverses.Some? && t.reverses.value in b.effects && t.reverses.value !in b.reversed
    requires c.effects == b.effects && c.reversed == b.reversed + {t.reverses.value}
    ensures Agrees(TakeBack(run, t.reverses), ts + [t], c)
  {
    var x := t.reverses.value;
    SumAfterReversal(ts, t, b.effects, KnownGain());
    assert LiveUnknownSales(c) == LiveUnknownSales(b) - {x};
    var i := OriginalAt(ts, x);
    assert Matches(b.effects[x], ts[i]);
  }

  lemma {:induction false} LoopAgrees(fundId: Id, ts: seq<LedgerTransaction>, accountId: Option<Id>)
    requires ValidInput(fundId, ts) && Replay(ts).Success? && Sorted(ReplayLe, ts)
    requires accountId.Some? ==> forall t | t in ts :: t.accountId == accountId.value
    ensures PnlLoop(fundId, ts, accountId).Success?
    ensures Agrees(PnlLoop(fundId, ts, accountId).value, ts, Replay(ts).value)
  {
    if ts == [] {
    } else {
      var prefix, t := ts[..|ts| - 1], ts[|ts| - 1];
      var b := Replay(prefix).value;
      ValidFront(fundId, ts);
      LastOf(ts);
      LoopAgrees(fundId, prefix, accountId);
      ReplayRecords(fundId, prefix);
      StepFacts(b, t);
      if t.kind.Reversal? {
        AgreesAfterReversal(PnlLoop(fundId, prefix, accountId).value, prefix, b, Replay(ts).value, t);
      } else {
        OriginalMatches(b, t);
        if t.kind.Sell? {
          EarlierIsIncluded(prefix, t, accountId);
          GainIsRecorded(fundId, prefix, t, accountId);
        }
        AgreesAfterOriginal(PnlLoop(fundId, prefix, accountId).value, prefix, b, Replay(ts).value, t,
                            EffectOf(b, t).value);
      }
    }
  }

  lemma EarlierIsIncluded(prefix: seq<LedgerTransaction>, t: LedgerTransaction, accountId: Option<Id>)
    requires Sorted(ReplayLe, prefix + [t])
    requires accountId.Some? ==> forall x | x in prefix :: x.accountId == accountId.value
    ensures forall x | x in prefix :: Included(t.effectiveAt, accountId)(x)
  {
    forall x | x in prefix
      ensures Included(t.effectiveAt, accountId)(x)
    {
      var i :| 0 <= i < |prefix| && prefix[i] == x;
      assert ReplayLe((prefix + [t])[i], (prefix + [t])[|prefix|]);
    }
  }

  /**
   * The quadratic calculation refines one pass: whenever the full replay succeeds, it succeeds too, is
   * unavailable exactly when a sale made with uncertain basis is still live, and is otherwise the sum
   * over live sales of the cash and cost deltas that the replay recorded for them.
   */
  lemma CalculateRefinesOnePass(fundId: Id, supplied: seq<LedgerTransaction>, asOf: Instant, accountId: Option<Id>)
    requires ValidInput(fundId, supplied)
    requires Replay(Ordered(supplied, asOf, accountId)).Success?
    ensures var ordered := Ordered(supplied, asOf, accountId);
            var b := Replay(ordered).value;
            Calculate(fundId, supplied, asOf, accountId) ==
            Success(if LiveUnknownSales(b) != {} then None
                    else Some(LiveSum(ordered, EffectWeight(b.effects, KnownGain()))))
  {
    OrderedFacts(supplied, asOf, accountId);
    OrderedValid(fundId, supplied, asOf, accountId);
    LoopAgrees(fundId, Ordered(supplied, asOf, accountId), accountId);
  }
}
