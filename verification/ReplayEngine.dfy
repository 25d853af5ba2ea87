/**
 * The reconstruction engine as it runs (app/portfolio/engine.py): position records and dictionaries
 * updated in place, one ordered transaction at a time.
 */
module ReplayEngine {
  import opened Wrappers
  import opened LedgerTypes
  import opened PortfolioEngine

  /** The mutable position kept per account and instrument while replaying. */
  class PositionRecord {
    var quantity: real
    var knownCost: real
    var uncertaintyCount: int
    var sourceIds: seq<Id>

    constructor ()
      ensures View() == NO_POSITION
    {
      quantity, knownCost, uncertaintyCount, sourceIds := 0.0, 0.0, 0, [];
    }

    function View(): Position
      reads this
    {
      Position(quantity, knownCost, uncertaintyCount, sourceIds)
    }
  }

  /** Writing a default and then changing only that entry is one update. */
  lemma UpdatedOnce(before: map<Key, Position>, recorded: map<Key, Position>, after: map<Key, Position>, key: Key,
                    p: Position)
    requires recorded == before[key := p] && after.Keys == recorded.Keys
    requires forall k | k in after && k != key :: after[k] == recorded[k]
    ensures after == before[key := after[key]]
  {
  }

  /** The working dictionaries of one `reconstruct` call. */
  class ReplayRun {
    var cash: map<Id, real>
    var positions: map<Key, PositionRecord>
    var effects: map<Id, Effect>
    var kinds: map<Id, Kind>
    var reversedTargets: set<Id>

    /** Every key has a record of its own, and the kinds recorded are those of the effects. */
    ghost predicate Valid()
      reads this
    {
      && (forall j, k | j in positions && k in positions && j != k :: positions[j] != positions[k])
      && kinds == (map x | x in effects :: effects[x].kind)
    }

    function PositionsView(): map<Key, Position>
      reads this`positions, positions.Values
    {
      map k | k in positions :: positions[k].View()
    }

    function View(): Books
      reads this, positions.Values
    {
      Books(cash, PositionsView(), effects, reversedTargets)
    }

    constructor ()
      ensures Valid() && View() == EMPTY_BOOKS && fresh(positions.Values)
    {
      cash, positions, effects, kinds, reversedTargets := map[], map[], map[], map[], {};
    }

    method RecordAt(key: Key) returns (p: PositionRecord)
      requires Valid()
      modifies this`positions
      ensures Valid() && key in positions && positions[key] == p
      ensures positions.Values <= old(positions.Values) + {p}
      ensures p in old(positions.Values) || fresh(p)
      ensures old(positions.Values) <= positions.Values
      ensures PositionsView() == old(PositionsView())[key := PositionAt(old(PositionsView()), key)]
      ensures p.View() == PositionAt(old(PositionsView()), key)
    {
      if key in positions {
        p := positions[key];
      } else {
        p := new PositionRecord();
        positions := positions[key := p];
        assert positions.Values <= old(positions.Values) + {p};
        assert forall k | k in old(positions) :: positions[k] == old(positions)[k];
        assert old(positions.Values) <= positions.Values by {
          forall v | v in old(positions.Values)
            ensures v in positions.Values
          {
            var k :| k in old(positions) && old(positions)[k] == v;
            assert positions[k] == v;
          }
        }
      }
    }

    /** Move one record, checking each figure in the source's order before anything is written. */
    method MoveRecord(id: Id, e: Effect, p: PositionRecord) returns (error: Option<EngineError>)
      modifies p
      ensures var r := MovePosition(id, e, old(p.View()));
              && error == (if r.Failure? then Some(r.error) else None)
              && p.View() == if r.Success? then r.value else old(p.View())
    {
      var newQuantity := p.quantity + e.quantityDelta;
      if newQuantity < 0.0 {
        return Some(NegativeHolding(id));
      }
      var newCost := p.knownCost + e.costDelta;
      if newCost < 0.0 {
        return Some(NegativeCostBasis(id));
      }
      var newUncertainty := p.uncertaintyCount + e.uncertaintyDelta;
      if newUncertainty < 0 {
        return Some(InvalidReversal(UncertaintyAbsent));
      }
      p.quantity := newQuantity;
      p.knownCost := newCost;
      p.uncertaintyCount := newUncertainty;
      p.sourceIds := p.sourceIds + [id];
      return None;
    }

    method ApplyPositionEffect(id: Id, e: Effect) returns (error: Option<EngineError>)
      requires Valid() && e.instrumentId.Some?
      modifies this`positions, positions.Values
      ensures Valid() && fresh(positions.Values - old(positions.Values))
      ensures var r := PortfolioEngine.ApplyPositionEffect(id, e, old(PositionsView()));
              && error == (if r.Failure? then Some(r.error) else None)
              && (r.Success? ==> PositionsView() == r.value)
    {
      ghost var before := PositionsView();
      var key := (e.accountId, e.instrumentId.value);
      var p := RecordAt(key);
      ghost var recorded := PositionsView();
      error := MoveRecord(id, e, p);
      UpdatedOnce(before, recorded, PositionsView(), key, PositionAt(before, key));
    }

    /** The inverse of the effect recorded for the target, checked in the source's order. */
    method ReversalEffect(t: LedgerTransaction) returns (r: Result<Effect, EngineError>)
      requires Valid()
      ensures r == PortfolioEngine.ReversalEffect(t, effects, reversedTargets)
    {
      if t.reverses.None? {
        return Failure(InvalidReversal(TargetMissing));
      }
      var target := t.reverses.value;
      if target !in effects {
        return Failure(InvalidReversal(TargetNotApplied));
      }
      if target in kinds && kinds[target].Reversal? {
        return Failure(InvalidReversal(TargetIsReversal));
      }
      if target in reversedTargets {
        return Failure(InvalidReversal(AlreadyReversed));
      }
      var e := effects[target];
      if e.accountId != t.accountId {
        return Failure(InvalidReversal(OtherAccount));
      }
      return Success(Effect(Reversal, e.accountId, e.instrumentId, -e.cashDelta, -e.quantityDelta, -e.costDelta,
                            -e.uncertaintyDelta));
    }

    /** What this transaction does, decided before anything is written. */
    method FindEffect(t: LedgerTransaction) returns (r: Result<Effect, EngineError>)
      requires Valid()
      ensures r == EffectOf(View(), t)
    {
      if t.kind.Reversal? {
        r := ReversalEffect(t);
      } else {
        r := ApplyOriginal(t, PositionsView());
      }
    }

    /** Record an effect and move the account's cash by it. */
    method RecordEffect(t: LedgerTransaction, e: Effect)
      requires Valid() && e.accountId == t.accountId
      requires t.kind.Reversal? ==> t.reverses.Some?
      requires !t.kind.Reversal? ==> e.kind == t.kind
      modifies this`cash, this`effects, this`kinds, this`reversedTargets
      ensures Valid()
      ensures cash == old(cash)[t.accountId := CashAt(old(cash), t.accountId) + e.cashDelta]
      ensures effects == if t.kind.Reversal? then old(effects) else old(effects)[t.id := e]
      ensures reversedTargets ==
              if t.kind.Reversal? then old(reversedTargets) + {t.reverses.value} else old(reversedTargets)
    {
      if t.accountId !in cash {
        cash := cash[t.accountId := 0.0];
      }
      if t.kind.Reversal? {
        reversedTargets := reversedTargets + {t.reverses.value};
      } else {
        effects := effects[t.id := e];
        kinds := kinds[t.id := t.kind];
      }
      cash := cash[e.accountId := cash[e.accountId] + e.cashDelta];
    }

    /** Record an effect, then move the position it touches. */
    method Record(t: LedgerTransaction, e: Effect) returns (error: Option<EngineError>)
      requires Valid() && e.accountId == t.accountId
      requires t.kind.Reversal? ==> t.reverses.Some?
      requires !t.kind.Reversal? ==> e.kind == t.kind
      modifies this, positions.Values
      ensures Valid() && fresh(positions.Values - old(positions.Values))
      ensures var r := Post(old(View()), t, e);
              error == (if r.Failure? then Some(r.error) else None) &&
              (r.Success? ==> View() == r.value)
    {
      ghost var before := PositionsView();
      RecordEffect(t, e);
      assert PositionsView() == before;
      error := None;
      if e.instrumentId.Some? {
        error := ApplyPositionEffect(t.id, e);
      }
    }

    /** One turn of the replay loop. */
    method Apply(t: LedgerTransaction) returns (error: Option<EngineError>)
      requires Valid()
      modifies this, positions.Values
      ensures Valid() && fresh(positions.Values - old(positions.Values))
      ensures var r := Step(old(View()), t);
              error == (if r.Failure? then Some(r.error) else None) &&
              (r.Success? ==> View() == r.value)
    {
      var r := FindEffect(t);
      if r.Failure? {
        return Some(r.error);
      }
      error := Record(t, r.value);
    }
  }

  /** The source's validation loop, in supplied order and with the ids seen so far. */
  method ValidateInput(fundId: Id, supplied: seq<LedgerTransaction>) returns (error: Option<EngineError>)
    ensures error == InputError(fundId, supplied)
  {
    var seen: set<Id> := {};
    var i := 0;
    while i < |supplied|
      invariant 0 <= i <= |supplied|
      invariant seen == IdsOf(supplied[..i])
      invariant InputError(fundId, supplied[..i]).None?
    {
      var t := supplied[i];
      CheckNext(fundId, supplied, i);
      if t.id in seen {
        return Some(InvalidEngineInput);
      }
      var problem := TransactionError(fundId, t);
      if problem.Some? {
        return problem;
      }
      seen := seen + {t.id};
      i := i + 1;
    }
    assert supplied[..i] == supplied;
    return None;
  }

  /** The verdict on one more transaction, and that a bad one settles it for the whole input. */
  lemma CheckNext(fundId: Id, ts: seq<LedgerTransaction>, i: nat)
    requires i < |ts| && InputError(fundId, ts[..i]).None?
    ensures InputError(fundId, ts[..i + 1]) ==
            if ts[i].id in IdsOf(ts[..i]) then Some(InvalidEngineInput) else TransactionError(fundId, ts[i])
    ensures InputError(fundId, ts[..i + 1]).Some? ==> InputError(fundId, ts) == InputError(fundId, ts[..i + 1])
    ensures IdsOf(ts[..i + 1]) == IdsOf(ts[..i]) + {ts[i].id}
  {
    assert ts[..i + 1][..i] == ts[..i];
    assert ts[..i + 1] == ts[..i] + [ts[i]];
    if InputError(fundId, ts[..i + 1]).Some? {
      FirstErrorStays(fundId, ts, i + 1);
    }
  }

  lemma {:induction false} FirstErrorStays(fundId: Id, ts: seq<LedgerTransaction>, n: nat)
    requires n <= |ts| && InputError(fundId, ts[..n]).Some?
    ensures InputError(fundId, ts) == InputError(fundId, ts[..n])
  {
    if n < |ts| {
      assert ts[..|ts| - 1][..n] == ts[..n];
      FirstErrorStays(fundId, ts[..|ts| - 1], n);
    } else {
      assert ts[..n] == ts;
    }
  }

  /** Reconstruction as the source runs it computes exactly what `PortfolioEngine.Reconstruct` says. */
  method RunReconstruct(fundId: Id, supplied: seq<LedgerTransaction>, asOf: Instant, accountId: Option<Id>)
    returns (r: Result<PortfolioState, EngineError>)
    ensures r == Reconstruct(fundId, supplied, asOf, accountId)
  {
    var problem := ValidateInput(fundId, supplied);
    if problem.Some? {
      return Failure(problem.value);
    }
    var ordered := Ordered(supplied, asOf, accountId);
    var run := new ReplayRun();
    var i := 0;
    while i < |ordered|
      invariant 0 <= i <= |ordered|
      invariant run.Valid() && fresh(run) && fresh(run.positions.Values)
      invariant Replay(ordered[..i]) == Success(run.View())
    {
      ReplayNext(ordered, i, run.View());
      var error := run.Apply(ordered[i]);
      if error.Some? {
        return Failure(error.value);
      }
      i := i + 1;
    }
    assert ordered[..i] == ordered;
    return Success(Output(fundId, accountId, asOf, ordered, run.View()));
  }
}
