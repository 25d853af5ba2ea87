/** Exactly when a reversal stops a replay, and why. */
module Reversals {
  import opened Wrappers
  import opened LedgerTypes
  import opened PortfolioEngine
  import opened Conservation
  import opened StrandedCost

  function HeldKey(t: LedgerTransaction): Key {
    (t.accountId, HeldInstrument(t).GetOr(0))
  }

  /** Why the reversal of the original `o` would overdraw what is held, if it would. */
  function Overdraft(t: LedgerTransaction, o: LedgerTransaction, p: Position): Option<EngineError> {
    if o.kind != Buy && o.kind != OpeningPosition then None
    else if p.quantity < FieldQuantity(o) then Some(NegativeHolding(t.id))
    else if p.knownCost < FieldCost(o) then Some(NegativeCostBasis(t.id))
    else None
  }

  lemma ShareOfCost(cost: real, sold: real, held: real)
    requires cost >= 0.0 && sold > 0.0 && held > 0.0
    ensures cost * sold / held >= 0.0
  {
    assert cost * sold >= 0.0;
  }

  lemma SaleTakesCost(b: Books, t: LedgerTransaction)
    requires ShapeError(t).None? && t.kind.Sell? && EffectOf(b, t).Success?
    requires PositionAt(b.positions, HeldKey(t)).knownCost >= 0.0
    ensures EffectOf(b, t).value.costDelta <= 0.0
  {
    var p := PositionAt(b.positions, HeldKey(t));
    if p.uncertainty == 0 {
      assert p.quantity > 0.0;
      ShareOfCost(p.knownCost, t.quantity.value, p.quantity);
    }
  }

  /** A sale on record took cost out, or none. */
  lemma RecordedSaleTookCost(fundId: Id, ts: seq<LedgerTransaction>, i: nat)
    requires ValidInput(fundId, ts) && Replay(ts).Success? && i < |ts| && ts[i].kind.Sell?
    ensures ts[i].id in Replay(ts).value.effects && Replay(ts).value.effects[ts[i].id].costDelta <= 0.0
  {
    RecordedUncertainty(fundId, ts, i);
    BalancesNonnegative(ts[..i], HeldKey(ts[i]));
    assert ts[i] in ts;
    SaleTakesCost(Replay(ts[..i]).value, ts[i]);
  }

  /** Why the reversal of the replayed original `o` is refused, if it is. */
  function Problem(front: seq<LedgerTransaction>, t: LedgerTransaction, o: LedgerTransaction): Option<EngineError>
    requires Replay(front).Success?
  {
    if o.id in Targets(front) then Some(InvalidReversal(AlreadyReversed))
    else if o.accountId != t.accountId then Some(InvalidReversal(OtherAccount))
    else if HeldInstrument(o).None? then None
    else Overdraft(t, o, PositionAt(Replay(front).value.positions, HeldKey(o)))
  }

  lemma ReversalOfTrade(front: seq<LedgerTransaction>, t: LedgerTransaction, o: LedgerTransaction, b: Books)
    requires Replay(front) == Success(b) && Recorded(front, b) && Counted(b)
    requires o in front && Reverses(t, o) && ShapeError(o).None? && ShapeError(t).None?
    requires PositionAt(b.positions, HeldKey(o)).quantity >= 0.0 && PositionAt(b.positions, HeldKey(o)).knownCost >= 0.0
    requires o.kind.Sell? ==> o.id in b.effects && b.effects[o.id].costDelta <= 0.0
    ensures Step(b, t).Success? <==> Problem(front, t, o).None?
    ensures Problem(front, t, o).Some? ==> Step(b, t) == Failure(Problem(front, t, o).value)
  {
    GuardsHoldAtStep(front, b, t);
    assert Matches(b.effects[o.id], o);
  }

  /** A reversal whose target has been replayed is replayed or refused as that target, the account and the key say. */
  lemma TargetedReversal(fundId: Id, front: seq<LedgerTransaction>, t: LedgerTransaction, o: LedgerTransaction)
    requires ValidInput(fundId, front + [t]) && Replay(front).Success? && o in front && Reverses(t, o)
    ensures Replay(front + [t]).Success? <==> Problem(front, t, o).None?
    ensures Problem(front, t, o).Some? ==> Replay(front + [t]) == Failure(Problem(front, t, o).value)
  {
    var ts, b := front + [t], Replay(front).value;
    assert ts[..|ts| - 1] == front && ts[|ts| - 1] == t;
    ValidFront(fundId, ts);
    ReplayRecords(fundId, front);
    UncertaintyCounts(fundId, front);
    BalancesNonnegative(front, HeldKey(o));
    var i :| 0 <= i < |front| && front[i] == o;
    if o.kind.Sell? {
      RecordedSaleTookCost(fundId, front, i);
    }
    ReversalOfTrade(front, t, o, b);
  }

  lemma UntargetedReversal(fundId: Id, front: seq<LedgerTransaction>, t: LedgerTransaction)
    requires ValidInput(fundId, front + [t]) && Replay(front).Success? && t.kind == Reversal
    requires forall o | o in front :: !Reverses(t, o)
    ensures Replay(front + [t]) == Failure(InvalidReversal(TargetNotApplied))
  {
    var ts, b := front + [t], Replay(front).value;
    assert ts[..|ts| - 1] == front && ts[|ts| - 1] == t;
    ValidFront(fundId, ts);
    ReplayRecords(fundId, front);
  }

  /**
   * A reversal is replayed if and only if an original with its target's id has been replayed that has not been
   * reversed, is of the same account, and brought in no more quantity and no more cost than its key now has.
   */
  lemma ReversalSucceedsExactly(fundId: Id, front: seq<LedgerTransaction>, t: LedgerTransaction)
    requires ValidInput(fundId, front + [t]) && Replay(front).Success? && t.kind == Reversal
    ensures Replay(front + [t]).Success? <==>
            exists o :: o in front && Reverses(t, o) && Problem(front, t, o).None?
  {
    if o :| o in front && Reverses(t, o) {
      TargetedReversal(fundId, front, t, o);
      forall x | x in front && Reverses(t, x)
        ensures x == o
      {
        SameTarget(fundId, front, t, o, x);
      }
    } else {
      UntargetedReversal(fundId, front, t);
    }
  }

  lemma SameTarget(fundId: Id, front: seq<LedgerTransaction>, t: LedgerTransaction, o: LedgerTransaction,
                   x: LedgerTransaction)
    requires ValidInput(fundId, front + [t]) && o in front && x in front && Reverses(t, o) && Reverses(t, x)
    ensures o == x
  {
    var i :| 0 <= i < |front| && front[i] == o;
    var j :| 0 <= j < |front| && front[j] == x;
    assert (front + [t])[i].id == (front + [t])[j].id;
  }
}
