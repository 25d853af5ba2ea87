/** Exactly when a history ends with known cost at a key that holds no quantity. */
module StrandedCost {
  import opened Wrappers
  import opened LedgerTypes
  import opened PortfolioEngine
  import opened Conservation
  import opened MovingAverage

  predicate Stranded(p: Position) {
    p.quantity == 0.0 && p.knownCost != 0.0
  }

  predicate HeldAt(t: LedgerTransaction, key: Key) {
    t.accountId == key.0 && HeldInstrument(t) == Some(key.1)
  }

  predicate Reverses(t: LedgerTransaction, o: LedgerTransaction) {
    t.kind.Reversal? && !o.kind.Reversal? && t.reverses == Some(o.id)
  }

  /** A trade or opening at the key, or the reversal of one. */
  predicate Moves(front: seq<LedgerTransaction>, t: LedgerTransaction, key: Key) {
    HeldAt(t, key) || exists o :: o in front && Reverses(t, o) && HeldAt(o, key)
  }

  /** The purchase or opening `o` brought in just what `p` still holds, at another cost than `p` now carries. */
  predicate TakesAllButCost(o: LedgerTransaction, p: Position) {
    (o.kind.Buy? || o.kind.OpeningPosition?) && p.quantity == FieldQuantity(o) && p.knownCost != FieldCost(o)
  }

  /** `t` reverses a purchase or opening at the key whose quantity is all that is held and whose cost is not. */
  predicate Strands(front: seq<LedgerTransaction>, t: LedgerTransaction, key: Key)
    requires Replay(front).Success?
  {
    exists o :: o in front && Reverses(t, o) && HeldAt(o, key)
      && TakesAllButCost(o, PositionAt(Replay(front).value.positions, key))
  }

  // ---------------------------------------------------------------- one transaction

  /** The one original that an applied reversal takes back. */
  lemma TargetOf(front: seq<LedgerTransaction>, b: Books, t: LedgerTransaction) returns (o: LedgerTransaction)
    requires Recorded(front, b) && UniqueIds(front) && Step(b, t).Success? && t.kind.Reversal?
    ensures o in front && Reverses(t, o)
    ensures EffectOf(b, t) == Success(Inverse(b.effects[o.id])) && Matches(b.effects[o.id], o)
    ensures forall x | x in front && Reverses(t, x) :: x == o
  {
    StepFacts(b, t);
    var i := OriginalAt(front, t.reverses.value);
    o := front[i];
    OthersDiffer(front, i);
    assert front == front[..i] + [o] + front[i + 1..];
  }

  lemma UnmovedStays(front: seq<LedgerTransaction>, b: Books, t: LedgerTransaction, key: Key)
    requires Recorded(front, b) && UniqueIds(front) && Step(b, t).Success? && ShapeError(t).None?
    requires !Moves(front, t, key)
    ensures PositionAt(Step(b, t).value.positions, key) == PositionAt(b.positions, key)
  {
    if t.kind.Reversal? {
      var o := TargetOf(front, b, t);
      assert !HeldAt(o, key);
    } else {
      OriginalMatches(b, t);
    }
  }

  /** What remains at a key is stranded by no trade of its own: a sale to zero takes all cost with it. */
  lemma TradesStrandNothing(b: Books, t: LedgerTransaction, key: Key)
    requires ShapeError(t).None? && HeldAt(t, key) && Step(b, t).Success?
    requires PositionAt(b.positions, key).quantity >= 0.0
    ensures !Stranded(PositionAt(Step(b, t).value.positions, key))
  {
    var p, q := PositionAt(b.positions, key), PositionAt(Step(b, t).value.positions, key);
    if t.kind.Sell? {
      SaleMoves(b, t);
      if q.quantity == 0.0 && p.uncertainty == 0 {
        Cancel(p.knownCost, p.quantity);
      }
    } else {
      PurchaseEffect(t, b.positions);
    }
  }

  lemma ReversalStrands(front: seq<LedgerTransaction>, b: Books, t: LedgerTransaction, o: LedgerTransaction, key: Key)
    requires Step(b, t).Success? && t.kind.Reversal? && ShapeError(o).None? && HeldAt(o, key)
    requires o.id in b.effects && EffectOf(b, t) == Success(Inverse(b.effects[o.id])) && Matches(b.effects[o.id], o)
    requires PositionAt(b.positions, key).quantity >= 0.0
    ensures Stranded(PositionAt(Step(b, t).value.positions, key)) <==> TakesAllButCost(o, PositionAt(b.positions, key))
  {
  }

  /**
   * A transaction leaves a key stranded exactly when it leaves alone one that already was, or takes back a purchase
   * or opening of all that is held whose cost is not the cost now on the books.
   */
  lemma StrandedExactly(fundId: Id, front: seq<LedgerTransaction>, t: LedgerTransaction, key: Key)
    requires ValidInput(fundId, front + [t]) && Replay(front + [t]).Success?
    ensures Replay(front).Success?
    ensures Stranded(PositionAt(Replay(front + [t]).value.positions, key)) <==>
            || (!Moves(front, t, key) && Stranded(PositionAt(Replay(front).value.positions, key)))
            || Strands(front, t, key)
  {
    var ts := front + [t];
    assert ts[..|ts| - 1] == front && ts[|ts| - 1] == t;
    var b := Replay(front).value;
    ValidFront(fundId, ts);
    ReplayRecords(fundId, front);
    BalancesNonnegative(front, key);
    if !Moves(front, t, key) {
      UnmovedStays(front, b, t, key);
    } else if HeldAt(t, key) {
      TradesStrandNothing(b, t, key);
    } else {
      var o := TargetOf(front, b, t);
      assert HeldAt(o, key);
      ReversalStrands(front, b, t, o, key);
    }
  }

  // ---------------------------------------------------------------- a whole history

  /** The i-th transaction strands the key and none after it moves the key again. */
  ghost predicate StrandedSince(ts: seq<LedgerTransaction>, i: nat, key: Key) {
    && i < |ts| && Replay(ts[..i]).Success? && Strands(ts[..i], ts[i], key)
    && forall j | i < j < |ts| :: !Moves(ts[..j], ts[j], key)
  }

  lemma StrandedSinceFront(front: seq<LedgerTransaction>, t: LedgerTransaction, i: nat, key: Key)
    requires i < |front|
    ensures StrandedSince(front + [t], i, key) <==> StrandedSince(front, i, key) && !Moves(front, t, key)
  {
    var ts := front + [t];
    assert forall j | 0 <= j <= |front| :: ts[..j] == front[..j];
    assert ts[..|front|] == front && ts[|front|] == t;
    if StrandedSince(front, i, key) && !Moves(front, t, key) {
      forall j | i < j < |ts|
        ensures !Moves(ts[..j], ts[j], key)
      {
        assert j < |front| ==> !Moves(front[..j], front[j], key);
      }
    }
    if StrandedSince(ts, i, key) {
      forall j | i < j < |front|
        ensures !Moves(front[..j], front[j], key)
      {
        assert !Moves(ts[..j], ts[j], key);
      }
      assert !Moves(ts[..|front|], ts[|front|], key);
    }
  }

  lemma StrandedSinceLast(front: seq<LedgerTransaction>, t: LedgerTransaction, key: Key)
    requires Replay(front).Success?
    ensures StrandedSince(front + [t], |front|, key) <==> Strands(front, t, key)
  {
    assert (front + [t])[..|front|] == front;
  }

  /** A history ends with a stranded key exactly when a reversal stranded it and nothing has moved it since. */
  lemma {:induction false} StrandedByHistory(fundId: Id, ts: seq<LedgerTransaction>, key: Key)
    requires ValidInput(fundId, ts) && Replay(ts).Success?
    ensures Stranded(PositionAt(Replay(ts).value.positions, key)) <==> exists i :: StrandedSince(ts, i, key)
  {
    if ts == [] {
    } else {
      var front, t := ts[..|ts| - 1], ts[|ts| - 1];
      assert ts == front + [t];
      ValidFront(fundId, ts);
      StrandedByHistory(fundId, front, key);
      StrandedExactly(fundId, front, t, key);
      StrandedSinceLast(front, t, key);
      SinceSplits(front, t, key);
    }
  }

  lemma SinceSplits(front: seq<LedgerTransaction>, t: LedgerTransaction, key: Key)
    ensures (exists i :: StrandedSince(front + [t], i, key)) <==>
            || StrandedSince(front + [t], |front|, key)
            || ((exists i :: StrandedSince(front, i, key)) && !Moves(front, t, key))
  {
    var ts := front + [t];
    if i: nat :| StrandedSince(ts, i, key) && i < |front| {
      StrandedSinceFront(front, t, i, key);
    }
    if i: nat :| StrandedSince(front, i, key) && !Moves(front, t, key) {
      StrandedSinceFront(front, t, i, key);
    }
  }
}
