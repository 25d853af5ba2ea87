/**
 * Conservation laws of a replay: what the books hold is the signed sum over the originals that
 * have not been reversed, however late the reversals came.
 */
module Conservation {
  import opened Wrappers
  import opened Sums
  import opened LedgerTypes
  import opened PortfolioEngine

  // ---------------------------------------------------------------- live originals

  /** The ids that some reversal in `ts` targets. */
  function Targets(ts: seq<LedgerTransaction>): set<Id> {
    set t | t in ts && t.kind.Reversal? && t.reverses.Some? :: t.reverses.value
  }

  function OriginalIds(ts: seq<LedgerTransaction>): set<Id> {
    set t | t in ts && !t.kind.Reversal? :: t.id
  }

  function LiveWeight(reversed: set<Id>, w: LedgerTransaction -> real): LedgerTransaction -> real {
    (t: LedgerTransaction) => if t.kind.Reversal? || t.id in reversed then 0.0 else w(t)
  }

  /** The sum of `w` over the originals of `ts` that no transaction of `ts` reverses. */
  function LiveSum(ts: seq<LedgerTransaction>, w: LedgerTransaction -> real): real {
    SumBy(ts, LiveWeight(Targets(ts), w))
  }

  /** The signed cash a transaction moves, read off its own fields. */
  function FieldCash(t: LedgerTransaction): real {
    match t.kind
    case OpeningCash | CashDeposit | Dividend => t.amount.GetOr(0.0)
    case CashWithdrawal | Fee => -t.amount.GetOr(0.0)
    case Buy => -(t.quantity.GetOr(0.0) * t.unitPrice.GetOr(0.0) + t.fees)
    case Sell => t.quantity.GetOr(0.0) * t.unitPrice.GetOr(0.0) - t.fees
    case OpeningPosition | Reversal => 0.0
  }

  /** The signed quantity a transaction moves, read off its own fields. */
  function FieldQuantity(t: LedgerTransaction): real {
    match t.kind
    case Buy | OpeningPosition => t.quantity.GetOr(0.0)
    case Sell => -t.quantity.GetOr(0.0)
    case _ => 0.0
  }

  /** The cost basis an acquisition brings, fees included, read off its own fields. */
  function FieldCost(t: LedgerTransaction): real {
    match t.kind
    case Buy => t.quantity.GetOr(0.0) * t.unitPrice.GetOr(0.0) + t.fees
    case OpeningPosition => if t.unitPrice.Some? then t.quantity.GetOr(0.0) * t.unitPrice.value else 0.0
    case _ => 0.0
  }

  /** The instrument whose holding a transaction changes. */
  function HeldInstrument(t: LedgerTransaction): Option<Id> {
    if t.kind.Buy? || t.kind.Sell? || t.kind.OpeningPosition? then t.instrumentId else None
  }

  function CashWeight(accountId: Id): LedgerTransaction -> real {
    (t: LedgerTransaction) => if t.accountId == accountId then FieldCash(t) else 0.0
  }

  function QuantityWeight(key: Key): LedgerTransaction -> real {
    (t: LedgerTransaction) => if t.accountId == key.0 && HeldInstrument(t) == Some(key.1) then FieldQuantity(t) else 0.0
  }

  // ---------------------------------------------------------------- recorded effects

  /** An effect carries the movements that its transaction's own fields call for. */
  ghost predicate Matches(e: Effect, t: LedgerTransaction) {
    && e.kind == t.kind
    && e.accountId == t.accountId
    && e.instrumentId == HeldInstrument(t)
    && e.cashDelta == FieldCash(t)
    && e.quantityDelta == FieldQuantity(t)
    && (t.kind.Buy? || t.kind.OpeningPosition? ==> e.costDelta == FieldCost(t))
    && (e.uncertaintyDelta == 0 || e.uncertaintyDelta == 1)
  }

  /** The effects kept by a replay are exactly those of the originals replayed. */
  ghost predicate Recorded(ts: seq<LedgerTransaction>, b: Books) {
    && b.effects.Keys == OriginalIds(ts)
    && b.reversed == Targets(ts)
    && b.reversed <= b.effects.Keys
    && forall t | t in ts && !t.kind.Reversal? :: t.id in b.effects && Matches(b.effects[t.id], t)
  }

  lemma OriginalMatches(b: Books, t: LedgerTransaction)
    requires ShapeError(t).None? && !t.kind.Reversal? && EffectOf(b, t).Success?
    ensures Matches(EffectOf(b, t).value, t)
  {
  }

  lemma LastOf(ts: seq<LedgerTransaction>)
    requires ts != []
    ensures ts == ts[..|ts| - 1] + [ts[|ts| - 1]]
    ensures forall x :: x in ts <==> x in ts[..|ts| - 1] || x == ts[|ts| - 1]
  {
    assert ts == ts[..|ts| - 1] + [ts[|ts| - 1]];
  }

  lemma ValidFront(fundId: Id, ts: seq<LedgerTransaction>)
    requires ts != [] && ValidInput(fundId, ts)
    ensures ValidInput(fundId, ts[..|ts| - 1])
    ensures TransactionError(fundId, ts[|ts| - 1]).None?
    ensures forall x | x in ts[..|ts| - 1] :: x.id != ts[|ts| - 1].id
  {
    LastOf(ts);
    forall x | x in ts[..|ts| - 1]
      ensures x.id != ts[|ts| - 1].id
    {
      var i :| 0 <= i < |ts| - 1 && ts[i] == x;
      assert ts[i].id != ts[|ts| - 1].id;
    }
  }

  /** How the live originals change when one more transaction is replayed. */
  lemma TargetsOfLast(ts: seq<LedgerTransaction>)
    requires ts != []
    ensures var front, t := ts[..|ts| - 1], ts[|ts| - 1];
            && Targets(ts) == Targets(front) + (if t.kind.Reversal? && t.reverses.Some? then {t.reverses.value} else {})
            && OriginalIds(ts) == OriginalIds(front) + (if t.kind.Reversal? then {} else {t.id})
  {
    LastOf(ts);
  }

  lemma StepFacts(b: Books, t: LedgerTransaction)
    requires Step(b, t).Success?
    ensures EffectOf(b, t).Success?
    ensures !t.kind.Reversal? ==>
              && Step(b, t).value.effects == b.effects[t.id := EffectOf(b, t).value]
              && Step(b, t).value.reversed == b.reversed
    ensures t.kind.Reversal? ==>
              && t.reverses.Some? && t.reverses.value in b.effects && t.reverses.value !in b.reversed
              && Step(b, t).value.effects == b.effects
              && Step(b, t).value.reversed == b.reversed + {t.reverses.value}
              && EffectOf(b, t).value == Inverse(b.effects[t.reverses.value])
  {
  }

  lemma StepRecords(front: seq<LedgerTransaction>, t: LedgerTransaction, b: Books)
    requires Recorded(front, b) && Step(b, t).Success? && ShapeError(t).None?
    requires forall x | x in front :: x.id != t.id
    ensures var n := Step(b, t).value;
            forall x | (x in front || x == t) && !x.kind.Reversal? :: x.id in n.effects && Matches(n.effects[x.id], x)
  {
    StepFacts(b, t);
    if !t.kind.Reversal? {
      OriginalMatches(b, t);
    }
  }

  lemma {:induction false} ReplayRecords(fundId: Id, ts: seq<LedgerTransaction>)
    requires ValidInput(fundId, ts) && Replay(ts).Success?
    ensures Recorded(ts, Replay(ts).value)
  {
    if ts == [] {
    } else {
      var front, t := ts[..|ts| - 1], ts[|ts| - 1];
      ValidFront(fundId, ts);
      LastOf(ts);
      TargetsOfLast(ts);
      ReplayRecords(fundId, front);
      StepFacts(Replay(front).value, t);
      StepRecords(front, t, Replay(front).value);
    }
  }

  // ---------------------------------------------------------------- the general law

  function EffectWeight(effects: map<Id, Effect>, f: Effect -> real): LedgerTransaction -> real {
    (t: LedgerTransaction) => if t.id in effects then f(effects[t.id]) else 0.0
  }

  /** A quantity that the inverse effect takes back exactly. */
  ghost predicate Odd(f: Effect -> real) {
    forall e :: f(Inverse(e)) == -f(e)
  }

  /** `g` reads off the books what each applied effect adds by `f`. */
  ghost predicate Accumulates(f: Effect -> real, g: Books -> real) {
    && g(EMPTY_BOOKS) == 0.0
    && forall b, t | Step(b, t).Success? :: g(Step(b, t).value) == g(b) + f(EffectOf(b, t).value)
  }

  lemma OthersDiffer(ts: seq<LedgerTransaction>, i: nat)
    requires UniqueIds(ts) && i < |ts|
    ensures forall y | y in ts[..i] :: y.id != ts[i].id
    ensures forall y | y in ts[i + 1..] :: y.id != ts[i].id
  {
    forall y | y in ts[..i]
      ensures y.id != ts[i].id
    {
      var j :| 0 <= j < i && ts[j] == y;
    }
    forall y | y in ts[i + 1..]
      ensures y.id != ts[i].id
    {
      var j :| i < j < |ts| && ts[j] == y;
    }
  }

  lemma ReversalTakesBack(ts: seq<LedgerTransaction>, reversed: set<Id>, w: LedgerTransaction -> real, i: nat)
    requires UniqueIds(ts) && i < |ts| && !ts[i].kind.Reversal? && ts[i].id !in reversed
    ensures SumBy(ts, LiveWeight(reversed + {ts[i].id}, w)) == SumBy(ts, LiveWeight(reversed, w)) - w(ts[i])
  {
    var before, after := LiveWeight(reversed, w), LiveWeight(reversed + {ts[i].id}, w);
    OthersDiffer(ts, i);
    SumBySplit(ts, i, before);
    SumBySplit(ts, i, after);
    SumByAgree(ts[..i], before, after);
    SumByAgree(ts[i + 1..], before, after);
  }

  lemma OriginalAt(ts: seq<LedgerTransaction>, x: Id) returns (i: nat)
    requires x in OriginalIds(ts)
    ensures i < |ts| && ts[i].id == x && !ts[i].kind.Reversal?
  {
    var t :| t in ts && !t.kind.Reversal? && t.id == x;
    i :| 0 <= i < |ts| && ts[i] == t;
  }

  lemma SumAfterOriginal(front: seq<LedgerTransaction>, t: LedgerTransaction, effects: map<Id, Effect>, e: Effect,
                         f: Effect -> real)
    requires !t.kind.Reversal? && t.id !in Targets(front)
    requires forall x | x in front :: x.id != t.id
    ensures LiveSum(front + [t], EffectWeight(effects[t.id := e], f)) == LiveSum(front, EffectWeight(effects, f)) + f(e)
  {
    var ts, v, w := front + [t], EffectWeight(effects, f), EffectWeight(effects[t.id := e], f);
    TargetsOfLast(ts);
    assert ts[..|ts| - 1] == front;
    assert Targets(ts) == Targets(front);
    assert forall x | x in front :: v(x) == w(x);
    SumByAgree(front, LiveWeight(Targets(front), v), LiveWeight(Targets(front), w));
  }

  lemma SumAfterReversal(front: seq<LedgerTransaction>, r: LedgerTransaction, effects: map<Id, Effect>,
                         f: Effect -> real)
    requires UniqueIds(front) && r.kind.Reversal? && r.reverses.Some?
    requires r.reverses.value in OriginalIds(front) && r.reverses.value in effects
             && r.reverses.value !in Targets(front)
    ensures LiveSum(front + [r], EffectWeight(effects, f)) ==
              LiveSum(front, EffectWeight(effects, f)) - f(effects[r.reverses.value])
  {
    var ts := front + [r];
    TargetsOfLast(ts);
    assert ts[..|ts| - 1] == front;
    var i := OriginalAt(front, r.reverses.value);
    ReversalTakesBack(front, Targets(front), EffectWeight(effects, f), i);
  }

  /**
   * The conservation law: whatever a replay accumulates from its effects equals the sum of the
   * recorded effects of the originals that are still live at the end.
   */
  lemma {:induction false} Conserved(fundId: Id, ts: seq<LedgerTransaction>, f: Effect -> real, g: Books -> real)
    requires ValidInput(fundId, ts) && Replay(ts).Success?
    requires Odd(f) && Accumulates(f, g)
    ensures g(Replay(ts).value) == LiveSum(ts, EffectWeight(Replay(ts).value.effects, f))
  {
    if ts == [] {
    } else {
      var front, t := ts[..|ts| - 1], ts[|ts| - 1];
      var b := Replay(front).value;
      ValidFront(fundId, ts);
      LastOf(ts);
      ReplayRecords(fundId, front);
      Conserved(fundId, front, f, g);
      StepFacts(b, t);
      if t.kind.Reversal? {
        SumAfterReversal(front, t, b.effects, f);
      } else {
        SumAfterOriginal(front, t, b.effects, EffectOf(b, t).value, f);
      }
    }
  }

  // ---------------------------------------------------------------- cash and quantity

  function AccountCash(accountId: Id): Effect -> real {
    (e: Effect) => if e.accountId == accountId then e.cashDelta else 0.0
  }

  function KeyQuantity(key: Key): Effect -> real {
    (e: Effect) => if e.accountId == key.0 && e.instrumentId == Some(key.1) then e.quantityDelta else 0.0
  }

  function BooksCash(accountId: Id): Books -> real {
    (b: Books) => CashAt(b.cash, accountId)
  }

  function BooksQuantity(key: Key): Books -> real {
    (b: Books) => PositionAt(b.positions, key).quantity
  }

  lemma CashAccumulates(accountId: Id)
    ensures Odd(AccountCash(accountId)) && Accumulates(AccountCash(accountId), BooksCash(accountId))
  {
  }

  lemma QuantityAccumulates(key: Key)
    ensures Odd(KeyQuantity(key)) && Accumulates(KeyQuantity(key), BooksQuantity(key))
  {
  }

  /** Each account's cash is the signed sum over its live originals, computed from their own fields. */
  lemma CashConserved(fundId: Id, ts: seq<LedgerTransaction>, accountId: Id)
    requires ValidInput(fundId, ts) && Replay(ts).Success?
    ensures CashAt(Replay(ts).value.cash, accountId) == LiveSum(ts, CashWeight(accountId))
  {
    var b := Replay(ts).value;
    var f := AccountCash(accountId);
    CashAccumulates(accountId);
    Conserved(fundId, ts, f, BooksCash(accountId));
    ReplayRecords(fundId, ts);
    SumByAgree(ts, LiveWeight(Targets(ts), EffectWeight(b.effects, f)), LiveWeight(Targets(ts), CashWeight(accountId)));
  }

  /** Each holding is the signed sum of the live originals' own quantities. */
  lemma QuantityConserved(fundId: Id, ts: seq<LedgerTransaction>, key: Key)
    requires ValidInput(fundId, ts) && Replay(ts).Success?
    ensures PositionAt(Replay(ts).value.positions, key).quantity == LiveSum(ts, QuantityWeight(key))
  {
    var b := Replay(ts).value;
    var f := KeyQuantity(key);
    QuantityAccumulates(key);
    Conserved(fundId, ts, f, BooksQuantity(key));
    ReplayRecords(fundId, ts);
    SumByAgree(ts, LiveWeight(Targets(ts), EffectWeight(b.effects, f)), LiveWeight(Targets(ts), QuantityWeight(key)));
  }

  lemma TargetsWithoutPair(p: seq<LedgerTransaction>, o: LedgerTransaction, m: seq<LedgerTransaction>,
                           r: LedgerTransaction, q: seq<LedgerTransaction>)
    requires !o.kind.Reversal? && r.kind.Reversal? && r.reverses == Some(o.id)
    ensures Targets(p + [o] + m + [r] + q) == Targets(p + m + q) + {o.id}
  {
    var full, rest := p + [o] + m + [r] + q, p + m + q;
    forall x
      ensures x in full <==> x in rest || x == o || x == r
    {
    }
    assert r in full;
  }

  lemma OthersInPair(p: seq<LedgerTransaction>, o: LedgerTransaction, rest: seq<LedgerTransaction>)
    requires UniqueIds(p + [o] + rest)
    ensures forall y | y in p || y in rest :: y.id != o.id
  {
    var full := p + [o] + rest;
    OthersDiffer(full, |p|);
    assert full[|p|] == o && full[..|p|] == p && full[|p| + 1..] == rest;
  }

  lemma SumByPair(p: seq<LedgerTransaction>, o: LedgerTransaction, m: seq<LedgerTransaction>,
                  r: LedgerTransaction, q: seq<LedgerTransaction>, v: LedgerTransaction -> real)
    ensures SumBy(p + [o] + m + [r] + q, v) == SumBy(p, v) + v(o) + SumBy(m, v) + v(r) + SumBy(q, v)
  {
    SumByConcat(p + [o] + m + [r], q, v);
    SumByConcat(p + [o] + m, [r], v);
    SumByConcat(p + [o], m, v);
    SumByConcat(p, [o], v);
    assert SumBy([o], v) == v(o) && SumBy([r], v) == v(r);
  }

  lemma DeadPairWeighsNothing(p: seq<LedgerTransaction>, o: LedgerTransaction, m: seq<LedgerTransaction>,
                              r: LedgerTransaction, q: seq<LedgerTransaction>, dead: set<Id>,
                              w: LedgerTransaction -> real)
    requires r.kind.Reversal?
    requires forall y | y in p :: y.id != o.id
    requires forall y | y in m :: y.id != o.id
    requires forall y | y in q :: y.id != o.id
    ensures SumBy(p + m + q, LiveWeight(dead, w)) == SumBy(p + [o] + m + [r] + q, LiveWeight(dead + {o.id}, w))
  {
    var all, some := LiveWeight(dead + {o.id}, w), LiveWeight(dead, w);
    SumByPair(p, o, m, r, q, all);
    SumByConcat(p + m, q, some);
    SumByConcat(p, m, some);
    SumByAgree(p, all, some);
    SumByAgree(m, all, some);
    SumByAgree(q, all, some);
  }

  lemma LiveSumWithoutPair(p: seq<LedgerTransaction>, o: LedgerTransaction, m: seq<LedgerTransaction>,
                           r: LedgerTransaction, q: seq<LedgerTransaction>, w: LedgerTransaction -> real)
    requires UniqueIds(p + [o] + m + [r] + q)
    requires !o.kind.Reversal? && r.kind.Reversal? && r.reverses == Some(o.id)
    ensures LiveSum(p + m + q, w) == LiveSum(p + [o] + m + [r] + q, w)
  {
    TargetsWithoutPair(p, o, m, r, q);
    assert p + [o] + m + [r] + q == p + [o] + (m + [r] + q);
    OthersInPair(p, o, m + [r] + q);
    assert forall y | y in m || y in q :: y in m + [r] + q;
    DeadPairWeighsNothing(p, o, m, r, q, Targets(p + m + q), w);
  }

  /** Dropping one transaction keeps input valid. */
  lemma ValidWithoutOne(fundId: Id, a: seq<LedgerTransaction>, x: LedgerTransaction, b: seq<LedgerTransaction>)
    requires ValidInput(fundId, a + [x] + b)
    ensures ValidInput(fundId, a + b)
  {
    var full, rest := a + [x] + b, a + b;
    forall i, j | 0 <= i < j < |rest|
      ensures rest[i].id != rest[j].id
    {
      var i', j' := if i < |a| then i else i + 1, if j < |a| then j else j + 1;
      assert full[i'] == rest[i] && full[j'] == rest[j];
    }
    assert forall t | t in rest :: t in full;
  }

  lemma ValidWithoutPair(fundId: Id, p: seq<LedgerTransaction>, o: LedgerTransaction, m: seq<LedgerTransaction>,
                         r: LedgerTransaction, q: seq<LedgerTransaction>)
    requires ValidInput(fundId, p + [o] + m + [r] + q)
    ensures ValidInput(fundId, p + m + q)
  {
    ValidWithoutOne(fundId, p + [o] + m, r, q);
    assert p + [o] + m + q == p + [o] + (m + q);
    ValidWithoutOne(fundId, p, o, m + q);
    assert p + (m + q) == p + m + q;
  }

  /** Removing a transaction together with its reversal changes neither cash nor quantities. */
  lemma PairDeletionKeepsBalances(fundId: Id, p: seq<LedgerTransaction>, o: LedgerTransaction,
                                  m: seq<LedgerTransaction>, r: LedgerTransaction, q: seq<LedgerTransaction>,
                                  accountId: Id, key: Key)
    requires ValidInput(fundId, p + [o] + m + [r] + q)
    requires !o.kind.Reversal? && r.kind.Reversal? && r.reverses == Some(o.id)
    requires Replay(p + [o] + m + [r] + q).Success? && Replay(p + m + q).Success?
    ensures var full, rest := Replay(p + [o] + m + [r] + q).value, Replay(p + m + q).value;
            && CashAt(full.cash, accountId) == CashAt(rest.cash, accountId)
            && PositionAt(full.positions, key).quantity == PositionAt(rest.positions, key).quantity
  {
    ValidWithoutPair(fundId, p, o, m, r, q);
    CashConserved(fundId, p + [o] + m + [r] + q, accountId);
    CashConserved(fundId, p + m + q, accountId);
    LiveSumWithoutPair(p, o, m, r, q, CashWeight(accountId));
    QuantityConserved(fundId, p + [o] + m + [r] + q, key);
    QuantityConserved(fundId, p + m + q, key);
    LiveSumWithoutPair(p, o, m, r, q, QuantityWeight(key));
  }

  // ---------------------------------------------------------------- uncertainty

  /** The live originals at `key` whose recorded effect raised its uncertainty. */
  ghost function UncertainIds(b: Books, key: Key): set<Id> {
    set x | x in b.effects && x !in b.reversed && b.effects[x].uncertaintyDelta == 1
            && b.effects[x].accountId == key.0 && b.effects[x].instrumentId == Some(key.1)
  }

  /** The counter is the number of live originals that introduced uncertainty, at every key. */
  ghost predicate Counted(b: Books) {
    forall key :: PositionAt(b.positions, key).uncertainty == |UncertainIds(b, key)|
  }

  predicate AtKey(e: Effect, key: Key) {
    e.accountId == key.0 && e.instrumentId == Some(key.1)
  }

  lemma UncertaintyMoves(b: Books, t: LedgerTransaction, key: Key)
    requires Step(b, t).Success?
    ensures PositionAt(Step(b, t).value.positions, key).uncertainty ==
            PositionAt(b.positions, key).uncertainty
            + (if AtKey(EffectOf(b, t).value, key) then EffectOf(b, t).value.uncertaintyDelta else 0)
  {
  }

  lemma LiveAfterReversal(b: Books, c: Books, x: Id, key: Key)
    requires x in b.effects && x !in b.reversed
    requires b.effects[x].uncertaintyDelta == 0 || b.effects[x].uncertaintyDelta == 1
    requires c.effects == b.effects && c.reversed == b.reversed + {x}
    ensures |UncertainIds(c, key)| ==
            |UncertainIds(b, key)| - (if AtKey(b.effects[x], key) then b.effects[x].uncertaintyDelta else 0)
  {
    assert UncertainIds(c, key) == UncertainIds(b, key) - {x};
  }

  lemma LiveAfterOriginal(b: Books, c: Books, x: Id, e: Effect, key: Key)
    requires x !in b.effects && x !in b.reversed
    requires e.uncertaintyDelta == 0 || e.uncertaintyDelta == 1
    requires c.effects == b.effects[x := e] && c.reversed == b.reversed
    ensures |UncertainIds(c, key)| == |UncertainIds(b, key)| + (if AtKey(e, key) then e.uncertaintyDelta else 0)
  {
    if AtKey(e, key) && e.uncertaintyDelta == 1 {
      assert UncertainIds(c, key) == UncertainIds(b, key) + {x};
    } else {
      assert UncertainIds(c, key) == UncertainIds(b, key);
    }
  }

  lemma CountStep(ts: seq<LedgerTransaction>, b: Books, t: LedgerTransaction, key: Key)
    requires Recorded(ts, b) && Step(b, t).Success?
    requires PositionAt(b.positions, key).uncertainty == |UncertainIds(b, key)|
    requires ShapeError(t).None? && t.id !in b.effects
    ensures PositionAt(Step(b, t).value.positions, key).uncertainty == |UncertainIds(Step(b, t).value, key)|
  {
    UncertaintyMoves(b, t, key);
    StepFacts(b, t);
    if t.kind.Reversal? {
      var i := OriginalAt(ts, t.reverses.value);
      assert Matches(b.effects[t.reverses.value], ts[i]);
      LiveAfterReversal(b, Step(b, t).value, t.reverses.value, key);
    } else {
      OriginalMatches(b, t);
      LiveAfterOriginal(b, Step(b, t).value, t.id, EffectOf(b, t).value, key);
    }
  }

  lemma {:induction false} UncertaintyCounts(fundId: Id, ts: seq<LedgerTransaction>)
    requires ValidInput(fundId, ts) && Replay(ts).Success?
    ensures Counted(Replay(ts).value)
  {
    if ts == [] {
      forall key
        ensures UncertainIds(EMPTY_BOOKS, key) == {}
      {
      }
    } else {
      var front, t := ts[..|ts| - 1], ts[|ts| - 1];
      ValidFront(fundId, ts);
      UncertaintyCounts(fundId, front);
      ReplayRecords(fundId, front);
      var b := Replay(front).value;
      forall key
        ensures PositionAt(Step(b, t).value.positions, key).uncertainty == |UncertainIds(Step(b, t).value, key)|
      {
        CountStep(front, b, t, key);
      }
    }
  }

  /** When the i-th transaction of a history introduces uncertainty, said without the engine's record of it. */
  ghost predicate IntroducesUncertainty(ts: seq<LedgerTransaction>, i: nat)
    requires i < |ts| && Replay(ts[..i]).Success?
  {
    var t := ts[i];
    || (t.kind.OpeningPosition? && t.unitPrice.None?)
    || (t.kind.Sell? && t.instrumentId.Some?
        && PositionAt(Replay(ts[..i]).value.positions, (t.accountId, t.instrumentId.value)).uncertainty != 0)
  }

  lemma {:induction false} RecordedUncertainty(fundId: Id, ts: seq<LedgerTransaction>, i: nat)
    requires ValidInput(fundId, ts) && Replay(ts).Success?
    requires i < |ts| && !ts[i].kind.Reversal?
    ensures Replay(ts[..i]).Success? && ts[i].id in Replay(ts).value.effects
    ensures EffectOf(Replay(ts[..i]).value, ts[i]) == Success(Replay(ts).value.effects[ts[i].id])
    ensures Replay(ts).value.effects[ts[i].id].uncertaintyDelta == 1 <==> IntroducesUncertainty(ts, i)
  {
    var front, t := ts[..|ts| - 1], ts[|ts| - 1];
    ValidFront(fundId, ts);
    if i < |front| {
      RecordedUncertainty(fundId, front, i);
      assert front[..i] == ts[..i];
      assert ts[i].id != t.id;
    }
  }

  /**
   * A held position is reported with unknown cost basis exactly when some live original at its key
   * introduced uncertainty: an unpriced opening, or a sale made while the basis was uncertain.
   */
  lemma UnknownBasisHasLiveCause(fundId: Id, ts: seq<LedgerTransaction>, key: Key)
    requires ValidInput(fundId, ts) && Replay(ts).Success?
    ensures PositionAt(Replay(ts).value.positions, key).uncertainty != 0 <==>
            exists i | 0 <= i < |ts| ::
              && Replay(ts[..i]).Success? && IntroducesUncertainty(ts, i)
              && ts[i].id !in Targets(ts) && (ts[i].accountId, HeldInstrument(ts[i])) == (key.0, Some(key.1))
  {
    var b := Replay(ts).value;
    UncertaintyCounts(fundId, ts);
    ReplayRecords(fundId, ts);
    var u := UncertainIds(b, key);
    if PositionAt(b.positions, key).uncertainty != 0 {
      assert u != {};
      var x :| x in u;
      var i := OriginalAt(ts, x);
      RecordedUncertainty(fundId, ts, i);
      assert Matches(b.effects[x], ts[i]);
    }
    if i: nat :| (i < |ts| && Replay(ts[..i]).Success? && IntroducesUncertainty(ts, i)
        && ts[i].id !in Targets(ts) && (ts[i].accountId, HeldInstrument(ts[i])) == (key.0, Some(key.1))) {
      RecordedUncertainty(fundId, ts, i);
      assert Matches(b.effects[ts[i].id], ts[i]);
      assert ts[i].id in u;
      assert |u| != 0;
    }
  }

  lemma GuardsHoldAtStep(ts: seq<LedgerTransaction>, b: Books, t: LedgerTransaction)
    requires Recorded(ts, b) && Counted(b) && ShapeError(t).None?
    ensures Step(b, t) != Failure(InvalidReversal(UncertaintyAbsent))
    ensures Step(b, t) != Failure(InvalidReversal(TargetIsReversal))
    ensures Step(b, t) != Failure(InvalidEngineInput)
    ensures Step(b, t) != Failure(InvalidReversal(TargetMissing))
  {
    if t.kind.Reversal? {
      var x := t.reverses.value;
      if x in b.effects {
        var i := OriginalAt(ts, x);
        var e := b.effects[x];
        assert Matches(e, ts[i]);
        if x !in b.reversed && e.instrumentId.Some? && e.uncertaintyDelta == 1 {
          var key := (e.accountId, e.instrumentId.value);
          assert x in UncertainIds(b, key);
          assert PositionAt(b.positions, key).uncertainty >= 1;
        } else if e.instrumentId.Some? {
          assert PositionAt(b.positions, (e.accountId, e.instrumentId.value)).uncertainty >= 0;
        }
      }
    } else if EffectOf(b, t).Success? {
      OriginalMatches(b, t);
      var e := EffectOf(b, t).value;
      if e.instrumentId.Some? {
        assert PositionAt(b.positions, (e.accountId, e.instrumentId.value)).uncertainty >= 0;
      }
    }
  }

  /** Four of the engine's errors guard against states that no accepted input can reach. */
  lemma {:induction false} GuardsAreUnreachable(fundId: Id, ts: seq<LedgerTransaction>)
    requires ValidInput(fundId, ts)
    ensures Replay(ts) != Failure(InvalidReversal(UncertaintyAbsent))
    ensures Replay(ts) != Failure(InvalidReversal(TargetIsReversal))
    ensures Replay(ts) != Failure(InvalidEngineInput)
    ensures Replay(ts) != Failure(InvalidReversal(TargetMissing))
  {
    if ts == [] {
    } else {
      var front, t := ts[..|ts| - 1], ts[|ts| - 1];
      ValidFront(fundId, ts);
      GuardsAreUnreachable(fundId, front);
      if Replay(front).Success? {
        ReplayRecords(fundId, front);
        UncertaintyCounts(fundId, front);
        GuardsHoldAtStep(front, Replay(front).value, t);
      }
    }
  }

  /** Holdings and known cost are never negative after a successful replay. */
  lemma {:induction false} BalancesNonnegative(ts: seq<LedgerTransaction>, key: Key)
    requires Replay(ts).Success?
    ensures PositionAt(Replay(ts).value.positions, key).quantity >= 0.0
    ensures PositionAt(Replay(ts).value.positions, key).knownCost >= 0.0
  {
    if ts == [] {
    } else {
      BalancesNonnegative(ts[..|ts| - 1], key);
    }
  }

  // ---------------------------------------------------------------- what one reversal undoes

  predicate SameFigures(p: Position, q: Position) {
    p.quantity == q.quantity && p.knownCost == q.knownCost && p.uncertainty == q.uncertainty
  }

  lemma EffectThenInverse(id: Id, undo: Id, e: Effect, p: Position)
    requires p.quantity >= 0.0 && p.knownCost >= 0.0 && p.uncertainty >= 0
    requires MovePosition(id, e, p).Success?
    ensures var moved := MovePosition(undo, Inverse(e), MovePosition(id, e, p).value);
            moved.Success? && SameFigures(moved.value, p)
  {
  }

  lemma ReversalFinds(b: Books, t: LedgerTransaction, r: LedgerTransaction)
    requires !t.kind.Reversal? && Step(b, t).Success? && t.id !in b.reversed
    requires r.kind.Reversal? && r.reverses == Some(t.id) && r.accountId == t.accountId
    ensures EffectOf(Step(b, t).value, r) == Success(Inverse(EffectOf(b, t).value))
  {
    StepFacts(b, t);
  }

  /**
   * Reversing an original right after it always succeeds and restores every account's cash and every key's
   * quantity, cost and counter.
   */
  lemma ImmediateReversalRestores(b: Books, t: LedgerTransaction, r: LedgerTransaction)
    requires !t.kind.Reversal? && Step(b, t).Success? && t.id !in b.reversed
    requires r.kind.Reversal? && r.reverses == Some(t.id) && r.accountId == t.accountId
    requires forall k | k in b.positions ::
               b.positions[k].quantity >= 0.0 && b.positions[k].knownCost >= 0.0 && b.positions[k].uncertainty >= 0
    ensures Step(Step(b, t).value, r).Success?
    ensures var undone := Step(Step(b, t).value, r).value;
            && (forall a :: CashAt(undone.cash, a) == CashAt(b.cash, a))
            && (forall k :: SameFigures(PositionAt(undone.positions, k), PositionAt(b.positions, k)))
            && undone.reversed == b.reversed + {t.id}
  {
    var e := EffectOf(b, t).value;
    ReversalFinds(b, t, r);
    if e.instrumentId.Some? {
      EffectThenInverse(t.id, r.id, e, PositionAt(b.positions, (e.accountId, e.instrumentId.value)));
    }
  }
}
