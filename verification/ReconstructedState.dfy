/** What `reconstruct` accepts, replays and reports, read off the supplied transactions' own fields. */
module ReconstructedState {
  import opened Wrappers
  import opened Sorting
  import opened Sums
  import opened LedgerTypes
  import opened PortfolioEngine
  import opened Conservation
  import opened StrandedCost
  import AccountSeparation

  // ---------------------------------------------------------------- what is accepted

  /** Which fields a transaction must and must not carry, field by field. */
  predicate FieldsFit(t: LedgerTransaction) {
    && (t.kind in {Buy, Sell, OpeningPosition, Dividend} ==> t.instrumentId.Some?)
    && (t.kind in {CashDeposit, CashWithdrawal, OpeningCash, Reversal} ==> t.instrumentId.None?)
    && (if t.kind in {Buy, Sell, OpeningPosition} then Positive(t.quantity) else t.quantity.None?)
    && (t.kind in {Buy, Sell} ==> Positive(t.unitPrice))
    && (t.kind !in {Buy, Sell, OpeningPosition} ==> t.unitPrice.None?)
    && (if t.kind in {CashDeposit, CashWithdrawal, OpeningCash, Dividend, Fee} then Positive(t.amount)
        else t.amount.None?)
    && (t.kind !in {Buy, Sell} ==> t.fees == 0.0)
    && (t.reverses.Some? <==> t.kind == Reversal)
  }

  lemma FittingFields(fundId: Id, t: LedgerTransaction)
    ensures TransactionError(fundId, t).None? <==>
            t.fundId == fundId && t.currency == "USD" && t.fees >= 0.0 && FieldsFit(t)
  {
  }

  /** The engine takes its input exactly when ids differ and every transaction is of the fund, in USD, and fits. */
  lemma InputAcceptedExactly(fundId: Id, supplied: seq<LedgerTransaction>)
    ensures InputError(fundId, supplied).None? <==>
            && (forall i, j | 0 <= i < j < |supplied| :: supplied[i].id != supplied[j].id)
            && (forall t | t in supplied ::
                  t.fundId == fundId && t.currency == "USD" && t.fees >= 0.0 && FieldsFit(t))
  {
    AcceptanceMeansValid(fundId, supplied);
    forall t | t in supplied
      ensures TransactionError(fundId, t).None? <==>
              t.fundId == fundId && t.currency == "USD" && t.fees >= 0.0 && FieldsFit(t)
    {
      FittingFields(fundId, t);
    }
  }

  // ---------------------------------------------------------------- what is replayed

  lemma OrderedByFields(ts: seq<LedgerTransaction>, i: nat, j: nat)
    requires UniqueIds(ts) && Sorted(ReplayLe, ts) && i < j < |ts|
    ensures || ts[i].effectiveAt < ts[j].effectiveAt
            || (ts[i].effectiveAt == ts[j].effectiveAt && ts[i].recordedAt < ts[j].recordedAt)
            || (ts[i].effectiveAt == ts[j].effectiveAt && ts[i].recordedAt == ts[j].recordedAt && ts[i].id < ts[j].id)
  {
    assert ReplayLe(ts[i], ts[j]);
  }

  /**
   * What a successful reconstruction replays: the supplied transactions of the account that took effect by the
   * cutoff, each once, by effective time, then recording time, then id.
   */
  lemma ReplayedInOrder(fundId: Id, supplied: seq<LedgerTransaction>, asOf: Instant, accountId: Option<Id>)
    requires Reconstruct(fundId, supplied, asOf, accountId).Success?
    ensures var state := Reconstruct(fundId, supplied, asOf, accountId).value;
            var ts := state.inputRecord.transactions;
            && state.fundId == fundId && state.accountId == accountId && state.asOf == asOf
            && state.inputRecord == CanonicalInput(fundId, accountId, asOf, ts)
            && (forall t :: t in ts <==>
                  t in supplied && t.effectiveAt <= asOf && (accountId.Some? ==> accountId.value == t.accountId))
            && (forall i, j | 0 <= i < j < |ts| ::
                  || ts[i].effectiveAt < ts[j].effectiveAt
                  || (ts[i].effectiveAt == ts[j].effectiveAt && ts[i].recordedAt < ts[j].recordedAt)
                  || (ts[i].effectiveAt == ts[j].effectiveAt && ts[i].recordedAt == ts[j].recordedAt
                      && ts[i].id < ts[j].id))
            && |state.appliedIds| == |ts|
            && (forall i | 0 <= i < |ts| :: state.appliedIds[i] == ts[i].id)
  {
    var ts := Reconstruct(fundId, supplied, asOf, accountId).value.inputRecord.transactions;
    AcceptanceMeansValid(fundId, supplied);
    OrderedFacts(supplied, asOf, accountId);
    OrderedValid(fundId, supplied, asOf, accountId);
    forall i, j | 0 <= i < j < |ts|
      ensures || ts[i].effectiveAt < ts[j].effectiveAt
              || (ts[i].effectiveAt == ts[j].effectiveAt && ts[i].recordedAt < ts[j].recordedAt)
              || (ts[i].effectiveAt == ts[j].effectiveAt && ts[i].recordedAt == ts[j].recordedAt
                  && ts[i].id < ts[j].id)
    {
      OrderedByFields(ts, i, j);
    }
  }

  // ---------------------------------------------------------------- what is reported

  /** The transactions that moved a key, reversals included, in replay order. */
  function SourcesAt(ts: seq<LedgerTransaction>, key: Key): seq<Id> {
    if ts == [] then []
    else
      var front, t := ts[..|ts| - 1], ts[|ts| - 1];
      SourcesAt(front, key) + (if Moves(front, t, key) then [t.id] else [])
  }

  lemma MovedAppends(front: seq<LedgerTransaction>, b: Books, t: LedgerTransaction, key: Key)
    requires Recorded(front, b) && UniqueIds(front) && Step(b, t).Success? && ShapeError(t).None?
    requires Moves(front, t, key)
    ensures PositionAt(Step(b, t).value.positions, key).sources == PositionAt(b.positions, key).sources + [t.id]
  {
    if t.kind.Reversal? {
      var o := TargetOf(front, b, t);
      assert HeldAt(o, key);
    } else {
      OriginalMatches(b, t);
    }
  }

  lemma {:induction false} SourcesAreMoves(fundId: Id, ts: seq<LedgerTransaction>, key: Key)
    requires ValidInput(fundId, ts) && Replay(ts).Success?
    ensures PositionAt(Replay(ts).value.positions, key).sources == SourcesAt(ts, key)
  {
    if ts == [] {
    } else {
      var front, t := ts[..|ts| - 1], ts[|ts| - 1];
      ValidFront(fundId, ts);
      SourcesAreMoves(fundId, front, key);
      ReplayRecords(fundId, front);
      if Moves(front, t, key) {
        MovedAppends(front, Replay(front).value, t, key);
      } else {
        UnmovedStays(front, Replay(front).value, t, key);
      }
    }
  }

  // ---------------------------------------------------------------- cash

  ghost predicate HasBalance(cash: seq<CashBalance>, accountId: Id) {
    exists c :: c in cash && c.accountId == accountId
  }

  ghost predicate Occurs(ts: seq<LedgerTransaction>, accountId: Id) {
    exists t :: t in ts && t.accountId == accountId
  }

  lemma {:induction false} CashKeys(ts: seq<LedgerTransaction>, accountId: Id)
    requires Replay(ts).Success?
    ensures accountId in Replay(ts).value.cash <==> Occurs(ts, accountId)
  {
    if ts == [] {
    } else {
      LastOf(ts);
      CashKeys(ts[..|ts| - 1], accountId);
    }
  }

  lemma ListedBalances(accounts: seq<Id>, cash: map<Id, real>)
    ensures forall c | c in ListCash(accounts, cash) :: c.accountId in accounts && c.amount == CashAt(cash, c.accountId)
    ensures forall a | a in accounts :: HasBalance(ListCash(accounts, cash), a)
  {
    var balances := ListCash(accounts, cash);
    forall a | a in accounts
      ensures HasBalance(balances, a)
    {
      var i :| 0 <= i < |accounts| && accounts[i] == a;
      assert balances[i] in balances;
    }
  }

  function CashDelta(): Effect -> real {
    (e: Effect) => e.cashDelta
  }

  ghost function AllCash(): Books -> real {
    (b: Books) => SumMap(b.cash)
  }

  lemma AllCashAccumulates()
    ensures Odd(CashDelta()) && Accumulates(CashDelta(), AllCash())
  {
    forall b, t | Step(b, t).Success?
      ensures AllCash()(Step(b, t).value) == AllCash()(b) + CashDelta()(EffectOf(b, t).value)
    {
      AccountSeparation.StepParts(b, t);
      SumMapUpdate(b.cash, t.accountId, CashAt(b.cash, t.accountId) + EffectOf(b, t).value.cashDelta);
    }
  }

  function Cash(): LedgerTransaction -> real {
    (t: LedgerTransaction) => FieldCash(t)
  }

  lemma AllCashConserved(fundId: Id, ts: seq<LedgerTransaction>)
    requires ValidInput(fundId, ts) && Replay(ts).Success?
    ensures SumMap(Replay(ts).value.cash) == LiveSum(ts, Cash())
  {
    var b := Replay(ts).value;
    AllCashAccumulates();
    Conserved(fundId, ts, CashDelta(), AllCash());
    ReplayRecords(fundId, ts);
    SumByAgree(ts, LiveWeight(Targets(ts), EffectWeight(b.effects, CashDelta())), LiveWeight(Targets(ts), Cash()));
  }

  lemma BalancesInFields(fundId: Id, ts: seq<LedgerTransaction>, cash: seq<CashBalance>)
    requires ValidInput(fundId, ts) && Replay(ts).Success?
    requires var b := Replay(ts).value; cash == ListCash(SortedAccounts(b.cash.Keys), b.cash)
    ensures forall a :: HasBalance(cash, a) <==> Occurs(ts, a)
    ensures forall i, j | 0 <= i < j < |cash| :: cash[i].accountId < cash[j].accountId
    ensures forall c | c in cash :: c.amount == LiveSum(ts, CashWeight(c.accountId))
  {
    var b := Replay(ts).value;
    var accounts := SortedAccounts(b.cash.Keys);
    ListedBalances(accounts, b.cash);
    AccountsAscend(accounts, b.cash);
    forall a
      ensures HasBalance(cash, a) <==> Occurs(ts, a)
    {
      CashKeys(ts, a);
    }
    forall c | c in cash
      ensures c.amount == LiveSum(ts, CashWeight(c.accountId))
    {
      CashConserved(fundId, ts, c.accountId);
    }
  }

  lemma AccountsAscend(accounts: seq<Id>, cash: map<Id, real>)
    requires accounts == SortedAccounts(cash.Keys)
    ensures forall i, j | 0 <= i < j < |accounts| ::
              ListCash(accounts, cash)[i].accountId < ListCash(accounts, cash)[j].accountId
  {
  }

  /** What a successful reconstruction is the output of. */
  lemma ReconstructedFrom(fundId: Id, supplied: seq<LedgerTransaction>, asOf: Instant, accountId: Option<Id>)
    returns (ts: seq<LedgerTransaction>)
    requires Reconstruct(fundId, supplied, asOf, accountId).Success?
    ensures ValidInput(fundId, ts) && Replay(ts).Success?
    ensures var state := Reconstruct(fundId, supplied, asOf, accountId).value;
            state == Output(fundId, accountId, asOf, ts, Replay(ts).value) && ts == state.inputRecord.transactions
  {
    ts := Ordered(supplied, asOf, accountId);
    AcceptanceMeansValid(fundId, supplied);
    OrderedValid(fundId, supplied, asOf, accountId);
  }

  /**
   * The reported cash: one balance for each account that occurs, in account order, each the signed sum over the
   * account's live originals, and in total the sum over all of them.
   */
  lemma ReportedCashInFields(fundId: Id, supplied: seq<LedgerTransaction>, asOf: Instant, accountId: Option<Id>)
    requires Reconstruct(fundId, supplied, asOf, accountId).Success?
    ensures var state := Reconstruct(fundId, supplied, asOf, accountId).value;
            var (ts, cash) := (state.inputRecord.transactions, state.cashByAccount);
            && (forall a :: HasBalance(cash, a) <==> Occurs(ts, a))
            && (forall i, j | 0 <= i < j < |cash| :: cash[i].accountId < cash[j].accountId)
            && (forall c | c in cash :: c.amount == LiveSum(ts, CashWeight(c.accountId)))
            && state.cash == LiveSum(ts, Cash())
  {
    var ts := ReconstructedFrom(fundId, supplied, asOf, accountId);
    BalancesInFields(fundId, ts, Reconstruct(fundId, supplied, asOf, accountId).value.cashByAccount);
    AccountSeparation.ReportedCash(fundId, accountId, asOf, ts, Replay(ts).value);
    AllCashConserved(fundId, ts);
  }

  // ---------------------------------------------------------------- positions

  ghost predicate HasPosition(ps: seq<PositionState>, key: Key) {
    exists p :: p in ps && KeyOf(p) == key
  }

  /** What is reported of one holding. */
  ghost predicate Reports(ts: seq<LedgerTransaction>, p: PositionState) {
    && p.quantity == LiveSum(ts, QuantityWeight(KeyOf(p)))
    && p.sourceIds == SourcesAt(ts, KeyOf(p))
    && (p.averageCost.Some? <==> p.totalCostBasis.Some?)
    && (p.averageCost.Some? ==> p.averageCost.value * p.quantity == p.totalCostBasis.value)
    && (p.totalCostBasis.None? <==> MadeUncertain(ts, KeyOf(p)))
  }

  /** Some live original at the key made its basis unknown. */
  ghost predicate MadeUncertain(ts: seq<LedgerTransaction>, key: Key) {
    exists i | 0 <= i < |ts| ::
      && Replay(ts[..i]).Success? && IntroducesUncertainty(ts, i) && ts[i].id !in Targets(ts)
      && (ts[i].accountId, HeldInstrument(ts[i])) == (key.0, Some(key.1))
  }

  /** What is reported of one holding, from the record behind it. */
  lemma ReportsRecord(fundId: Id, ts: seq<LedgerTransaction>, p: PositionState, held: Position)
    requires ValidInput(fundId, ts) && Replay(ts).Success?
    requires held == PositionAt(Replay(ts).value.positions, KeyOf(p)) && p.quantity == held.quantity
    requires p.sourceIds == held.sources
    requires (p.totalCostBasis.Some? <==> held.uncertainty == 0) && (p.averageCost.Some? <==> held.uncertainty == 0)
    requires p.averageCost.Some? ==> p.averageCost.value * p.quantity == p.totalCostBasis.value
    ensures Reports(ts, p)
  {
    QuantityConserved(fundId, ts, KeyOf(p));
    SourcesAreMoves(fundId, ts, KeyOf(p));
    UncertainExactly(fundId, ts, KeyOf(p));
  }

  lemma UncertainExactly(fundId: Id, ts: seq<LedgerTransaction>, key: Key)
    requires ValidInput(fundId, ts) && Replay(ts).Success?
    ensures PositionAt(Replay(ts).value.positions, key).uncertainty != 0 <==> MadeUncertain(ts, key)
  {
    UnknownBasisHasLiveCause(fundId, ts, key);
  }

  lemma ReportsHolding(fundId: Id, accountId: Option<Id>, asOf: Instant, ts: seq<LedgerTransaction>, p: PositionState)
    requires ValidInput(fundId, ts) && Replay(ts).Success?
    requires p in Output(fundId, accountId, asOf, ts, Replay(ts).value).positions
    ensures Reports(ts, p)
  {
    var b := Replay(ts).value;
    ReportedPositions(fundId, accountId, asOf, ts, b);
    ReportsRecord(fundId, ts, p, b.positions[KeyOf(p)]);
  }

  lemma HeldExactly(fundId: Id, accountId: Option<Id>, asOf: Instant, ts: seq<LedgerTransaction>, key: Key)
    requires ValidInput(fundId, ts) && Replay(ts).Success?
    ensures HasPosition(Output(fundId, accountId, asOf, ts, Replay(ts).value).positions, key) <==>
            LiveSum(ts, QuantityWeight(key)) != 0.0
  {
    var b := Replay(ts).value;
    QuantityConserved(fundId, ts, key);
    ReportedPositions(fundId, accountId, asOf, ts, b);
    assert key in OpenKeys(b.positions) <==> PositionAt(b.positions, key).quantity != 0.0;
  }

  lemma KeysAscend(ps: seq<PositionState>, i: nat, j: nat)
    requires Ascending(ps) && i < j < |ps|
    ensures || ps[i].accountId < ps[j].accountId
            || (ps[i].accountId == ps[j].accountId && ps[i].instrumentId < ps[j].instrumentId)
  {
  }

  /**
   * The reported positions: one for each account and instrument whose live originals do not add up to nothing, by
   * account and then instrument, with that quantity, the transactions that moved it, and a basis with its average
   * unless a live original made it unknown.
   */
  lemma ReportedPositionsInFields(fundId: Id, supplied: seq<LedgerTransaction>, asOf: Instant, accountId: Option<Id>)
    requires Reconstruct(fundId, supplied, asOf, accountId).Success?
    ensures var state := Reconstruct(fundId, supplied, asOf, accountId).value;
            var (ts, ps) := (state.inputRecord.transactions, state.positions);
            && (forall k: Key :: HasPosition(ps, k) <==> LiveSum(ts, QuantityWeight(k)) != 0.0)
            && (forall i, j | 0 <= i < j < |ps| ::
                  || ps[i].accountId < ps[j].accountId
                  || (ps[i].accountId == ps[j].accountId && ps[i].instrumentId < ps[j].instrumentId))
            && (forall p | p in ps :: Reports(ts, p))
  {
    var ts := ReconstructedFrom(fundId, supplied, asOf, accountId);
    var ps := Reconstruct(fundId, supplied, asOf, accountId).value.positions;
    ReportedPositions(fundId, accountId, asOf, ts, Replay(ts).value);
    forall k: Key
      ensures HasPosition(ps, k) <==> LiveSum(ts, QuantityWeight(k)) != 0.0
    {
      HeldExactly(fundId, accountId, asOf, ts, k);
    }
    forall p | p in ps
      ensures Reports(ts, p)
    {
      ReportsHolding(fundId, accountId, asOf, ts, p);
    }
    forall i, j | 0 <= i < j < |ps|
      ensures || ps[i].accountId < ps[j].accountId
              || (ps[i].accountId == ps[j].accountId && ps[i].instrumentId < ps[j].instrumentId)
    {
      KeysAscend(ps, i, j);
    }
  }
}
