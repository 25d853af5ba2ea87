/**
 * Portfolio reconstruction (app/portfolio/engine.py).
 *
 * The functions give the meaning of a replay on immutable books; the engine itself, which updates
 * dictionaries and position records in place and computes exactly that meaning, is in `ReplayEngine`.
 */
module PortfolioEngine {
  import opened Wrappers
  import opened Sorting
  import opened LedgerTypes

  datatype ReversalProblem =
    | TargetMissing
    | TargetNotApplied
    | TargetIsReversal
    | AlreadyReversed
    | OtherAccount
    | UncertaintyAbsent

  datatype EngineError =
    | InvalidEngineInput
    | InvalidReversal(problem: ReversalProblem)
    | NegativeHolding(transactionId: Id)
    | NegativeCostBasis(transactionId: Id)

  datatype Position = Position(quantity: real, knownCost: real, uncertainty: int, sources: seq<Id>)

  datatype Effect = Effect(
    kind: Kind,
    accountId: Id,
    instrumentId: Option<Id>,
    cashDelta: real,
    quantityDelta: real,
    costDelta: real,
    uncertaintyDelta: int)

  /** Everything a replay keeps while it runs. */
  datatype Books = Books(
    cash: map<Id, real>,
    positions: map<Key, Position>,
    effects: map<Id, Effect>,
    reversed: set<Id>)

  const NO_POSITION := Position(0.0, 0.0, 0, [])
  const EMPTY_BOOKS := Books(map[], map[], map[], {})

  function PositionAt(positions: map<Key, Position>, key: Key): Position {
    if key in positions then positions[key] else NO_POSITION
  }

  function CashAt(cash: map<Id, real>, accountId: Id): real {
    if accountId in cash then cash[accountId] else 0.0
  }

  // ---------------------------------------------------------------- validation

  function Required(value: Option<real>): Result<real, EngineError> {
    if value.Some? && value.value > 0.0 then Success(value.value) else Failure(InvalidEngineInput)
  }

  function RequiredInstrument(t: LedgerTransaction): Result<Id, EngineError> {
    if t.instrumentId.Some? then Success(t.instrumentId.value) else Failure(InvalidEngineInput)
  }

  function RequiredTarget(t: LedgerTransaction): Result<Id, EngineError> {
    if t.reverses.Some? then Success(t.reverses.value) else Failure(InvalidReversal(TargetMissing))
  }

  predicate NoPositionFields(t: LedgerTransaction) {
    t.instrumentId.None? && t.quantity.None? && t.unitPrice.None? && t.reverses.None? && t.fees == 0.0
  }

  /** The error a transaction's field shape raises, if any. */
  function ShapeError(t: LedgerTransaction): Option<EngineError> {
    match t.kind
    case Buy | Sell =>
      if RequiredInstrument(t).Failure? || Required(t.quantity).Failure? || Required(t.unitPrice).Failure?
         || t.amount.Some? || t.reverses.Some?
      then Some(InvalidEngineInput) else None
    case CashDeposit | CashWithdrawal | OpeningCash =>
      if Required(t.amount).Failure? || !NoPositionFields(t) then Some(InvalidEngineInput) else None
    case Dividend =>
      if RequiredInstrument(t).Failure? || Required(t.amount).Failure? || t.quantity.Some?
         || t.unitPrice.Some? || t.fees != 0.0 || t.reverses.Some?
      then Some(InvalidEngineInput) else None
    case Fee =>
      if Required(t.amount).Failure? || t.quantity.Some? || t.unitPrice.Some? || t.fees != 0.0 || t.reverses.Some?
      then Some(InvalidEngineInput) else None
    case OpeningPosition =>
      if RequiredInstrument(t).Failure? || Required(t.quantity).Failure? || t.amount.Some?
         || t.fees != 0.0 || t.reverses.Some?
      then Some(InvalidEngineInput) else None
    case Reversal =>
      if t.reverses.None? then Some(InvalidReversal(TargetMissing))
      else if t.instrumentId.Some? || t.quantity.Some? || t.unitPrice.Some? || t.amount.Some? || t.fees != 0.0
      then Some(InvalidEngineInput) else None
  }

  function TransactionError(fundId: Id, t: LedgerTransaction): Option<EngineError> {
    if t.fundId != fundId || t.currency != USD || t.fees < 0.0 then Some(InvalidEngineInput)
    else ShapeError(t)
  }

  function IdsOf(ts: seq<LedgerTransaction>): set<Id> {
    set t | t in ts :: t.id
  }

  /** The first error met while checking the supplied transactions in their supplied order. */
  function InputError(fundId: Id, ts: seq<LedgerTransaction>): Option<EngineError> {
    if ts == [] then None
    else
      var front, t := ts[..|ts| - 1], ts[|ts| - 1];
      var earlier := InputError(fundId, front);
      if earlier.Some? then earlier
      else if t.id in IdsOf(front) then Some(InvalidEngineInput)
      else TransactionError(fundId, t)
  }

  /** What acceptance means: every transaction is well formed for the fund and no id repeats. */
  ghost predicate ValidInput(fundId: Id, ts: seq<LedgerTransaction>) {
    && UniqueIds(ts)
    && forall t | t in ts :: TransactionError(fundId, t).None?
  }

  // ---------------------------------------------------------------- one transaction

  function CashEffect(t: LedgerTransaction, amount: real): Effect {
    Effect(t.kind, t.accountId, None, amount, 0.0, 0.0, 0)
  }

  /** A sale removes basis in proportion while it is known, and all or none of it while it is not. */
  function SaleEffect(t: LedgerTransaction, instrument: Id, quantity: real, price: real, position: Position)
    : (r: Result<Effect, EngineError>)
    ensures r.Success? ==> r.value.accountId == t.accountId && r.value.kind == t.kind
  {
    if quantity > position.quantity then Failure(NegativeHolding(t.id))
    else
      var proceeds := quantity * price - t.fees;
      if position.uncertainty == 0 then
        if position.quantity == 0.0 then Failure(NegativeHolding(t.id))
        else
          var removed := position.knownCost * quantity / position.quantity;
          Success(Effect(t.kind, t.accountId, Some(instrument), proceeds, -quantity, -removed, 0))
      else
        var removed := if quantity == position.quantity then position.knownCost else 0.0;
        Success(Effect(t.kind, t.accountId, Some(instrument), proceeds, -quantity, -removed, 1))
  }

  function ApplyOriginal(t: LedgerTransaction, positions: map<Key, Position>): (r: Result<Effect, EngineError>)
    ensures r.Success? ==> r.value.accountId == t.accountId && r.value.kind == t.kind
  {
    match t.kind
    case OpeningCash | CashDeposit =>
      var amount :- Required(t.amount);
      Success(CashEffect(t, amount))
    case CashWithdrawal | Fee =>
      var amount :- Required(t.amount);
      Success(CashEffect(t, -amount))
    case Dividend =>
      var _ :- RequiredInstrument(t);
      var amount :- Required(t.amount);
      Success(CashEffect(t, amount))
    case Buy =>
      var instrument :- RequiredInstrument(t);
      var quantity :- Required(t.quantity);
      var price :- Required(t.unitPrice);
      var cost := quantity * price + t.fees;
      Success(Effect(t.kind, t.accountId, Some(instrument), -cost, quantity, cost, 0))
    case Sell =>
      var instrument :- RequiredInstrument(t);
      var quantity :- Required(t.quantity);
      var price :- Required(t.unitPrice);
      SaleEffect(t, instrument, quantity, price, PositionAt(positions, (t.accountId, instrument)))
    case OpeningPosition =>
      var instrument :- RequiredInstrument(t);
      var quantity :- Required(t.quantity);
      var cost := if t.unitPrice.None? then 0.0 else quantity * t.unitPrice.value;
      var uncertain := if t.unitPrice.None? then 1 else 0;
      Success(Effect(t.kind, t.accountId, Some(instrument), 0.0, quantity, cost, uncertain))
    case Reversal =>
      Failure(InvalidEngineInput)
  }

  function Inverse(e: Effect): Effect {
    Effect(Reversal, e.accountId, e.instrumentId, -e.cashDelta, -e.quantityDelta, -e.costDelta, -e.uncertaintyDelta)
  }

  function ReversalEffect(t: LedgerTransaction, effects: map<Id, Effect>, reversed: set<Id>)
    : (r: Result<Effect, EngineError>)
    ensures r.Success? ==>
              && t.reverses.Some? && t.reverses.value in effects && t.reverses.value !in reversed
              && r.value.accountId == t.accountId
  {
    var target :- RequiredTarget(t);
    if target !in effects then Failure(InvalidReversal(TargetNotApplied))
    else if effects[target].kind.Reversal? then Failure(InvalidReversal(TargetIsReversal))
    else if target in reversed then Failure(InvalidReversal(AlreadyReversed))
    else if effects[target].accountId != t.accountId then Failure(InvalidReversal(OtherAccount))
    else Success(Inverse(effects[target]))
  }

  /** A position moved by an effect, unless a figure would turn negative. */
  function MovePosition(id: Id, e: Effect, p: Position): Result<Position, EngineError> {
    var quantity := p.quantity + e.quantityDelta;
    var cost := p.knownCost + e.costDelta;
    var uncertainty := p.uncertainty + e.uncertaintyDelta;
    if quantity < 0.0 then Failure(NegativeHolding(id))
    else if cost < 0.0 then Failure(NegativeCostBasis(id))
    else if uncertainty < 0 then Failure(InvalidReversal(UncertaintyAbsent))
    else Success(Position(quantity, cost, uncertainty, p.sources + [id]))
  }

  function ApplyPositionEffect(id: Id, e: Effect, positions: map<Key, Position>)
    : Result<map<Key, Position>, EngineError>
    requires e.instrumentId.Some?
  {
    var key := (e.accountId, e.instrumentId.value);
    var moved :- MovePosition(id, e, PositionAt(positions, key));
    Success(positions[key := moved])
  }

  function EffectOf(b: Books, t: LedgerTransaction): (r: Result<Effect, EngineError>)
    ensures r.Success? ==> r.value.accountId == t.accountId
  {
    if t.kind.Reversal? then ReversalEffect(t, b.effects, b.reversed) else ApplyOriginal(t, b.positions)
  }

  /** The books after a transaction whose effect has been determined. */
  function Post(b: Books, t: LedgerTransaction, e: Effect): Result<Books, EngineError> {
    var positions :- if e.instrumentId.None? then Success(b.positions) else ApplyPositionEffect(t.id, e, b.positions);
    Success(Books(
      b.cash[t.accountId := CashAt(b.cash, t.accountId) + e.cashDelta],
      positions,
      if t.kind.Reversal? then b.effects else b.effects[t.id := e],
      if t.kind.Reversal? then b.reversed + {t.reverses.GetOr(t.id)} else b.reversed))
  }

  /** Replay one transaction on the books. */
  function Step(b: Books, t: LedgerTransaction): Result<Books, EngineError> {
    var e :- EffectOf(b, t);
    Post(b, t, e)
  }

  // ---------------------------------------------------------------- a whole replay

  /** Replay from given books, oldest transaction first. */
  function ReplayFrom(b: Books, ts: seq<LedgerTransaction>): Result<Books, EngineError> {
    if ts == [] then Success(b)
    else
      var before :- ReplayFrom(b, ts[..|ts| - 1]);
      Step(before, ts[|ts| - 1])
  }

  function Replay(ts: seq<LedgerTransaction>): Result<Books, EngineError> {
    ReplayFrom(EMPTY_BOOKS, ts)
  }

  function Included(asOf: Instant, accountId: Option<Id>): LedgerTransaction -> bool {
    (t: LedgerTransaction) => t.effectiveAt <= asOf && (accountId.None? || t.accountId == accountId.value)
  }

  function Ordered(supplied: seq<LedgerTransaction>, asOf: Instant, accountId: Option<Id>): seq<LedgerTransaction> {
    SortBy(ReplayLe, Filter(Included(asOf, accountId), supplied))
  }

  // ---------------------------------------------------------------- the result

  datatype CashBalance = CashBalance(accountId: Id, amount: real)

  datatype PositionState = PositionState(
    accountId: Id,
    instrumentId: Id,
    quantity: real,
    totalCostBasis: Option<real>,
    averageCost: Option<real>,
    sourceIds: seq<Id>)

  /** The canonical input record; the source keeps its digest. */
  datatype CanonicalInput = CanonicalInput(
    fundId: Id,
    accountId: Option<Id>,
    asOf: Instant,
    transactions: seq<LedgerTransaction>)

  datatype PortfolioState = PortfolioState(
    fundId: Id,
    accountId: Option<Id>,
    cash: real,
    cashByAccount: seq<CashBalance>,
    positions: seq<PositionState>,
    asOf: Instant,
    inputRecord: CanonicalInput,
    appliedIds: seq<Id>)

  function StateOf(key: Key, p: Position): PositionState
    requires p.quantity != 0.0
  {
    if p.uncertainty != 0 then PositionState(key.0, key.1, p.quantity, None, None, p.sources)
    else PositionState(key.0, key.1, p.quantity, Some(p.knownCost), Some(p.knownCost / p.quantity), p.sources)
  }

  function OpenKeys(positions: map<Key, Position>): set<Key> {
    set k | k in positions && positions[k].quantity != 0.0
  }

  function ListPositions(keys: seq<Key>, positions: map<Key, Position>): seq<PositionState> {
    if keys == [] then []
    else
      var k := keys[|keys| - 1];
      ListPositions(keys[..|keys| - 1], positions) +
      (if PositionAt(positions, k).quantity == 0.0 then [] else [StateOf(k, PositionAt(positions, k))])
  }

  function ListCash(accounts: seq<Id>, cash: map<Id, real>): seq<CashBalance> {
    seq(|accounts|, i requires 0 <= i < |accounts| => CashBalance(accounts[i], CashAt(cash, accounts[i])))
  }

  function SortedKeys(keys: set<Key>): seq<Key> {
    OrdersAreTotal();
    Enumerate(KeyLe, keys)
  }

  function SortedAccounts(accounts: set<Id>): seq<Id> {
    OrdersAreTotal();
    Enumerate(IdLe, accounts)
  }

  function AppliedIds(ts: seq<LedgerTransaction>): seq<Id> {
    seq(|ts|, i requires 0 <= i < |ts| => ts[i].id)
  }

  function CashTotal(balances: seq<CashBalance>): real {
    if balances == [] then 0.0 else CashTotal(balances[..|balances| - 1]) + balances[|balances| - 1].amount
  }

  function Output(fundId: Id, accountId: Option<Id>, asOf: Instant, ordered: seq<LedgerTransaction>, b: Books)
    : PortfolioState
  {
    var balances := ListCash(SortedAccounts(b.cash.Keys), b.cash);
    PortfolioState(
      fundId,
      accountId,
      CashTotal(balances),
      balances,
      ListPositions(SortedKeys(b.positions.Keys), b.positions),
      asOf,
      CanonicalInput(fundId, accountId, asOf, ordered),
      AppliedIds(ordered))
  }

  function Reconstruct(fundId: Id, supplied: seq<LedgerTransaction>, asOf: Instant, accountId: Option<Id>)
    : Result<PortfolioState, EngineError>
  {
    var problem := InputError(fundId, supplied);
    if problem.Some? then Failure(problem.value)
    else
      var ordered := Ordered(supplied, asOf, accountId);
      var books :- Replay(ordered);
      Success(Output(fundId, accountId, asOf, ordered, books))
  }

  // ---------------------------------------------------------------- basic facts

  lemma UniqueWithLast(ts: seq<LedgerTransaction>)
    requires ts != []
    ensures UniqueIds(ts) <==> UniqueIds(ts[..|ts| - 1]) && ts[|ts| - 1].id !in IdsOf(ts[..|ts| - 1])
  {
    var front, t := ts[..|ts| - 1], ts[|ts| - 1];
    if UniqueIds(ts) {
      forall x | x in front
        ensures x.id != t.id
      {
        var i :| 0 <= i < |front| && front[i] == x;
        assert ts[i].id != ts[|ts| - 1].id;
      }
    }
    if UniqueIds(front) && t.id !in IdsOf(front) {
      forall i, j | 0 <= i < j < |ts|
        ensures ts[i].id != ts[j].id
      {
        assert ts[i] == front[i] && front[i].id in IdsOf(front);
      }
    }
  }

  /** A longer input is accepted exactly when its front is and its last transaction fits. */
  lemma ValidWithLast(fundId: Id, ts: seq<LedgerTransaction>)
    requires ts != []
    ensures var front, t := ts[..|ts| - 1], ts[|ts| - 1];
            ValidInput(fundId, ts) <==>
            ValidInput(fundId, front) && t.id !in IdsOf(front) && TransactionError(fundId, t).None?
  {
    var front, t := ts[..|ts| - 1], ts[|ts| - 1];
    UniqueWithLast(ts);
    assert ts == front + [t];
    assert forall x :: x in ts <==> x in front || x == t;
  }

  lemma {:induction false} AcceptanceMeansValid(fundId: Id, ts: seq<LedgerTransaction>)
    ensures InputError(fundId, ts).None? <==> ValidInput(fundId, ts)
  {
    if ts == [] {
    } else {
      AcceptanceMeansValid(fundId, ts[..|ts| - 1]);
      ValidWithLast(fundId, ts);
    }
  }

  lemma {:induction false} ReplayConcat(b: Books, x: seq<LedgerTransaction>, y: seq<LedgerTransaction>)
    ensures ReplayFrom(b, x).Failure? ==> ReplayFrom(b, x + y) == ReplayFrom(b, x)
    ensures ReplayFrom(b, x).Success? ==> ReplayFrom(b, x + y) == ReplayFrom(ReplayFrom(b, x).value, y)
  {
    if y == [] {
      assert x + y == x;
    } else {
      assert (x + y)[..|x + y| - 1] == x + y[..|y| - 1];
      ReplayConcat(b, x, y[..|y| - 1]);
    }
  }

  /** Replaying one more transaction of a sequence, and what a failure there means for all of it. */
  lemma ReplayNext(ts: seq<LedgerTransaction>, i: nat, b: Books)
    requires i < |ts| && Replay(ts[..i]) == Success(b)
    ensures Replay(ts[..i + 1]) == Step(b, ts[i])
    ensures Step(b, ts[i]).Failure? ==> Replay(ts) == Failure(Step(b, ts[i]).error)
  {
    assert ts[..i + 1][..i] == ts[..i];
    assert ts == ts[..i + 1] + ts[i + 1..];
    ReplayConcat(EMPTY_BOOKS, ts[..i + 1], ts[i + 1..]);
  }

  /** A successful replay was successful at every prefix. */
  lemma ReplayPrefix(ts: seq<LedgerTransaction>, n: nat)
    requires n <= |ts| && Replay(ts).Success?
    ensures Replay(ts[..n]).Success?
  {
    assert ts == ts[..n] + ts[n..];
    ReplayConcat(EMPTY_BOOKS, ts[..n], ts[n..]);
  }

  /** For well-formed input, reconstruction is the replay of the ordered selection and nothing else. */
  lemma ReconstructIsReplay(fundId: Id, supplied: seq<LedgerTransaction>, asOf: Instant, accountId: Option<Id>)
    requires ValidInput(fundId, supplied)
    ensures var ordered := Ordered(supplied, asOf, accountId);
            var r := Replay(ordered);
            Reconstruct(fundId, supplied, asOf, accountId) ==
            if r.Success? then Success(Output(fundId, accountId, asOf, ordered, r.value)) else Failure(r.error)
  {
    AcceptanceMeansValid(fundId, supplied);
  }

  lemma OrderedFacts(supplied: seq<LedgerTransaction>, asOf: Instant, accountId: Option<Id>)
    ensures var o := Ordered(supplied, asOf, accountId);
            && Sorted(ReplayLe, o)
            && multiset(o) == multiset(Filter(Included(asOf, accountId), supplied))
            && forall t :: t in o <==> t in supplied && Included(asOf, accountId)(t)
  {
    OrdersAreTotal();
    var f := Filter(Included(asOf, accountId), supplied);
    SortBySorts(ReplayLe, f);
    SameElements(Ordered(supplied, asOf, accountId), f);
    FilterMembers(Included(asOf, accountId), supplied);
  }

  lemma {:induction false} FilterUnique(p: LedgerTransaction -> bool, ts: seq<LedgerTransaction>)
    requires UniqueIds(ts)
    ensures UniqueIds(Filter(p, ts))
  {
    if ts == [] {
    } else {
      var front, t := ts[..|ts| - 1], ts[|ts| - 1];
      FilterUnique(p, front);
      FilterMembers(p, front);
      forall x | x in front
        ensures x.id != t.id
      {
        var i :| 0 <= i < |front| && front[i] == x;
        assert ts[i].id != ts[|ts| - 1].id;
      }
      var f := Filter(p, front);
      forall i | 0 <= i < |f|
        ensures f[i].id != t.id
      {
        assert f[i] in f;
      }
    }
  }

  /** What is replayed is well formed whenever what was supplied is. */
  lemma OrderedValid(fundId: Id, supplied: seq<LedgerTransaction>, asOf: Instant, accountId: Option<Id>)
    requires ValidInput(fundId, supplied)
    ensures ValidInput(fundId, Ordered(supplied, asOf, accountId))
  {
    OrderedFacts(supplied, asOf, accountId);
    var f := Filter(Included(asOf, accountId), supplied);
    FilterUnique(Included(asOf, accountId), supplied);
    UniqueIdsOfPermutation(f, Ordered(supplied, asOf, accountId));
  }

  // ---------------------------------------------------------------- what is reported

  function KeyOf(p: PositionState): Key {
    (p.accountId, p.instrumentId)
  }

  lemma {:induction false} ListedPositions(keys: seq<Key>, positions: map<Key, Position>)
    ensures forall p | p in ListPositions(keys, positions) ::
              KeyOf(p) in keys && PositionAt(positions, KeyOf(p)).quantity != 0.0
              && p == StateOf(KeyOf(p), PositionAt(positions, KeyOf(p)))
    ensures forall k | k in keys && PositionAt(positions, k).quantity != 0.0 ::
              StateOf(k, PositionAt(positions, k)) in ListPositions(keys, positions)
  {
    if keys == [] {
    } else {
      ListedPositions(keys[..|keys| - 1], positions);
      assert keys == keys[..|keys| - 1] + [keys[|keys| - 1]];
    }
  }

  /** Keys strictly ascending. */
  ghost predicate Ascending(ps: seq<PositionState>) {
    forall i, j | 0 <= i < j < |ps| :: KeyOf(ps[i]) != KeyOf(ps[j]) && KeyLe(KeyOf(ps[i]), KeyOf(ps[j]))
  }

  lemma {:induction false} ListedInOrder(keys: seq<Key>, positions: map<Key, Position>)
    requires forall i, j | 0 <= i < j < |keys| :: keys[i] != keys[j] && KeyLe(keys[i], keys[j])
    ensures Ascending(ListPositions(keys, positions))
  {
    if keys == [] {
    } else {
      var front, k := keys[..|keys| - 1], keys[|keys| - 1];
      ListedInOrder(front, positions);
      ListedPositions(front, positions);
      var ps := ListPositions(front, positions);
      forall i | 0 <= i < |ps|
        ensures KeyOf(ps[i]) != k && KeyLe(KeyOf(ps[i]), k)
      {
        assert ps[i] in ps;
        var j :| 0 <= j < |front| && front[j] == KeyOf(ps[i]);
        assert keys[j] == front[j];
      }
    }
  }

  lemma AverageOfState(key: Key, p: Position)
    requires p.quantity != 0.0
    ensures StateOf(key, p).averageCost.Some? ==> StateOf(key, p).averageCost.value * p.quantity == p.knownCost
  {
  }

  /**
   * The reported positions are those with quantity, once each in key order, with the known basis and its
   * average, or neither while the counter is up.
   */
  lemma ReportedPositions(fundId: Id, accountId: Option<Id>, asOf: Instant, ordered: seq<LedgerTransaction>, b: Books)
    ensures var ps := Output(fundId, accountId, asOf, ordered, b).positions;
            && Ascending(ps)
            && (forall k | k in OpenKeys(b.positions) :: exists p :: p in ps && KeyOf(p) == k)
            && (forall p | p in ps ::
                  && KeyOf(p) in OpenKeys(b.positions)
                  && var held := b.positions[KeyOf(p)];
                  && p.quantity == held.quantity && p.sourceIds == held.sources
                  && (p.totalCostBasis.Some? <==> held.uncertainty == 0)
                  && (p.averageCost.Some? <==> held.uncertainty == 0)
                  && (held.uncertainty == 0 ==>
                        p.totalCostBasis.value == held.knownCost
                          && p.averageCost.value * held.quantity == held.knownCost))
  {
    var keys := SortedKeys(b.positions.Keys);
    ListedPositions(keys, b.positions);
    ListedInOrder(keys, b.positions);
    forall p | p in ListPositions(keys, b.positions)
      ensures p.averageCost.Some? ==>
                p.averageCost.value * b.positions[KeyOf(p)].quantity == b.positions[KeyOf(p)].knownCost
    {
      AverageOfState(KeyOf(p), b.positions[KeyOf(p)]);
    }
    forall k | k in OpenKeys(b.positions)
      ensures exists p :: p in ListPositions(keys, b.positions) && KeyOf(p) == k
    {
      assert KeyOf(StateOf(k, b.positions[k])) == k;
    }
  }
}
