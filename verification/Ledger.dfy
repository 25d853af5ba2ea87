/**
 * The append-only transaction ledger (app/ledger/service.py, validation.py, repository.py).
 *
 * `Create` says what a command does to the tables; the class applies it in place.
 */
module Ledger {
  import opened Wrappers
  import opened LedgerTypes
  import opened PortfolioEngine
  import opened Text

  datatype CreateTransaction = CreateTransaction(
    fundId: Id,
    accountId: Id,
    kind: Kind,
    effectiveAt: Instant,
    recordedAt: Instant,
    source: string,
    externalId: string,
    instrumentId: Option<Id>,
    quantity: Option<real>,
    unitPrice: Option<real>,
    amount: Option<real>,
    fees: real,
    currency: string,
    tradeDate: Option<int>,
    settlementDate: Option<int>,
    importBatchId: Option<Id>,
    createdByUserId: Option<Id>,
    reverses: Option<Id>,
    description: Option<string>)

  datatype RowStatus = Posted | Reversed

  /** A row of the transactions table. `payload` is what the source keeps as a digest. */
  datatype Row = Row(txn: LedgerTransaction, payload: LedgerTransaction, status: RowStatus, importBatchId: Option<Id>)

  datatype ImportBatch = ImportBatch(fundId: Id, source: string, conflictCount: nat)

  datatype ImportConflict = ImportConflict(
    id: Id,
    fundId: Id,
    importBatchId: Id,
    existingId: Id,
    source: string,
    externalId: string,
    existingPayload: LedgerTransaction,
    incomingPayload: LedgerTransaction,
    detectedAt: Instant)

  datatype Tables = Tables(rows: seq<Row>, batches: map<Id, ImportBatch>, conflicts: seq<ImportConflict>)

  datatype LedgerError =
    | TransactionInvalid
    | OpeningNotFirst
    | TargetDoesNotExist
    | TargetIsAReversal
    | TargetElsewhere
    | TargetAlreadyReversed
    | KeyAlreadyUsed

  datatype Creation =
    | Created(row: Row)
    | Duplicate(row: Row)
    | Conflicting(row: Row, conflict: Option<ImportConflict>)

  // ---------------------------------------------------------------- validation

  predicate PositiveOrAbsent(x: Option<real>) {
    x.Some? ==> x.value > 0.0
  }

  predicate OnlyAmount(c: CreateTransaction) {
    c.amount.Some? && c.quantity.None? && c.unitPrice.None? && c.reverses.None? && c.fees == 0.0
  }

  /** The field-shape contract per transaction type. */
  predicate ShapeAccepted(c: CreateTransaction) {
    match c.kind
    case Buy | Sell =>
      c.instrumentId.Some? && c.quantity.Some? && c.unitPrice.Some? && c.amount.None? && c.reverses.None?
    case CashDeposit | CashWithdrawal | OpeningCash => OnlyAmount(c) && c.instrumentId.None?
    case Dividend => OnlyAmount(c) && c.instrumentId.Some?
    case Fee => OnlyAmount(c)
    case OpeningPosition =>
      c.instrumentId.Some? && c.quantity.Some? && c.amount.None? && c.reverses.None? && c.fees == 0.0
    case Reversal =>
      c.reverses.Some? && c.instrumentId.None? && c.quantity.None? && c.unitPrice.None? && c.amount.None?
        && c.fees == 0.0
  }

  predicate Accepted(c: CreateTransaction) {
    && c.currency == USD
    && !Blank(c.source) && !Blank(c.externalId)
    && (c.description.Some? ==> |c.description.value| <= 500)
    && PositiveOrAbsent(c.quantity) && PositiveOrAbsent(c.unitPrice) && PositiveOrAbsent(c.amount)
    && c.fees >= 0.0
    && ShapeAccepted(c)
    && (c.source != "manual" && c.source != "phase1_fixture" ==> c.importBatchId.Some?)
    && (c.source == "manual" ==> c.createdByUserId.Some?)
  }

  predicate BatchAccepted(batches: map<Id, ImportBatch>, c: CreateTransaction) {
    c.importBatchId.Some? ==>
      && c.importBatchId.value in batches
      && batches[c.importBatchId.value].fundId == c.fundId
      && batches[c.importBatchId.value].source == c.source
  }

  // ---------------------------------------------------------------- queries

  function ToTransaction(c: CreateTransaction, id: Id): LedgerTransaction {
    LedgerTransaction(
      id, c.fundId, c.accountId, c.kind, c.effectiveAt, c.recordedAt, c.source, c.externalId, c.instrumentId,
      c.quantity, c.unitPrice, c.amount, c.fees, c.currency, c.tradeDate, c.settlementDate, c.reverses)
  }

  /** The facts that decide idempotency: all but the identity and the recording time. */
  function Economics(t: LedgerTransaction): LedgerTransaction {
    t.(id := 0, recordedAt := 0)
  }

  predicate SameIdentity(t: LedgerTransaction, fundId: Id, source: string, externalId: string) {
    t.fundId == fundId && t.source == source && t.externalId == externalId
  }

  function BySourceIdentity(rows: seq<Row>, fundId: Id, source: string, externalId: string): (r: Option<nat>)
    ensures r.Some? ==> r.value < |rows| && SameIdentity(rows[r.value].txn, fundId, source, externalId)
    ensures r.None? ==> forall i | 0 <= i < |rows| :: !SameIdentity(rows[i].txn, fundId, source, externalId)
  {
    if rows == [] then None
    else
      var front := BySourceIdentity(rows[..|rows| - 1], fundId, source, externalId);
      if front.Some? then front
      else if SameIdentity(rows[|rows| - 1].txn, fundId, source, externalId) then Some(|rows| - 1)
      else None
  }

  function ById(rows: seq<Row>, id: Id): (r: Option<nat>)
    ensures r.Some? ==> r.value < |rows| && rows[r.value].txn.id == id
    ensures r.None? ==> forall i | 0 <= i < |rows| :: rows[i].txn.id != id
  {
    if rows == [] then None
    else
      var front := ById(rows[..|rows| - 1], id);
      if front.Some? then front
      else if rows[|rows| - 1].txn.id == id then Some(|rows| - 1)
      else None
  }

  predicate MovesCash(kind: Kind) {
    !kind.OpeningPosition? && !kind.Reversal?
  }

  predicate MovesQuantity(kind: Kind) {
    kind.Buy? || kind.Sell? || kind.OpeningPosition?
  }

  predicate HasPostedCash(rows: seq<Row>, accountId: Id) {
    exists i | 0 <= i < |rows| ::
        rows[i].txn.accountId == accountId && rows[i].status.Posted? && MovesCash(rows[i].txn.kind)
  }

  predicate HasPostedQuantity(rows: seq<Row>, accountId: Id, instrumentId: Id) {
    exists i | 0 <= i < |rows| ::
      && rows[i].txn.accountId == accountId && rows[i].txn.instrumentId == Some(instrumentId)
      && rows[i].status.Posted? && MovesQuantity(rows[i].txn.kind)
  }

  predicate Reverses(t: LedgerTransaction, id: Id) {
    t.kind.Reversal? && t.reverses == Some(id)
  }

  predicate HasReversal(rows: seq<Row>, id: Id) {
    exists i | 0 <= i < |rows| :: Reverses(rows[i].txn, id)
  }

  predicate OpeningAccepted(rows: seq<Row>, c: CreateTransaction)
    requires ShapeAccepted(c)
  {
    && (c.kind.OpeningCash? ==> !HasPostedCash(rows, c.accountId))
    && (c.kind.OpeningPosition? ==> !HasPostedQuantity(rows, c.accountId, c.instrumentId.value))
  }

  /** The row a reversal marks, or why the reversal is rejected; no row for any other kind. */
  function ReversalTarget(rows: seq<Row>, c: CreateTransaction): (r: Result<Option<nat>, LedgerError>)
    requires ShapeAccepted(c)
    ensures r.Success? && r.value.Some? ==>
              && r.value.value < |rows| && c.kind.Reversal? && c.reverses == Some(rows[r.value.value].txn.id)
    ensures r.Success? && r.value.None? ==> !c.kind.Reversal?
  {
    if !c.kind.Reversal? then Success(None)
    else
      var target := ById(rows, c.reverses.value);
      if target.None? then Failure(TargetDoesNotExist)
      else
        var t := rows[target.value].txn;
        if t.kind.Reversal? then Failure(TargetIsAReversal)
        else if t.fundId != c.fundId || t.accountId != c.accountId then Failure(TargetElsewhere)
        else if HasReversal(rows, t.id) then Failure(TargetAlreadyReversed)
        else Success(target)
  }

  function PriorConflict(conflicts: seq<ImportConflict>, c: CreateTransaction): (r: Option<nat>)
    requires c.importBatchId.Some?
    ensures r.Some? ==> r.value < |conflicts|
  {
    if conflicts == [] then None
    else
      var front := PriorConflict(conflicts[..|conflicts| - 1], c);
      var last := conflicts[|conflicts| - 1];
      if front.Some? then front
      else if last.importBatchId == c.importBatchId.value && last.source == c.source && last.externalId == c.externalId
              && last.incomingPayload == Economics(ToTransaction(c, 0))
      then Some(|conflicts| - 1)
      else None
  }

  // ---------------------------------------------------------------- the command

  function NewRow(c: CreateTransaction, id: Id): Row {
    Row(ToTransaction(c, id), Economics(ToTransaction(c, id)), Posted, c.importBatchId)
  }

  function NewConflict(c: CreateTransaction, existing: Row, conflictId: Id, now: Instant): ImportConflict
    requires c.importBatchId.Some?
  {
    ImportConflict(conflictId, c.fundId, c.importBatchId.value, existing.txn.id, c.source, c.externalId,
                   existing.payload, Economics(ToTransaction(c, 0)), now)
  }

  /** Record conflicting content once per batch, source identity and content. */
  function RecordConflict(s: Tables, c: CreateTransaction, existing: Row, conflictId: Id, now: Instant)
    : (Tables, Creation)
    requires c.importBatchId.Some? ==> c.importBatchId.value in s.batches
  {
    if c.importBatchId.None? then (s, Conflicting(existing, None))
    else
      var prior := PriorConflict(s.conflicts, c);
      if prior.Some? then (s, Conflicting(existing, Some(s.conflicts[prior.value])))
      else
        var batch := s.batches[c.importBatchId.value];
        var conflict := NewConflict(c, existing, conflictId, now);
        (s.(conflicts := s.conflicts + [conflict],
            batches := s.batches[c.importBatchId.value := batch.(conflictCount := batch.conflictCount + 1)]),
         Conflicting(existing, Some(conflict)))
  }

  function MarkReversed(rows: seq<Row>, target: Option<nat>): seq<Row>
    requires target.Some? ==> target.value < |rows|
  {
    if target.None? then rows else rows[target.value := rows[target.value].(status := Reversed)]
  }

  /** `TransactionService.create`: the new tables and the result, or the rejection that leaves them alone. */
  function Create(s: Tables, c: CreateTransaction, id: Id, conflictId: Id, now: Instant)
    : (Tables, Result<Creation, LedgerError>)
  {
    if !Accepted(c) || !BatchAccepted(s.batches, c) then (s, Failure(TransactionInvalid))
    else
      var existing := BySourceIdentity(s.rows, c.fundId, c.source, c.externalId);
      if existing.Some? then
        var row := s.rows[existing.value];
        if row.payload == Economics(ToTransaction(c, 0)) then (s, Success(Duplicate(row)))
        else
          var (next, creation) := RecordConflict(s, c, row, conflictId, now);
          (next, Success(creation))
      else if !OpeningAccepted(s.rows, c) then (s, Failure(OpeningNotFirst))
      else
        var target := ReversalTarget(s.rows, c);
        if target.Failure? then (s, Failure(target.error))
        else if ById(s.rows, id).Some? then (s, Failure(KeyAlreadyUsed))
        else (s.(rows := MarkReversed(s.rows, target.value) + [NewRow(c, id)]), Success(Created(NewRow(c, id))))
  }

  /** The service on its tables. Ids and the clock are supplied by the caller. */
  class TransactionService {
    var rows: seq<Row>
    var batches: map<Id, ImportBatch>
    var conflicts: seq<ImportConflict>

    function View(): Tables
      reads this
    {
      Tables(rows, batches, conflicts)
    }

    constructor (batches: map<Id, ImportBatch>)
      ensures View() == Tables([], batches, [])
    {
      this.rows, this.batches, this.conflicts := [], batches, [];
    }

    method RunCreate(c: CreateTransaction, id: Id, conflictId: Id, now: Instant)
      returns (r: Result<Creation, LedgerError>)
      modifies this
      ensures (View(), r) == Create(old(View()), c, id, conflictId, now)
    {
      if !Accepted(c) || !BatchAccepted(batches, c) {
        return Failure(TransactionInvalid);
      }
      var existing := BySourceIdentity(rows, c.fundId, c.source, c.externalId);
      if existing.Some? {
        var row := rows[existing.value];
        if row.payload == Economics(ToTransaction(c, 0)) {
          return Success(Duplicate(row));
        }
        var creation := RunRecordConflict(c, row, conflictId, now);
        return Success(creation);
      }
      if !OpeningAccepted(rows, c) {
        return Failure(OpeningNotFirst);
      }
      var target := ReversalTarget(rows, c);
      if target.Failure? {
        return Failure(target.error);
      }
      if ById(rows, id).Some? {
        return Failure(KeyAlreadyUsed);
      }
      var row := NewRow(c, id);
      rows := rows + [row];
      if target.value.Some? {
        var i := target.value.value;
        rows := rows[i := rows[i].(status := Reversed)];
      }
      assert rows == MarkReversed(old(rows), target.value) + [row];
      return Success(Created(row));
    }

    method RunRecordConflict(c: CreateTransaction, existing: Row, conflictId: Id, now: Instant) returns (r: Creation)
      requires c.importBatchId.Some? ==> c.importBatchId.value in batches
      modifies this`batches, this`conflicts
      ensures (View(), r) == RecordConflict(old(View()), c, existing, conflictId, now)
    {
      if c.importBatchId.None? {
        return Conflicting(existing, None);
      }
      var prior := PriorConflict(conflicts, c);
      if prior.Some? {
        return Conflicting(existing, Some(conflicts[prior.value]));
      }
      var conflict := NewConflict(c, existing, conflictId, now);
      conflicts := conflicts + [conflict];
      var batch := batches[c.importBatchId.value];
      batches := batches[c.importBatchId.value := batch.(conflictCount := batch.conflictCount + 1)];
      return Conflicting(existing, Some(conflict));
    }
  }
}
