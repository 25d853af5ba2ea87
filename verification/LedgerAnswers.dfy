/** What the ledger answers a command with and writes for it, in the command's and the stored rows' own fields. */
module LedgerAnswers {
  import opened Wrappers
  import opened LedgerTypes
  import opened PortfolioEngine
  import opened Text
  import opened Ledger
  import opened LedgerInvariants

  // ---------------------------------------------------------------- which commands are accepted

  /** Which fields a command must and must not carry, field by field. */
  predicate FieldsFit(c: CreateTransaction) {
    && (c.kind in {Buy, Sell, OpeningPosition, Dividend} ==> c.instrumentId.Some?)
    && (c.kind in {CashDeposit, CashWithdrawal, OpeningCash, Reversal} ==> c.instrumentId.None?)
    && (if c.kind in {Buy, Sell, OpeningPosition} then Positive(c.quantity) else c.quantity.None?)
    && (c.kind in {Buy, Sell} ==> Positive(c.unitPrice))
    && (c.kind == OpeningPosition && c.unitPrice.Some? ==> c.unitPrice.value > 0.0)
    && (c.kind !in {Buy, Sell, OpeningPosition} ==> c.unitPrice.None?)
    && (if c.kind in {CashDeposit, CashWithdrawal, OpeningCash, Dividend, Fee} then Positive(c.amount)
        else c.amount.None?)
    && (c.kind !in {Buy, Sell} ==> c.fees == 0.0)
    && (c.reverses.Some? <==> c.kind == Reversal)
  }

  predicate CommandFits(c: CreateTransaction) {
    && c.currency == "USD" && c.fees >= 0.0 && FieldsFit(c)
    && !Blank(c.source) && !Blank(c.externalId)
    && (c.description.Some? ==> |c.description.value| <= 500)
    && (c.source == "manual" ==> c.createdByUserId.Some?)
    && (c.source !in {"manual", "phase1_fixture"} ==> c.importBatchId.Some?)
  }

  predicate BatchFits(batches: map<Id, ImportBatch>, c: CreateTransaction) {
    c.importBatchId.None? ||
    (c.importBatchId.value in batches
     && batches[c.importBatchId.value].fundId == c.fundId && batches[c.importBatchId.value].source == c.source)
  }

  lemma AcceptedFits(c: CreateTransaction)
    ensures Accepted(c) <==> CommandFits(c)
  {
  }

  /** A command is refused as invalid exactly when it or its batch does not fit. */
  lemma InvalidExactly(s: Tables, c: CreateTransaction, id: Id, conflictId: Id, now: Instant)
    ensures Create(s, c, id, conflictId, now).1 == Failure(TransactionInvalid) <==>
            !CommandFits(c) || !BatchFits(s.batches, c)
    ensures !CommandFits(c) || !BatchFits(s.batches, c) ==> Create(s, c, id, conflictId, now).0 == s
  {
    AcceptedFits(c);
  }

  // ---------------------------------------------------------------- known identities

  /** The row was posted for the same fund, source and external id. */
  predicate HasIdentity(row: Row, c: CreateTransaction) {
    row.txn.fundId == c.fundId && row.txn.source == c.source && row.txn.externalId == c.externalId
  }

  ghost predicate IdentityKnown(rows: seq<Row>, c: CreateTransaction) {
    exists row :: row in rows && HasIdentity(row, c)
  }

  /** Every fact of the command but its recording time is the transaction's. */
  predicate SameFacts(t: LedgerTransaction, c: CreateTransaction) {
    && t.fundId == c.fundId && t.source == c.source && t.externalId == c.externalId
    && t.accountId == c.accountId && t.kind == c.kind && t.effectiveAt == c.effectiveAt
    && t.instrumentId == c.instrumentId && t.quantity == c.quantity && t.unitPrice == c.unitPrice
    && t.amount == c.amount && t.fees == c.fees && t.currency == c.currency
    && t.tradeDate == c.tradeDate && t.settlementDate == c.settlementDate && t.reverses == c.reverses
  }

  lemma PayloadInFields(row: Row, c: CreateTransaction)
    requires row.payload == Economics(row.txn)
    ensures row.payload == Economics(ToTransaction(c, 0)) <==> SameFacts(row.txn, c)
  {
  }

  lemma IdentityFound(rows: seq<Row>, c: CreateTransaction, i: nat)
    requires UniqueIdentities(rows) && i < |rows| && HasIdentity(rows[i], c)
    ensures BySourceIdentity(rows, c.fundId, c.source, c.externalId) == Some(i)
  {
    var k := BySourceIdentity(rows, c.fundId, c.source, c.externalId);
    assert SameIdentity(rows[i].txn, c.fundId, c.source, c.externalId);
  }

  /**
   * An accepted command whose identity is stored is answered with that row: as a duplicate exactly when all its facts
   * are the row's, and as conflicting otherwise; the rows stay as they are.
   */
  lemma KnownIdentityAnswered(s: Tables, c: CreateTransaction, id: Id, conflictId: Id, now: Instant, i: nat)
    requires Inv(s.rows) && CommandFits(c) && BatchFits(s.batches, c)
    requires i < |s.rows| && HasIdentity(s.rows[i], c)
    ensures var (next, r) := Create(s, c, id, conflictId, now);
            && r.Success? && next.rows == s.rows
            && (r.value.Duplicate? <==> SameFacts(s.rows[i].txn, c))
            && (r.value.Conflicting? <==> !SameFacts(s.rows[i].txn, c))
            && r.value.row == s.rows[i]
            && (r.value.Duplicate? ==> next == s)
  {
    AcceptedFits(c);
    IdentityFound(s.rows, c, i);
    PayloadInFields(s.rows[i], c);
  }

  // ---------------------------------------------------------------- conflicts on record

  /** A conflict on record for the batch, the identity and the content of the command; a content has no id or time. */
  predicate OnRecord(k: ImportConflict, c: CreateTransaction) {
    && Some(k.importBatchId) == c.importBatchId && k.source == c.source && k.externalId == c.externalId
    && k.incomingPayload.id == 0 && k.incomingPayload.recordedAt == 0 && SameFacts(k.incomingPayload, c)
  }

  lemma {:induction false} PriorConflictExactly(conflicts: seq<ImportConflict>, c: CreateTransaction)
    requires c.importBatchId.Some?
    ensures var r := PriorConflict(conflicts, c);
            && (r.Some? ==> r.value < |conflicts| && OnRecord(conflicts[r.value], c))
            && (r.None? ==> forall k | k in conflicts :: !OnRecord(k, c))
  {
    if conflicts == [] {
    } else {
      var front, last := conflicts[..|conflicts| - 1], conflicts[|conflicts| - 1];
      PriorConflictExactly(front, c);
      assert conflicts == front + [last];
    }
  }

  /** The conflict that is recorded: whose it is, what it collides with, and what was sent. */
  predicate Records(k: ImportConflict, c: CreateTransaction, row: Row, conflictId: Id, now: Instant) {
    && k.id == conflictId && k.fundId == c.fundId && k.existingId == row.txn.id && k.existingPayload == row.payload
    && k.detectedAt == now && OnRecord(k, c)
  }

  /**
   * Conflicting content goes on record, and is counted, exactly when it comes in a batch that has none on record for
   * the same identity and content.
   */
  lemma ConflictRecordedExactly(s: Tables, c: CreateTransaction, id: Id, conflictId: Id, now: Instant, i: nat)
    requires Inv(s.rows) && CommandFits(c) && BatchFits(s.batches, c)
    requires i < |s.rows| && HasIdentity(s.rows[i], c) && !SameFacts(s.rows[i].txn, c)
    ensures var (next, r) := Create(s, c, id, conflictId, now);
            && r.Success? && r.value.Conflicting?
            && if c.importBatchId.None? then next == s && r.value.conflict.None?
               else if exists k :: k in s.conflicts && OnRecord(k, c) then
                 next == s && r.value.conflict.Some? && r.value.conflict.value in s.conflicts
                   && OnRecord(r.value.conflict.value, c)
               else
                 && r.value.conflict.Some? && next.conflicts == s.conflicts + [r.value.conflict.value]
                 && Records(r.value.conflict.value, c, s.rows[i], conflictId, now)
                 && next.batches.Keys == s.batches.Keys
                 && forall b | b in s.batches ::
                      next.batches[b] ==
                      if Some(b) == c.importBatchId
                      then ImportBatch(c.fundId, c.source, s.batches[b].conflictCount + 1) else s.batches[b]
  {
    AcceptedFits(c);
    IdentityFound(s.rows, c, i);
    PayloadInFields(s.rows[i], c);
    if c.importBatchId.Some? {
      PriorConflictExactly(s.conflicts, c);
    }
  }

  // ---------------------------------------------------------------- new identities

  /** A posted row of the account that moved cash. */
  predicate CashActivity(row: Row, c: CreateTransaction) {
    && row.txn.accountId == c.accountId && row.status == Posted
    && row.txn.kind in {Buy, Sell, CashDeposit, CashWithdrawal, Dividend, Fee, OpeningCash}
  }

  /** A posted row of the account that moved the instrument. */
  predicate HoldingActivity(row: Row, c: CreateTransaction) {
    && row.txn.accountId == c.accountId && row.txn.instrumentId == c.instrumentId && row.status == Posted
    && row.txn.kind in {Buy, Sell, OpeningPosition}
  }

  /** The opening is not the first activity of its account, or of its account and instrument. */
  ghost predicate TooLateToOpen(rows: seq<Row>, c: CreateTransaction) {
    || (c.kind == OpeningCash && exists row :: row in rows && CashActivity(row, c))
    || (c.kind == OpeningPosition && exists row :: row in rows && HoldingActivity(row, c))
  }

  lemma OpeningInFields(rows: seq<Row>, c: CreateTransaction)
    requires ShapeAccepted(c)
    ensures OpeningAccepted(rows, c) <==> !TooLateToOpen(rows, c)
  {
    if TooLateToOpen(rows, c) {
      if c.kind == OpeningCash {
        var row :| row in rows && CashActivity(row, c);
        var i :| 0 <= i < |rows| && rows[i] == row;
      } else {
        var row :| row in rows && HoldingActivity(row, c);
        var i :| 0 <= i < |rows| && rows[i] == row;
      }
    } else {
      forall i | 0 <= i < |rows|
        ensures c.kind == OpeningCash ==> !CashActivity(rows[i], c)
        ensures c.kind == OpeningPosition ==> !HoldingActivity(rows[i], c)
      {
        assert rows[i] in rows;
      }
    }
  }

  ghost predicate ReversedBefore(rows: seq<Row>, target: Id) {
    exists row :: row in rows && row.txn.kind == Reversal && row.txn.reverses == Some(target)
  }

  ghost predicate IdTaken(rows: seq<Row>, id: Id) {
    exists row :: row in rows && row.txn.id == id
  }

  lemma TakenExactly(rows: seq<Row>, id: Id)
    ensures ById(rows, id).Some? <==> IdTaken(rows, id)
    ensures HasReversal(rows, id) <==> ReversedBefore(rows, id)
  {
    var r := ById(rows, id);
    if r.Some? {
      assert rows[r.value] in rows;
    }
    if row :| row in rows && row.txn.id == id {
      var i :| 0 <= i < |rows| && rows[i] == row;
    }
    if row :| row in rows && row.txn.kind == Reversal && row.txn.reverses == Some(id) {
      var i :| 0 <= i < |rows| && rows[i] == row;
      assert Ledger.Reverses(rows[i].txn, id);
    }
    if i :| 0 <= i < |rows| && Ledger.Reverses(rows[i].txn, id) {
      assert rows[i] in rows;
    }
  }

  /** Why a reversal that names the row is refused, if it is. */
  function TargetProblem(row: Row, c: CreateTransaction, reversedBefore: bool): Option<LedgerError> {
    if row.txn.kind == Reversal then Some(TargetIsAReversal)
    else if row.txn.fundId != c.fundId || row.txn.accountId != c.accountId then Some(TargetElsewhere)
    else if reversedBefore then Some(TargetAlreadyReversed)
    else None
  }

  /** The row posted for a command: every field the command's own. */
  predicate PostedFor(row: Row, c: CreateTransaction, id: Id) {
    && row.txn.id == id && row.txn.recordedAt == c.recordedAt && SameFacts(row.txn, c)
    && row.status == Posted && row.importBatchId == c.importBatchId
  }

  /** The rows with one more, the reversed one re-marked. */
  ghost predicate OneMore(rows: seq<Row>, next: seq<Row>, row: Row, reverses: Option<Id>) {
    && |next| == |rows| + 1 && next[|rows|] == row
    && forall i | 0 <= i < |rows| ::
         next[i] == if Some(rows[i].txn.id) == reverses then rows[i].(status := Reversed) else rows[i]
  }

  lemma PostsInFields(rows: seq<Row>, c: CreateTransaction, id: Id, target: Option<nat>)
    requires UniqueRowIds(rows) && ShapeAccepted(c) && ReversalTarget(rows, c) == Success(target)
    ensures PostedFor(NewRow(c, id), c, id)
    ensures OneMore(rows, MarkReversed(rows, target) + [NewRow(c, id)], NewRow(c, id), c.reverses)
  {
    if target.Some? {
      forall i | 0 <= i < |rows|
        ensures rows[i].txn.id == rows[target.value].txn.id ==> i == target.value
      {
      }
    }
  }

  /**
   * An accepted command with a new identity and no reversal is posted exactly when it opens nothing too late and the
   * id is unused.
   */
  lemma NewIdentityAnswered(s: Tables, c: CreateTransaction, id: Id, conflictId: Id, now: Instant)
    requires Inv(s.rows) && CommandFits(c) && BatchFits(s.batches, c) && !IdentityKnown(s.rows, c)
    requires c.kind != Reversal
    ensures var (next, r) := Create(s, c, id, conflictId, now);
            if TooLateToOpen(s.rows, c) then r == Failure(OpeningNotFirst) && next == s
            else if IdTaken(s.rows, id) then r == Failure(KeyAlreadyUsed) && next == s
            else
              && r.Success? && r.value.Created? && PostedFor(r.value.row, c, id)
              && OneMore(s.rows, next.rows, r.value.row, None)
              && next.batches == s.batches && next.conflicts == s.conflicts
  {
    AcceptedFits(c);
    IdentityMissing(s.rows, c);
    OpeningInFields(s.rows, c);
    TakenExactly(s.rows, id);
    PostsInFields(s.rows, c, id, None);
  }

  lemma IdentityMissing(rows: seq<Row>, c: CreateTransaction)
    requires !IdentityKnown(rows, c)
    ensures BySourceIdentity(rows, c.fundId, c.source, c.externalId).None?
  {
    var k := BySourceIdentity(rows, c.fundId, c.source, c.externalId);
    if k.Some? {
      assert rows[k.value] in rows && HasIdentity(rows[k.value], c);
    }
  }

  /** A reversal of an id that no row has is refused. */
  lemma MissingTargetRefused(s: Tables, c: CreateTransaction, id: Id, conflictId: Id, now: Instant)
    requires Inv(s.rows) && CommandFits(c) && BatchFits(s.batches, c) && !IdentityKnown(s.rows, c)
    requires c.kind == Reversal && !IdTaken(s.rows, c.reverses.value)
    ensures Create(s, c, id, conflictId, now) == (s, Failure(TargetDoesNotExist))
  {
    AcceptedFits(c);
    IdentityMissing(s.rows, c);
    TakenExactly(s.rows, c.reverses.value);
  }

  /**
   * A reversal of the row `j` is posted, and the row marked, exactly when the row is an original of the same fund and
   * account, not reversed before, and the id is unused.
   */
  lemma ReversalAnswered(s: Tables, c: CreateTransaction, id: Id, conflictId: Id, now: Instant, j: nat)
    requires Inv(s.rows) && CommandFits(c) && BatchFits(s.batches, c) && !IdentityKnown(s.rows, c)
    requires c.kind == Reversal && j < |s.rows| && c.reverses == Some(s.rows[j].txn.id)
    ensures var (next, r) := Create(s, c, id, conflictId, now);
            var problem := TargetProblem(s.rows[j], c, ReversedBefore(s.rows, s.rows[j].txn.id));
            if problem.Some? then r == Failure(problem.value) && next == s
            else if IdTaken(s.rows, id) then r == Failure(KeyAlreadyUsed) && next == s
            else
              && r.Success? && r.value.Created? && PostedFor(r.value.row, c, id)
              && OneMore(s.rows, next.rows, r.value.row, c.reverses)
              && next.batches == s.batches && next.conflicts == s.conflicts
  {
    AcceptedFits(c);
    IdentityMissing(s.rows, c);
    TakenExactly(s.rows, id);
    TargetInFields(s.rows, c, j);
    if ReversalTarget(s.rows, c).Success? {
      PostsInFields(s.rows, c, id, ReversalTarget(s.rows, c).value);
    }
  }

  lemma TargetInFields(rows: seq<Row>, c: CreateTransaction, j: nat)
    requires UniqueRowIds(rows) && ShapeAccepted(c)
    requires c.kind == Reversal && j < |rows| && c.reverses == Some(rows[j].txn.id)
    ensures var problem := TargetProblem(rows[j], c, ReversedBefore(rows, rows[j].txn.id));
            ReversalTarget(rows, c) == if problem.Some? then Failure(problem.value) else Success(Some(j))
  {
    TakenExactly(rows, rows[j].txn.id);
    assert ById(rows, rows[j].txn.id) == Some(j);
  }
}
