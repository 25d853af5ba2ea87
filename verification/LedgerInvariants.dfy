/** What every sequence of `create` commands keeps true of the ledger. */
module LedgerInvariants {
  import opened Wrappers
  import opened LedgerTypes
  import opened PortfolioEngine
  import opened Ledger
  import MovingAverage

  datatype Command = Command(content: CreateTransaction, id: Id, conflictId: Id, now: Instant)

  function Apply(s: Tables, c: Command): Tables {
    Create(s, c.content, c.id, c.conflictId, c.now).0
  }

  /** The tables after a run of commands, accepted or not. */
  function Run(s: Tables, commands: seq<Command>): Tables {
    if commands == [] then s else Apply(Run(s, commands[..|commands| - 1]), commands[|commands| - 1])
  }

  // ---------------------------------------------------------------- the invariant

  ghost predicate UniqueRowIds(rows: seq<Row>) {
    forall i, j | 0 <= i < j < |rows| :: rows[i].txn.id != rows[j].txn.id
  }

  ghost predicate UniqueIdentities(rows: seq<Row>) {
    forall i, j | 0 <= i < j < |rows| ::
        !SameIdentity(rows[i].txn, rows[j].txn.fundId, rows[j].txn.source, rows[j].txn.externalId)
  }

  /** Every row is one the replay engine accepts, priced openings included, and keeps its own digest. */
  ghost predicate WellFormedRows(rows: seq<Row>) {
    forall i | 0 <= i < |rows| ::
      && TransactionError(rows[i].txn.fundId, rows[i].txn).None?
      && MovingAverage.OpeningPriceNonnegative(rows[i].txn)
      && rows[i].payload == Economics(rows[i].txn)
  }

  /** A reversal targets an earlier original of its own fund and account. */
  ghost predicate TargetsEarlier(rows: seq<Row>) {
    forall i | 0 <= i < |rows| && rows[i].txn.kind.Reversal? ::
      exists j :: 0 <= j < i && IsTarget(rows[i].txn, rows[j].txn)
  }

  predicate IsTarget(r: LedgerTransaction, t: LedgerTransaction) {
    Reverses(r, t.id) && !t.kind.Reversal? && t.fundId == r.fundId && t.accountId == r.accountId
  }

  ghost predicate OneReversalEach(rows: seq<Row>) {
    forall i, j | 0 <= i < j < |rows| && rows[i].txn.kind.Reversal? && rows[j].txn.kind.Reversal? ::
      rows[i].txn.reverses != rows[j].txn.reverses
  }

  /** A row reads REVERSED exactly when some reversal targets it. */
  ghost predicate StatusProjects(rows: seq<Row>) {
    forall i | 0 <= i < |rows| :: rows[i].status.Reversed? <==> HasReversal(rows, rows[i].txn.id)
  }

  predicate SameOpening(a: LedgerTransaction, b: LedgerTransaction) {
    && a.accountId == b.accountId
    && ((a.kind.OpeningCash? && b.kind.OpeningCash?)
        || (a.kind.OpeningPosition? && b.kind.OpeningPosition? && a.instrumentId == b.instrumentId))
  }

  ghost predicate OneActiveOpening(rows: seq<Row>) {
    forall i, j | 0 <= i < j < |rows| && rows[i].status.Posted? && rows[j].status.Posted? ::
      !SameOpening(rows[i].txn, rows[j].txn)
  }

  ghost predicate Inv(rows: seq<Row>) {
    && UniqueRowIds(rows)
    && UniqueIdentities(rows)
    && WellFormedRows(rows)
    && TargetsEarlier(rows)
    && OneReversalEach(rows)
    && StatusProjects(rows)
    && OneActiveOpening(rows)
  }

  // ---------------------------------------------------------------- preservation

  lemma AcceptedRowIsReplayable(c: CreateTransaction, id: Id)
    requires Accepted(c)
    ensures TransactionError(c.fundId, ToTransaction(c, id)).None?
    ensures MovingAverage.OpeningPriceNonnegative(ToTransaction(c, id))
  {
  }

  /** The rows after a successful insertion, position by position. */
  ghost predicate Inserted(rows: seq<Row>, next: seq<Row>, c: CreateTransaction, id: Id, target: Option<nat>) {
    && |next| == |rows| + 1
    && next[|rows|] == NewRow(c, id)
    && (forall i | 0 <= i < |rows| :: next[i].txn == rows[i].txn && next[i].payload == rows[i].payload)
    && (forall i | 0 <= i < |rows| :: next[i].status == if target == Some(i) then Reversed else rows[i].status)
  }

  lemma InsertedRows(rows: seq<Row>, c: CreateTransaction, id: Id, target: Option<nat>)
    requires target.Some? ==> target.value < |rows|
    ensures Inserted(rows, MarkReversed(rows, target) + [NewRow(c, id)], c, id, target)
  {
  }

  lemma KeysStayUnique(rows: seq<Row>, next: seq<Row>, c: CreateTransaction, id: Id, target: Option<nat>)
    requires UniqueRowIds(rows) && UniqueIdentities(rows) && WellFormedRows(rows) && Accepted(c)
    requires Inserted(rows, next, c, id, target)
    requires ById(rows, id).None? && BySourceIdentity(rows, c.fundId, c.source, c.externalId).None?
    ensures UniqueRowIds(next) && UniqueIdentities(next) && WellFormedRows(next)
  {
    AcceptedRowIsReplayable(c, id);
  }

  lemma TargetsStayEarlier(rows: seq<Row>, next: seq<Row>, c: CreateTransaction, id: Id, target: Option<nat>)
    requires TargetsEarlier(rows) && ShapeAccepted(c) && ReversalTarget(rows, c) == Success(target)
    requires Inserted(rows, next, c, id, target)
    ensures TargetsEarlier(next)
  {
    forall i | 0 <= i < |next| && next[i].txn.kind.Reversal?
      ensures exists j :: 0 <= j < i && IsTarget(next[i].txn, next[j].txn)
    {
      if i < |rows| {
        var j :| 0 <= j < i && IsTarget(rows[i].txn, rows[j].txn);
        assert IsTarget(next[i].txn, next[j].txn);
      } else {
        assert IsTarget(next[i].txn, next[target.value].txn);
      }
    }
  }

  lemma ReversalsStaySingle(rows: seq<Row>, next: seq<Row>, c: CreateTransaction, id: Id, target: Option<nat>)
    requires OneReversalEach(rows) && ShapeAccepted(c) && ReversalTarget(rows, c) == Success(target)
    requires Inserted(rows, next, c, id, target)
    ensures OneReversalEach(next)
  {
    forall i | 0 <= i < |rows| && next[i].txn.kind.Reversal? && c.kind.Reversal?
      ensures next[i].txn.reverses != next[|rows|].txn.reverses
    {
      assert !HasReversal(rows, c.reverses.value);
      assert !Reverses(rows[i].txn, c.reverses.value);
    }
  }

  lemma HasReversalAfter(rows: seq<Row>, next: seq<Row>, c: CreateTransaction, id: Id, target: Option<nat>, x: Id)
    requires Inserted(rows, next, c, id, target)
    ensures HasReversal(next, x) <==> HasReversal(rows, x) || Reverses(ToTransaction(c, id), x)
  {
    if HasReversal(rows, x) {
      var i :| 0 <= i < |rows| && Reverses(rows[i].txn, x);
      assert Reverses(next[i].txn, x);
    }
    if Reverses(ToTransaction(c, id), x) {
      assert Reverses(next[|rows|].txn, x);
    }
  }

  lemma NotYetTargeted(rows: seq<Row>, id: Id)
    requires TargetsEarlier(rows) && ById(rows, id).None?
    ensures !HasReversal(rows, id)
  {
    forall r | 0 <= r < |rows| && rows[r].txn.kind.Reversal?
      ensures rows[r].txn.reverses != Some(id)
    {
      var j :| 0 <= j < r && IsTarget(rows[r].txn, rows[j].txn);
    }
  }

  lemma StatusStaysProjected(rows: seq<Row>, next: seq<Row>, c: CreateTransaction, id: Id, target: Option<nat>)
    requires StatusProjects(rows) && UniqueRowIds(rows) && TargetsEarlier(rows)
    requires ShapeAccepted(c) && ReversalTarget(rows, c) == Success(target)
    requires ById(rows, id).None? && Inserted(rows, next, c, id, target)
    ensures StatusProjects(next)
  {
    forall i | 0 <= i < |next|
      ensures next[i].status.Reversed? <==> HasReversal(next, next[i].txn.id)
    {
      HasReversalAfter(rows, next, c, id, target, next[i].txn.id);
      if i < |rows| {
        assert c.kind.Reversal? ==> (rows[i].txn.id == c.reverses.value <==> target == Some(i));
      } else {
        NotYetTargeted(rows, id);
        if c.kind.Reversal? {
          assert rows[target.value].txn.id != id;
        }
      }
    }
  }

  lemma OpeningsStaySingle(rows: seq<Row>, next: seq<Row>, c: CreateTransaction, id: Id, target: Option<nat>)
    requires OneActiveOpening(rows) && ShapeAccepted(c) && OpeningAccepted(rows, c)
    requires Inserted(rows, next, c, id, target)
    ensures OneActiveOpening(next)
  {
    forall i, j | 0 <= i < j < |next| && next[i].status.Posted? && next[j].status.Posted?
      ensures !SameOpening(next[i].txn, next[j].txn)
    {
      assert rows[i].status.Posted?;
      if j == |rows| && c.kind.OpeningCash? {
        assert !HasPostedCash(rows, c.accountId);
      } else if j == |rows| && c.kind.OpeningPosition? {
        assert !HasPostedQuantity(rows, c.accountId, c.instrumentId.value);
      }
    }
  }

  lemma InsertKeepsInv(rows: seq<Row>, c: CreateTransaction, id: Id, target: Option<nat>)
    requires Inv(rows) && Accepted(c) && OpeningAccepted(rows, c) && ReversalTarget(rows, c) == Success(target)
    requires ById(rows, id).None? && BySourceIdentity(rows, c.fundId, c.source, c.externalId).None?
    ensures Inv(MarkReversed(rows, target) + [NewRow(c, id)])
  {
    var next := MarkReversed(rows, target) + [NewRow(c, id)];
    InsertedRows(rows, c, id, target);
    KeysStayUnique(rows, next, c, id, target);
    TargetsStayEarlier(rows, next, c, id, target);
    ReversalsStaySingle(rows, next, c, id, target);
    StatusStaysProjected(rows, next, c, id, target);
    OpeningsStaySingle(rows, next, c, id, target);
  }

  /** What a command can do to the tables: insert a row, record a conflict, or nothing. */
  lemma CreateByCase(s: Tables, c: CreateTransaction, id: Id, conflictId: Id, now: Instant)
    ensures var (next, r) := Create(s, c, id, conflictId, now);
            if r.Success? && r.value.Created? then
              && Accepted(c) && OpeningAccepted(s.rows, c) && ReversalTarget(s.rows, c).Success?
              && ById(s.rows, id).None? && BySourceIdentity(s.rows, c.fundId, c.source, c.externalId).None?
              && next == s.(rows := MarkReversed(s.rows, ReversalTarget(s.rows, c).value) + [NewRow(c, id)])
              && r.value.row == NewRow(c, id)
            else next.rows == s.rows && (r.Failure? || r.value.Duplicate? ==> next == s)
  {
  }

  /**
   * One command keeps the invariant. It changes the rows only when it reports a creation, and then it
   * appends one row and at most marks one other; duplicates, conflicts and rejections leave every row.
   */
  lemma CreateKeepsInv(s: Tables, c: CreateTransaction, id: Id, conflictId: Id, now: Instant)
    requires Inv(s.rows)
    ensures var (next, r) := Create(s, c, id, conflictId, now);
            && Inv(next.rows)
            && (r.Success? && r.value.Created? <==> next.rows != s.rows)
            && (r.Failure? || r.value.Duplicate? ==> next == s)
            && |s.rows| <= |next.rows| <= |s.rows| + 1
            && (forall i | 0 <= i < |s.rows| :: next.rows[i].txn == s.rows[i].txn)
  {
    var r := Create(s, c, id, conflictId, now).1;
    CreateByCase(s, c, id, conflictId, now);
    if r.Success? && r.value.Created? {
      var target := ReversalTarget(s.rows, c).value;
      InsertKeepsInv(s.rows, c, id, target);
      InsertedRows(s.rows, c, id, target);
    }
  }

  /** Every ledger that commands can reach satisfies the invariant. */
  lemma {:induction false} ReachableInv(batches: map<Id, ImportBatch>, commands: seq<Command>)
    ensures Inv(Run(Tables([], batches, []), commands).rows)
  {
    if commands == [] {
    } else {
      ReachableInv(batches, commands[..|commands| - 1]);
      var s, c := Run(Tables([], batches, []), commands[..|commands| - 1]), commands[|commands| - 1];
      CreateKeepsInv(s, c.content, c.id, c.conflictId, c.now);
    }
  }

  /** Posted economics never change: a later ledger holds every earlier fact at its own position. */
  lemma {:induction false} FactsAreImmutable(s: Tables, commands: seq<Command>)
    requires Inv(s.rows)
    ensures Inv(Run(s, commands).rows)
    ensures |s.rows| <= |Run(s, commands).rows|
    ensures forall i | 0 <= i < |s.rows| :: Run(s, commands).rows[i].txn == s.rows[i].txn
  {
    if commands == [] {
    } else {
      FactsAreImmutable(s, commands[..|commands| - 1]);
      var before, c := Run(s, commands[..|commands| - 1]), commands[|commands| - 1];
      CreateKeepsInv(before, c.content, c.id, c.conflictId, c.now);
    }
  }

  // ---------------------------------------------------------------- idempotency

  /** Conflicts are only appended, and batches keep their fund and source. */
  ghost predicate KeepsRecords(s: Tables, later: Tables) {
    && s.conflicts <= later.conflicts
    && (forall k | k in s.batches ::
          && k in later.batches
          && later.batches[k].fundId == s.batches[k].fundId && later.batches[k].source == s.batches[k].source)
  }

  lemma CreateKeepsRecords(s: Tables, c: Command)
    ensures KeepsRecords(s, Apply(s, c))
  {
  }

  lemma {:induction false} RunKeepsRecords(s: Tables, commands: seq<Command>)
    ensures KeepsRecords(s, Run(s, commands))
  {
    if commands == [] {
    } else {
      RunKeepsRecords(s, commands[..|commands| - 1]);
      CreateKeepsRecords(Run(s, commands[..|commands| - 1]), commands[|commands| - 1]);
    }
  }

  lemma BatchStaysAccepted(s: Tables, later: Tables, c: CreateTransaction)
    requires KeepsRecords(s, later) && BatchAccepted(s.batches, c)
    ensures BatchAccepted(later.batches, c)
  {
    if c.importBatchId.Some? {
      var k: Id := c.importBatchId.value;
      assert k in s.batches && k in later.batches;
    }
  }

  lemma SameEconomics(a: CreateTransaction, b: CreateTransaction)
    requires Economics(ToTransaction(a, 0)) == Economics(ToTransaction(b, 0))
    ensures a.fundId == b.fundId && a.source == b.source && a.externalId == b.externalId
  {
    assert Economics(ToTransaction(a, 0)).fundId == a.fundId;
  }

  lemma FindsRow(rows: seq<Row>, i: nat, fundId: Id, source: string, externalId: string)
    requires UniqueIdentities(rows) && i < |rows| && SameIdentity(rows[i].txn, fundId, source, externalId)
    ensures BySourceIdentity(rows, fundId, source, externalId) == Some(i)
  {
    var found := BySourceIdentity(rows, fundId, source, externalId);
    assert found.Some?;
    assert !(found.value < i) && !(i < found.value);
  }

  /** A command whose identity is row `i`'s is answered from that row: a duplicate exactly when the economics agree. */
  lemma AnsweredFromRow(s: Tables, i: nat, again: CreateTransaction, id: Id, conflictId: Id, now: Instant)
    requires Inv(s.rows) && i < |s.rows| && Accepted(again) && BatchAccepted(s.batches, again)
    requires SameIdentity(s.rows[i].txn, again.fundId, again.source, again.externalId)
    ensures var (next, r) := Create(s, again, id, conflictId, now);
            if Economics(s.rows[i].txn) == Economics(ToTransaction(again, 0))
                then (next, r) == (s, Success(Duplicate(s.rows[i])))
            else next == RecordConflict(s, again, s.rows[i], conflictId, now).0 && r.Success? && r.value.Conflicting?
  {
    FindsRow(s.rows, i, again.fundId, again.source, again.externalId);
  }

  lemma CreatedRow(s: Tables, c: CreateTransaction, id: Id, conflictId: Id, now: Instant)
    requires Inv(s.rows)
    requires Create(s, c, id, conflictId, now).1.Success? && Create(s, c, id, conflictId, now).1.value.Created?
    ensures var next := Create(s, c, id, conflictId, now).0;
            Inv(next.rows) && |next.rows| == |s.rows| + 1 && next.rows[|s.rows|].txn == ToTransaction(c, id)
  {
    CreateKeepsInv(s, c, id, conflictId, now);
    CreateByCase(s, c, id, conflictId, now);
    InsertedRows(s.rows, c, id, ReversalTarget(s.rows, c).value);
  }

  /**
   * After a creation and any later commands, the same economics are answered as a duplicate of the row created
   * then, however they are enveloped, and change nothing.
   */
  lemma RetryIsDuplicate(s: Tables, c: CreateTransaction, id: Id, conflictId: Id, now: Instant, later: seq<Command>,
                         again: CreateTransaction, id2: Id, conflictId2: Id, now2: Instant)
    requires Inv(s.rows)
    requires Create(s, c, id, conflictId, now).1.Success? && Create(s, c, id, conflictId, now).1.value.Created?
    requires Accepted(again) && BatchAccepted(s.batches, again)
    requires Economics(ToTransaction(again, 0)) == Economics(ToTransaction(c, 0))
    ensures var end := Run(Create(s, c, id, conflictId, now).0, later);
            && |s.rows| < |end.rows| && end.rows[|s.rows|].txn == ToTransaction(c, id)
            && Create(end, again, id2, conflictId2, now2) == (end, Success(Duplicate(end.rows[|s.rows|])))
  {
    var first := Command(c, id, conflictId, now);
    var next := Apply(s, first);
    var end := Run(next, later);
    CreatedRow(s, c, id, conflictId, now);
    FactsAreImmutable(next, later);
    CreateKeepsRecords(s, first);
    RunKeepsRecords(next, later);
    BatchStaysAccepted(s, next, again);
    BatchStaysAccepted(next, end, again);
    SameEconomics(again, c);
    AnsweredFromRow(end, |s.rows|, again, id2, conflictId2, now2);
  }

  lemma {:induction false} PriorConflictStays(conflicts: seq<ImportConflict>, more: seq<ImportConflict>,
                                              c: CreateTransaction)
    requires c.importBatchId.Some? && conflicts <= more && PriorConflict(conflicts, c).Some?
    ensures PriorConflict(more, c).Some?
    decreases |more|
  {
    if conflicts == more {
    } else {
      PriorConflictStays(conflicts, more[..|more| - 1], c);
    }
  }

  lemma {:induction false} SamePriorConflict(conflicts: seq<ImportConflict>, a: CreateTransaction, b: CreateTransaction)
    requires a.importBatchId.Some? && a.importBatchId == b.importBatchId
    requires Economics(ToTransaction(a, 0)) == Economics(ToTransaction(b, 0))
    ensures PriorConflict(conflicts, a) == PriorConflict(conflicts, b)
  {
    SameEconomics(a, b);
    if conflicts == [] {
    } else {
      SamePriorConflict(conflicts[..|conflicts| - 1], a, b);
    }
  }

  /** Recording a conflict leaves the rows alone, and adds one record and one count, or nothing when there is one. */
  lemma ConflictIsRecorded(s: Tables, c: CreateTransaction, existing: Row, conflictId: Id, now: Instant)
    requires c.importBatchId.Some? ==> c.importBatchId.value in s.batches
    ensures var next := RecordConflict(s, c, existing, conflictId, now).0;
            && next.rows == s.rows
            && (c.importBatchId.Some? ==> PriorConflict(next.conflicts, c).Some?)
            && (next == s || (c.importBatchId.Some? && |next.conflicts| == |s.conflicts| + 1))
            && (|next.conflicts| == |s.conflicts| + 1 ==>
                  next.batches[c.importBatchId.value].conflictCount ==
                      s.batches[c.importBatchId.value].conflictCount + 1)
  {
    var next := RecordConflict(s, c, existing, conflictId, now).0;
    if next != s {
      assert next.conflicts[..|next.conflicts| - 1] == s.conflicts;
    }
  }

  /** What a command answered CONFLICT has done. */
  lemma ConflictingCommand(s: Tables, c: CreateTransaction, id: Id, conflictId: Id, now: Instant) returns (i: nat)
    requires Inv(s.rows)
    requires Create(s, c, id, conflictId, now).1.Success? && Create(s, c, id, conflictId, now).1.value.Conflicting?
    ensures Accepted(c) && BatchAccepted(s.batches, c)
    ensures i < |s.rows| && SameIdentity(s.rows[i].txn, c.fundId, c.source, c.externalId)
    ensures Economics(s.rows[i].txn) != Economics(ToTransaction(c, 0))
    ensures Create(s, c, id, conflictId, now).0 == RecordConflict(s, c, s.rows[i], conflictId, now).0
  {
    i := BySourceIdentity(s.rows, c.fundId, c.source, c.externalId).value;
  }

  /**
   * Conflicting content never changes the ledger. It is recorded and counted at most once per batch: after it has
   * been answered once, no later command with the same economics and batch changes anything, whatever came between.
   */
  lemma ConflictIsRecordedOnce(s: Tables, c: CreateTransaction, id: Id, conflictId: Id, now: Instant,
                               later: seq<Command>,
                               again: CreateTransaction, id2: Id, conflictId2: Id, now2: Instant)
    requires Inv(s.rows)
    requires Create(s, c, id, conflictId, now).1.Success? && Create(s, c, id, conflictId, now).1.value.Conflicting?
    requires Accepted(again) && again.importBatchId == c.importBatchId
    requires Economics(ToTransaction(again, 0)) == Economics(ToTransaction(c, 0))
    ensures var first := Create(s, c, id, conflictId, now).0;
            && first.rows == s.rows
            && (first != s ==>
                  && c.importBatchId.Some? && |first.conflicts| == |s.conflicts| + 1
                  && first.batches[c.importBatchId.value].conflictCount ==
                     s.batches[c.importBatchId.value].conflictCount + 1)
    ensures var end := Run(Create(s, c, id, conflictId, now).0, later);
            var (next, r) := Create(end, again, id2, conflictId2, now2);
            next == end && r.Success? && r.value.Conflicting?
  {
    var i := ConflictingCommand(s, c, id, conflictId, now);
    var next := Apply(s, Command(c, id, conflictId, now));
    var end := Run(next, later);
    SameEconomics(again, c);
    ConflictIsRecorded(s, c, s.rows[i], conflictId, now);
    FactsAreImmutable(next, later);
    CreateKeepsRecords(s, Command(c, id, conflictId, now));
    RunKeepsRecords(next, later);
    BatchStaysAccepted(s, next, again);
    BatchStaysAccepted(next, end, again);
    AnsweredFromRow(end, i, again, id2, conflictId2, now2);
    if c.importBatchId.Some? {
      PriorConflictStays(next.conflicts, end.conflicts, c);
      SamePriorConflict(end.conflicts, again, c);
    }
  }
}
