/**
 * Where the ledger and the replay engine meet: what `create` accepts bounds the ways in which
 * `reconstruct` can fail on it.
 */
module LedgerReplay {
  import opened Wrappers
  import opened Sorting
  import opened LedgerTypes
  import opened PortfolioEngine
  import opened Conservation
  import opened Ledger
  import opened LedgerInvariants
  import opened Determinism

  predicate InScope(row: Row, fundId: Id, accountId: Option<Id>) {
    row.txn.fundId == fundId && (accountId.None? || row.txn.accountId == accountId.value)
  }

  /** The rows of a fund, or of one of its accounts, as domain records; status plays no part. */
  function Select(rows: seq<Row>, fundId: Id, accountId: Option<Id>): seq<LedgerTransaction> {
    if rows == [] then []
    else
      Select(rows[..|rows| - 1], fundId, accountId) +
      (if InScope(rows[|rows| - 1], fundId, accountId) then [rows[|rows| - 1].txn] else [])
  }

  lemma {:induction false} SelectMembers(rows: seq<Row>, fundId: Id, accountId: Option<Id>)
    ensures forall t :: t in Select(rows, fundId, accountId) <==>
                        exists i :: 0 <= i < |rows| && rows[i].txn == t && InScope(rows[i], fundId, accountId)
  {
    if rows == [] {
    } else {
      var front, row := rows[..|rows| - 1], rows[|rows| - 1];
      SelectMembers(front, fundId, accountId);
      forall t
        ensures t in Select(rows, fundId, accountId) <==>
                exists i :: 0 <= i < |rows| && rows[i].txn == t && InScope(rows[i], fundId, accountId)
      {
        if t in Select(front, fundId, accountId) {
          var i :| 0 <= i < |front| && front[i].txn == t && InScope(front[i], fundId, accountId);
          assert rows[i].txn == t;
        }
        if i :| 0 <= i < |rows| && rows[i].txn == t && InScope(rows[i], fundId, accountId) {
          assert i < |front| ==> front[i].txn == t;
        }
      }
    }
  }

  lemma {:induction false} SelectUnique(rows: seq<Row>, fundId: Id, accountId: Option<Id>)
    requires UniqueRowIds(rows)
    ensures UniqueIds(Select(rows, fundId, accountId))
  {
    if rows == [] {
    } else {
      var front := rows[..|rows| - 1];
      SelectUnique(front, fundId, accountId);
      SelectMembers(front, fundId, accountId);
      var s := Select(front, fundId, accountId);
      forall k | 0 <= k < |s|
        ensures s[k].id != rows[|rows| - 1].txn.id
      {
        assert s[k] in s;
        var i :| 0 <= i < |front| && front[i].txn == s[k] && InScope(front[i], fundId, accountId);
        assert rows[i].txn.id != rows[|rows| - 1].txn.id;
      }
    }
  }

  /** The facts a replay of ledger rows can rely on; any selection of a selection keeps them. */
  ghost predicate LedgerShaped(ts: seq<LedgerTransaction>) {
    && (forall r, t | r in ts && t in ts && r.kind.Reversal? && r.reverses == Some(t.id) :: t.accountId == r.accountId)
    && (forall r, q | r in ts && q in ts && r.kind.Reversal? && q.kind.Reversal? && r.reverses == q.reverses :: r == q)
  }

  /** Every reversal's target is an original of the same scope. */
  ghost predicate TargetsPresent(ts: seq<LedgerTransaction>) {
    forall r | r in ts && r.kind.Reversal? :: exists t :: t in ts && IsTarget(r, t)
  }

  lemma TargetRow(rows: seq<Row>, i: nat) returns (j: nat)
    requires TargetsEarlier(rows) && i < |rows| && rows[i].txn.kind.Reversal?
    ensures j < i && IsTarget(rows[i].txn, rows[j].txn)
  {
    j :| 0 <= j < i && IsTarget(rows[i].txn, rows[j].txn);
  }

  lemma SelectionValid(rows: seq<Row>, fundId: Id, accountId: Option<Id>)
    requires Inv(rows)
    ensures ValidInput(fundId, Select(rows, fundId, accountId))
  {
    SelectUnique(rows, fundId, accountId);
    SelectMembers(rows, fundId, accountId);
    forall t | t in Select(rows, fundId, accountId)
      ensures TransactionError(fundId, t).None?
    {
      var i :| 0 <= i < |rows| && rows[i].txn == t && InScope(rows[i], fundId, accountId);
    }
  }

  lemma SelectedRow(rows: seq<Row>, fundId: Id, accountId: Option<Id>, t: LedgerTransaction) returns (i: nat)
    requires t in Select(rows, fundId, accountId)
    ensures i < |rows| && rows[i].txn == t
  {
    SelectMembers(rows, fundId, accountId);
    i :| 0 <= i < |rows| && rows[i].txn == t && InScope(rows[i], fundId, accountId);
  }

  lemma TargetsShareAccounts(rows: seq<Row>, fundId: Id, accountId: Option<Id>, r: LedgerTransaction,
                             t: LedgerTransaction)
    requires TargetsEarlier(rows) && UniqueRowIds(rows)
    requires r in Select(rows, fundId, accountId) && t in Select(rows, fundId, accountId)
    requires r.kind.Reversal? && r.reverses == Some(t.id)
    ensures t.accountId == r.accountId
  {
    var i := SelectedRow(rows, fundId, accountId, r);
    var k := SelectedRow(rows, fundId, accountId, t);
    var j := TargetRow(rows, i);
    assert j == k;
  }

  lemma OneReversalSelected(rows: seq<Row>, fundId: Id, accountId: Option<Id>, r: LedgerTransaction,
                            q: LedgerTransaction)
    requires OneReversalEach(rows)
    requires r in Select(rows, fundId, accountId) && q in Select(rows, fundId, accountId)
    requires r.kind.Reversal? && q.kind.Reversal? && r.reverses == q.reverses
    ensures r == q
  {
    var i := SelectedRow(rows, fundId, accountId, r);
    var k := SelectedRow(rows, fundId, accountId, q);
    assert i == k;
  }

  lemma SelectionShaped(rows: seq<Row>, fundId: Id, accountId: Option<Id>)
    requires Inv(rows)
    ensures LedgerShaped(Select(rows, fundId, accountId))
  {
    var ts := Select(rows, fundId, accountId);
    forall r, t | r in ts && t in ts && r.kind.Reversal? && r.reverses == Some(t.id)
      ensures t.accountId == r.accountId
    {
      TargetsShareAccounts(rows, fundId, accountId, r, t);
    }
    forall r, q | r in ts && q in ts && r.kind.Reversal? && q.kind.Reversal? && r.reverses == q.reverses
      ensures r == q
    {
      OneReversalSelected(rows, fundId, accountId, r, q);
    }
  }

  lemma SelectionHasTargets(rows: seq<Row>, fundId: Id, accountId: Option<Id>)
    requires Inv(rows)
    ensures TargetsPresent(Select(rows, fundId, accountId))
  {
    var ts := Select(rows, fundId, accountId);
    SelectMembers(rows, fundId, accountId);
    forall r | r in ts && r.kind.Reversal?
      ensures exists t :: t in ts && IsTarget(r, t)
    {
      var i :| 0 <= i < |rows| && rows[i].txn == r && InScope(rows[i], fundId, accountId);
      var j := TargetRow(rows, i);
      assert InScope(rows[j], fundId, accountId);
      assert rows[j].txn in ts;
    }
  }

  // ---------------------------------------------------------------- how a replay can fail

  ghost predicate AllowedFailure(e: EngineError) {
    e.NegativeHolding? || e.NegativeCostBasis? || e == InvalidReversal(TargetNotApplied)
  }

  lemma NotReversedYet(front: seq<LedgerTransaction>, t: LedgerTransaction)
    requires LedgerShaped(front + [t]) && (forall x | x in front :: x.id != t.id)
    requires t.kind.Reversal? && t.reverses.Some?
    ensures t.reverses.value !in Targets(front)
  {
    forall q | q in front && q.kind.Reversal?
      ensures q.reverses != t.reverses
    {
      assert q in front + [t] && t in front + [t];
    }
  }

  lemma StepFailure(front: seq<LedgerTransaction>, b: Books, t: LedgerTransaction)
    requires LedgerShaped(front + [t]) && (forall x | x in front :: x.id != t.id)
    requires Recorded(front, b) && Counted(b) && ShapeError(t).None?
    requires Step(b, t).Failure?
    ensures AllowedFailure(Step(b, t).error)
    ensures Step(b, t).error == InvalidReversal(TargetNotApplied) ==>
              t.kind.Reversal? && t.reverses.Some? && t.reverses.value !in OriginalIds(front)
  {
    GuardsHoldAtStep(front, b, t);
    if t.kind.Reversal? && t.reverses.value in b.effects {
      var i := OriginalAt(front, t.reverses.value);
      assert front[i] in front + [t] && t in front + [t];
      assert Matches(b.effects[t.reverses.value], front[i]);
      NotReversedYet(front, t);
    }
  }

  /** A reversal replayed before its target, if that is why the replay stopped. */
  ghost predicate Premature(ts: seq<LedgerTransaction>, i: nat)
    requires i < |ts|
  {
    ts[i].kind.Reversal? && ts[i].reverses.Some? && ts[i].reverses.value !in OriginalIds(ts[..i])
  }

  lemma {:induction false} ReplayFailure(fundId: Id, ts: seq<LedgerTransaction>)
    requires ValidInput(fundId, ts) && LedgerShaped(ts) && Replay(ts).Failure?
    ensures AllowedFailure(Replay(ts).error)
    ensures Replay(ts).error == InvalidReversal(TargetNotApplied) ==> exists i :: 0 <= i < |ts| && Premature(ts, i)
  {
    if ts == [] {
    } else {
      var front, t := ts[..|ts| - 1], ts[|ts| - 1];
      ValidFront(fundId, ts);
      LastOf(ts);
      if Replay(front).Failure? {
        ReplayFailure(fundId, front);
        if Replay(front).error == InvalidReversal(TargetNotApplied) {
          var i :| 0 <= i < |front| && Premature(front, i);
          assert front[..i] == ts[..i];
          assert Premature(ts, i);
        }
      } else {
        ReplayRecords(fundId, front);
        UncertaintyCounts(fundId, front);
        StepFailure(front, Replay(front).value, t);
        if Replay(ts).error == InvalidReversal(TargetNotApplied) {
          assert Premature(ts, |ts| - 1);
        }
      }
    }
  }

  /** And conversely such a reversal always stops the replay. */
  lemma PrematureReversalFails(fundId: Id, ts: seq<LedgerTransaction>, i: nat)
    requires ValidInput(fundId, ts) && i < |ts| && Premature(ts, i)
    ensures Replay(ts).Failure?
  {
    if Replay(ts).Success? {
      ReplayPrefix(ts, i);
      ReplayPrefix(ts, i + 1);
      assert ts == ts[..i] + ts[i..];
      ValidityOfPart(fundId, ts[..i], ts[i..]);
      ReplayRecords(fundId, ts[..i]);
      ReplayNext(ts, i, Replay(ts[..i]).value);
      assert false;
    }
  }

  /** `r` takes effect before `t`, or then and was recorded before it, or also then and has the smaller id. */
  predicate TakesEffectBefore(r: LedgerTransaction, t: LedgerTransaction) {
    || r.effectiveAt < t.effectiveAt
    || (r.effectiveAt == t.effectiveAt && r.recordedAt < t.recordedAt)
    || (r.effectiveAt == t.effectiveAt && r.recordedAt == t.recordedAt && r.id < t.id)
  }

  /** A reversal in the selection that takes effect before the original it reverses. */
  ghost predicate ReversedTooEarly(supplied: seq<LedgerTransaction>, asOf: Instant) {
    exists r, t :: && r in supplied && t in supplied
                   && r.kind.Reversal? && r.reverses == Some(t.id) && !t.kind.Reversal?
                   && t.fundId == r.fundId && t.accountId == r.accountId
                   && r.effectiveAt <= asOf && TakesEffectBefore(r, t)
  }

  /** Among different ids that is the replay order. */
  lemma EffectOrderIsReplayOrder(r: LedgerTransaction, t: LedgerTransaction)
    requires r.id != t.id
    ensures TakesEffectBefore(r, t) <==> ReplayLe(r, t)
  {
  }

  lemma NotBefore(ts: seq<LedgerTransaction>, i: nat, t: LedgerTransaction)
    requires i <= |ts| && t !in ts[..i]
    ensures forall j | 0 <= j < |ts| && ts[j] == t :: i <= j
  {
    forall j | 0 <= j < i
      ensures ts[j] != t
    {
      assert ts[..i][j] == ts[j];
    }
  }

  lemma PrematureMeansTooEarly(fundId: Id, supplied: seq<LedgerTransaction>, asOf: Instant, accountId: Option<Id>,
                               i: nat)
    requires ValidInput(fundId, supplied) && TargetsPresent(supplied)
    requires i < |Ordered(supplied, asOf, accountId)| && Premature(Ordered(supplied, asOf, accountId), i)
    ensures ReversedTooEarly(supplied, asOf)
  {
    var ordered := Ordered(supplied, asOf, accountId);
    OrderedFacts(supplied, asOf, accountId);
    var r := ordered[i];
    assert r in supplied;
    var t :| t in supplied && IsTarget(r, t);
    assert Reverses(r, t.id) && r != t;
    SameIdSame(supplied, r, t);
    EffectOrderIsReplayOrder(r, t);
    if t in ordered {
      var j :| 0 <= j < |ordered| && ordered[j] == t;
      NotBefore(ordered, i, t);
      assert j != i;
      assert ReplayLe(ordered[i], ordered[j]);
    } else {
      assert t.effectiveAt > asOf;
    }
    assert TakesEffectBefore(r, t);
  }

  /** A reversal that takes effect before its target makes reconstruction of its scope fail. */
  lemma TooEarlyFails(fundId: Id, supplied: seq<LedgerTransaction>, asOf: Instant, accountId: Option<Id>)
    requires ValidInput(fundId, supplied) && ReversedTooEarly(supplied, asOf)
    requires accountId.Some? ==> forall x | x in supplied :: x.accountId == accountId.value
    ensures Reconstruct(fundId, supplied, asOf, accountId).Failure?
  {
    var r, t :| r in supplied && t in supplied && IsTarget(r, t) && r.effectiveAt <= asOf && TakesEffectBefore(r, t);
    assert IsTarget(r, t);
    assert r.kind.Reversal? && !t.kind.Reversal?;
    SameIdSame(supplied, r, t);
    EffectOrderIsReplayOrder(r, t);
    var ordered := Ordered(supplied, asOf, accountId);
    OrderedFacts(supplied, asOf, accountId);
    OrderedValid(fundId, supplied, asOf, accountId);
    ReconstructIsReplay(fundId, supplied, asOf, accountId);
    assert r in ordered;
    var i :| 0 <= i < |ordered| && ordered[i] == r;
    forall x | x in ordered[..i] && !x.kind.Reversal?
      ensures x.id != t.id
    {
      var j :| 0 <= j < i && ordered[j] == x;
      assert ReplayLe(ordered[j], ordered[i]);
      SameIdSame(supplied, x, t);
      SameIdSame(supplied, x, r);
    }
    assert Premature(ordered, i);
    PrematureReversalFails(fundId, ordered, i);
  }

  /**
   * Ledger acceptance bounds replay failure. For every ledger commands can reach, every fund, scope
   * and cutoff, and whatever order the rows come back in, reconstruction either succeeds or stops at
   * a negative holding, a negative known cost, or a reversal that takes effect before its target.
   */
  lemma AcceptanceBoundsFailure(batches: map<Id, ImportBatch>, commands: seq<Command>,
                                fundId: Id, accountId: Option<Id>, asOf: Instant, supplied: seq<LedgerTransaction>)
    requires multiset(supplied) == multiset(Select(Run(Tables([], batches, []), commands).rows, fundId, accountId))
    ensures var r := Reconstruct(fundId, supplied, asOf, accountId);
            r.Failure? ==>
              && (r.error.NegativeHolding? || r.error.NegativeCostBasis?
                  || r.error == InvalidReversal(TargetNotApplied))
              && (r.error == InvalidReversal(TargetNotApplied) ==> ReversedTooEarly(supplied, asOf))
    ensures ReversedTooEarly(supplied, asOf) ==> Reconstruct(fundId, supplied, asOf, accountId).Failure?
  {
    var rows := Run(Tables([], batches, []), commands).rows;
    var selected := Select(rows, fundId, accountId);
    ReachableInv(batches, commands);
    SelectionValid(rows, fundId, accountId);
    SelectionShaped(rows, fundId, accountId);
    SelectionHasTargets(rows, fundId, accountId);
    SameElements(supplied, selected);
    ValidityOfPermutation(fundId, selected, supplied);
    var ordered := Ordered(supplied, asOf, accountId);
    OrderedFacts(supplied, asOf, accountId);
    OrderedValid(fundId, supplied, asOf, accountId);
    ReconstructIsReplay(fundId, supplied, asOf, accountId);
    if Replay(ordered).Failure? {
      ReplayFailure(fundId, ordered);
      if Replay(ordered).error == InvalidReversal(TargetNotApplied) {
        var i :| 0 <= i < |ordered| && Premature(ordered, i);
        PrematureMeansTooEarly(fundId, supplied, asOf, accountId, i);
      }
    }
    if ReversedTooEarly(supplied, asOf) {
      SelectMembers(rows, fundId, accountId);
      TooEarlyFails(fundId, supplied, asOf, accountId);
    }
  }

  lemma SameIdSame(ts: seq<LedgerTransaction>, x: LedgerTransaction, y: LedgerTransaction)
    requires UniqueIds(ts) && x in ts && y in ts
    ensures x.id == y.id ==> x == y
  {
    var i :| 0 <= i < |ts| && ts[i] == x;
    var j :| 0 <= j < |ts| && ts[j] == y;
    assert i < j ==> ts[i].id != ts[j].id;
    assert j < i ==> ts[j].id != ts[i].id;
  }
}
