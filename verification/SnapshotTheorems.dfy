/** The promises of the snapshot service: reproducibility, revision chains and reuse, over every run. */
module SnapshotTheorems {
  import opened Wrappers
  import opened Sorting
  import opened LedgerTypes
  import opened PortfolioEngine
  import opened Ledger
  import opened LedgerInvariants
  import opened LedgerReplay
  import opened Determinism
  import RealizedPnl
  import opened Snapshots
  import opened SnapshotRuns

  // ---------------------------------------------------------------- reproducibility

  lemma {:induction false} WithIdsMembers(rows: seq<Row>, ids: seq<Id>)
    ensures forall t :: t in WithIds(rows, ids) <==> IsRow(rows, t) && t.id in ids
  {
    if rows == [] {
    } else {
      var front, row := rows[..|rows| - 1], rows[|rows| - 1];
      WithIdsMembers(front, ids);
      forall t
        ensures IsRow(rows, t) <==> IsRow(front, t) || t == row.txn
      {
        if IsRow(front, t) {
          var i :| 0 <= i < |front| && front[i].txn == t;
          assert rows[i].txn == t;
        }
        if IsRow(rows, t) {
          var i :| 0 <= i < |rows| && rows[i].txn == t;
          assert i < |front| ==> front[i].txn == t;
        }
        assert rows[|rows| - 1].txn == row.txn;
      }
    }
  }

  lemma {:induction false} WithIdsUnique(rows: seq<Row>, ids: seq<Id>)
    requires UniqueRowIds(rows)
    ensures UniqueIds(WithIds(rows, ids))
  {
    if rows == [] {
    } else {
      var front := rows[..|rows| - 1];
      WithIdsUnique(front, ids);
      WithIdsMembers(front, ids);
      var s := WithIds(front, ids);
      forall k | 0 <= k < |s|
        ensures s[k].id != rows[|rows| - 1].txn.id
      {
        assert s[k] in s;
        var i :| 0 <= i < |front| && front[i].txn == s[k];
        assert rows[i].txn.id != rows[|rows| - 1].txn.id;
      }
    }
  }

  lemma SameMembersSameMultiset(a: seq<LedgerTransaction>, b: seq<LedgerTransaction>)
    requires UniqueIds(a) && UniqueIds(b)
    requires forall t :: t in a <==> t in b
    ensures multiset(a) == multiset(b)
  {
    forall t
      ensures multiset(a)[t] == multiset(b)[t]
    {
      if t in a {
        var i :| 0 <= i < |a| && a[i] == t;
        var j :| 0 <= j < |b| && b[j] == t;
        OneOccurrence(a, i);
        OneOccurrence(b, j);
      } else {
        assert t !in multiset(a) && t !in multiset(b);
      }
    }
  }

  /** The recorded ids still select exactly the transactions that were replayed. */
  lemma EvidenceIsInput(rows: seq<Row>, s: Snapshot)
    requires UniqueRowIds(rows) && Evidenced(rows, s)
    ensures multiset(WithIds(rows, s.state.appliedIds)) == multiset(s.inputRecord.transactions)
  {
    var input, ids := s.inputRecord.transactions, s.state.appliedIds;
    WithIdsMembers(rows, ids);
    WithIdsUnique(rows, ids);
    forall t
      ensures IsRow(rows, t) && t.id in ids <==> t in input
    {
      if t in input {
        var i :| 0 <= i < |input| && input[i] == t;
        assert ids[i] == t.id;
      }
      if IsRow(rows, t) && t.id in ids {
        var i :| 0 <= i < |ids| && ids[i] == t.id;
        assert input[i] in input;
        var x :| 0 <= x < |rows| && rows[x].txn == t;
        var y :| 0 <= y < |rows| && rows[y].txn == input[i];
        assert x == y;
      }
    }
    SameMembersSameMultiset(WithIds(rows, ids), input);
  }

  lemma EvidenceReplays(rows: seq<Row>, s: Snapshot, evidence: seq<LedgerTransaction>)
    requires Evidenced(rows, s) && multiset(evidence) == multiset(s.inputRecord.transactions)
    ensures Reconstruct(s.scope.fundId, evidence, s.scope.asOf, s.scope.accountId) == Success(s.state)
  {
    var input := s.inputRecord.transactions;
    ValidityOfPermutation(s.scope.fundId, input, evidence);
    OrderOfPermutation(input, evidence, s.scope.asOf, s.scope.accountId);
    RealizedPnl.PrefixIsItsOwnSelection(input, s.scope.asOf, s.scope.accountId);
    ReconstructIsReplay(s.scope.fundId, evidence, s.scope.asOf, s.scope.accountId);
  }

  /** In a sound system every stored snapshot verifies, whatever order its evidence is read in. */
  lemma SoundSnapshotsVerify(s: System, i: nat, evidence: seq<LedgerTransaction>)
    requires Sound(s) && i < |s.snapshots|
    requires multiset(evidence) == multiset(WithIds(s.ledger.rows, s.snapshots[i].state.appliedIds))
    ensures Verify(s.snapshots, evidence, s.snapshots[i].id) == Success(true)
  {
    var snapshot := s.snapshots[i];
    var found := SnapshotById(s.snapshots, snapshot.id);
    assert found == Some(i);
    EvidenceIsInput(s.ledger.rows, snapshot);
    SameElements(evidence, snapshot.inputRecord.transactions);
    EvidenceReplays(s.ledger.rows, snapshot, evidence);
  }

  function Genesis(batches: map<Id, ImportBatch>): System {
    System(Tables([], batches, []), [])
  }

  lemma {:induction false} RunConcat(s: System, a: seq<Action>, b: seq<Action>)
    ensures RunAll(s, a + b) == RunAll(RunAll(s, a), b)
  {
    if b == [] {
      assert a + b == a;
    } else {
      assert (a + b)[..|a + b| - 1] == a + b[..|b| - 1];
      RunConcat(s, a, b[..|b| - 1]);
    }
  }

  /**
   * Every snapshot a run has created is still there after any further postings, reversals and snapshots,
   * unchanged but for its status, and still verifies.
   */
  lemma SnapshotsStayReproducible(batches: map<Id, ImportBatch>, before: seq<Action>, after: seq<Action>, i: nat,
                                  evidence: seq<LedgerTransaction>)
    requires i < |RunAll(Genesis(batches), before).snapshots|
    requires var end := RunAll(Genesis(batches), before + after);
             multiset(evidence) ==
             multiset(WithIds(end.ledger.rows, RunAll(Genesis(batches), before).snapshots[i].state.appliedIds))
    ensures var mid, end := RunAll(Genesis(batches), before), RunAll(Genesis(batches), before + after);
            && i < |end.snapshots|
            && end.snapshots[i] == mid.snapshots[i].(status := end.snapshots[i].status)
            && Verify(end.snapshots, evidence, mid.snapshots[i].id) == Success(true)
  {
    var mid, end := RunAll(Genesis(batches), before), RunAll(Genesis(batches), before + after);
    RunConcat(Genesis(batches), before, after);
    RunKeepsSound(Genesis(batches), before);
    RunKeepsSound(mid, after);
    assert end.snapshots[..|mid.snapshots|][i] == end.snapshots[i];
    SoundSnapshotsVerify(end, i, evidence);
  }

  // ---------------------------------------------------------------- revision chains

  lemma {:induction false} CountGrows(snapshots: seq<Snapshot>, scope: Scope, i: nat, j: nat)
    requires i <= j <= |snapshots|
    ensures |Filter(OfScope(scope), snapshots[..i])| <= |Filter(OfScope(scope), snapshots[..j])|
    ensures i < j && snapshots[i].scope == scope ==>
              |Filter(OfScope(scope), snapshots[..i])| < |Filter(OfScope(scope), snapshots[..j])|
    decreases j
  {
    if i < j {
      assert snapshots[..j][..j - 1] == snapshots[..j - 1];
      CountGrows(snapshots, scope, i, j - 1);
    }
  }

  /** Where in the table the k-th snapshot of a scope sits. */
  lemma {:induction false} ChainIndex(snapshots: seq<Snapshot>, scope: Scope, k: nat) returns (i: nat)
    requires k < |Filter(OfScope(scope), snapshots)|
    ensures i < |snapshots| && snapshots[i] == Filter(OfScope(scope), snapshots)[k] && snapshots[i].scope == scope
    ensures |Filter(OfScope(scope), snapshots[..i])| == k
  {
    var front := snapshots[..|snapshots| - 1];
    if k < |Filter(OfScope(scope), front)| {
      i := ChainIndex(front, scope, k);
      assert front[..i] == snapshots[..i];
    } else {
      i := |snapshots| - 1;
    }
  }

  /** The snapshots of a scope, in the order created. */
  function Chain(snapshots: seq<Snapshot>, scope: Scope): seq<Snapshot> {
    Filter(OfScope(scope), snapshots)
  }

  predicate ProperLink(chain: seq<Snapshot>, k: nat)
    requires k < |chain|
  {
    && chain[k].revision == k + 1
    && chain[k].supersedes == (if k == 0 then None else Some(chain[k - 1].id))
    && (chain[k].status.Current? <==> k == |chain| - 1)
  }

  /** Revisions 1..n, each superseding the one before, and only the last one current. */
  ghost predicate ProperChain(chain: seq<Snapshot>) {
    forall k | 0 <= k < |chain| :: ProperLink(chain, k)
  }

  lemma ChainLink(snapshots: seq<Snapshot>, scope: Scope, k: nat)
    requires Chained(snapshots) && k < |Chain(snapshots, scope)|
    ensures var chain := Chain(snapshots, scope);
            chain[k].revision == k + 1 && chain[k].supersedes == if k == 0 then None else Some(chain[k - 1].id)
  {
    var i := ChainIndex(snapshots, scope, k);
    if k > 0 {
      var j :| 0 <= j < i && LinkedTo(snapshots, i, j);
      var p := ChainIndex(snapshots, scope, k - 1);
      if j < p {
        CountGrows(snapshots, scope, j, p);
      } else {
        CountGrows(snapshots, scope, p, j);
      }
      assert j == p;
    }
  }

  lemma ChainEnd(snapshots: seq<Snapshot>, scope: Scope, k: nat)
    requires Chained(snapshots) && k < |Chain(snapshots, scope)|
    ensures Chain(snapshots, scope)[k].status.Current? <==> k == |Chain(snapshots, scope)| - 1
  {
    var i := ChainIndex(snapshots, scope, k);
    assert snapshots[..|snapshots|] == snapshots;
    if k < |Chain(snapshots, scope)| - 1 {
      var n := ChainIndex(snapshots, scope, k + 1);
      if n <= i {
        CountGrows(snapshots, scope, n, i);
      }
      assert i < n;
    } else {
      forall j | i < j < |snapshots|
        ensures snapshots[j].scope != scope
      {
        CountGrows(snapshots, scope, i, j);
        CountGrows(snapshots, scope, j, |snapshots|);
      }
    }
  }

  lemma ChainIsProper(snapshots: seq<Snapshot>, scope: Scope)
    requires Chained(snapshots)
    ensures ProperChain(Chain(snapshots, scope))
  {
    var chain := Chain(snapshots, scope);
    forall k | 0 <= k < |chain|
      ensures ProperLink(chain, k)
    {
      ChainLink(snapshots, scope, k);
      ChainEnd(snapshots, scope, k);
    }
  }

  /** After any run, the snapshots of each scope form one proper chain. */
  lemma ChainsAreProper(batches: map<Id, ImportBatch>, actions: seq<Action>, scope: Scope)
    ensures ProperChain(Chain(RunAll(Genesis(batches), actions).snapshots, scope))
  {
    RunKeepsSound(Genesis(batches), actions);
    ChainIsProper(RunAll(Genesis(batches), actions).snapshots, scope);
  }

  // ---------------------------------------------------------------- reuse

  /** The transactions of the ledger that a snapshot of this scope replays, in replay order. */
  function InputNow(rows: seq<Row>, scope: Scope): seq<LedgerTransaction> {
    Ordered(Select(rows, scope.fundId, scope.accountId), scope.asOf, scope.accountId)
  }

  /** The scope has a current snapshot, and it records just what the ledger now holds. */
  predicate UpToDate(s: System, scope: Scope) {
    var c := CurrentOf(s.snapshots, scope);
    c.Some? && s.snapshots[c.value].inputRecord.transactions == InputNow(s.ledger.rows, scope)
  }

  function TakeResult(s: System, scope: Scope, id: Id): Result<(SnapshotOutcome, Snapshot), SnapshotError> {
    CreateSnapshot(s.snapshots, Select(s.ledger.rows, scope.fundId, scope.accountId), scope, id).1
  }

  predicate IsReused(r: Result<(SnapshotOutcome, Snapshot), SnapshotError>) {
    r.Success? && r.value.0.Reused?
  }

  lemma SameInputSameState(rows: seq<Row>, current: Snapshot)
    requires Inv(rows) && Evidenced(rows, current)
    ensures var r := Reconstruct(current.scope.fundId, Select(rows, current.scope.fundId, current.scope.accountId),
                                 current.scope.asOf, current.scope.accountId);
            current.inputRecord.transactions == InputNow(rows, current.scope) <==> r == Success(current.state)
  {
    var scope := current.scope;
    var selected := Select(rows, scope.fundId, scope.accountId);
    SelectionValid(rows, scope.fundId, scope.accountId);
    ReconstructIsReplay(scope.fundId, selected, scope.asOf, scope.accountId);
  }

  /** A creation is answered REUSED exactly when the current snapshot is up to date. */
  lemma ReusedExactlyWhenUpToDate(s: System, scope: Scope, id: Id)
    requires Sound(s)
    ensures IsReused(TakeResult(s, scope, id)) <==> UpToDate(s, scope)
    ensures UpToDate(s, scope) ==> Act(s, Take(scope, id)).snapshots == s.snapshots
  {
    var current := CurrentOf(s.snapshots, scope);
    if current.Some? {
      SameInputSameState(s.ledger.rows, s.snapshots[current.value]);
      CreationByCase(s.snapshots, Select(s.ledger.rows, scope.fundId, scope.accountId), scope, id);
    }
  }

  lemma CreationByCase(snapshots: seq<Snapshot>, read: seq<LedgerTransaction>, scope: Scope, id: Id)
    requires CurrentOf(snapshots, scope).Some?
    requires var current := snapshots[CurrentOf(snapshots, scope).value];
             current.inputRecord == current.state.inputRecord
    ensures var current := snapshots[CurrentOf(snapshots, scope).value];
            var same := Reconstruct(scope.fundId, read, scope.asOf, scope.accountId) == Success(current.state);
            && (IsReused(CreateSnapshot(snapshots, read, scope, id).1) <==> same)
            && (same ==> CreateSnapshot(snapshots, read, scope, id).0 == snapshots)
  {
    var r := Reconstruct(scope.fundId, read, scope.asOf, scope.accountId);
    if r.Success? {
      assert Unchanged(snapshots, scope, r.value) <==> r.value == snapshots[CurrentOf(snapshots, scope).value].state;
    }
  }

  /** A transaction that bears on a scope. */
  predicate Relevant(row: Row, scope: Scope) {
    InScope(row, scope.fundId, scope.accountId) && row.txn.effectiveAt <= scope.asOf
  }

  /** The later ledger keeps the earlier facts and adds none that bear on the scope. */
  ghost predicate NothingNew(rows: seq<Row>, later: seq<Row>, scope: Scope) {
    && |rows| <= |later|
    && (forall i | 0 <= i < |rows| :: later[i].txn == rows[i].txn)
    && (forall i | |rows| <= i < |later| :: !Relevant(later[i], scope))
  }

  /** The selected and included transaction of one row, if any. */
  function Drawn(row: Row, scope: Scope): seq<LedgerTransaction> {
    if Relevant(row, scope) then [row.txn] else []
  }

  lemma OneMoreRow(rows: seq<Row>, scope: Scope)
    requires rows != []
    ensures var p := Included(scope.asOf, scope.accountId);
            Filter(p, Select(rows, scope.fundId, scope.accountId)) ==
            Filter(p, Select(rows[..|rows| - 1], scope.fundId, scope.accountId)) + Drawn(rows[|rows| - 1], scope)
  {
    var p, last := Included(scope.asOf, scope.accountId), rows[|rows| - 1];
    var tail := if InScope(last, scope.fundId, scope.accountId) then [last.txn] else [];
    FilterConcat(p, Select(rows[..|rows| - 1], scope.fundId, scope.accountId), tail);
    assert tail != [] ==> tail[..0] == [];
    assert Filter(p, tail) == Drawn(last, scope);
  }

  lemma {:induction false} IrrelevantFactsAreFiltered(rows: seq<Row>, later: seq<Row>, scope: Scope)
    requires NothingNew(rows, later, scope)
    ensures Filter(Included(scope.asOf, scope.accountId), Select(later, scope.fundId, scope.accountId)) ==
            Filter(Included(scope.asOf, scope.accountId), Select(rows, scope.fundId, scope.accountId))
    decreases |later|
  {
    if later == [] {
    } else {
      OneMoreRow(later, scope);
      if |rows| < |later| {
        IrrelevantFactsAreFiltered(rows, later[..|later| - 1], scope);
      } else {
        OneMoreRow(rows, scope);
        IrrelevantFactsAreFiltered(rows[..|rows| - 1], later[..|later| - 1], scope);
      }
    }
  }

  lemma NothingNewKeepsInput(rows: seq<Row>, later: seq<Row>, scope: Scope)
    requires NothingNew(rows, later, scope)
    ensures InputNow(later, scope) == InputNow(rows, scope)
  {
    IrrelevantFactsAreFiltered(rows, later, scope);
  }

  /** Rows keep their transactions, whatever is done. */
  lemma RowsOnlyAccumulate(s: System, a: Action)
    ensures var (rows, next) := (s.ledger.rows, Act(s, a).ledger.rows);
            |rows| <= |next| && forall i | 0 <= i < |rows| :: next[i].txn == rows[i].txn
  {
  }

  /** Taking a snapshot of another scope leaves this scope's current snapshot as it is. */
  lemma OtherScopeKeepsCurrent(s: System, taken: Scope, id: Id, scope: Scope)
    requires Sound(s) && taken != scope && CurrentOf(s.snapshots, scope).Some?
    ensures CurrentOf(Act(s, Take(taken, id)).snapshots, scope) == CurrentOf(s.snapshots, scope)
    ensures var k := CurrentOf(s.snapshots, scope).value;
            Act(s, Take(taken, id)).snapshots[k] == s.snapshots[k]
  {
    var next := Act(s, Take(taken, id));
    TakeKeepsSound(s, taken, id);
    var k := CurrentOf(s.snapshots, scope).value;
    assert next.snapshots[..|s.snapshots|][k] == next.snapshots[k];
    KeepsStatus(s, taken, id, k);
    var c := OneCurrentPerScope(next.snapshots, k);
  }

  lemma KeepsStatus(s: System, taken: Scope, id: Id, k: nat)
    requires k < |s.snapshots| && s.snapshots[k].scope != taken
    ensures Extends(s.snapshots, Act(s, Take(taken, id)).snapshots) ==>
              Act(s, Take(taken, id)).snapshots[k].status == s.snapshots[k].status
  {
    var selected := Select(s.ledger.rows, taken.fundId, taken.accountId);
    var r := Reconstruct(taken.fundId, selected, taken.asOf, taken.accountId);
    CreationStores(s.snapshots, selected, taken, id);
    if r.Success? {
      StoreAppends(s.snapshots, taken, r.value, id);
    }
  }

  /** A successful creation that is not answered REUSED has stored what it replayed. */
  lemma CreationResult(snapshots: seq<Snapshot>, read: seq<LedgerTransaction>, scope: Scope, id: Id)
    requires CreateSnapshot(snapshots, read, scope, id).1.Success?
             && !IsReused(CreateSnapshot(snapshots, read, scope, id).1)
    ensures var r := Reconstruct(scope.fundId, read, scope.asOf, scope.accountId);
            r.Success? && CreateSnapshot(snapshots, read, scope, id).0 == Store(snapshots, scope, r.value, id).0
  {
  }

  lemma StoredIsCurrent(snapshots: seq<Snapshot>, scope: Scope, state: PortfolioState, id: Id)
    requires CurrentIsLast(Store(snapshots, scope, state, id).0)
    ensures var next := Store(snapshots, scope, state, id).0;
            CurrentOf(next, scope) == Some(|snapshots|) && next[|snapshots|].inputRecord == state.inputRecord
  {
    var next := Store(snapshots, scope, state, id).0;
    StoreAppends(snapshots, scope, state, id);
    var _ := OneCurrentPerScope(next, |snapshots|);
  }

  lemma ReplayedInput(rows: seq<Row>, scope: Scope)
    ensures var r := Reconstruct(scope.fundId, Select(rows, scope.fundId, scope.accountId), scope.asOf,
                                 scope.accountId);
            r.Success? ==> r.value.inputRecord.transactions == InputNow(rows, scope)
  {
  }

  lemma SuccessfulTakeIsUpToDate(s: System, scope: Scope, id: Id)
    requires Sound(s) && TakeResult(s, scope, id).Success?
    ensures UpToDate(Act(s, Take(scope, id)), scope)
  {
    var selected := Select(s.ledger.rows, scope.fundId, scope.accountId);
    if IsReused(TakeResult(s, scope, id)) {
      ReusedExactlyWhenUpToDate(s, scope, id);
    } else {
      TakeKeepsSound(s, scope, id);
      CreationResult(s.snapshots, selected, scope, id);
      ReplayedInput(s.ledger.rows, scope);
      StoredIsCurrent(s.snapshots, scope, Reconstruct(scope.fundId, selected, scope.asOf, scope.accountId).value, id);
    }
  }

  lemma ActKeepsUpToDate(s: System, a: Action, scope: Scope)
    requires Sound(s) && UpToDate(s, scope)
    requires NothingNew(s.ledger.rows, Act(s, a).ledger.rows, scope)
    ensures UpToDate(Act(s, a), scope)
  {
    match a
    case Post(_) => NothingNewKeepsInput(s.ledger.rows, Act(s, a).ledger.rows, scope);
    case Take(taken, id) =>
      if taken == scope {
        ReusedExactlyWhenUpToDate(s, scope, id);
      } else {
        OtherScopeKeepsCurrent(s, taken, id, scope);
      }
  }

  lemma {:induction false} RunKeepsUpToDate(s: System, actions: seq<Action>, scope: Scope)
    requires Sound(s) && UpToDate(s, scope)
    requires NothingNew(s.ledger.rows, RunAll(s, actions).ledger.rows, scope)
    ensures UpToDate(RunAll(s, actions), scope)
  {
    if actions == [] {
    } else {
      var front := actions[..|actions| - 1];
      var mid := RunAll(s, front);
      RunExtendsRows(s, front);
      RowsOnlyAccumulate(mid, actions[|actions| - 1]);
      RunKeepsUpToDate(s, front, scope);
      RunKeepsSound(s, front);
      ActKeepsUpToDate(mid, actions[|actions| - 1], scope);
    }
  }

  lemma {:induction false} RunExtendsRows(s: System, actions: seq<Action>)
    ensures var (rows, next) := (s.ledger.rows, RunAll(s, actions).ledger.rows);
            |rows| <= |next| && forall i | 0 <= i < |rows| :: next[i].txn == rows[i].txn
  {
    if actions == [] {
    } else {
      RunExtendsRows(s, actions[..|actions| - 1]);
      RowsOnlyAccumulate(RunAll(s, actions[..|actions| - 1]), actions[|actions| - 1]);
    }
  }

  /**
   * After a successful creation and any actions that add no fact bearing on the scope, creating it again,
   * from rows read in any order, is answered REUSED and stores nothing.
   */
  lemma RecreationIsReused(s: System, scope: Scope, id: Id, actions: seq<Action>, read: seq<LedgerTransaction>,
                           again: Id)
    requires Sound(s) && TakeResult(s, scope, id).Success?
    requires var end := RunAll(Act(s, Take(scope, id)), actions);
             && NothingNew(s.ledger.rows, end.ledger.rows, scope)
             && multiset(read) == multiset(Select(end.ledger.rows, scope.fundId, scope.accountId))
    ensures var end := RunAll(Act(s, Take(scope, id)), actions);
            var (next, r) := CreateSnapshot(end.snapshots, read, scope, again);
            IsReused(r) && next == end.snapshots
  {
    var taken := Act(s, Take(scope, id));
    var end := RunAll(taken, actions);
    SuccessfulTakeIsUpToDate(s, scope, id);
    TakeKeepsSound(s, scope, id);
    RunKeepsUpToDate(taken, actions, scope);
    RunKeepsSound(taken, actions);
    RowOrderIsIrrelevant(end.ledger.rows, end.snapshots, read, scope, again);
    ReusedExactlyWhenUpToDate(end, scope, again);
  }
}
