/** What the snapshot service answers and stores, in the fields of the ledger and of the snapshot table. */
module SnapshotAnswers {
  import opened Wrappers
  import opened Sorting
  import opened LedgerTypes
  import opened PortfolioEngine
  import opened Ledger
  import opened LedgerInvariants
  import opened LedgerReplay
  import opened Determinism
  import opened Snapshots
  import opened SnapshotRuns
  import opened SnapshotTheorems
  import ReconstructedState

  /** The scope's snapshots, told by their own fields. */
  ghost predicate HasSnapshot(snapshots: seq<Snapshot>, scope: Scope) {
    exists s :: s in snapshots && s.scope == scope
  }

  /** The newest snapshot of a scope: the one numbered highest. */
  ghost predicate IsNewest(snapshots: seq<Snapshot>, c: Snapshot) {
    c in snapshots && forall s | s in snapshots && s.scope == c.scope :: s.revision <= c.revision
  }

  ghost predicate IdUsed(snapshots: seq<Snapshot>, id: Id) {
    exists s :: s in snapshots && s.id == id
  }

  /** What replaying the ledger's rows of the scope now gives. */
  function ReplayNow(rows: seq<Row>, scope: Scope): Result<PortfolioState, EngineError> {
    Reconstruct(scope.fundId, Select(rows, scope.fundId, scope.accountId), scope.asOf, scope.accountId)
  }

  /** Of two snapshots of one scope the later stored has the higher revision. */
  lemma LaterIsNewer(snapshots: seq<Snapshot>, i: nat, j: nat)
    requires Numbered(snapshots) && i < j < |snapshots| && snapshots[i].scope == snapshots[j].scope
    ensures snapshots[i].revision < snapshots[j].revision
  {
    CountGrows(snapshots, snapshots[i].scope, i, j);
  }

  /** In a sound system the current snapshot is the newest, and a scope without a current one has none. */
  lemma CurrentIsNewest(s: System, scope: Scope)
    requires Sound(s)
    ensures var c := CurrentOf(s.snapshots, scope);
            && (c.Some? <==> HasSnapshot(s.snapshots, scope))
            && (c.Some? ==> s.snapshots[c.value].scope == scope && IsNewest(s.snapshots, s.snapshots[c.value]))
  {
    var c := CurrentOf(s.snapshots, scope);
    if x :| x in s.snapshots && x.scope == scope {
      var i :| 0 <= i < |s.snapshots| && s.snapshots[i] == x;
      var k := OneCurrentPerScope(s.snapshots, i);
    }
    if c.Some? {
      LastIsNewest(s.snapshots, c.value);
    }
  }

  lemma LastIsNewest(snapshots: seq<Snapshot>, k: nat)
    requires Numbered(snapshots) && k < |snapshots| && LastOfItsScope(snapshots, k)
    ensures IsNewest(snapshots, snapshots[k])
  {
    forall x | x in snapshots && x.scope == snapshots[k].scope
      ensures x.revision <= snapshots[k].revision
    {
      var i :| 0 <= i < |snapshots| && snapshots[i] == x;
      if i < k {
        LaterIsNewer(snapshots, i, k);
      }
    }
  }

  /** The first snapshot of a scope, or the successor of `c`, as stored for a state. */
  ghost predicate StoredAs(t: Snapshot, scope: Scope, id: Id, state: PortfolioState, before: Option<Snapshot>) {
    && t.id == id && t.scope == scope && t.status == Current && t.state == state && t.inputRecord == state.inputRecord
    && t.revision == (if before.Some? then before.value.revision + 1 else 1)
    && t.supersedes == (if before.Some? then Some(before.value.id) else None)
  }

  /** The table with one more row, the superseded one re-marked. */
  ghost predicate OneMore(snapshots: seq<Snapshot>, next: seq<Snapshot>, t: Snapshot, before: Option<Snapshot>) {
    && |next| == |snapshots| + 1 && next[|snapshots|] == t
    && forall i | 0 <= i < |snapshots| ::
         next[i] == if Some(snapshots[i]) == before then snapshots[i].(status := Superseded) else snapshots[i]
  }

  /**
   * What a creation is answered. It fails as the replay fails; it is reused when the newest snapshot of the scope holds
   * the state just replayed; otherwise it needs an unused id, and is new exactly when the scope had no snapshot.
   */
  lemma CreationAnswered(s: System, scope: Scope, id: Id, newest: Option<Snapshot>)
    requires Sound(s)
    requires if newest.Some? then newest.value.scope == scope && IsNewest(s.snapshots, newest.value)
             else !HasSnapshot(s.snapshots, scope)
    ensures var now := ReplayNow(s.ledger.rows, scope);
            var r := TakeResult(s, scope, id);
            var next := Act(s, Take(scope, id)).snapshots;
            if now.Failure? then r == Failure(Engine(now.error)) && next == s.snapshots
            else if newest.Some? && newest.value.state == now.value then
              r == Success((Reused, newest.value)) && next == s.snapshots
            else if IdUsed(s.snapshots, id) then r == Failure(KeyTaken) && next == s.snapshots
            else
              && r.Success? && r.value.0 == (if newest.None? then New else Revised)
              && StoredAs(r.value.1, scope, id, now.value, newest)
              && OneMore(s.snapshots, next, r.value.1, newest)
  {
    CurrentIsNewest(s, scope);
    var c := CurrentOf(s.snapshots, scope);
    if newest.Some? {
      NewestIsUnique(s, newest.value, s.snapshots[c.value]);
      assert Evidenced(s.ledger.rows, s.snapshots[c.value]);
    }
    IdUsedExactly(s.snapshots, id);
    if ReplayNow(s.ledger.rows, scope).Success? {
      StoreInFields(s.snapshots, scope, ReplayNow(s.ledger.rows, scope).value, id);
    }
  }

  lemma IdUsedExactly(snapshots: seq<Snapshot>, id: Id)
    ensures SnapshotById(snapshots, id).Some? <==> IdUsed(snapshots, id)
  {
    var found := SnapshotById(snapshots, id);
    if found.Some? {
      assert snapshots[found.value] in snapshots;
    }
    if x :| x in snapshots && x.id == id {
      var i :| 0 <= i < |snapshots| && snapshots[i] == x;
    }
  }

  lemma NewestIsUnique(s: System, a: Snapshot, b: Snapshot)
    requires Sound(s) && a.scope == b.scope && IsNewest(s.snapshots, a) && IsNewest(s.snapshots, b)
    ensures a == b
  {
    var i :| 0 <= i < |s.snapshots| && s.snapshots[i] == a;
    var j :| 0 <= j < |s.snapshots| && s.snapshots[j] == b;
    if i < j {
      LaterIsNewer(s.snapshots, i, j);
    } else if j < i {
      LaterIsNewer(s.snapshots, j, i);
    }
  }

  lemma StoreInFields(snapshots: seq<Snapshot>, scope: Scope, state: PortfolioState, id: Id)
    requires UniqueSnapshotIds(snapshots)
    ensures var (next, outcome, t) := Store(snapshots, scope, state, id);
            var c := CurrentOf(snapshots, scope);
            var before := if c.Some? then Some(snapshots[c.value]) else None;
            && StoredAs(t, scope, id, state, before) && OneMore(snapshots, next, t, before)
            && outcome == (if c.None? then New else Revised)
  {
    var c := CurrentOf(snapshots, scope);
    StoreAppends(snapshots, scope, state, id);
    forall i | 0 <= i < |snapshots|
      ensures c.Some? && snapshots[i] == snapshots[c.value] ==> i == c.value
    {
    }
  }

  // ---------------------------------------------------------------- what a snapshot records

  /** A successful creation answers with a snapshot of just the ledger's facts of the scope up to the cutoff. */
  lemma CreationRecordsLedger(s: System, scope: Scope, id: Id)
    requires Sound(s) && TakeResult(s, scope, id).Success?
    ensures var t := TakeResult(s, scope, id).value.1;
            && t.scope == scope && t.inputRecord == t.state.inputRecord
            && forall x :: x in t.inputRecord.transactions <==>
                 && IsRow(s.ledger.rows, x) && x.fundId == scope.fundId && x.effectiveAt <= scope.asOf
                 && (scope.accountId.Some? ==> x.accountId == scope.accountId.value)
  {
    var t := TakeResult(s, scope, id).value.1;
    var selected := Select(s.ledger.rows, scope.fundId, scope.accountId);
    StateIsReplayed(s, scope, id);
    ReconstructedState.ReplayedInOrder(scope.fundId, selected, scope.asOf, scope.accountId);
    SelectMembers(s.ledger.rows, scope.fundId, scope.accountId);
    forall x
      ensures x in selected <==>
              && IsRow(s.ledger.rows, x) && x.fundId == scope.fundId
              && (scope.accountId.Some? ==> x.accountId == scope.accountId.value)
    {
      SelectedExactly(s.ledger.rows, scope.fundId, scope.accountId, x);
    }
  }

  lemma SelectedExactly(rows: seq<Row>, fundId: Id, accountId: Option<Id>, x: LedgerTransaction)
    ensures x in Select(rows, fundId, accountId) <==>
            IsRow(rows, x) && x.fundId == fundId && (accountId.Some? ==> x.accountId == accountId.value)
  {
    SelectMembers(rows, fundId, accountId);
    if IsRow(rows, x) {
      var i :| 0 <= i < |rows| && rows[i].txn == x;
      assert InScope(rows[i], fundId, accountId) <==>
             x.fundId == fundId && (accountId.Some? ==> x.accountId == accountId.value);
    }
  }

  lemma StateIsReplayed(s: System, scope: Scope, id: Id)
    requires Sound(s) && TakeResult(s, scope, id).Success?
    ensures var t := TakeResult(s, scope, id).value.1;
            ReplayNow(s.ledger.rows, scope) == Success(t.state) && t.inputRecord == t.state.inputRecord
            && t.scope == scope
  {
    var c := CurrentOf(s.snapshots, scope);
    if c.Some? {
      assert Evidenced(s.ledger.rows, s.snapshots[c.value]);
    }
  }

  // ---------------------------------------------------------------- what verification detects

  lemma {:induction false} FilterKeepsAll<T>(p: T -> bool, s: seq<T>)
    ensures |Filter(p, s)| <= |s|
    ensures |Filter(p, s)| == |s| ==> Filter(p, s) == s
  {
    if s == [] {
    } else {
      FilterKeepsAll(p, s[..|s| - 1]);
      assert s == s[..|s| - 1] + [s[|s| - 1]];
    }
  }

  lemma OrderedAll(evidence: seq<LedgerTransaction>, asOf: Instant, accountId: Option<Id>)
    requires |Ordered(evidence, asOf, accountId)| == |evidence|
    ensures multiset(Ordered(evidence, asOf, accountId)) == multiset(evidence)
  {
    var f := Filter(Included(asOf, accountId), evidence);
    OrderedFacts(evidence, asOf, accountId);
    SameElements(Ordered(evidence, asOf, accountId), f);
    FilterKeepsAll(Included(asOf, accountId), evidence);
  }

  /** Evidence that replays to a stored state is the input recorded with it. */
  lemma ReplayedEvidence(rows: seq<Row>, t: Snapshot, evidence: seq<LedgerTransaction>)
    requires Evidenced(rows, t) && |evidence| == |t.inputRecord.transactions|
    requires Reconstruct(t.scope.fundId, evidence, t.scope.asOf, t.scope.accountId) == Success(t.state)
    ensures multiset(evidence) == multiset(t.inputRecord.transactions)
  {
    OrderedAll(evidence, t.scope.asOf, t.scope.accountId);
  }

  /**
   * What verification answers for any evidence: incomplete when it is not as much as was recorded, the replay's error
   * when it does not replay, and otherwise true exactly when it is, in some order, the very input recorded.
   */
  lemma VerificationDetectsTampering(s: System, i: nat, evidence: seq<LedgerTransaction>)
    requires Sound(s) && i < |s.snapshots|
    ensures var t := s.snapshots[i];
            var input := t.inputRecord.transactions;
            var replayed := Reconstruct(t.scope.fundId, evidence, t.scope.asOf, t.scope.accountId);
            Verify(s.snapshots, evidence, t.id) ==
            if |evidence| != |input| then Failure(EvidenceIncomplete)
            else if replayed.Failure? then Failure(Engine(replayed.error))
            else Success(multiset(evidence) == multiset(input))
  {
    var t := s.snapshots[i];
    assert Evidenced(s.ledger.rows, t);
    assert SnapshotById(s.snapshots, t.id) == Some(i);
    if multiset(evidence) == multiset(t.inputRecord.transactions) {
      SameElements(evidence, t.inputRecord.transactions);
      EvidenceReplays(s.ledger.rows, t, evidence);
    } else if |evidence| == |t.inputRecord.transactions|
              && Reconstruct(t.scope.fundId, evidence, t.scope.asOf, t.scope.accountId) == Success(t.state) {
      ReplayedEvidence(s.ledger.rows, t, evidence);
    }
  }

  lemma MissingSnapshot(snapshots: seq<Snapshot>, evidence: seq<LedgerTransaction>, id: Id)
    ensures Verify(snapshots, evidence, id) == Failure(SnapshotMissing) <==> !IdUsed(snapshots, id)
  {
    IdUsedExactly(snapshots, id);
  }
}
