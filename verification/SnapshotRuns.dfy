/** What holds of every snapshot over every run of postings, reversals and snapshot creations. */
module SnapshotRuns {
  import opened Wrappers
  import opened Sorting
  import opened LedgerTypes
  import opened PortfolioEngine
  import opened Ledger
  import opened LedgerInvariants
  import opened LedgerReplay
  import opened Determinism
  import opened Snapshots

  datatype System = System(ledger: Tables, snapshots: seq<Snapshot>)

  datatype Action = Post(command: Command) | Take(scope: Scope, id: Id)

  /** One action; a snapshot reads the ledger of its scope. */
  function Act(s: System, a: Action): System {
    match a
    case Post(c) => s.(ledger := LedgerInvariants.Apply(s.ledger, c))
    case Take(scope, id) =>
      s.(snapshots := CreateSnapshot(s.snapshots, Select(s.ledger.rows, scope.fundId, scope.accountId), scope, id).0)
  }

  function RunAll(s: System, actions: seq<Action>): System {
    if actions == [] then s else Act(RunAll(s, actions[..|actions| - 1]), actions[|actions| - 1])
  }

  /** The database may return rows in any order: a snapshot creation does the same either way. */
  lemma RowOrderIsIrrelevant(rows: seq<Row>, snapshots: seq<Snapshot>, read: seq<LedgerTransaction>, scope: Scope,
                             id: Id)
    requires Inv(rows) && multiset(read) == multiset(Select(rows, scope.fundId, scope.accountId))
    ensures CreateSnapshot(snapshots, read, scope, id) ==
            CreateSnapshot(snapshots, Select(rows, scope.fundId, scope.accountId), scope, id)
  {
    var selected := Select(rows, scope.fundId, scope.accountId);
    SelectionValid(rows, scope.fundId, scope.accountId);
    ValidityOfPermutation(scope.fundId, selected, read);
    OrderOfPermutation(selected, read, scope.asOf, scope.accountId);
    ReconstructIsReplay(scope.fundId, selected, scope.asOf, scope.accountId);
    ReconstructIsReplay(scope.fundId, read, scope.asOf, scope.accountId);
  }

  // ---------------------------------------------------------------- evidence

  ghost predicate IsRow(rows: seq<Row>, t: LedgerTransaction) {
    exists i :: 0 <= i < |rows| && rows[i].txn == t
  }

  /** A snapshot is the output of replaying its recorded input, and all of that input is still in the ledger. */
  ghost predicate Evidenced(rows: seq<Row>, s: Snapshot) {
    var input := s.inputRecord.transactions;
    && ValidInput(s.scope.fundId, input)
    && Sorted(ReplayLe, input)
    && (forall t | t in input :: Included(s.scope.asOf, s.scope.accountId)(t) && IsRow(rows, t))
    && Replay(input).Success?
    && s.state == Output(s.scope.fundId, s.scope.accountId, s.scope.asOf, input, Replay(input).value)
    && s.inputRecord == s.state.inputRecord
  }

  ghost predicate AllEvidenced(rows: seq<Row>, snapshots: seq<Snapshot>) {
    forall i | 0 <= i < |snapshots| :: Evidenced(rows, snapshots[i])
  }

  lemma EvidenceSurvivesPost(rows: seq<Row>, next: seq<Row>, s: Snapshot)
    requires Evidenced(rows, s)
    requires |rows| <= |next| && forall i | 0 <= i < |rows| :: next[i].txn == rows[i].txn
    ensures Evidenced(next, s)
  {
    forall t | t in s.inputRecord.transactions
      ensures IsRow(next, t)
    {
      var i :| 0 <= i < |rows| && rows[i].txn == t;
      assert next[i].txn == t;
    }
  }

  lemma TakenIsEvidenced(rows: seq<Row>, scope: Scope, current: Option<Snapshot>, id: Id)
    requires Inv(rows)
    requires Reconstruct(scope.fundId, Select(rows, scope.fundId, scope.accountId), scope.asOf,
                         scope.accountId).Success?
    ensures Evidenced(rows, NewSnapshot(scope,
              Reconstruct(scope.fundId, Select(rows, scope.fundId, scope.accountId), scope.asOf,
                          scope.accountId).value, current, id))
  {
    var selected := Select(rows, scope.fundId, scope.accountId);
    SelectionValid(rows, scope.fundId, scope.accountId);
    SelectMembers(rows, scope.fundId, scope.accountId);
    ReconstructIsReplay(scope.fundId, selected, scope.asOf, scope.accountId);
    OrderedFacts(selected, scope.asOf, scope.accountId);
    OrderedValid(scope.fundId, selected, scope.asOf, scope.accountId);
    forall t | t in Ordered(selected, scope.asOf, scope.accountId)
      ensures IsRow(rows, t)
    {
      assert t in selected;
      var i :| 0 <= i < |rows| && rows[i].txn == t && InScope(rows[i], scope.fundId, scope.accountId);
    }
  }

  // ---------------------------------------------------------------- revision chains

  ghost predicate UniqueSnapshotIds(snapshots: seq<Snapshot>) {
    forall i, j | 0 <= i < j < |snapshots| :: snapshots[i].id != snapshots[j].id
  }

  /** Revisions of a scope are numbered 1, 2, ... in order of creation. */
  ghost predicate Numbered(snapshots: seq<Snapshot>) {
    forall i | 0 <= i < |snapshots| ::
      snapshots[i].revision == 1 + |Filter(OfScope(snapshots[i].scope), snapshots[..i])|
  }

  ghost predicate LinkedTo(snapshots: seq<Snapshot>, i: nat, j: nat)
    requires i < |snapshots| && j < |snapshots|
  {
    && snapshots[j].scope == snapshots[i].scope
    && snapshots[i].supersedes == Some(snapshots[j].id)
    && snapshots[i].revision == snapshots[j].revision + 1
  }

  /** Each revision after the first supersedes the one numbered just before it. */
  ghost predicate Linked(snapshots: seq<Snapshot>) {
    forall i | 0 <= i < |snapshots| ::
      if snapshots[i].revision == 1 then snapshots[i].supersedes.None?
      else exists j :: 0 <= j < i && LinkedTo(snapshots, i, j)
  }

  /** No snapshot after position `i` has its scope. */
  ghost predicate LastOfItsScope(snapshots: seq<Snapshot>, i: nat)
    requires i < |snapshots|
  {
    forall j | i < j < |snapshots| :: snapshots[j].scope != snapshots[i].scope
  }

  /** A snapshot is current exactly when no later one has its scope. */
  ghost predicate CurrentIsLast(snapshots: seq<Snapshot>) {
    forall i | 0 <= i < |snapshots| ::
      snapshots[i].status.Current? <==> LastOfItsScope(snapshots, i)
  }

  ghost predicate Chained(snapshots: seq<Snapshot>) {
    && UniqueSnapshotIds(snapshots)
    && Numbered(snapshots)
    && Linked(snapshots)
    && CurrentIsLast(snapshots)
  }

  /** Two tables that differ only in which snapshots are current. */
  ghost predicate SameButStatus(a: seq<Snapshot>, b: seq<Snapshot>) {
    |a| == |b| && forall i | 0 <= i < |a| :: b[i] == a[i].(status := b[i].status)
  }

  lemma {:induction false} CountIgnoresStatus(a: seq<Snapshot>, b: seq<Snapshot>, scope: Scope)
    requires SameButStatus(a, b)
    ensures |Filter(OfScope(scope), a)| == |Filter(OfScope(scope), b)|
  {
    if a == [] {
    } else {
      CountIgnoresStatus(a[..|a| - 1], b[..|b| - 1], scope);
    }
  }

  lemma LastOfScope(snapshots: seq<Snapshot>, c: nat)
    requires c < |snapshots| && LastOfItsScope(snapshots, c)
    ensures |Filter(OfScope(snapshots[c].scope), snapshots)| ==
              |Filter(OfScope(snapshots[c].scope), snapshots[..c])| + 1
  {
    var p := OfScope(snapshots[c].scope);
    var tail := snapshots[c + 1..];
    assert snapshots == snapshots[..c] + ([snapshots[c]] + tail);
    FilterConcat(p, snapshots[..c], [snapshots[c]] + tail);
    FilterConcat(p, [snapshots[c]], tail);
    FilterNone(p, tail);
    assert [snapshots[c]][..0] == [];
    assert Filter(p, [snapshots[c]]) == [snapshots[c]];
  }

  lemma LastIndexOfScope(snapshots: seq<Snapshot>, scope: Scope, i: nat) returns (k: nat)
    requires i < |snapshots| && snapshots[i].scope == scope
    ensures i <= k < |snapshots| && snapshots[k].scope == scope
    ensures forall j | k < j < |snapshots| :: snapshots[j].scope != scope
    decreases |snapshots| - i
  {
    if j :| i < j < |snapshots| && snapshots[j].scope == scope {
      k := LastIndexOfScope(snapshots, scope, j);
    } else {
      k := i;
    }
  }

  /** A scope that has snapshots at all has exactly one current one. */
  lemma OneCurrentPerScope(snapshots: seq<Snapshot>, i: nat) returns (k: nat)
    requires CurrentIsLast(snapshots) && i < |snapshots|
    ensures i <= k < |snapshots| && snapshots[k].scope == snapshots[i].scope && snapshots[k].status.Current?
    ensures forall j | 0 <= j < |snapshots| && snapshots[j].scope == snapshots[i].scope
            && snapshots[j].status.Current? :: j == k
    ensures CurrentOf(snapshots, snapshots[i].scope) == Some(k)
  {
    k := LastIndexOfScope(snapshots, snapshots[i].scope, i);
  }

  /** The table after storing a new revision, position by position. */
  ghost predicate Appended(snapshots: seq<Snapshot>, next: seq<Snapshot>, s: Snapshot, c: Option<nat>) {
    && |next| == |snapshots| + 1 && next[|snapshots|] == s && s.status.Current?
    && SameButStatus(snapshots, next[..|snapshots|])
    && (forall i | 0 <= i < |snapshots| :: next[i].status == if c == Some(i) then Superseded else snapshots[i].status)
  }

  lemma StoreAppends(snapshots: seq<Snapshot>, scope: Scope, state: PortfolioState, id: Id)
    ensures var (next, _, s) := Store(snapshots, scope, state, id);
            && Appended(snapshots, next, s, CurrentOf(snapshots, scope))
            && s.id == id && s.scope == scope
  {
  }

  lemma NumberingContinues(snapshots: seq<Snapshot>, next: seq<Snapshot>, s: Snapshot, c: Option<nat>)
    requires Numbered(snapshots) && Appended(snapshots, next, s, c)
    requires s.revision == 1 + |Filter(OfScope(s.scope), snapshots)|
    ensures Numbered(next)
  {
    var same := next[..|snapshots|];
    forall i | 0 <= i < |next|
      ensures next[i].revision == 1 + |Filter(OfScope(next[i].scope), next[..i])|
    {
      assert next[..i] == same[..i];
      CountIgnoresStatus(snapshots[..i], same[..i], next[i].scope);
      if i < |snapshots| {
        assert same[i] == next[i];
      } else {
        assert snapshots[..i] == snapshots;
      }
    }
  }

  lemma LinksContinue(snapshots: seq<Snapshot>, next: seq<Snapshot>, s: Snapshot, c: Option<nat>)
    requires Linked(snapshots) && Appended(snapshots, next, s, c)
    requires c.None? ==> s.revision == 1 && s.supersedes.None?
    requires c.Some? ==> c.value < |snapshots| && snapshots[c.value].scope == s.scope
                         && s.supersedes == Some(snapshots[c.value].id) && s.revision == snapshots[c.value].revision + 1
                         && s.revision != 1
    ensures Linked(next)
  {
    forall i | 0 <= i < |next|
      ensures if next[i].revision == 1 then next[i].supersedes.None? else exists j :: 0 <= j < i && LinkedTo(next, i, j)
    {
      if i < |snapshots| {
        assert next[..|snapshots|][i] == next[i];
        if next[i].revision != 1 {
          var j :| 0 <= j < i && LinkedTo(snapshots, i, j);
          assert next[..|snapshots|][j] == next[j];
          assert LinkedTo(next, i, j);
        }
      } else if c.Some? {
        assert next[..|snapshots|][c.value] == next[c.value];
        assert LinkedTo(next, i, c.value);
      }
    }
  }

  /** The next free revision number is one more than the current revision, or 1. */
  lemma NextRevision(snapshots: seq<Snapshot>, scope: Scope)
    requires Numbered(snapshots) && CurrentIsLast(snapshots)
    ensures var c := CurrentOf(snapshots, scope);
            1 + |Filter(OfScope(scope), snapshots)| == if c.Some? then snapshots[c.value].revision + 1 else 1
  {
    var c := CurrentOf(snapshots, scope);
    if c.Some? {
      LastOfScope(snapshots, c.value);
    } else {
      forall x | x in snapshots
        ensures x.scope != scope
      {
        var i :| 0 <= i < |snapshots| && snapshots[i] == x;
        var _ := OneCurrentPerScope(snapshots, i);
      }
      FilterNone(OfScope(scope), snapshots);
    }
  }

  lemma IdsStayUnique(snapshots: seq<Snapshot>, next: seq<Snapshot>, s: Snapshot, c: Option<nat>)
    requires UniqueSnapshotIds(snapshots) && SnapshotById(snapshots, s.id).None? && Appended(snapshots, next, s, c)
    ensures UniqueSnapshotIds(next)
  {
    assert forall i | 0 <= i < |snapshots| :: next[..|snapshots|][i] == next[i];
  }

  lemma StoreKeepsChains(snapshots: seq<Snapshot>, scope: Scope, state: PortfolioState, id: Id)
    requires Chained(snapshots) && SnapshotById(snapshots, id).None?
    ensures Chained(Store(snapshots, scope, state, id).0)
  {
    var (next, _, s) := Store(snapshots, scope, state, id);
    var c := CurrentOf(snapshots, scope);
    StoreAppends(snapshots, scope, state, id);
    NextRevision(snapshots, scope);
    IdsStayUnique(snapshots, next, s, c);
    NumberingContinues(snapshots, next, s, c);
    LinksContinue(snapshots, next, s, c);
    CurrentMoves(snapshots, next, s, c);
  }

  lemma CurrentMoves(snapshots: seq<Snapshot>, next: seq<Snapshot>, s: Snapshot, c: Option<nat>)
    requires CurrentIsLast(snapshots) && c == CurrentOf(snapshots, s.scope) && Appended(snapshots, next, s, c)
    ensures CurrentIsLast(next)
  {
    assert forall i | 0 <= i < |snapshots| :: next[..|snapshots|][i] == next[i];
    forall i | 0 <= i < |next|
      ensures next[i].status.Current? <==> LastOfItsScope(next, i)
    {
      if i < |snapshots| {
        CurrentMovesAt(snapshots, next, s, c, i);
      }
    }
  }

  lemma LastWithOneMore(snapshots: seq<Snapshot>, next: seq<Snapshot>, i: nat)
    requires i < |snapshots| && |next| == |snapshots| + 1
    requires forall k | 0 <= k < |snapshots| :: next[k].scope == snapshots[k].scope
    ensures LastOfItsScope(next, i) <==> LastOfItsScope(snapshots, i) && next[|snapshots|].scope != snapshots[i].scope
  {
    if LastOfItsScope(next, i) {
      forall j | i < j < |snapshots|
        ensures snapshots[j].scope != snapshots[i].scope
      {
        assert next[j].scope != next[i].scope;
      }
    }
  }

  lemma CurrentMovesAt(snapshots: seq<Snapshot>, next: seq<Snapshot>, s: Snapshot, c: Option<nat>, i: nat)
    requires CurrentIsLast(snapshots) && c == CurrentOf(snapshots, s.scope) && Appended(snapshots, next, s, c)
    requires i < |snapshots| && forall k | 0 <= k < |snapshots| :: next[k].scope == snapshots[k].scope
    ensures next[i].status.Current? <==> LastOfItsScope(next, i)
  {
    LastWithOneMore(snapshots, next, i);
    assert snapshots[i].status.Current? <==> LastOfItsScope(snapshots, i);
    if snapshots[i].scope == s.scope {
      var k := OneCurrentPerScope(snapshots, i);
      assert c == Some(k);
    }
  }

  // ---------------------------------------------------------------- over whole runs

  ghost predicate Sound(s: System) {
    Inv(s.ledger.rows) && AllEvidenced(s.ledger.rows, s.snapshots) && Chained(s.snapshots)
  }

  /** Snapshots only accumulate, and keep everything but their status. */
  ghost predicate Extends(a: seq<Snapshot>, b: seq<Snapshot>) {
    |a| <= |b| && SameButStatus(a, b[..|a|])
  }

  /** A creation leaves the table alone or stores the state it replayed under an unused id. */
  lemma CreationStores(snapshots: seq<Snapshot>, read: seq<LedgerTransaction>, scope: Scope, id: Id)
    ensures var next := CreateSnapshot(snapshots, read, scope, id).0;
            var r := Reconstruct(scope.fundId, read, scope.asOf, scope.accountId);
            next == snapshots
            || (r.Success? && SnapshotById(snapshots, id).None? && next == Store(snapshots, scope, r.value, id).0)
  {
  }

  lemma StoreKeepsSound(rows: seq<Row>, snapshots: seq<Snapshot>, scope: Scope, state: PortfolioState, id: Id)
    requires Inv(rows) && AllEvidenced(rows, snapshots) && Chained(snapshots) && SnapshotById(snapshots, id).None?
    requires Reconstruct(scope.fundId, Select(rows, scope.fundId, scope.accountId), scope.asOf, scope.accountId) ==
               Success(state)
    ensures var next := Store(snapshots, scope, state, id).0;
            AllEvidenced(rows, next) && Chained(next) && Extends(snapshots, next)
  {
    var next, s := Store(snapshots, scope, state, id).0, Store(snapshots, scope, state, id).2;
    var c := CurrentOf(snapshots, scope);
    TakenIsEvidenced(rows, scope, if c.Some? then Some(snapshots[c.value]) else None, id);
    StoreAppends(snapshots, scope, state, id);
    StoreKeepsChains(snapshots, scope, state, id);
    EvidenceCarriesOver(rows, snapshots, next, s, c);
  }

  lemma EvidenceCarriesOver(rows: seq<Row>, snapshots: seq<Snapshot>, next: seq<Snapshot>, s: Snapshot, c: Option<nat>)
    requires AllEvidenced(rows, snapshots) && Appended(snapshots, next, s, c) && Evidenced(rows, s)
    ensures AllEvidenced(rows, next)
  {
    forall i | 0 <= i < |next|
      ensures Evidenced(rows, next[i])
    {
      if i < |snapshots| {
        assert next[..|snapshots|][i] == next[i];
        StatusIsNoEvidence(rows, snapshots[i], next[i]);
      }
    }
  }

  lemma StatusIsNoEvidence(rows: seq<Row>, a: Snapshot, b: Snapshot)
    requires Evidenced(rows, a) && b == a.(status := b.status)
    ensures Evidenced(rows, b)
  {
  }

  lemma TakeKeepsSound(s: System, scope: Scope, id: Id)
    requires Sound(s)
    ensures Sound(Act(s, Take(scope, id)))
    ensures Extends(s.snapshots, Act(s, Take(scope, id)).snapshots)
  {
    var selected := Select(s.ledger.rows, scope.fundId, scope.accountId);
    var r := Reconstruct(scope.fundId, selected, scope.asOf, scope.accountId);
    assert s.snapshots[..|s.snapshots|] == s.snapshots;
    CreationStores(s.snapshots, selected, scope, id);
    if r.Success? && SnapshotById(s.snapshots, id).None? {
      StoreKeepsSound(s.ledger.rows, s.snapshots, scope, r.value, id);
    }
  }

  lemma ActKeepsSound(s: System, a: Action)
    requires Sound(s)
    ensures Sound(Act(s, a))
    ensures Extends(s.snapshots, Act(s, a).snapshots)
  {
    match a
    case Post(c) =>
      CreateKeepsInv(s.ledger, c.content, c.id, c.conflictId, c.now);
      assert s.snapshots[..|s.snapshots|] == s.snapshots;
      forall i | 0 <= i < |s.snapshots|
        ensures Evidenced(Act(s, a).ledger.rows, s.snapshots[i])
      {
        EvidenceSurvivesPost(s.ledger.rows, Act(s, a).ledger.rows, s.snapshots[i]);
      }
    case Take(scope, id) => TakeKeepsSound(s, scope, id);
  }

  lemma {:induction false} RunKeepsSound(s: System, actions: seq<Action>)
    requires Sound(s)
    ensures Sound(RunAll(s, actions))
    ensures Extends(s.snapshots, RunAll(s, actions).snapshots)
  {
    if actions == [] {
      assert s.snapshots[..|s.snapshots|] == s.snapshots;
    } else {
      var front := actions[..|actions| - 1];
      RunKeepsSound(s, front);
      var mid, end := RunAll(s, front), RunAll(s, actions);
      ActKeepsSound(mid, actions[|actions| - 1]);
      forall i | 0 <= i < |s.snapshots|
        ensures end.snapshots[i] == s.snapshots[i].(status := end.snapshots[i].status)
      {
        assert mid.snapshots[..|s.snapshots|][i] == mid.snapshots[i];
        assert end.snapshots[..|mid.snapshots|][i] == end.snapshots[i];
      }
    }
  }
}
