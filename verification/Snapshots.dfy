/**
 * Immutable portfolio snapshots (app/snapshots/service.py): revision chains per scope and cutoff, and
 * verification by replaying the recorded transaction ids.
 */
module Snapshots {
  import opened Wrappers
  import opened LedgerTypes
  import opened PortfolioEngine
  import opened ReplayEngine
  import opened Ledger

  datatype SnapshotStatus = Current | Superseded

  /** What a snapshot is of: a fund, perhaps one account, and a cutoff. */
  datatype Scope = Scope(fundId: Id, accountId: Option<Id>, asOf: Instant)

  datatype Snapshot = Snapshot(
    id: Id,
    scope: Scope,
    revision: nat,
    status: SnapshotStatus,
    inputRecord: CanonicalInput,
    state: PortfolioState,
    supersedes: Option<Id>)

  datatype SnapshotOutcome = New | Reused | Revised

  datatype SnapshotError =
    | Engine(engine: EngineError)
    | SnapshotMissing
    | EvidenceIncomplete
    | KeyTaken

  function OfScope(scope: Scope): Snapshot -> bool {
    (s: Snapshot) => s.scope == scope
  }

  /** The current snapshot of a scope: the first row that is marked so. */
  function CurrentOf(snapshots: seq<Snapshot>, scope: Scope): (r: Option<nat>)
    ensures r.Some? ==> r.value < |snapshots| && snapshots[r.value].scope == scope && snapshots[r.value].status.Current?
    ensures r.None? ==>
              forall i | 0 <= i < |snapshots| :: snapshots[i].scope == scope ==> snapshots[i].status.Superseded?
  {
    if snapshots == [] then None
    else
      var front := CurrentOf(snapshots[..|snapshots| - 1], scope);
      var last := snapshots[|snapshots| - 1];
      if front.Some? then front
      else if last.scope == scope && last.status.Current? then Some(|snapshots| - 1)
      else None
  }

  function SnapshotById(snapshots: seq<Snapshot>, id: Id): (r: Option<nat>)
    ensures r.Some? ==> r.value < |snapshots| && snapshots[r.value].id == id
    ensures r.None? ==> forall i | 0 <= i < |snapshots| :: snapshots[i].id != id
  {
    if snapshots == [] then None
    else
      var front := SnapshotById(snapshots[..|snapshots| - 1], id);
      if front.Some? then front
      else if snapshots[|snapshots| - 1].id == id then Some(|snapshots| - 1)
      else None
  }

  function Supersede(snapshots: seq<Snapshot>, i: nat): seq<Snapshot>
    requires i < |snapshots|
  {
    snapshots[i := snapshots[i].(status := Superseded)]
  }

  function NewSnapshot(scope: Scope, state: PortfolioState, current: Option<Snapshot>, id: Id): Snapshot {
    Snapshot(id, scope, if current.Some? then current.value.revision + 1 else 1, Current, state.inputRecord, state,
             if current.Some? then Some(current.value.id) else None)
  }

  /** Store a state that differs from the current one, superseding it. */
  function Store(snapshots: seq<Snapshot>, scope: Scope, state: PortfolioState, id: Id)
    : (seq<Snapshot>, SnapshotOutcome, Snapshot)
  {
    var current := CurrentOf(snapshots, scope);
    if current.None? then
      var s := NewSnapshot(scope, state, None, id);
      (snapshots + [s], New, s)
    else
      var s := NewSnapshot(scope, state, Some(snapshots[current.value]), id);
      (Supersede(snapshots, current.value) + [s], Revised, s)
  }

  /** Whether the current snapshot already records this very input and state. */
  predicate Unchanged(snapshots: seq<Snapshot>, scope: Scope, state: PortfolioState) {
    var current := CurrentOf(snapshots, scope);
    && current.Some?
    && snapshots[current.value].inputRecord == state.inputRecord
    && snapshots[current.value].state == state
  }

  /** `SnapshotService.create` on the transactions as the database returned them. */
  function CreateSnapshot(snapshots: seq<Snapshot>, transactions: seq<LedgerTransaction>, scope: Scope, id: Id)
    : (seq<Snapshot>, Result<(SnapshotOutcome, Snapshot), SnapshotError>)
  {
    var r := Reconstruct(scope.fundId, transactions, scope.asOf, scope.accountId);
    if r.Failure? then (snapshots, Failure(Engine(r.error)))
    else if Unchanged(snapshots, scope, r.value) then
      (snapshots, Success((Reused, snapshots[CurrentOf(snapshots, scope).value])))
    else if SnapshotById(snapshots, id).Some? then (snapshots, Failure(KeyTaken))
    else
      var (next, outcome, s) := Store(snapshots, scope, r.value, id);
      (next, Success((outcome, s)))
  }

  function WithIds(rows: seq<Row>, ids: seq<Id>): seq<LedgerTransaction> {
    if rows == [] then []
    else WithIds(rows[..|rows| - 1], ids) + (if rows[|rows| - 1].txn.id in ids then [rows[|rows| - 1].txn] else [])
  }

  /** `SnapshotService.verify` on the rows that the recorded ids select, in whatever order they come. */
  function Verify(snapshots: seq<Snapshot>, evidence: seq<LedgerTransaction>, id: Id): Result<bool, SnapshotError> {
    var found := SnapshotById(snapshots, id);
    if found.None? then Failure(SnapshotMissing)
    else
      var s := snapshots[found.value];
      if |evidence| != |s.state.appliedIds| then Failure(EvidenceIncomplete)
      else
        var r := Reconstruct(s.scope.fundId, evidence, s.state.asOf, s.scope.accountId);
        if r.Failure? then Failure(Engine(r.error))
        else Success(r.value.inputRecord == s.inputRecord && r.value == s.state)
  }

  /** The snapshot table and the service that appends to it and re-marks superseded rows. */
  class SnapshotService {
    var snapshots: seq<Snapshot>

    constructor ()
      ensures snapshots == []
    {
      snapshots := [];
    }

    method RunCreate(transactions: seq<LedgerTransaction>, scope: Scope, id: Id)
      returns (r: Result<(SnapshotOutcome, Snapshot), SnapshotError>)
      modifies this
      ensures (snapshots, r) == CreateSnapshot(old(snapshots), transactions, scope, id)
    {
      var state := RunReconstruct(scope.fundId, transactions, scope.asOf, scope.accountId);
      if state.Failure? {
        return Failure(Engine(state.error));
      }
      var current := CurrentOf(snapshots, scope);
      if current.Some? && snapshots[current.value].inputRecord == state.value.inputRecord
         && snapshots[current.value].state == state.value {
        return Success((Reused, snapshots[current.value]));
      }
      if SnapshotById(snapshots, id).Some? {
        return Failure(KeyTaken);
      }
      r := RunStore(scope, state.value, id);
    }

    method RunStore(scope: Scope, state: PortfolioState, id: Id)
      returns (r: Result<(SnapshotOutcome, Snapshot), SnapshotError>)
      modifies this
      ensures var (next, outcome, s) := Store(old(snapshots), scope, state, id);
              snapshots == next && r == Success((outcome, s))
    {
      var outcome, revision, supersedes := New, 1, None;
      var current := CurrentOf(snapshots, scope);
      if current.Some? {
        var c := snapshots[current.value];
        snapshots := snapshots[current.value := c.(status := Superseded)];
        revision := c.revision + 1;
        supersedes := Some(c.id);
        outcome := Revised;
      }
      var s := Snapshot(id, scope, revision, Current, state.inputRecord, state, supersedes);
      snapshots := snapshots + [s];
      return Success((outcome, s));
    }

    method RunVerify(evidence: seq<LedgerTransaction>, id: Id) returns (r: Result<bool, SnapshotError>)
      ensures r == Verify(snapshots, evidence, id)
    {
      var found := SnapshotById(snapshots, id);
      if found.None? {
        return Failure(SnapshotMissing);
      }
      var s := snapshots[found.value];
      if |evidence| != |s.state.appliedIds| {
        return Failure(EvidenceIncomplete);
      }
      var state := RunReconstruct(s.scope.fundId, evidence, s.state.asOf, s.scope.accountId);
      if state.Failure? {
        return Failure(Engine(state.error));
      }
      return Success(state.value.inputRecord == s.inputRecord && state.value == s.state);
    }
  }
}
