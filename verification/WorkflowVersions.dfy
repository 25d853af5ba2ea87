/** The content version of a proposal when commands race on stale reads, and what the database trigger makes of it. */
module WorkflowVersions {
  import opened Wrappers
  import opened LedgerTypes
  import opened Governance
  import opened WorkflowHistory
  import opened WorkflowRuns

  /** Stored versions carry 1, 2, ... and the current number is one of them. */
  ghost predicate Counted(p: Proposal) {
    && (forall i | 0 <= i < |p.versions| :: p.versions[i].number == i + 1)
    && 0 < p.currentVersion <= |p.versions|
  }

  /** An effective write takes its content version from what was read, never from the row it overwrites. */
  lemma WriteFollowsRead(db: Proposal, seen: Proposal, env: Env, c: Call)
    requires Execute(db, seen, env, c).0 != db
    ensures var next := Execute(db, seen, env, c).0;
            && next.fundId == db.fundId && next.createdBy == db.createdBy && next.rowVersion == db.rowVersion + 1
            && next.currentVersion == seen.currentVersion + (if c.command.Revise? then 1 else 0)
    ensures var next := Execute(db, seen, env, c).0;
            if c.command.Revise? then
              && |next.versions| == |db.versions| + 1 && next.versions[..|db.versions|] == db.versions
              && next.versions[|db.versions|].number == seen.currentVersion + 1
              && forall i | 0 <= i < |db.versions| :: db.versions[i].number != seen.currentVersion + 1
            else next.versions == db.versions
  {
    PlansAreLegal(seen, env, c);
  }

  /** A revision decided on an earlier content version never takes effect: its number is taken. */
  lemma StaleRevisionIsRefused(db: Proposal, seen: Proposal, env: Env, c: Call)
    requires Counted(db) && c.command.Revise? && seen.currentVersion < |db.versions|
    ensures Execute(db, seen, env, c).0 == db
  {
    assert db.versions[seen.currentVersion].number == seen.currentVersion + 1;
    if Execute(db, seen, env, c).0 != db {
      WriteFollowsRead(db, seen, env, c);
    }
  }

  /**
   * An effective write lowers the content version exactly when it is no revision and was decided on an earlier
   * content version; just these are the writes that the database trigger on the row refuses.
   */
  lemma VersionDropsExactly(db: Proposal, seen: Proposal, env: Env, c: Call)
    requires Counted(db) && Execute(db, seen, env, c).0 != db
    ensures var next := Execute(db, seen, env, c).0;
            && (next.currentVersion < db.currentVersion <==>
                !c.command.Revise? && seen.currentVersion < db.currentVersion)
            && (TriggerAllows(db, next) <==> next.currentVersion >= db.currentVersion)
  {
    WriteFollowsRead(db, seen, env, c);
    if c.command.Revise? && seen.currentVersion < |db.versions| {
      StaleRevisionIsRefused(db, seen, env, c);
    }
  }

  lemma WriteKeepsCounted(db: Proposal, seen: Proposal, env: Env, c: Call)
    requires Counted(db) && 0 < seen.currentVersion <= |db.versions|
    ensures var next := Execute(db, seen, env, c).0; Counted(next) && |next.versions| >= |db.versions|
  {
    var next := Execute(db, seen, env, c).0;
    if next != db {
      WriteFollowsRead(db, seen, env, c);
      if c.command.Revise? {
        if seen.currentVersion < |db.versions| {
          StaleRevisionIsRefused(db, seen, env, c);
        }
        forall i | 0 <= i < |next.versions|
          ensures next.versions[i].number == i + 1
        {
          assert i < |db.versions| ==> next.versions[i] == db.versions[i];
        }
      }
    }
  }

  /** Whatever was read, races keep the stored versions numbered and the current number among them. */
  lemma {:induction false} RacesKeepCounted(p: Proposal, attempts: seq<Attempt>, j: nat, i: nat)
    requires Counted(p) && j <= i <= |attempts|
    ensures Counted(Trace(p, attempts)[i])
    ensures |Trace(p, attempts)[j].versions| <= |Trace(p, attempts)[i].versions|
    decreases i
  {
    var states := Trace(p, attempts);
    if i == 0 {
      TracePrefix(p, attempts, 0);
    } else {
      var n := i - 1;
      RacesKeepCounted(p, attempts, n, n);
      TraceStep(p, attempts, n);
      var k := SeenIsAState(states[..n + 1], attempts[n]);
      RacesKeepCounted(p, attempts, k, n);
      RacesKeepCounted(p, attempts, 0, k);
      WriteKeepsCounted(states[n], states[k], attempts[n].env, attempts[n].call);
      if j < i {
        RacesKeepCounted(p, attempts, j, n);
      }
    }
  }

  /**
   * Over every race on a created proposal: which effective writes lower the content version, and so which of them
   * the trigger refuses.
   */
  lemma RaceDropsExactly(fundId: Id, actor: Id, content: Content, at: Instant, versionId: Id, env: Env, p: Proposal,
                         attempts: seq<Attempt>, i: nat)
    requires Create(fundId, actor, content, at, versionId, env) == Success(p)
    requires i < |attempts| && TookEffect(p, attempts, i)
    ensures var states := Trace(p, attempts);
            var seen, revises := Seen(states[..i + 1], attempts[i]), attempts[i].call.command.Revise?;
            && (states[i + 1].currentVersion < states[i].currentVersion <==>
                !revises && seen.currentVersion < states[i].currentVersion)
            && (TriggerAllows(states[i], states[i + 1]) <==>
                revises || seen.currentVersion >= states[i].currentVersion)
            && (revises ==> seen.currentVersion == |states[i].versions|)
  {
    var states := Trace(p, attempts);
    var seen := Seen(states[..i + 1], attempts[i]);
    var call := attempts[i].call;
    RacesKeepCounted(p, attempts, i, i);
    TraceStep(p, attempts, i);
    VersionDropsExactly(states[i], seen, attempts[i].env, call);
    var k := SeenIsAState(states[..i + 1], attempts[i]);
    RacesKeepCounted(p, attempts, k, i);
    RacesKeepCounted(p, attempts, k, k);
    if call.command.Revise? && seen.currentVersion < |states[i].versions| {
      StaleRevisionIsRefused(states[i], seen, attempts[i].env, call);
    }
  }
}
