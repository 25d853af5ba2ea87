/** The proposal workflow over whole runs: commands one after another, and commands that race. */
module WorkflowRuns {
  import opened Wrappers
  import opened LedgerTypes
  import opened Authorization
  import opened Governance
  import opened WorkflowHistory

  // ---------------------------------------------------------------- one after another

  datatype Request = Request(env: Env, call: Call)

  function RunFrom(p: Proposal, requests: seq<Request>): Proposal {
    if requests == [] then p
    else
      var last := requests[|requests| - 1];
      Step(RunFrom(p, requests[..|requests| - 1]), last.env, last.call)
  }

  /** Stored evidence only accumulates from one request to the next. */
  ghost predicate Accumulates(library: Library, requests: seq<Request>) {
    && (forall i | 0 <= i < |requests| :: Extends(library, requests[i].env.library))
    && (forall i, j | 0 <= i <= j < |requests| :: Extends(requests[i].env.library, requests[j].env.library))
  }

  function LastLibrary(library: Library, requests: seq<Request>): Library {
    if requests == [] then library else requests[|requests| - 1].env.library
  }

  lemma {:induction false} RunKeepsInv(p: Proposal, library: Library, requests: seq<Request>)
    requires Inv(p, library) && Accumulates(library, requests)
    ensures Inv(RunFrom(p, requests), LastLibrary(library, requests))
  {
    if requests == [] {
    } else {
      var front, last := requests[..|requests| - 1], requests[|requests| - 1];
      RunKeepsInv(p, library, front);
      LaterEvidenceKeepsInv(RunFrom(p, front), LastLibrary(library, front), last.env.library);
      StepKeepsInv(RunFrom(p, front), last.env, last.call);
    }
  }

  /** A proposal some run of requests can produce. */
  ghost predicate Reachable(p: Proposal, library: Library) {
    exists fundId: Id, actor: Id, content: Content, at: Instant, versionId: Id, env: Env, requests: seq<Request> ::
      ReachedBy(p, library, fundId, actor, content, at, versionId, env, requests)
  }

  ghost predicate ReachedBy(p: Proposal, library: Library, fundId: Id, actor: Id, content: Content, at: Instant,
                            versionId: Id, env: Env, requests: seq<Request>) {
    var start := Create(fundId, actor, content, at, versionId, env);
    && start.Success? && Accumulates(env.library, requests)
    && p == RunFrom(start.value, requests) && library == LastLibrary(env.library, requests)
  }

  lemma ReachableInv(p: Proposal, library: Library)
    requires Reachable(p, library)
    ensures Inv(p, library)
  {
    var fundId, actor, content, at, versionId, env, requests :|
      ReachedBy(p, library, fundId, actor, content, at, versionId, env, requests);
    CreationStartsInv(fundId, actor, content, at, versionId, env);
    RunKeepsInv(Create(fundId, actor, content, at, versionId, env).value, env.library, requests);
  }

  /** A transition that starts where the one before it ended, which was no final decision. */
  predicate Follows(ts: seq<Transition>, i: nat)
    requires i < |ts|
  {
    if i == 0 then ts[i].from.None? && ts[i].to.Draft?
    else
      && ts[i].from == Some(ts[i - 1].to) && ts[i - 1].to !in {Approved, Rejected, Withdrawn}
      && ts[i - 1].occurredAt <= ts[i].occurredAt
  }

  /** A complete history: numbered 1..n, connected, in time order, and ending in the current state. */
  ghost predicate CompleteHistory(p: Proposal) {
    var ts := p.transitions;
    && p.rowVersion == |ts| > 0
    && (forall i | 0 <= i < |ts| :: ts[i].resultingRowVersion == i + 1 && Follows(ts, i))
    && ts[|ts| - 1].to == p.status && ts[|ts| - 1].occurredAt == p.updatedAt
    && p.currentVersion == |p.versions| == 1 + Revisions(ts)
  }

  lemma HistoryOfInv(p: Proposal)
    requires Numbered(p) && Connected(p) && Timed(p) && Versioned(p)
    ensures CompleteHistory(p)
  {
    var ts := p.transitions;
    forall i | 0 <= i < |ts|
      ensures Follows(ts, i)
    {
      assert i > 0 ==> Edge(ts[i - 1].to, ts[i].action, ts[i].to);
    }
  }

  lemma HistoryIsComplete(p: Proposal, library: Library)
    requires Reachable(p, library)
    ensures CompleteHistory(p)
  {
    ReachableInv(p, library);
    HistoryOfInv(p);
  }

  /** What is on record: acceptable content by the author, fitting evidence, and words where words are required. */
  lemma RecordIsInOrder(p: Proposal, library: Library)
    requires Reachable(p, library)
    ensures ContentsAccepted(p) && EvidenceFits(p, library) && ReasonsGiven(p)
  {
    ReachableInv(p, library);
  }

  /** The transition at `s` is the only submission of the current version, on the latest analysis, which is clear. */
  ghost predicate SubmittedAsIs(p: Proposal, library: Library, s: nat)
    requires s < |p.transitions|
  {
    && VersionNumbered(p.versions, p.currentVersion).Some?
    && VersionNumbered(p.versions, p.currentVersion).value.id == CurrentId(p)
    && Held(p, library, s)
    && forall k | 0 <= k < |p.transitions| && IsSubmissionOf(p.transitions[k], CurrentId(p)) :: k == s
  }

  lemma SubmissionOfInv(p: Proposal, library: Library) returns (s: nat)
    requires Versioned(p) && SubmissionHolds(p, library) && SubmittedOnce(p) && AfterSubmission(p.status)
    ensures s < |p.transitions| && SubmittedAsIs(p, library, s)
  {
    s := TheSubmission(p, library);
    CurrentIsLast(p);
  }

  lemma TheSubmission(p: Proposal, library: Library) returns (s: nat)
    requires SubmissionHolds(p, library) && SubmittedOnce(p) && AfterSubmission(p.status)
    ensures s < |p.transitions| && Held(p, library, s)
    ensures forall k | 0 <= k < |p.transitions| && IsSubmissionOf(p.transitions[k], CurrentId(p)) :: k == s
  {
    s :| 0 <= s < |p.transitions| && Held(p, library, s);
    OnlySubmission(p.transitions, s);
  }

  lemma OnlySubmission(ts: seq<Transition>, s: nat)
    requires s < |ts| && ts[s].action.Submission? && SingleSubmissions(ts)
    ensures forall k | 0 <= k < |ts| && IsSubmissionOf(ts[k], ts[s].versionId) :: k == s
  {
    forall k | 0 <= k < |ts| && IsSubmissionOf(ts[k], ts[s].versionId)
      ensures k == s
    {
      assert !(k < s) && !(s < k);
    }
  }

  /** In review, the current version and its latest clear analysis are those of its one submission. */
  lemma UnderReviewIsWhatWasSubmitted(p: Proposal, library: Library) returns (s: nat)
    requires Reachable(p, library) && AfterSubmission(p.status)
    ensures s < |p.transitions| && SubmittedAsIs(p, library, s)
  {
    ReachableInv(p, library);
    s := SubmissionOfInv(p, library);
  }

  lemma ApprovedByApproval(p: Proposal)
    requires Connected(p) && p.status.Approved?
    ensures |p.transitions| > 1 && p.transitions[|p.transitions| - 1].action.Approval?
  {
    var n := |p.transitions| - 1;
    assert Edge(p.transitions[n - 1].to, p.transitions[n].action, p.transitions[n].to);
  }

  lemma LastNamesCurrent(p: Proposal)
    requires Versioned(p) && VersionInForce(p) && p.transitions != []
    ensures p.transitions[|p.transitions| - 1].versionId == CurrentId(p)
  {
    var n := |p.transitions| - 1;
    assert p.transitions[..n + 1] == p.transitions;
    assert NamesCurrent(p.transitions, p.versions, n);
  }

  lemma ApprovalOfInv(p: Proposal) returns (s: nat, i: nat)
    requires Connected(p) && Versioned(p) && VersionInForce(p) && ApprovalsRest(p) && p.status.Approved?
    ensures s < i < |p.transitions| - 1
    ensures p.transitions[|p.transitions| - 1].action.Approval?
    ensures p.transitions[|p.transitions| - 1].versionId == CurrentId(p)
    ensures RestsOn(p, |p.transitions| - 1, s, i)
  {
    var n := |p.transitions| - 1;
    ApprovedByApproval(p);
    LastNamesCurrent(p);
    s, i :| 0 <= s < i < n && RestsOn(p, n, s, i);
  }

  /**
   * What is approved is what was submitted: the last transition approves the current version on the analysis its
   * one submission rested on, after a review of that version, by a manager who is not the author.
   */
  lemma ApprovedIsWhatWasSubmitted(p: Proposal, library: Library) returns (s: nat, i: nat)
    requires Reachable(p, library) && p.status.Approved?
    ensures s < i < |p.transitions| - 1
    ensures p.transitions[|p.transitions| - 1].action.Approval?
    ensures p.transitions[|p.transitions| - 1].versionId == CurrentId(p)
    ensures RestsOn(p, |p.transitions| - 1, s, i)
    ensures SubmittedAsIs(p, library, s)
  {
    ReachableInv(p, library);
    s, i := ApprovalOfInv(p);
    var only := SubmissionOfInv(p, library);
    assert only == s;
  }

  /** Once approved, rejected or withdrawn, a proposal never changes again. */
  lemma {:induction false} DecisionsAreFinal(p: Proposal, requests: seq<Request>)
    requires p.status in {Approved, Rejected, Withdrawn}
    ensures RunFrom(p, requests) == p
  {
    if requests == [] {
    } else {
      var last := requests[|requests| - 1];
      DecisionsAreFinal(p, requests[..|requests| - 1]);
      StepIsLegal(p, last.env, last.call);
    }
  }

  // ---------------------------------------------------------------- commands that race

  /** A command that read an earlier state: state number `seenAt`, or the present one. */
  datatype Attempt = Attempt(env: Env, call: Call, seenAt: nat)

  function Seen(states: seq<Proposal>, a: Attempt): Proposal
    requires states != []
  {
    if a.seenAt < |states| then states[a.seenAt] else states[|states| - 1]
  }

  /** All states the row goes through, first to last, as the attempts write in turn. */
  function Trace(p: Proposal, attempts: seq<Attempt>): (states: seq<Proposal>)
    ensures |states| == |attempts| + 1
  {
    if attempts == [] then [p]
    else
      var states := Trace(p, attempts[..|attempts| - 1]);
      var a := attempts[|attempts| - 1];
      states + [Execute(states[|states| - 1], Seen(states, a), a.env, a.call).0]
  }

  lemma {:induction false} TracePrefix(p: Proposal, attempts: seq<Attempt>, n: nat)
    requires n <= |attempts|
    ensures Trace(p, attempts[..n]) == Trace(p, attempts)[..n + 1]
    decreases |attempts|
  {
    if n == |attempts| {
      assert attempts[..n] == attempts;
    } else {
      var front := attempts[..|attempts| - 1];
      assert attempts[..n] == front[..n];
      TracePrefix(p, front, n);
    }
  }

  /** The proposal an attempt read, and the one it wrote to. */
  lemma TraceStep(p: Proposal, attempts: seq<Attempt>, i: nat)
    requires i < |attempts|
    ensures var states := Trace(p, attempts);
            && states[i + 1] == Execute(states[i], Seen(states[..i + 1], attempts[i]), attempts[i].env,
                                        attempts[i].call).0
  {
    var states := Trace(p, attempts);
    TracePrefix(p, attempts, i + 1);
    TracePrefix(p, attempts, i);
    assert attempts[..i + 1][..i] == attempts[..i];
    assert Trace(p, attempts[..i + 1])[i + 1] == states[i + 1];
  }

  lemma WriteNeedsExpected(db: Proposal, seen: Proposal, env: Env, c: Call)
    ensures var next := Execute(db, seen, env, c).0;
            next == db || (db.rowVersion == c.expected && next.rowVersion == c.expected + 1)
  {
  }

  /** Each attempt leaves the row alone or moves it on from the version it expected. */
  lemma TraceMoves(p: Proposal, attempts: seq<Attempt>, i: nat)
    requires i < |attempts|
    ensures var states := Trace(p, attempts);
            states[i + 1] == states[i]
            || (states[i].rowVersion == attempts[i].call.expected
                && states[i + 1].rowVersion == attempts[i].call.expected + 1)
  {
    var states := Trace(p, attempts);
    TraceStep(p, attempts, i);
    WriteNeedsExpected(states[i], Seen(states[..i + 1], attempts[i]), attempts[i].env, attempts[i].call);
  }

  lemma {:induction false} VersionsIncrease(p: Proposal, attempts: seq<Attempt>, i: nat, j: nat)
    requires i <= j <= |attempts|
    ensures Trace(p, attempts)[i].rowVersion <= Trace(p, attempts)[j].rowVersion
    ensures Trace(p, attempts)[i].rowVersion == Trace(p, attempts)[j].rowVersion ==>
              Trace(p, attempts)[i] == Trace(p, attempts)[j]
    decreases j
  {
    if i < j {
      VersionsIncrease(p, attempts, i, j - 1);
      TraceMoves(p, attempts, j - 1);
    }
  }

  predicate TookEffect(p: Proposal, attempts: seq<Attempt>, i: nat)
    requires i < |attempts|
  {
    Trace(p, attempts)[i + 1] != Trace(p, attempts)[i]
  }

  /** Of two attempts with the same expected version at most one takes effect, whatever they had read. */
  lemma AtMostOneTakesEffect(p: Proposal, attempts: seq<Attempt>, i: nat, j: nat)
    requires i < j < |attempts| && attempts[i].call.expected == attempts[j].call.expected
    ensures !(TookEffect(p, attempts, i) && TookEffect(p, attempts, j))
  {
    TraceMoves(p, attempts, i);
    TraceMoves(p, attempts, j);
    VersionsIncrease(p, attempts, i + 1, j);
  }

  lemma SeenIsAState(states: seq<Proposal>, a: Attempt) returns (k: nat)
    requires states != []
    ensures k < |states| && Seen(states, a) == states[k]
  {
    k := if a.seenAt < |states| then a.seenAt else |states| - 1;
  }

  /**
   * An attempt that takes effect had read the row it overwrites exactly when the version it expects is the
   * version it read.
   */
  lemma EffectIsSerialExactlyWhenExpectedWasRead(p: Proposal, attempts: seq<Attempt>, i: nat)
    requires i < |attempts| && TookEffect(p, attempts, i)
    ensures var states := Trace(p, attempts);
            var seen := Seen(states[..i + 1], attempts[i]);
            seen == states[i] <==> attempts[i].call.expected == seen.rowVersion
  {
    var states := Trace(p, attempts);
    var seen := Seen(states[..i + 1], attempts[i]);
    TraceMoves(p, attempts, i);
    var k := SeenIsAState(states[..i + 1], attempts[i]);
    VersionsIncrease(p, attempts, k, i);
  }

  /** Every attempt expects the version of the proposal it read. */
  ghost predicate ExpectsWhatItRead(p: Proposal, attempts: seq<Attempt>) {
    forall i | 0 <= i < |attempts| ::
      attempts[i].call.expected == Seen(Trace(p, attempts)[..i + 1], attempts[i]).rowVersion
  }

  /** The attempts that took effect, in order, as plain requests. */
  function Effective(p: Proposal, attempts: seq<Attempt>): seq<Request> {
    if attempts == [] then []
    else
      var n := |attempts| - 1;
      var front := Effective(p, attempts[..n]);
      if TookEffect(p, attempts, n) then front + [Request(attempts[n].env, attempts[n].call)] else front
  }

  lemma ExpectationOfPrefix(p: Proposal, attempts: seq<Attempt>, n: nat)
    requires n <= |attempts| && ExpectsWhatItRead(p, attempts)
    ensures ExpectsWhatItRead(p, attempts[..n])
  {
    TracePrefix(p, attempts, n);
    forall i | 0 <= i < n
      ensures attempts[..n][i].call.expected == Seen(Trace(p, attempts[..n])[..i + 1], attempts[..n][i]).rowVersion
    {
      assert Trace(p, attempts[..n])[..i + 1] == Trace(p, attempts)[..i + 1];
    }
  }

  /** Then racing attempts do just what their effective ones do one after another. */
  lemma {:induction false} RacesSerialise(p: Proposal, attempts: seq<Attempt>)
    requires ExpectsWhatItRead(p, attempts)
    ensures Trace(p, attempts)[|attempts|] == RunFrom(p, Effective(p, attempts))
  {
    if attempts == [] {
    } else {
      var n := |attempts| - 1;
      var front := attempts[..n];
      ExpectationOfPrefix(p, attempts, n);
      RacesSerialise(p, front);
      TracePrefix(p, attempts, n);
      TraceStep(p, attempts, n);
      if TookEffect(p, attempts, n) {
        EffectIsSerialExactlyWhenExpectedWasRead(p, attempts, n);
        var done := Effective(p, front);
        assert Effective(p, attempts)[..|done|] == done;
      }
    }
  }

  // ---------------------------------------------------------------- what races can reach

  function LibraryOf(a: Attempt): Library {
    a.env.library
  }

  /** Stored evidence only accumulates from one attempt to the next. */
  ghost predicate AttemptsAccumulate(library: Library, attempts: seq<Attempt>) {
    && (forall i | 0 <= i < |attempts| :: Extends(library, LibraryOf(attempts[i])))
    && (forall i, j | 0 <= i <= j < |attempts| :: Extends(LibraryOf(attempts[i]), LibraryOf(attempts[j])))
  }

  ghost predicate AllWithin(requests: seq<Request>, later: Library) {
    forall i | 0 <= i < |requests| :: Extends(requests[i].env.library, later)
  }

  lemma {:induction false} EffectiveWithin(p: Proposal, attempts: seq<Attempt>, later: Library)
    requires forall i | 0 <= i < |attempts| :: Extends(LibraryOf(attempts[i]), later)
    ensures AllWithin(Effective(p, attempts), later)
  {
    if attempts == [] {
    } else {
      var n := |attempts| - 1;
      assert Extends(LibraryOf(attempts[n]), later);
      EffectiveWithin(p, attempts[..n], later);
    }
  }

  lemma AccumulatesWithLast(library: Library, requests: seq<Request>, r: Request)
    requires Accumulates(library, requests) && Extends(library, r.env.library) && AllWithin(requests, r.env.library)
    ensures Accumulates(library, requests + [r])
  {
  }

  lemma {:induction false} EffectiveAccumulates(p: Proposal, library: Library, attempts: seq<Attempt>)
    requires AttemptsAccumulate(library, attempts)
    ensures Accumulates(library, Effective(p, attempts))
  {
    if attempts == [] {
    } else {
      var n := |attempts| - 1;
      EffectiveAccumulates(p, library, attempts[..n]);
      EffectiveWithin(p, attempts[..n], LibraryOf(attempts[n]));
      AccumulatesWithLast(library, Effective(p, attempts[..n]), Request(attempts[n].env, attempts[n].call));
    }
  }

  lemma ReachesBy(p: Proposal, library: Library, fundId: Id, actor: Id, content: Content, at: Instant, versionId: Id,
                  env: Env, requests: seq<Request>)
    requires ReachedBy(p, library, fundId, actor, content, at, versionId, env, requests)
    ensures Reachable(p, library)
  {
  }

  /** A state that racing commands, each expecting the version it read, take a created proposal through. */
  ghost predicate RacedTo(p: Proposal, start: Proposal, library: Library, attempts: seq<Attempt>, n: nat) {
    && n <= |attempts| && p == Trace(start, attempts)[n]
    && ExpectsWhatItRead(start, attempts) && AttemptsAccumulate(library, attempts)
  }

  /**
   * If every command expects the version it read, races reach only what runs reach, so all that holds of
   * reachable proposals holds under races.
   */
  lemma RacesReachOnlyWhatRunsReach(fundId: Id, actor: Id, content: Content, at: Instant, versionId: Id, env: Env,
                                    start: Proposal, attempts: seq<Attempt>, n: nat, p: Proposal)
    returns (library: Library)
    requires Create(fundId, actor, content, at, versionId, env) == Success(start)
    requires RacedTo(p, start, env.library, attempts, n)
    ensures library == LastLibrary(env.library, Effective(start, attempts[..n]))
    ensures Reachable(p, library)
  {
    var done := Effective(start, attempts[..n]);
    library := LastLibrary(env.library, done);
    ExpectationOfPrefix(start, attempts, n);
    RacesSerialise(start, attempts[..n]);
    TracePrefix(start, attempts, n);
    EffectiveAccumulates(start, env.library, attempts[..n]);
    ReachesBy(p, library, fundId, actor, content, at, versionId, env, done);
  }

  /** So what is approved is what was submitted, also when commands race. */
  lemma RacedApprovalIsWhatWasSubmitted(fundId: Id, actor: Id, content: Content, at: Instant, versionId: Id, env: Env,
                                        start: Proposal, attempts: seq<Attempt>, n: nat, p: Proposal)
    returns (library: Library, s: nat, i: nat)
    requires Create(fundId, actor, content, at, versionId, env) == Success(start)
    requires RacedTo(p, start, env.library, attempts, n) && p.status.Approved?
    ensures library == LastLibrary(env.library, Effective(start, attempts[..n]))
    ensures s < i < |p.transitions| - 1
    ensures p.transitions[|p.transitions| - 1].action.Approval?
    ensures p.transitions[|p.transitions| - 1].versionId == CurrentId(p)
    ensures RestsOn(p, |p.transitions| - 1, s, i)
    ensures SubmittedAsIs(p, library, s)
  {
    library := RacesReachOnlyWhatRunsReach(fundId, actor, content, at, versionId, env, start, attempts, n, p);
    s, i := ApprovedIsWhatWasSubmitted(p, library);
  }

  // ---------------------------------------------------------------- idempotent bindings

  /** Versions and analyses are only appended, and the fund stays. */
  predicate KeepsRows(p: Proposal, q: Proposal) {
    p.versions <= q.versions && p.analyses <= q.analyses && q.fundId == p.fundId
  }

  lemma StepKeepsRows(p: Proposal, env: Env, c: Call)
    ensures KeepsRows(p, Step(p, env, c))
  {
    StepIsLegal(p, env, c);
  }

  lemma {:induction false} RunKeepsRows(p: Proposal, requests: seq<Request>)
    ensures KeepsRows(p, RunFrom(p, requests))
  {
    if requests == [] {
    } else {
      var front, last := requests[..|requests| - 1], requests[|requests| - 1];
      RunKeepsRows(p, front);
      StepKeepsRows(RunFrom(p, front), last.env, last.call);
    }
  }

  lemma {:induction false} VersionIsStillFound(versions: seq<Version>, more: seq<Version>, number: nat)
    requires versions <= more && VersionNumbered(versions, number).Some?
    ensures VersionNumbered(more, number) == VersionNumbered(versions, number)
    decreases |more|
  {
    if versions == more {
    } else {
      VersionIsStillFound(versions, more[..|more| - 1], number);
    }
  }

  lemma {:induction false} EvidenceIsStillFound(analyses: seq<Analysis>, more: seq<Analysis>, versionId: Id, riskId: Id,
                                                scenarioId: Option<Id>)
    requires analyses <= more && SameEvidence(analyses, versionId, riskId, scenarioId).Some?
    ensures SameEvidence(more, versionId, riskId, scenarioId) == SameEvidence(analyses, versionId, riskId, scenarioId)
    decreases |more|
  {
    if analyses == more {
    } else {
      EvidenceIsStillFound(analyses, more[..|more| - 1], versionId, riskId, scenarioId);
    }
  }

  lemma NewEvidenceIsFound(analyses: seq<Analysis>, a: Analysis)
    requires SameEvidence(analyses, a.versionId, a.riskId, a.scenarioId).None?
    ensures SameEvidence(analyses + [a], a.versionId, a.riskId, a.scenarioId) == Some(a)
  {
    assert (analyses + [a])[..|analyses|] == analyses;
  }

  lemma StillMatches(library: Library, later: Library, riskId: Id, scenarioId: Option<Id>, fundId: Id, asOf: Instant)
    requires Extends(library, later)
    requires RiskMatches(library, riskId, fundId, asOf) && ScenarioMatches(library, scenarioId, fundId, asOf)
    ensures RiskMatches(later, riskId, fundId, asOf) && ScenarioMatches(later, scenarioId, fundId, asOf)
  {
    if scenarioId.Some? {
      var k: Id := scenarioId.value;
      assert k in library.scenarios && later.scenarios[k] == library.scenarios[k];
    }
  }

  /** What a successful binding has done: one new analysis of the current version, on matching evidence. */
  lemma BindingAppends(p: Proposal, env: Env, c: Call) returns (v: Version, a: Analysis)
    requires c.command.RecordAnalysis? && Execute(p, p, env, c).1 == Success(Changed)
    ensures VersionNumbered(p.versions, p.currentVersion) == Some(v)
    ensures a == Analysis(c.command.analysisId, v.id, c.command.riskId, c.command.scenarioId, c.actor, c.at)
    ensures Step(p, env, c).analyses == p.analyses + [a]
    ensures SameEvidence(p.analyses, v.id, a.riskId, a.scenarioId).None?
    ensures RiskMatches(env.library, a.riskId, p.fundId, v.content.portfolioAsOf)
    ensures ScenarioMatches(env.library, a.scenarioId, p.fundId, v.content.portfolioAsOf)
  {
    v := VersionNumbered(p.versions, p.currentVersion).value;
    a := Analysis(c.command.analysisId, v.id, c.command.riskId, c.command.scenarioId, c.actor, c.at);
  }

  lemma AnsweredByEvidence(p: Proposal, env: Env, c: Call, v: Version, a: Analysis)
    requires c.command.RecordAnalysis? && p.status.Draft? && Require(env.staff, c.actor, p.fundId, BindAnalysis).Some?
    requires VersionNumbered(p.versions, p.currentVersion) == Some(v)
    requires RiskMatches(env.library, c.command.riskId, p.fundId, v.content.portfolioAsOf)
    requires ScenarioMatches(env.library, c.command.scenarioId, p.fundId, v.content.portfolioAsOf)
    requires SameEvidence(p.analyses, v.id, c.command.riskId, c.command.scenarioId) == Some(a)
    ensures Execute(p, p, env, c) == (p, Success(Existing(a)))
  {
  }

  /**
   * After evidence has been bound and any later commands, binding the same evidence to that version again reports
   * the analysis bound then and changes nothing, whatever row version is expected.
   */
  lemma RebindingIsIdempotent(p: Proposal, env: Env, c: Call, requests: seq<Request>, later: Env, again: Call)
    requires c.command.RecordAnalysis? && Execute(p, p, env, c).1 == Success(Changed)
    requires Extends(env.library, later.library)
    requires again.command.RecordAnalysis?
    requires again.command.riskId == c.command.riskId && again.command.scenarioId == c.command.scenarioId
    requires Require(later.staff, again.actor, p.fundId, BindAnalysis).Some?
    requires var end := RunFrom(Step(p, env, c), requests);
             end.status.Draft? && end.currentVersion == p.currentVersion
    ensures var end := RunFrom(Step(p, env, c), requests);
            && |Step(p, env, c).analyses| == |p.analyses| + 1
            && Execute(end, end, later, again) == (end, Success(Existing(Step(p, env, c).analyses[|p.analyses|])))
  {
    var bound := Step(p, env, c);
    var end := RunFrom(bound, requests);
    var v, a := BindingAppends(p, env, c);
    StepKeepsRows(p, env, c);
    RunKeepsRows(bound, requests);
    VersionIsStillFound(p.versions, end.versions, p.currentVersion);
    NewEvidenceIsFound(p.analyses, a);
    EvidenceIsStillFound(bound.analyses, end.analyses, v.id, a.riskId, a.scenarioId);
    StillMatches(env.library, later.library, a.riskId, a.scenarioId, p.fundId, v.content.portfolioAsOf);
    AnsweredByEvidence(end, later, again, v, a);
  }
}
