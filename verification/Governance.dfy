/**
 * The investment proposal workflow (app/governance/service.py).
 *
 * A command reads the proposal, checks its guards on what it read, and then compares and sets the stored
 * row. `Plan` is the part that reads; `Advance` is the compare-and-set with the rows that go with it.
 */
module Governance {
  import opened Wrappers
  import opened LedgerTypes
  import opened Text
  import opened Authorization

  // ---------------------------------------------------------------- evidence

  datatype Severity = Blocking | Warning

  datatype PolicyStatus = Pass | Breach | Unavailable

  datatype PolicyResult = PolicyResult(severity: Severity, status: PolicyStatus)

  datatype RiskEvaluation = RiskEvaluation(fundId: Id, asOf: Instant, results: seq<PolicyResult>)

  datatype ScenarioRun = ScenarioRun(fundId: Id, asOf: Instant)

  /** Stored risk evaluations and scenario runs; once written they never change. */
  datatype Library = Library(risks: map<Id, RiskEvaluation>, scenarios: map<Id, ScenarioRun>)

  /** What a command finds around the proposal when it runs. */
  datatype Env = Env(staff: map<Id, User>, library: Library)

  // ---------------------------------------------------------------- the aggregate

  datatype Status = Draft | Submitted | UnderReview | ChangesRequested | Approved | Rejected | Withdrawn

  datatype Direction = BuyMore | SellSome | Exit | Hold

  datatype ProposalLine = ProposalLine(
    instrumentId: Id,
    direction: Direction,
    currentWeight: real,
    proposedWeight: real,
    notional: real,
    rationale: string)

  datatype Content = Content(
    title: string,
    thesis: string,
    portfolioHash: string,
    portfolioAsOf: Instant,
    lines: seq<ProposalLine>)

  datatype Version = Version(
    id: Id,
    number: nat,
    content: Content,
    createdBy: Id,
    createdAt: Instant,
    supersedes: Option<Id>)

  datatype Analysis = Analysis(
    id: Id,
    versionId: Id,
    riskId: Id,
    scenarioId: Option<Id>,
    recordedBy: Id,
    recordedAt: Instant)

  datatype Recommendation = Support | Oppose | Comment

  datatype Review = Review(
    id: Id,
    versionId: Id,
    reviewer: Id,
    role: Role,
    recommendation: Recommendation,
    comment: string,
    createdAt: Instant)

  datatype WorkflowAction =
    | Creation
    | Revision
    | Binding
    | Submission
    | ReviewStart
    | Reviewing
    | ChangeRequest
    | Approval
    | Rejection
    | Withdrawal

  /** What a transition records about the grounds of the decision. */
  datatype Provenance =
    | OfContent(content: Content)
    | OfRevision(supersedes: Id)
    | OfBinding(bound: Analysis)
    | OfReview(reviewId: Id, recommendation: Recommendation)
    | OfDecision(basis: Analysis, reviewCount: nat)

  datatype Transition = Transition(
    versionId: Id,
    action: WorkflowAction,
    from: Option<Status>,
    to: Status,
    actor: Id,
    role: Role,
    reason: Option<string>,
    provenance: Provenance,
    occurredAt: Instant,
    resultingRowVersion: int)

  datatype Proposal = Proposal(
    fundId: Id,
    createdBy: Id,
    status: Status,
    currentVersion: nat,
    rowVersion: int,
    updatedAt: Instant,
    versions: seq<Version>,
    analyses: seq<Analysis>,
    reviews: seq<Review>,
    transitions: seq<Transition>)

  datatype WorkflowError =
    | AuthorizationDenied
    | InvalidWorkflowTransition
    | PolicyEvidenceRequired
    | ConcurrentProposalUpdate
    | KeyAlreadyUsed

  // ---------------------------------------------------------------- content

  predicate LineAccepted(line: ProposalLine) {
    && 0.0 <= line.currentWeight <= 1.0
    && 0.0 <= line.proposedWeight <= 1.0
    && line.notional >= 0.0
    && !Blank(line.rationale)
    && match line.direction
       case BuyMore => line.proposedWeight > line.currentWeight
       case SellSome => 0.0 < line.proposedWeight < line.currentWeight
       case Exit => line.currentWeight > 0.0 && line.proposedWeight == 0.0
       case Hold => line.proposedWeight == line.currentWeight
  }

  predicate ContentAccepted(c: Content) {
    && !Blank(c.title) && !Blank(c.thesis)
    && |c.portfolioHash| == 64
    && c.lines != []
    && (forall i, j | 0 <= i < j < |c.lines| :: c.lines[i].instrumentId != c.lines[j].instrumentId)
    && (forall i | 0 <= i < |c.lines| :: LineAccepted(c.lines[i]))
  }

  // ---------------------------------------------------------------- queries

  function VersionNumbered(versions: seq<Version>, number: nat): (r: Option<Version>)
    ensures r.Some? ==> r.value in versions && r.value.number == number
    ensures r.None? ==> forall v | v in versions :: v.number != number
  {
    if versions == [] then None
    else
      var front := VersionNumbered(versions[..|versions| - 1], number);
      var last := versions[|versions| - 1];
      if front.Some? then front else if last.number == number then Some(last) else None
  }

  predicate AnalysisLe(a: Analysis, b: Analysis) {
    a.recordedAt < b.recordedAt || (a.recordedAt == b.recordedAt && a.id <= b.id)
  }

  /** The analysis of a version that was recorded last, ties broken by the greater id. */
  function LatestAnalysis(analyses: seq<Analysis>, versionId: Id): (r: Option<Analysis>)
    ensures r.Some? ==> r.value in analyses && r.value.versionId == versionId
    ensures r.Some? ==> forall a | a in analyses && a.versionId == versionId :: AnalysisLe(a, r.value)
    ensures r.None? ==> forall a | a in analyses :: a.versionId != versionId
  {
    if analyses == [] then None
    else
      var front := LatestAnalysis(analyses[..|analyses| - 1], versionId);
      var last := analyses[|analyses| - 1];
      if last.versionId != versionId then front
      else if front.Some? && !AnalysisLe(front.value, last) then front
      else Some(last)
  }

  function SameEvidence(analyses: seq<Analysis>, versionId: Id, riskId: Id, scenarioId: Option<Id>)
    : (r: Option<Analysis>)
    ensures r.Some? ==>
              && r.value in analyses && r.value.versionId == versionId
              && r.value.riskId == riskId && r.value.scenarioId == scenarioId
    ensures r.None? ==>
              forall a | a in analyses && a.versionId == versionId && a.riskId == riskId :: a.scenarioId != scenarioId
  {
    if analyses == [] then None
    else
      var front := SameEvidence(analyses[..|analyses| - 1], versionId, riskId, scenarioId);
      var last := analyses[|analyses| - 1];
      if front.Some? then front
      else if last.versionId == versionId && last.riskId == riskId && last.scenarioId == scenarioId then Some(last)
      else None
  }

  function ReviewCount(reviews: seq<Review>, versionId: Id): (n: nat)
    ensures n > 0 <==> exists r :: r in reviews && r.versionId == versionId
  {
    if reviews == [] then 0
    else
      ReviewCount(reviews[..|reviews| - 1], versionId) +
          (if reviews[|reviews| - 1].versionId == versionId then 1 else 0)
  }

  /** An evaluation with results, none of them a blocking rule that did not pass. */
  predicate Clear(library: Library, a: Analysis) {
    && a.riskId in library.risks
    && library.risks[a.riskId].results != []
    && forall i | 0 <= i < |library.risks[a.riskId].results| ::
         library.risks[a.riskId].results[i].severity.Blocking? ==> library.risks[a.riskId].results[i].status.Pass?
  }

  function RequiredVersion(p: Proposal): Result<Version, WorkflowError> {
    var v := VersionNumbered(p.versions, p.currentVersion);
    if v.None? then Failure(InvalidWorkflowTransition) else Success(v.value)
  }

  function RequiredClearAnalysis(p: Proposal, library: Library, versionId: Id): (r: Result<Analysis, WorkflowError>)
    ensures r.Success? <==>
              LatestAnalysis(p.analyses, versionId).Some? && Clear(library, LatestAnalysis(p.analyses, versionId).value)
    ensures r.Success? ==> Some(r.value) == LatestAnalysis(p.analyses, versionId)
  {
    var a := LatestAnalysis(p.analyses, versionId);
    if a.None? || !Clear(library, a.value) then Failure(PolicyEvidenceRequired) else Success(a.value)
  }

  function RequiredRole(p: Proposal, env: Env, actor: Id, permission: Permission): Result<Role, WorkflowError> {
    var role := Require(env.staff, actor, p.fundId, permission);
    if role.None? then Failure(AuthorizationDenied) else Success(role.value)
  }

  function RequiredReason(reason: string): Result<string, WorkflowError> {
    if Blank(reason) then Failure(InvalidWorkflowTransition) else Success(reason)
  }

  // ---------------------------------------------------------------- commands

  datatype Command =
    | Revise(content: Content, versionId: Id)
    | RecordAnalysis(riskId: Id, scenarioId: Option<Id>, analysisId: Id)
    | Submit
    | StartReview
    | RecordReview(recommendation: Recommendation, comment: string, reviewId: Id)
    | RequestChanges(changeReason: string)
    | Approve(approvalReason: string)
    | Reject(rejectionReason: string)
    | Withdraw(withdrawalReason: string)

  datatype Call = Call(actor: Id, expected: int, at: Instant, command: Command)

  /** The write a command wants to make, as decided from what it read. */
  datatype Change = Change(
    status: Status,
    currentVersion: nat,
    versionId: Id,
    action: WorkflowAction,
    from: Status,
    role: Role,
    reason: Option<string>,
    provenance: Provenance,
    version: Option<Version>,
    analysis: Option<Analysis>,
    review: Option<Review>)

  datatype Plan = Write(change: Change) | AlreadyBound(existing: Analysis)

  /** A change of status that adds no rows of its own. */
  function StatusChange(seen: Proposal, v: Version, to: Status, action: WorkflowAction, role: Role,
                        reason: Option<string>, provenance: Provenance): Change {
    Change(to, seen.currentVersion, v.id, action, seen.status, role, reason, provenance, None, None, None)
  }

  function PlanRevise(seen: Proposal, env: Env, c: Call, content: Content, versionId: Id): Result<Plan, WorkflowError> {
    var role :- RequiredRole(seen, env, c.actor, ReviseProposal);
    if seen.createdBy != c.actor then Failure(AuthorizationDenied)
    else if !seen.status.Draft? && !seen.status.ChangesRequested? then Failure(InvalidWorkflowTransition)
    else if !ContentAccepted(content) then Failure(InvalidWorkflowTransition)
    else
      var previous :- RequiredVersion(seen);
      var v := Version(versionId, seen.currentVersion + 1, content, c.actor, c.at, Some(previous.id));
      Success(Write(Change(Draft, seen.currentVersion + 1, versionId, Revision, seen.status, role, None,
                           OfRevision(previous.id), Some(v), None, None)))
  }

  predicate ScenarioMatches(library: Library, scenarioId: Option<Id>, fundId: Id, asOf: Instant) {
    scenarioId.Some? ==>
      && scenarioId.value in library.scenarios
      && library.scenarios[scenarioId.value].fundId == fundId
      && library.scenarios[scenarioId.value].asOf == asOf
  }

  predicate RiskMatches(library: Library, riskId: Id, fundId: Id, asOf: Instant) {
    riskId in library.risks && library.risks[riskId].fundId == fundId && library.risks[riskId].asOf == asOf
  }

  function PlanAnalysis(seen: Proposal, env: Env, c: Call, riskId: Id, scenarioId: Option<Id>, analysisId: Id)
    : Result<Plan, WorkflowError>
  {
    var role :- RequiredRole(seen, env, c.actor, BindAnalysis);
    if !seen.status.Draft? then Failure(InvalidWorkflowTransition)
    else
      var v :- RequiredVersion(seen);
      if !RiskMatches(env.library, riskId, seen.fundId, v.content.portfolioAsOf) then Failure(PolicyEvidenceRequired)
      else if !ScenarioMatches(env.library, scenarioId, seen.fundId, v.content.portfolioAsOf)
      then Failure(PolicyEvidenceRequired)
      else
        var existing := SameEvidence(seen.analyses, v.id, riskId, scenarioId);
        if existing.Some? then Success(AlreadyBound(existing.value))
        else
          var a := Analysis(analysisId, v.id, riskId, scenarioId, c.actor, c.at);
          Success(Write(Change(Draft, seen.currentVersion, v.id, Binding, Draft, role, None, OfBinding(a),
                               None, Some(a), None)))
  }

  function PlanSubmit(seen: Proposal, env: Env, c: Call): Result<Plan, WorkflowError> {
    var role :- RequiredRole(seen, env, c.actor, SubmitProposal);
    if seen.createdBy != c.actor then Failure(AuthorizationDenied)
    else if !seen.status.Draft? then Failure(InvalidWorkflowTransition)
    else
      var v :- RequiredVersion(seen);
      var a :- RequiredClearAnalysis(seen, env.library, v.id);
      Success(Write(StatusChange(seen, v, Submitted, Submission, role, None, OfDecision(a, 0))))
  }

  function PlanReview(seen: Proposal, env: Env, c: Call, recommendation: Recommendation, comment: string, reviewId: Id)
    : Result<Plan, WorkflowError>
  {
    var role :- RequiredRole(seen, env, c.actor, GiveReview);
    if !seen.status.Submitted? && !seen.status.UnderReview? then Failure(InvalidWorkflowTransition)
    else if Blank(comment) then Failure(InvalidWorkflowTransition)
    else
      var v :- RequiredVersion(seen);
      var r := Review(reviewId, v.id, c.actor, role, recommendation, comment, c.at);
      Success(Write(Change(seen.status, seen.currentVersion, v.id, Reviewing, seen.status, role, Some(comment),
                           OfReview(reviewId, recommendation), None, None, Some(r))))
  }

  function PlanApprove(seen: Proposal, env: Env, c: Call, reason: string): Result<Plan, WorkflowError> {
    var role :- RequiredRole(seen, env, c.actor, ApproveProposal);
    if c.actor == seen.createdBy then Failure(AuthorizationDenied)
    else if !seen.status.UnderReview? then Failure(InvalidWorkflowTransition)
    else
      var v :- RequiredVersion(seen);
      var a :- RequiredClearAnalysis(seen, env.library, v.id);
      var n := ReviewCount(seen.reviews, v.id);
      if n == 0 then Failure(InvalidWorkflowTransition)
      else
        Success(Write(StatusChange(seen, v, Approved, Approval, role,
                                   if Blank(reason) then None else Some(reason), OfDecision(a, n))))
  }

  /** The checks shared by the commands that only move the status: who may, from where, and on which version. */
  function Guard(seen: Proposal, env: Env, actor: Id, permission: Permission, allowed: set<Status>, preventSelf: bool)
    : (r: Result<(Role, Version), WorkflowError>)
    ensures r.Success? ==>
              && Authorized(env.staff, actor, seen.fundId, permission, r.value.0)
              && (preventSelf ==> actor != seen.createdBy)
              && seen.status in allowed
              && Some(r.value.1) == VersionNumbered(seen.versions, seen.currentVersion)
    ensures r == Failure(AuthorizationDenied) <==>
            (forall role :: !Authorized(env.staff, actor, seen.fundId, permission, role))
              || (preventSelf && actor == seen.createdBy)
    ensures r.Failure? && r.error != AuthorizationDenied ==>
              && r.error == InvalidWorkflowTransition
              && (seen.status !in allowed || VersionNumbered(seen.versions, seen.currentVersion).None?)
  {
    var role :- RequiredRole(seen, env, actor, permission);
    if preventSelf && actor == seen.createdBy then Failure(AuthorizationDenied)
    else if seen.status !in allowed then Failure(InvalidWorkflowTransition)
    else
      var v :- RequiredVersion(seen);
      Success((role, v))
  }

  function PlanTransition(seen: Proposal, env: Env, c: Call, permission: Permission, allowed: set<Status>, to: Status,
                          action: WorkflowAction, reason: Option<string>, preventSelf: bool)
    : Result<Plan, WorkflowError>
  {
    var g :- Guard(seen, env, c.actor, permission, allowed, preventSelf);
    Success(Write(StatusChange(seen, g.1, to, action, g.0, reason, OfContent(g.1.content))))
  }

  function PlanWithdraw(seen: Proposal, env: Env, c: Call, text: string): Result<Plan, WorkflowError> {
    if seen.createdBy != c.actor then Failure(AuthorizationDenied)
    else
      var reason :- RequiredReason(text);
      PlanTransition(seen, env, c, WithdrawProposal, {Draft, Submitted, ChangesRequested}, Withdrawn, Withdrawal,
                     Some(reason), false)
  }

  /** The guards of each command, evaluated on what the command read. */
  function MakePlan(seen: Proposal, env: Env, c: Call): Result<Plan, WorkflowError> {
    match c.command
    case Revise(content, versionId) => PlanRevise(seen, env, c, content, versionId)
    case RecordAnalysis(riskId, scenarioId, analysisId) => PlanAnalysis(seen, env, c, riskId, scenarioId, analysisId)
    case Submit => PlanSubmit(seen, env, c)
    case StartReview => PlanTransition(seen, env, c, BeginReview, {Submitted}, UnderReview, ReviewStart, None, false)
    case RecordReview(recommendation, comment, reviewId) => PlanReview(seen, env, c, recommendation, comment, reviewId)
    case RequestChanges(text) =>
      var reason :- RequiredReason(text);
      PlanTransition(seen, env, c, AskForChanges, {Submitted, UnderReview}, ChangesRequested, ChangeRequest,
                     Some(reason), false)
    case Approve(text) => PlanApprove(seen, env, c, text)
    case Reject(text) =>
      var reason :- RequiredReason(text);
      PlanTransition(seen, env, c, RejectProposal, {UnderReview}, Rejected, Rejection, Some(reason), true)
    case Withdraw(text) => PlanWithdraw(seen, env, c, text)
  }

  // ---------------------------------------------------------------- the compare-and-set

  /** Whether the store's unique keys refuse the rows that go with a change. */
  predicate Clashes(db: Proposal, w: Change) {
    || (w.version.Some? && exists i | 0 <= i < |db.versions| ::
          db.versions[i].id == w.version.value.id || db.versions[i].number == w.version.value.number)
    || (w.analysis.Some? && exists i | 0 <= i < |db.analyses| ::
          || db.analyses[i].id == w.analysis.value.id
          || (db.analyses[i].versionId == w.analysis.value.versionId && db.analyses[i].riskId == w.analysis.value.riskId
              && db.analyses[i].scenarioId == w.analysis.value.scenarioId))
    || (w.review.Some? && exists i | 0 <= i < |db.reviews| :: db.reviews[i].id == w.review.value.id)
  }

  function Added<T>(rows: seq<T>, x: Option<T>): seq<T> {
    if x.Some? then rows + [x.value] else rows
  }

  function TransitionOf(w: Change, c: Call): Transition {
    Transition(w.versionId, w.action, Some(w.from), w.status, c.actor, w.role, w.reason, w.provenance, c.at,
               c.expected + 1)
  }

  function Applied(db: Proposal, w: Change, c: Call): Proposal {
    Proposal(
      db.fundId, db.createdBy, w.status, w.currentVersion, c.expected + 1, c.at,
      Added(db.versions, w.version),
      Added(db.analyses, w.analysis),
      Added(db.reviews, w.review),
      db.transitions + [TransitionOf(w, c)])
  }

  /** The stored row is compared with the caller's expected version, never with the version that was read. */
  function Advance(db: Proposal, seen: Proposal, w: Change, c: Call): Result<Proposal, WorkflowError> {
    if c.at < seen.updatedAt then Failure(InvalidWorkflowTransition)
    else if db.rowVersion != c.expected then Failure(ConcurrentProposalUpdate)
    else if Clashes(db, w) then Failure(KeyAlreadyUsed)
    else Success(Applied(db, w, c))
  }

  datatype Outcome = Changed | Existing(analysis: Analysis)

  /** A command that read `seen` and writes to `db`. */
  function Execute(db: Proposal, seen: Proposal, env: Env, c: Call): (Proposal, Result<Outcome, WorkflowError>) {
    Finish(db, seen, MakePlan(seen, env, c), c)
  }

  function Finish(db: Proposal, seen: Proposal, plan: Result<Plan, WorkflowError>, c: Call)
    : (Proposal, Result<Outcome, WorkflowError>)
  {
    match plan
    case Failure(e) => (db, Failure(e))
    case Success(AlreadyBound(a)) => (db, Success(Existing(a)))
    case Success(Write(w)) =>
      var next := Advance(db, seen, w, c);
      if next.Failure? then (db, Failure(next.error)) else (next.value, Success(Changed))
  }

  function Create(fundId: Id, actor: Id, content: Content, at: Instant, versionId: Id, env: Env)
    : Result<Proposal, WorkflowError>
  {
    var role := Require(env.staff, actor, fundId, CreateProposal);
    if role.None? then Failure(AuthorizationDenied)
    else if !ContentAccepted(content) then Failure(InvalidWorkflowTransition)
    else
      var v := Version(versionId, 1, content, actor, at, None);
      var t := Transition(versionId, Creation, None, Draft, actor, role.value, None, OfContent(content), at, 1);
      Success(Proposal(fundId, actor, Draft, 1, 1, at, [v], [], [], [t]))
  }
}
