/** What every command of the proposal workflow keeps true of the proposal and its recorded history. */
module WorkflowHistory {
  import opened Wrappers
  import opened LedgerTypes
  import opened Text
  import opened Authorization
  import opened Governance

  // ---------------------------------------------------------------- what a planned write looks like

  /** The status changes the workflow allows. */
  predicate Edge(from: Status, action: WorkflowAction, to: Status) {
    match action
    case Creation => false
    case Revision => (from.Draft? || from.ChangesRequested?) && to.Draft?
    case Binding => from.Draft? && to.Draft?
    case Submission => from.Draft? && to.Submitted?
    case ReviewStart => from.Submitted? && to.UnderReview?
    case Reviewing => (from.Submitted? || from.UnderReview?) && to == from
    case ChangeRequest => (from.Submitted? || from.UnderReview?) && to.ChangesRequested?
    case Approval => from.UnderReview? && to.Approved?
    case Rejection => from.UnderReview? && to.Rejected?
    case Withdrawal => (from.Draft? || from.Submitted? || from.ChangesRequested?) && to.Withdrawn?
  }

  predicate Terminal(s: Status) {
    s.Approved? || s.Rejected? || s.Withdrawn?
  }

  predicate Decides(p: Proposal, library: Library, versionId: Id, w: Change) {
    && w.provenance.OfDecision?
    && LatestAnalysis(p.analyses, versionId) == Some(w.provenance.basis)
    && Clear(library, w.provenance.basis)
  }

  /** The version that a revision writes, with the content asked for. */
  predicate Revises(p: Proposal, v: Version, w: Change, c: Call) {
    && w.version.Some? && c.command.Revise?
    && w.version.value == Version(w.versionId, p.currentVersion + 1, c.command.content, c.actor, c.at, Some(v.id))
    && ContentAccepted(c.command.content) && c.actor == p.createdBy
    && w.currentVersion == p.currentVersion + 1
  }

  /** The analysis that a binding writes: evidence of the proposal's fund at the version's own cutoff. */
  predicate Binds(p: Proposal, library: Library, v: Version, w: Change, c: Call) {
    && w.analysis.Some? && c.command.RecordAnalysis?
    && w.analysis.value == Analysis(c.command.analysisId, v.id, c.command.riskId, c.command.scenarioId, c.actor, c.at)
    && RiskMatches(library, c.command.riskId, p.fundId, v.content.portfolioAsOf)
    && ScenarioMatches(library, c.command.scenarioId, p.fundId, v.content.portfolioAsOf)
  }

  predicate NeedsReason(action: WorkflowAction) {
    action.ChangeRequest? || action.Rejection? || action.Withdrawal? || action.Reviewing?
  }

  /** The rows that come with each action, and the grounds a decision must have. */
  predicate Grounds(p: Proposal, library: Library, v: Version, w: Change, c: Call) {
    && (if w.action.Revision? then Revises(p, v, w, c)
        else w.version.None? && w.currentVersion == p.currentVersion && w.versionId == v.id)
    && (if w.action.Binding? then Binds(p, library, v, w, c) else w.analysis.None?)
    && (if w.action.Reviewing? then
          && w.review.Some? && w.review.value.versionId == v.id
          && w.review.value.reviewer == c.actor && w.review.value.role == w.role
        else w.review.None?)
    && (NeedsReason(w.action) ==> w.reason.Some? && !Blank(w.reason.value))
    && (w.action.Submission? ==> Decides(p, library, v.id, w) && c.actor == p.createdBy)
    && (w.action.Approval? ==>
          && Decides(p, library, v.id, w) && w.role.Manager? && c.actor != p.createdBy
          && exists r :: r in p.reviews && r.versionId == v.id)
  }

  predicate Legal(p: Proposal, library: Library, w: Change, c: Call) {
    var v := VersionNumbered(p.versions, p.currentVersion);
    && v.Some?
    && w.from == p.status && Edge(p.status, w.action, w.status)
    && Grounds(p, library, v.value, w, c)
  }

  /** Every write that a command plans is legal for what it read. */
  lemma PlansAreLegal(p: Proposal, env: Env, c: Call)
    requires MakePlan(p, env, c).Success? && MakePlan(p, env, c).value.Write?
    ensures Legal(p, env.library, MakePlan(p, env, c).value.change, c)
  {
    match c.command
    case Revise(content, versionId) => ReviseIsLegal(p, env, c, content, versionId);
    case RecordAnalysis(riskId, scenarioId, analysisId) => AnalysisIsLegal(p, env, c, riskId, scenarioId, analysisId);
    case Submit => SubmitIsLegal(p, env, c);
    case RecordReview(recommendation, comment, reviewId) => ReviewIsLegal(p, env, c, recommendation, comment, reviewId);
    case Approve(text) => ApproveIsLegal(p, env, c, text);
    case StartReview =>
    case RequestChanges(_) =>
    case Reject(_) =>
    case Withdraw(_) =>
  }

  lemma ReviseIsLegal(p: Proposal, env: Env, c: Call, content: Content, versionId: Id)
    requires c.command == Revise(content, versionId)
    ensures var plan := PlanRevise(p, env, c, content, versionId);
            plan.Success? ==> plan.value.Write? && Legal(p, env.library, plan.value.change, c)
  {
  }

  lemma AnalysisIsLegal(p: Proposal, env: Env, c: Call, riskId: Id, scenarioId: Option<Id>, analysisId: Id)
    requires c.command == RecordAnalysis(riskId, scenarioId, analysisId)
    ensures var plan := PlanAnalysis(p, env, c, riskId, scenarioId, analysisId);
            plan.Success? && plan.value.Write? ==> Legal(p, env.library, plan.value.change, c)
  {
  }

  lemma SubmitIsLegal(p: Proposal, env: Env, c: Call)
    ensures var plan := PlanSubmit(p, env, c);
            plan.Success? ==> plan.value.Write? && Legal(p, env.library, plan.value.change, c)
  {
  }

  lemma ReviewIsLegal(p: Proposal, env: Env, c: Call, recommendation: Recommendation, comment: string, reviewId: Id)
    ensures var plan := PlanReview(p, env, c, recommendation, comment, reviewId);
            plan.Success? ==> plan.value.Write? && Legal(p, env.library, plan.value.change, c)
  {
  }

  lemma ApproveIsLegal(p: Proposal, env: Env, c: Call, reason: string)
    ensures var plan := PlanApprove(p, env, c, reason);
            plan.Success? ==> plan.value.Write? && Legal(p, env.library, plan.value.change, c)
  {
  }

  /** A command with nothing in between its read and its write. */
  function Step(p: Proposal, env: Env, c: Call): Proposal {
    Execute(p, p, env, c).0
  }

  /** The circumstances of a write that went through. */
  predicate Writes(p: Proposal, library: Library, w: Change, c: Call) {
    && Legal(p, library, w, c)
    && c.expected == p.rowVersion && c.at >= p.updatedAt && !Clashes(p, w)
  }

  /** A command leaves the proposal alone or makes one legal write. */
  lemma StepIsLegal(p: Proposal, env: Env, c: Call)
    ensures
      || Step(p, env, c) == p
      || (var plan := MakePlan(p, env, c);
          && plan.Success? && plan.value.Write? && Writes(p, env.library, plan.value.change, c)
          && Step(p, env, c) == Applied(p, plan.value.change, c))
  {
    var plan := MakePlan(p, env, c);
    if plan.Success? && plan.value.Write? {
      PlansAreLegal(p, env, c);
    }
  }

  function PermissionFor(c: Command): Permission {
    match c
    case Revise(_, _) => ReviseProposal
    case RecordAnalysis(_, _, _) => BindAnalysis
    case Submit => SubmitProposal
    case StartReview => BeginReview
    case RecordReview(_, _, _) => GiveReview
    case RequestChanges(_) => AskForChanges
    case Approve(_) => ApproveProposal
    case Reject(_) => RejectProposal
    case Withdraw(_) => WithdrawProposal
  }

  /**
   * No command changes a proposal unless its actor is active and holds, in the proposal's fund, the role the
   * history records; authors alone revise, submit and withdraw, and never decide.
   */
  lemma ChangesAreAuthorized(db: Proposal, seen: Proposal, env: Env, c: Call)
    requires Execute(db, seen, env, c).0 != db
    ensures var ts := Execute(db, seen, env, c).0.transitions;
            && ts != [] && ts[|ts| - 1].actor == c.actor
            && Authorized(env.staff, c.actor, seen.fundId, PermissionFor(c.command), ts[|ts| - 1].role)
    ensures c.command.Revise? || c.command.Submit? || c.command.Withdraw? ==> c.actor == seen.createdBy
    ensures c.command.Approve? || c.command.Reject? ==> c.actor != seen.createdBy
  {
    var plan := MakePlan(seen, env, c);
    assert plan.Success? && plan.value.Write?;
    PlanIsAuthorized(seen, env, c);
  }

  lemma PlanIsAuthorized(seen: Proposal, env: Env, c: Call)
    requires MakePlan(seen, env, c).Success? && MakePlan(seen, env, c).value.Write?
    ensures Authorized(env.staff, c.actor, seen.fundId, PermissionFor(c.command),
                       MakePlan(seen, env, c).value.change.role)
    ensures c.command.Revise? || c.command.Submit? || c.command.Withdraw? ==> c.actor == seen.createdBy
    ensures c.command.Approve? || c.command.Reject? ==> c.actor != seen.createdBy
  {
    match c.command
    case Revise(_, _) =>
    case RecordAnalysis(_, _, _) =>
    case Submit =>
    case StartReview =>
    case RecordReview(_, _, _) =>
    case RequestChanges(_) =>
    case Approve(_) =>
    case Reject(_) =>
    case Withdraw(_) =>
  }

  /** The database trigger on updates of the row: same identity, no lower content version, next row version. */
  predicate TriggerAllows(db: Proposal, next: Proposal) {
    && next.fundId == db.fundId && next.createdBy == db.createdBy
    && next.currentVersion >= db.currentVersion && next.rowVersion == db.rowVersion + 1
  }

  /** A write decided on the row it overwrites always passes the trigger. */
  lemma StepPassesTrigger(p: Proposal, env: Env, c: Call)
    ensures Step(p, env, c) == p || TriggerAllows(p, Step(p, env, c))
  {
    StepIsLegal(p, env, c);
  }

  // ---------------------------------------------------------------- the history

  /** `row_version` counts the recorded transitions, which carry 1, 2, ... */
  ghost predicate Numbered(p: Proposal) {
    && p.rowVersion == |p.transitions| > 0
    && forall i | 0 <= i < |p.transitions| :: p.transitions[i].resultingRowVersion == i + 1
  }

  /** Each transition starts where the one before it ended, along an allowed edge. */
  ghost predicate Connected(p: Proposal) {
    var ts := p.transitions;
    && |ts| > 0 && ts[|ts| - 1].to == p.status
    && ts[0].action.Creation? && ts[0].from.None? && ts[0].to.Draft?
    && forall i | 0 < i < |ts| :: ts[i].from == Some(ts[i - 1].to) && Edge(ts[i - 1].to, ts[i].action, ts[i].to)
  }

  ghost predicate Timed(p: Proposal) {
    var ts := p.transitions;
    && |ts| > 0 && ts[|ts| - 1].occurredAt == p.updatedAt
    && forall i, j | 0 <= i <= j < |ts| :: ts[i].occurredAt <= ts[j].occurredAt
  }

  lemma HistoryGrows(p: Proposal, library: Library, w: Change, c: Call)
    requires Writes(p, library, w, c)
    requires Numbered(p) && Connected(p) && Timed(p)
    ensures var q := Applied(p, w, c); Numbered(q) && Connected(q) && Timed(q)
  {
  }

  function Revisions(ts: seq<Transition>): nat {
    if ts == [] then 0 else Revisions(ts[..|ts| - 1]) + (if ts[|ts| - 1].action.Revision? then 1 else 0)
  }

  predicate FollowsLast(versions: seq<Version>, i: nat)
    requires i < |versions|
  {
    if i == 0 then versions[i].supersedes.None? else versions[i].supersedes == Some(versions[i - 1].id)
  }

  /** Versions numbered 1, 2, ... with ids of their own, each superseding the one before. */
  ghost predicate VersionChain(versions: seq<Version>) {
    && (forall i | 0 <= i < |versions| :: versions[i].number == i + 1)
    && (forall i, j | 0 <= i < j < |versions| :: versions[i].id != versions[j].id)
    && (forall i | 0 <= i < |versions| :: FollowsLast(versions, i))
  }

  /** The versions form a chain, one longer than the revisions made; the current one is the last. */
  ghost predicate Versioned(p: Proposal) {
    p.currentVersion == |p.versions| == 1 + Revisions(p.transitions) && VersionChain(p.versions)
  }

  lemma CurrentIsLast(p: Proposal)
    requires Versioned(p)
    ensures VersionNumbered(p.versions, p.currentVersion) == Some(p.versions[|p.versions| - 1])
  {
    var v := VersionNumbered(p.versions, p.currentVersion);
    assert p.versions[|p.versions| - 1] in p.versions;
    var i :| 0 <= i < |p.versions| && p.versions[i] == v.value;
  }

  lemma VersionsGrow(p: Proposal, library: Library, w: Change, c: Call)
    requires Writes(p, library, w, c) && Versioned(p)
    ensures Versioned(Applied(p, w, c))
  {
    var q := Applied(p, w, c);
    CurrentIsLast(p);
    assert q.transitions[..|p.transitions|] == p.transitions;
    assert Revisions(q.transitions) == Revisions(p.transitions) + (if w.action.Revision? then 1 else 0);
    if w.action.Revision? {
      OneMoreVersion(p.versions, w.version.value);
      assert q.versions == p.versions + [w.version.value];
    } else {
      assert q.versions == p.versions;
    }
  }

  lemma OneMoreVersion(versions: seq<Version>, v: Version)
    requires VersionChain(versions) && versions != []
    requires v.number == |versions| + 1 && v.supersedes == Some(versions[|versions| - 1].id)
    requires forall i | 0 <= i < |versions| :: versions[i].id != v.id
    ensures VersionChain(versions + [v])
  {
    var more := versions + [v];
    forall i | 0 <= i < |more|
      ensures FollowsLast(more, i)
    {
      assert i < |versions| ==> FollowsLast(versions, i);
    }
  }

  /** Transition `i` names the version that was current once it was made. */
  predicate NamesCurrent(ts: seq<Transition>, versions: seq<Version>, i: nat)
    requires i < |ts|
  {
    Revisions(ts[..i + 1]) < |versions| && ts[i].versionId == versions[Revisions(ts[..i + 1])].id
  }

  ghost predicate VersionInForce(p: Proposal) {
    forall i | 0 <= i < |p.transitions| :: NamesCurrent(p.transitions, p.versions, i)
  }

  lemma NamesCurrentStays(ts: seq<Transition>, versions: seq<Version>, longer: seq<Transition>, more: seq<Version>,
                          i: nat)
    requires i < |ts| && NamesCurrent(ts, versions, i) && ts <= longer && versions <= more
    ensures NamesCurrent(longer, more, i)
  {
    assert longer[..i + 1] == ts[..i + 1];
  }

  lemma LastNamesLatest(p: Proposal, library: Library, w: Change, c: Call)
    requires Writes(p, library, w, c) && Versioned(p)
    ensures var q := Applied(p, w, c); NamesCurrent(q.transitions, q.versions, |p.transitions|)
  {
    var q := Applied(p, w, c);
    CurrentIsLast(p);
    VersionsGrow(p, library, w, c);
    assert q.transitions[..|p.transitions| + 1] == q.transitions;
  }

  lemma VersionsStayInForce(p: Proposal, library: Library, w: Change, c: Call)
    requires Writes(p, library, w, c) && Versioned(p) && VersionInForce(p)
    ensures VersionInForce(Applied(p, w, c))
  {
    var q := Applied(p, w, c);
    forall i | 0 <= i < |q.transitions|
      ensures NamesCurrent(q.transitions, q.versions, i)
    {
      if i < |p.transitions| {
        NamesCurrentStays(p.transitions, p.versions, q.transitions, q.versions, i);
      } else {
        LastNamesLatest(p, library, w, c);
      }
    }
  }

  // ---------------------------------------------------------------- what is decided

  function CurrentId(p: Proposal): Id {
    if p.versions == [] then 0 else p.versions[|p.versions| - 1].id
  }

  ghost predicate SingleSubmissions(ts: seq<Transition>) {
    forall i, j | 0 <= i < j < |ts| && ts[i].action.Submission? && ts[j].action.Submission? ::
        ts[i].versionId != ts[j].versionId
  }

  ghost predicate SubmittedOnce(p: Proposal) {
    SingleSubmissions(p.transitions)
  }

  ghost predicate NamesVersions(p: Proposal) {
    forall i | 0 <= i < |p.transitions| ::
      exists k :: 0 <= k < |p.versions| && p.versions[k].id == p.transitions[i].versionId
  }

  ghost predicate Unsubmitted(ts: seq<Transition>, versionId: Id) {
    forall i | 0 <= i < |ts| && ts[i].action.Submission? :: ts[i].versionId != versionId
  }

  /** A draft has not been submitted yet in its current version. */
  ghost predicate DraftIsUnsubmitted(p: Proposal) {
    p.status.Draft? ==> Unsubmitted(p.transitions, CurrentId(p))
  }

  lemma NewVersionIsUnsubmitted(p: Proposal, versionId: Id)
    requires NamesVersions(p) && forall k | 0 <= k < |p.versions| :: p.versions[k].id != versionId
    ensures Unsubmitted(p.transitions, versionId)
  {
    forall i | 0 <= i < |p.transitions|
      ensures p.transitions[i].versionId != versionId
    {
      var k :| 0 <= k < |p.versions| && p.versions[k].id == p.transitions[i].versionId;
    }
  }

  lemma NamesStay(p: Proposal, library: Library, w: Change, c: Call)
    requires Writes(p, library, w, c) && Versioned(p) && NamesVersions(p)
    ensures NamesVersions(Applied(p, w, c))
  {
    var q := Applied(p, w, c);
    CurrentIsLast(p);
    forall i | 0 <= i < |q.transitions|
      ensures exists k :: 0 <= k < |q.versions| && q.versions[k].id == q.transitions[i].versionId
    {
      if i < |p.transitions| {
        var k :| 0 <= k < |p.versions| && p.versions[k].id == p.transitions[i].versionId;
        assert q.versions[k].id == q.transitions[i].versionId;
      } else {
        assert q.versions[|q.versions| - 1].id == q.transitions[i].versionId;
      }
    }
  }

  lemma SubmissionsStaySingle(p: Proposal, library: Library, w: Change, c: Call)
    requires Writes(p, library, w, c) && Versioned(p)
    requires SubmittedOnce(p) && DraftIsUnsubmitted(p)
    ensures SubmittedOnce(Applied(p, w, c))
  {
    CurrentIsLast(p);
    OneMoreSubmission(p.transitions, TransitionOf(w, c));
  }

  lemma OneMoreSubmission(ts: seq<Transition>, t: Transition)
    requires SingleSubmissions(ts) && (t.action.Submission? ==> Unsubmitted(ts, t.versionId))
    ensures SingleSubmissions(ts + [t])
  {
  }

  lemma DraftsStayUnsubmitted(p: Proposal, library: Library, w: Change, c: Call)
    requires Writes(p, library, w, c) && Versioned(p) && NamesVersions(p) && DraftIsUnsubmitted(p)
    ensures DraftIsUnsubmitted(Applied(p, w, c))
  {
    CurrentIsLast(p);
    if w.action.Revision? {
      NewVersionIsUnsubmitted(p, w.versionId);
    }
  }

  /** The status is one that a submission leads to. */
  predicate AfterSubmission(s: Status) {
    s.Submitted? || s.UnderReview? || s.ChangesRequested? || s.Approved? || s.Rejected?
  }

  predicate IsSubmissionOf(t: Transition, versionId: Id) {
    t.action.Submission? && t.versionId == versionId && t.provenance.OfDecision?
  }

  /** From submission to decision, the version and its latest analysis are those that were submitted. */
  ghost predicate Held(p: Proposal, library: Library, s: nat)
    requires s < |p.transitions|
  {
    && IsSubmissionOf(p.transitions[s], CurrentId(p))
    && LatestAnalysis(p.analyses, CurrentId(p)) == Some(p.transitions[s].provenance.basis)
    && Clear(library, p.transitions[s].provenance.basis)
  }

  ghost predicate SubmissionHolds(p: Proposal, library: Library) {
    AfterSubmission(p.status) ==> exists s :: 0 <= s < |p.transitions| && Held(p, library, s)
  }

  lemma SubmissionStaysHeld(p: Proposal, library: Library, w: Change, c: Call)
    requires Writes(p, library, w, c) && Versioned(p) && SubmissionHolds(p, library)
    ensures SubmissionHolds(Applied(p, w, c), library)
  {
    var q := Applied(p, w, c);
    CurrentIsLast(p);
    if w.action.Submission? {
      assert Held(q, library, |p.transitions|);
    } else if AfterSubmission(q.status) {
      var s :| 0 <= s < |p.transitions| && Held(p, library, s);
      assert Held(q, library, s);
    }
  }

  // ---------------------------------------------------------------- approvals

  predicate IsReviewOf(t: Transition, versionId: Id) {
    t.action.Reviewing? && t.versionId == versionId
  }

  ghost predicate HasReview(ts: seq<Transition>, versionId: Id) {
    exists i :: 0 <= i < |ts| && IsReviewOf(ts[i], versionId)
  }

  ghost predicate ReviewsRecorded(p: Proposal) {
    forall r | r in p.reviews :: HasReview(p.transitions, r.versionId)
  }

  ghost predicate ReviewsFollowSubmission(p: Proposal) {
    forall i | 0 <= i < |p.transitions| && p.transitions[i].action.Reviewing? ::
      exists s :: 0 <= s < i && IsSubmissionOf(p.transitions[s], p.transitions[i].versionId)
  }

  lemma ReviewsStayRecorded(p: Proposal, library: Library, w: Change, c: Call)
    requires Writes(p, library, w, c) && ReviewsRecorded(p)
    ensures ReviewsRecorded(Applied(p, w, c))
  {
    var q := Applied(p, w, c);
    forall r | r in q.reviews
      ensures HasReview(q.transitions, r.versionId)
    {
      if r in p.reviews {
        var i :| 0 <= i < |p.transitions| && IsReviewOf(p.transitions[i], r.versionId);
        assert IsReviewOf(q.transitions[i], r.versionId);
      } else {
        assert IsReviewOf(q.transitions[|p.transitions|], r.versionId);
      }
    }
  }

  lemma ReviewsStayAfterSubmission(p: Proposal, library: Library, w: Change, c: Call)
    requires Writes(p, library, w, c) && Versioned(p) && SubmissionHolds(p, library) && ReviewsFollowSubmission(p)
    ensures ReviewsFollowSubmission(Applied(p, w, c))
  {
    var q := Applied(p, w, c);
    CurrentIsLast(p);
    forall i | 0 <= i < |q.transitions| && q.transitions[i].action.Reviewing?
      ensures exists s :: 0 <= s < i && IsSubmissionOf(q.transitions[s], q.transitions[i].versionId)
    {
      if i < |p.transitions| {
        var s :| 0 <= s < i && IsSubmissionOf(p.transitions[s], p.transitions[i].versionId);
        assert IsSubmissionOf(q.transitions[s], q.transitions[i].versionId);
      } else {
        var s :| 0 <= s < |p.transitions| && Held(p, library, s);
        assert IsSubmissionOf(q.transitions[s], q.transitions[i].versionId);
      }
    }
  }

  /**
   * An approval rests on the submission at `s` and the review at `i`: the same version, the same analysis,
   * submitted by the author and approved by a manager who is not the author.
   */
  predicate RestsOn(p: Proposal, n: nat, s: nat, i: nat)
    requires s < i < n < |p.transitions|
  {
    var ts := p.transitions;
    && IsSubmissionOf(ts[s], ts[n].versionId)
    && IsReviewOf(ts[i], ts[n].versionId)
    && ts[n].provenance.OfDecision? && ts[n].provenance.basis == ts[s].provenance.basis
    && ts[n].role.Manager? && ts[n].actor != p.createdBy
  }

  ghost predicate ApprovalsRest(p: Proposal) {
    forall n | 0 <= n < |p.transitions| && p.transitions[n].action.Approval? ::
      exists s, i :: 0 <= s < i < n && RestsOn(p, n, s, i)
  }

  lemma ReviewAfterSubmission(p: Proposal, versionId: Id, s: nat) returns (i: nat)
    requires ReviewsRecorded(p) && ReviewsFollowSubmission(p) && SubmittedOnce(p)
    requires s < |p.transitions| && IsSubmissionOf(p.transitions[s], versionId)
    requires exists r :: r in p.reviews && r.versionId == versionId
    ensures s < i < |p.transitions| && IsReviewOf(p.transitions[i], versionId)
  {
    assert HasReview(p.transitions, versionId);
    i :| 0 <= i < |p.transitions| && IsReviewOf(p.transitions[i], versionId);
    SubmissionPrecedes(p, s, i);
  }

  lemma SubmissionPrecedes(p: Proposal, s: nat, i: nat)
    requires ReviewsFollowSubmission(p) && SubmittedOnce(p)
    requires s < |p.transitions| && i < |p.transitions|
    requires IsSubmissionOf(p.transitions[s], p.transitions[i].versionId) && p.transitions[i].action.Reviewing?
    ensures s < i
  {
    var before :| 0 <= before < i && IsSubmissionOf(p.transitions[before], p.transitions[i].versionId);
    assert !(before < s) && !(s < before);
  }

  lemma ApprovalRests(p: Proposal, library: Library, w: Change, c: Call)
    requires Writes(p, library, w, c) && w.action.Approval?
    requires Versioned(p) && SubmissionHolds(p, library)
    requires ReviewsRecorded(p) && ReviewsFollowSubmission(p) && SubmittedOnce(p)
    ensures exists s, i :: 0 <= s < i < |p.transitions| && RestsOn(Applied(p, w, c), |p.transitions|, s, i)
  {
    CurrentIsLast(p);
    var s :| 0 <= s < |p.transitions| && Held(p, library, s);
    var i := ReviewAfterSubmission(p, CurrentId(p), s);
    assert RestsOn(Applied(p, w, c), |p.transitions|, s, i);
  }

  lemma StillRestsOn(p: Proposal, q: Proposal, n: nat, s: nat, i: nat)
    requires s < i < n < |p.transitions| && RestsOn(p, n, s, i)
    requires p.transitions <= q.transitions && q.createdBy == p.createdBy
    ensures RestsOn(q, n, s, i)
  {
  }

  lemma EarlierApprovalsRest(p: Proposal, q: Proposal, n: nat)
    requires ApprovalsRest(p) && p.transitions <= q.transitions && q.createdBy == p.createdBy
    requires n < |p.transitions| && q.transitions[n].action.Approval?
    ensures exists s, i :: 0 <= s < i < n && RestsOn(q, n, s, i)
  {
    var s, i :| 0 <= s < i < n && RestsOn(p, n, s, i);
    StillRestsOn(p, q, n, s, i);
  }

  lemma ApprovalsStayRested(p: Proposal, library: Library, w: Change, c: Call)
    requires Writes(p, library, w, c)
    requires Versioned(p) && SubmissionHolds(p, library)
    requires ReviewsRecorded(p) && ReviewsFollowSubmission(p) && SubmittedOnce(p)
    requires ApprovalsRest(p)
    ensures ApprovalsRest(Applied(p, w, c))
  {
    var q := Applied(p, w, c);
    assert p.transitions <= q.transitions && |q.transitions| == |p.transitions| + 1;
    forall n | 0 <= n < |q.transitions| && q.transitions[n].action.Approval?
      ensures exists s, i :: 0 <= s < i < n && RestsOn(q, n, s, i)
    {
      if n < |p.transitions| {
        EarlierApprovalsRest(p, q, n);
      } else {
        ApprovalRests(p, library, w, c);
      }
    }
  }

  // ---------------------------------------------------------------- contents and evidence

  /** Every stored version has acceptable content, written by the author. */
  ghost predicate ContentsAccepted(p: Proposal) {
    forall v | v in p.versions :: ContentAccepted(v.content) && v.createdBy == p.createdBy
  }

  predicate Supports(p: Proposal, library: Library, a: Analysis, v: Version) {
    && v.id == a.versionId
    && RiskMatches(library, a.riskId, p.fundId, v.content.portfolioAsOf)
    && ScenarioMatches(library, a.scenarioId, p.fundId, v.content.portfolioAsOf)
  }

  /** Every analysis is bound to a version whose fund and cutoff its evidence shares. */
  ghost predicate EvidenceFits(p: Proposal, library: Library) {
    forall a | a in p.analyses :: exists v :: v in p.versions && Supports(p, library, a, v)
  }

  /** Rejections, withdrawals, change requests and reviews come with words. */
  ghost predicate ReasonsGiven(p: Proposal) {
    forall t | t in p.transitions && NeedsReason(t.action) :: t.reason.Some? && !Blank(t.reason.value)
  }

  lemma ContentsStayAccepted(p: Proposal, library: Library, w: Change, c: Call)
    requires Writes(p, library, w, c) && ContentsAccepted(p) && ReasonsGiven(p)
    ensures ContentsAccepted(Applied(p, w, c)) && ReasonsGiven(Applied(p, w, c))
  {
  }

  lemma EvidenceStaysFitting(p: Proposal, library: Library, w: Change, c: Call)
    requires Writes(p, library, w, c) && EvidenceFits(p, library)
    ensures EvidenceFits(Applied(p, w, c), library)
  {
    var q := Applied(p, w, c);
    forall a | a in q.analyses
      ensures exists v :: v in q.versions && Supports(q, library, a, v)
    {
      if a in p.analyses {
        var v :| v in p.versions && Supports(p, library, a, v);
        assert v in q.versions && Supports(q, library, a, v);
      } else {
        var v := VersionNumbered(p.versions, p.currentVersion).value;
        assert v in q.versions && Supports(q, library, a, v);
      }
    }
  }

  lemma StillSupports(p: Proposal, library: Library, later: Library, a: Analysis, v: Version)
    requires Supports(p, library, a, v) && Extends(library, later)
    ensures Supports(p, later, a, v)
  {
    if a.scenarioId.Some? {
      var k: Id := a.scenarioId.value;
      assert k in library.scenarios && later.scenarios[k] == library.scenarios[k];
    }
  }

  lemma LaterEvidenceFits(p: Proposal, library: Library, later: Library)
    requires EvidenceFits(p, library) && Extends(library, later)
    ensures EvidenceFits(p, later)
  {
    forall a | a in p.analyses
      ensures exists v :: v in p.versions && Supports(p, later, a, v)
    {
      var v :| v in p.versions && Supports(p, library, a, v);
      StillSupports(p, library, later, a, v);
    }
  }

  // ---------------------------------------------------------------- the invariant

  ghost predicate Inv(p: Proposal, library: Library) {
    && Numbered(p) && Connected(p) && Timed(p)
    && Versioned(p) && VersionInForce(p) && NamesVersions(p)
    && SubmittedOnce(p) && DraftIsUnsubmitted(p) && SubmissionHolds(p, library)
    && ReviewsRecorded(p) && ReviewsFollowSubmission(p) && ApprovalsRest(p)
    && ContentsAccepted(p) && EvidenceFits(p, library) && ReasonsGiven(p)
  }

  /** Stored evidence is only ever added to. */
  ghost predicate Extends(library: Library, later: Library) {
    && (forall k | k in library.risks :: k in later.risks && later.risks[k] == library.risks[k])
    && (forall k | k in library.scenarios :: k in later.scenarios && later.scenarios[k] == library.scenarios[k])
  }

  lemma LaterEvidenceKeepsInv(p: Proposal, library: Library, later: Library)
    requires Inv(p, library) && Extends(library, later)
    ensures Inv(p, later)
  {
    LaterEvidenceFits(p, library, later);
    LaterEvidenceHolds(p, library, later);
  }

  lemma LaterEvidenceHolds(p: Proposal, library: Library, later: Library)
    requires SubmissionHolds(p, library) && Extends(library, later)
    ensures SubmissionHolds(p, later)
  {
    if AfterSubmission(p.status) {
      var s :| 0 <= s < |p.transitions| && Held(p, library, s);
      StaysClear(library, later, p.transitions[s].provenance.basis);
      assert Held(p, later, s);
    }
  }

  lemma StaysClear(library: Library, later: Library, a: Analysis)
    requires Clear(library, a) && Extends(library, later)
    ensures Clear(later, a)
  {
  }

  lemma WriteKeepsInv(p: Proposal, library: Library, w: Change, c: Call)
    requires Writes(p, library, w, c) && Inv(p, library)
    ensures Inv(Applied(p, w, c), library)
  {
    HistoryGrows(p, library, w, c);
    VersionsGrow(p, library, w, c);
    VersionsStayInForce(p, library, w, c);
    NamesStay(p, library, w, c);
    SubmissionsStaySingle(p, library, w, c);
    DraftsStayUnsubmitted(p, library, w, c);
    SubmissionStaysHeld(p, library, w, c);
    ReviewsStayRecorded(p, library, w, c);
    ReviewsStayAfterSubmission(p, library, w, c);
    ApprovalsStayRested(p, library, w, c);
    ContentsStayAccepted(p, library, w, c);
    EvidenceStaysFitting(p, library, w, c);
  }

  lemma StepKeepsInv(p: Proposal, env: Env, c: Call)
    requires Inv(p, env.library)
    ensures Inv(Step(p, env, c), env.library)
  {
    StepIsLegal(p, env, c);
    if Step(p, env, c) != p {
      WriteKeepsInv(p, env.library, MakePlan(p, env, c).value.change, c);
    }
  }

  lemma CreationStartsInv(fundId: Id, actor: Id, content: Content, at: Instant, versionId: Id, env: Env)
    requires Create(fundId, actor, content, at, versionId, env).Success?
    ensures Inv(Create(fundId, actor, content, at, versionId, env).value, env.library)
  {
    var p := Create(fundId, actor, content, at, versionId, env).value;
    assert p.transitions[..1] == p.transitions;
    assert p.versions[0].id == p.transitions[0].versionId;
  }
}
