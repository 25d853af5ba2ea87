/** What each proposal command needs, reports and writes, in the fields of the command, the staff and the evidence. */
module WorkflowFields {
  import opened Wrappers
  import opened Sorting
  import opened LedgerTypes
  import opened Text
  import opened Authorization
  import opened Governance
  import opened WorkflowHistory
  import opened WorkflowRuns

  // ---------------------------------------------------------------- who

  predicate HoldsCode(staff: map<Id, User>, actor: Id, fundId: Id, code: string) {
    actor in staff && staff[actor].active && (fundId, code) in staff[actor].roles
  }

  /** An active user who holds one of the role codes in the fund. */
  predicate HoldsOneOf(staff: map<Id, User>, actor: Id, fundId: Id, codes: set<string>) {
    exists code :: code in codes && HoldsCode(staff, actor, fundId, code)
  }

  /** The role codes that may give each command. */
  function CodesFor(c: Command): set<string> {
    match c
    case Revise(_, _) => {"analyst"}
    case RecordAnalysis(_, _, _) => {"analyst", "manager"}
    case Submit => {"analyst"}
    case StartReview => {"manager"}
    case RecordReview(_, _, _) => {"manager", "advisor"}
    case RequestChanges(_) => {"manager", "advisor"}
    case Approve(_) => {"manager"}
    case Reject(_) => {"manager"}
    case Withdraw(_) => {"analyst"}
  }

  lemma RoleByCode(staff: map<Id, User>, actor: Id, fundId: Id, c: Command, role: Role)
    ensures Authorized(staff, actor, fundId, PermissionFor(c), role) <==>
            Code(role) in CodesFor(c) && HoldsCode(staff, actor, fundId, Code(role))
  {
    assert "advisor"[1] == 'd' && "analyst"[1] == 'n' && "manager"[0] == 'm';
  }

  lemma RequiredByCode(staff: map<Id, User>, actor: Id, fundId: Id, c: Command)
    ensures Require(staff, actor, fundId, PermissionFor(c)).Some? <==>
            HoldsOneOf(staff, actor, fundId, CodesFor(c))
  {
    forall role
      ensures Authorized(staff, actor, fundId, PermissionFor(c), role) <==>
              Code(role) in CodesFor(c) && HoldsCode(staff, actor, fundId, Code(role))
    {
      RoleByCode(staff, actor, fundId, c, role);
    }
    if HoldsOneOf(staff, actor, fundId, CodesFor(c)) {
      var code :| code in CodesFor(c) && HoldsCode(staff, actor, fundId, code);
      assert code in {Code(Analyst), Code(Manager), Code(Advisor)};
    }
  }

  lemma CodesAreAlphabetical(a: Role, b: Role)
    requires Rank(a) <= Rank(b)
    ensures TextLe(Code(a), Code(b))
  {
    TextLeTotal(Code(a), Code(a));
    assert "advisor"[1..][0] == 'd' && "analyst"[1..][0] == 'n';
  }

  /** The role that is taken is the alphabetically first code among those held that may give the command. */
  lemma FirstCodeIsTaken(staff: map<Id, User>, actor: Id, fundId: Id, c: Command, role: Role, other: Role)
    requires Require(staff, actor, fundId, PermissionFor(c)) == Some(role)
    requires Code(other) in CodesFor(c) && HoldsCode(staff, actor, fundId, Code(other))
    ensures Code(role) in CodesFor(c) && HoldsCode(staff, actor, fundId, Code(role))
    ensures TextLe(Code(role), Code(other))
  {
    RoleByCode(staff, actor, fundId, c, other);
    RoleByCode(staff, actor, fundId, c, role);
    CodesAreAlphabetical(role, other);
  }

  // ---------------------------------------------------------------- with what

  /** The direction that a move between two weights has. */
  function DirectionOf(current: real, proposed: real): Direction {
    if proposed > current then BuyMore
    else if proposed == current then Hold
    else if proposed == 0.0 then Exit
    else SellSome
  }

  predicate LineFits(line: ProposalLine) {
    && 0.0 <= line.currentWeight <= 1.0 && 0.0 <= line.proposedWeight <= 1.0 && line.notional >= 0.0
    && line.direction == DirectionOf(line.currentWeight, line.proposedWeight)
    && !Blank(line.rationale)
  }

  /** Content as a proposal may carry it: every line moves its own instrument in the direction it states. */
  ghost predicate ContentFits(c: Content) {
    && !Blank(c.title) && !Blank(c.thesis) && |c.portfolioHash| == 64 && |c.lines| > 0
    && (forall line | line in c.lines :: LineFits(line))
    && (forall i, j | 0 <= i < |c.lines| && 0 <= j < |c.lines| && c.lines[i].instrumentId == c.lines[j].instrumentId ::
          i == j)
  }

  lemma AcceptedLineFits(line: ProposalLine)
    ensures LineAccepted(line) <==> LineFits(line)
  {
  }

  lemma AcceptedContentFits(c: Content)
    ensures ContentAccepted(c) <==> ContentFits(c)
  {
    forall line
      ensures LineAccepted(line) <==> LineFits(line)
    {
      AcceptedLineFits(line);
    }
    if ContentFits(c) {
      forall i | 0 <= i < |c.lines|
        ensures LineAccepted(c.lines[i])
      {
        assert c.lines[i] in c.lines;
      }
    }
  }

  /** The evaluation behind an analysis is stored, has results, and every blocking result passed. */
  ghost predicate EvidencePasses(library: Library, a: Analysis) {
    && a.riskId in library.risks
    && |library.risks[a.riskId].results| > 0
    && forall r | r in library.risks[a.riskId].results && r.severity == Blocking :: r.status == Pass
  }

  lemma ClearPasses(library: Library, a: Analysis)
    ensures Clear(library, a) <==> EvidencePasses(library, a)
  {
    if EvidencePasses(library, a) {
      forall i | 0 <= i < |library.risks[a.riskId].results|
        ensures library.risks[a.riskId].results[i].severity.Blocking? ==>
                  library.risks[a.riskId].results[i].status.Pass?
      {
        assert library.risks[a.riskId].results[i] in library.risks[a.riskId].results;
      }
    }
  }

  /** An analysis of the version that none recorded later, or then with a greater id, follows. */
  ghost predicate IsLatest(analyses: seq<Analysis>, versionId: Id, a: Analysis) {
    && a in analyses && a.versionId == versionId
    && forall b | b in analyses && b.versionId == versionId ::
         b.recordedAt < a.recordedAt || (b.recordedAt == a.recordedAt && b.id <= a.id)
  }

  lemma LatestIsLatest(analyses: seq<Analysis>, versionId: Id)
    ensures var r := LatestAnalysis(analyses, versionId);
            if r.Some? then IsLatest(analyses, versionId, r.value)
            else forall a | a in analyses :: a.versionId != versionId
  {
    var r := LatestAnalysis(analyses, versionId);
    if r.Some? {
      forall b | b in analyses && b.versionId == versionId
        ensures b.recordedAt < r.value.recordedAt || (b.recordedAt == r.value.recordedAt && b.id <= r.value.id)
      {
        assert AnalysisLe(b, r.value);
      }
    }
  }

  /** The latest analysis of a version exists and its evidence passes. */
  ghost predicate Supported(p: Proposal, library: Library, versionId: Id) {
    var a := LatestAnalysis(p.analyses, versionId);
    a.Some? && EvidencePasses(library, a.value)
  }

  /** The evidence is of the proposal's fund and the version's cutoff. */
  predicate EvidenceMatches(p: Proposal, library: Library, v: Version, riskId: Id, scenarioId: Option<Id>) {
    && riskId in library.risks
    && library.risks[riskId].fundId == p.fundId && library.risks[riskId].asOf == v.content.portfolioAsOf
    && (scenarioId.Some? ==>
          && scenarioId.value in library.scenarios
          && library.scenarios[scenarioId.value].fundId == p.fundId
          && library.scenarios[scenarioId.value].asOf == v.content.portfolioAsOf)
  }

  // ---------------------------------------------------------------- which commands pass

  /** Whose command it must be, and in which status. */
  predicate InPlace(p: Proposal, c: Call) {
    match c.command
    case Revise(_, _) => c.actor == p.createdBy && p.status in {Draft, ChangesRequested}
    case RecordAnalysis(_, _, _) => p.status == Draft
    case Submit => c.actor == p.createdBy && p.status == Draft
    case StartReview => p.status == Submitted
    case RecordReview(_, _, _) => p.status in {Submitted, UnderReview}
    case RequestChanges(_) => p.status in {Submitted, UnderReview}
    case Approve(_) => c.actor != p.createdBy && p.status == UnderReview
    case Reject(_) => c.actor != p.createdBy && p.status == UnderReview
    case Withdraw(_) => c.actor == p.createdBy && p.status in {Draft, Submitted, ChangesRequested}
  }

  /** What each command needs besides: content, matching evidence, passing evidence, a review, words. */
  ghost predicate Substantiated(p: Proposal, library: Library, v: Version, c: Command) {
    match c
    case Revise(content, _) => ContentFits(content)
    case RecordAnalysis(riskId, scenarioId, _) => EvidenceMatches(p, library, v, riskId, scenarioId)
    case Submit => Supported(p, library, v.id)
    case StartReview => true
    case RecordReview(_, comment, _) => !Blank(comment)
    case RequestChanges(text) => !Blank(text)
    case Approve(_) => Supported(p, library, v.id) && exists r :: r in p.reviews && r.versionId == v.id
    case Reject(text) => !Blank(text)
    case Withdraw(text) => !Blank(text)
  }

  /** A command passes all its guards exactly when role, hand, status, version and substance are right. */
  lemma PlannedExactlyWhenAllowed(p: Proposal, env: Env, c: Call)
    ensures MakePlan(p, env, c).Success? <==>
            && HoldsOneOf(env.staff, c.actor, p.fundId, CodesFor(c.command))
            && InPlace(p, c)
            && var v := VersionNumbered(p.versions, p.currentVersion);
               v.Some? && Substantiated(p, env.library, v.value, c.command)
  {
    RequiredByCode(env.staff, c.actor, p.fundId, c.command);
    match c.command
    case Revise(content, _) => AcceptedContentFits(content);
    case RecordAnalysis(_, _, _) =>
    case Submit => SupportedIsClear(p, env.library);
    case StartReview =>
    case RecordReview(_, _, _) =>
    case RequestChanges(_) =>
    case Approve(_) => SupportedIsClear(p, env.library);
    case Reject(_) =>
    case Withdraw(_) =>
  }

  lemma SupportedIsClear(p: Proposal, library: Library)
    ensures forall versionId ::
              Supported(p, library, versionId) <==>
              LatestAnalysis(p.analyses, versionId).Some?
                && Clear(library, LatestAnalysis(p.analyses, versionId).value)
  {
    forall a
      ensures Clear(library, a) <==> EvidencePasses(library, a)
    {
      ClearPasses(library, a);
    }
  }

  // ---------------------------------------------------------------- why commands are refused

  /** The words that a command checks before it looks at roles. */
  predicate WordsFirst(c: Command) {
    match c
    case RequestChanges(text) => !Blank(text)
    case Reject(text) => !Blank(text)
    case _ => true
  }

  predicate WrongHand(p: Proposal, c: Call) {
    || (c.actor != p.createdBy && (c.command.Revise? || c.command.Submit? || c.command.Withdraw?))
    || (c.actor == p.createdBy && (c.command.Approve? || c.command.Reject?))
  }

  /** A command is denied exactly for want of a role or for being in the wrong hand, after the words it needs first. */
  lemma DeniedExactly(p: Proposal, env: Env, c: Call)
    ensures MakePlan(p, env, c) == Failure(AuthorizationDenied) <==>
            WordsFirst(c.command)
            && (WrongHand(p, c)
                || (!HoldsOneOf(env.staff, c.actor, p.fundId, CodesFor(c.command))
                    && (c.command.Withdraw? ==> !Blank(c.command.withdrawalReason))))
  {
    RequiredByCode(env.staff, c.actor, p.fundId, c.command);
    match c.command
    case Revise(_, _) =>
    case RecordAnalysis(_, _, _) =>
    case Submit =>
    case StartReview =>
    case RecordReview(_, _, _) =>
    case RequestChanges(_) =>
    case Approve(_) =>
    case Reject(_) =>
    case Withdraw(_) =>
  }

  /** Only bindings, submissions and approvals are refused for their evidence: just when all before it is right. */
  lemma EvidenceRefusedExactly(p: Proposal, env: Env, c: Call)
    ensures MakePlan(p, env, c) == Failure(PolicyEvidenceRequired) <==>
            && HoldsOneOf(env.staff, c.actor, p.fundId, CodesFor(c.command))
            && InPlace(p, c)
            && var v := VersionNumbered(p.versions, p.currentVersion);
               v.Some? && LacksEvidence(p, env.library, v.value, c.command)
  {
    RequiredByCode(env.staff, c.actor, p.fundId, c.command);
    SupportedIsClear(p, env.library);
    match c.command
    case Revise(_, _) =>
    case RecordAnalysis(_, _, _) =>
    case Submit =>
    case StartReview =>
    case RecordReview(_, _, _) =>
    case RequestChanges(_) =>
    case Approve(_) =>
    case Reject(_) =>
    case Withdraw(_) =>
  }

  ghost predicate LacksEvidence(p: Proposal, library: Library, v: Version, c: Command) {
    || (c.RecordAnalysis? && !EvidenceMatches(p, library, v, c.riskId, c.scenarioId))
    || ((c.Submit? || c.Approve?) && !Supported(p, library, v.id))
  }

  /** Every other refusal is an invalid transition; a plan itself never fails for a race or a taken key. */
  lemma OtherRefusals(p: Proposal, env: Env, c: Call)
    ensures MakePlan(p, env, c).Failure? ==>
              MakePlan(p, env, c).error in {AuthorizationDenied, PolicyEvidenceRequired, InvalidWorkflowTransition}
  {
    match c.command
    case Revise(_, _) =>
    case RecordAnalysis(_, _, _) =>
    case Submit =>
    case StartReview =>
    case RecordReview(_, _, _) =>
    case RequestChanges(_) =>
    case Approve(_) =>
    case Reject(_) =>
    case Withdraw(_) =>
  }

  // ---------------------------------------------------------------- what commands write

  function StatusAfter(seen: Proposal, c: Command): Status {
    match c
    case Revise(_, _) => Draft
    case RecordAnalysis(_, _, _) => Draft
    case Submit => Submitted
    case StartReview => UnderReview
    case RecordReview(_, _, _) => seen.status
    case RequestChanges(_) => ChangesRequested
    case Approve(_) => Approved
    case Reject(_) => Rejected
    case Withdraw(_) => Withdrawn
  }

  function ActionOf(c: Command): WorkflowAction {
    match c
    case Revise(_, _) => Revision
    case RecordAnalysis(_, _, _) => Binding
    case Submit => Submission
    case StartReview => ReviewStart
    case RecordReview(_, _, _) => Reviewing
    case RequestChanges(_) => ChangeRequest
    case Approve(_) => Approval
    case Reject(_) => Rejection
    case Withdraw(_) => Withdrawal
  }

  function WordsOf(c: Command): Option<string> {
    match c
    case RecordReview(_, comment, _) => Some(comment)
    case RequestChanges(text) => Some(text)
    case Approve(text) => if Blank(text) then None else Some(text)
    case Reject(text) => Some(text)
    case Withdraw(text) => Some(text)
    case _ => None
  }

  function OfVersion(versionId: Id): Review -> bool {
    (r: Review) => r.versionId == versionId
  }

  lemma {:induction false} ReviewsCounted(reviews: seq<Review>, versionId: Id)
    ensures ReviewCount(reviews, versionId) == |Filter(OfVersion(versionId), reviews)|
  {
    if reviews == [] {
    } else {
      ReviewsCounted(reviews[..|reviews| - 1], versionId);
    }
  }

  /** What the history records as the grounds of a command. */
  ghost predicate GroundsRecorded(seen: Proposal, v: Version, c: Call, given: Provenance) {
    match c.command
    case Revise(_, _) => given == OfRevision(v.id)
    case RecordAnalysis(riskId, scenarioId, analysisId) =>
      given == OfBinding(Analysis(analysisId, v.id, riskId, scenarioId, c.actor, c.at))
    case Submit =>
      given.OfDecision? && Some(given.basis) == LatestAnalysis(seen.analyses, v.id) && given.reviewCount == 0
    case RecordReview(recommendation, _, reviewId) => given == OfReview(reviewId, recommendation)
    case Approve(_) =>
      && given.OfDecision? && Some(given.basis) == LatestAnalysis(seen.analyses, v.id)
      && given.reviewCount == |Filter(OfVersion(v.id), seen.reviews)|
    case _ => given == OfContent(v.content)
  }

  /** The transition that an effective command appends. */
  ghost predicate RecordsTransition(seen: Proposal, v: Version, c: Call, t: Transition) {
    && t.versionId == (if c.command.Revise? then c.command.versionId else v.id)
    && t.action == ActionOf(c.command) && t.from == Some(seen.status) && t.to == StatusAfter(seen, c.command)
    && t.actor == c.actor && t.reason == WordsOf(c.command) && GroundsRecorded(seen, v, c, t.provenance)
    && t.occurredAt == c.at && t.resultingRowVersion == c.expected + 1
  }

  /** The rows that an effective command leaves, in its own fields. */
  ghost predicate LeavesRows(db: Proposal, seen: Proposal, v: Version, c: Call, next: Proposal) {
    && next.fundId == db.fundId && next.createdBy == db.createdBy
    && next.status == StatusAfter(seen, c.command)
    && next.currentVersion == seen.currentVersion + (if c.command.Revise? then 1 else 0)
    && next.rowVersion == c.expected + 1 && next.updatedAt == c.at
    && next.versions == db.versions +
         (if c.command.Revise? then
            [Version(c.command.versionId, seen.currentVersion + 1, c.command.content, c.actor, c.at, Some(v.id))]
          else [])
    && next.analyses == db.analyses +
         (if c.command.RecordAnalysis? then
            [Analysis(c.command.analysisId, v.id, c.command.riskId, c.command.scenarioId, c.actor, c.at)]
          else [])
    && |next.transitions| == |db.transitions| + 1 && next.transitions[..|db.transitions|] == db.transitions
    && RecordsTransition(seen, v, c, next.transitions[|db.transitions|])
    && next.reviews == db.reviews +
         (if c.command.RecordReview? then
            [Review(c.command.reviewId, v.id, c.actor, next.transitions[|db.transitions|].role,
                    c.command.recommendation, c.command.comment, c.at)]
          else [])
  }

  /** Effective commands write just what they were given, about the version they read. */
  lemma EffectsInFields(db: Proposal, seen: Proposal, env: Env, c: Call)
    requires Execute(db, seen, env, c).0 != db
    ensures db.rowVersion == c.expected && c.at >= seen.updatedAt && Execute(db, seen, env, c).1 == Success(Changed)
    ensures var v := VersionNumbered(seen.versions, seen.currentVersion);
            v.Some? && LeavesRows(db, seen, v.value, c, Execute(db, seen, env, c).0)
  {
    var w := PlannedChange(seen, env, c);
    assert Execute(db, seen, env, c).0 == Applied(db, w, c);
  }

  lemma PlannedChange(seen: Proposal, env: Env, c: Call) returns (w: Change)
    requires MakePlan(seen, env, c).Success? && MakePlan(seen, env, c).value.Write?
    ensures w == MakePlan(seen, env, c).value.change
    ensures var v := VersionNumbered(seen.versions, seen.currentVersion);
            && v.Some?
            && RecordsTransition(seen, v.value, c, TransitionOf(w, c))
            && w.currentVersion == seen.currentVersion + (if c.command.Revise? then 1 else 0)
            && w.version == (if c.command.Revise? then
                               Some(Version(c.command.versionId, seen.currentVersion + 1, c.command.content, c.actor,
                                            c.at, Some(v.value.id)))
                             else None)
            && w.analysis == (if c.command.RecordAnalysis? then
                                Some(Analysis(c.command.analysisId, v.value.id, c.command.riskId, c.command.scenarioId,
                                              c.actor, c.at))
                              else None)
            && w.review == (if c.command.RecordReview? then
                              Some(Review(c.command.reviewId, v.value.id, c.actor, w.role, c.command.recommendation,
                                          c.command.comment, c.at))
                            else None)
  {
    w := MakePlan(seen, env, c).value.change;
    match c.command
    case Revise(_, _) =>
    case RecordAnalysis(_, _, _) =>
    case Submit =>
    case StartReview =>
    case RecordReview(_, _, _) =>
    case RequestChanges(_) =>
    case Approve(_) =>
      ReviewsCounted(seen.reviews, VersionNumbered(seen.versions, seen.currentVersion).value.id);
    case Reject(_) =>
    case Withdraw(_) =>
  }

  /** The keys of the rows that a command would add are all unused. */
  ghost predicate KeysFree(db: Proposal, seen: Proposal, v: Version, c: Command) {
    && (c.Revise? ==>
          forall x | x in db.versions :: x.id != c.versionId && x.number != seen.currentVersion + 1)
    && (c.RecordAnalysis? ==>
          forall x | x in db.analyses ::
            x.id != c.analysisId
            && !(x.versionId == v.id && x.riskId == c.riskId && x.scenarioId == c.scenarioId))
    && (c.RecordReview? ==> forall x | x in db.reviews :: x.id != c.reviewId)
  }

  lemma ClashesInFields(db: Proposal, seen: Proposal, env: Env, c: Call, v: Version)
    requires MakePlan(seen, env, c).Success? && MakePlan(seen, env, c).value.Write?
    requires VersionNumbered(seen.versions, seen.currentVersion) == Some(v)
    ensures Clashes(db, MakePlan(seen, env, c).value.change) <==> !KeysFree(db, seen, v, c.command)
  {
    var w := PlannedChange(seen, env, c);
    if !KeysFree(db, seen, v, c.command) {
      if c.command.Revise? {
        var x :| x in db.versions && (x.id == c.command.versionId || x.number == seen.currentVersion + 1);
        var i :| 0 <= i < |db.versions| && db.versions[i] == x;
      } else if c.command.RecordAnalysis? {
        var x :| x in db.analyses
                 && (x.id == c.command.analysisId
                     || (x.versionId == v.id && x.riskId == c.command.riskId && x.scenarioId == c.command.scenarioId));
        var i :| 0 <= i < |db.analyses| && db.analyses[i] == x;
      } else {
        var x :| x in db.reviews && x.id == c.command.reviewId;
        var i :| 0 <= i < |db.reviews| && db.reviews[i] == x;
      }
    }
  }

  /** The analysis already bound to the version on the same evidence, for a binding that repeats one. */
  function AlreadyThere(seen: Proposal, v: Version, c: Command): Option<Analysis> {
    if c.RecordAnalysis? then SameEvidence(seen.analyses, v.id, c.riskId, c.scenarioId) else None
  }

  /** What a command that passes its guards is answered. */
  lemma AnsweredExactly(db: Proposal, seen: Proposal, env: Env, c: Call, v: Version)
    requires MakePlan(seen, env, c).Success? && VersionNumbered(seen.versions, seen.currentVersion) == Some(v)
    ensures Execute(db, seen, env, c).1 ==
            if AlreadyThere(seen, v, c.command).Some? then Success(Existing(AlreadyThere(seen, v, c.command).value))
            else if c.at < seen.updatedAt then Failure(InvalidWorkflowTransition)
            else if db.rowVersion != c.expected then Failure(ConcurrentProposalUpdate)
            else if !KeysFree(db, seen, v, c.command) then Failure(KeyAlreadyUsed)
            else Success(Changed)
  {
    var plan := MakePlan(seen, env, c).value;
    assert plan.AlreadyBound? <==> AlreadyThere(seen, v, c.command).Some? by {
      match c.command
      case Revise(_, _) =>
      case RecordAnalysis(_, _, _) =>
      case Submit =>
      case StartReview =>
      case RecordReview(_, _, _) =>
      case RequestChanges(_) =>
      case Approve(_) =>
      case Reject(_) =>
      case Withdraw(_) =>
    }
    if plan.Write? {
      ClashesInFields(db, seen, env, c, v);
    }
  }

  /** A proposal is created exactly by an analyst with fitting content, and starts as a draft of that content. */
  lemma CreatedExactly(fundId: Id, actor: Id, content: Content, at: Instant, versionId: Id, env: Env)
    ensures var r := Create(fundId, actor, content, at, versionId, env);
            && (r.Success? <==> HoldsCode(env.staff, actor, fundId, "analyst") && ContentFits(content))
            && (r == Failure(AuthorizationDenied) <==> !HoldsCode(env.staff, actor, fundId, "analyst"))
            && (r.Success? ==>
                  && r.value.fundId == fundId && r.value.createdBy == actor && r.value.status == Draft
                  && r.value.currentVersion == 1 && r.value.rowVersion == 1 && r.value.updatedAt == at
                  && r.value.versions == [Version(versionId, 1, content, actor, at, None)]
                  && r.value.analyses == [] && r.value.reviews == []
                  && r.value.transitions ==
                     [Transition(versionId, Creation, None, Draft, actor, Analyst, None, OfContent(content), at, 1)])
  {
    AcceptedContentFits(content);
    assert Code(Analyst) == "analyst";
  }

  // ---------------------------------------------------------------- what reachable proposals rest on

  /** The results behind an analysis: some, none blocking in breach or unavailable; fund and cutoff the version's. */
  ghost predicate RestsOnPassing(p: Proposal, library: Library, a: Analysis) {
    && IsLatest(p.analyses, CurrentId(p), a) && a.riskId in library.risks
    && var e := library.risks[a.riskId];
       && e.fundId == p.fundId && |e.results| > 0
       && (forall r | r in e.results && r.severity == Blocking :: r.status != Breach && r.status != Unavailable)
       && exists v :: v in p.versions && v.id == a.versionId && v.content.portfolioAsOf == e.asOf
  }

  lemma SubmissionRests(p: Proposal, library: Library, s: nat)
    requires Reachable(p, library) && s < |p.transitions| && SubmittedAsIs(p, library, s)
    ensures RestsOnPassing(p, library, p.transitions[s].provenance.basis)
  {
    RecordIsInOrder(p, library);
    var a := p.transitions[s].provenance.basis;
    LatestIsLatest(p.analyses, CurrentId(p));
    ClearPasses(library, a);
    var v :| v in p.versions && Supports(p, library, a, v);
  }

  /**
   * Every reachable proposal that has been submitted, approved ones included, rests on a latest analysis whose
   * evaluation is of its fund and cutoff, has results, and has no blocking one in breach or unavailable.
   */
  lemma SubmittedOnPassingEvidence(p: Proposal, library: Library) returns (s: nat)
    requires Reachable(p, library)
    requires p.status in {Submitted, UnderReview, ChangesRequested, Approved, Rejected}
    ensures s < |p.transitions| && p.transitions[s].action == Submission && p.transitions[s].provenance.OfDecision?
    ensures RestsOnPassing(p, library, p.transitions[s].provenance.basis)
  {
    s := UnderReviewIsWhatWasSubmitted(p, library);
    SubmissionRests(p, library, s);
  }

  /** In particular an approval rests on the very analysis that was submitted. */
  lemma ApprovedOnPassingEvidence(p: Proposal, library: Library)
    requires Reachable(p, library) && p.status == Approved
    ensures p.transitions != []
    ensures var t := p.transitions[|p.transitions| - 1];
            t.action == Approval && t.provenance.OfDecision? && RestsOnPassing(p, library, t.provenance.basis)
  {
    var s, i := ApprovedIsWhatWasSubmitted(p, library);
    SubmissionRests(p, library, s);
  }
}
