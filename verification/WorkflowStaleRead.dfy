/**
 * Why the races of `WorkflowRuns` need each caller to expect the version it read: the guard compares the stored
 * row with the caller's number only, so a command can pass its checks on one state and overwrite another.
 */
module WorkflowStaleRead {
  import opened Wrappers
  import opened LedgerTypes
  import opened Text
  import opened Authorization
  import opened Governance
  import opened WorkflowHistory
  import opened WorkflowRuns

  const FUND: Id := 7
  const AUTHOR: Id := 1
  const MANAGER: Id := 2
  const HASH := "0000000000000000000000000000000000000000000000000000000000000000"
  const CONTENT := Content("t", "t", HASH, 0, [ProposalLine(9, Hold, 0.5, 0.5, 0.0, "r")])
  const STAFF := map[AUTHOR := User(true, {(FUND, "analyst")}), MANAGER := User(true, {(FUND, "manager")})]
  const LIBRARY := Library(map[5 := RiskEvaluation(FUND, 0, [PolicyResult(Blocking, Pass)])], map[])
  const ENV := Env(STAFF, LIBRARY)
  const ANALYSIS := Analysis(30, 20, 5, None, AUTHOR, 0)

  const BIND := Call(AUTHOR, 1, 0, RecordAnalysis(5, None, 30))
  const SUBMIT := Call(AUTHOR, 2, 0, Submit)
  const WITHDRAW := Call(AUTHOR, 3, 0, Withdraw("w"))

  /** The manager read the submitted proposal, but expects the version that the withdrawal produced. */
  const LATE := Call(MANAGER, 4, 0, StartReview)

  lemma Authority()
    ensures Require(STAFF, AUTHOR, FUND, CreateProposal) == Some(Analyst)
    ensures Require(STAFF, AUTHOR, FUND, BindAnalysis) == Some(Analyst)
    ensures Require(STAFF, AUTHOR, FUND, SubmitProposal) == Some(Analyst)
    ensures Require(STAFF, AUTHOR, FUND, WithdrawProposal) == Some(Analyst)
    ensures Require(STAFF, AUTHOR, FUND, ReviseProposal) == Some(Analyst)
    ensures Require(STAFF, MANAGER, FUND, BeginReview) == Some(Manager)
  {
    assert Code(Advisor)[1] == 'd' && Code(Analyst)[1] == 'n' && Code(Manager)[0] == 'm';
    assert Code(Advisor) != Code(Analyst) && Code(Advisor) != Code(Manager) && Code(Analyst) != Code(Manager);
  }

  lemma ContentIsAccepted()
    ensures ContentAccepted(CONTENT)
  {
    assert !Whitespace("t"[0]) && !Whitespace("r"[0]);
  }

  lemma Created() returns (p: Proposal)
    ensures Create(FUND, AUTHOR, CONTENT, 0, 20, ENV) == Success(p)
    ensures p.fundId == FUND && p.createdBy == AUTHOR && p.status.Draft? && p.currentVersion == 1 && p.rowVersion == 1
    ensures p.updatedAt == 0 && p.analyses == []
    ensures |p.versions| == 1 && p.versions[0].id == 20 && p.versions[0].number == 1
    ensures VersionNumbered(p.versions, 1).Some? && VersionNumbered(p.versions, 1).value.id == 20
    ensures VersionNumbered(p.versions, 1).value.content == CONTENT
  {
    Authority();
    ContentIsAccepted();
    p := Create(FUND, AUTHOR, CONTENT, 0, 20, ENV).value;
  }

  lemma Bound(p: Proposal)
    requires p.fundId == FUND && p.createdBy == AUTHOR && p.status.Draft? && p.currentVersion == 1 && p.rowVersion == 1
    requires p.updatedAt == 0 && p.analyses == []
    requires VersionNumbered(p.versions, 1).Some? && VersionNumbered(p.versions, 1).value.id == 20
    requires VersionNumbered(p.versions, 1).value.content == CONTENT
    ensures var q := Execute(p, p, ENV, BIND).0;
            && q.fundId == FUND && q.createdBy == AUTHOR && q.status.Draft? && q.currentVersion == 1
               && q.rowVersion == 2
            && q.updatedAt == 0 && q.analyses == [ANALYSIS] && q.versions == p.versions
  {
    Authority();
  }

  lemma SubmittedNow(p: Proposal)
    requires p.fundId == FUND && p.createdBy == AUTHOR && p.status.Draft? && p.currentVersion == 1 && p.rowVersion == 2
    requires p.updatedAt == 0 && p.analyses == [ANALYSIS]
    requires VersionNumbered(p.versions, 1).Some? && VersionNumbered(p.versions, 1).value.id == 20
    ensures var q := Execute(p, p, ENV, SUBMIT).0;
            && q.fundId == FUND && q.createdBy == AUTHOR && q.status.Submitted? && q.currentVersion == 1
               && q.rowVersion == 3
            && q.updatedAt == 0 && q.versions == p.versions
  {
    Authority();
    assert LatestAnalysis(p.analyses, 20) == Some(ANALYSIS);
    assert Clear(LIBRARY, ANALYSIS);
  }

  lemma WithdrawnNow(p: Proposal)
    requires p.fundId == FUND && p.createdBy == AUTHOR && p.status.Submitted? && p.currentVersion == 1
             && p.rowVersion == 3
    requires p.updatedAt == 0 && VersionNumbered(p.versions, 1).Some?
    ensures var q := Execute(p, p, ENV, WITHDRAW).0;
            && q.status.Withdrawn? && q.rowVersion == 4
            && q.fundId == p.fundId && q.createdBy == p.createdBy && q.currentVersion == p.currentVersion
  {
    Authority();
    assert !Whitespace("w"[0]);
  }

  /** What was read decides the outcome; the status that is overwritten is never looked at. */
  lemma ReviewStartsOnStaleRead(db: Proposal, seen: Proposal)
    requires seen.fundId == FUND && seen.status.Submitted? && seen.updatedAt == 0 && seen.currentVersion == 1
    requires VersionNumbered(seen.versions, 1).Some? && db.rowVersion == 4
    ensures var next := Execute(db, seen, ENV, LATE).0;
            && next.status.UnderReview? && next.rowVersion == 5 && next.currentVersion == 1
            && next.fundId == db.fundId && next.createdBy == db.createdBy
  {
    Authority();
  }

  const ATTEMPTS := [Attempt(ENV, BIND, 0), Attempt(ENV, SUBMIT, 1), Attempt(ENV, WITHDRAW, 2), Attempt(ENV, LATE, 2)]

  /** A run in which a withdrawn proposal goes back under review, by an update that the database trigger lets pass. */
  lemma TerminalStatusCanBeRevived() returns (p: Proposal)
    ensures Create(FUND, AUTHOR, CONTENT, 0, 20, ENV) == Success(p)
    ensures var states := Trace(p, ATTEMPTS);
            && Terminal(states[3].status) && states[4].status.UnderReview?
            && TriggerAllows(states[3], states[4])
            && ATTEMPTS[3].call.expected == states[3].rowVersion
            && ATTEMPTS[3].call.expected != Seen(states[..4], ATTEMPTS[3]).rowVersion
  {
    p := Created();
    var states := Trace(p, ATTEMPTS);
    TracePrefix(p, ATTEMPTS, 0);
    assert states[0] == p by {
      assert ATTEMPTS[..0] == [];
    }
    TraceStep(p, ATTEMPTS, 0);
    Bound(states[0]);
    TraceStep(p, ATTEMPTS, 1);
    SubmittedNow(states[1]);
    TraceStep(p, ATTEMPTS, 2);
    WithdrawnNow(states[2]);
    TraceStep(p, ATTEMPTS, 3);
    ReviewStartsOnStaleRead(states[3], states[2]);
  }

  // ---------------------------------------------------------------- a content version that drops

  const REVISE := Call(AUTHOR, 1, 0, Revise(CONTENT, 21))

  /** The author read the first draft, but expects the version that the revision produced. */
  const LATE_WITHDRAWAL := Call(AUTHOR, 2, 0, Withdraw("w"))

  lemma RevisedNow(p: Proposal)
    requires p.fundId == FUND && p.createdBy == AUTHOR && p.status.Draft? && p.currentVersion == 1 && p.rowVersion == 1
    requires p.updatedAt == 0 && |p.versions| == 1 && p.versions[0].id == 20 && p.versions[0].number == 1
    ensures var q := Execute(p, p, ENV, REVISE).0; q.currentVersion == 2 && q.rowVersion == 2
  {
    Authority();
    ContentIsAccepted();
    assert VersionNumbered(p.versions, 1) == Some(p.versions[0]);
  }

  lemma WithdrawnOnStaleRead(db: Proposal, seen: Proposal)
    requires seen.fundId == FUND && seen.createdBy == AUTHOR && seen.status.Draft? && seen.updatedAt == 0
    requires seen.currentVersion == 1 && VersionNumbered(seen.versions, 1).Some? && db.rowVersion == 2
    ensures var next := Execute(db, seen, ENV, LATE_WITHDRAWAL).0; next.currentVersion == 1 && next.rowVersion == 3
  {
    Authority();
    assert !Whitespace("w"[0]);
  }

  const DROPPING := [Attempt(ENV, REVISE, 0), Attempt(ENV, LATE_WITHDRAWAL, 0)]

  /** A run in which a withdrawal decided on the first version overwrites the second; the trigger refuses it. */
  lemma ContentVersionCanDrop() returns (p: Proposal)
    ensures Create(FUND, AUTHOR, CONTENT, 0, 20, ENV) == Success(p)
    ensures var states := Trace(p, DROPPING);
            && states[1].currentVersion == 2 && states[2].currentVersion == 1
            && !TriggerAllows(states[1], states[2])
  {
    p := Created();
    var states := Trace(p, DROPPING);
    TracePrefix(p, DROPPING, 0);
    assert states[0] == p by {
      assert DROPPING[..0] == [];
    }
    TraceStep(p, DROPPING, 0);
    RevisedNow(states[0]);
    TraceStep(p, DROPPING, 1);
    WithdrawnOnStaleRead(states[1], states[0]);
  }
}
