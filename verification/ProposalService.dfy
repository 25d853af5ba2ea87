/** The proposal service in place: the stored row and its append-only evidence, written by compare-and-set. */
module ProposalService {
  import opened Wrappers
  import opened LedgerTypes
  import opened Authorization
  import opened Governance
  import opened WorkflowHistory

  class ProposalStore {
    const fundId: Id
    const createdBy: Id
    var status: Status
    var currentVersion: nat
    var rowVersion: int
    var updatedAt: Instant
    var versions: seq<Version>
    var analyses: seq<Analysis>
    var reviews: seq<Review>
    var transitions: seq<Transition>

    function View(): Proposal
      reads this
    {
      Proposal(fundId, createdBy, status, currentVersion, rowVersion, updatedAt, versions, analyses, reviews,
               transitions)
    }

    constructor (fundId: Id, actor: Id, role: Role, content: Content, at: Instant, versionId: Id)
      ensures View() == Proposal(
                fundId, actor, Draft, 1, 1, at, [Version(versionId, 1, content, actor, at, None)], [], [],
                [Transition(versionId, Creation, None, Draft, actor, role, None, OfContent(content), at, 1)])
    {
      this.fundId, this.createdBy := fundId, actor;
      status, currentVersion, rowVersion, updatedAt := Draft, 1, 1, at;
      versions := [Version(versionId, 1, content, actor, at, None)];
      analyses, reviews := [], [];
      transitions := [Transition(versionId, Creation, None, Draft, actor, role, None, OfContent(content), at, 1)];
    }

    static method RunCreate(fundId: Id, actor: Id, content: Content, at: Instant, versionId: Id, env: Env)
      returns (r: Result<ProposalStore, WorkflowError>)
      ensures r.Success? ==>
                fresh(r.value) && Create(fundId, actor, content, at, versionId, env) == Success(r.value.View())
      ensures r.Failure? ==> Create(fundId, actor, content, at, versionId, env) == Failure(r.error)
    {
      var role := Require(env.staff, actor, fundId, CreateProposal);
      if role.None? {
        return Failure(AuthorizationDenied);
      }
      if !ContentAccepted(content) {
        return Failure(InvalidWorkflowTransition);
      }
      var p := new ProposalStore(fundId, actor, role.value, content, at, versionId);
      return Success(p);
    }

    /** Compare and set the row; `w` carries the rows whose keys the store will check. */
    method RunAdvance(seen: Proposal, w: Change, c: Call) returns (problem: Option<WorkflowError>)
      modifies `status, `currentVersion, `rowVersion, `updatedAt
      ensures var next := Advance(old(View()), seen, w, c);
              && (next.Failure? ==> problem == Some(next.error) && View() == old(View()))
              && (next.Success? ==>
                    && problem.None?
                    && View() == old(View()).(status := w.status, currentVersion := w.currentVersion,
                                              rowVersion := c.expected + 1, updatedAt := c.at))
    {
      if c.at < seen.updatedAt {
        return Some(InvalidWorkflowTransition);
      }
      if rowVersion != c.expected {
        return Some(ConcurrentProposalUpdate);
      }
      if Clashes(View(), w) {
        return Some(KeyAlreadyUsed);
      }
      status, currentVersion, rowVersion, updatedAt := w.status, w.currentVersion, c.expected + 1, c.at;
      return None;
    }

    /** Record the transition that has just been made. */
    method RunHistory(w: Change, c: Call)
      requires rowVersion == c.expected + 1
      modifies `transitions
      ensures View() == old(View()).(transitions := old(transitions) + [TransitionOf(w, c)])
    {
      transitions := transitions + [Transition(w.versionId, w.action, Some(w.from), w.status, c.actor, w.role, w.reason,
                                               w.provenance, c.at, rowVersion)];
    }

    /** Advance the row, append the rows that come with the change, and record the transition. */
    method RunWrite(seen: Proposal, w: Change, c: Call) returns (r: Result<Outcome, WorkflowError>)
      modifies this
      ensures (View(), r) == Finish(old(View()), seen, Success(Write(w)), c)
    {
      var problem := RunAdvance(seen, w, c);
      if problem.Some? {
        return Failure(problem.value);
      }
      if w.version.Some? {
        versions := versions + [w.version.value];
      }
      if w.analysis.Some? {
        analyses := analyses + [w.analysis.value];
      }
      if w.review.Some? {
        reviews := reviews + [w.review.value];
      }
      RunHistory(w, c);
      return Success(Changed);
    }

    /** One command: its decision is taken on what was read, its write goes to the stored row. */
    method RunCommand(seen: Proposal, env: Env, c: Call) returns (r: Result<Outcome, WorkflowError>)
      modifies this
      ensures (View(), r) == Execute(old(View()), seen, env, c)
      ensures seen == old(View()) && Inv(old(View()), env.library) ==> Inv(View(), env.library)
      ensures seen == old(View()) && Terminal(old(View()).status) ==> View() == old(View())
    {
      StepKeepsInvIf(seen, env, c);
      var plan :- MakePlan(seen, env, c);
      match plan
      case AlreadyBound(a) => r := Success(Existing(a));
      case Write(w) => r := RunWrite(seen, w, c);
    }
  }

  lemma StepKeepsInvIf(p: Proposal, env: Env, c: Call)
    ensures Inv(p, env.library) ==> Inv(Step(p, env, c), env.library)
    ensures Terminal(p.status) ==> Step(p, env, c) == p
  {
    StepIsLegal(p, env, c);
    if Inv(p, env.library) {
      StepKeepsInv(p, env, c);
    }
  }
}
