/** Fund-scoped roles and what they permit (app/governance/authorization.py). */
module Authorization {
  import opened Wrappers
  import opened LedgerTypes

  datatype Role = Analyst | Manager | Advisor

  datatype Permission =
    | CreateProposal
    | ReviseProposal
    | BindAnalysis
    | SubmitProposal
    | BeginReview
    | GiveReview
    | AskForChanges
    | ApproveProposal
    | RejectProposal
    | WithdrawProposal

  /** A user and the role codes held, per fund. Codes that name no governance role carry no permission. */
  datatype User = User(active: bool, roles: set<(Id, string)>)

  function Code(role: Role): string {
    match role
    case Analyst => "analyst"
    case Manager => "manager"
    case Advisor => "advisor"
  }

  predicate Grants(role: Role, permission: Permission) {
    match role
    case Analyst =>
      permission in {CreateProposal, ReviseProposal, BindAnalysis, SubmitProposal, WithdrawProposal}
    case Manager =>
      permission in {BindAnalysis, BeginReview, GiveReview, AskForChanges, ApproveProposal, RejectProposal}
    case Advisor =>
      permission in {GiveReview, AskForChanges}
  }

  predicate Holds(staff: map<Id, User>, actor: Id, fundId: Id, role: Role) {
    actor in staff && staff[actor].active && (fundId, Code(role)) in staff[actor].roles
  }

  predicate Authorized(staff: map<Id, User>, actor: Id, fundId: Id, permission: Permission, role: Role) {
    Holds(staff, actor, fundId, role) && Grants(role, permission)
  }

  /** Position in the alphabetical order of role codes. */
  function Rank(role: Role): nat {
    match role
    case Advisor => 0
    case Analyst => 1
    case Manager => 2
  }

  /** `AuthorizationService.require`: the alphabetically first held role that grants the permission. */
  function Require(staff: map<Id, User>, actor: Id, fundId: Id, permission: Permission): (r: Option<Role>)
    ensures r.None? <==> forall role :: !Authorized(staff, actor, fundId, permission, role)
    ensures r.Some? ==> Authorized(staff, actor, fundId, permission, r.value)
    ensures r.Some? ==> forall role | Authorized(staff, actor, fundId, permission, role) :: Rank(r.value) <= Rank(role)
  {
    if Authorized(staff, actor, fundId, permission, Advisor) then Some(Advisor)
    else if Authorized(staff, actor, fundId, permission, Analyst) then Some(Analyst)
    else if Authorized(staff, actor, fundId, permission, Manager) then Some(Manager)
    else None
  }
}
