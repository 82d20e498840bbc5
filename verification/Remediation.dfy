/** Remediation plans: due dates, overdue status and priority from a risk band. */
module Remediation {
  import opened Ordering

  datatype Band = Critical | High | Moderate | Low

  /** The risk assessment of a finding; `score` and `band` come from its evidence alone. */
  datatype RiskAssessment = RiskAssessment(findingId: string, assetId: string, score: nat, band: Band)

  datatype Factor = RiskBand(band: Band) | OwnershipFactor(owned: bool) | DueDateFactor(overdue: bool)

  datatype Action = AssignOwner | EscalateOverdue | ValidateEvidence

  datatype Plan = Plan(
    findingId: string,
    assetId: string,
    priority: nat,
    owner: Option<string>,
    openedOn: int,
    dueDate: int,
    overdue: bool,
    actions: seq<Action>,
    factors: seq<Factor>,
    risk: RiskAssessment)

  function BasePriority(b: Band): int {
    match b
    case Critical => 0
    case High => 1
    case Moderate => 2
    case Low => 3
  }

  function SlaDays(b: Band): int {
    match b
    case Critical => 1
    case High => 7
    case Moderate => 30
    case Low => 90
  }

  predicate Plannable(openedOn: int, asOf: int, requested: Option<int>) {
    openedOn <= asOf && (requested.Some? ==> openedOn <= requested.value)
  }

  function DueDate(risk: RiskAssessment, openedOn: int, requested: Option<int>): int {
    var sla := openedOn + SlaDays(risk.band);
    if requested.Some? && requested.value < sla then requested.value else sla
  }

  /** Missing ownership and lateness each raise urgency by one level, up to P0. */
  function Priority(risk: RiskAssessment, owned: bool, overdue: bool): nat {
    var raised := BasePriority(risk.band) - (if owned then 0 else 1) - (if overdue then 1 else 0);
    if raised < 0 then 0 else raised
  }

  function NormalOwner(owner: Option<string>): Option<string> {
    if owner == Some("") then None else owner
  }

  function PlanOf(risk: RiskAssessment, owner: Option<string>, openedOn: int, asOf: int, requested: Option<int>): Plan {
    var due := DueDate(risk, openedOn, requested);
    var overdue := due < asOf;
    var owned := NormalOwner(owner).Some?;
    Plan(risk.findingId, risk.assetId, Priority(risk, owned, overdue), NormalOwner(owner), openedOn, due, overdue,
         (if owned then [] else [AssignOwner]) + (if overdue then [EscalateOverdue] else []) + [ValidateEvidence],
         [RiskBand(risk.band), OwnershipFactor(owned), DueDateFactor(overdue)], risk)
  }

  /** `owner` is already stripped text. */
  method PlanRemediation(risk: RiskAssessment, owner: Option<string>, openedOn: int, asOf: int, requested: Option<int>)
    returns (result: Result<Plan>)
    ensures result.Ok? <==> Plannable(openedOn, asOf, requested)
    ensures result.Ok? ==> result.value == PlanOf(risk, owner, openedOn, asOf, requested)
  {
    if openedOn > asOf {
      return Rejected;
    }
    if requested.Some? && requested.value < openedOn {
      return Rejected;
    }
    var normalized := if owner.Some? && owner.value != "" then owner else None;
    var sla := openedOn + SlaDays(risk.band);
    var due := if requested.Some? then (if sla <= requested.value then sla else requested.value) else sla;
    var overdue := due < asOf;
    var factors := [RiskBand(risk.band)];
    var actions: seq<Action> := [];
    var shift := 0;
    if normalized.None? {
      shift := shift - 1;
      factors := factors + [OwnershipFactor(false)];
      actions := actions + [AssignOwner];
    } else {
      factors := factors + [OwnershipFactor(true)];
    }
    if overdue {
      shift := shift - 1;
      factors := factors + [DueDateFactor(true)];
      actions := actions + [EscalateOverdue];
    } else {
      factors := factors + [DueDateFactor(false)];
    }
    assert factors == [RiskBand(risk.band), OwnershipFactor(normalized.Some?), DueDateFactor(overdue)];
    var capped := if BasePriority(risk.band) + shift <= 3 then BasePriority(risk.band) + shift else 3;
    var priority: nat := if 0 <= capped then capped else 0;
    actions := actions + [ValidateEvidence];
    result := Ok(Plan(risk.findingId, risk.assetId, priority, normalized, openedOn, due, overdue, actions, factors, risk));
  }

  /** Later review dates only turn plans overdue: due date, owner and risk stay, and the priority
      number drops by at most one, and only when the plan becomes overdue. */
  lemma LaterReview(risk: RiskAssessment, owner: Option<string>, openedOn: int, requested: Option<int>, earlier: int, later: int)
    requires earlier <= later
    ensures var a := PlanOf(risk, owner, openedOn, earlier, requested); var b := PlanOf(risk, owner, openedOn, later, requested);
            && a.dueDate == b.dueDate && a.risk == b.risk && a.owner == b.owner
            && (a.overdue ==> b.overdue)
            && b.priority <= a.priority <= b.priority + 1 && a.priority <= 3
            && ((a.priority != b.priority || a.overdue != b.overdue) <==> earlier <= a.dueDate < later)
            && (earlier <= a.dueDate < later <==> !a.overdue && b.overdue)
  {
  }

  /** With the same dates and ownership a more severe band is never due later, never leaves a plan
      on time that a milder one finds overdue, and never has a larger priority number; a requested
      date only ever brings the due date and the priority forward. */
  lemma UrgencyMonotone(severe: RiskAssessment, mild: RiskAssessment, owner: Option<string>, openedOn: int, asOf: int,
                        requested: Option<int>)
    requires BasePriority(severe.band) <= BasePriority(mild.band)
    ensures var a := PlanOf(severe, owner, openedOn, asOf, requested); var b := PlanOf(mild, owner, openedOn, asOf, requested);
            a.dueDate <= b.dueDate && (b.overdue ==> a.overdue) && a.priority <= b.priority
    ensures var a := PlanOf(mild, owner, openedOn, asOf, requested); var b := PlanOf(mild, owner, openedOn, asOf, None);
            a.dueDate <= b.dueDate && a.priority <= b.priority
    ensures Plannable(openedOn, asOf, requested) ==> openedOn <= PlanOf(severe, owner, openedOn, asOf, requested).dueDate
  {
  }
}
