/** The frozen promise semantics: truth, policy and override projected onto execution authorization. */
module PromiseSemantics {
  import opened Prelude

  datatype DataQuality = Sufficient | InsufficientData | StaleData | Conflicting

  datatype TechnicalFeasibility = Feasible | ConditionallyFeasible | Infeasible | UnknownFeasibility

  datatype PolicyRelation = WithinEnvelope | SoftException | PolicyHardBlock

  datatype OverrideStatus = NoOverrideRequired | OverridePending | OverrideApproved | OverrideRejected

  datatype SafetyStatus = SafetyClear | UnverifiedConcern | SafetyHardBlock

  datatype PermissionStatus = NoPermissionRequired | PermissionVerified | PermissionMissing | PermissionUnknown

  datatype ConsentState =
    | NoConsentRequired | ConsentRequested | ConsentFreelyGiven | ConsentDeclined | ConsentPressured | ConsentAbsent

  datatype ExecutionAuthorization = Allowed | Blocked

  datatype PromiseState = Safe | Conditional | InfeasiblePromise | Forced

  datatype Disposition = Execute | ExecuteWithRecordedRisk | Abstain | Forbidden | Halt

  datatype Promise = Promise(
    authorization: ExecutionAuthorization, state: Option<PromiseState>, disposition: Disposition, reasons: seq<string>)

  /** The independent axes of one decision. */
  datatype Axes = Axes(
    feasibility: TechnicalFeasibility, relation: PolicyRelation, override: OverrideStatus, data: DataQuality,
    safety: SafetyStatus, permission: PermissionStatus, consent: ConsentState)

  function DataReason(data: DataQuality): string {
    match data
    case Sufficient => "CRITICAL_DATA_SUFFICIENT"
    case InsufficientData => "CRITICAL_DATA_INSUFFICIENT_DATA"
    case StaleData => "CRITICAL_DATA_STALE"
    case Conflicting => "CRITICAL_DATA_CONFLICTING"
  }

  function ConsentReason(consent: ConsentState): string {
    match consent
    case NoConsentRequired => "REQUIRED_CONSENT_NOT_REQUIRED"
    case ConsentRequested => "REQUIRED_CONSENT_REQUESTED"
    case ConsentFreelyGiven => "REQUIRED_CONSENT_FREELY_GIVEN"
    case ConsentDeclined => "REQUIRED_CONSENT_DECLINED"
    case ConsentPressured => "REQUIRED_CONSENT_PRESSURED"
    case ConsentAbsent => "REQUIRED_CONSENT_ABSENT"
  }

  function HardReasons(x: Axes): seq<string> {
    (if x.relation.PolicyHardBlock? then ["POLICY_HARD_BLOCK"] else [])
    + (if x.safety.SafetyHardBlock? then ["HARD_SAFETY_BLOCK"] else [])
    + (if x.permission.PermissionMissing? then ["REQUIRED_PERMISSION_MISSING"] else [])
  }

  /** Data is sufficient and safety, permission and consent stand in the way of nothing. */
  predicate Clear(x: Axes) {
    && x.data.Sufficient? && x.safety.SafetyClear?
    && (x.permission.NoPermissionRequired? || x.permission.PermissionVerified?)
    && (x.consent.NoConsentRequired? || x.consent.ConsentFreelyGiven?)
  }

  /** `assess_promise`. FORCED is emitted only for a feasible, approved soft exception with every gate met, and an
      action is allowed only there or within the envelope. */
  function AssessPromise(x: Axes): (r: Promise)
    ensures r.state == Some(Forced) <==>
      Clear(x) && x.feasibility.Feasible? && x.relation.SoftException? && x.override.OverrideApproved?
    ensures r.authorization.Allowed? <==>
      && Clear(x) && x.feasibility.Feasible?
      && (x.relation.WithinEnvelope? || (x.relation.SoftException? && x.override.OverrideApproved?))
    ensures r.disposition.Forbidden? <==>
      x.relation.PolicyHardBlock? || x.safety.SafetyHardBlock? || x.permission.PermissionMissing?
    ensures r.disposition.Execute? <==> r.state == Some(Safe)
    ensures r.disposition.ExecuteWithRecordedRisk? <==> r.state == Some(Forced)
    ensures !r.disposition.Halt?
  {
    if HardReasons(x) != [] then Promise(Blocked, Some(InfeasiblePromise), Forbidden, HardReasons(x))
    else if !x.data.Sufficient? then Promise(Blocked, None, Abstain, [DataReason(x.data)])
    else if x.safety.UnverifiedConcern? then
      Promise(Blocked, Some(Conditional), Abstain, ["SAFETY_OR_TECHNICAL_CONCERN_REQUIRES_VERIFICATION"])
    else if x.permission.PermissionUnknown? then Promise(Blocked, None, Abstain, ["REQUIRED_PERMISSION_UNKNOWN"])
    else if !x.consent.NoConsentRequired? && !x.consent.ConsentFreelyGiven? then
      Promise(Blocked, Some(Conditional), Abstain, [ConsentReason(x.consent)])
    else match x.feasibility
      case UnknownFeasibility => Promise(Blocked, None, Abstain, ["FEASIBILITY_UNKNOWN"])
      case Infeasible => Promise(Blocked, Some(InfeasiblePromise), Abstain, ["TECHNICALLY_INFEASIBLE"])
      case ConditionallyFeasible => Promise(Blocked, Some(Conditional), Abstain, ["NAMED_CONDITION_OUTSTANDING"])
      case Feasible =>
        if x.relation.WithinEnvelope? then Promise(Allowed, Some(Safe), Execute, [])
        else if x.override.OverrideApproved? then
          Promise(Allowed, Some(Forced), ExecuteWithRecordedRisk, ["OWNER_APPROVED_SOFT_EXCEPTION"])
        else if x.override.OverrideRejected? then
          Promise(Blocked, Some(Conditional), Abstain, ["SOFT_EXCEPTION_REJECTED"])
        else Promise(Blocked, Some(Conditional), Abstain, ["SOFT_EXCEPTION_REQUIRES_OWNER"])
  }

  /** Some hard rule forbids the action, whatever else holds. */
  ghost predicate HardStop(x: Axes) {
    x.relation == PolicyHardBlock || x.safety == SafetyHardBlock || x.permission == PermissionMissing
  }

  /** Consent that is required and has not been given freely. */
  ghost predicate ConsentWithheld(x: Axes) {
    x.consent != NoConsentRequired && x.consent != ConsentFreelyGiven
  }

  /** The state of every promise. It stays open exactly when something is unknown and neither a hard rule nor an earlier
      check decides; it is conditional exactly when a verification, a consent, a condition or the owner is
      outstanding. */
  lemma {:induction false} PromiseStates(x: Axes)
    ensures var r := AssessPromise(x);
      && (r.state == Some(Safe) <==> Clear(x) && x.feasibility == Feasible && x.relation == WithinEnvelope)
      && (r.state == Some(InfeasiblePromise) <==> HardStop(x) || (Clear(x) && x.feasibility == Infeasible))
      && (r.state == None <==>
            && !HardStop(x)
            && (|| x.data != Sufficient
                || (x.safety == SafetyClear && x.permission == PermissionUnknown)
                || (Clear(x) && x.feasibility == UnknownFeasibility)))
      && (r.state == Some(Conditional) <==>
            && !HardStop(x) && x.data == Sufficient
            && (|| x.safety == UnverifiedConcern
                || (x.permission != PermissionUnknown && ConsentWithheld(x))
                || (Clear(x) && x.feasibility == ConditionallyFeasible)
                || (Clear(x) && x.feasibility == Feasible && x.relation == SoftException
                    && x.override != OverrideApproved)))
  {
    hide DataReason, ConsentReason;
  }

  /** A forbidden promise names every hard rule that is broken and nothing else. */
  lemma {:induction false} ForbiddenReasons(x: Axes)
    requires HardStop(x)
    ensures var reasons := AssessPromise(x).reasons;
      && ("POLICY_HARD_BLOCK" in reasons <==> x.relation == PolicyHardBlock)
      && ("HARD_SAFETY_BLOCK" in reasons <==> x.safety == SafetyHardBlock)
      && ("REQUIRED_PERMISSION_MISSING" in reasons <==> x.permission == PermissionMissing)
      && forall reason | reason in reasons ::
           reason in {"POLICY_HARD_BLOCK", "HARD_SAFETY_BLOCK", "REQUIRED_PERMISSION_MISSING"}
  {
    assert "POLICY_HARD_BLOCK"[0] == 'P' && "HARD_SAFETY_BLOCK"[0] == 'H' && "REQUIRED_PERMISSION_MISSING"[0] == 'R';
  }

  /** Everything but consent and feasibility is in order. */
  ghost predicate Sound(x: Axes) {
    !HardStop(x) && x.data == Sufficient && x.safety == SafetyClear && x.permission != PermissionUnknown
  }

  /** The reason of any other promise tells which single check decided it. */
  lemma {:induction false} DecidingReason(x: Axes)
    requires !HardStop(x)
    ensures var reasons := AssessPromise(x).reasons;
      && (x.data == InsufficientData ==> reasons == ["CRITICAL_DATA_INSUFFICIENT_DATA"])
      && (x.data == StaleData ==> reasons == ["CRITICAL_DATA_STALE"])
      && (x.data == Conflicting ==> reasons == ["CRITICAL_DATA_CONFLICTING"])
      && (x.data == Sufficient && x.safety == UnverifiedConcern ==>
            reasons == ["SAFETY_OR_TECHNICAL_CONCERN_REQUIRES_VERIFICATION"])
      && (x.data == Sufficient && x.safety == SafetyClear && x.permission == PermissionUnknown ==>
            reasons == ["REQUIRED_PERMISSION_UNKNOWN"])
      && (Sound(x) && x.consent == ConsentRequested ==> reasons == ["REQUIRED_CONSENT_REQUESTED"])
      && (Sound(x) && x.consent == ConsentDeclined ==> reasons == ["REQUIRED_CONSENT_DECLINED"])
      && (Sound(x) && x.consent == ConsentPressured ==> reasons == ["REQUIRED_CONSENT_PRESSURED"])
      && (Sound(x) && x.consent == ConsentAbsent ==> reasons == ["REQUIRED_CONSENT_ABSENT"])
  {}

  /** The same when only feasibility, policy and the owner's answer are left; a safe promise goes without a reason. */
  lemma {:induction false} FeasibilityReason(x: Axes)
    requires Clear(x) && !HardStop(x)
    ensures var reasons := AssessPromise(x).reasons;
      && (x.feasibility == UnknownFeasibility ==> reasons == ["FEASIBILITY_UNKNOWN"])
      && (x.feasibility == Infeasible ==> reasons == ["TECHNICALLY_INFEASIBLE"])
      && (x.feasibility == ConditionallyFeasible ==> reasons == ["NAMED_CONDITION_OUTSTANDING"])
      && (x.feasibility == Feasible && x.relation == WithinEnvelope ==> reasons == [])
      && (x.feasibility == Feasible && x.relation == SoftException ==>
            reasons == if x.override == OverrideApproved then ["OWNER_APPROVED_SOFT_EXCEPTION"]
                       else if x.override == OverrideRejected then ["SOFT_EXCEPTION_REJECTED"]
                       else ["SOFT_EXCEPTION_REQUIRES_OWNER"])
  {}
}
