/** Operational authority: for every repair candidate of an evidence cut, nine gates and one outcome, computed by
    separate chains of branches and re-checked against each other by the result constructors. Records are their own
    identities. */
module Authority {
  import opened Prelude
  import Evidence = EvidenceStore

  // ---------------------------------------------------------------- technical search results

  datatype ConstraintStatus = Pass | Fail | UnknownConstraint

  datatype Constraint = Constraint(status: ConstraintStatus, reason: string, commitmentId: string)

  const CUSTOMER_WINDOW_VIOLATION := "CUSTOMER_WINDOW_VIOLATION"

  datatype ProposedPlacement = ProposedPlacement(
    workerId: string, vehicleId: Option<string>, jobId: string, businessDate: int)

  datatype CandidateVerdict = FeasibleCandidate | RejectedCandidate

  function NotPassing(constraints: seq<Constraint>): (r: seq<Constraint>)
    ensures forall c :: c in r <==> c in constraints && !c.status.Pass?
  {
    if constraints == [] then []
    else (if constraints[0].status.Pass? then [] else [constraints[0]]) + NotPassing(constraints[1..])
  }

  datatype Candidate = Candidate(
    id: string, constraints: seq<Constraint>, trace: seq<Constraint>, verdict: CandidateVerdict,
    placements: seq<ProposedPlacement>, residualUnresolvedImpact: bool, privateVehicleImpact: bool)
  {
    /** The rejection trace is what did not pass, and a candidate is feasible exactly when it is empty. */
    predicate Valid() {
      trace == NotPassing(constraints) && (verdict.FeasibleCandidate? <==> trace == [])
    }
  }

  datatype SearchOutcome =
    | FeasibleCandidatesFound | AllEvaluatedCandidatesRejected | SearchEnvelopeExhausted | CrewRepairUnsupported
    | InsufficientCriticalEvidence | NoRepairRequired

  function FeasibleIds(candidates: seq<Candidate>): (r: seq<string>)
    ensures r != [] <==> exists c | c in candidates :: c.verdict.FeasibleCandidate?
  {
    if candidates == [] then []
    else (if candidates[0].verdict.FeasibleCandidate? then [candidates[0].id] else []) + FeasibleIds(candidates[1..])
  }

  datatype SearchResult = SearchResult(
    outcome: SearchOutcome, candidates: seq<Candidate>, feasibleIds: seq<string>, exhausted: bool)
  {
    predicate Valid() {
      && (forall c | c in candidates :: c.Valid())
      && feasibleIds == FeasibleIds(candidates)
      && (outcome.FeasibleCandidatesFound? <==> feasibleIds != [])
      && (feasibleIds == [] && exhausted ==> outcome.SearchEnvelopeExhausted?)
      && (outcome.SearchEnvelopeExhausted? ==> exhausted && feasibleIds == [])
      && (outcome.AllEvaluatedCandidatesRejected? ==> !exhausted && feasibleIds == [])
    }
  }

  // ---------------------------------------------------------------- cost, tag and hard-boundary evidence

  datatype PolicySupport = IssuedSupported | PolicyUnsigned | PolicyUnsupported

  datatype Slice = Slice(jobId: string, operationalDate: int)

  /** The owner is asked to approve a candidate's cost once for every affected operational slice. */
  datatype CostSubject = CostSubject(candidateId: string, cents: int, represented: Slice, affected: seq<Slice>)

  /** The labour-cost consequence of a feasible candidate, and the operational slices it affects. */
  datatype Consequence = Consequence(cents: Option<int>, slices: seq<Slice>)

  datatype SubjectState = NoSubjects | CompleteSubjects | UnavailableUnsupportedPolicy

  datatype CostApplicability = CostWithinEnvelope | CostSoftException | CostUnknown

  const COST_THRESHOLD_CENTS := 5000

  datatype CostAssessment = CostAssessment(
    candidateId: string, cents: Option<int>, subjects: seq<CostSubject>, state: SubjectState)
  {
    /** The threshold of 50.00 EUR is inclusive. */
    function Applicability(): CostApplicability {
      if cents.None? then CostUnknown
      else if cents.value <= COST_THRESHOLD_CENTS then CostWithinEnvelope
      else CostSoftException
    }
  }

  function CostSubjects(candidateId: string, cents: int, slices: seq<Slice>): (r: seq<CostSubject>)
    ensures |r| == |slices| && forall i | 0 <= i < |r| :: r[i] == CostSubject(candidateId, cents, slices[i], slices)
  {
    seq(|slices|, i requires 0 <= i < |slices| => CostSubject(candidateId, cents, slices[i], slices))
  }

  /** `assess_candidate_cost`. */
  function AssessCost(candidateId: string, consequence: Consequence, supported: bool): (r: CostAssessment)
    ensures r.Applicability().CostUnknown? <==> consequence.cents.None?
    ensures r.subjects != [] ==> r.Applicability().CostSoftException? && supported
    ensures r.state.UnavailableUnsupportedPolicy? <==> r.Applicability().CostSoftException? && !supported
    ensures forall slice | r.state.CompleteSubjects? && slice in consequence.slices ::
      exists s | s in r.subjects ::
        s.represented == slice && s.affected == consequence.slices && Some(s.cents) == consequence.cents
    ensures r.candidateId == candidateId && r.cents == consequence.cents
    ensures r.Applicability().CostWithinEnvelope? <==> consequence.cents.Some? && consequence.cents.value <= 5000
    ensures r.Applicability().CostSoftException? <==> consequence.cents.Some? && consequence.cents.value > 5000
    ensures r.state.CompleteSubjects? <==> consequence.cents.Some? && consequence.cents.value > 5000 && supported
    ensures !r.state.CompleteSubjects? ==> r.subjects == []
    ensures r.state.CompleteSubjects? ==> |r.subjects| == |consequence.slices|
    ensures forall s | s in r.subjects ::
      && s.candidateId == candidateId && s.represented in consequence.slices && s.affected == consequence.slices
      && Some(s.cents) == consequence.cents
  {
    if consequence.cents.Some? && consequence.cents.value > COST_THRESHOLD_CENTS then
      if supported then
        CostAssessment(candidateId, consequence.cents,
                       CostSubjects(candidateId, consequence.cents.value, consequence.slices), CompleteSubjects)
      else CostAssessment(candidateId, consequence.cents, [], UnavailableUnsupportedPolicy)
    else CostAssessment(candidateId, consequence.cents, [], NoSubjects)
  }

  datatype TagApplicability = TagApplicable | TagNotApplicable | TagUnknown

  datatype TagAssessment = TagAssessment(candidateId: string, scopes: seq<Evidence.Scope>, coverageComplete: bool)
  {
    function Applicability(): TagApplicability {
      if !coverageComplete then TagUnknown else if scopes != [] then TagApplicable else TagNotApplicable
    }
  }

  datatype HardApplicability = HardNotApplicable | HardApplicable | HardUnknown

  datatype HardBoundary = HardBoundary(candidateId: string, applicability: HardApplicability, reason: Option<string>)
  {
    predicate Valid() {
      reason.Some? <==> !applicability.HardNotApplicable?
    }
  }

  // ---------------------------------------------------------------- requirements and selections

  datatype Gate = PAssign | PWindow | PCost | POvertime | PVehicle | PTag | PHorizon | PSearch | PartialRepair

  const GATES := [PAssign, PWindow, PCost, POvertime, PVehicle, PTag, PHorizon, PSearch, PartialRepair]

  datatype RequirementScope = DecisionScope(subject: CostSubject) | NaturalScope(scope: Evidence.Scope)

  datatype RequiredPrincipal = RequiresOwner | RequiresWorker(workerId: string)

  datatype Requirement = Requirement(
    gate: Gate, candidateId: string, scope: RequirementScope, principal: RequiredPrincipal)

  /** The owner approval selected for a requirement, if there is one. */
  datatype OwnerSelection = OwnerSelection(requirement: Requirement, approval: Option<string>)
  {
    predicate Selected() {
      approval.Some?
    }
  }

  datatype ConsentHead = ConsentHead(consentId: string, status: Evidence.ConsentStatus, isCurrentHead: bool)

  /** The consent record selected for a requirement, if there is one. */
  datatype ConsentSelection = ConsentSelection(requirement: Requirement, head: Option<ConsentHead>)
  {
    predicate Affirmative() {
      head.Some? && head.value.isCurrentHead && head.value.status.FreelyGiven?
    }
  }

  function OwnerRequirementOf(s: OwnerSelection): Requirement { s.requirement }

  function ConsentRequirementOf(s: ConsentSelection): Requirement { s.requirement }

  // ---------------------------------------------------------------- currentness

  datatype CurrentnessKind =
    | CompanyPlanRevisionHead | CurrentPlanningScope | HandoffPreconditions | JobTaskPreconditions
    | AssignmentPreconditions | PlanDayPreconditions | EvaluationInputBinding | SupportSelectedSources
    | FeasibilityRecomputation | CostChain | AuthorityRootBinding | PolicyBinding | OwnerApprovalSelections
    | WorkerConsentHeads | WorkingTimeMarkerHeads | DerivedUniverses

  datatype Subject =
    | OwnerSubject(requirement: Requirement)
    | ConsentSubject(requirement: Requirement)
    | NoRequiredSubjects(absent: CurrentnessKind)
    | OtherSubject(other: CurrentnessKind, key: string)
  {
    function Kind(): CurrentnessKind {
      match this
      case OwnerSubject(_) => OwnerApprovalSelections
      case ConsentSubject(_) => WorkerConsentHeads
      case NoRequiredSubjects(kind) => kind
      case OtherSubject(kind, _) => kind
    }
  }

  /** The evidence itself, which stands for its identity, revision, fingerprint and status. */
  datatype Content =
    | OwnerContent(owner: OwnerSelection)
    | ConsentContent(consent: ConsentSelection)
    | OtherContent(text: string)

  datatype EvidenceState = Present | AbsentEvidence | UnknownEvidence | IncompleteEvidence

  /** What the cut expects of one subject, and what was found when the decision was taken. */
  datatype Observation = Observation(
    subject: Subject, expectedState: EvidenceState, expected: Option<Content>, observedState: EvidenceState,
    observed: Option<Content>)
  {
    predicate Valid() {
      && (expectedState.AbsentEvidence? ==> expected.None?) && (expectedState.Present? ==> expected.Some?)
      && (observedState.AbsentEvidence? ==> observed.None?) && (observedState.Present? ==> observed.Some?)
    }

    /** Affirmative evidence, found exactly as expected. */
    predicate ExactMatch() {
      && (expectedState.Present? || expectedState.AbsentEvidence?)
      && observedState == expectedState && observed == expected
    }
  }

  function SubjectOf(o: Observation): Subject { o.subject }

  // ---------------------------------------------------------------- deriving the requirements

  datatype AuthorityError =
    | InvalidCut | VehicleBinding | VehicleAuthorityImpact | MissingSelection | MissingReason | UnsupportedGate
    | GateProjection | OutcomeProjection | SearchProjection

  function CostRequirements(subjects: seq<CostSubject>, candidateId: string): (r: seq<Requirement>)
    ensures |r| == |subjects|
    ensures forall i | 0 <= i < |r| ::
      r[i] == Requirement(PCost, candidateId, DecisionScope(subjects[i]), RequiresOwner)
  {
    seq(|subjects|, i requires 0 <= i < |subjects| =>
          Requirement(PCost, candidateId, DecisionScope(subjects[i]), RequiresOwner))
  }

  function TagRequirements(scopes: seq<Evidence.Scope>, candidateId: string): (r: seq<Requirement>)
    ensures |r| == |scopes|
    ensures forall i | 0 <= i < |r| :: r[i] == Requirement(PTag, candidateId, NaturalScope(scopes[i]), RequiresOwner)
  {
    seq(|scopes|, i requires 0 <= i < |scopes| =>
          Requirement(PTag, candidateId, NaturalScope(scopes[i]), RequiresOwner))
  }

  predicate UsesPrivateVehicle(p: ProposedPlacement, privateVehicles: map<string, bool>) {
    p.vehicleId.Some? && p.vehicleId.value in privateVehicles && privateVehicles[p.vehicleId.value]
  }

  function VehicleScope(p: ProposedPlacement): Evidence.Scope
    requires p.vehicleId.Some?
  {
    Evidence.ScopeRecord.Scope(Evidence.PrivateVehicleUse, Evidence.PrivateVehicle, p.vehicleId.value, p.businessDate,
                               p.jobId, Some(p.workerId))
  }

  /** Every private vehicle needs its owner's approval and its worker's consent. */
  function VehicleRequirements(
    placements: seq<ProposedPlacement>, privateVehicles: map<string, bool>, candidateId: string
  )
    : (r: seq<Requirement>)
    ensures forall q | q in r :: q.gate.PVehicle? && q.candidateId == candidateId
  {
    if placements == [] then []
    else
      var p := placements[|placements| - 1];
      VehicleRequirements(placements[..|placements| - 1], privateVehicles, candidateId)
      + if UsesPrivateVehicle(p, privateVehicles) then
          [Requirement(PVehicle, candidateId, NaturalScope(VehicleScope(p)), RequiresOwner),
           Requirement(PVehicle, candidateId, NaturalScope(VehicleScope(p)), RequiresWorker(p.workerId))]
        else []
  }

  /** Keeps the first of equal requirements. */
  function Collapse(values: seq<Requirement>): (r: seq<Requirement>)
    ensures forall x :: x in r <==> x in values
    ensures forall i, j | 0 <= i < j < |r| :: r[i] != r[j]
  {
    if values == [] then []
    else
      var init, last := Collapse(values[..|values| - 1]), values[|values| - 1];
      assert values == values[..|values| - 1] + [last];
      if last in init then init else init + [last]
  }

  function Derived(
    candidate: Candidate, cost: Option<CostAssessment>, tag: TagAssessment, privateVehicles: map<string, bool>
  )
    : seq<Requirement>
  {
    Collapse((if cost.Some? then CostRequirements(cost.value.subjects, candidate.id) else [])
             + TagRequirements(tag.scopes, candidate.id)
             + VehicleRequirements(candidate.placements, privateVehicles, candidate.id))
  }

  /** The placement is made with a vehicle that is known to be private. */
  ghost predicate PlacesPrivateVehicle(p: ProposedPlacement, privateVehicles: map<string, bool>) {
    exists id | id in privateVehicles :: p.vehicleId == Some(id) && privateVehicles[id]
  }

  /** The owner's approval or the worker's consent for the private vehicle of one placement. */
  function VehicleRequirement(candidateId: string, p: ProposedPlacement, principal: RequiredPrincipal): Requirement
    requires p.vehicleId.Some?
  {
    var scope := Evidence.ScopeRecord.Scope(
      Evidence.PrivateVehicleUse, Evidence.PrivateVehicle, p.vehicleId.value, p.businessDate, p.jobId,
      Some(p.workerId));
    Requirement(PVehicle, candidateId, NaturalScope(scope), principal)
  }

  lemma {:induction false} VehicleRequirementsMean(
    placements: seq<ProposedPlacement>, privateVehicles: map<string, bool>, candidateId: string, q: Requirement
  )
    ensures q in VehicleRequirements(placements, privateVehicles, candidateId) <==>
      exists p | p in placements && PlacesPrivateVehicle(p, privateVehicles) ::
        || q == VehicleRequirement(candidateId, p, RequiresOwner)
        || q == VehicleRequirement(candidateId, p, RequiresWorker(p.workerId))
  {
    if placements != [] {
      var n := |placements| - 1;
      var init, last := placements[..n], placements[n];
      assert placements == init + [last];
      VehicleRequirementsMean(init, privateVehicles, candidateId, q);
    }
  }

  /** What a candidate needs: the owner for each slice of an excessive cost and for each tag, and the owner and the
      worker for each private vehicle. */
  ghost predicate IsNeeded(
    candidate: Candidate, cost: Option<CostAssessment>, tag: TagAssessment, privateVehicles: map<string, bool>,
    q: Requirement
  ) {
    || (cost.Some? && exists s | s in cost.value.subjects ::
          q == Requirement(PCost, candidate.id, DecisionScope(s), RequiresOwner))
    || (exists scope | scope in tag.scopes ::
          q == Requirement(PTag, candidate.id, NaturalScope(scope), RequiresOwner))
    || (exists p | p in candidate.placements && PlacesPrivateVehicle(p, privateVehicles) ::
          || q == VehicleRequirement(candidate.id, p, RequiresOwner)
          || q == VehicleRequirement(candidate.id, p, RequiresWorker(p.workerId)))
  }

  lemma {:induction false} CostRequirementsMean(subjects: seq<CostSubject>, candidateId: string, q: Requirement)
    ensures q in CostRequirements(subjects, candidateId) <==>
      exists s | s in subjects :: q == Requirement(PCost, candidateId, DecisionScope(s), RequiresOwner)
  {
    if s :| s in subjects && q == Requirement(PCost, candidateId, DecisionScope(s), RequiresOwner) {
      var i :| 0 <= i < |subjects| && subjects[i] == s;
      assert CostRequirements(subjects, candidateId)[i] == q;
    }
  }

  lemma {:induction false} TagRequirementsMean(scopes: seq<Evidence.Scope>, candidateId: string, q: Requirement)
    ensures q in TagRequirements(scopes, candidateId) <==>
      exists scope | scope in scopes :: q == Requirement(PTag, candidateId, NaturalScope(scope), RequiresOwner)
  {
    if scope :| scope in scopes && q == Requirement(PTag, candidateId, NaturalScope(scope), RequiresOwner) {
      var i :| 0 <= i < |scopes| && scopes[i] == scope;
      assert TagRequirements(scopes, candidateId)[i] == q;
    }
  }

  lemma {:induction false} DerivedMeans(
    candidate: Candidate, cost: Option<CostAssessment>, tag: TagAssessment, privateVehicles: map<string, bool>,
    q: Requirement
  )
    ensures q in Derived(candidate, cost, tag, privateVehicles) <==>
      || (cost.Some? && q in CostRequirements(cost.value.subjects, candidate.id))
      || q in TagRequirements(tag.scopes, candidate.id)
      || q in VehicleRequirements(candidate.placements, privateVehicles, candidate.id)
  {
    hide Collapse, VehicleRequirements, CostRequirements, TagRequirements;
  }

  /** The requirements derived for a candidate are exactly what it needs. */
  lemma {:induction false} DerivedIsNeeded(
    candidate: Candidate, cost: Option<CostAssessment>, tag: TagAssessment, privateVehicles: map<string, bool>,
    q: Requirement
  )
    ensures q in Derived(candidate, cost, tag, privateVehicles) <==>
      IsNeeded(candidate, cost, tag, privateVehicles, q)
  {
    hide Derived, CostRequirements, TagRequirements, VehicleRequirements, VehicleRequirement;
    DerivedMeans(candidate, cost, tag, privateVehicles, q);
    if cost.Some? {
      CostRequirementsMean(cost.value.subjects, candidate.id, q);
    }
    TagRequirementsMean(tag.scopes, candidate.id, q);
    VehicleRequirementsMean(candidate.placements, privateVehicles, candidate.id, q);
  }

  predicate VehiclesKnown(placements: seq<ProposedPlacement>, privateVehicles: map<string, bool>) {
    forall p | p in placements && p.vehicleId.Some? :: p.vehicleId.value in privateVehicles
  }

  predicate UsesAnyPrivateVehicle(placements: seq<ProposedPlacement>, privateVehicles: map<string, bool>) {
    exists p | p in placements :: UsesPrivateVehicle(p, privateVehicles)
  }

  /** The candidate reports the private-vehicle impact exactly when it uses a private vehicle. */
  predicate ImpactMatches(candidate: Candidate, privateVehicles: map<string, bool>) {
    candidate.privateVehicleImpact <==> UsesAnyPrivateVehicle(candidate.placements, privateVehicles)
  }

  lemma {:induction false} OneMorePlacement(
    init: seq<ProposedPlacement>, p: ProposedPlacement, privateVehicles: map<string, bool>, candidateId: string
  )
    ensures VehiclesKnown(init + [p], privateVehicles) <==>
      VehiclesKnown(init, privateVehicles) && (p.vehicleId.Some? ==> p.vehicleId.value in privateVehicles)
    ensures UsesAnyPrivateVehicle(init + [p], privateVehicles) <==>
      UsesAnyPrivateVehicle(init, privateVehicles) || UsesPrivateVehicle(p, privateVehicles)
    ensures VehicleRequirements(init + [p], privateVehicles, candidateId) ==
      VehicleRequirements(init, privateVehicles, candidateId)
      + if UsesPrivateVehicle(p, privateVehicles) then
          [Requirement(PVehicle, candidateId, NaturalScope(VehicleScope(p)), RequiresOwner),
           Requirement(PVehicle, candidateId, NaturalScope(VehicleScope(p)), RequiresWorker(p.workerId))]
        else []
  {
    hide UsesPrivateVehicle;
    assert (init + [p])[..|init|] == init;
    assert forall q :: q in init + [p] <==> q in init || q == p;
  }

  /** The vehicle loop of `derive_authority_requirements`. */
  method AppendVehicleRequirements(candidate: Candidate, privateVehicles: map<string, bool>, values: seq<Requirement>)
    returns (result: Result<seq<Requirement>, AuthorityError>)
    ensures result.Ok? <==>
      VehiclesKnown(candidate.placements, privateVehicles) && ImpactMatches(candidate, privateVehicles)
    ensures result == Err(VehicleBinding) <==> !VehiclesKnown(candidate.placements, privateVehicles)
    ensures result.Ok? ==>
      result.value == values + VehicleRequirements(candidate.placements, privateVehicles, candidate.id)
    ensures result.Err? ==> result.error.VehicleBinding? || result.error.VehicleAuthorityImpact?
  {
    var placements := candidate.placements;
    var appended: seq<Requirement> := [];
    var usesPrivate := false;
    for i := 0 to |placements|
      invariant VehiclesKnown(placements[..i], privateVehicles)
      invariant usesPrivate == UsesAnyPrivateVehicle(placements[..i], privateVehicles)
      invariant appended == VehicleRequirements(placements[..i], privateVehicles, candidate.id)
    {
      var p := placements[i];
      assert placements[..i + 1][..i] == placements[..i] && placements[..i + 1] == placements[..i] + [p];
      OneMorePlacement(placements[..i], p, privateVehicles, candidate.id);
      if p.vehicleId.Some? {
        if p.vehicleId.value !in privateVehicles {
          return Err(VehicleBinding);
        }
        if privateVehicles[p.vehicleId.value] {
          usesPrivate := true;
          var scope := NaturalScope(VehicleScope(p));
          appended := appended + [Requirement(PVehicle, candidate.id, scope, RequiresOwner),
                                  Requirement(PVehicle, candidate.id, scope, RequiresWorker(p.workerId))];
        }
      }
    }
    assert placements[..|placements|] == placements;
    if usesPrivate != candidate.privateVehicleImpact {
      return Err(VehicleAuthorityImpact);
    }
    result := Ok(values + appended);
  }

  lemma {:induction false} ImpactMeans(candidate: Candidate, privateVehicles: map<string, bool>)
    ensures ImpactMatches(candidate, privateVehicles) <==>
      (candidate.privateVehicleImpact <==>
        exists p | p in candidate.placements :: PlacesPrivateVehicle(p, privateVehicles))
  {
    forall p ensures UsesPrivateVehicle(p, privateVehicles) <==> PlacesPrivateVehicle(p, privateVehicles) {}
  }

  function Itself(q: Requirement): Requirement { q }

  /** Sorting what was derived changes neither what is asked nor how often. */
  lemma {:induction false} RearrangedDerived(
    candidate: Candidate, cost: Option<CostAssessment>, tag: TagAssessment, privateVehicles: map<string, bool>,
    requirements: seq<Requirement>
  )
    requires multiset(requirements) == multiset(Derived(candidate, cost, tag, privateVehicles))
    ensures forall i, j | 0 <= i < j < |requirements| :: requirements[i] != requirements[j]
    ensures forall q :: q in requirements <==> IsNeeded(candidate, cost, tag, privateVehicles, q)
  {
    var derived := Derived(candidate, cost, tag, privateVehicles);
    UniqueRearranged(derived, requirements, Itself);
    SameMembers(derived, requirements);
    assert forall i, j | 0 <= i < j < |requirements| :: Itself(requirements[i]) != Itself(requirements[j]);
    hide Derived, IsNeeded;
    forall q ensures q in requirements <==> IsNeeded(candidate, cost, tag, privateVehicles, q) {
      DerivedIsNeeded(candidate, cost, tag, privateVehicles, q);
    }
  }

  /** `derive_authority_requirements`; `order` is the canonical order of requirements. */
  method DeriveAuthorityRequirements(
    candidate: Candidate, cost: Option<CostAssessment>, tag: TagAssessment, privateVehicles: map<string, bool>,
    order: (Requirement, Requirement) -> bool
  ) returns (result: Result<seq<Requirement>, AuthorityError>)
    requires TotalPreorder(order)
    ensures result.Ok? <==>
      VehiclesKnown(candidate.placements, privateVehicles) && ImpactMatches(candidate, privateVehicles)
    ensures result.Ok? ==>
      && SortedBy(result.value, order)
      && multiset(result.value) == multiset(Derived(candidate, cost, tag, privateVehicles))
    ensures result == Err(VehicleBinding) <==> exists p | p in candidate.placements ::
      p.vehicleId.Some? && p.vehicleId.value !in privateVehicles
    ensures result == Err(VehicleAuthorityImpact) <==>
      && (forall p | p in candidate.placements && p.vehicleId.Some? :: p.vehicleId.value in privateVehicles)
      && candidate.privateVehicleImpact !=
           exists p | p in candidate.placements :: PlacesPrivateVehicle(p, privateVehicles)
    ensures result.Ok? ==>
      && (forall i, j | 0 <= i < j < |result.value| :: result.value[i] != result.value[j])
      && forall q :: q in result.value <==> IsNeeded(candidate, cost, tag, privateVehicles, q)
  {
    hide VehicleRequirements, Collapse, IsNeeded, PlacesPrivateVehicle, ImpactMatches;
    ImpactMeans(candidate, privateVehicles);
    var values: seq<Requirement> := [];
    if cost.Some? {
      for i := 0 to |cost.value.subjects|
        invariant values == CostRequirements(cost.value.subjects[..i], candidate.id)
      {
        values := values + [Requirement(PCost, candidate.id, DecisionScope(cost.value.subjects[i]), RequiresOwner)];
      }
      assert cost.value.subjects[..|cost.value.subjects|] == cost.value.subjects;
    }
    ghost var costValues := values;
    for i := 0 to |tag.scopes|
      invariant values == costValues + TagRequirements(tag.scopes[..i], candidate.id)
    {
      values := values + [Requirement(PTag, candidate.id, NaturalScope(tag.scopes[i]), RequiresOwner)];
    }
    assert tag.scopes[..|tag.scopes|] == tag.scopes;
    var withVehicles := AppendVehicleRequirements(candidate, privateVehicles, values);
    if withVehicles.Err? {
      return Err(withVehicles.error);
    }
    var requirements := Collapse(withVehicles.value);
    SortPermutes(requirements, order);
    SortSorts(requirements, order);
    RearrangedDerived(candidate, cost, tag, privateVehicles, Sort(requirements, order));
    result := Ok(Sort(requirements, order));
  }
}
