/** The evaluation of an authority evidence cut: gates, outcome, and the constructor checks that compare them. */
module AuthorityEvaluation {
  import opened Prelude
  import opened PromiseSemantics
  import opened Authority
  import Working = WorkingTime

  datatype Cut = Cut(
    search: SearchResult, businessDate: int, privateVehicles: map<string, bool>, consequences: map<string, Consequence>,
    policy: PolicySupport, policyReason: Option<string>, hard: seq<HardBoundary>,
    overtime: seq<Working.OvertimeAssessment>, tags: seq<TagAssessment>, costs: seq<CostAssessment>,
    requirementSets: seq<seq<Requirement>>, ownerSelections: seq<OwnerSelection>,
    consentSelections: seq<ConsentSelection>, observations: seq<Observation>)
  {
    predicate AllCurrent() {
      forall o | o in observations :: o.ExactMatch()
    }
  }

  // ---------------------------------------------------------------- valid cuts

  function CandidateId(c: Candidate): string { c.id }

  /** The position that a dictionary by candidate id keeps: the last one, or -1. */
  function LastPosition(candidates: seq<Candidate>, id: string): int {
    if candidates == [] then -1
    else if candidates[|candidates| - 1].id == id then |candidates| - 1
    else LastPosition(candidates[..|candidates| - 1], id)
  }

  /** Every candidate finds the assessment at its own position under its own id. */
  ghost predicate PositionsFound(candidates: seq<Candidate>) {
    forall i | 0 <= i < |candidates| :: LastPosition(candidates, candidates[i].id) == i
  }

  lemma {:induction false} LastPositionIsLast(candidates: seq<Candidate>, id: string, i: nat)
    requires i < |candidates| && candidates[i].id == id
    ensures var last := LastPosition(candidates, id); i <= last < |candidates| && candidates[last].id == id
  {
    if candidates[|candidates| - 1].id != id {
      LastPositionIsLast(candidates[..|candidates| - 1], id, i);
    }
  }

  /** The check of positions is a check that no two candidates share an id. */
  lemma {:induction false} PositionsFoundIffUnique(candidates: seq<Candidate>)
    ensures PositionsFound(candidates) <==> UniqueBy(candidates, CandidateId)
  {
    forall i | 0 <= i < |candidates|
      ensures i <= LastPosition(candidates, candidates[i].id) < |candidates|
      ensures candidates[LastPosition(candidates, candidates[i].id)].id == candidates[i].id
    {
      LastPositionIsLast(candidates, candidates[i].id, i);
    }
    if PositionsFound(candidates) {
      forall i, j | 0 <= i < j < |candidates| ensures CandidateId(candidates[i]) != CandidateId(candidates[j]) {
        LastPositionIsLast(candidates, candidates[j].id, j);
      }
    } else {
      var i :| 0 <= i < |candidates| && LastPosition(candidates, candidates[i].id) != i;
      assert CandidateId(candidates[i]) == CandidateId(candidates[LastPosition(candidates, candidates[i].id)]);
    }
  }

  /** One cost assessment for each feasible candidate, in order. */
  function ExpectedCosts(
    candidates: seq<Candidate>, consequences: map<string, Consequence>, supported: bool
  ): seq<CostAssessment>
    requires forall c | c in candidates && c.verdict.FeasibleCandidate? :: c.id in consequences
  {
    if candidates == [] then []
    else
      var c := candidates[0];
      (if c.verdict.FeasibleCandidate? then [AssessCost(c.id, consequences[c.id], supported)] else [])
      + ExpectedCosts(candidates[1..], consequences, supported)
  }

  function FindCost(costs: seq<CostAssessment>, id: string): Option<CostAssessment> {
    if costs == [] then None else if costs[0].candidateId == id then Some(costs[0]) else FindCost(costs[1..], id)
  }

  ghost predicate CostsComplete(cut: Cut) {
    && (forall c | c in cut.search.candidates && c.verdict.FeasibleCandidate? ::
          c.id in cut.consequences && cut.consequences[c.id].slices != [])
    && cut.costs == ExpectedCosts(cut.search.candidates, cut.consequences, cut.policy.IssuedSupported?)
  }

  /** One hard boundary, overtime assessment, tag assessment and requirement set per candidate, in order. */
  ghost predicate Aligned(cut: Cut) {
    var n := |cut.search.candidates|;
    && |cut.hard| == |cut.overtime| == |cut.tags| == |cut.requirementSets| == n
    && forall i | 0 <= i < n ::
         && cut.hard[i].candidateId == cut.search.candidates[i].id && cut.hard[i].Valid()
         && cut.tags[i].candidateId == cut.search.candidates[i].id
  }

  ghost predicate RequirementsDerived(cut: Cut)
    requires Aligned(cut)
  {
    forall i | 0 <= i < |cut.search.candidates| ::
      var c := cut.search.candidates[i];
      && VehiclesKnown(c.placements, cut.privateVehicles) && ImpactMatches(c, cut.privateVehicles)
      && multiset(cut.requirementSets[i]) ==
           multiset(Derived(c, FindCost(cut.costs, c.id), cut.tags[i], cut.privateVehicles))
  }

  ghost predicate Required(cut: Cut, q: Requirement) {
    exists i | 0 <= i < |cut.requirementSets| :: q in cut.requirementSets[i]
  }

  /** Exactly one selection for every requirement of its kind, and for nothing else. */
  ghost predicate SelectionsCover(cut: Cut) {
    && UniqueBy(cut.ownerSelections, OwnerRequirementOf) && UniqueBy(cut.consentSelections, ConsentRequirementOf)
    && (forall q :: HasKey(cut.ownerSelections, OwnerRequirementOf, q) <==>
          Required(cut, q) && q.principal.RequiresOwner?)
    && (forall q :: HasKey(cut.consentSelections, ConsentRequirementOf, q) <==>
          Required(cut, q) && q.principal.RequiresWorker?)
  }

  /** No approval and no consent is selected for two different scopes. */
  predicate NoCrossScopeReuse(cut: Cut) {
    && (forall s, t | s in cut.ownerSelections && t in cut.ownerSelections && s.Selected()
          && s.approval == t.approval ::
          s.requirement.scope == t.requirement.scope)
    && forall s, t | s in cut.consentSelections && t in cut.consentSelections && s.head.Some? && t.head.Some?
                     && s.head.value.consentId == t.head.value.consentId ::
         s.requirement.scope == t.requirement.scope && s.requirement.principal == t.requirement.principal
  }

  /** What the cut expects the decision-time evidence to be: each selection itself is expected under its requirement,
      and a kind without subjects is expected to be absent. */
  predicate ExpectationDerived(cut: Cut, o: Observation) {
    match o.subject
    case OwnerSubject(q) =>
      o.expectedState.Present? && exists s | s in cut.ownerSelections ::
        s.requirement == q && o.expected == Some(OwnerContent(s))
    case ConsentSubject(q) =>
      o.expectedState.Present? && exists s | s in cut.consentSelections ::
        s.requirement == q && o.expected == Some(ConsentContent(s))
    case NoRequiredSubjects(kind) =>
      o.expectedState.AbsentEvidence? && forall other | other in cut.observations && other.subject.Kind() == kind ::
        other == o
    case OtherSubject(kind, _) => !kind.OwnerApprovalSelections? && !kind.WorkerConsentHeads?
  }

  predicate KindObserved(cut: Cut, kind: CurrentnessKind) {
    exists o | o in cut.observations :: o.subject.Kind() == kind
  }

  /** One observation for each required subject, with the derived expectation, and none of the kinds left out. */
  ghost predicate CurrentnessDerived(cut: Cut) {
    && UniqueBy(cut.observations, SubjectOf)
    && (forall o | o in cut.observations :: o.Valid() && ExpectationDerived(cut, o))
    && (forall s | s in cut.ownerSelections :: HasKey(cut.observations, SubjectOf, OwnerSubject(s.requirement)))
    && (forall s | s in cut.consentSelections :: HasKey(cut.observations, SubjectOf, ConsentSubject(s.requirement)))
    && forall kind: CurrentnessKind :: KindObserved(cut, kind)
  }

  ghost predicate OvertimeValid(cut: Cut) {
    forall a, c | a in cut.overtime && c in a.comparisons :: c.Valid()
  }

  /** What the cut re-checks about its overtime evidence, its selections and its currentness vector. */
  ghost predicate EvidenceBound(cut: Cut) {
    OvertimeValid(cut) && NoCrossScopeReuse(cut) && CurrentnessDerived(cut)
  }

  ghost predicate ValidCut(cut: Cut) {
    && cut.search.Valid() && PositionsFound(cut.search.candidates)
    && (cut.policy.IssuedSupported? <==> cut.policyReason.None?)
    && Aligned(cut) && CostsComplete(cut) && RequirementsDerived(cut) && SelectionsCover(cut) && EvidenceBound(cut)
  }

  // ---------------------------------------------------------------- what one assessment is computed from

  function WithReason(trace: seq<Constraint>, windows: bool): (r: seq<Constraint>)
    ensures forall c :: c in r <==> c in trace && c.status.Fail? && (c.reason == CUSTOMER_WINDOW_VIOLATION <==> windows)
  {
    if trace == [] then []
    else
      var c := trace[0];
      (if c.status.Fail? && (c.reason == CUSTOMER_WINDOW_VIOLATION <==> windows) then [c] else [])
        + WithReason(trace[1..], windows)
  }

  function Unknowns(trace: seq<Constraint>): (r: seq<Constraint>)
    ensures forall c :: c in r <==> c in trace && c.status.UnknownConstraint?
  {
    if trace == [] then [] else (if trace[0].status.UnknownConstraint? then [trace[0]] else []) + Unknowns(trace[1..])
  }

  /** The owner requirements without a selected approval. */
  function MissingOwner(requirements: seq<Requirement>, owners: map<Requirement, OwnerSelection>): (r: seq<Requirement>)
    requires forall q | q in requirements && q.principal.RequiresOwner? :: q in owners
    ensures forall q :: q in r <==> q in requirements && q.principal.RequiresOwner? && !owners[q].Selected()
  {
    if requirements == [] then []
    else
      var q := requirements[0];
      (if q.principal.RequiresOwner? && !owners[q].Selected() then [q] else [])
        + MissingOwner(requirements[1..], owners)
  }

  /** The worker requirements without a current, freely given consent. */
  function Nonaffirmative(
    requirements: seq<Requirement>, consents: map<Requirement, ConsentSelection>
  ): (r: seq<Requirement>)
    requires forall q | q in requirements && q.principal.RequiresWorker? :: q in consents
    ensures forall q :: q in r <==> q in requirements && q.principal.RequiresWorker? && !consents[q].Affirmative()
  {
    if requirements == [] then []
    else
      var q := requirements[0];
      (if q.principal.RequiresWorker? && !consents[q].Affirmative() then [q] else [])
        + Nonaffirmative(requirements[1..], consents)
  }

  function ForGate(requirements: seq<Requirement>, gate: Gate): (r: seq<Requirement>)
    ensures forall q :: q in r <==> q in requirements && q.gate == gate
    ensures r == [] <==> forall q | q in requirements :: q.gate != gate
    ensures (forall i, j | 0 <= i < j < |requirements| :: requirements[i] != requirements[j]) ==>
      forall i, j | 0 <= i < j < |r| :: r[i] != r[j]
  {
    if requirements == [] then []
    else
      var rest := ForGate(requirements[1..], gate);
      assert requirements == [requirements[0]] + requirements[1..];
      if requirements[0].gate == gate then [requirements[0]] + rest else rest
  }

  datatype Facts = Facts(
    candidate: Candidate, hard: HardBoundary, cost: Option<CostAssessment>, overtime: Working.OvertimeApplicability,
    tag: TagApplicability, requirements: seq<Requirement>, missingOwner: seq<Requirement>,
    nonaffirmative: seq<Requirement>, laterDay: bool, exhaustedInVain: bool, allCurrent: bool, policy: PolicySupport,
    policyReason: Option<string>)
  {
    function WindowFailures(): seq<Constraint> { WithReason(candidate.trace, true) }

    function OrdinaryFailures(): seq<Constraint> { WithReason(candidate.trace, false) }

    function UnknownConstraints(): seq<Constraint> { Unknowns(candidate.trace) }

    predicate MissingAt(gate: Gate) {
      exists q | q in missingOwner :: q.gate == gate
    }

    function CostApplies(): CostApplicability {
      if cost.Some? then cost.value.Applicability() else CostWithinEnvelope
    }

    predicate SoftException() {
      CostApplies().CostSoftException? || tag.TagApplicable?
    }
  }

  predicate SelectionsKnown(
    requirements: seq<Requirement>, owners: map<Requirement, OwnerSelection>,
    consents: map<Requirement, ConsentSelection>
  ) {
    forall q | q in requirements :: if q.principal.RequiresOwner? then q in owners else q in consents
  }

  function FactsFrom(
    cut: Cut, i: nat, owners: map<Requirement, OwnerSelection>, consents: map<Requirement, ConsentSelection>
  ): Facts
    requires i < |cut.search.candidates| && i < |cut.hard| && i < |cut.overtime| && i < |cut.tags|
    requires i < |cut.requirementSets| && SelectionsKnown(cut.requirementSets[i], owners, consents)
  {
    var candidate, requirements := cut.search.candidates[i], cut.requirementSets[i];
    Facts(candidate, cut.hard[i], FindCost(cut.costs, candidate.id), cut.overtime[i].Applicability(),
          cut.tags[i].Applicability(), requirements, MissingOwner(requirements, owners),
          Nonaffirmative(requirements, consents),
          exists p | p in candidate.placements :: p.businessDate != cut.businessDate,
          cut.search.exhausted && cut.search.feasibleIds == [], cut.AllCurrent(), cut.policy, cut.policyReason)
  }

  function FactsOf(cut: Cut, i: nat): Result<Facts, AuthorityError>
    requires i < |cut.search.candidates|
  {
    if i >= |cut.hard| || i >= |cut.overtime| || i >= |cut.tags| || i >= |cut.requirementSets| then Err(InvalidCut)
    else
      var owners := TableBy(cut.ownerSelections, OwnerRequirementOf);
      var consents := TableBy(cut.consentSelections, ConsentRequirementOf);
      if !SelectionsKnown(cut.requirementSets[i], owners, consents) then Err(MissingSelection)
      else Ok(FactsFrom(cut, i, owners, consents))
  }

  // ---------------------------------------------------------------- the nine gates

  /** The reason codes of gates and outcomes; `Stated` carries the code of a boundary, a constraint or a policy. */
  datatype Reason =
    | OwnerDecisionRequired | CostConsequenceIncomplete | CostApprovalRequired | OvertimeEvidenceUnknown
    | OvertimeAuthorityRequired | WorkerConsentRequired | VehicleApprovalRequired | MarkerEvidenceUnknown
    | TagApprovalRequired | LaterDayAuthorityRequired | EnvelopeExhausted | UnresolvedImpact | CurrentnessFailed
    | OwnerApprovedSoftException | SearchStopped(outcome: SearchOutcome) | Stated(text: string)

  /** An optional code; a gate or an outcome without one is refused by its constructor. */
  function Stating(code: Option<string>): Option<Reason> {
    if code.Some? then Some(Stated(code.value)) else None
  }

  datatype GateDecision = PassGate | NeedsHumanAuthority | HardBlockGate | Indeterminate

  datatype GateAssessment = GateAssessment(
    gate: Gate, decision: GateDecision, reasons: seq<Option<Reason>>, requirements: seq<Requirement>)

  function Codes(constraints: seq<Constraint>): (r: seq<Option<Reason>>)
    ensures |r| == |constraints| && forall i | 0 <= i < |r| :: r[i] == Some(Stated(constraints[i].reason))
  {
    seq(|constraints|, i requires 0 <= i < |constraints| => Some(Stated(constraints[i].reason)))
  }

  function AssignGate(f: Facts): GateAssessment {
    if f.hard.applicability.HardApplicable? then GateAssessment(PAssign, HardBlockGate, [Stating(f.hard.reason)], [])
    else if f.hard.applicability.HardUnknown? then GateAssessment(PAssign, Indeterminate, [Stating(f.hard.reason)], [])
    else if f.OrdinaryFailures() != [] then GateAssessment(PAssign, HardBlockGate, Codes(f.OrdinaryFailures()), [])
    else if f.UnknownConstraints() != [] then GateAssessment(PAssign, Indeterminate, Codes(f.UnknownConstraints()), [])
    else GateAssessment(PAssign, PassGate, [], [])
  }

  function WindowGate(f: Facts): GateAssessment {
    if f.WindowFailures() != [] then
      GateAssessment(PWindow, NeedsHumanAuthority, [Some(OwnerDecisionRequired)], [])
    else GateAssessment(PWindow, PassGate, [], [])
  }

  function CostGate(f: Facts): GateAssessment {
    if f.cost.None? then GateAssessment(PCost, PassGate, [], [])
    else
      var requirements := ForGate(f.requirements, PCost);
      if f.CostApplies().CostUnknown? then
        GateAssessment(PCost, Indeterminate, [Some(CostConsequenceIncomplete)], requirements)
      else if f.MissingAt(PCost) then
        GateAssessment(PCost, NeedsHumanAuthority, [Some(CostApprovalRequired)], requirements)
      else GateAssessment(PCost, PassGate, [], requirements)
  }

  function OvertimeGate(f: Facts): GateAssessment {
    match f.overtime
    case DoesNotCreateOvertime => GateAssessment(POvertime, PassGate, [], [])
    case UnknownOvertime => GateAssessment(POvertime, Indeterminate, [Some(OvertimeEvidenceUnknown)], [])
    case CreatesOvertime => GateAssessment(POvertime, NeedsHumanAuthority, [Some(OvertimeAuthorityRequired)], [])
  }

  function VehicleGate(f: Facts): GateAssessment {
    var requirements := ForGate(f.requirements, PVehicle);
    if f.nonaffirmative != [] then
      GateAssessment(PVehicle, Indeterminate, [Some(WorkerConsentRequired)], requirements)
    else if f.MissingAt(PVehicle) then
      GateAssessment(PVehicle, NeedsHumanAuthority, [Some(VehicleApprovalRequired)], requirements)
    else GateAssessment(PVehicle, PassGate, [], requirements)
  }

  function TagGate(f: Facts): GateAssessment {
    var requirements := ForGate(f.requirements, PTag);
    if f.tag.TagUnknown? then GateAssessment(PTag, Indeterminate, [Some(MarkerEvidenceUnknown)], requirements)
    else if f.MissingAt(PTag) then
      GateAssessment(PTag, NeedsHumanAuthority, [Some(TagApprovalRequired)], requirements)
    else GateAssessment(PTag, PassGate, [], requirements)
  }

  function HorizonGate(f: Facts): GateAssessment {
    if f.laterDay then
      GateAssessment(PHorizon, NeedsHumanAuthority, [Some(LaterDayAuthorityRequired)], [])
    else GateAssessment(PHorizon, PassGate, [], [])
  }

  function SearchGate(f: Facts): GateAssessment {
    if f.exhaustedInVain then GateAssessment(PSearch, Indeterminate, [Some(EnvelopeExhausted)], [])
    else GateAssessment(PSearch, PassGate, [], [])
  }

  function PartialGate(f: Facts): GateAssessment {
    if f.candidate.residualUnresolvedImpact then
      GateAssessment(PartialRepair, Indeterminate, [Some(UnresolvedImpact)], [])
    else GateAssessment(PartialRepair, PassGate, [], [])
  }

  function GateOf(f: Facts, gate: Gate): GateAssessment {
    match gate
    case PAssign => AssignGate(f)
    case PWindow => WindowGate(f)
    case PCost => CostGate(f)
    case POvertime => OvertimeGate(f)
    case PVehicle => VehicleGate(f)
    case PTag => TagGate(f)
    case PHorizon => HorizonGate(f)
    case PSearch => SearchGate(f)
    case PartialRepair => PartialGate(f)
  }

  /** The gates in the order of their codes. */
  function GatesOf(f: Facts): (r: seq<GateAssessment>)
    ensures |r| == |GATES| && forall i | 0 <= i < |r| :: r[i] == GateOf(f, GATES[i])
  {
    seq(|GATES|, i requires 0 <= i < |GATES| => GateOf(f, GATES[i]))
  }

  // ---------------------------------------------------------------- the outcome

  datatype AuthorityOutcome = Act | Ask | Block | AbstainOutcome

  datatype Verdict = Verdict(outcome: AuthorityOutcome, disposition: Disposition, reasons: seq<Option<Reason>>)

  function ApprovalReason(gate: Gate): Option<Reason> {
    match gate
    case PCost => Some(CostApprovalRequired)
    case PTag => Some(TagApprovalRequired)
    case PVehicle => Some(VehicleApprovalRequired)
    case _ => None
  }

  /** The reasons of the missing approvals, each once; a requirement of any other gate has none. */
  function ApprovalReasons(missing: seq<Requirement>): (r: seq<Option<Reason>>)
    ensures forall x :: x in r <==> exists q | q in missing :: ApprovalReason(q.gate) == x
  {
    if missing == [] then []
    else
      var init, last := missing[..|missing| - 1], missing[|missing| - 1];
      assert missing == init + [last];
      var reasons := ApprovalReasons(init);
      if ApprovalReason(last.gate) in reasons then reasons else reasons + [ApprovalReason(last.gate)]
  }

  function Decide(f: Facts): Verdict {
    if f.hard.applicability.HardApplicable? then Verdict(Block, Forbidden, [Stating(f.hard.reason)])
    else if f.OrdinaryFailures() != [] then Verdict(Block, Abstain, Codes(f.candidate.trace))
    else if f.WindowFailures() != [] then Verdict(Ask, Abstain, [Some(OwnerDecisionRequired)])
    else if f.UnknownConstraints() != [] then Verdict(AbstainOutcome, Abstain, Codes(f.UnknownConstraints()))
    else if f.hard.applicability.HardUnknown? then Verdict(AbstainOutcome, Abstain, [Stating(f.hard.reason)])
    else if !f.allCurrent then Verdict(AbstainOutcome, Abstain, [Some(CurrentnessFailed)])
    else if f.CostApplies().CostUnknown? then
      Verdict(AbstainOutcome, Abstain, [Some(CostConsequenceIncomplete)])
    else if f.overtime.UnknownOvertime? then Verdict(AbstainOutcome, Abstain, [Some(OvertimeEvidenceUnknown)])
    else if f.tag.TagUnknown? then Verdict(AbstainOutcome, Abstain, [Some(MarkerEvidenceUnknown)])
    else if f.candidate.residualUnresolvedImpact then
      Verdict(AbstainOutcome, Abstain, [Some(UnresolvedImpact)])
    else if !f.policy.IssuedSupported? then Verdict(AbstainOutcome, Abstain, [Stating(f.policyReason)])
    else if f.nonaffirmative != [] then
      Verdict(AbstainOutcome, Abstain, [Some(WorkerConsentRequired)])
    else if f.missingOwner != [] then Verdict(Ask, Abstain, ApprovalReasons(f.missingOwner))
    else if f.overtime.CreatesOvertime? then Verdict(Ask, Abstain, [Some(OvertimeAuthorityRequired)])
    else if f.laterDay then Verdict(Ask, Abstain, [Some(LaterDayAuthorityRequired)])
    else if f.SoftException() then Verdict(Act, ExecuteWithRecordedRisk, [Some(OwnerApprovedSoftException)])
    else Verdict(Act, Execute, [])
  }

  function RelationOf(f: Facts): PolicyRelation {
    if f.hard.applicability.HardApplicable? then PolicyHardBlock
    else if f.SoftException() then SoftException
    else WithinEnvelope
  }

  function OverrideOf(f: Facts): OverrideStatus {
    if RelationOf(f) != SoftException then NoOverrideRequired
    else if f.MissingAt(PCost) || f.MissingAt(PTag)
      || (f.cost.Some? && f.cost.value.state.UnavailableUnsupportedPolicy?) then
      OverridePending
    else OverrideApproved
  }

  function TechnicalOf(c: Candidate): TechnicalFeasibility {
    if c.verdict.FeasibleCandidate? then Feasible
    else if exists x | x in c.trace :: x.status.UnknownConstraint? then UnknownFeasibility
    else Infeasible
  }

  datatype CandidateAssessment = CandidateAssessment(
    candidateId: string, technical: TechnicalFeasibility, outcome: AuthorityOutcome, relation: PolicyRelation,
    override: OverrideStatus, authorization: ExecutionAuthorization, disposition: Disposition,
    gates: seq<GateAssessment>, requirements: seq<Requirement>, reasons: seq<Option<Reason>>)

  function Assemble(f: Facts): CandidateAssessment {
    var v := Decide(f);
    CandidateAssessment(f.candidate.id, TechnicalOf(f.candidate), v.outcome, RelationOf(f), OverrideOf(f),
                        if v.outcome.Act? then Allowed else Blocked, v.disposition, GatesOf(f), f.requirements,
                        v.reasons)
  }

  // ---------------------------------------------------------------- the constructor checks

  predicate ReasonsGiven(reasons: seq<Option<Reason>>) {
    forall r | r in reasons :: r.Some?
  }

  predicate NoRepeatedRequirement(requirements: seq<Requirement>) {
    forall i, j | 0 <= i < j < |requirements| :: requirements[i] != requirements[j]
  }

  /** Each gate in its place, with reasons, and with exactly the requirements of that gate. */
  predicate GatesBound(gates: seq<GateAssessment>, requirements: seq<Requirement>) {
    && |gates| == |GATES|
    && NoRepeatedRequirement(requirements)
    && forall i | 0 <= i < |gates| ::
         && gates[i].gate == GATES[i] && ReasonsGiven(gates[i].reasons)
         && gates[i].requirements == ForGate(requirements, GATES[i])
  }

  predicate EveryGatePasses(gates: seq<GateAssessment>) {
    forall g | g in gates :: g.decision.PassGate?
  }

  /** The projection checks of a candidate assessment. */
  predicate OutcomeConsistent(a: CandidateAssessment) {
    && ReasonsGiven(a.reasons)
    && (if a.outcome.Act? then
          && a.technical.Feasible? && a.authorization.Allowed?
          && (a.disposition.Execute? || a.disposition.ExecuteWithRecordedRisk?)
          && EveryGatePasses(a.gates)
          && if a.relation.SoftException? then a.override.OverrideApproved? && a.disposition.ExecuteWithRecordedRisk?
             else a.relation.WithinEnvelope? && a.override.NoOverrideRequired? && a.disposition.Execute?
        else a.authorization.Blocked? && (a.disposition.Abstain? || a.disposition.Forbidden?))
    && (a.relation.PolicyHardBlock? <==> a.disposition.Forbidden?)
    && (a.relation.PolicyHardBlock? ==> a.outcome.Block?)
  }

  /** `_candidate_assessment`, including every way in which it could raise. */
  function AssessCandidate(cut: Cut, i: nat): Result<CandidateAssessment, AuthorityError>
    requires i < |cut.search.candidates|
  {
    var facts := FactsOf(cut, i);
    if facts.Err? then Err(facts.error)
    else
      var a := Assemble(facts.value);
      if !GatesBound(a.gates, a.requirements) then Err(GateProjection)
      else if !OutcomeConsistent(a) then Err(OutcomeProjection)
      else Ok(a)
  }

  function AssessFirst(cut: Cut, n: nat): Result<seq<CandidateAssessment>, AuthorityError>
    requires n <= |cut.search.candidates|
  {
    if n == 0 then Ok([])
    else match AssessFirst(cut, n - 1)
      case Err(e) => Err(e)
      case Ok(earlier) =>
        match AssessCandidate(cut, n - 1)
        case Err(e) => Err(e)
        case Ok(a) => Ok(earlier + [a])
  }

  datatype EvaluationStatus = CandidatesAssessed | NoActionRequired

  datatype SearchProjection = ProjectionNotApplicable | ProjectionAbstain

  datatype AuthorityResult = AuthorityResult(
    status: EvaluationStatus, outcome: SearchOutcome, exhausted: bool, projection: SearchProjection,
    reasons: seq<Reason>, assessments: seq<CandidateAssessment>)

  /** The search projection, from whether anything feasible was found. */
  function Projected(outcome: SearchOutcome, exhausted: bool, anyFeasible: bool): (SearchProjection, seq<Reason>) {
    if exhausted && !anyFeasible then (ProjectionAbstain, [EnvelopeExhausted])
    else if anyFeasible then (ProjectionNotApplicable, [])
    else if outcome.InsufficientCriticalEvidence? || outcome.CrewRepairUnsupported? then
      (ProjectionAbstain, [SearchStopped(outcome)])
    else (ProjectionNotApplicable, [])
  }

  /** The check of the result constructor, which looks at the assessments and not at the search result. */
  predicate ProjectionConsistent(r: AuthorityResult) {
    if r.status.NoActionRequired? then
      r.outcome.NoRepairRequired? && r.assessments == [] && r.projection.ProjectionNotApplicable? && r.reasons == []
    else
      && !r.outcome.NoRepairRequired?
      && (r.projection, r.reasons) ==
           Projected(r.outcome, r.exhausted, exists a | a in r.assessments :: a.technical.Feasible?)
  }

  /** `evaluate_operational_authority`. */
  ghost function Evaluate(cut: Cut): Result<AuthorityResult, AuthorityError> {
    if !ValidCut(cut) then Err(InvalidCut)
    else if cut.search.outcome.NoRepairRequired? then
      Ok(AuthorityResult(NoActionRequired, cut.search.outcome, cut.search.exhausted, ProjectionNotApplicable, [], []))
    else
      var assessments := AssessFirst(cut, |cut.search.candidates|);
      if assessments.Err? then Err(assessments.error)
      else
        var projection := Projected(cut.search.outcome, cut.search.exhausted, cut.search.feasibleIds != []);
        var result := AuthorityResult(CandidatesAssessed, cut.search.outcome, cut.search.exhausted, projection.0,
                                      projection.1, assessments.value);
        if ProjectionConsistent(result) then Ok(result) else Err(SearchProjection)
  }
}
