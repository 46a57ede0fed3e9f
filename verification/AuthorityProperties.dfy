/** What the evaluation guarantees for every valid evidence cut. */
module AuthorityProperties {
  import opened Prelude
  import opened PromiseSemantics
  import opened Authority
  import opened AuthorityEvaluation
  import Evidence = EvidenceStore
  import Working = WorkingTime

  // ---------------------------------------------------------------- facts of a valid cut

  predicate SupportedGate(gate: Gate) {
    gate.PCost? || gate.PTag? || gate.PVehicle?
  }

  predicate RequirementFits(f: Facts, q: Requirement) {
    && SupportedGate(q.gate) && (q.principal.RequiresWorker? ==> q.gate.PVehicle?)
    && (q.gate.PCost? ==> f.cost.Some? && f.CostApplies().CostSoftException?)
    && (q.gate.PTag? ==> !f.tag.TagNotApplicable?)
  }

  /** What a valid cut guarantees about the facts of each candidate. */
  ghost predicate Consistent(f: Facts) {
    && f.candidate.Valid() && f.hard.Valid()
    && (f.policy.IssuedSupported? <==> f.policyReason.None?)
    && (f.cost.Some? <==> f.candidate.verdict.FeasibleCandidate?)
    && (f.cost.Some? && f.cost.value.state.UnavailableUnsupportedPolicy? ==> !f.policy.IssuedSupported?)
    && NoRepeatedRequirement(f.requirements)
    && (forall q | q in f.requirements :: RequirementFits(f, q))
    && (forall q | q in f.missingOwner :: q in f.requirements && q.principal.RequiresOwner?)
    && (forall q | q in f.nonaffirmative :: q in f.requirements && q.principal.RequiresWorker?)
    && (f.candidate.verdict.FeasibleCandidate? ==> !f.exhaustedInVain)
  }

  /** The first cost assessment, when the first candidate is feasible, is that candidate's. */
  lemma {:induction false} ExpectedHead(
    candidates: seq<Candidate>, consequences: map<string, Consequence>, supported: bool
  )
    requires candidates != []
    requires forall c | c in candidates && c.verdict.FeasibleCandidate? :: c.id in consequences
    ensures var c := candidates[0];
      var rest := ExpectedCosts(candidates[1..], consequences, supported);
      var all := ExpectedCosts(candidates, consequences, supported);
      if c.verdict.FeasibleCandidate? then
        && all != [] && all[0] == AssessCost(c.id, consequences[c.id], supported) && all[1..] == rest
        && all[0].candidateId == c.id
      else all == rest
  {
    assert candidates[0] in candidates;
  }

  lemma {:induction false} NoCostFor(
    candidates: seq<Candidate>, consequences: map<string, Consequence>, supported: bool, id: string
  )
    requires forall c | c in candidates && c.verdict.FeasibleCandidate? :: c.id in consequences
    requires forall j | 0 <= j < |candidates| :: CandidateId(candidates[j]) != id
    ensures FindCost(ExpectedCosts(candidates, consequences, supported), id) == None
  {
    if candidates != [] {
      assert CandidateId(candidates[0]) != id;
      assert forall j | 0 <= j < |candidates| - 1 :: candidates[1..][j] == candidates[j + 1];
      ExpectedHead(candidates, consequences, supported);
      NoCostFor(candidates[1..], consequences, supported, id);
    }
  }

  lemma {:induction false} CostOfCandidate(
    candidates: seq<Candidate>, consequences: map<string, Consequence>, supported: bool, i: nat
  )
    requires forall c | c in candidates && c.verdict.FeasibleCandidate? :: c.id in consequences
    requires UniqueBy(candidates, CandidateId) && i < |candidates|
    ensures FindCost(ExpectedCosts(candidates, consequences, supported), candidates[i].id) ==
      if candidates[i].verdict.FeasibleCandidate? then
        Some(AssessCost(candidates[i].id, consequences[candidates[i].id], supported))
      else None
  {
    var rest := candidates[1..];
    assert forall j | 0 <= j < |rest| :: rest[j] == candidates[j + 1];
    ExpectedHead(candidates, consequences, supported);
    if i == 0 {
      assert forall j | 0 <= j < |rest| :: CandidateId(rest[j]) != CandidateId(candidates[0]);
      NoCostFor(rest, consequences, supported, candidates[0].id);
    } else {
      assert CandidateId(candidates[0]) != CandidateId(candidates[i]);
      CostOfCandidate(rest, consequences, supported, i - 1);
    }
  }

  lemma {:induction false} DerivedFits(
    candidate: Candidate, cost: Option<CostAssessment>, tag: TagAssessment, privateVehicles: map<string, bool>
  )
    ensures forall q | q in Derived(candidate, cost, tag, privateVehicles) ::
      && SupportedGate(q.gate)
      && (q.gate.PCost? ==> cost.Some? && cost.value.subjects != [])
      && (q.gate.PTag? ==> tag.scopes != [])
    ensures forall q | q in Derived(candidate, cost, tag, privateVehicles) && q.principal.RequiresWorker? ::
      q.gate.PVehicle?
    ensures NoRepeatedRequirement(Derived(candidate, cost, tag, privateVehicles))
  {}

  lemma {:induction false} RearrangedRequirements(a: seq<Requirement>, b: seq<Requirement>)
    requires multiset(a) == multiset(b)
    ensures forall q :: q in a <==> q in b
    ensures NoRepeatedRequirement(a) ==> NoRepeatedRequirement(b)
  {
    SameMembers(a, b);
    if NoRepeatedRequirement(a) {
      UniqueRearranged(a, b, Itself);
    }
  }

  lemma {:induction false} SelectionsFound(cut: Cut, i: nat)
    requires SelectionsCover(cut) && i < |cut.requirementSets|
    ensures forall q | q in cut.requirementSets[i] ::
      if q.principal.RequiresOwner? then q in TableBy(cut.ownerSelections, OwnerRequirementOf)
      else q in TableBy(cut.consentSelections, ConsentRequirementOf)
  {
    hide TableBy, UniqueBy, HasKey;
    forall q | q in cut.requirementSets[i]
      ensures if q.principal.RequiresOwner? then q in TableBy(cut.ownerSelections, OwnerRequirementOf)
        else q in TableBy(cut.consentSelections, ConsentRequirementOf)
    {
      assert Required(cut, q);
      TableKey(cut.ownerSelections, OwnerRequirementOf, q);
      TableKey(cut.consentSelections, ConsentRequirementOf, q);
    }
  }

  lemma {:induction false} AlignedOf(cut: Cut)
    requires ValidCut(cut)
    ensures Aligned(cut)
  {}

  /** On a valid cut no lookup misses, and the facts of every candidate are consistent. */
  lemma {:induction false} FactsOfValidCut(cut: Cut, i: nat)
    requires ValidCut(cut) && i < |cut.search.candidates|
    ensures FactsOf(cut, i).Ok? && Consistent(FactsOf(cut, i).value)
    ensures FactsOf(cut, i).value.candidate == cut.search.candidates[i]
  {
    hide TableBy, SelectionsCover, EvidenceBound, Derived, FindCost, ExpectedCosts, MissingOwner, Nonaffirmative;
    var c := cut.search.candidates[i];
    assert c in cut.search.candidates;
    SelectionsFound(cut, i);
    PositionsFoundIffUnique(cut.search.candidates);
    CostOfCandidate(cut.search.candidates, cut.consequences, cut.policy.IssuedSupported?, i);
    DerivedFits(c, FindCost(cut.costs, c.id), cut.tags[i], cut.privateVehicles);
    RearrangedRequirements(Derived(c, FindCost(cut.costs, c.id), cut.tags[i], cut.privateVehicles),
      cut.requirementSets[i]);
  }

  // ---------------------------------------------------------------- the two chains agree

  /** A candidate is feasible exactly when nothing in its trace failed or is unknown. */
  lemma {:induction false} FeasibleMeansEmptyTrace(c: Candidate)
    requires c.Valid()
    ensures c.verdict.FeasibleCandidate? <==>
      WithReason(c.trace, true) == [] && WithReason(c.trace, false) == [] && Unknowns(c.trace) == []
  {
    if c.trace != [] {
      var x := c.trace[0];
      assert x in c.trace && !x.status.Pass?;
      assert x in WithReason(c.trace, true) || x in WithReason(c.trace, false) || x in Unknowns(c.trace);
    }
  }

  lemma {:induction false} MissingApprovals(f: Facts)
    requires Consistent(f)
    ensures f.missingOwner == [] <==> !f.MissingAt(PCost) && !f.MissingAt(PTag) && !f.MissingAt(PVehicle)
    ensures f.MissingAt(PCost) ==> f.cost.Some? && f.CostApplies().CostSoftException?
    ensures ReasonsGiven(ApprovalReasons(f.missingOwner))
  {
    forall q | q in f.missingOwner ensures SupportedGate(q.gate) && ApprovalReason(q.gate).Some? {
      assert RequirementFits(f, q);
    }
    if f.missingOwner != [] {
      assert f.missingOwner[0] in f.missingOwner;
    }
  }

  /** What each gate looks at. */
  lemma {:induction false} GateConditions(f: Facts)
    ensures AssignGate(f).decision.PassGate? <==>
      f.hard.applicability.HardNotApplicable? && f.OrdinaryFailures() == [] && f.UnknownConstraints() == []
    ensures WindowGate(f).decision.PassGate? <==> f.WindowFailures() == []
    ensures CostGate(f).decision.PassGate? <==> f.cost.None? || (!f.CostApplies().CostUnknown? && !f.MissingAt(PCost))
    ensures OvertimeGate(f).decision.PassGate? <==> f.overtime.DoesNotCreateOvertime?
    ensures VehicleGate(f).decision.PassGate? <==> f.nonaffirmative == [] && !f.MissingAt(PVehicle)
    ensures TagGate(f).decision.PassGate? <==> !f.tag.TagUnknown? && !f.MissingAt(PTag)
    ensures HorizonGate(f).decision.PassGate? <==> !f.laterDay
    ensures SearchGate(f).decision.PassGate? <==> !f.exhaustedInVain
    ensures PartialGate(f).decision.PassGate? <==> !f.candidate.residualUnresolvedImpact
  {
    hide WithReason, Unknowns, ForGate;
  }

  lemma {:induction false} EveryGateHasAPlace(gate: Gate) returns (i: nat)
    ensures i < |GATES| && GATES[i] == gate
  {
    i := match gate
      case PAssign => 0 case PWindow => 1 case PCost => 2 case POvertime => 3 case PVehicle => 4
      case PTag => 5 case PHorizon => 6 case PSearch => 7 case PartialRepair => 8;
  }

  lemma {:induction false} AllGatesPass(f: Facts)
    ensures EveryGatePasses(GatesOf(f)) <==> forall gate :: GateOf(f, gate).decision.PassGate?
  {
    hide GateOf, GatesOf;
    if EveryGatePasses(GatesOf(f)) {
      forall gate ensures GateOf(f, gate).decision.PassGate? {
        var i := EveryGateHasAPlace(gate);
        assert GatesOf(f)[i] in GatesOf(f);
      }
    }
  }

  lemma {:induction false} NinePass(f: Facts)
    ensures EveryGatePasses(GatesOf(f)) <==>
      && AssignGate(f).decision.PassGate? && WindowGate(f).decision.PassGate? && CostGate(f).decision.PassGate?
      && OvertimeGate(f).decision.PassGate? && VehicleGate(f).decision.PassGate? && TagGate(f).decision.PassGate?
      && HorizonGate(f).decision.PassGate? && SearchGate(f).decision.PassGate? && PartialGate(f).decision.PassGate?
  {
    hide AssignGate, WindowGate, CostGate, OvertimeGate, VehicleGate, TagGate, HorizonGate, SearchGate, PartialGate,
      GatesOf, EveryGatePasses;
    AllGatesPass(f);
    assert GateOf(f, PAssign) == AssignGate(f) && GateOf(f, PWindow) == WindowGate(f) && GateOf(f, PCost) == CostGate(f)
      && GateOf(f, POvertime) == OvertimeGate(f) && GateOf(f, PVehicle) == VehicleGate(f)
      && GateOf(f, PTag) == TagGate(f)
      && GateOf(f, PHorizon) == HorizonGate(f) && GateOf(f, PSearch) == SearchGate(f)
      && GateOf(f, PartialRepair) == PartialGate(f);
  }

  /** What the outcome chain leaves for its last branch. */
  ghost predicate NothingStandsInTheWay(f: Facts) {
    && f.hard.applicability.HardNotApplicable?
    && f.OrdinaryFailures() == [] && f.WindowFailures() == [] && f.UnknownConstraints() == []
    && f.allCurrent && !f.CostApplies().CostUnknown? && f.overtime.DoesNotCreateOvertime? && !f.tag.TagUnknown?
    && !f.candidate.residualUnresolvedImpact && f.policy.IssuedSupported? && f.nonaffirmative == []
    && f.missingOwner == [] && !f.laterDay
  }

  lemma {:induction false} ActConditions(f: Facts)
    ensures Decide(f).outcome.Act? <==> NothingStandsInTheWay(f)
    ensures Decide(f).outcome.Act? ==>
      Decide(f).disposition == if f.SoftException() then ExecuteWithRecordedRisk else Execute
    ensures !Decide(f).outcome.Act? ==>
      Decide(f).disposition == if f.hard.applicability.HardApplicable? then Forbidden else Abstain
    ensures f.hard.applicability.HardApplicable? ==> Decide(f).outcome.Block?
  {
    hide WithReason, Unknowns, ApprovalReasons, Codes;
  }

  /** Nothing about the candidate is unknown, stale, unsupported, unresolved or without consent. */
  ghost predicate KnownAndCurrent(f: Facts) {
    && !f.hard.applicability.HardUnknown? && f.UnknownConstraints() == [] && f.allCurrent
    && !f.CostApplies().CostUnknown? && !f.overtime.UnknownOvertime? && !f.tag.TagUnknown?
    && !f.candidate.residualUnresolvedImpact && f.policy.IssuedSupported? && f.nonaffirmative == []
  }

  /** BLOCK is for hard boundaries and failed constraints; ASK is for a broken customer promise, or for a human decision
      that is the only thing missing; ACT needs nobody; everything else abstains. */
  lemma {:induction false} OutcomesClassified(f: Facts)
    ensures var blocked := f.hard.applicability.HardApplicable? || f.OrdinaryFailures() != [];
      var needsHuman := f.missingOwner != [] || f.overtime.CreatesOvertime? || f.laterDay;
      var outcome := Decide(f).outcome;
      && (outcome.Block? <==> blocked)
      && (outcome.Ask? <==> !blocked && (f.WindowFailures() != [] || (KnownAndCurrent(f) && needsHuman)))
      && (outcome.Act? <==> !blocked && f.WindowFailures() == [] && KnownAndCurrent(f) && !needsHuman)
  {
    hide WithReason, Unknowns, ApprovalReasons, Codes;
  }

  /** The outcome is ACT exactly when all nine separately computed gates pass, every currentness observation matches and
      the policy is issued and supported. */
  lemma {:induction false} ActIffEveryGatePasses(f: Facts)
    requires Consistent(f)
    ensures Decide(f).outcome.Act? <==> EveryGatePasses(GatesOf(f)) && f.allCurrent && f.policy.IssuedSupported?
  {
    hide AssignGate, WindowGate, CostGate, OvertimeGate, VehicleGate, TagGate, HorizonGate, SearchGate, PartialGate,
      GatesOf, EveryGatePasses, Decide, WithReason, Unknowns, RequirementFits, NoRepeatedRequirement;
    FeasibleMeansEmptyTrace(f.candidate);
    MissingApprovals(f);
    GateConditions(f);
    NinePass(f);
    ActConditions(f);
  }

  /** One gate in its place, with reasons, and with exactly the requirements of that gate. */
  ghost predicate IsBound(f: Facts, g: GateAssessment, gate: Gate) {
    g.gate == gate && ReasonsGiven(g.reasons) && g.requirements == ForGate(f.requirements, gate)
  }

  lemma {:induction false} AssignIsBound(f: Facts)
    requires Consistent(f)
    ensures IsBound(f, AssignGate(f), PAssign)
  {
    hide WithReason, Unknowns, ForGate, NoRepeatedRequirement;
  }

  lemma {:induction false} PlainGatesAreBound(f: Facts)
    requires Consistent(f)
    ensures IsBound(f, WindowGate(f), PWindow) && IsBound(f, OvertimeGate(f), POvertime)
    ensures IsBound(f, HorizonGate(f), PHorizon)
    ensures IsBound(f, SearchGate(f), PSearch) && IsBound(f, PartialGate(f), PartialRepair)
  {
    hide WithReason, Unknowns, ForGate, NoRepeatedRequirement;
  }

  lemma {:induction false} CostIsBound(f: Facts)
    requires Consistent(f)
    ensures IsBound(f, CostGate(f), PCost)
  {
    hide WithReason, Unknowns, ForGate, NoRepeatedRequirement;
  }

  lemma {:induction false} ApprovalGatesAreBound(f: Facts)
    ensures IsBound(f, VehicleGate(f), PVehicle) && IsBound(f, TagGate(f), PTag)
  {
    hide WithReason, Unknowns, ForGate, NoRepeatedRequirement;
  }

  lemma {:induction false} GateIsBound(f: Facts, gate: Gate)
    requires Consistent(f)
    ensures IsBound(f, GateOf(f, gate), gate)
  {
    AssignIsBound(f);
    PlainGatesAreBound(f);
    CostIsBound(f);
    ApprovalGatesAreBound(f);
    hide AssignGate, WindowGate, CostGate, OvertimeGate, VehicleGate, TagGate, HorizonGate, SearchGate, PartialGate,
      IsBound, Consistent;
  }

  /** Every gate carries reasons and exactly its own requirements. */
  lemma {:induction false} GatesAreBound(f: Facts)
    requires Consistent(f)
    ensures GatesBound(GatesOf(f), f.requirements)
  {
    hide GatesOf, GateOf, ForGate, ReasonsGiven, RequirementFits, NoRepeatedRequirement;
    forall i | 0 <= i < |GATES| ensures IsBound(f, GatesOf(f)[i], GATES[i]) {
      GateIsBound(f, GATES[i]);
    }
  }

  lemma {:induction false} OutcomeReasons(f: Facts)
    requires Consistent(f)
    ensures ReasonsGiven(Decide(f).reasons)
  {
    hide WithReason, Unknowns, ApprovalReasons, RequirementFits, NoRepeatedRequirement;
    MissingApprovals(f);
  }

  /** The assembled assessment passes every projection check of its constructor. */
  lemma {:induction false} AssessmentIsConsistent(f: Facts)
    requires Consistent(f)
    ensures OutcomeConsistent(Assemble(f))
  {
    hide WithReason, Unknowns, ApprovalReasons, GatesOf, Decide, EveryGatePasses, ReasonsGiven, RequirementFits,
      NoRepeatedRequirement;
    ActIffEveryGatePasses(f);
    ActConditions(f);
    OutcomeReasons(f);
    FeasibleMeansEmptyTrace(f.candidate);
    MissingApprovals(f);
  }

  /** The candidate's assessment is the one assembled from its facts. */
  ghost predicate Assesses(cut: Cut, i: nat, a: CandidateAssessment) {
    i < |cut.search.candidates| && FactsOf(cut, i).Ok? && a == Assemble(FactsOf(cut, i).value)
  }

  lemma {:induction false} AssembledParts(f: Facts)
    ensures Assemble(f).gates == GatesOf(f) && Assemble(f).requirements == f.requirements
  {}

  lemma {:induction false} CandidatesAssess(cut: Cut, i: nat)
    requires ValidCut(cut) && i < |cut.search.candidates|
    ensures AssessCandidate(cut, i).Ok? && Assesses(cut, i, AssessCandidate(cut, i).value)
  {
    hide ValidCut, FactsOf, Assemble, GatesBound, OutcomeConsistent, Consistent;
    FactsOfValidCut(cut, i);
    var f := FactsOf(cut, i).value;
    GatesAreBound(f);
    AssessmentIsConsistent(f);
    AssembledParts(f);
  }

  lemma {:induction false} AllAssess(cut: Cut, n: nat)
    requires ValidCut(cut) && n <= |cut.search.candidates|
    ensures AssessFirst(cut, n).Ok? && |AssessFirst(cut, n).value| == n
    ensures forall i | 0 <= i < n :: Assesses(cut, i, AssessFirst(cut, n).value[i])
  {
    hide ValidCut, Assesses, AssessCandidate;
    if n > 0 {
      AllAssess(cut, n - 1);
      CandidatesAssess(cut, n - 1);
    }
  }

  lemma {:induction false} TechnicalAgrees(cut: Cut, i: nat, a: CandidateAssessment)
    requires ValidCut(cut) && Assesses(cut, i, a)
    ensures a.technical.Feasible? <==> cut.search.candidates[i].verdict.FeasibleCandidate?
  {
    hide ValidCut, FactsOf, GatesOf, Decide, RelationOf, OverrideOf, Consistent;
    FactsOfValidCut(cut, i);
  }

  /** The assessments find something feasible exactly when the search result does. */
  lemma {:induction false} FeasibilityAgrees(cut: Cut, assessments: seq<CandidateAssessment>)
    requires ValidCut(cut) && |assessments| == |cut.search.candidates|
    requires forall i | 0 <= i < |assessments| :: Assesses(cut, i, assessments[i])
    ensures (exists a | a in assessments :: a.technical.Feasible?) <==> cut.search.feasibleIds != []
  {
    hide Assesses, Aligned, CostsComplete, RequirementsDerived, SelectionsCover, EvidenceBound;
    forall i | 0 <= i < |assessments|
      ensures assessments[i].technical.Feasible? <==> cut.search.candidates[i].verdict.FeasibleCandidate?
    {
      TechnicalAgrees(cut, i, assessments[i]);
    }
    if c :| c in cut.search.candidates && c.verdict.FeasibleCandidate? {
      var i :| 0 <= i < |cut.search.candidates| && cut.search.candidates[i] == c;
      assert assessments[i].technical.Feasible? && assessments[i] in assessments;
    }
    if a :| a in assessments && a.technical.Feasible? {
      var i :| 0 <= i < |assessments| && assessments[i] == a;
      assert cut.search.candidates[i] in cut.search.candidates;
    }
  }

  lemma {:induction false} ProjectionHolds(search: SearchResult, assessments: seq<CandidateAssessment>)
    requires !search.outcome.NoRepairRequired?
    requires (exists a | a in assessments :: a.technical.Feasible?) <==> search.feasibleIds != []
    ensures var projection := Projected(search.outcome, search.exhausted, search.feasibleIds != []);
      ProjectionConsistent(AuthorityResult(CandidatesAssessed, search.outcome, search.exhausted, projection.0,
                                           projection.1, assessments))
  {
    hide Projected;
  }

  lemma {:induction false} ValidCutEvaluates(cut: Cut)
    requires ValidCut(cut) && !cut.search.outcome.NoRepairRequired?
    ensures Evaluate(cut).Ok? && AssessFirst(cut, |cut.search.candidates|) == Ok(Evaluate(cut).value.assessments)
  {
    hide ValidCut, Assesses, Projected, AssessFirst, ProjectionConsistent;
    AllAssess(cut, |cut.search.candidates|);
    var assessments := AssessFirst(cut, |cut.search.candidates|).value;
    FeasibilityAgrees(cut, assessments);
    ProjectionHolds(cut.search, assessments);
  }

  /** Evaluation is total: on every valid cut no lookup, reason or projection check can fail, and only an invalid cut is
      refused. Each candidate receives the assessment assembled from its own facts. */
  lemma {:induction false} EvaluationIsTotal(cut: Cut)
    ensures Evaluate(cut).Ok? <==> ValidCut(cut)
    ensures Evaluate(cut).Ok? && !cut.search.outcome.NoRepairRequired? ==>
      && |Evaluate(cut).value.assessments| == |cut.search.candidates|
      && forall i | 0 <= i < |cut.search.candidates| :: Assesses(cut, i, Evaluate(cut).value.assessments[i])
  {
    hide ValidCut, Assesses, Projected, AssessFirst;
    if ValidCut(cut) && !cut.search.outcome.NoRepairRequired? {
      ValidCutEvaluates(cut);
      AllAssess(cut, |cut.search.candidates|);
    }
  }

  // ---------------------------------------------------------------- owner approval never overrides anything else

  /** The selection for the requirement of an owner subject differs between the cuts. */
  predicate Reselected(c: Cut, d: Cut, subject: Subject) {
    subject.OwnerSubject? && !exists s | s in c.ownerSelections ::
      s.requirement == subject.requirement && s in d.ownerSelections
  }

  /** `d` differs from `c` only in that more owner approvals are selected, and in what is expected and found of these:
      every selection is itself the expectation of an observation. */
  ghost predicate MoreApprovals(c: Cut, d: Cut) {
    && d == c.(ownerSelections := d.ownerSelections, observations := d.observations)
    && (forall s | s in c.ownerSelections && s.Selected() :: s in d.ownerSelections)
    && forall o: Observation | !Reselected(c, d, o.subject) :: o in c.observations <==> o in d.observations
  }

  /** The outcome under fewer missing approvals: nothing but ASK can change, and only to ASK or ACT. */
  lemma {:induction false} ApprovalChangesOnlyAsk(f: Facts, g: Facts)
    requires g == f.(missingOwner := g.missingOwner) && forall q | q in g.missingOwner :: q in f.missingOwner
    ensures !Decide(f).outcome.Ask? ==> Decide(g) == Decide(f)
    ensures Decide(f).outcome.Ask? ==> Decide(g).outcome.Ask? || Decide(g).outcome.Act?
  {
    hide WithReason, Unknowns, ApprovalReasons, Codes;
    assert f.missingOwner == [] ==> g.missingOwner == [] by {
      assert g.missingOwner == [] || g.missingOwner[0] in f.missingOwner;
    }
  }

  /** When approvals also change whether everything is current: either hard boundaries and constraints already decide,
      or the assessment that is not current abstains for exactly that reason. */
  lemma {:induction false} CurrentnessDecides(f: Facts, g: Facts)
    requires Consistent(f)
    requires g == f.(missingOwner := g.missingOwner, allCurrent := g.allCurrent) && f.allCurrent != g.allCurrent
    ensures
      if f.hard.applicability.HardNotApplicable? && f.candidate.verdict.FeasibleCandidate? then
        Decide(if f.allCurrent then g else f) == Verdict(AbstainOutcome, Abstain, [Some(CurrentnessFailed)])
      else Decide(g) == Decide(f)
  {
    hide WithReason, Unknowns, ApprovalReasons, Codes, NoRepeatedRequirement, RequirementFits;
    FeasibleMeansEmptyTrace(f.candidate);
  }

  lemma {:induction false} OwnerTableGrows(c: Cut, d: Cut, q: Requirement)
    requires MoreApprovals(c, d)
    requires UniqueBy(c.ownerSelections, OwnerRequirementOf) && UniqueBy(d.ownerSelections, OwnerRequirementOf)
    requires q in TableBy(c.ownerSelections, OwnerRequirementOf) && q in TableBy(d.ownerSelections, OwnerRequirementOf)
    ensures TableBy(c.ownerSelections, OwnerRequirementOf)[q].Selected() ==>
      TableBy(d.ownerSelections, OwnerRequirementOf)[q].Selected()
  {
    hide TableBy;
    TableKey(c.ownerSelections, OwnerRequirementOf, q);
    var i :| 0 <= i < |c.ownerSelections| && OwnerRequirementOf(c.ownerSelections[i]) == q;
    var s := c.ownerSelections[i];
    assert s in c.ownerSelections;
    TableLooksUp(c.ownerSelections, OwnerRequirementOf);
    TableLooksUp(d.ownerSelections, OwnerRequirementOf);
    if s.Selected() {
      assert s in d.ownerSelections;
    }
  }

  lemma {:induction false} SelectionsOf(cut: Cut)
    requires ValidCut(cut)
    ensures SelectionsCover(cut) && |cut.requirementSets| == |cut.search.candidates|
    ensures UniqueBy(cut.ownerSelections, OwnerRequirementOf) && UniqueBy(cut.consentSelections, ConsentRequirementOf)
  {
    hide CostsComplete, RequirementsDerived, EvidenceBound;
  }

  /** The facts of a candidate, as computed from a valid cut. */
  lemma {:induction false} FactsParts(cut: Cut, i: nat)
    requires ValidCut(cut) && i < |cut.search.candidates|
    ensures i < |cut.requirementSets| && i < |cut.hard| && i < |cut.overtime| && i < |cut.tags|
    ensures var owners := TableBy(cut.ownerSelections, OwnerRequirementOf);
      var consents := TableBy(cut.consentSelections, ConsentRequirementOf);
      && SelectionsKnown(cut.requirementSets[i], owners, consents)
      && FactsOf(cut, i) == Ok(FactsFrom(cut, i, owners, consents))
  {
    AlignedOf(cut);
    SelectionsOf(cut);
    SelectionsFound(cut, i);
    hide ValidCut, SelectionsCover, TableBy, FactsFrom;
  }

  lemma {:induction false} FewerMissing(
    requirements: seq<Requirement>, before: map<Requirement, OwnerSelection>, after: map<Requirement, OwnerSelection>
  )
    requires forall q | q in requirements && q.principal.RequiresOwner? ::
        q in before && q in after && (before[q].Selected() ==> after[q].Selected())
    ensures forall q | q in MissingOwner(requirements, after) :: q in MissingOwner(requirements, before)
  {
    hide MissingOwner;
  }

  lemma {:induction false} FactsWithMoreApprovals(c: Cut, d: Cut, i: nat)
    requires ValidCut(c) && ValidCut(d) && MoreApprovals(c, d) && i < |c.search.candidates|
    ensures FactsOf(c, i).Ok? && FactsOf(d, i).Ok? && Consistent(FactsOf(c, i).value)
    ensures var f, g := FactsOf(c, i).value, FactsOf(d, i).value;
      && g == f.(missingOwner := g.missingOwner, allCurrent := g.allCurrent)
      && f.allCurrent == c.AllCurrent() && g.allCurrent == d.AllCurrent()
      && f.hard == c.hard[i] && f.candidate == c.search.candidates[i]
      && forall q | q in g.missingOwner :: q in f.missingOwner
  {
    FactsOfValidCut(c, i);
    FactsParts(c, i);
    FactsParts(d, i);
    SelectionsOf(c);
    SelectionsOf(d);
    hide ValidCut, FactsOf, TableBy, FindCost, Nonaffirmative, MissingOwner, UniqueBy, Consistent, Cut.AllCurrent,
      SelectionsCover;
    var owners, more := TableBy(c.ownerSelections, OwnerRequirementOf), TableBy(d.ownerSelections, OwnerRequirementOf);
    forall q | q in c.requirementSets[i] && q.principal.RequiresOwner?
      ensures q in owners && q in more && (owners[q].Selected() ==> more[q].Selected())
    {
      OwnerTableGrows(c, d, q);
    }
    FewerMissing(c.requirementSets[i], owners, more);
  }

  ghost predicate SameVerdict(a: CandidateAssessment, b: CandidateAssessment) {
    b.outcome == a.outcome && b.disposition == a.disposition && b.reasons == a.reasons
  }

  /** Neither a hard boundary nor a constraint speaks against the candidate. */
  predicate Unhindered(cut: Cut, i: nat)
    requires i < |cut.search.candidates| && i < |cut.hard|
  {
    cut.hard[i].applicability.HardNotApplicable? && cut.search.candidates[i].verdict.FeasibleCandidate?
  }

  /** Approval is non-interfering. As long as the new selections leave it unchanged whether everything is current, every
      BLOCK, ABSTAIN and ACT stays exactly as it was and ASK turns only into ASK or ACT: approval never overrides a hard
      boundary, an unknown, stale evidence or a missing worker consent. Since each selection is itself compared with the
      evidence at decision time, selecting more can also make the vector current or stale: then a candidate that is not
      hindered abstains for this reason on the side that is not current, and any other candidate keeps its verdict. */
  lemma {:induction false} OwnerApprovalDoesNotInterfere(c: Cut, d: Cut, i: nat)
    requires ValidCut(c) && ValidCut(d) && MoreApprovals(c, d)
    requires !c.search.outcome.NoRepairRequired? && i < |c.search.candidates|
    ensures Evaluate(c).Ok? && Evaluate(d).Ok? && i < |c.hard|
    ensures |Evaluate(c).value.assessments| == |Evaluate(d).value.assessments| == |c.search.candidates|
    ensures var a, b := Evaluate(c).value.assessments[i], Evaluate(d).value.assessments[i];
      if c.AllCurrent() <==> d.AllCurrent() then
        if a.outcome.Ask? then b.outcome.Ask? || b.outcome.Act? else SameVerdict(a, b)
      else if Unhindered(c, i) then
        var stale := if c.AllCurrent() then b else a;
        stale.outcome.AbstainOutcome? && stale.disposition.Abstain? && stale.reasons == [Some(CurrentnessFailed)]
      else SameVerdict(a, b)
  {
    hide ValidCut, Evaluate, FactsOf, Decide, GatesOf, RelationOf, OverrideOf, Consistent, Cut.AllCurrent;
    EvaluationIsTotal(c);
    EvaluationIsTotal(d);
    AlignedOf(c);
    FactsWithMoreApprovals(c, d, i);
    var f, g := FactsOf(c, i).value, FactsOf(d, i).value;
    if c.AllCurrent() == d.AllCurrent() {
      ApprovalChangesOnlyAsk(f, g);
    } else {
      CurrentnessDecides(f, g);
    }
    assert Assesses(c, i, Evaluate(c).value.assessments[i]) && Assesses(d, i, Evaluate(d).value.assessments[i]);
  }

  // ---------------------------------------------------------------- refinement of the promise semantics

  /** What operational authority demands beyond technical feasibility, policy and override. */
  ghost predicate OperationallyClear(f: Facts) {
    && !f.hard.applicability.HardUnknown? && f.allCurrent && f.policy.IssuedSupported?
    && !f.CostApplies().CostUnknown? && f.overtime.DoesNotCreateOvertime? && !f.tag.TagUnknown?
    && !f.candidate.residualUnresolvedImpact && f.nonaffirmative == [] && !f.MissingAt(PVehicle) && !f.laterDay
  }

  lemma {:induction false} PromiseDisposition(x: Axes)
    ensures AssessPromise(x).authorization.Allowed? ==>
      AssessPromise(x).disposition == if x.relation.WithinEnvelope? then Execute else ExecuteWithRecordedRisk
  {
    hide DataReason, ConsentReason;
  }

  lemma {:induction false} TagApprovalMeansTag(f: Facts)
    requires Consistent(f)
    ensures f.MissingAt(PTag) ==> !f.tag.TagNotApplicable?
  {
    hide WithReason, Unknowns, NoRepeatedRequirement;
    if q :| q in f.missingOwner && q.gate == PTag {
      assert RequirementFits(f, q);
    }
  }

  /** Operational authority refines the frozen promise semantics: on the same technical, policy and override axes, with
      sufficient data and clear side gates, ACT is ALLOWED with the same disposition, FORBIDDEN is the same, and ACT is
      exactly ALLOWED plus the operational conditions. */
  lemma {:induction false} RefinesPromise(f: Facts, x: Axes)
    requires Consistent(f) && Clear(x)
    requires var a := Assemble(f); x.feasibility == a.technical && x.relation == a.relation && x.override == a.override
    ensures var a, promise := Assemble(f), AssessPromise(x);
      && (a.outcome.Act? ==> promise.authorization.Allowed? && promise.disposition == a.disposition)
      && (a.disposition.Forbidden? <==> promise.disposition.Forbidden?)
      && (a.outcome.Act? <==> promise.authorization.Allowed? && OperationallyClear(f))
  {
    hide Decide, GatesOf, WithReason, Unknowns, RequirementFits, NoRepeatedRequirement, DataReason, ConsentReason,
      HardReasons;
    FeasibleMeansEmptyTrace(f.candidate);
    MissingApprovals(f);
    ActConditions(f);
    PromiseDisposition(x);
    TagApprovalMeansTag(f);
  }

  // ---------------------------------------------------------------- nobody is bypassed

  predicate OwnerApproved(cut: Cut, q: Requirement) {
    exists s | s in cut.ownerSelections :: s.requirement == q && s.approval.Some?
  }

  predicate WorkerConsents(cut: Cut, q: Requirement) {
    exists s | s in cut.consentSelections ::
      s.requirement == q && s.head.Some? && s.head.value.isCurrentHead && s.head.value.status.FreelyGiven?
  }

  /** The owner approved the cost of the candidate for every operational slice it affects. */
  predicate CostApproved(cut: Cut, c: Candidate) {
    && c.id in cut.consequences && cut.consequences[c.id].cents.Some?
    && var cents, slices := cut.consequences[c.id].cents.value, cut.consequences[c.id].slices;
       cents > 5000 ==> forall i | 0 <= i < |slices| ::
         var scope := DecisionScope(CostSubject(c.id, cents, slices[i], slices));
         OwnerApproved(cut, Requirement(PCost, c.id, scope, RequiresOwner))
  }

  predicate TagsApproved(cut: Cut, c: Candidate, tag: TagAssessment) {
    tag.coverageComplete && forall i | 0 <= i < |tag.scopes| ::
      OwnerApproved(cut, Requirement(PTag, c.id, NaturalScope(tag.scopes[i]), RequiresOwner))
  }

  /** Every private vehicle has the owner's approval and its worker's own current, freely given consent. */
  ghost predicate VehiclesApproved(cut: Cut, c: Candidate) {
    forall p | p in c.placements && PlacesPrivateVehicle(p, cut.privateVehicles) ::
      && OwnerApproved(cut, VehicleRequirement(c.id, p, RequiresOwner))
      && WorkerConsents(cut, VehicleRequirement(c.id, p, RequiresWorker(p.workerId)))
  }

  /** Whatever was expected is affirmative, and was found exactly as expected. */
  predicate FoundAsExpected(cut: Cut) {
    forall o | o in cut.observations ::
      && o.expectedState in {Present, AbsentEvidence}
      && o.observedState == o.expectedState && o.observed == o.expected
  }

  /** What it takes for a candidate to act, read directly off the evidence. */
  ghost predicate MayAct(cut: Cut, i: nat)
    requires Aligned(cut) && i < |cut.search.candidates|
  {
    var c := cut.search.candidates[i];
    && (forall x | x in c.constraints :: x.status.Pass?) && !c.residualUnresolvedImpact
    && (forall p | p in c.placements :: p.businessDate == cut.businessDate)
    && cut.hard[i].applicability.HardNotApplicable?
    && cut.policy.IssuedSupported? && FoundAsExpected(cut)
    && cut.overtime[i].Applicability().DoesNotCreateOvertime?
    && CostApproved(cut, c) && TagsApproved(cut, c, cut.tags[i]) && VehiclesApproved(cut, c)
  }

  lemma {:induction false} FirstMember(s: seq<Requirement>)
    ensures s == [] <==> forall q :: q !in s
  {
    assert s != [] ==> s[0] in s;
  }

  lemma {:induction false} OwnerLookup(cut: Cut, q: Requirement)
    requires ValidCut(cut) && q in TableBy(cut.ownerSelections, OwnerRequirementOf)
    ensures TableBy(cut.ownerSelections, OwnerRequirementOf)[q].Selected() <==> OwnerApproved(cut, q)
  {
    hide TableBy, UniqueBy, Aligned, CostsComplete, RequirementsDerived, EvidenceBound;
    TableHolds(cut.ownerSelections, OwnerRequirementOf, q);
    TableLooksUp(cut.ownerSelections, OwnerRequirementOf);
    assert forall s | s in cut.ownerSelections && s.requirement == q :: OwnerRequirementOf(s) == q;
  }

  lemma {:induction false} ConsentLookup(cut: Cut, q: Requirement)
    requires ValidCut(cut) && q in TableBy(cut.consentSelections, ConsentRequirementOf)
    ensures TableBy(cut.consentSelections, ConsentRequirementOf)[q].Affirmative() <==> WorkerConsents(cut, q)
  {
    hide TableBy, UniqueBy, Aligned, CostsComplete, RequirementsDerived, EvidenceBound;
    TableHolds(cut.consentSelections, ConsentRequirementOf, q);
    TableLooksUp(cut.consentSelections, ConsentRequirementOf);
    assert forall s | s in cut.consentSelections && s.requirement == q :: ConsentRequirementOf(s) == q;
  }

  lemma {:induction false} MissingFrom(cut: Cut, i: nat, q: Requirement)
    requires ValidCut(cut) && i < |cut.search.candidates| && FactsOf(cut, i).Ok? && i < |cut.requirementSets|
    requires q in cut.requirementSets[i]
    ensures q.principal.RequiresOwner? ==> (q in FactsOf(cut, i).value.missingOwner <==> !OwnerApproved(cut, q))
    ensures q.principal.RequiresWorker? ==> (q in FactsOf(cut, i).value.nonaffirmative <==> !WorkerConsents(cut, q))
  {
    FactsParts(cut, i);
    hide ValidCut, FactsOf, TableBy, UniqueBy, FindCost, MissingOwner, Nonaffirmative, OwnerApproved, WorkerConsents;
    if q.principal.RequiresOwner? {
      OwnerLookup(cut, q);
    } else {
      ConsentLookup(cut, q);
    }
  }

  lemma {:induction false} MissingIsRequired(cut: Cut, i: nat)
    requires ValidCut(cut) && i < |cut.search.candidates| && FactsOf(cut, i).Ok? && i < |cut.requirementSets|
    ensures var f := FactsOf(cut, i).value;
      && (forall q | q in f.missingOwner :: q in cut.requirementSets[i] && q.principal.RequiresOwner?)
      && (forall q | q in f.nonaffirmative :: q in cut.requirementSets[i] && q.principal.RequiresWorker?)
  {
    FactsParts(cut, i);
    hide ValidCut, FactsOf, TableBy, UniqueBy, FindCost, MissingOwner, Nonaffirmative;
  }

  /** Nothing is missing exactly when every owner requirement is approved and every worker requirement consented to. */
  lemma {:induction false} MissingMeans(cut: Cut, i: nat)
    requires ValidCut(cut) && i < |cut.search.candidates| && FactsOf(cut, i).Ok?
    ensures FactsOf(cut, i).value.missingOwner == [] <==>
      forall q | q in cut.requirementSets[i] && q.principal.RequiresOwner? :: OwnerApproved(cut, q)
    ensures FactsOf(cut, i).value.nonaffirmative == [] <==>
      forall q | q in cut.requirementSets[i] && q.principal.RequiresWorker? :: WorkerConsents(cut, q)
  {
    AlignedOf(cut);
    hide ValidCut, FactsOf, OwnerApproved, WorkerConsents;
    var f := FactsOf(cut, i).value;
    MissingIsRequired(cut, i);
    forall q | q in cut.requirementSets[i]
      ensures q.principal.RequiresOwner? ==> (q in f.missingOwner <==> !OwnerApproved(cut, q))
      ensures q.principal.RequiresWorker? ==> (q in f.nonaffirmative <==> !WorkerConsents(cut, q))
    {
      MissingFrom(cut, i, q);
    }
    FirstMember(f.missingOwner);
    FirstMember(f.nonaffirmative);
  }

  lemma {:induction false} RequirementsOfValidCut(cut: Cut, i: nat)
    requires ValidCut(cut) && i < |cut.search.candidates|
    ensures var c := cut.search.candidates[i];
      forall q :: q in cut.requirementSets[i] <==>
        q in Derived(c, FindCost(cut.costs, c.id), cut.tags[i], cut.privateVehicles)
  {
    hide Derived, FindCost, CostsComplete, SelectionsCover, EvidenceBound;
    var c := cut.search.candidates[i];
    SameMembers(cut.requirementSets[i], Derived(c, FindCost(cut.costs, c.id), cut.tags[i], cut.privateVehicles));
  }

  lemma {:induction false} CostPart(cut: Cut, c: Candidate, cost: CostAssessment)
    requires c.id in cut.consequences && cost == AssessCost(c.id, cut.consequences[c.id], true) && cost.cents.Some?
    ensures (forall q | q in CostRequirements(cost.subjects, c.id) :: OwnerApproved(cut, q)) <==> CostApproved(cut, c)
    ensures forall q | q in CostRequirements(cost.subjects, c.id) :: q.principal.RequiresOwner?
  {
    hide OwnerApproved;
    var requirements := CostRequirements(cost.subjects, c.id);
    assert forall i | 0 <= i < |requirements| :: requirements[i] in requirements;
  }

  lemma {:induction false} TagPart(cut: Cut, c: Candidate, tag: TagAssessment)
    requires tag.coverageComplete
    ensures (forall q | q in TagRequirements(tag.scopes, c.id) :: OwnerApproved(cut, q)) <==> TagsApproved(cut, c, tag)
    ensures forall q | q in TagRequirements(tag.scopes, c.id) :: q.principal.RequiresOwner?
  {
    hide OwnerApproved;
    var requirements := TagRequirements(tag.scopes, c.id);
    assert forall i | 0 <= i < |requirements| :: requirements[i] in requirements;
  }

  lemma {:induction false} PrincipalsOf(candidateId: string, p: ProposedPlacement)
    requires p.vehicleId.Some?
    ensures VehicleRequirement(candidateId, p, RequiresOwner).principal == RequiresOwner
    ensures VehicleRequirement(candidateId, p, RequiresWorker(p.workerId)).principal == RequiresWorker(p.workerId)
  {}

  lemma {:induction false} VehiclePart(cut: Cut, c: Candidate)
    ensures var requirements := VehicleRequirements(c.placements, cut.privateVehicles, c.id);
      (forall q | q in requirements && q.principal.RequiresOwner? :: OwnerApproved(cut, q))
      && (forall q | q in requirements && q.principal.RequiresWorker? :: WorkerConsents(cut, q))
      <==> VehiclesApproved(cut, c)
  {
    var requirements := VehicleRequirements(c.placements, cut.privateVehicles, c.id);
    hide VehicleRequirements, OwnerApproved, WorkerConsents, VehicleRequirement;
    if VehiclesApproved(cut, c) {
      forall q | q in requirements
        ensures if q.principal.RequiresOwner? then OwnerApproved(cut, q) else WorkerConsents(cut, q)
      {
        VehicleRequirementsMean(c.placements, cut.privateVehicles, c.id, q);
        var p :| p in c.placements && PlacesPrivateVehicle(p, cut.privateVehicles)
          && (q == VehicleRequirement(c.id, p, RequiresOwner)
              || q == VehicleRequirement(c.id, p, RequiresWorker(p.workerId)));
        PrincipalsOf(c.id, p);
      }
    } else {
      var p :| p in c.placements && PlacesPrivateVehicle(p, cut.privateVehicles)
        && !(OwnerApproved(cut, VehicleRequirement(c.id, p, RequiresOwner))
             && WorkerConsents(cut, VehicleRequirement(c.id, p, RequiresWorker(p.workerId))));
      PrincipalsOf(c.id, p);
      VehicleRequirementsMean(c.placements, cut.privateVehicles, c.id, VehicleRequirement(c.id, p, RequiresOwner));
      VehicleRequirementsMean(c.placements, cut.privateVehicles, c.id,
        VehicleRequirement(c.id, p, RequiresWorker(p.workerId)));
    }
  }

  lemma {:induction false} OwnerRequirementsApproved(cut: Cut, i: nat)
    requires ValidCut(cut) && i < |cut.search.candidates|
    requires cut.policy.IssuedSupported? && cut.search.candidates[i].verdict.FeasibleCandidate?
    requires cut.tags[i].coverageComplete && cut.consequences[cut.search.candidates[i].id].cents.Some?
    ensures var c := cut.search.candidates[i];
      (forall q | q in cut.requirementSets[i] && q.principal.RequiresOwner? :: OwnerApproved(cut, q))
      && (forall q | q in cut.requirementSets[i] && q.principal.RequiresWorker? :: WorkerConsents(cut, q))
      <==> CostApproved(cut, c) && TagsApproved(cut, c, cut.tags[i]) && VehiclesApproved(cut, c)
  {
    var c, cost, tag := cut.search.candidates[i], FindCost(cut.costs, cut.search.candidates[i].id), cut.tags[i];
    PositionsFoundIffUnique(cut.search.candidates);
    CostOfCandidate(cut.search.candidates, cut.consequences, true, i);
    assert cost == Some(AssessCost(c.id, cut.consequences[c.id], true));
    RequirementsOfValidCut(cut, i);
    forall q ensures q in cut.requirementSets[i] <==>
      q in CostRequirements(cost.value.subjects, c.id) || q in TagRequirements(tag.scopes, c.id)
      || q in VehicleRequirements(c.placements, cut.privateVehicles, c.id)
    {
      DerivedMeans(c, cost, tag, cut.privateVehicles, q);
    }
    CostPart(cut, c, cost.value);
    TagPart(cut, c, tag);
    VehiclePart(cut, c);
    hide VehicleRequirements, Derived, FindCost, ExpectedCosts, AssessCost, UniqueBy, OwnerApproved, WorkerConsents,
      ValidCut, CostApproved, TagsApproved, VehiclesApproved;
  }

  lemma {:induction false} AllPass(c: Candidate)
    requires c.Valid()
    ensures c.verdict.FeasibleCandidate? <==> forall x | x in c.constraints :: x.status.Pass?
  {
    assert c.trace != [] ==> c.trace[0] in c.trace;
  }

  /** The part of the evidence that no approval can replace. */
  ghost predicate Unobjectionable(cut: Cut, i: nat)
    requires Aligned(cut) && i < |cut.search.candidates|
  {
    var c := cut.search.candidates[i];
    && c.verdict.FeasibleCandidate? && !c.residualUnresolvedImpact
    && (forall p | p in c.placements :: p.businessDate == cut.businessDate)
    && cut.hard[i].applicability.HardNotApplicable?
    && cut.policy.IssuedSupported? && cut.AllCurrent()
    && cut.overtime[i].Applicability().DoesNotCreateOvertime?
    && cut.tags[i].coverageComplete && c.id in cut.consequences && cut.consequences[c.id].cents.Some?
  }

  lemma {:induction false} CandidateIsValid(cut: Cut, i: nat)
    requires ValidCut(cut) && i < |cut.search.candidates|
    ensures cut.search.candidates[i].Valid()
  {
    assert cut.search.candidates[i] in cut.search.candidates;
  }

  /** The facts of a candidate, read off the cut. */
  lemma {:induction false} FactsRead(cut: Cut, i: nat)
    requires ValidCut(cut) && i < |cut.search.candidates| && FactsOf(cut, i).Ok?
    ensures var f, c := FactsOf(cut, i).value, cut.search.candidates[i];
      && f.candidate == c && f.hard == cut.hard[i] && f.overtime == cut.overtime[i].Applicability()
      && (f.laterDay <==> exists p | p in c.placements :: p.businessDate != cut.businessDate)
      && (f.allCurrent <==> cut.AllCurrent()) && f.policy == cut.policy && f.policyReason == cut.policyReason
      && (f.exhaustedInVain <==>
            cut.search.exhausted && forall other | other in cut.search.candidates :: !other.verdict.FeasibleCandidate?)
      && (f.tag.TagUnknown? <==> !cut.tags[i].coverageComplete)
      && (c.verdict.FeasibleCandidate? ==>
            && c.id in cut.consequences
            && (f.CostApplies().CostUnknown? <==> cut.consequences[c.id].cents.None?))
  {
    hide TableBy, SelectionsCover, RequirementsDerived, MissingOwner, Nonaffirmative, FindCost, ExpectedCosts;
    var c := cut.search.candidates[i];
    assert c in cut.search.candidates;
    PositionsFoundIffUnique(cut.search.candidates);
    CostOfCandidate(cut.search.candidates, cut.consequences, cut.policy.IssuedSupported?, i);
  }

  lemma {:induction false} FactsUnobjectionable(cut: Cut, i: nat)
    requires ValidCut(cut) && Aligned(cut) && i < |cut.search.candidates| && FactsOf(cut, i).Ok?
    ensures var f := FactsOf(cut, i).value;
      NothingStandsInTheWay(f) <==> Unobjectionable(cut, i) && f.missingOwner == [] && f.nonaffirmative == []
  {
    CandidateIsValid(cut, i);
    FeasibleMeansEmptyTrace(cut.search.candidates[i]);
    FactsRead(cut, i);
    hide ValidCut, WithReason, Unknowns, FactsOf;
  }

  lemma {:induction false} ApprovalsComplete(cut: Cut, i: nat)
    requires ValidCut(cut) && Aligned(cut) && i < |cut.search.candidates| && FactsOf(cut, i).Ok?
    requires Unobjectionable(cut, i)
    ensures var f, c := FactsOf(cut, i).value, cut.search.candidates[i];
      f.missingOwner == [] && f.nonaffirmative == [] <==>
        CostApproved(cut, c) && TagsApproved(cut, c, cut.tags[i]) && VehiclesApproved(cut, c)
  {
    MissingMeans(cut, i);
    hide ValidCut, FactsOf, CostApproved, TagsApproved, VehiclesApproved, OwnerApproved, WorkerConsents;
    OwnerRequirementsApproved(cut, i);
  }

  lemma {:induction false} ApprovedIsKnown(cut: Cut, c: Candidate, tag: TagAssessment)
    ensures CostApproved(cut, c) ==> c.id in cut.consequences && cut.consequences[c.id].cents.Some?
    ensures TagsApproved(cut, c, tag) ==> tag.coverageComplete
  {}

  lemma {:induction false} CurrentMeansFound(cut: Cut)
    ensures cut.AllCurrent() <==> FoundAsExpected(cut)
  {
    forall o: Observation ensures o.ExactMatch() <==>
      && o.expectedState in {Present, AbsentEvidence}
      && o.observedState == o.expectedState && o.observed == o.expected
    {}
  }

  lemma {:induction false} MayActMeans(cut: Cut, i: nat)
    requires ValidCut(cut) && Aligned(cut) && i < |cut.search.candidates|
    ensures var c := cut.search.candidates[i];
      MayAct(cut, i) <==>
        Unobjectionable(cut, i) && CostApproved(cut, c) && TagsApproved(cut, c, cut.tags[i]) && VehiclesApproved(cut, c)
  {
    CandidateIsValid(cut, i);
    AllPass(cut.search.candidates[i]);
    ApprovedIsKnown(cut, cut.search.candidates[i], cut.tags[i]);
    CurrentMeansFound(cut);
    hide ValidCut, FoundAsExpected, Cut.AllCurrent, CostApproved, TagsApproved, VehiclesApproved;
  }

  lemma {:induction false} FactsAllowActing(cut: Cut, i: nat)
    requires ValidCut(cut) && i < |cut.search.candidates| && FactsOf(cut, i).Ok?
    ensures NothingStandsInTheWay(FactsOf(cut, i).value) <==> MayAct(cut, i)
  {
    AlignedOf(cut);
    hide ValidCut, FactsOf, NothingStandsInTheWay, MayAct, Unobjectionable;
    FactsUnobjectionable(cut, i);
    MayActMeans(cut, i);
    if Unobjectionable(cut, i) {
      ApprovalsComplete(cut, i);
    }
  }

  /** A candidate of a valid cut may act exactly when the evidence says so, in plain terms: every constraint passes, no
      hard boundary, supported policy, current evidence, no overtime, the business day itself, nothing unresolved, and
      the cost, every tag and every private vehicle approved by the owner, with the worker's consent for the vehicle. */
  lemma {:induction false} ActIffEvidenceAllows(cut: Cut, i: nat)
    requires ValidCut(cut) && !cut.search.outcome.NoRepairRequired? && i < |cut.search.candidates|
    ensures Evaluate(cut).Ok? && i < |Evaluate(cut).value.assessments|
    ensures Evaluate(cut).value.assessments[i].outcome.Act? <==> MayAct(cut, i)
  {
    hide ValidCut, MayAct, FactsOf, Evaluate, NothingStandsInTheWay;
    EvaluationIsTotal(cut);
    FactsOfValidCut(cut, i);
    FactsAllowActing(cut, i);
    ActConditions(FactsOf(cut, i).value);
    AlignedOf(cut);
    assert Assesses(cut, i, Evaluate(cut).value.assessments[i]);
  }

  /** The two chains agree on every candidate of every valid cut: ACT exactly when all nine gates of the assessment
      pass, every currentness observation matches and the policy is issued and supported. */
  lemma {:induction false} OutcomeAgreesWithGates(cut: Cut, i: nat)
    requires ValidCut(cut) && !cut.search.outcome.NoRepairRequired? && i < |cut.search.candidates|
    ensures Evaluate(cut).Ok? && i < |Evaluate(cut).value.assessments|
    ensures var a := Evaluate(cut).value.assessments[i];
      a.outcome.Act? <==> EveryGatePasses(a.gates) && cut.AllCurrent() && cut.policy.IssuedSupported?
  {
    hide ValidCut, FactsOf, Evaluate, Decide, GatesOf, RelationOf, OverrideOf, EveryGatePasses, Consistent;
    EvaluationIsTotal(cut);
    FactsOfValidCut(cut, i);
    FactsRead(cut, i);
    ActIffEveryGatePasses(FactsOf(cut, i).value);
    assert Assesses(cut, i, Evaluate(cut).value.assessments[i]);
  }

  /** Every assessment refines the promise semantics on its own axes. */
  lemma {:induction false} EvaluationRefinesPromise(cut: Cut, i: nat, x: Axes)
    requires ValidCut(cut) && !cut.search.outcome.NoRepairRequired? && i < |cut.search.candidates| && Clear(x)
    requires Evaluate(cut).Ok? && i < |Evaluate(cut).value.assessments|
    requires var a := Evaluate(cut).value.assessments[i];
      x.feasibility == a.technical && x.relation == a.relation && x.override == a.override
    ensures var a, promise := Evaluate(cut).value.assessments[i], AssessPromise(x);
      && (a.outcome.Act? ==> promise.authorization.Allowed? && promise.disposition == a.disposition)
      && (a.disposition.Forbidden? <==> promise.disposition.Forbidden?)
  {
    hide ValidCut, FactsOf, Evaluate, Assemble, AssessPromise, Consistent, Clear, OperationallyClear;
    EvaluationIsTotal(cut);
    FactsOfValidCut(cut, i);
    assert Assesses(cut, i, Evaluate(cut).value.assessments[i]);
    RefinesPromise(FactsOf(cut, i).value, x);
  }

  // ---------------------------------------------------------------- no authority is asked for without cause

  lemma {:induction false} OvertimeIsAskedForOnlyWhenCreated(f: Facts)
    ensures Some(OvertimeAuthorityRequired) in Decide(f).reasons || OvertimeGate(f).decision.NeedsHumanAuthority? ==>
      f.overtime.CreatesOvertime?
  {
    hide WithReason, Unknowns;
  }

  lemma {:induction false} GateCode(f: Facts, gate: Gate)
    ensures GateOf(f, gate).gate == gate
    ensures gate.POvertime? ==> GateOf(f, gate) == OvertimeGate(f)
  {
    hide WithReason, Unknowns, ForGate, Codes;
  }

  lemma {:induction false} OvertimeGateOf(f: Facts)
    ensures forall g | g in GatesOf(f) && g.gate.POvertime? :: g == OvertimeGate(f)
  {
    GateCode(f, POvertime);
    hide GateOf, OvertimeGate, GatesOf;
    forall g | g in GatesOf(f) && g.gate.POvertime? ensures g == OvertimeGate(f) {
      var i :| 0 <= i < |GATES| && GatesOf(f)[i] == g;
      GateCode(f, GATES[i]);
    }
  }

  lemma {:induction false} OvertimeOfValidCut(cut: Cut, i: nat)
    requires ValidCut(cut) && i < |cut.search.candidates|
    ensures Aligned(cut) && forall c | c in cut.overtime[i].comparisons :: c.Valid()
  {
    hide CostsComplete, RequirementsDerived, SelectionsCover, CurrentnessDerived, Working.Comparison.Valid;
    assert cut.overtime[i] in cut.overtime;
  }

  /** A candidate that stays within the hours at which each worker was already working is never asked for overtime
      authority, neither by its gate nor by its outcome. */
  lemma {:induction false} WithinBaselineHoursNobodyIsAsked(
    cut: Cut, i: nat, baseline: map<string, seq<Working.Interval>>, proposed: map<string, seq<Working.Interval>>
  )
    requires ValidCut(cut) && Aligned(cut) && !cut.search.outcome.NoRepairRequired? && i < |cut.search.candidates|
    requires forall c | c in cut.overtime[i].comparisons && cut.overtime[i].Complete() ::
        && c.workerId in baseline && c.workerId in proposed
        && Working.ClippedFrom(c, baseline[c.workerId], proposed[c.workerId])
    requires forall w | w in proposed :: w in baseline && Working.Covered(proposed[w]) <= Working.Covered(baseline[w])
    ensures Evaluate(cut).Ok? && i < |Evaluate(cut).value.assessments|
    ensures var a := Evaluate(cut).value.assessments[i];
      && Some(OvertimeAuthorityRequired) !in a.reasons
      && forall g | g in a.gates && g.gate.POvertime? :: !g.decision.NeedsHumanAuthority?
  {
    OvertimeOfValidCut(cut, i);
    hide ValidCut, FactsOf, Evaluate, Decide, OvertimeGate, Working.ClippedFrom, Working.Covered,
      Working.Comparison.Valid, Consistent;
    Working.MoveWithinBaselineHoursIsNotOvertime(cut.overtime[i], baseline, proposed);
    EvaluationIsTotal(cut);
    FactsOfValidCut(cut, i);
    FactsRead(cut, i);
    OvertimeIsAskedForOnlyWhenCreated(FactsOf(cut, i).value);
    assert Assesses(cut, i, Evaluate(cut).value.assessments[i]);
    OvertimeGateOf(FactsOf(cut, i).value);
  }

  // ---------------------------------------------------------------- approval can matter

  /** The kinds whose subjects are neither selections nor consents. */
  function OtherKinds(): seq<CurrentnessKind> {
    [CompanyPlanRevisionHead, CurrentPlanningScope, HandoffPreconditions, JobTaskPreconditions, AssignmentPreconditions,
     PlanDayPreconditions, EvaluationInputBinding, SupportSelectedSources, FeasibilityRecomputation, CostChain,
     AuthorityRootBinding, PolicyBinding, WorkingTimeMarkerHeads, DerivedUniverses]
  }

  function Found(subject: Subject, content: Content): Observation {
    Observation(subject, Present, Some(content), Present, Some(content))
  }

  function OtherFound(): (r: seq<Observation>)
    ensures |r| == |OtherKinds()|
    ensures forall i | 0 <= i < |r| :: r[i] == Found(OtherSubject(OtherKinds()[i], ""), OtherContent(""))
  {
    seq(|OtherKinds()|, i requires 0 <= i < |OtherKinds()| =>
      Found(OtherSubject(OtherKinds()[i], ""), OtherContent("")))
  }

  /** The approval is expected as selected and found as stored. */
  function VanObservations(
    owner: Requirement, consent: ConsentSelection, selected: Option<string>, stored: Option<string>
  )
    : seq<Observation>
  {
    [Observation(OwnerSubject(owner), Present, Some(OwnerContent(OwnerSelection(owner, selected))),
                 Present, Some(OwnerContent(OwnerSelection(owner, stored)))),
     Found(ConsentSubject(consent.requirement), ConsentContent(consent))] + OtherFound()
  }

  /** One countable hour. */
  function WorkFrom(workerId: string, kind: Working.WorkKind, start: int): Working.WorkItem {
    Working.WorkItemRecord.WorkItem(workerId, kind, start, start + 3600, Working.COUNTABLE, "")
  }

  /** A complete comparison of one local day: an hour of common work, and an hour that the candidate takes over. */
  ghost function QuietDay(workerId: string): (r: Working.OvertimeAssessment)
    ensures r.Applicability().DoesNotCreateOvertime?
    ensures forall c | c in r.comparisons :: c.Valid()
  {
    var rule: Working.Rule := Working.RuleRecord.Rule(workerId, 0, 86400, 28800);
    var common := WorkFrom(workerId, Working.UnchangedScheduled, 28800);
    var baseline := [common, WorkFrom(workerId, Working.BaselineChanged, 36000)];
    var candidate := [common, WorkFrom(workerId, Working.ProposedCandidate, 36000)];
    assert Working.IntervalsOf(baseline) == Working.IntervalsOf(candidate);
    var overtime := Some(Working.RuleOvertime(rule, baseline));
    var comparison := Working.Comparison(workerId, Working.Interval(0, 86400), Some(rule), baseline, candidate, true,
                                         overtime, overtime);
    assert forall c | c in [comparison] :: !c.CreatesOvertime();
    Working.OvertimeAssessment([comparison.Key()], [comparison], true)
  }

  /** One candidate that uses one private vehicle, with the worker's consent. The cut selects the owner approval
      `selected`, and at decision time the approval `stored` is found. */
  ghost function VanCut(id: string, p: ProposedPlacement, selected: Option<string>, stored: Option<string>): Cut
    requires p.vehicleId.Some?
  {
    var owner := VehicleRequirement(id, p, RequiresOwner);
    var worker := VehicleRequirement(id, p, RequiresWorker(p.workerId));
    var consent := ConsentSelection(worker, Some(ConsentHead("", Evidence.FreelyGiven, true)));
    var candidate := Candidate(id, [], [], FeasibleCandidate, [p], false, true);
    Cut(SearchResult(FeasibleCandidatesFound, [candidate], [id], false),
        p.businessDate, map[p.vehicleId.value := true],
        map[id := Consequence(Some(0), [Slice(p.jobId, p.businessDate)])],
        IssuedSupported, None, [HardBoundary(id, HardNotApplicable, None)], [QuietDay(p.workerId)],
        [TagAssessment(id, [], true)], [CostAssessment(id, Some(0), [], NoSubjects)],
        [[owner, worker]], [OwnerSelection(owner, selected)], [consent],
        VanObservations(owner, consent, selected, stored))
  }

  lemma {:induction false} OneVehicle(p: ProposedPlacement, privateVehicles: map<string, bool>, id: string)
    requires UsesPrivateVehicle(p, privateVehicles)
    ensures VehicleRequirements([p], privateVehicles, id) ==
      [VehicleRequirement(id, p, RequiresOwner), VehicleRequirement(id, p, RequiresWorker(p.workerId))]
  {
    assert [p][..0] == [];
  }

  lemma {:induction false} CollapsePair(a: Requirement, b: Requirement)
    requires a != b
    ensures Collapse([a, b]) == [a, b]
  {
    assert [a, b][..1] == [a] && [a][..0] == [];
    assert Collapse([a]) == [a];
  }

  lemma {:induction false} VanRequirements(
    id: string, p: ProposedPlacement, selected: Option<string>, stored: Option<string>
  )
    requires p.vehicleId.Some?
    ensures var cut := VanCut(id, p, selected, stored);
      Derived(cut.search.candidates[0], FindCost(cut.costs, id), cut.tags[0], cut.privateVehicles) ==
        cut.requirementSets[0]
  {
    hide QuietDay, VanObservations;
    var cut := VanCut(id, p, selected, stored);
    var owner, worker := cut.requirementSets[0][0], cut.requirementSets[0][1];
    OneVehicle(p, cut.privateVehicles, id);
    assert CostRequirements([], id) + TagRequirements([], id) + [owner, worker] == [owner, worker];
    CollapsePair(owner, worker);
  }

  /** One selection for each of two requirements covers them. */
  lemma {:induction false} TwoSelectionsCover(cut: Cut, owner: OwnerSelection, worker: ConsentSelection)
    requires cut.requirementSets == [[owner.requirement, worker.requirement]]
    requires cut.ownerSelections == [owner] && cut.consentSelections == [worker]
    requires owner.requirement.principal.RequiresOwner? && worker.requirement.principal.RequiresWorker?
    ensures SelectionsCover(cut) && NoCrossScopeReuse(cut)
  {
    var requirements := cut.requirementSets[0];
    assert forall q :: q in requirements <==> q == owner.requirement || q == worker.requirement;
    forall q ensures Required(cut, q) <==> q == owner.requirement || q == worker.requirement {
      assert q in requirements ==> q in cut.requirementSets[0];
    }
    hide Required;
    forall q ensures HasKey(cut.ownerSelections, OwnerRequirementOf, q) <==> q == owner.requirement {
      assert OwnerRequirementOf(cut.ownerSelections[0]) == owner.requirement;
    }
    forall q ensures HasKey(cut.consentSelections, ConsentRequirementOf, q) <==> q == worker.requirement {
      assert ConsentRequirementOf(cut.consentSelections[0]) == worker.requirement;
    }
  }

  lemma {:induction false} VanSelections(
    id: string, p: ProposedPlacement, selected: Option<string>, stored: Option<string>
  )
    requires p.vehicleId.Some?
    ensures SelectionsCover(VanCut(id, p, selected, stored)) && NoCrossScopeReuse(VanCut(id, p, selected, stored))
  {
    hide QuietDay, VanObservations, SelectionsCover, NoCrossScopeReuse;
    var cut := VanCut(id, p, selected, stored);
    TwoSelectionsCover(cut, cut.ownerSelections[0], cut.consentSelections[0]);
  }

  lemma {:induction false} OtherKindsListed(kind: CurrentnessKind)
    ensures kind in OtherKinds() <==> !kind.OwnerApprovalSelections? && !kind.WorkerConsentHeads?
  {
    assert OtherKinds()[0] == CompanyPlanRevisionHead && OtherKinds()[1] == CurrentPlanningScope
      && OtherKinds()[2] == HandoffPreconditions && OtherKinds()[3] == JobTaskPreconditions
      && OtherKinds()[4] == AssignmentPreconditions && OtherKinds()[5] == PlanDayPreconditions
      && OtherKinds()[6] == EvaluationInputBinding && OtherKinds()[7] == SupportSelectedSources
      && OtherKinds()[8] == FeasibilityRecomputation && OtherKinds()[9] == CostChain
      && OtherKinds()[10] == AuthorityRootBinding && OtherKinds()[11] == PolicyBinding
      && OtherKinds()[12] == WorkingTimeMarkerHeads && OtherKinds()[13] == DerivedUniverses;
  }

  lemma {:induction false} OtherKindsDiffer(i: nat, j: nat)
    requires i < j < |OtherKinds()|
    ensures OtherKinds()[i] != OtherKinds()[j]
  {}

  /** The remaining observations: distinct subjects of every remaining kind, found as expected. */
  lemma {:induction false} OthersFound()
    ensures UniqueBy(OtherFound(), SubjectOf)
    ensures forall o | o in OtherFound() ::
      o.subject.OtherSubject? && o.subject.other in OtherKinds() && o.Valid() && o.ExactMatch()
  {
    hide OtherKinds;
    forall i, j | 0 <= i < j < |OtherFound()| ensures SubjectOf(OtherFound()[i]) != SubjectOf(OtherFound()[j]) {
      OtherKindsDiffer(i, j);
    }
  }

  lemma {:induction false} KindFound(kind: CurrentnessKind) returns (o: Observation)
    requires kind in OtherKinds()
    ensures o in OtherFound() && o.subject.Kind() == kind
  {
    hide OtherKinds, OtherFound;
    var i :| 0 <= i < |OtherKinds()| && OtherKinds()[i] == kind;
    o := OtherFound()[i];
  }

  lemma {:induction false} UniquePrepended<T, K>(a: T, b: T, rest: seq<T>, key: T -> K)
    requires UniqueBy(rest, key) && key(a) != key(b)
    requires forall x | x in rest :: key(x) != key(a) && key(x) != key(b)
    ensures UniqueBy([a, b] + rest, key)
  {
    var all := [a, b] + rest;
    forall i, j | 0 <= i < j < |all| ensures key(all[i]) != key(all[j]) {
      if i >= 2 {
        assert all[i] == rest[i - 2] && all[j] == rest[j - 2];
      } else if j >= 2 {
        assert all[j] in rest;
      }
    }
  }

  /** A vector with one selection, one consent, and everything else found. */
  ghost predicate SeenBy(cut: Cut, owner: Observation, consent: Observation) {
    && cut.observations == [owner, consent] + OtherFound()
    && owner.Valid() && consent.Valid() && owner.subject.OwnerSubject? && consent.subject.ConsentSubject?
  }

  lemma {:induction false} SeenKinds(cut: Cut, owner: Observation, consent: Observation, kind: CurrentnessKind)
    requires SeenBy(cut, owner, consent)
    ensures KindObserved(cut, kind)
  {
    hide OtherKinds, OtherFound;
    OtherKindsListed(kind);
    if kind.OwnerApprovalSelections? {
      assert cut.observations[0] == owner && owner.subject.Kind() == kind;
    } else if kind.WorkerConsentHeads? {
      assert cut.observations[1] == consent && consent.subject.Kind() == kind;
    } else {
      var o := KindFound(kind);
      assert o in cut.observations;
    }
  }

  lemma {:induction false} SeenSubjects(cut: Cut, owner: Observation, consent: Observation)
    requires SeenBy(cut, owner, consent)
    ensures UniqueBy(cut.observations, SubjectOf)
    ensures forall o :: o in cut.observations <==> o == owner || o == consent || o in OtherFound()
    ensures forall o | o in OtherFound() :: o.Valid() && o.ExactMatch() && ExpectationDerived(cut, o)
    ensures cut.AllCurrent() <==> owner.ExactMatch() && consent.ExactMatch()
  {
    hide OtherKinds, OtherFound, UniqueBy;
    OthersFound();
    UniquePrepended(owner, consent, OtherFound(), SubjectOf);
    forall o | o in OtherFound() ensures ExpectationDerived(cut, o) {
      OtherKindsListed(o.subject.other);
    }
  }

  lemma {:induction false} VanObserved(
    id: string, p: ProposedPlacement, selected: Option<string>, stored: Option<string>
  )
    requires p.vehicleId.Some?
    ensures CurrentnessDerived(VanCut(id, p, selected, stored))
    ensures VanCut(id, p, selected, stored).AllCurrent() <==> selected == stored
  {
    hide QuietDay, OtherFound, UniqueBy, VehicleRequirement, KindObserved;
    var cut := VanCut(id, p, selected, stored);
    var owner, consent := cut.observations[0], cut.observations[1];
    SeenSubjects(cut, owner, consent);
    forall kind: CurrentnessKind ensures KindObserved(cut, kind) {
      SeenKinds(cut, owner, consent, kind);
    }
    assert SubjectOf(cut.observations[0]) == OwnerSubject(cut.ownerSelections[0].requirement);
    assert SubjectOf(cut.observations[1]) == ConsentSubject(cut.consentSelections[0].requirement);
    assert cut.ownerSelections[0] in cut.ownerSelections && cut.consentSelections[0] in cut.consentSelections;
    assert ExpectationDerived(cut, owner) && ExpectationDerived(cut, consent);
  }

  lemma {:induction false} VanCutIsValid(
    id: string, p: ProposedPlacement, selected: Option<string>, stored: Option<string>
  )
    requires p.vehicleId.Some?
    ensures ValidCut(VanCut(id, p, selected, stored))
  {
    hide SelectionsCover, NoCrossScopeReuse, CurrentnessDerived, Derived, FindCost, QuietDay, VanObservations,
      Working.Comparison.Valid;
    var cut := VanCut(id, p, selected, stored);
    VanRequirements(id, p, selected, stored);
    VanSelections(id, p, selected, stored);
    VanObserved(id, p, selected, stored);
    assert UsesPrivateVehicle(p, cut.privateVehicles) && p in cut.search.candidates[0].placements;
    assert ExpectedCosts(cut.search.candidates[1..], cut.consequences, true) == [];
    assert FeasibleIds(cut.search.candidates[1..]) == [];
    PositionsFoundIffUnique(cut.search.candidates);
  }

  lemma {:induction false} OnlySelections(cut: Cut, owner: OwnerSelection, worker: ConsentSelection)
    requires cut.ownerSelections == [owner] && cut.consentSelections == [worker]
    ensures OwnerApproved(cut, owner.requirement) <==> owner.Selected()
    ensures WorkerConsents(cut, worker.requirement) <==> worker.Affirmative()
  {
    assert owner in cut.ownerSelections && worker in cut.consentSelections;
  }

  /** With one requirement for the owner and one for the worker, the two selections decide what is missing. */
  lemma {:induction false} OneOfEach(cut: Cut, owner: OwnerSelection, worker: ConsentSelection)
    requires ValidCut(cut) && |cut.search.candidates| == 1 && FactsOf(cut, 0).Ok?
    requires cut.requirementSets == [[owner.requirement, worker.requirement]]
    requires cut.ownerSelections == [owner] && cut.consentSelections == [worker]
    requires owner.requirement.principal.RequiresOwner? && worker.requirement.principal.RequiresWorker?
    ensures FactsOf(cut, 0).value.missingOwner == [] <==> owner.Selected()
    ensures FactsOf(cut, 0).value.nonaffirmative == [] <==> worker.Affirmative()
  {
    hide ValidCut, FactsOf, OwnerApproved, WorkerConsents, ConsentSelection.Affirmative, OwnerSelection.Selected;
    MissingMeans(cut, 0);
    OnlySelections(cut, owner, worker);
    var requirements := cut.requirementSets[0];
    assert forall q :: q in requirements <==> q == owner.requirement || q == worker.requirement;
  }

  lemma {:induction false} VanApproval(
    id: string, p: ProposedPlacement, selected: Option<string>, stored: Option<string>
  )
    requires p.vehicleId.Some? && FactsOf(VanCut(id, p, selected, stored), 0).Ok?
    ensures var f := FactsOf(VanCut(id, p, selected, stored), 0).value;
      (f.missingOwner == [] <==> selected.Some?) && f.nonaffirmative == []
  {
    hide QuietDay, FactsOf, VanObservations, ValidCut;
    VanCutIsValid(id, p, selected, stored);
    var cut := VanCut(id, p, selected, stored);
    OneOfEach(cut, cut.ownerSelections[0], cut.consentSelections[0]);
  }

  /** Everything but the owner's approval is in place, currentness aside. */
  ghost predicate OnlyOwnerToAsk(f: Facts) {
    && f.hard.applicability.HardNotApplicable? && f.candidate.verdict.FeasibleCandidate?
    && f.overtime.DoesNotCreateOvertime?
    && !f.tag.TagUnknown? && !f.CostApplies().CostUnknown? && !f.candidate.residualUnresolvedImpact && !f.laterDay
    && f.policy.IssuedSupported?
  }

  lemma {:induction false} VanFacts(id: string, p: ProposedPlacement, selected: Option<string>, stored: Option<string>)
    requires p.vehicleId.Some? && FactsOf(VanCut(id, p, selected, stored), 0).Ok?
    ensures var f := FactsOf(VanCut(id, p, selected, stored), 0).value;
      OnlyOwnerToAsk(f) && (f.allCurrent <==> selected == stored)
  {
    VanCutIsValid(id, p, selected, stored);
    VanObserved(id, p, selected, stored);
    var cut := VanCut(id, p, selected, stored);
    hide ValidCut, QuietDay, FactsOf, CurrentnessDerived, VanObservations, VehicleRequirement, Cut.AllCurrent,
      Facts.CostApplies;
    FactsRead(cut, 0);
  }

  lemma {:induction false} ConsistentCandidate(f: Facts)
    requires Consistent(f)
    ensures f.candidate.Valid()
  {}

  lemma {:induction false} OwnerDecides(f: Facts)
    requires Consistent(f) && OnlyOwnerToAsk(f) && f.nonaffirmative == []
    ensures Decide(f).outcome ==
      if !f.allCurrent then AbstainOutcome else if f.missingOwner == [] then Act else Ask
  {
    hide Decide, Consistent;
    ConsistentCandidate(f);
    FeasibleMeansEmptyTrace(f.candidate);
    OutcomesClassified(f);
  }

  /** A valid cut whose only candidate receives this outcome. */
  ghost predicate Yields(cut: Cut, outcome: AuthorityOutcome) {
    && ValidCut(cut) && Evaluate(cut).Ok? && |Evaluate(cut).value.assessments| == 1
    && Evaluate(cut).value.assessments[0].outcome == outcome
  }

  /** The owner's answer decides, and it decides only as long as the selection is what is stored. */
  lemma {:induction false} VanOutcome(
    id: string, p: ProposedPlacement, selected: Option<string>, stored: Option<string>
  )
    requires p.vehicleId.Some?
    ensures Yields(VanCut(id, p, selected, stored),
                   if selected != stored then AbstainOutcome else if selected.Some? then Act else Ask)
  {
    VanCutIsValid(id, p, selected, stored);
    var cut := VanCut(id, p, selected, stored);
    assert |cut.search.candidates| == 1 && !cut.search.outcome.NoRepairRequired?;
    hide ValidCut, Evaluate, FactsOf, Decide, VanCut, Consistent, GatesOf, RelationOf, OverrideOf, OnlyOwnerToAsk;
    FactsOfValidCut(cut, 0);
    VanFacts(id, p, selected, stored);
    VanApproval(id, p, selected, stored);
    EvaluationIsTotal(cut);
    OwnerDecides(FactsOf(cut, 0).value);
    assert Assesses(cut, 0, Evaluate(cut).value.assessments[0]);
  }

  lemma {:induction false} VanApprovals(
    id: string, p: ProposedPlacement, approval: string, before: Option<string>, after: Option<string>
  )
    requires p.vehicleId.Some?
    ensures MoreApprovals(VanCut(id, p, None, before), VanCut(id, p, Some(approval), after))
  {
    hide QuietDay, OtherFound;
    var c, d := VanCut(id, p, None, before), VanCut(id, p, Some(approval), after);
    assert Reselected(c, d, c.observations[0].subject);
    assert c.observations == [c.observations[0]] + c.observations[1..];
    assert d.observations == [d.observations[0]] + d.observations[1..];
    assert c.observations[1..] == d.observations[1..];
  }

  /** Valid cuts exist, and the owner's approval can be all that is missing: ASK becomes ACT when the approval is both
      selected and stored. Selecting what is stored lifts an ABSTAIN, and selecting what is not makes ASK an ABSTAIN. */
  lemma {:induction false} ApprovalCanBeAllThatIsMissing(id: string, p: ProposedPlacement, approval: string)
    requires p.vehicleId.Some?
    ensures var unasked, unselected := VanCut(id, p, None, None), VanCut(id, p, None, Some(approval));
      var granted, unfounded := VanCut(id, p, Some(approval), Some(approval)), VanCut(id, p, Some(approval), None);
      && Yields(unasked, Ask) && Yields(unselected, AbstainOutcome) && Yields(granted, Act)
      && Yields(unfounded, AbstainOutcome)
      && MoreApprovals(unasked, granted) && MoreApprovals(unselected, granted) && MoreApprovals(unasked, unfounded)
  {
    hide Yields, MoreApprovals, VanCut;
    VanOutcome(id, p, None, None);
    VanOutcome(id, p, None, Some(approval));
    VanOutcome(id, p, Some(approval), Some(approval));
    VanOutcome(id, p, Some(approval), None);
    VanApprovals(id, p, approval, None, Some(approval));
    VanApprovals(id, p, approval, Some(approval), Some(approval));
    VanApprovals(id, p, approval, None, None);
  }
}
