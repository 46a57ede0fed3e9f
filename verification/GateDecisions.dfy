/** Which decision each gate takes and why, and how the decisions of the gates bear on the outcome. */
module GateDecisions {
  import opened Prelude
  import opened PromiseSemantics
  import opened Authority
  import opened AuthorityEvaluation
  import opened AuthorityProperties

  // ---------------------------------------------------------------- one gate at a time

  /** Some constraint failed: that of a customer window, or any other. */
  predicate SomeFailure(constraints: seq<Constraint>, window: bool) {
    exists x | x in constraints :: x.status == Fail && (x.reason == "CUSTOMER_WINDOW_VIOLATION" <==> window)
  }

  predicate SomeUnknown(constraints: seq<Constraint>) {
    exists x | x in constraints :: x.status == UnknownConstraint
  }

  /** The gate asks, blocks or abstains exactly under these conditions, and passes otherwise. */
  ghost predicate DecidesBy(g: GateAssessment, asks: bool, blocks: bool, abstains: bool) {
    && (g.decision == NeedsHumanAuthority <==> asks)
    && (g.decision == HardBlockGate <==> blocks)
    && (g.decision == Indeterminate <==> abstains)
  }

  lemma {:induction false} TraceFailures(f: Facts)
    ensures f.WindowFailures() != [] <==> SomeFailure(f.candidate.trace, true)
    ensures f.OrdinaryFailures() != [] <==> SomeFailure(f.candidate.trace, false)
    ensures f.UnknownConstraints() != [] <==> SomeUnknown(f.candidate.trace)
  {
    hide WithReason, Unknowns;
    assert f.WindowFailures() != [] ==> f.WindowFailures()[0] in f.WindowFailures();
    assert f.OrdinaryFailures() != [] ==> f.OrdinaryFailures()[0] in f.OrdinaryFailures();
    assert f.UnknownConstraints() != [] ==> f.UnknownConstraints()[0] in f.UnknownConstraints();
  }

  predicate ApprovalMissing(f: Facts, gate: Gate) {
    exists q | q in f.missingOwner :: q.gate == gate
  }

  /** When a gate needs a human. P-VEHICLE does exactly when every consent is affirmative and an approval is missing. */
  predicate Asks(f: Facts, gate: Gate) {
    match gate
    case PWindow => SomeFailure(f.candidate.trace, true)
    case PCost => f.cost.Some? && f.cost.value.cents.Some? && ApprovalMissing(f, PCost)
    case POvertime => f.overtime.CreatesOvertime?
    case PVehicle => f.nonaffirmative == [] && ApprovalMissing(f, PVehicle)
    case PTag => !f.tag.TagUnknown? && ApprovalMissing(f, PTag)
    case PHorizon => f.laterDay
    case PAssign => false
    case PSearch => false
    case PartialRepair => false
  }

  /** Only P-ASSIGN ever blocks: for an applicable boundary, and for a failure other than that of a customer window when
      no boundary is in question. */
  predicate Blocks(f: Facts, gate: Gate) {
    && gate.PAssign?
    && (|| f.hard.applicability.HardApplicable?
        || (f.hard.applicability.HardNotApplicable? && SomeFailure(f.candidate.trace, false)))
  }

  /** When a gate can tell neither way. */
  predicate Abstains(f: Facts, gate: Gate) {
    match gate
    case PAssign =>
      || f.hard.applicability.HardUnknown?
      || (f.hard.applicability.HardNotApplicable? && !SomeFailure(f.candidate.trace, false)
          && SomeUnknown(f.candidate.trace))
    case PCost => f.cost.Some? && f.cost.value.cents.None?
    case POvertime => f.overtime.UnknownOvertime?
    case PVehicle => f.nonaffirmative != []
    case PTag => f.tag.TagUnknown?
    case PSearch => f.exhaustedInVain
    case PartialRepair => f.candidate.residualUnresolvedImpact
    case PWindow => false
    case PHorizon => false
  }

  /** The decision of every gate. */
  lemma {:induction false} EachGateDecides(f: Facts, gate: Gate)
    ensures DecidesBy(GateOf(f, gate), Asks(f, gate), Blocks(f, gate), Abstains(f, gate))
  {
    TraceFailures(f);
    hide WithReason, Unknowns, ForGate, Codes, SomeFailure, SomeUnknown;
  }

  // ---------------------------------------------------------------- reasons

  /** What a gate that asks says. */
  function AskingReason(gate: Gate): Option<Reason> {
    match gate
    case PWindow => Some(OwnerDecisionRequired)
    case PCost => Some(CostApprovalRequired)
    case POvertime => Some(OvertimeAuthorityRequired)
    case PVehicle => Some(VehicleApprovalRequired)
    case PTag => Some(TagApprovalRequired)
    case PHorizon => Some(LaterDayAuthorityRequired)
    case _ => None
  }

  /** What a gate other than P-ASSIGN says when it abstains. */
  function AbstainingReason(gate: Gate): Option<Reason> {
    match gate
    case PCost => Some(CostConsequenceIncomplete)
    case POvertime => Some(OvertimeEvidenceUnknown)
    case PVehicle => Some(WorkerConsentRequired)
    case PTag => Some(MarkerEvidenceUnknown)
    case PSearch => Some(EnvelopeExhausted)
    case PartialRepair => Some(UnresolvedImpact)
    case _ => None
  }

  /** A gate that passes is silent, and any other states its one reason. */
  ghost predicate SaysWhy(g: GateAssessment) {
    match g.decision
    case PassGate => g.reasons == []
    case NeedsHumanAuthority => g.reasons == [AskingReason(g.gate)]
    case Indeterminate => g.gate != PAssign ==> g.reasons == [AbstainingReason(g.gate)]
    case HardBlockGate => g.gate == PAssign
  }

  lemma {:induction false} EachGateSaysWhy(f: Facts, gate: Gate)
    ensures GateOf(f, gate).gate == gate && SaysWhy(GateOf(f, gate))
  {
    hide WithReason, Unknowns, ForGate, Codes;
  }

  lemma {:induction false} CodesMean(constraints: seq<Constraint>, reason: Option<Reason>)
    ensures reason in Codes(constraints) <==> exists x | x in constraints :: reason == Some(Stated(x.reason))
  {
    if x :| x in constraints && reason == Some(Stated(x.reason)) {
      var i :| 0 <= i < |constraints| && constraints[i] == x;
      assert Codes(constraints)[i] == reason;
    }
  }

  /** P-ASSIGN states the boundary, or else exactly the failures that block or the unknowns that make it abstain. */
  lemma {:induction false} AssignSaysWhy(f: Facts, reason: Option<Reason>)
    ensures f.hard.applicability != HardNotApplicable ==> AssignGate(f).reasons == [Stating(f.hard.reason)]
    ensures f.hard.applicability == HardNotApplicable && AssignGate(f).decision == HardBlockGate ==>
      (reason in AssignGate(f).reasons <==> exists x | x in f.candidate.trace ::
         x.status == Fail && x.reason != "CUSTOMER_WINDOW_VIOLATION" && reason == Some(Stated(x.reason)))
    ensures f.hard.applicability == HardNotApplicable && AssignGate(f).decision == Indeterminate ==>
      (reason in AssignGate(f).reasons <==> exists x | x in f.candidate.trace ::
         x.status == UnknownConstraint && reason == Some(Stated(x.reason)))
  {
    hide WithReason, Unknowns, Codes;
    CodesMean(f.OrdinaryFailures(), reason);
    CodesMean(f.UnknownConstraints(), reason);
  }

  // ---------------------------------------------------------------- the outcome and the gates

  /** Some gate decides this way. */
  ghost predicate SomeGate(gates: seq<GateAssessment>, decision: GateDecision) {
    exists g | g in gates :: g.decision == decision
  }

  /** Some gate decides this way and gives this reason for it. */
  ghost predicate SomeGateSays(gates: seq<GateAssessment>, decision: GateDecision, reason: Option<Reason>) {
    exists g | g in gates :: g.decision == decision && reason in g.reasons
  }

  lemma {:induction false} GateIsListed(f: Facts, gate: Gate)
    ensures GateOf(f, gate) in GatesOf(f)
  {
    hide GateOf;
    var k := EveryGateHasAPlace(gate);
    assert GatesOf(f)[k] == GateOf(f, gate);
  }

  lemma {:induction false} ListedIsGate(f: Facts, g: GateAssessment)
    requires g in GatesOf(f)
    ensures g == GateOf(f, g.gate)
  {
    var k :| 0 <= k < |GATES| && GatesOf(f)[k] == g;
    EachGateSaysWhy(f, GATES[k]);
  }

  lemma {:induction false} GateDecides(f: Facts, gate: Gate, decision: GateDecision, reason: Option<Reason>)
    requires GateOf(f, gate).decision == decision && reason in GateOf(f, gate).reasons
    ensures SomeGateSays(GatesOf(f), decision, reason)
  {
    hide GateOf, GatesOf;
    GateIsListed(f, gate);
  }

  lemma {:induction false} AskingGate(f: Facts, gate: Gate)
    requires Asks(f, gate)
    ensures SomeGateSays(GatesOf(f), NeedsHumanAuthority, AskingReason(gate))
  {
    hide GateOf, GatesOf, Asks, Blocks, Abstains;
    EachGateDecides(f, gate);
    EachGateSaysWhy(f, gate);
    GateDecides(f, gate, NeedsHumanAuthority, AskingReason(gate));
  }

  lemma {:induction false} AbstainingGate(f: Facts, gate: Gate)
    requires Abstains(f, gate) && gate != PAssign
    ensures SomeGateSays(GatesOf(f), Indeterminate, AbstainingReason(gate))
  {
    hide GateOf, GatesOf, Asks, Blocks, Abstains;
    EachGateDecides(f, gate);
    EachGateSaysWhy(f, gate);
    GateDecides(f, gate, Indeterminate, AbstainingReason(gate));
  }

  lemma {:induction false} MissingGateAsks(f: Facts, q: Requirement)
    requires Consistent(f) && q in f.missingOwner && !f.tag.TagUnknown? && f.nonaffirmative == []
    ensures Asks(f, q.gate) && ApprovalReason(q.gate) == AskingReason(q.gate)
  {
    hide WithReason, Unknowns, NoRepeatedRequirement;
    assert RequirementFits(f, q);
  }

  lemma {:induction false} SaysMeansDecides(gates: seq<GateAssessment>, decision: GateDecision, reason: Option<Reason>)
    requires SomeGateSays(gates, decision, reason)
    ensures SomeGate(gates, decision)
  {}

  /** Whatever the owner is asked for, some gate needs a human for it. */
  lemma {:induction false} AskShowsInGates(f: Facts)
    requires Consistent(f) && Decide(f).outcome.Ask?
    ensures SomeGate(GatesOf(f), NeedsHumanAuthority)
    ensures forall reason | reason in Decide(f).reasons :: SomeGateSays(GatesOf(f), NeedsHumanAuthority, reason)
  {
    TraceFailures(f);
    hide WithReason, Unknowns, GatesOf, Codes, Consistent, SomeFailure, SomeUnknown, ApprovalReasons, SomeGate,
      SomeGateSays;
    if f.WindowFailures() != [] {
      AskingGate(f, PWindow);
    } else if f.missingOwner != [] {
      assert f.missingOwner[0] in f.missingOwner;
      assert ApprovalReason(f.missingOwner[0].gate) in Decide(f).reasons;
      forall reason | reason in Decide(f).reasons ensures SomeGateSays(GatesOf(f), NeedsHumanAuthority, reason) {
        var q :| q in f.missingOwner && ApprovalReason(q.gate) == reason;
        MissingGateAsks(f, q);
        AskingGate(f, q.gate);
      }
    } else if f.overtime.CreatesOvertime? {
      AskingGate(f, POvertime);
    } else {
      AskingGate(f, PHorizon);
    }
    SaysMeansDecides(GatesOf(f), NeedsHumanAuthority, Decide(f).reasons[0]);
  }

  lemma {:induction false} BlockingReasons(f: Facts)
    requires Blocks(f, PAssign)
    ensures forall reason | reason in AssignGate(f).reasons :: reason in Decide(f).reasons
  {
    TraceFailures(f);
    hide WithReason, Unknowns, Codes, SomeFailure;
    forall reason | reason in AssignGate(f).reasons ensures reason in Decide(f).reasons {
      CodesMean(f.OrdinaryFailures(), reason);
      CodesMean(f.candidate.trace, reason);
    }
  }

  /** Exactly a gate that blocks makes the outcome BLOCK, unless the boundary is unknown: then a failed constraint
      blocks although P-ASSIGN abstains. What the gate states is among the reasons of the outcome. */
  lemma {:induction false} BlockShowsInGates(f: Facts)
    ensures SomeGate(GatesOf(f), HardBlockGate) ==> Decide(f).outcome.Block?
    ensures Decide(f).outcome.Block? && !f.hard.applicability.HardUnknown? ==> SomeGate(GatesOf(f), HardBlockGate)
    ensures SomeGate(GatesOf(f), HardBlockGate) ==>
      forall reason | reason in AssignGate(f).reasons :: reason in Decide(f).reasons
  {
    TraceFailures(f);
    EachGateDecides(f, PAssign);
    GateIsListed(f, PAssign);
    OutcomesClassified(f);
    hide WithReason, Unknowns, Codes, GatesOf, SomeFailure, SomeUnknown, Decide;
    if g :| g in GatesOf(f) && g.decision == HardBlockGate {
      ListedIsGate(f, g);
      EachGateDecides(f, g.gate);
      BlockingReasons(f);
    }
    if Decide(f).outcome.Block? && !f.hard.applicability.HardUnknown? {
      assert GateOf(f, PAssign).decision == HardBlockGate;
    }
  }

  /** What an abstention may state besides the reasons of the gates: evidence that is not current, an unsupported
      policy, or an unknown constraint of a candidate whose boundary is unknown as well. */
  ghost predicate OtherGround(f: Facts, reason: Option<Reason>) {
    || (!f.allCurrent && reason == Some(CurrentnessFailed))
    || (f.policy != IssuedSupported && reason == Stating(f.policyReason))
    || (f.hard.applicability.HardUnknown?
        && exists x | x in f.candidate.trace :: x.status == UnknownConstraint && reason == Some(Stated(x.reason)))
  }

  lemma {:induction false} UnknownShowsInGates(f: Facts)
    requires f.OrdinaryFailures() == [] && !f.hard.applicability.HardApplicable?
    requires f.UnknownConstraints() != [] || f.hard.applicability.HardUnknown?
    ensures SomeGate(GatesOf(f), Indeterminate)
    ensures f.hard.applicability.HardUnknown? ==> SomeGateSays(GatesOf(f), Indeterminate, Stating(f.hard.reason))
    ensures forall reason | reason in Codes(f.UnknownConstraints()) ::
      SomeGateSays(GatesOf(f), Indeterminate, reason) || OtherGround(f, reason)
  {
    TraceFailures(f);
    EachGateDecides(f, PAssign);
    GateIsListed(f, PAssign);
    hide WithReason, Unknowns, Codes, SomeFailure, GatesOf;
    forall reason | reason in Codes(f.UnknownConstraints())
      ensures SomeGateSays(GatesOf(f), Indeterminate, reason) || OtherGround(f, reason)
    {
      CodesMean(f.UnknownConstraints(), reason);
      AssignSaysWhy(f, reason);
    }
  }

  /** An abstention shows in the gates or is for lack of currentness or policy. */
  lemma {:induction false} AbstentionShowsInGates(f: Facts)
    requires Decide(f).outcome.AbstainOutcome?
    ensures SomeGate(GatesOf(f), Indeterminate) || !f.allCurrent || f.policy != IssuedSupported
    ensures forall reason | reason in Decide(f).reasons ::
      SomeGateSays(GatesOf(f), Indeterminate, reason) || OtherGround(f, reason)
  {
    hide WithReason, Unknowns, GatesOf, Codes, SomeFailure, SomeUnknown, SomeGate, SomeGateSays;
    if f.UnknownConstraints() != [] || f.hard.applicability.HardUnknown? {
      UnknownShowsInGates(f);
    } else if f.allCurrent {
      var gate := if f.CostApplies().CostUnknown? then PCost else if f.overtime.UnknownOvertime? then POvertime
        else if f.tag.TagUnknown? then PTag else if f.candidate.residualUnresolvedImpact then PartialRepair
        else PVehicle;
      if Abstains(f, gate) {
        AbstainingGate(f, gate);
        SaysMeansDecides(GatesOf(f), Indeterminate, AbstainingReason(gate));
      }
    }
  }

  // ---------------------------------------------------------------- read off the evidence

  ghost predicate OwnerMissing(cut: Cut, i: nat, gate: Gate)
    requires Aligned(cut) && i < |cut.search.candidates|
  {
    exists q | q in cut.requirementSets[i] && q.principal.RequiresOwner? :: q.gate == gate && !OwnerApproved(cut, q)
  }

  ghost predicate ConsentMissing(cut: Cut, i: nat)
    requires Aligned(cut) && i < |cut.search.candidates|
  {
    exists q | q in cut.requirementSets[i] && q.principal.RequiresWorker? :: !WorkerConsents(cut, q)
  }

  /** The evidence on which a gate needs a human. */
  ghost predicate EvidenceAsks(cut: Cut, i: nat, gate: Gate)
    requires Aligned(cut) && i < |cut.search.candidates|
  {
    var c := cut.search.candidates[i];
    match gate
    case PWindow => SomeFailure(c.constraints, true)
    case PCost =>
      && c.verdict.FeasibleCandidate? && c.id in cut.consequences && cut.consequences[c.id].cents.Some?
      && OwnerMissing(cut, i, PCost)
    case POvertime => cut.overtime[i].Applicability().CreatesOvertime?
    case PVehicle => !ConsentMissing(cut, i) && OwnerMissing(cut, i, PVehicle)
    case PTag => cut.tags[i].coverageComplete && OwnerMissing(cut, i, PTag)
    case PHorizon => exists p | p in c.placements :: p.businessDate != cut.businessDate
    case PAssign => false
    case PSearch => false
    case PartialRepair => false
  }

  /** The evidence on which P-ASSIGN blocks. */
  ghost predicate EvidenceBlocks(cut: Cut, i: nat, gate: Gate)
    requires Aligned(cut) && i < |cut.search.candidates|
  {
    && gate.PAssign?
    && (|| cut.hard[i].applicability.HardApplicable?
        || (cut.hard[i].applicability.HardNotApplicable?
            && SomeFailure(cut.search.candidates[i].constraints, false)))
  }

  /** The evidence on which a gate can tell neither way. */
  ghost predicate EvidenceAbstains(cut: Cut, i: nat, gate: Gate)
    requires Aligned(cut) && i < |cut.search.candidates|
  {
    var c := cut.search.candidates[i];
    match gate
    case PAssign =>
      || cut.hard[i].applicability.HardUnknown?
      || (cut.hard[i].applicability.HardNotApplicable? && !SomeFailure(c.constraints, false)
          && SomeUnknown(c.constraints))
    case PCost => c.verdict.FeasibleCandidate? && c.id in cut.consequences && cut.consequences[c.id].cents.None?
    case POvertime => cut.overtime[i].Applicability().UnknownOvertime?
    case PVehicle => ConsentMissing(cut, i)
    case PTag => !cut.tags[i].coverageComplete
    case PSearch =>
      cut.search.exhausted && forall other | other in cut.search.candidates :: !other.verdict.FeasibleCandidate?
    case PartialRepair => c.residualUnresolvedImpact
    case PWindow => false
    case PHorizon => false
  }

  lemma {:induction false} TraceMeans(c: Candidate, window: bool)
    requires c.Valid()
    ensures SomeFailure(c.trace, window) <==> SomeFailure(c.constraints, window)
    ensures SomeUnknown(c.trace) <==> SomeUnknown(c.constraints)
  {}

  lemma {:induction false} MissingMeansMissing(cut: Cut, i: nat, gate: Gate)
    requires ValidCut(cut) && Aligned(cut) && i < |cut.search.candidates| && FactsOf(cut, i).Ok?
    ensures ApprovalMissing(FactsOf(cut, i).value, gate) <==> OwnerMissing(cut, i, gate)
    ensures FactsOf(cut, i).value.nonaffirmative != [] <==> ConsentMissing(cut, i)
  {
    hide ValidCut, FactsOf, OwnerApproved, WorkerConsents;
    MissingMeans(cut, i);
    MissingIsRequired(cut, i);
    forall q | q in cut.requirementSets[i] && q.principal.RequiresOwner?
      ensures q in FactsOf(cut, i).value.missingOwner <==> !OwnerApproved(cut, q)
    {
      MissingFrom(cut, i, q);
    }
  }

  lemma {:induction false} CostOfFacts(f: Facts)
    requires Consistent(f)
    ensures f.cost.Some? <==> f.candidate.verdict.FeasibleCandidate?
    ensures f.cost.Some? ==> (f.cost.value.cents.None? <==> f.CostApplies().CostUnknown?)
    ensures f.candidate.Valid()
  {
    hide RequirementFits, NoRepeatedRequirement;
  }

  lemma {:induction false} FactsAreEvidence(cut: Cut, i: nat, gate: Gate)
    requires ValidCut(cut) && Aligned(cut) && i < |cut.search.candidates|
    requires FactsOf(cut, i).Ok?
    ensures var f := FactsOf(cut, i).value;
      && (Asks(f, gate) <==> EvidenceAsks(cut, i, gate))
      && (Blocks(f, gate) <==> EvidenceBlocks(cut, i, gate))
      && (Abstains(f, gate) <==> EvidenceAbstains(cut, i, gate))
  {
    FactsOfValidCut(cut, i);
    FactsRead(cut, i);
    MissingMeansMissing(cut, i, gate);
    var f := FactsOf(cut, i).value;
    CostOfFacts(f);
    TraceMeans(f.candidate, true);
    TraceMeans(f.candidate, false);
    hide ValidCut, FactsOf, Consistent, ApprovalMissing, OwnerMissing, ConsentMissing, SomeFailure, SomeUnknown,
      Facts.CostApplies;
  }

  // ---------------------------------------------------------------- every returned assessment

  /** The gates of an assessment of a valid cut: nine in order, each with the decision that the evidence calls for and
      its reason. */
  lemma {:induction false} GatesFollowEvidence(cut: Cut, i: nat, k: nat)
    requires ValidCut(cut) && Aligned(cut) && !cut.search.outcome.NoRepairRequired? && i < |cut.search.candidates|
    requires k < 9
    ensures Evaluate(cut).Ok? && i < |Evaluate(cut).value.assessments|
    ensures |Evaluate(cut).value.assessments[i].gates| == 9
    ensures var g := Evaluate(cut).value.assessments[i].gates[k];
      && g.gate == GATES[k] && SaysWhy(g)
      && DecidesBy(g, EvidenceAsks(cut, i, g.gate), EvidenceBlocks(cut, i, g.gate), EvidenceAbstains(cut, i, g.gate))
  {
    hide ValidCut, FactsOf, Evaluate, Decide, GateOf, Consistent, Asks, Blocks, Abstains, EvidenceAsks, EvidenceBlocks,
      EvidenceAbstains, SaysWhy, DecidesBy;
    EvaluationIsTotal(cut);
    FactsOfValidCut(cut, i);
    assert Assesses(cut, i, Evaluate(cut).value.assessments[i]);
    var f := FactsOf(cut, i).value;
    EachGateDecides(f, GATES[k]);
    EachGateSaysWhy(f, GATES[k]);
    FactsAreEvidence(cut, i, GATES[k]);
  }

  /** On every assessment of a valid cut the outcome and the gates tell the same story. ASK means that a gate needs a
      human, for each reason given. A gate that blocks means BLOCK, and conversely unless the boundary is unknown. An
      abstention means that a gate can tell neither way, or that something is not current, or that the policy is not
      supported. */
  lemma {:induction false} OutcomeShowsInGates(cut: Cut, i: nat)
    requires ValidCut(cut) && Aligned(cut) && !cut.search.outcome.NoRepairRequired? && i < |cut.search.candidates|
    ensures Evaluate(cut).Ok? && i < |Evaluate(cut).value.assessments|
    ensures var a := Evaluate(cut).value.assessments[i];
      && (a.outcome.Ask? ==>
            && SomeGate(a.gates, NeedsHumanAuthority)
            && forall reason | reason in a.reasons :: SomeGateSays(a.gates, NeedsHumanAuthority, reason))
      && (SomeGate(a.gates, HardBlockGate) ==> a.outcome.Block?)
      && (a.outcome.Block? && !cut.hard[i].applicability.HardUnknown? ==> SomeGate(a.gates, HardBlockGate))
      && (a.outcome.AbstainOutcome? ==>
            SomeGate(a.gates, Indeterminate) || !FoundAsExpected(cut) || cut.policy != IssuedSupported)
  {
    hide ValidCut, FactsOf, Evaluate, Decide, GatesOf, Consistent, SomeGate, SomeGateSays, FoundAsExpected,
      Cut.AllCurrent, RelationOf, OverrideOf;
    EvaluationIsTotal(cut);
    FactsOfValidCut(cut, i);
    FactsRead(cut, i);
    CurrentMeansFound(cut);
    assert Assesses(cut, i, Evaluate(cut).value.assessments[i]);
    var f := FactsOf(cut, i).value;
    BlockShowsInGates(f);
    if Decide(f).outcome.Ask? {
      AskShowsInGates(f);
    }
    if Decide(f).outcome.AbstainOutcome? {
      AbstentionShowsInGates(f);
    }
  }

  // ---------------------------------------------------------------- the axes of an assessment

  /** The cost of a feasible candidate exceeds 50.00 EUR. */
  predicate CostsTooMuch(cut: Cut, c: Candidate) {
    && c.verdict.FeasibleCandidate? && c.id in cut.consequences
    && cut.consequences[c.id].cents.Some? && cut.consequences[c.id].cents.value > 5000
  }

  /** A soft exception: no hard boundary applies, but the cost or an approval tag does. */
  ghost predicate NeedsException(cut: Cut, i: nat)
    requires Aligned(cut) && i < |cut.search.candidates|
  {
    && !cut.hard[i].applicability.HardApplicable?
    && (CostsTooMuch(cut, cut.search.candidates[i]) || (cut.tags[i].coverageComplete && cut.tags[i].scopes != []))
  }

  ghost predicate ExceptionPending(cut: Cut, i: nat)
    requires Aligned(cut) && i < |cut.search.candidates|
  {
    || OwnerMissing(cut, i, PCost) || OwnerMissing(cut, i, PTag)
    || (CostsTooMuch(cut, cut.search.candidates[i]) && cut.policy != IssuedSupported)
  }

  lemma {:induction false} CostRead(cut: Cut, i: nat)
    requires ValidCut(cut) && i < |cut.search.candidates| && FactsOf(cut, i).Ok?
    ensures var f, c := FactsOf(cut, i).value, cut.search.candidates[i];
      && (f.CostApplies().CostSoftException? <==> CostsTooMuch(cut, c))
      && (f.cost.Some? && f.cost.value.state.UnavailableUnsupportedPolicy? <==>
            CostsTooMuch(cut, c) && cut.policy != IssuedSupported)
  {
    FactsParts(cut, i);
    hide TableBy, SelectionsCover, RequirementsDerived, MissingOwner, Nonaffirmative, FindCost, ExpectedCosts, FactsOf,
      EvidenceBound, SelectionsKnown;
    var c := cut.search.candidates[i];
    assert c in cut.search.candidates;
    PositionsFoundIffUnique(cut.search.candidates);
    CostOfCandidate(cut.search.candidates, cut.consequences, cut.policy.IssuedSupported?, i);
  }

  lemma {:induction false} TagRead(cut: Cut, i: nat)
    requires ValidCut(cut) && i < |cut.search.candidates| && FactsOf(cut, i).Ok?
    ensures i < |cut.tags| && i < |cut.requirementSets|
    ensures FactsOf(cut, i).value.tag.TagApplicable? <==> cut.tags[i].coverageComplete && cut.tags[i].scopes != []
    ensures FactsOf(cut, i).value.requirements == cut.requirementSets[i]
  {
    FactsParts(cut, i);
    hide ValidCut, FactsOf, TableBy, SelectionsKnown, FindCost, MissingOwner, Nonaffirmative;
  }

  lemma {:induction false} TechnicalMeans(c: Candidate)
    requires c.Valid()
    ensures TechnicalOf(c) ==
      if forall x | x in c.constraints :: x.status == Pass then Feasible
      else if SomeUnknown(c.constraints) then UnknownFeasibility
      else Infeasible
  {
    AllPass(c);
    TraceMeans(c, true);
  }

  lemma {:induction false} AxesOfFacts(f: Facts)
    ensures RelationOf(f) == if f.hard.applicability.HardApplicable? then PolicyHardBlock
                             else if f.SoftException() then SoftException else WithinEnvelope
    ensures OverrideOf(f) ==
      if f.hard.applicability.HardApplicable? || !f.SoftException() then NoOverrideRequired
      else if ApprovalMissing(f, PCost) || ApprovalMissing(f, PTag)
              || (f.cost.Some? && f.cost.value.state.UnavailableUnsupportedPolicy?) then OverridePending
      else OverrideApproved
  {}

  /** The axes of every assessment, read off the evidence. */
  lemma {:induction false} AxesFollowEvidence(cut: Cut, i: nat)
    requires ValidCut(cut) && Aligned(cut) && !cut.search.outcome.NoRepairRequired? && i < |cut.search.candidates|
    ensures Evaluate(cut).Ok? && i < |Evaluate(cut).value.assessments|
    ensures var a, c := Evaluate(cut).value.assessments[i], cut.search.candidates[i];
      && a.candidateId == c.id && a.requirements == cut.requirementSets[i]
      && a.technical == (if forall x | x in c.constraints :: x.status == Pass then Feasible
                         else if SomeUnknown(c.constraints) then UnknownFeasibility else Infeasible)
      && a.relation == (if cut.hard[i].applicability.HardApplicable? then PolicyHardBlock
                        else if NeedsException(cut, i) then SoftException else WithinEnvelope)
      && a.override == (if !NeedsException(cut, i) then NoOverrideRequired
                        else if ExceptionPending(cut, i) then OverridePending else OverrideApproved)
      && (a.authorization == Allowed <==> a.outcome.Act?)
      && (a.disposition == Forbidden <==> cut.hard[i].applicability.HardApplicable?)
      && (a.disposition == Execute <==> a.outcome.Act? && !NeedsException(cut, i))
      && (a.disposition == ExecuteWithRecordedRisk <==> a.outcome.Act? && NeedsException(cut, i))
  {
    hide ValidCut, FactsOf, Evaluate, Decide, GatesOf, Consistent, RelationOf, OverrideOf, TechnicalOf, CostsTooMuch,
      OwnerMissing, ApprovalMissing, SomeUnknown, Facts.CostApplies;
    EvaluationIsTotal(cut);
    FactsOfValidCut(cut, i);
    FactsRead(cut, i);
    CostRead(cut, i);
    TagRead(cut, i);
    MissingMeansMissing(cut, i, PCost);
    MissingMeansMissing(cut, i, PTag);
    assert Assesses(cut, i, Evaluate(cut).value.assessments[i]);
    var f := FactsOf(cut, i).value;
    CandidateIsValid(cut, i);
    TechnicalMeans(f.candidate);
    AxesOfFacts(f);
    ActConditions(f);
  }
}
