/** What evaluation demands of a cut before it decides anything, and what it reports about the search as a whole. */
module CutChecks {
  import opened Prelude
  import opened Authority
  import opened AuthorityEvaluation
  import opened AuthorityProperties
  import Working = WorkingTime

  // ---------------------------------------------------------------- candidates and requirements

  /** Each candidate has its own id and is feasible exactly when every constraint passes. */
  ghost predicate CandidatesSound(cut: Cut) {
    var cs := cut.search.candidates;
    && (forall i, j | 0 <= i < j < |cs| :: cs[i].id != cs[j].id)
    && forall c | c in cs :: c.verdict == FeasibleCandidate <==> forall x | x in c.constraints :: x.status == Pass
  }

  /** The cost of a feasible candidate, as computed from its consequence. */
  ghost function CostOf(cut: Cut, c: Candidate): Option<CostAssessment> {
    if c.verdict.FeasibleCandidate? && c.id in cut.consequences then
      Some(AssessCost(c.id, cut.consequences[c.id], cut.policy == IssuedSupported))
    else None
  }

  /** A candidate's evidence is its own, and its requirements are exactly what it needs, without repetition. */
  ghost predicate RequirementsSound(cut: Cut, i: nat) {
    && i < |cut.search.candidates| && i < |cut.requirementSets| && i < |cut.tags| && i < |cut.hard|
    && var c, requirements := cut.search.candidates[i], cut.requirementSets[i];
       && cut.tags[i].candidateId == c.id && cut.hard[i].candidateId == c.id
       && (cut.hard[i].reason.Some? <==> cut.hard[i].applicability != HardNotApplicable)
       && (c.verdict == FeasibleCandidate ==> c.id in cut.consequences && cut.consequences[c.id].slices != [])
       && (forall j, k | 0 <= j < k < |requirements| :: requirements[j] != requirements[k])
       && forall q :: q in requirements <==>
            IsNeeded(c, CostOf(cut, c), cut.tags[i], cut.privateVehicles, q)
  }

  // ---------------------------------------------------------------- selections

  /** Some candidate of the cut needs `q`. */
  ghost predicate NeededSomewhere(cut: Cut, q: Requirement) {
    exists i | 0 <= i < |cut.requirementSets| :: q in cut.requirementSets[i]
  }

  /** One selection for each requirement of the owner and one for each of a worker, and none for anything else. */
  ghost predicate SelectionsSound(cut: Cut) {
    && (forall i, j | 0 <= i < j < |cut.ownerSelections| ::
          cut.ownerSelections[i].requirement != cut.ownerSelections[j].requirement)
    && (forall i, j | 0 <= i < j < |cut.consentSelections| ::
          cut.consentSelections[i].requirement != cut.consentSelections[j].requirement)
    && (forall s | s in cut.ownerSelections ::
          NeededSomewhere(cut, s.requirement) && s.requirement.principal == RequiresOwner)
    && (forall s | s in cut.consentSelections ::
          NeededSomewhere(cut, s.requirement) && s.requirement.principal.RequiresWorker?)
    && (forall q | NeededSomewhere(cut, q) ::
          if q.principal == RequiresOwner then exists s | s in cut.ownerSelections :: s.requirement == q
          else exists s | s in cut.consentSelections :: s.requirement == q)
  }

  /** No approval and no consent stands for two different scopes. */
  ghost predicate NothingReused(cut: Cut) {
    && (forall s, t | s in cut.ownerSelections && t in cut.ownerSelections ::
          s.approval.Some? && s.approval == t.approval ==> s.requirement.scope == t.requirement.scope)
    && (forall s, t | s in cut.consentSelections && t in cut.consentSelections ::
          s.head.Some? && t.head.Some? && s.head.value.consentId == t.head.value.consentId ==>
            s.requirement.scope == t.requirement.scope && s.requirement.principal == t.requirement.principal)
  }

  // ---------------------------------------------------------------- what is compared at decision time

  /** Some observation expects this content under this subject. */
  ghost predicate Expects(cut: Cut, subject: Subject, content: Content) {
    exists o | o in cut.observations ::
      o.subject == subject && o.expectedState == Present && o.expected == Some(content)
  }

  /** Each selection is itself what one observation expects, and no kind of evidence goes unobserved. */
  ghost predicate ObservationsSound(cut: Cut) {
    && (forall i, j | 0 <= i < j < |cut.observations| :: cut.observations[i].subject != cut.observations[j].subject)
    && (forall s | s in cut.ownerSelections :: Expects(cut, OwnerSubject(s.requirement), OwnerContent(s)))
    && (forall s | s in cut.consentSelections :: Expects(cut, ConsentSubject(s.requirement), ConsentContent(s)))
    && (forall kind: CurrentnessKind :: KindObserved(cut, kind))
    && (forall o | o in cut.observations && o.subject.NoRequiredSubjects? ::
          o.expectedState == AbsentEvidence
          && forall p | p in cut.observations && p.subject.Kind() == o.subject.absent :: p == o)
  }

  /** A complete comparison states the seconds beyond the threshold on both sides, with the same common work; any other
      states nothing. */
  ghost predicate ComparisonSound(c: Working.Comparison) {
    if c.coverageComplete then
      && c.rule.Some? && c.baselineOvertime.Some? && c.candidateOvertime.Some?
      && Working.IsBeyondThreshold(c.rule.value, c.baseline, c.baselineOvertime.value)
      && Working.IsBeyondThreshold(c.rule.value, c.candidate, c.candidateOvertime.value)
      && forall item: Working.WorkItem | item.kind in {Working.CompletedCountable, Working.UnchangedScheduled} ::
           item in c.baseline <==> item in c.candidate
    else c.baselineOvertime == None && c.candidateOvertime == None
  }

  lemma {:induction false} AcceptedCandidates(cut: Cut)
    requires ValidCut(cut)
    ensures CandidatesSound(cut)
  {
    hide Aligned, CostsComplete, RequirementsDerived, SelectionsCover, EvidenceBound;
    PositionsFoundIffUnique(cut.search.candidates);
    var cs := cut.search.candidates;
    forall i, j | 0 <= i < j < |cs| ensures cs[i].id != cs[j].id {
      assert CandidateId(cs[i]) != CandidateId(cs[j]);
    }
    forall c | c in cs ensures c.verdict == FeasibleCandidate <==> forall x | x in c.constraints :: x.status == Pass {
      AllPass(c);
    }
  }

  lemma {:induction false} RequirementsOfOne(cut: Cut, i: nat)
    requires ValidCut(cut) && i < |cut.search.candidates|
    ensures i < |cut.requirementSets| && i < |cut.tags| && i < |cut.hard|
    ensures var c := cut.search.candidates[i];
      && cut.tags[i].candidateId == c.id && cut.hard[i].candidateId == c.id && cut.hard[i].Valid()
      && (c.verdict.FeasibleCandidate? ==> c.id in cut.consequences && cut.consequences[c.id].slices != [])
      && multiset(cut.requirementSets[i]) == multiset(Derived(c, CostOf(cut, c), cut.tags[i], cut.privateVehicles))
  {
    PositionsFoundIffUnique(cut.search.candidates);
    hide SelectionsCover, EvidenceBound, AssessCost, Derived, FindCost, ExpectedCosts, PositionsFound;
    assert cut.search.candidates[i] in cut.search.candidates;
    CostOfCandidate(cut.search.candidates, cut.consequences, cut.policy.IssuedSupported?, i);
  }

  lemma {:induction false} AcceptedRequirements(cut: Cut, i: nat)
    requires ValidCut(cut) && i < |cut.search.candidates|
    ensures RequirementsSound(cut, i)
  {
    RequirementsOfOne(cut, i);
    hide ValidCut, IsNeeded, CostOf, Derived;
    var c := cut.search.candidates[i];
    RearrangedDerived(c, CostOf(cut, c), cut.tags[i], cut.privateVehicles, cut.requirementSets[i]);
  }

  lemma {:induction false} SelectionsDiffer(cut: Cut)
    requires UniqueBy(cut.ownerSelections, OwnerRequirementOf) && UniqueBy(cut.consentSelections, ConsentRequirementOf)
    ensures forall i, j | 0 <= i < j < |cut.ownerSelections| ::
      cut.ownerSelections[i].requirement != cut.ownerSelections[j].requirement
    ensures forall i, j | 0 <= i < j < |cut.consentSelections| ::
      cut.consentSelections[i].requirement != cut.consentSelections[j].requirement
  {
    var owners, consents := cut.ownerSelections, cut.consentSelections;
    assert forall i, j | 0 <= i < j < |owners| :: OwnerRequirementOf(owners[i]) != OwnerRequirementOf(owners[j]);
    assert forall i, j | 0 <= i < j < |consents| ::
      ConsentRequirementOf(consents[i]) != ConsentRequirementOf(consents[j]);
  }

  lemma {:induction false} SelectedFor(cut: Cut, q: Requirement)
    requires SelectionsCover(cut)
    ensures (exists s | s in cut.ownerSelections :: s.requirement == q) <==>
      NeededSomewhere(cut, q) && q.principal.RequiresOwner?
    ensures (exists s | s in cut.consentSelections :: s.requirement == q) <==>
      NeededSomewhere(cut, q) && q.principal.RequiresWorker?
  {
    hide HasKey, UniqueBy;
    KeyOfMember(cut.ownerSelections, OwnerRequirementOf, q);
    KeyOfMember(cut.consentSelections, ConsentRequirementOf, q);
    assert NeededSomewhere(cut, q) <==> Required(cut, q);
    assert forall s | s in cut.ownerSelections :: OwnerRequirementOf(s) == s.requirement;
    assert forall s | s in cut.consentSelections :: ConsentRequirementOf(s) == s.requirement;
  }

  lemma {:induction false} AcceptedSelections(cut: Cut)
    requires ValidCut(cut)
    ensures SelectionsSound(cut)
  {
    SelectionsOf(cut);
    SelectionsDiffer(cut);
    hide ValidCut, NeededSomewhere, UniqueBy, SelectionsCover;
    forall s | s in cut.ownerSelections
      ensures NeededSomewhere(cut, s.requirement) && s.requirement.principal == RequiresOwner
    {
      SelectedFor(cut, s.requirement);
    }
    forall s | s in cut.consentSelections
      ensures NeededSomewhere(cut, s.requirement) && s.requirement.principal.RequiresWorker?
    {
      SelectedFor(cut, s.requirement);
    }
    forall q | NeededSomewhere(cut, q)
      ensures if q.principal == RequiresOwner then exists s | s in cut.ownerSelections :: s.requirement == q
        else exists s | s in cut.consentSelections :: s.requirement == q
    {
      SelectedFor(cut, q);
    }
  }

  lemma {:induction false} BoundEvidence(cut: Cut)
    requires ValidCut(cut)
    ensures OvertimeValid(cut) && NoCrossScopeReuse(cut) && CurrentnessDerived(cut)
    ensures UniqueBy(cut.ownerSelections, OwnerRequirementOf) && UniqueBy(cut.consentSelections, ConsentRequirementOf)
  {
    hide Aligned, CostsComplete, RequirementsDerived, OvertimeValid, NoCrossScopeReuse, CurrentnessDerived;
  }

  lemma {:induction false} AcceptedReuse(cut: Cut)
    requires ValidCut(cut)
    ensures NothingReused(cut)
  {
    BoundEvidence(cut);
    hide ValidCut, CurrentnessDerived, OvertimeValid;
  }

  lemma {:induction false} OwnerObserved(cut: Cut, s: OwnerSelection)
    requires UniqueBy(cut.ownerSelections, OwnerRequirementOf) && CurrentnessDerived(cut) && s in cut.ownerSelections
    ensures Expects(cut, OwnerSubject(s.requirement), OwnerContent(s))
  {
    hide UniqueBy, KindObserved;
    assert HasKey(cut.observations, SubjectOf, OwnerSubject(s.requirement));
    var k :| 0 <= k < |cut.observations| && SubjectOf(cut.observations[k]) == OwnerSubject(s.requirement);
    assert ExpectationDerived(cut, cut.observations[k]);
    var t :| t in cut.ownerSelections && t.requirement == s.requirement
      && cut.observations[k].expected == Some(OwnerContent(t));
    SameItem(cut.ownerSelections, s, t, OwnerRequirementOf);
  }

  lemma {:induction false} ConsentObserved(cut: Cut, s: ConsentSelection)
    requires UniqueBy(cut.consentSelections, ConsentRequirementOf) && CurrentnessDerived(cut)
    requires s in cut.consentSelections
    ensures Expects(cut, ConsentSubject(s.requirement), ConsentContent(s))
  {
    hide UniqueBy, KindObserved;
    assert HasKey(cut.observations, SubjectOf, ConsentSubject(s.requirement));
    var k :| 0 <= k < |cut.observations| && SubjectOf(cut.observations[k]) == ConsentSubject(s.requirement);
    assert ExpectationDerived(cut, cut.observations[k]);
    var t :| t in cut.consentSelections && t.requirement == s.requirement
      && cut.observations[k].expected == Some(ConsentContent(t));
    SameItem(cut.consentSelections, s, t, ConsentRequirementOf);
  }

  lemma {:induction false} SubjectsDiffer(cut: Cut)
    requires CurrentnessDerived(cut)
    ensures forall i, j | 0 <= i < j < |cut.observations| ::
      cut.observations[i].subject != cut.observations[j].subject
    ensures forall kind: CurrentnessKind :: KindObserved(cut, kind)
  {
    hide ExpectationDerived, KindObserved, HasKey;
    assert forall i, j | 0 <= i < j < |cut.observations| ::
      SubjectOf(cut.observations[i]) != SubjectOf(cut.observations[j]);
  }

  lemma {:induction false} AbsentAlone(cut: Cut, o: Observation)
    requires CurrentnessDerived(cut) && o in cut.observations && o.subject.NoRequiredSubjects?
    ensures o.expectedState == AbsentEvidence
    ensures forall p | p in cut.observations && p.subject.Kind() == o.subject.absent :: p == o
  {
    hide UniqueBy, KindObserved, HasKey;
    assert ExpectationDerived(cut, o);
  }

  lemma {:induction false} AcceptedObservations(cut: Cut)
    requires ValidCut(cut)
    ensures ObservationsSound(cut)
  {
    BoundEvidence(cut);
    SubjectsDiffer(cut);
    hide ValidCut, CurrentnessDerived, UniqueBy, KindObserved, Expects;
    forall s | s in cut.ownerSelections ensures Expects(cut, OwnerSubject(s.requirement), OwnerContent(s)) {
      OwnerObserved(cut, s);
    }
    forall s | s in cut.consentSelections ensures Expects(cut, ConsentSubject(s.requirement), ConsentContent(s)) {
      ConsentObserved(cut, s);
    }
    forall o | o in cut.observations && o.subject.NoRequiredSubjects?
      ensures o.expectedState == AbsentEvidence
      ensures forall p | p in cut.observations && p.subject.Kind() == o.subject.absent :: p == o
    {
      AbsentAlone(cut, o);
    }
  }

  lemma {:induction false} SoundComparison(c: Working.Comparison)
    requires c.Valid()
    ensures ComparisonSound(c)
  {
    hide Working.IsBeyondThreshold, Working.RuleOvertime, Working.CountableUnder;
    if c.coverageComplete {
      Working.OvertimeIsBeyondThreshold(c.rule.value, c.baseline);
      Working.OvertimeIsBeyondThreshold(c.rule.value, c.candidate);
    }
  }

  lemma {:induction false} AcceptedComparisons(cut: Cut)
    requires ValidCut(cut)
    ensures forall a, c | a in cut.overtime && c in a.comparisons :: ComparisonSound(c)
  {
    BoundEvidence(cut);
    hide ValidCut, CurrentnessDerived, NoCrossScopeReuse, ComparisonSound, Working.Comparison.Valid;
    forall a, c | a in cut.overtime && c in a.comparisons ensures ComparisonSound(c) {
      SoundComparison(c);
    }
  }

  /** Whatever is evaluated is sound evidence: the requirements are what the candidates need, each has one selection, no
      approval or consent is used for two scopes, each selection is compared with what is found, and the overtime is
      that of the work listed. */
  lemma {:induction false} OnlySoundCutsAreEvaluated(cut: Cut)
    requires Evaluate(cut).Ok?
    ensures CandidatesSound(cut) && SelectionsSound(cut) && NothingReused(cut) && ObservationsSound(cut)
    ensures forall i | 0 <= i < |cut.search.candidates| :: RequirementsSound(cut, i)
    ensures forall a, c | a in cut.overtime && c in a.comparisons :: ComparisonSound(c)
  {
    EvaluationIsTotal(cut);
    hide ValidCut, Evaluate, CandidatesSound, RequirementsSound, SelectionsSound, NothingReused, ObservationsSound,
      ComparisonSound;
    AcceptedCandidates(cut);
    forall i | 0 <= i < |cut.search.candidates| ensures RequirementsSound(cut, i) {
      AcceptedRequirements(cut, i);
    }
    AcceptedSelections(cut);
    AcceptedReuse(cut);
    AcceptedObservations(cut);
    AcceptedComparisons(cut);
  }

  // ---------------------------------------------------------------- the search as a whole

  ghost predicate SomethingFeasible(cut: Cut) {
    exists c | c in cut.search.candidates :: forall x | x in c.constraints :: x.status == Pass
  }

  lemma {:induction false} FeasibleIdsMean(cut: Cut)
    requires ValidCut(cut)
    ensures cut.search.feasibleIds != [] <==> SomethingFeasible(cut)
  {
    AcceptedCandidates(cut);
    hide Aligned, CostsComplete, RequirementsDerived, SelectionsCover, EvidenceBound, PositionsFound;
  }

  /** The result repeats the outcome of the search, assesses every candidate unless no repair is needed, and abstains
      for the search exactly when nothing is feasible and it was exhausted or could not be carried out. */
  lemma {:induction false} ResultFollowsSearch(cut: Cut)
    requires Evaluate(cut).Ok?
    ensures var result := Evaluate(cut).value;
      var stopped := cut.search.outcome in {InsufficientCriticalEvidence, CrewRepairUnsupported};
      && result.outcome == cut.search.outcome && result.exhausted == cut.search.exhausted
      && (result.status == NoActionRequired <==> cut.search.outcome == NoRepairRequired)
      && |result.assessments| == (if cut.search.outcome == NoRepairRequired then 0 else |cut.search.candidates|)
      && (result.projection == ProjectionAbstain <==>
            && cut.search.outcome != NoRepairRequired && !SomethingFeasible(cut)
            && (cut.search.exhausted || stopped))
      && result.reasons ==
           (if result.projection == ProjectionNotApplicable then []
            else if cut.search.exhausted then [EnvelopeExhausted] else [SearchStopped(cut.search.outcome)])
  {
    EvaluationIsTotal(cut);
    hide ValidCut, SomethingFeasible, AssessFirst;
    FeasibleIdsMean(cut);
  }
}
