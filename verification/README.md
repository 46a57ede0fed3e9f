# WERKcrew decision kernel: a verified model

A Dafny model of the deterministic part of WERKcrew: the code that decides whether a repair of a day plan may be
executed, plans a day, records the owner's answer in the durable calendar, records consents and approvals, and checks the
service catalogue. Each module follows one component. Code that changes state is modelled by classes and loops and proved
against declarative specifications; records and decision tables are datatypes and functions. The main results hold for all
inputs, all runs or all reachable states.

| file | component |
|---|---|
| `WorkingTime.dfy` | overtime evidence: union of countable seconds, split at local midnights, baseline against candidate |
| `PromiseSemantics.dfy` | the frozen promise semantics |
| `Authority.dfy`, `AuthorityEvaluation.dfy`, `AuthorityProperties.dfy`, `GateDecisions.dfy`, `CutChecks.dfy` | operational authority: requirements, nine gates, one outcome, and the checks of the cut and result constructors |
| `DispatchModels.dfy`, `Planner.dfy`, `DailyPlan.dfy`, `PlanProperties.dfy`, `InputOrder.dfy`, `PlanChoice.dfy`, `KeptOrder.dfy` | the daily dispatch planner |
| `ReplanStore.dfy`, `ReplanRuns.dfy` | the durable replan protocol and its runs |
| `PlanApplied.dfy`, `RivalPlans.dfy` | what approved planner proposals leave in the calendar |
| `EvidenceStore.dfy`, `EvidenceRuns.dfy` | the recorder of owner approvals and worker consents, and its runs |
| `PredecessorCycles.dfy`, `Chunking.dfy` | catalogue validation and work chunking |
| `Prelude.dfy` | options, results, stable sorting, dictionaries built from lists, permutations |

Conventions. Instants are whole UTC seconds and dates are integers. A fingerprint is modelled by the content it is computed
from, so two identities are equal exactly when the contents are. An exception is an `Err` value, and an operation inside a
transaction works on a copy of the tables that is committed as its last step, so every `Err` before the commit is a rollback.
Hours, quantities and norms are reals, money is whole cents.

## What is proved

- **Operational authority.** Evaluation succeeds exactly on valid evidence cuts: no lookup, reason or projection check
  can fail. The outcome chain and the nine gates, which are computed separately, agree on every candidate: ACT exactly
  when all gates pass, everything is current and the policy is issued and supported. ACT is also characterised directly
  on the evidence, without gates or requirements, and so are all four decisions of each gate; an ASK or a BLOCK always
  shows in the gates, except that a failed constraint blocks while P-ASSIGN abstains when the boundary is unknown. Every
  selection of an approval is itself compared with the evidence at decision time. As long as more approvals leave it
  unchanged whether everything is current, they never change BLOCK, ABSTAIN or ACT and turn ASK only into ASK or ACT;
  when they do change it, a candidate that no constraint or boundary hinders abstains for lack of currentness on the
  side that is not current, and every other candidate keeps its verdict. Overtime authority is never asked for work
  within hours that were already worked. Every assessment refines the frozen promise semantics.
- **Working time.** Overtime is exactly what the distinct seconds of work exceed the threshold by; splitting at local
  midnights conserves every second; moving work to hours already worked is never overtime.
- **Planner.** An order is accepted exactly when its pointwise earliest schedule is possible. A refusal for a route,
  material, working hours or a deadline means that no schedule in that order exists. A refusal for availability need
  not: a concrete day shows it. Refusals are final for all orders, materials and routes exactly when no window of the
  worker, and nothing that a window of the worker and one of a vehicle have in common, opens after the start of the day
  without the second before being covered too; then no possible day is missed. In particular the planner is complete
  when worker and vehicles are there from the start of the day. The plan is the minimum over all schedules of all
  orders, by changed commitments, then idle time, travel and identifiers; it does not depend on input order, and is
  NO_CHANGE exactly when some order reproduces the calendar. NO_FEASIBLE_REORDER means that the least schedule is that
  of the confirmed order and changes some time; another order may well be feasible.
- **Replan protocol.** Over every interleaving of committed transactions the tables stay consistent and only advance; no
  assignment revision is consumed by two approvals; replay finds the same decision; a pending gate with a bound interrupt,
  whose proposal is current and has a placement for every assignment it moves, is decided by claiming and committing either
  answer. Of two current claims exactly those that share no row survive each other's approval.
- **Plans in the calendar.** Approval moves exactly the affected assignments, to where the plan places them. It does not
  always leave the planned day, nor keep the worker from being in two places, because only the revisions of the affected
  rows are compared. The calendar equals the plan exactly when the other candidates still stand. The worker is never in two
  places exactly when the rows that are not moved are apart from each other and from where the others are moved. Two plans
  for the same three visits, each moving another one, show that this fails: both are proposed by the planner, both can be
  approved, and two visits end up at the same time. A row in another job can be overlapped likewise.
- **Evidence recorder.** Every reachable store has unbroken consent chains, one approval for each root and scope, and
  captures in one-to-one correspondence with records; what a retry returns states exactly what was submitted, and a
  submission that differs is refused; a superseded consent never resolves again.
- **Catalogue.** A cycle is reported exactly when the predecessors that the profiles declare contain one, and every
  cycle has an edge inside a reported one; chunking conserves quantity and hours and is as short as any chunking can be.

Where the code differs from what its texts suggest: the explanation of NO_FEASIBLE_REORDER says that no feasible change
of order exists, which a concrete day refutes. `claim_replan_response` marks a gate INVALIDATED and then raises, and the
transaction undoes the mark (the model keeps the table unchanged, and shows that this branch is not reached in any run
of the modelled operations). The branch of `record_owner_approval` that returns an already stored equal approval is not
reached in a consistent store, because its capture would have been found as a replay.

## Model

| member | source | states |
|---|---|---|
| WorkingTime.CalculateRuleOvertime | src/werkcrew_ai/authority/operational_authority.py:1230-1278 | accepted exactly when the period is the rule's and every item is the worker's, inside the period and COUNTABLE; the result is then zero up to the threshold of distinct seconds of work, and beyond it that number less the threshold |
| WorkingTime.Merge | src/werkcrew_ai/authority/operational_authority.py:1264-1269 | the merged list is ascending, non-overlapping and covers exactly the seconds of the sorted input |
| WorkingTime.LengthCountsSeconds | src/werkcrew_ai/authority/operational_authority.py:1270-1272 | adding the lengths of non-overlapping intervals counts the seconds they cover |
| WorkingTime.OvertimeIsMonotone | src/werkcrew_ai/authority/operational_authority.py:1274-1277 | overtime grows with the covered seconds |
| WorkingTime.EachSecondCounts | src/werkcrew_ai/authority/operational_authority.py:1270-1277 | one more second of work adds one second of overtime from the threshold on, and none below it |
| WorkingTime.OvertimeIgnoresOrderAndRepeats | src/werkcrew_ai/authority/operational_authority.py:1263-1278 | equal sets of items give equal overtime |
| WorkingTime.OvertimeIgnoresSplitting | src/werkcrew_ai/authority/operational_authority.py:1263-1278 | recording one stretch as two adjoining items changes nothing |
| WorkingTime.LocalCalendarPeriods | src/werkcrew_ai/authority/operational_authority.py:1192-1227 | refused exactly when some interval is empty; otherwise the sorted, disjoint local days touched by the intervals, all of them and no others |
| WorkingTime.AddDays | src/werkcrew_ai/authority/operational_authority.py:1207-1226 | the date loop adds exactly the local days that one interval touches |
| WorkingTime.PiecesAreIntersections | src/werkcrew_ai/authority/operational_authority.py:2178-2204 | clipping a placement to ascending periods gives non-empty, disjoint pieces that cover what it has in common with them |
| WorkingTime.MidnightSplitConserves | src/werkcrew_ai/authority/operational_authority.py:2178-2218 | the pieces of a placement at local midnights cover exactly its seconds and their lengths add up to its length |
| WorkingTime.NewOvertimeMeansMoreSeconds | src/werkcrew_ai/authority/operational_authority.py:1174-1179 | a complete comparison creates overtime exactly when the candidate works more seconds than the threshold and than the baseline |
| WorkingTime.OvertimeIsDecidedPerWorkerDay | src/werkcrew_ai/authority/operational_authority.py:1832-1843 | CREATES_OVERTIME exactly when coverage is complete and some single worker-day exceeds threshold and baseline: nothing is netted; unknown exactly when a relevant day lacks a complete comparison of its own |
| WorkingTime.MoveWithinBaselineHoursIsNotOvertime | src/werkcrew_ai/authority/operational_authority.py:1702-1765 | with shared common work, a candidate whose proposed intervals lie within the baseline's covered seconds never creates overtime; only a complete assessment needs to hold all changed work |
| PromiseSemantics.AssessPromise | src/werkcrew_ai/domain/decision_semantics.py:177-310 | FORCED exactly for an approved, feasible soft exception with every gate met; allowed exactly there or within the envelope; FORBIDDEN exactly on a hard policy, safety or permission block; each disposition tied to its state |
| PromiseSemantics.PromiseStates | src/werkcrew_ai/domain/decision_semantics.py:203-310 | exactly when a promise is SAFE, INFEASIBLE, CONDITIONAL or left open |
| PromiseSemantics.ForbiddenReasons | src/werkcrew_ai/domain/decision_semantics.py:203-217 | a forbidden promise names every broken hard rule and nothing else |
| PromiseSemantics.DecidingReason | src/werkcrew_ai/domain/decision_semantics.py:219-253 | which single reason is given when data, safety, permission or consent decides |
| PromiseSemantics.FeasibilityReason | src/werkcrew_ai/domain/decision_semantics.py:255-310 | which reason is given when feasibility, policy or the owner decides |
| Authority.AssessCost | src/werkcrew_ai/authority/operational_authority.py:3247-3301 | unknown exactly without an amount, a soft exception exactly above 5000 cents; then one subject for each affected slice and nothing else under a supported policy, and unavailable without one |
| Authority.DeriveAuthorityRequirements | src/werkcrew_ai/authority/operational_authority.py:3439-3533 | refused exactly for an unknown vehicle or, failing that, a wrong private-vehicle impact; otherwise exactly the requirements the candidate needs, each once, in canonical order |
| Authority.AppendVehicleRequirements | src/werkcrew_ai/authority/operational_authority.py:3401-3436 | one owner and one worker requirement for every private vehicle placement; refused exactly on an unknown vehicle or a wrong impact |
| Authority.VehicleRequirementsMean | src/werkcrew_ai/authority/operational_authority.py:3497-3525 | a vehicle requirement exists exactly for the owner and the worker of a placement with a known private vehicle, scoped to its vehicle, day, job and worker |
| Authority.DerivedIsNeeded | src/werkcrew_ai/authority/operational_authority.py:3526-3533 | the derived requirements are exactly the owner's for each cost subject and each tag, and the owner's and the worker's for each private vehicle |
| AuthorityEvaluation.PositionsFoundIffUnique | src/werkcrew_ai/authority/operational_authority.py:5105-5117 | demanding that each candidate finds the assessment at its own position under its id means that no two candidates share an id |
| CutChecks.OnlySoundCutsAreEvaluated | src/werkcrew_ai/authority/operational_authority.py:4620-5260 | only cuts are evaluated whose candidates have own ids, whose requirements are what each candidate needs with one selection each, which use no approval or consent for two scopes, and which compare every selection |
| CutChecks.ResultFollowsSearch | src/werkcrew_ai/authority/operational_authority.py:5574-5657 | the result repeats the search outcome, assesses every candidate, and abstains for the search exactly when nothing is feasible and it was exhausted or could not be carried out |
| AuthorityProperties.FactsOfValidCut | src/werkcrew_ai/authority/operational_authority.py:5702-5749 | on a valid cut every selection lookup succeeds and requirements, costs and verdicts fit together |
| AuthorityProperties.FeasibleMeansEmptyTrace | src/werkcrew_ai/planning/bounded_feasibility.py:370-376 | a candidate is feasible exactly when its trace has no window failure, no other failure and no unknown |
| AuthorityProperties.ActConditions | src/werkcrew_ai/authority/operational_authority.py:5934-6007 | ACT exactly when nothing stands in the way; FORBIDDEN exactly under an applicable hard boundary among the outcomes other than ACT |
| AuthorityProperties.GateConditions | src/werkcrew_ai/authority/operational_authority.py:5751-5897 | the condition under which each of the nine gates passes |
| GateDecisions.EachGateDecides | src/werkcrew_ai/authority/operational_authority.py:5751-5897 | exactly when each of the nine gates needs a human, blocks, or can tell neither way; only P-ASSIGN ever blocks |
| GateDecisions.EachGateSaysWhy | src/werkcrew_ai/authority/operational_authority.py:5751-5897 | a gate that passes is silent, and any other gives the one reason of its gate and decision |
| GateDecisions.AssignSaysWhy | src/werkcrew_ai/authority/operational_authority.py:5834-5859 | P-ASSIGN states the boundary, or exactly the failures that block or the unknowns that make it abstain |
| GateDecisions.AskShowsInGates | src/werkcrew_ai/authority/operational_authority.py:5934-6007 | for each reason of an ASK some gate needs a human for that reason |
| GateDecisions.BlockShowsInGates | src/werkcrew_ai/authority/operational_authority.py:5934-6007 | a gate that blocks means BLOCK, conversely unless the boundary is unknown, and its reasons are among those of the outcome |
| GateDecisions.AbstentionShowsInGates | src/werkcrew_ai/authority/operational_authority.py:5934-6007 | each reason of an abstention is that of a gate that abstains, or stale evidence, an unsupported policy, or an unknown constraint beside an unknown boundary |
| GateDecisions.GatesFollowEvidence | src/werkcrew_ai/authority/operational_authority.py:5751-5908 | on every returned assessment each gate takes the decision that constraints, boundary, costs, approvals, consents, overtime, tags, days and search call for, with its reason |
| GateDecisions.OutcomeShowsInGates | src/werkcrew_ai/authority/operational_authority.py:6026-6078 | on every returned assessment ASK, BLOCK and ABSTAIN show in the gates or in currentness and policy |
| GateDecisions.AxesFollowEvidence | src/werkcrew_ai/authority/operational_authority.py:5909-6022 | feasibility, policy relation, override, authorization and disposition of every returned assessment, read off the evidence |
| AuthorityProperties.OutcomesClassified | src/werkcrew_ai/authority/operational_authority.py:5934-6007 | BLOCK exactly for a hard boundary or a failed constraint, ASK exactly for a broken customer window or when a human decision is all that is missing, ACT exactly when nobody is needed |
| AuthorityProperties.ActIffEveryGatePasses | src/werkcrew_ai/authority/operational_authority.py:5697-6023 | the outcome is ACT exactly when all nine gates pass, every observation matches and the policy is issued and supported |
| AuthorityProperties.OutcomeAgreesWithGates | src/werkcrew_ai/authority/operational_authority.py:6026-6078 | the same for every assessment that evaluation returns on a valid cut |
| AuthorityProperties.GatesAreBound | src/werkcrew_ai/authority/operational_authority.py:5488-5519 | nine gates in order, each with reasons and with exactly the requirements of its code |
| AuthorityProperties.AssessmentIsConsistent | src/werkcrew_ai/authority/operational_authority.py:5520-5560 | every projection check of the assessment constructor holds |
| AuthorityProperties.FeasibilityAgrees | src/werkcrew_ai/authority/operational_authority.py:5633-5657 | some assessment is feasible exactly when the search result lists a feasible candidate |
| AuthorityProperties.EvaluationIsTotal | src/werkcrew_ai/authority/operational_authority.py:6026-6078 | evaluation succeeds exactly on valid cuts, and each candidate gets the assessment assembled from its own facts |
| AuthorityProperties.ActIffEvidenceAllows | src/werkcrew_ai/authority/operational_authority.py:5697-6023 | ACT exactly when every constraint passes, no hard boundary, supported policy, current evidence, no overtime, the business day, nothing unresolved, and cost, tags and private vehicles are approved with the worker's consent |
| AuthorityProperties.ApprovalChangesOnlyAsk | src/werkcrew_ai/authority/operational_authority.py:5933-6007 | with fewer missing approvals only ASK can change, and only to ASK or ACT |
| AuthorityProperties.CurrentnessDecides | src/werkcrew_ai/authority/operational_authority.py:5933-5958 | when approvals change whether everything is current, hard boundaries and constraints still decide first, and otherwise the side that is not current abstains for that reason |
| AuthorityProperties.OwnerApprovalDoesNotInterfere | src/werkcrew_ai/authority/operational_authority.py:5717-6007 | with the expectations of the currentness vector bound to the selections, more owner approvals leave every BLOCK, ABSTAIN and ACT with its disposition and reasons and turn ASK only into ASK or ACT as long as currentness is unaffected; otherwise an unhindered candidate abstains on the side that is not current |
| AuthorityProperties.ApprovalCanBeAllThatIsMissing | src/werkcrew_ai/authority/operational_authority.py:5933-6007 | valid cuts exist for every private-vehicle placement: ASK without the approval, ACT with it selected and stored, ABSTAIN when it is selected but not stored or stored but not selected |
| AuthorityProperties.WithinBaselineHoursNobodyIsAsked | src/werkcrew_ai/authority/operational_authority.py:5995-5998 | on a valid cut a candidate within the baseline's covered seconds is asked for overtime authority neither by its gate nor by its outcome |
| AuthorityProperties.RefinesPromise | src/werkcrew_ai/domain/decision_semantics.py:177-310 | with clear side gates ACT is ALLOWED with the same disposition, FORBIDDEN agrees, and ACT is exactly ALLOWED plus the operational conditions |
| AuthorityProperties.EvaluationRefinesPromise | src/werkcrew_ai/authority/operational_authority.py:6007-6023 | every returned assessment refines the promise on its own axes |
| Planner.EvaluateOrder | src/werkcrew_ai/dispatch/planner.py:347-437 | the loop computes the greedy run of the order, or its first failure |
| Planner.ChangedCommitments | src/werkcrew_ai/dispatch/planner.py:420-426 | the double loop counts the placements whose times differ from the assignment they place |
| Planner.ScheduleIsLawful | src/werkcrew_ai/dispatch/planner.py:347-417 | every placement keeps its assignment, lies within hours, deadline, availability and material, leaves time for the drive, and starts at the first instant these allow after the drive |
| Planner.FailureIsFirstViolation | src/werkcrew_ai/dispatch/planner.py:366-405 | a refusal names the first rule that the first unplaceable assignment breaks at its earliest start |
| Planner.RunIsEarliest | src/werkcrew_ai/dispatch/planner.py:367-418 | a returned schedule meets every bound, the workday end, deadlines and availability, and is pointwise earliest among all schedules that meet the start, travel and material bounds |
| Planner.AcceptedIffEarliestIsPossible | src/werkcrew_ai/dispatch/planner.py:367-418 | an order is accepted exactly when its pointwise earliest schedule is possible, and that schedule is the one returned |
| Planner.HardFailureIsFinal | src/werkcrew_ai/dispatch/planner.py:369-397 | a failure other than availability means that no schedule in that order exists |
| Planner.AvailabilityFailureIsNotFinal | src/werkcrew_ai/dispatch/planner.py:398-405 | some order is refused for availability although a later start would be possible |
| Planner.RefusalIsFinalIffAvailableEarlier | src/werkcrew_ai/dispatch/planner.py:347-437 | for given hours, refused orders have no schedule, whatever the order, materials and routes, exactly when every late opening of a worker's window, alone or shared with a vehicle's, is covered one second earlier as well |
| Planner.AcceptedIffPossible | src/werkcrew_ai/dispatch/planner.py:347-437 | when every window ends no later than one that is already open at the start of the day, an order is accepted exactly when some schedule of it is possible |
| Planner.RunPlacesInOrder | src/werkcrew_ai/dispatch/planner.py:406-418 | every assignment is placed, in order, with its own worker, vehicle and duration |
| Planner.TimeIsConserved | src/werkcrew_ai/dispatch/planner.py:358-436 | last end minus start cursor is work plus travel plus idle time, travel and routes are those of the consecutive pairs, and the schedule is conditional exactly when some material is awaited |
| DailyPlan.Refuse | src/werkcrew_ai/dispatch/planner.py:80-156 | the first ground for refusal, in the order of the guards; routes are ambiguous exactly when two valid snapshots share a pair |
| DailyPlan.CompareOrders | src/werkcrew_ai/dispatch/planner.py:158-176 | collects the candidates and the failure codes of all orders |
| DailyPlan.EvaluatedAreSchedules | src/werkcrew_ai/dispatch/planner.py:164-176 | the evaluated candidates are exactly the schedules of the rearrangements of the unfinished assignments |
| DailyPlan.BuildProposal | src/werkcrew_ai/dispatch/planner.py:229-345 | the proposal with its affected assignments, sorted jobs and workflows, expected revisions and figures; a missing workflow revision is reported as the least missing one |
| DailyPlan.Plan | src/werkcrew_ai/dispatch/planner.py:56-345 | invalid workdays are errors, refusals come in order, no feasible order gives all failure codes, and otherwise the first least candidate (PlanChoice.ChosenIsBest) decides the answer |
| PlanChoice.ChosenIsBest | src/werkcrew_ai/dispatch/planner.py:187-198 | against every schedule of every order: no more changes; among equal changes no more idle time; then no more travel; then the smaller job and task identifier at the first difference, compared by characters |
| PlanChoice.ProposalIsBest | src/werkcrew_ai/dispatch/planner.py:187-345 | the same for the figures and the schedule of every created proposal |
| PlanChoice.RefusalNamesFirstGround | src/werkcrew_ai/dispatch/planner.py:86-157 | nothing is refused without a ground in the request, and the ground named is the first in order |
| PlanChoice.CandidatesAreOpen | src/werkcrew_ai/dispatch/planner.py:80-85 | the candidates are the confirmed and running assignments of the planning day, each as often as listed |
| PlanChoice.DayMaterials | src/werkcrew_ai/dispatch/planner.py:139-141 | the material of a task is the last one listed for it |
| PlanChoice.DayRoutes | src/werkcrew_ai/dispatch/planner.py:143-157 | the route between two jobs is the one valid route listed for them |
| PlanChoice.ConfirmedInOrder | src/werkcrew_ai/dispatch/planner.py:160-163 | the confirmed order goes by start, then by identifier |
| PlanChoice.ProposalLists | src/werkcrew_ai/dispatch/planner.py:257-283 | a proposal lists exactly the jobs, workflows, revisions and material of what it moves, in order |
| PlanChoice.ProposalFigures | src/werkcrew_ai/dispatch/planner.py:327-335 | the figures before are those of the confirmed order or -1, those after are the plan's |
| PlanChoice.FingerprintCoversContent | src/werkcrew_ai/dispatch/planner.py:284-304 | proposals with equal fingerprint content agree in all they would do |
| Prelude.PermutationsAreRearrangements | src/werkcrew_ai/dispatch/planner.py:164 | the enumeration of orders lists exactly the rearrangements of the candidates |
| PlanProperties.ChosenIsMinimum | src/werkcrew_ai/dispatch/planner.py:187-198 | the chosen candidate is a schedule and least in the choice key over all schedules of all orders |
| PlanProperties.ScheduleMoves | src/werkcrew_ai/dispatch/planner.py:249-256 | with unique ids the affected list holds exactly the assignments with new times, as many as the changed count |
| PlanProperties.NoChangeIffCalendarStands | src/werkcrew_ai/dispatch/planner.py:200-227 | NO_CHANGE exactly when nothing refuses the request and some order reproduces every confirmed time |
| PlanProperties.ProposalIsSound | src/werkcrew_ai/dispatch/planner.py:249-339 | a proposal changes the order, its affected set is non-empty and exactly the moved assignments, and each expected calendar revision is that of an affected assignment with a placement |
| PlanProperties.NoPossibleDayIsMissed | src/werkcrew_ai/dispatch/planner.py:158-185 | for hours that make refusals final, the planner reports that every order fails exactly when no order of the candidates has a possible schedule |
| KeptOrder.NoReorderIffConfirmedOrderIsLeast | src/werkcrew_ai/dispatch/planner.py:200-227 | NO_FEASIBLE_REORDER exactly when nothing refuses the request and the least schedule is that of the confirmed order and changes some time |
| KeptOrder.AnotherOrderCanBeFeasible | src/werkcrew_ai/dispatch/planner.py:200-227 | two visits in one job on a day that begins late: the answer is NO_FEASIBLE_REORDER although the other order has a schedule |
| InputOrder.BaselineIsConfirmedOrder | src/werkcrew_ai/dispatch/planner.py:229-236 | the before figures are those of the confirmed order when it is feasible, and absent otherwise |
| InputOrder.ChoiceIsUnique | src/werkcrew_ai/dispatch/planner.py:187-198 | with unique job and task pairs no two schedules tie |
| InputOrder.InputOrderIsIrrelevant | src/werkcrew_ai/dispatch/planner.py:139-197 | listing assignments, jobs, materials, routes or vehicles in another order gives the same answer |
| ReplanStore.Repository.constructor | migrations/0001_m7_persistent_dispatch.sql:20-161 | the empty tables satisfy the invariant |
| ReplanStore.Repository.CreateJobWorkflow | src/werkcrew_ai/persistence.py:282-338 | inserts the workflow at revision 0 with its session binding, or refuses a repeated job, workflow or session |
| ReplanStore.Repository.UpdateWorkflowCas | src/werkcrew_ai/persistence.py:400-428 | advances the workflow exactly when the expected revision is current, and otherwise changes nothing |
| ReplanStore.Repository.AddCalendarAssignment | src/werkcrew_ai/persistence.py:514-549 | inserts exactly when workflow and job match, neither the id nor the job task is taken, and the worker and the vehicle are known |
| ReplanStore.Repository.SaveProposal | src/werkcrew_ai/persistence.py:771-823 | a known fingerprint returns the stored proposal; otherwise the proposal is stored exactly when each affected job maps to one affected workflow and no constraint is violated |
| ReplanStore.Repository.CheckMapping | src/werkcrew_ai/persistence.py:779-793 | true exactly when every affected job has its affected tasks in exactly one affected workflow |
| ReplanStore.MappingMeans | src/werkcrew_ai/persistence.py:779-793 | the mapping holds exactly when the affected rows of each affected job, and there are some, lie in one affected workflow |
| ReplanStore.CurrentMeans | src/werkcrew_ai/persistence.py:1158-1174 | a proposal is current exactly when every listed row stands at the revision last listed for it |
| ReplanStore.KeysAsTheyAppear | src/werkcrew_ai/persistence.py:1158-1174 | the revisions are checked in the order in which their rows are first listed |
| ReplanStore.Repository.ReadForGate | src/werkcrew_ai/persistence.py:876-881 | succeeds exactly for a pending proposal whose session binding matches |
| ReplanStore.Repository.InsertGate | src/werkcrew_ai/persistence.py:882-910 | returns the existing gate of the proposal, or inserts a pending one from the proposal read earlier |
| ReplanStore.Repository.BindGateInterrupt | src/werkcrew_ai/persistence.py:984-997 | binds exactly a pending gate that has no other interrupt |
| ReplanStore.Repository.ClaimReplanResponse | src/werkcrew_ai/persistence.py:1020-1071 | claims a pending gate with a consistent pending proposal, answers a decided gate again for the same response, and changes nothing otherwise |
| ReplanStore.Repository.ApplyReplanResponse | src/werkcrew_ai/persistence.py:1104-1297 | replay returns the recorded decision; a stale claim retires proposal and gate only; a current claim commits the whole decision; everything else changes nothing |
| ReplanStore.Repository.FindStale | src/werkcrew_ai/persistence.py:1158-1174 | finds nothing exactly when every expected revision is current, and otherwise names the first row that is not, workflows before assignments |
| ReplanStore.Repository.MoveCalendar | src/werkcrew_ai/persistence.py:1229-1247 | after the revision check the compare-and-swap loop moves all expected assignments and can only fail for a missing placement |
| ReplanStore.Repository.AdvanceWorkflows | src/werkcrew_ai/persistence.py:1248-1255 | after the revision check the workflow compare-and-swap loop never fails |
| ReplanRuns.EventAdvances | src/werkcrew_ai/persistence.py:1020-1297 | no transaction removes a row, lowers a revision, changes a proposal that left PENDING, a claimed response, a decision or an operation record |
| ReplanRuns.EventKeepsInv | src/werkcrew_ai/persistence.py:1020-1297 | every transaction keeps keys, gates, proposals, decisions and consumed revisions consistent |
| ReplanRuns.RunKeeps | src/werkcrew_ai/persistence.py:400-1297 | the same over every interleaving of transactions |
| ReplanRuns.OneDecisionPerProposal | src/werkcrew_ai/persistence.py:1198-1280 | in every run a proposal has at most one decision and a gate is RESOLVED exactly when its decision exists |
| ReplanRuns.NoRevisionIsConsumedTwice | src/werkcrew_ai/persistence.py:1228-1247 | no two approvals of a run expected the same revision of the same assignment |
| ReplanRuns.ApprovalInvalidatesRivals | src/werkcrew_ai/persistence.py:1158-1174 | approving one of two claimed responses that share a revision makes the other stale |
| ReplanRuns.RivalSurvivesIffNoRowIsShared | src/werkcrew_ai/persistence.py:1158-1174 | after approving one of two current claims the other is still undecided, and still current exactly when the proposals expect no common assignment and no common workflow |
| ReplanRuns.StatusTellsHistory | src/werkcrew_ai/persistence.py:1175-1266 | when proposals are saved pending, APPLIED, REJECTED and STALE hold exactly when an approval, a rejection or an invalidated gate exists, and APPROVED never |
| ReplanRuns.ClaimNeverFindsInconsistency | src/werkcrew_ai/persistence.py:1052-1065 | in a consistent store a pending gate with an interrupt is always claimable |
| ReplanRuns.ClaimedResponseIsUndecided | src/werkcrew_ai/persistence.py:1198-1227 | recording the decision of a claimed response violates no uniqueness constraint |
| ReplanRuns.OwnerAnswerGoesThrough | src/werkcrew_ai/persistence.py:1020-1297 | a pending gate with an interrupt and a current, applicable proposal is decided by claiming and committing either answer |
| ReplanRuns.ReplayFindsTheDecision | src/werkcrew_ai/persistence.py:1125-1131 | at any later time a decided response is found again with the same decision |
| ReplanRuns.ReadStaysValid | src/werkcrew_ai/persistence.py:876-887 | whatever happens between the read and the gate transaction, a gate exists by then or the proposal is still pending and unchanged |
| ReplanRuns.ApprovalMovesExactlyTheExpected | src/werkcrew_ai/persistence.py:1228-1255 | approval moves exactly the expected assignments to their placements and raises each expected revision by one |
| ReplanRuns.OnlyApprovalTouchesTheCalendar | src/werkcrew_ai/persistence.py:1175-1183 | rejection and staleness leave calendar and workflows as they were |
| PlanApplied.PlannedProposalCanBeApplied | src/werkcrew_ai/persistence.py:1229-1233 | every assignment that a planner proposal expects to move has a placement, so approval cannot fail halfway |
| PlanApplied.PlannedDayIffRestStands | src/werkcrew_ai/persistence.py:1158-1247 | after approval every placement of the plan stands in the calendar exactly when the candidates that the proposal does not move still stand |
| PlanApplied.ApprovedCalendarIsThePlan | src/werkcrew_ai/persistence.py:1228-1247 | if the other candidates still stand, the calendar after approval equals the planned day |
| PlanApplied.ApprovedCalendarHasNoOverlap | src/werkcrew_ai/dispatch/planner.py:381-417 | if the other candidates still stand, the planned assignments follow each other without overlap in that calendar |
| PlanApplied.NeverInTwoPlacesIffOthersKeepClear | src/werkcrew_ai/persistence.py:1158-1247 | after approval of a current proposal, whatever else has changed, no two rows at which a worker works overlap exactly when the rows that are not moved are apart from each other and from the placements of the moved ones |
| PlanApplied.ForeignRowIsNotLookedAt | src/werkcrew_ai/dispatch/service.py:97-97 | further work that overlaps where a row of the worker stands after approval hinders neither the approval nor the plan, and leaves an overlap |
| RivalPlans.TwoApprovedPlansCollide | src/werkcrew_ai/persistence.py:1158-1247 | the planner answers two requests for the same three visits with proposals that, under different identifiers, can both be approved from a consistent store without overlap, and leave the worker in two places |
| EvidenceStore.Recorder.constructor | migrations/0012_m3e0_authoritative_policy_evidence.sql:392-1257 | an empty recorder satisfies the invariant |
| EvidenceStore.Recorder.FindCaptureReplay | src/werkcrew_ai/authority/policy_evidence_repository.py:1217-1281 | nothing for a fresh capture; for a consumed one the stored record that states exactly what is submitted, and a conflict whenever the record captured there differs in value, root, principal, worker, scope or time |
| EvidenceStore.DifferingRetryFindsNothing | src/werkcrew_ai/authority/policy_evidence_repository.py:1250-1276 | a stored record answers no submission under its capture that differs from it in anything |
| EvidenceStore.MayRecordIffBound | src/werkcrew_ai/authority/policy_evidence_repository.py:1499-1511 | what may be recorded is exactly what a consistent store can hold |
| EvidenceStore.NewestFreelyGivenResolves | src/werkcrew_ai/authority/policy_evidence_repository.py:958-965 | a stored consent resolves exactly when it is freely given and none of the same root, principal, worker and scope follows it |
| EvidenceStore.OnlyConsumption | src/werkcrew_ai/authority/policy_evidence_repository.py:297-315 | with unique captures a consumption is the only row found under its capture |
| EvidenceStore.RecordsLoad | src/werkcrew_ai/authority/policy_evidence_repository.py:317-341 | in a consistent store every approval and consent passes all its load checks |
| EvidenceStore.Recorder.CheckChronology | src/werkcrew_ai/authority/policy_evidence_repository.py:815-838 | true exactly for a chain numbered 1 to n in which each record names its predecessor |
| EvidenceStore.Recorder.LoadConsentLineage | src/werkcrew_ai/authority/policy_evidence_repository.py:792-843 | returns only unbroken chains that contain the consent, and in a consistent store the whole lineage of every stored consent |
| EvidenceStore.Recorder.RecordWorkerConsent | src/werkcrew_ai/authority/policy_evidence_repository.py:1589-1732 | an authorised fresh capture appends the next link of the lineage and its consumption; whatever is returned states exactly what was submitted; a differing use of a consumed capture is refused; nothing else changes |
| EvidenceStore.Recorder.RecordOwnerApproval | src/werkcrew_ai/authority/policy_evidence_repository.py:1472-1587 | likewise for approvals, with at most one for each root and scope |
| EvidenceStore.Recorder.ResolveWorkerConsent | src/werkcrew_ai/authority/policy_evidence_repository.py:933-965 | a stored consent of the expected root, worker and scope resolves exactly when it heads its lineage and is freely given |
| EvidenceStore.NextConsentFits | migrations/0012_m3e0_authoritative_policy_evidence.sql:1157-1283 | the next link of an unbroken chain passes the chronology and uniqueness triggers and, when the recorder may consent, the trigger that re-checks its authority |
| EvidenceRuns.StepKeepsInv | src/werkcrew_ai/authority/policy_evidence_repository.py:1512-1583 | every accepted recording keeps chains, bindings, approvals and captures consistent |
| EvidenceRuns.ReachableStoresAreConsistent | src/werkcrew_ai/authority/policy_evidence_repository.py:792-843 | so does every run, in which recorders with different capture keys may take turns |
| EvidenceRuns.CaptureIdentifiesRecord | src/werkcrew_ai/authority/policy_evidence_repository.py:1217-1281 | two stored records never share a capture |
| EvidenceRuns.NewestConsentDecides | src/werkcrew_ai/authority/policy_evidence_repository.py:958-965 | after a recording only the new consent of its key can resolve, exactly when freely given, and other keys are unaffected |
| EvidenceRuns.AtMostOneConsentResolves | src/werkcrew_ai/authority/policy_evidence_repository.py:958-965 | at most one consent resolves for each key |
| EvidenceRuns.SupersededForever | src/werkcrew_ai/authority/policy_evidence_repository.py:958-965 | a superseded consent never resolves again in any later run |
| PredecessorCycles.ValidatePredecessorCycles | src/werkcrew_ai/catalog/validation.py:51-91 | issues are appended exactly when the predecessors declared by the last profile of each expected SKU contain a cycle; each is a simple declared cycle, no two over the same SKUs, every declared cycle has an edge inside one, and they come in the order of the depth-first search |
| PredecessorCycles.GraphIsDeclared | src/werkcrew_ai/catalog/validation.py:55-63 | v has the edge to w exactly when both are expected and the last profile of v lists w |
| PredecessorCycles.ListingIsIrrelevant | src/werkcrew_ai/catalog/validation.py:86-91 | the report does not depend on the order in which predecessors are listed |
| PredecessorCycles.SmallerComesFirst | src/werkcrew_ai/catalog/validation.py:86-91 | two cycles through one SKU are reported from the smallest SKU, the smaller predecessor first |
| PredecessorCycles.CycleSearch.Visit | src/werkcrew_ai/catalog/validation.py:68-88 | terminates, restores the path and keeps the search invariant; the SKU is finished or lies in one reported cycle with the top of the path |
| PredecessorCycles.CycleSearch.ReportCycle | src/werkcrew_ai/catalog/validation.py:69-81 | a back edge closes a simple cycle through the tail of the path, reported once for each set of SKUs, and both its ends lie in a reported set |
| PredecessorCycles.EveryCycleIsTouched | src/werkcrew_ai/catalog/validation.py:68-91 | every cycle of the graph has an edge whose SKUs both belong to one reported cycle |
| PredecessorCycles.TopologicalOrderExcludesCycles | src/werkcrew_ai/catalog/validation.py:87-91 | a completion order in which predecessors come first excludes every cycle |
| Chunking.GenerateJobItemChunks | src/werkcrew_ai/catalog/chunking.py:36-95 | refused exactly for a blank id, a quantity, norm or maximum that is not positive, and pieces or rooms that are fractional or too long for a day; otherwise chunks that sum to the quantity, each within the day at the norm, whole for pieces and rooms, full except the last, linked in sequence |
| Chunking.HoursFollowQuantity | src/werkcrew_ai/catalog/chunking.py:26-33 | the hours of any chunking are quantity times norm |
| Chunking.GreedyIsShortest | src/werkcrew_ai/catalog/chunking.py:56-79 | no valid chunking of the same quantity uses fewer chunks |
| Chunking.RefusedQuantityHasNoChunking | src/werkcrew_ai/catalog/chunking.py:67-73 | a quantity refused as not whole or not fitting has no chunking at all |
| Chunking.DependentWaitsForWholePredecessors | src/werkcrew_ai/catalog/chunking.py:98-117 | refused exactly when some explicit matching item of the job has no chunks; otherwise the returned ids are the last chunks of exactly the matching items, and each waits for its whole item |
| Chunking.WaitsInOrder | src/werkcrew_ai/catalog/chunking.py:107-117 | the chunks to wait for come in the order of their items' identifiers |

## Left out

- SHA-256, Ed25519, canonical JSON and identifier formats: records are their own identities; the truncated identifiers of
  proposals and decisions are therefore distinct in the model whenever their content is.
- String, type and time-zone awareness checks on inputs, and blank checks beyond ASCII white space.
- Decimal context rounding in chunking: quantities and hours are exact reals.
- Wall-clock arithmetic of aware datetimes across a change of the clock: the planner adds seconds on one time line.
- Real time-zone tables: a zone is a strictly increasing midnight function with the local date of each instant.
- SQLite, migrations, schema signatures, connections and the jobs, workers, vehicles and trace tables; the known workers and
  vehicles are a parameter where calendar rows refer to them.
- The read paths of the repositories that only rebuild records, `save_pending_gate`, `recover_pending_gate` and the
  session directory; only replan gates exist in the model.
- Responses with missing or additional fields: a response is a record with exactly the four canonical fields.
- The field-by-field bindings of the evidence cut, and how marker universes and working-time manifests are derived: a valid
  cut keeps what the outcome depends on. Of the currentness vector it keeps that every kind is observed, what is expected of
  selections and consents, and what an absent kind expects; other expectations are given.
- Order of requirements: the canonical order is a parameter of the derivation, and a valid cut may list them in any order.
- Times of placements in the authority model: a candidate's placements carry worker, vehicle, job and day, and its working
  time is whatever the comparisons of its overtime assessment hold.
- Formatting of chunk identifiers and of material references, and the explanation texts of issues and plans.
- Provisioning of capture roots, policy profiles and issuances, and the authority directory: they are given and immutable.
- Planner.RefusalIsFinalIffAvailableEarlier: one second before stands for the instant before an opening; the code's instants
  are finer, so its condition looks at the corresponding smaller step.
- AuthorityEvaluation.ValidCut: unique candidate ids are checked by no constructor of the search result; they follow from the
  positions that the cut compares when it derives the requirements.
- M2 reducer, bounded feasibility search, internal-cost pricing, intake, agent, API, routing and user interface.
