/** The daily plan: refusals in order, every order of the candidates evaluated, the lexicographic minimum
    chosen, and the replan proposal built from it. */
module DailyPlan {
  import opened Prelude
  import opened DispatchModels
  import opened Planner

  datatype Reason =
    | NoUnfinishedTasks | BoundedPlannerLimit | InProgressImmovable | WorkerReassignmentForbidden
    | AddressNotConfirmed | AssignedWorkerMissingSkill | AmbiguousRouteSnapshot
    | OrderFails(failure: Failure) | NoFeasibleOrdering | NoFeasibleReorder

  datatype PlanResult = NoFeasibleReplan(reasons: set<Reason>) | NoChange | ProposalCreated(proposal: Proposal)

  datatype PlanError = WorkdayDate | WorkingHoursInvalid | UnknownWorkflow(workflowId: string)

  datatype Request = Request(
    initiatingWorkflow: string, planningDate: int, now: int, workdayStart: int, workdayEnd: int, workdayEndDate: int,
    localDate: int -> int, jobs: seq<Job>, workflowRevisions: map<string, nat>, assignments: seq<Assignment>,
    materials: seq<Material>, routes: seq<Route>, worker: Worker, vehicles: seq<Vehicle>)

  datatype Timed = Timed(assignmentId: string, start: int, end: int)

  /** What the fingerprint of a proposal is computed from. */
  datatype Payload = Payload(
    initiatingWorkflow: string, affectedJobs: seq<string>, affectedWorkflows: seq<string>,
    affectedAssignments: seq<string>, before: seq<Timed>, after: seq<Timed>,
    workflowRevisions: seq<(string, nat)>, calendarRevisions: seq<(string, nat)>,
    materialReferences: set<MaterialReference>, routeReferences: seq<string>)

  datatype Naming = Naming(fingerprintOf: Payload -> string, proposalIdOf: string -> string)

  // ---------------------------------------------------------------- the choice key

  predicate PairLeq(a: (string, string), b: (string, string)) {
    if a.0 != b.0 then StringLeq(a.0, b.0) else StringLeq(a.1, b.1)
  }

  predicate PairsLeq(a: seq<(string, string)>, b: seq<(string, string)>) {
    a == [] || (b != [] && if a[0] != b[0] then PairLeq(a[0], b[0]) else PairsLeq(a[1..], b[1..]))
  }

  function Tasks(placements: seq<Placement>): (r: seq<(string, string)>)
    ensures |r| == |placements|
    ensures forall i | 0 <= i < |r| :: r[i] == (placements[i].jobId, placements[i].taskId)
  {
    seq(|placements|, i requires 0 <= i < |placements| => (placements[i].jobId, placements[i].taskId))
  }

  /** Fewest changed commitments, then least idle time, then least travel, then the job and task identifiers. */
  predicate KeyLeq(a: Candidate, b: Candidate) {
    if a.changed != b.changed then a.changed < b.changed
    else if a.idle != b.idle then a.idle < b.idle
    else if a.travel != b.travel then a.travel < b.travel
    else PairsLeq(Tasks(a.placements), Tasks(b.placements))
  }

  lemma {:induction false} PairLeqOrders(a: (string, string), b: (string, string), c: (string, string))
    ensures PairLeq(a, b) || PairLeq(b, a)
    ensures PairLeq(a, b) && PairLeq(b, a) ==> a == b
    ensures PairLeq(a, b) && PairLeq(b, c) ==> PairLeq(a, c)
  {
    StringLeqTotal(a.0, b.0);
    StringLeqTotal(a.1, b.1);
    StringLeqTotal(b.0, c.0);
    if StringLeq(a.0, b.0) && StringLeq(b.0, c.0) {
      StringLeqTransitive(a.0, b.0, c.0);
    }
    if StringLeq(a.1, b.1) && StringLeq(b.1, c.1) {
      StringLeqTransitive(a.1, b.1, c.1);
    }
  }

  lemma {:induction false} PairsLeqOrders(a: seq<(string, string)>, b: seq<(string, string)>, c: seq<(string, string)>)
    ensures PairsLeq(a, b) || PairsLeq(b, a)
    ensures PairsLeq(a, b) && PairsLeq(b, a) ==> a == b
    ensures PairsLeq(a, b) && PairsLeq(b, c) ==> PairsLeq(a, c)
    decreases |a|
  {
    hide PairLeq;
    if a != [] && b != [] {
      PairLeqOrders(a[0], b[0], a[0]);
      if c != [] {
        PairLeqOrders(a[0], b[0], c[0]);
        PairLeqOrders(b[0], c[0], a[0]);
      }
      PairsLeqOrders(a[1..], b[1..], if c == [] then [] else c[1..]);
      assert a == [a[0]] + a[1..] && b == [b[0]] + b[1..];
    }
  }

  lemma {:induction false} KeyIsTotal()
    ensures TotalPreorder(KeyLeq)
  {
    forall a: Candidate, b: Candidate ensures KeyLeq(a, b) || KeyLeq(b, a) {
      PairsLeqOrders(Tasks(a.placements), Tasks(b.placements), []);
    }
    forall a: Candidate, b: Candidate, c: Candidate | KeyLeq(a, b) && KeyLeq(b, c) ensures KeyLeq(a, c) {
      PairsLeqOrders(Tasks(a.placements), Tasks(b.placements), Tasks(c.placements));
    }
  }

  predicate ByStart(a: Assignment, b: Assignment) {
    if a.start != b.start then a.start < b.start else StringLeq(a.id, b.id)
  }

  lemma {:induction false} StartIsTotal()
    ensures TotalPreorder(ByStart)
  {
    forall a: Assignment, b: Assignment ensures ByStart(a, b) || ByStart(b, a) {
      StringLeqTotal(a.id, b.id);
    }
    forall a: Assignment, b: Assignment, c: Assignment | ByStart(a, b) && ByStart(b, c) ensures ByStart(a, c) {
      if a.start == b.start == c.start {
        StringLeqTransitive(a.id, b.id, c.id);
      }
    }
  }

  predicate RevisionLeq(a: (string, nat), b: (string, nat)) {
    if a.0 != b.0 then StringLeq(a.0, b.0) else a.1 <= b.1
  }

  // ---------------------------------------------------------------- inputs indexed as the planner does

  function CandidatesAmong(r: Request, assignments: seq<Assignment>): seq<Assignment> {
    if assignments == [] then []
    else
      var last := assignments[|assignments| - 1];
      CandidatesAmong(r, assignments[..|assignments| - 1])
      + if !last.status.Completed? && !last.status.Cancelled? && r.localDate(last.start) == r.planningDate
        then [last] else []
  }

  function Candidates(r: Request): seq<Assignment> {
    CandidatesAmong(r, r.assignments)
  }

  function JobId(job: Job): string { job.id }

  function TaskOf(m: Material): (string, string) { (m.jobId, m.taskId) }

  function VehicleId(v: Vehicle): string { v.id }

  function PairOf(route: Route): (string, string) { (route.origin, route.destination) }

  function ValidRoutes(routes: seq<Route>): seq<Route> {
    if routes == [] then []
    else ValidRoutes(routes[..|routes| - 1]) + if routes[|routes| - 1].valid then [routes[|routes| - 1]] else []
  }

  function JobTable(r: Request): map<string, Job> {
    TableBy(r.jobs, JobId)
  }

  function DayOf(r: Request): Day {
    Day(if r.now > r.workdayStart then r.now else r.workdayStart, r.workdayEnd,
        TableBy(r.materials, TaskOf), TableBy(ValidRoutes(r.routes), PairOf), r.worker, TableBy(r.vehicles, VehicleId))
  }

  // ---------------------------------------------------------------- plan

  predicate ValidWorkday(r: Request) {
    r.localDate(r.workdayStart) == r.planningDate == r.workdayEndDate && r.workdayStart < r.workdayEnd
  }

  predicate Located(r: Request, a: Assignment) {
    a.jobId in JobTable(r) && JobTable(r)[a.jobId].addressConfirmed && JobTable(r)[a.jobId].hasCoordinates
  }

  /** The first ground on which the planner declines to compare orders at all. */
  ghost function Refusal(r: Request): Option<Reason> {
    var cs := Candidates(r);
    if cs == [] then Some(NoUnfinishedTasks)
    else if |cs| > 3 then Some(BoundedPlannerLimit)
    else if exists a | a in cs :: a.status.InProgress? then Some(InProgressImmovable)
    else if exists a | a in cs :: a.workerId != r.worker.id then Some(WorkerReassignmentForbidden)
    else if exists a | a in cs :: !Located(r, a) then Some(AddressNotConfirmed)
    else if exists a | a in cs :: !(a.skills <= r.worker.skills) then Some(AssignedWorkerMissingSkill)
    else if !UniqueBy(ValidRoutes(r.routes), PairOf) then Some(AmbiguousRouteSnapshot)
    else None
  }

  function EvaluatedAmong(day: Day, orders: seq<seq<Assignment>>): seq<Candidate> {
    if orders == [] then []
    else
      var result := Evaluate(day, orders[|orders| - 1]);
      EvaluatedAmong(day, orders[..|orders| - 1]) + if result.Ok? then [result.value] else []
  }

  function Evaluated(r: Request): seq<Candidate> {
    EvaluatedAmong(DayOf(r), Permutations(Candidates(r)))
  }

  /** `ordering` rearranges the candidates, and greedy placement of it yields `c`. */
  ghost predicate Schedules(r: Request, ordering: seq<Assignment>, c: Candidate) {
    multiset(ordering) == multiset(Candidates(r)) && Evaluate(DayOf(r), ordering) == Ok(c)
  }

  ghost predicate Fails(r: Request, ordering: seq<Assignment>, f: Failure) {
    multiset(ordering) == multiset(Candidates(r)) && Evaluate(DayOf(r), ordering) == Err(f)
  }

  function Ids(placements: seq<Placement>): (r: seq<string>)
    ensures |r| == |placements| && forall i | 0 <= i < |r| :: r[i] == placements[i].assignmentId
  {
    seq(|placements|, i requires 0 <= i < |placements| => placements[i].assignmentId)
  }

  /** The confirmed placements, in the order of the confirmed starts. */
  function ConfirmedSchedule(cs: seq<Assignment>): (r: seq<Placement>)
    ensures |r| == |Sort(cs, ByStart)|
    ensures forall i | 0 <= i < |r| :: r[i] == PlacedAt(Sort(cs, ByStart)[i], Sort(cs, ByStart)[i].start)
  {
    var sorted := Sort(cs, ByStart);
    seq(|sorted|, i requires 0 <= i < |sorted| => PlacedAt(sorted[i], sorted[i].start))
  }

  function Timetable(placements: seq<Placement>): seq<Timed> {
    seq(|placements|, i requires 0 <= i < |placements| =>
          Timed(placements[i].assignmentId, placements[i].start, placements[i].end))
  }

  function FindAssignment(cs: seq<Assignment>, id: string): Option<Assignment> {
    if cs == [] then None else if cs[0].id == id then Some(cs[0]) else FindAssignment(cs[1..], id)
  }

  predicate HasMoved(p: Placement, cs: seq<Assignment>) {
    var a := FindAssignment(cs, p.assignmentId);
    a.Some? && (a.value.start != p.start || a.value.end != p.end)
  }

  function Moved(placements: seq<Placement>, cs: seq<Assignment>): seq<string> {
    if placements == [] then []
    else
      var last := placements[|placements| - 1];
      Moved(placements[..|placements| - 1], cs) + if HasMoved(last, cs) then [last.assignmentId] else []
  }

  function RevisionsAmong(cs: seq<Assignment>, affected: seq<string>): seq<(string, nat)> {
    if cs == [] then []
    else
      var last := cs[|cs| - 1];
      RevisionsAmong(cs[..|cs| - 1], affected) + if last.id in affected then [(last.id, last.revision)] else []
  }

  function FindOrder(evaluated: seq<Candidate>, ids: seq<string>): Option<Candidate> {
    if evaluated == [] then None
    else if Ids(evaluated[0].placements) == ids then Some(evaluated[0])
    else FindOrder(evaluated[1..], ids)
  }

  /** The chosen candidate: least by the key, and the first such in the order of comparison. */
  ghost predicate Chosen(r: Request, best: Candidate) {
    exists k: nat :: FirstLeast(Evaluated(r), k, KeyLeq) && Evaluated(r)[k] == best
  }

  ghost predicate ListsSorted(s: seq<string>, elements: set<string>) {
    multiset(s) == multiset(elements) && SortedBy(s, StringLeq)
  }

  function AffectedWorkflows(cs: seq<Assignment>, affected: seq<string>): set<string> {
    set a | a in cs && a.id in affected :: a.workflowId
  }

  function AffectedJobs(cs: seq<Assignment>, affected: seq<string>): set<string> {
    set a | a in cs && a.id in affected :: a.jobId
  }

  function MaterialReferences(materials: seq<Material>, affectedJobs: set<string>): set<MaterialReference> {
    set m | m in materials && m.jobId in affectedJobs :: MaterialReference(m.jobId, m.taskId, m.revision)
  }

  function PayloadOf(p: Proposal): Payload {
    Payload(p.initiatingWorkflow, p.affectedJobs, p.affectedWorkflows, p.affectedAssignments,
            Timetable(p.beforeSchedule), Timetable(p.afterSchedule), p.expectedWorkflowRevisions,
            p.expectedCalendarRevisions, p.materialReferences, p.routeReferences)
  }

  ghost predicate IsProposal(r: Request, naming: Naming, best: Candidate, p: Proposal) {
    var cs := Candidates(r);
    var affected := Moved(best.placements, cs);
    var baseline := FindOrder(Sort(Evaluated(r), KeyLeq), Ids(ConfirmedSchedule(cs)));
    && p.status == PendingOwnerApproval
    && p.initiatingWorkflow == r.initiatingWorkflow
    && p.affectedAssignments == affected
    && ListsSorted(p.affectedJobs, AffectedJobs(cs, affected))
    && ListsSorted(p.affectedWorkflows, AffectedWorkflows(cs, affected))
    && p.beforeSchedule == ConfirmedSchedule(cs) && p.afterSchedule == best.placements
    && |p.expectedWorkflowRevisions| == |p.affectedWorkflows|
    && (forall i | 0 <= i < |p.affectedWorkflows| ::
          p.affectedWorkflows[i] in r.workflowRevisions
          && p.expectedWorkflowRevisions[i] == (p.affectedWorkflows[i], r.workflowRevisions[p.affectedWorkflows[i]]))
    && p.expectedCalendarRevisions == Sort(RevisionsAmong(cs, affected), RevisionLeq)
    && p.materialReferences == MaterialReferences(r.materials, AffectedJobs(cs, affected))
    && p.routeReferences == best.routeIds && p.conditional == best.conditional
    && p.idleBefore == (if baseline.Some? then baseline.value.idle else -1)
    && p.travelBefore == (if baseline.Some? then baseline.value.travel else -1)
    && p.idleAfter == best.idle && p.travelAfter == best.travel
    && p.fingerprint == naming.fingerprintOf(PayloadOf(p)) && p.id == naming.proposalIdOf(p.fingerprint)
  }

  ghost predicate IsLeast(s: string, elements: set<string>) {
    s in elements && forall t | t in elements :: StringLeq(s, t)
  }

  predicate SameTimes(a: seq<Placement>, b: seq<Placement>) {
    |a| == |b| && forall i | 0 <= i < |a| :: a[i].start == b[i].start && a[i].end == b[i].end
  }

  /** What the planner answers once `best` is chosen. */
  ghost predicate Concludes(r: Request, naming: Naming, best: Candidate, result: Result<PlanResult, PlanError>) {
    var cs := Candidates(r);
    if Ids(best.placements) == Ids(ConfirmedSchedule(cs)) then
      result == Ok(if SameTimes(best.placements, ConfirmedSchedule(cs)) then NoChange
                   else NoFeasibleReplan({NoFeasibleReorder}))
    else if AffectedWorkflows(cs, Moved(best.placements, cs)) <= r.workflowRevisions.Keys then
      result.Ok? && result.value.ProposalCreated? && IsProposal(r, naming, best, result.value.proposal)
    else
      && result.Err? && result.error.UnknownWorkflow?
      && IsLeast(result.error.workflowId, AffectedWorkflows(cs, Moved(best.placements, cs)) - r.workflowRevisions.Keys)
  }

  /** The comparison loop over every order. */
  method CompareOrders(
    day: Day, orders: seq<seq<Assignment>>
  ) returns (evaluated: seq<Candidate>, failures: set<Reason>)
    ensures evaluated == EvaluatedAmong(day, orders)
    ensures forall x :: x in failures <==> exists o | o in orders ::
      Evaluate(day, o).Err? && x == OrderFails(Evaluate(day, o).error)
  {
    hide Evaluate;
    evaluated, failures := [], {};
    for i := 0 to |orders|
      invariant evaluated == EvaluatedAmong(day, orders[..i])
      invariant forall x :: x in failures <==>
        exists o | o in orders[..i] :: Evaluate(day, o).Err? && x == OrderFails(Evaluate(day, o).error)
    {
      assert orders[..i + 1] == orders[..i] + [orders[i]];
      var result := EvaluateOrder(day, orders[i]);
      match result
      case Ok(c) => evaluated := evaluated + [c];
      case Err(f) => failures := failures + {OrderFails(f)};
    }
    assert orders[..|orders|] == orders;
  }

  lemma {:induction false} EvaluatedMeans(day: Day, orders: seq<seq<Assignment>>)
    ensures forall c :: c in EvaluatedAmong(day, orders) <==> exists o | o in orders :: Evaluate(day, o) == Ok(c)
  {
    hide Evaluate;
    if orders != [] {
      var n := |orders| - 1;
      assert orders == orders[..n] + [orders[n]];
      EvaluatedMeans(day, orders[..n]);
    }
  }

  /** The comparison covers every rearrangement of the candidates. */
  lemma {:induction false} EvaluatedAreSchedules(r: Request)
    ensures forall c :: c in Evaluated(r) <==> exists ordering :: Schedules(r, ordering, c)
  {
    hide Evaluate, Permutations;
    var day, cs := DayOf(r), Candidates(r);
    EvaluatedMeans(day, Permutations(cs));
    forall o ensures o in Permutations(cs) <==> multiset(o) == multiset(cs) {
      PermutationsAreRearrangements(cs, o);
    }
    forall c ensures c in Evaluated(r) <==> exists ordering :: Schedules(r, ordering, c) {
      if ordering :| Schedules(r, ordering, c) {
        assert ordering in Permutations(cs);
      }
      if c in Evaluated(r) {
        var o :| o in Permutations(cs) && Evaluate(day, o) == Ok(c);
        assert Schedules(r, o, c);
      }
    }
  }

  ghost predicate FirstMissing(workflows: seq<string>, i: nat, revisions: map<string, nat>) {
    i < |workflows| && workflows[i] !in revisions && forall j | 0 <= j < i :: workflows[j] in revisions
  }

  method ExpectedWorkflowRevisions(workflows: seq<string>, revisions: map<string, nat>)
    returns (result: Result<seq<(string, nat)>, PlanError>)
    ensures result.Ok? <==> forall w | w in workflows :: w in revisions
    ensures result.Ok? ==>
      && |result.value| == |workflows|
      && forall i | 0 <= i < |workflows| :: result.value[i] == (workflows[i], revisions[workflows[i]])
    ensures result.Err? ==>
      && result.error.UnknownWorkflow?
      && exists i | 0 <= i < |workflows| ::
           workflows[i] == result.error.workflowId && FirstMissing(workflows, i, revisions)
  {
    var expected := [];
    for i := 0 to |workflows|
      invariant |expected| == i
      invariant forall j | 0 <= j < i ::
        workflows[j] in revisions && expected[j] == (workflows[j], revisions[workflows[j]])
    {
      if workflows[i] !in revisions {
        assert FirstMissing(workflows, i, revisions);
        return Err(UnknownWorkflow(workflows[i]));
      }
      expected := expected + [(workflows[i], revisions[workflows[i]])];
    }
    result := Ok(expected);
  }

  lemma {:induction false} FirstMissingIsLeast(
    workflows: seq<string>, elements: set<string>, revisions: map<string, nat>, missing: string
  )
    requires ListsSorted(workflows, elements)
    requires exists i | 0 <= i < |workflows| :: workflows[i] == missing && FirstMissing(workflows, i, revisions)
    ensures IsLeast(missing, elements - revisions.Keys)
  {
    var i :| 0 <= i < |workflows| && workflows[i] == missing && FirstMissing(workflows, i, revisions);
    assert missing in multiset(workflows);
    forall t | t in elements - revisions.Keys ensures StringLeq(missing, t) {
      assert t in multiset(workflows);
      var j :| 0 <= j < |workflows| && workflows[j] == t;
      StringLeqTotal(t, t);
    }
  }

  method BuildProposal(r: Request, naming: Naming, ranked: seq<Candidate>, best: Candidate)
    returns (result: Result<PlanResult, PlanError>)
    requires ranked == Sort(Evaluated(r), KeyLeq) && Ids(best.placements) != Ids(ConfirmedSchedule(Candidates(r)))
    ensures Concludes(r, naming, best, result)
  {
    hide Sort, StringLeq, Evaluated, Candidates, FindOrder, Moved, RevisionsAmong, ConfirmedSchedule;
    var candidates := Candidates(r);
    var before := ConfirmedSchedule(candidates);
    var baseline := FindOrder(ranked, Ids(before));
    var affected := Moved(best.placements, candidates);
    StringLeqIsTotal();
    var affectedJobs := SortedSet(AffectedJobs(candidates, affected), StringLeq);
    var affectedWorkflows := SortedSet(AffectedWorkflows(candidates, affected), StringLeq);
    var workflowRevisions := ExpectedWorkflowRevisions(affectedWorkflows, r.workflowRevisions);
    if workflowRevisions.Err? {
      FirstMissingIsLeast(affectedWorkflows, AffectedWorkflows(candidates, affected), r.workflowRevisions,
                          workflowRevisions.error.workflowId);
      return Err(workflowRevisions.error);
    }
    var proposal := Proposal(
      "", "", r.initiatingWorkflow, PendingOwnerApproval, affectedJobs, affectedWorkflows, affected,
      before, best.placements, MaterialReferences(r.materials, AffectedJobs(candidates, affected)), best.routeIds,
      workflowRevisions.value, Sort(RevisionsAmong(candidates, affected), RevisionLeq),
      if baseline.Some? then baseline.value.idle else -1, best.idle,
      if baseline.Some? then baseline.value.travel else -1, best.travel, best.conditional);
    var fingerprint := naming.fingerprintOf(PayloadOf(proposal));
    proposal := proposal.(fingerprint := fingerprint, id := naming.proposalIdOf(fingerprint));
    result := Ok(ProposalCreated(proposal));
  }

  lemma {:induction false} KeepingTheOrderConcludes(r: Request, naming: Naming, best: Candidate)
    requires Ids(best.placements) == Ids(ConfirmedSchedule(Candidates(r)))
    ensures Concludes(r, naming, best,
      Ok(if SameTimes(best.placements, ConfirmedSchedule(Candidates(r))) then NoChange
         else NoFeasibleReplan({NoFeasibleReorder})))
  {}

  lemma {:induction false} ScheduleIsEvaluated(r: Request, ordering: seq<Assignment>, c: Candidate)
    requires Schedules(r, ordering, c)
    ensures c in Evaluated(r)
  {
    hide Evaluated;
    EvaluatedAreSchedules(r);
  }

  lemma {:induction false} SomeOrderFails(r: Request)
    requires Evaluated(r) == []
    ensures exists o, f :: Fails(r, o, f)
  {
    hide Evaluate, EvaluatedAmong;
    var result := Evaluate(DayOf(r), Candidates(r));
    if result.Ok? {
      ScheduleIsEvaluated(r, Candidates(r), result.value);
    } else {
      assert Fails(r, Candidates(r), result.error);
    }
  }

  lemma {:induction false} FailuresAreAllOrders(r: Request, failures: set<Reason>)
    requires Evaluated(r) == []
    requires forall x :: x in failures <==> exists o | o in Permutations(Candidates(r)) ::
        Evaluate(DayOf(r), o).Err? && x == OrderFails(Evaluate(DayOf(r), o).error)
    ensures forall x :: x in failures <==> exists o, f :: Fails(r, o, f) && x == OrderFails(f)
    ensures failures != {}
  {
    hide Evaluate, Permutations;
    var cs := Candidates(r);
    forall o ensures o in Permutations(cs) <==> multiset(o) == multiset(cs) {
      PermutationsAreRearrangements(cs, o);
    }
    forall x ensures x in failures <==> exists o, f :: Fails(r, o, f) && x == OrderFails(f) {
      if x in failures {
        var o :| o in Permutations(cs) && Evaluate(DayOf(r), o).Err? && x == OrderFails(Evaluate(DayOf(r), o).error);
        assert Fails(r, o, Evaluate(DayOf(r), o).error);
      }
    }
    SomeOrderFails(r);
    var o, f :| Fails(r, o, f);
    assert OrderFails(f) in failures;
  }

  method Refuse(r: Request, candidates: seq<Assignment>) returns (refused: Option<Reason>)
    requires candidates == Candidates(r)
    ensures refused == Refusal(r)
  {
    hide Candidates, CandidatesAmong, JobTable, TableBy, UniqueBy;
    if candidates == [] {
      return Some(NoUnfinishedTasks);
    }
    if |candidates| > 3 {
      return Some(BoundedPlannerLimit);
    }
    if exists a | a in candidates :: a.status.InProgress? {
      return Some(InProgressImmovable);
    }
    var workers := set a | a in candidates :: a.workerId;
    assert candidates[0].workerId in workers;
    if workers != {r.worker.id} {
      return Some(WorkerReassignmentForbidden);
    }
    assert forall a | a in candidates :: a.workerId in workers;
    if exists a | a in candidates :: !Located(r, a) {
      return Some(AddressNotConfirmed);
    }
    if exists a | a in candidates :: !(a.skills <= r.worker.skills) {
      return Some(AssignedWorkerMissingSkill);
    }
    TableSize(ValidRoutes(r.routes), PairOf);
    if |TableBy(ValidRoutes(r.routes), PairOf)| != |ValidRoutes(r.routes)| {
      return Some(AmbiguousRouteSnapshot);
    }
    refused := None;
  }

  /** What the planner answers. */
  ghost predicate IsPlan(r: Request, naming: Naming, result: Result<PlanResult, PlanError>) {
    if r.localDate(r.workdayStart) != r.planningDate || r.workdayEndDate != r.planningDate then
      result == Err(WorkdayDate)
    else if r.workdayEnd <= r.workdayStart then result == Err(WorkingHoursInvalid)
    else if Refusal(r).Some? then result == Ok(NoFeasibleReplan({Refusal(r).value}))
    else if Evaluated(r) == [] then
      && result.Ok? && result.value.NoFeasibleReplan?
      && forall x :: x in result.value.reasons <==> exists o, f :: Fails(r, o, f) && x == OrderFails(f)
    else exists best :: Chosen(r, best) && Concludes(r, naming, best, result)
  }

  method Plan(r: Request, naming: Naming) returns (result: Result<PlanResult, PlanError>)
    ensures IsPlan(r, naming, result)
  {
    hide Evaluate, Sort, Permutations, Concludes, JobTable, TableBy, CandidatesAmong;
    if r.localDate(r.workdayStart) != r.planningDate || r.workdayEndDate != r.planningDate {
      return Err(WorkdayDate);
    }
    if r.workdayEnd <= r.workdayStart {
      return Err(WorkingHoursInvalid);
    }
    var candidates := Candidates(r);
    var refused := Refuse(r, candidates);
    if refused.Some? {
      return Ok(NoFeasibleReplan({refused.value}));
    }
    var day := DayOf(r);
    var evaluated, failures := CompareOrders(day, Permutations(candidates));
    if evaluated == [] {
      FailuresAreAllOrders(r, failures);
      return Ok(NoFeasibleReplan(if failures != {} then failures else {NoFeasibleOrdering}));
    }
    KeyIsTotal();
    ghost var first := SortHead(evaluated, KeyLeq);
    var ranked := Sort(evaluated, KeyLeq);
    var best := ranked[0];
    assert FirstLeast(Evaluated(r), first, KeyLeq) && Evaluated(r)[first] == best;
    if Ids(best.placements) == Ids(ConfirmedSchedule(candidates)) {
      var sameTimes := SameTimes(best.placements, ConfirmedSchedule(candidates));
      result := Ok(if sameTimes then NoChange else NoFeasibleReplan({NoFeasibleReorder}));
      KeepingTheOrderConcludes(r, naming, best);
    } else {
      result := BuildProposal(r, naming, ranked, best);
    }
  }
}
