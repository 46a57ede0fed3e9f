/** What the daily plan chooses, refuses and proposes, in terms of the request itself. */
module PlanChoice {
  import opened Prelude
  import opened DispatchModels
  import opened Planner
  import opened DailyPlan
  import opened PlanProperties
  import opened InputOrder

  // ---------------------------------------------------------------- the lexicographic choice

  predicate SameJobTask(p: Placement, q: Placement) {
    p.jobId == q.jobId && p.taskId == q.taskId
  }

  /** The smaller identifier: of a job, or of a task within one job. */
  ghost predicate NamedBefore(p: Placement, q: Placement) {
    ComesBefore(p.jobId, q.jobId) || (p.jobId == q.jobId && ComesBefore(p.taskId, q.taskId))
  }

  /** The first place at which two schedules name different tasks. */
  ghost predicate FirstDifference(a: seq<Placement>, b: seq<Placement>, k: nat) {
    && k < |a| && k < |b| && !SameJobTask(a[k], b[k])
    && forall j | 0 <= j < k :: SameJobTask(a[j], b[j])
  }

  /** At the first place where they differ, if any, `a` has the smaller identifier. */
  ghost predicate NamedFirst(a: seq<Placement>, b: seq<Placement>) {
    forall k: nat | FirstDifference(a, b, k) :: NamedBefore(a[k], b[k])
  }

  lemma {:induction false} PairsOrderMeans(a: seq<(string, string)>, b: seq<(string, string)>, k: nat)
    requires PairsLeq(a, b) && k < |a| && k < |b| && a[..k] == b[..k] && a[k] != b[k]
    ensures PairLeq(a[k], b[k])
  {
    if k > 0 {
      assert a[0] == a[..k][0] == b[..k][0] == b[0];
      assert a[1..][..k - 1] == a[..k][1..] && b[1..][..k - 1] == b[..k][1..];
      PairsOrderMeans(a[1..], b[1..], k - 1);
    }
  }

  lemma {:induction false} TasksOrderMeans(a: seq<Placement>, b: seq<Placement>, k: nat)
    requires PairsLeq(Tasks(a), Tasks(b)) && FirstDifference(a, b, k)
    ensures NamedBefore(a[k], b[k])
  {
    assert forall j | 0 <= j < k :: Tasks(a)[j] == Tasks(b)[j];
    assert Tasks(a)[..k] == Tasks(b)[..k] && Tasks(a)[k] != Tasks(b)[k];
    PairsOrderMeans(Tasks(a), Tasks(b), k);
    StringLeqMeans(a[k].jobId, b[k].jobId);
    StringLeqMeans(a[k].taskId, b[k].taskId);
  }

  /** Against every schedule of every order of the candidates, the chosen one changes no more commitments; among those
      that change as many it idles no longer, among those it travels no longer, and among those it names the smaller
      job and task at the first place where they differ. */
  lemma {:induction false} ChosenIsBest(r: Request, best: Candidate, ordering: seq<Assignment>, other: Candidate)
    requires Chosen(r, best) && Schedules(r, ordering, other)
    ensures best.changed <= other.changed
    ensures best.changed == other.changed ==> best.idle <= other.idle
    ensures best.changed == other.changed && best.idle == other.idle ==> best.travel <= other.travel
    ensures best.changed == other.changed && best.idle == other.idle && best.travel == other.travel ==>
      NamedFirst(best.placements, other.placements)
  {
    hide Chosen, Schedules, PairsLeq;
    ChosenIsMinimum(r, best);
    assert KeyLeq(best, other);
    if best.changed == other.changed && best.idle == other.idle && best.travel == other.travel {
      forall k: nat | FirstDifference(best.placements, other.placements, k)
        ensures NamedBefore(best.placements[k], other.placements[k])
      {
        TasksOrderMeans(best.placements, other.placements, k);
      }
    }
  }

  /** What a proposal claims about its own figures holds, and no order of the candidates does better. */
  lemma {:induction false} ProposalIsBest(
    r: Request, naming: Naming, result: Result<PlanResult, PlanError>, ordering: seq<Assignment>, other: Candidate
  )
    requires IsPlan(r, naming, result) && UniqueBy(Candidates(r), IdOf) && Schedules(r, ordering, other)
    requires result.Ok? && result.value.ProposalCreated?
    ensures var p := result.value.proposal;
      var changed := |p.affectedAssignments|;
      && changed <= other.changed
      && (changed == other.changed ==> p.idleAfter <= other.idle)
      && (changed == other.changed && p.idleAfter == other.idle ==> p.travelAfter <= other.travel)
      && (changed == other.changed && p.idleAfter == other.idle && p.travelAfter == other.travel ==>
            NamedFirst(p.afterSchedule, other.placements))
  {
    hide UniqueBy, Candidates, Evaluated, Refusal, Chosen, Moved, Schedules, NamedFirst, ConfirmedSchedule,
      AffectedJobs, AffectedWorkflows, MaterialReferences, ListsSorted, FindOrder, PayloadOf, Sort, RevisionsAmong,
      SameTimes;
    var best :| Chosen(r, best) && Concludes(r, naming, best, result);
    ChosenIsMinimum(r, best);
    var o: seq<Assignment> :| Schedules(r, o, best);
    ScheduleMoves(r, o, best);
    ChosenIsBest(r, best, ordering, other);
  }

  // ---------------------------------------------------------------- the inputs that are planned with

  /** An unfinished assignment of the planning day. */
  predicate IsOpen(r: Request, a: Assignment) {
    a.status in {Confirmed, InProgress} && r.localDate(a.start) == r.planningDate
  }

  /** The candidates are the open assignments, each as often as it is listed. */
  lemma {:induction false} CandidatesAreOpen(r: Request, a: Assignment)
    ensures multiset(Candidates(r))[a] == if IsOpen(r, a) then multiset(r.assignments)[a] else 0
    ensures a in Candidates(r) <==> a in r.assignments && IsOpen(r, a)
  {
    CandidateCount(r, r.assignments, a);
    assert a in Candidates(r) <==> multiset(Candidates(r))[a] > 0;
    assert a in r.assignments <==> multiset(r.assignments)[a] > 0;
  }

  lemma {:induction false} ValidRoutesMean(routes: seq<Route>, route: Route)
    ensures route in ValidRoutes(routes) <==> route in routes && route.valid
  {
    ValidRouteCount(routes, route);
    assert route in ValidRoutes(routes) <==> multiset(ValidRoutes(routes))[route] > 0;
    assert route in routes <==> multiset(routes)[route] > 0;
  }

  /** The day begins at the later of its start and now, and ends with the workday. */
  lemma {:induction false} DayBegins(r: Request)
    ensures var day := DayOf(r);
      && r.now <= day.start && r.workdayStart <= day.start && day.start in {r.now, r.workdayStart}
      && day.end == r.workdayEnd && day.worker == r.worker
  {}

  /** The material of a task is the last one listed for it. */
  lemma {:induction false} DayMaterials(r: Request, job: string, task: string)
    ensures (job, task) in DayOf(r).materials <==> exists m | m in r.materials :: m.jobId == job && m.taskId == task
    ensures (job, task) in DayOf(r).materials ==> exists i | 0 <= i < |r.materials| ::
      && r.materials[i] == DayOf(r).materials[(job, task)]
      && r.materials[i].jobId == job && r.materials[i].taskId == task
      && forall j | i < j < |r.materials| :: !(r.materials[j].jobId == job && r.materials[j].taskId == task)
  {
    hide TableBy;
    TableKey(r.materials, TaskOf, (job, task));
    KeyOfMember(r.materials, TaskOf, (job, task));
    if (job, task) in TableBy(r.materials, TaskOf) {
      TableHoldsLast(r.materials, TaskOf, (job, task));
      var i: nat :| i < |r.materials| && r.materials[i] == TableBy(r.materials, TaskOf)[(job, task)]
        && IsLast(r.materials, TaskOf, i, (job, task));
      assert TaskOf(r.materials[i]) == (job, task);
      assert forall j | i < j < |r.materials| :: TaskOf(r.materials[j]) != (job, task);
    }
  }

  /** On a day that is not refused, the route between two jobs is the one valid route listed for them. */
  lemma {:induction false} DayRoutes(r: Request, a: string, b: string)
    requires UniqueBy(ValidRoutes(r.routes), PairOf)
    ensures (a, b) in DayOf(r).routes <==>
      exists route | route in r.routes :: route.valid && route.origin == a && route.destination == b
    ensures forall route | route in r.routes && route.valid && route.origin == a && route.destination == b ::
      (a, b) in DayOf(r).routes && DayOf(r).routes[(a, b)] == route
  {
    hide TableBy, UniqueBy, ValidRoutes;
    var valid := ValidRoutes(r.routes);
    TableKey(valid, PairOf, (a, b));
    KeyOfMember(valid, PairOf, (a, b));
    TableLooksUp(valid, PairOf);
    forall route ensures route in valid <==> route in r.routes && route.valid {
      ValidRoutesMean(r.routes, route);
    }
    forall route | route in r.routes && route.valid && route.origin == a && route.destination == b
      ensures (a, b) in DayOf(r).routes && DayOf(r).routes[(a, b)] == route
    {
      assert PairOf(route) == (a, b);
    }
  }

  /** The availability of a vehicle is the last one listed for it. */
  lemma {:induction false} DayVehicles(r: Request, id: string)
    ensures id in DayOf(r).vehicles <==> exists v | v in r.vehicles :: v.id == id
    ensures id in DayOf(r).vehicles ==> exists i | 0 <= i < |r.vehicles| ::
      && r.vehicles[i] == DayOf(r).vehicles[id] && r.vehicles[i].id == id
      && forall j | i < j < |r.vehicles| :: r.vehicles[j].id != id
  {
    hide TableBy;
    TableKey(r.vehicles, VehicleId, id);
    KeyOfMember(r.vehicles, VehicleId, id);
    if id in TableBy(r.vehicles, VehicleId) {
      TableHoldsLast(r.vehicles, VehicleId, id);
      var i: nat :| i < |r.vehicles| && r.vehicles[i] == TableBy(r.vehicles, VehicleId)[id]
        && IsLast(r.vehicles, VehicleId, i, id);
      assert forall j | i < j < |r.vehicles| :: VehicleId(r.vehicles[j]) != id;
    }
  }

  // ---------------------------------------------------------------- refusals

  /** The last job listed under the assignment's id has a confirmed address with coordinates. */
  ghost predicate CanBeReached(r: Request, a: Assignment) {
    exists i | 0 <= i < |r.jobs| ::
      && r.jobs[i].id == a.jobId && r.jobs[i].addressConfirmed && r.jobs[i].hasCoordinates
      && forall j | i < j < |r.jobs| :: r.jobs[j].id != a.jobId
  }

  /** Two valid routes are listed between the same jobs. */
  ghost predicate AmbiguousRoutes(r: Request) {
    exists i, j | 0 <= i < j < |ValidRoutes(r.routes)| ::
      && ValidRoutes(r.routes)[i].origin == ValidRoutes(r.routes)[j].origin
      && ValidRoutes(r.routes)[i].destination == ValidRoutes(r.routes)[j].destination
  }

  /** Some open assignment is under way, belongs to another worker, cannot be reached, or needs a skill. */
  ghost predicate SomeUnderWay(r: Request) {
    exists a | a in r.assignments :: IsOpen(r, a) && a.status == InProgress
  }

  ghost predicate SomeOfAnotherWorker(r: Request) {
    exists a | a in r.assignments :: IsOpen(r, a) && a.workerId != r.worker.id
  }

  ghost predicate SomeOutOfReach(r: Request) {
    exists a | a in r.assignments :: IsOpen(r, a) && !CanBeReached(r, a)
  }

  ghost predicate SomeBeyondSkill(r: Request) {
    exists a, skill | a in r.assignments && skill in a.skills :: IsOpen(r, a) && skill !in r.worker.skills
  }

  /** The ground that each refusal of a request names. */
  ghost predicate IsGround(r: Request, reason: Reason) {
    match reason
    case NoUnfinishedTasks => forall a | a in r.assignments :: !IsOpen(r, a)
    case BoundedPlannerLimit => |Candidates(r)| >= 4
    case InProgressImmovable => SomeUnderWay(r)
    case WorkerReassignmentForbidden => SomeOfAnotherWorker(r)
    case AddressNotConfirmed => SomeOutOfReach(r)
    case AssignedWorkerMissingSkill => SomeBeyondSkill(r)
    case AmbiguousRouteSnapshot => AmbiguousRoutes(r)
    case _ => false
  }

  /** The order in which the grounds are looked at. */
  const GROUNDS := [
    NoUnfinishedTasks, BoundedPlannerLimit, InProgressImmovable, WorkerReassignmentForbidden, AddressNotConfirmed,
    AssignedWorkerMissingSkill, AmbiguousRouteSnapshot]

  lemma {:induction false} ReachMeans(r: Request, a: Assignment)
    ensures Located(r, a) <==> CanBeReached(r, a)
  {
    hide TableBy;
    TableKey(r.jobs, JobId, a.jobId);
    if a.jobId in TableBy(r.jobs, JobId) {
      TableHoldsLast(r.jobs, JobId, a.jobId);
      var i: nat :| i < |r.jobs| && r.jobs[i] == TableBy(r.jobs, JobId)[a.jobId]
        && IsLast(r.jobs, JobId, i, a.jobId);
      assert forall j | i < j < |r.jobs| :: JobId(r.jobs[j]) != a.jobId;
      assert forall j | 0 <= j < |r.jobs| && r.jobs[j].id == a.jobId :: j <= i;
    } else {
      assert forall i | 0 <= i < |r.jobs| :: JobId(r.jobs[i]) != a.jobId;
    }
  }

  lemma {:induction false} AmbiguityMeans(r: Request)
    ensures UniqueBy(ValidRoutes(r.routes), PairOf) <==> !AmbiguousRoutes(r)
  {
    hide ValidRoutes;
    var valid := ValidRoutes(r.routes);
    if AmbiguousRoutes(r) {
      var i, j :| 0 <= i < j < |valid| && valid[i].origin == valid[j].origin
        && valid[i].destination == valid[j].destination;
      assert PairOf(valid[i]) == PairOf(valid[j]);
    }
  }

  lemma {:induction false} GroundsMean(r: Request)
    ensures Candidates(r) == [] <==> IsGround(r, NoUnfinishedTasks)
    ensures (exists a | a in Candidates(r) :: a.status.InProgress?) <==> SomeUnderWay(r)
    ensures (exists a | a in Candidates(r) :: a.workerId != r.worker.id) <==> SomeOfAnotherWorker(r)
    ensures (exists a | a in Candidates(r) :: !Located(r, a)) <==> SomeOutOfReach(r)
    ensures (exists a | a in Candidates(r) :: !(a.skills <= r.worker.skills)) <==> SomeBeyondSkill(r)
    ensures UniqueBy(ValidRoutes(r.routes), PairOf) <==> !AmbiguousRoutes(r)
  {
    AmbiguityMeans(r);
    hide Candidates, IsOpen, Located, CanBeReached, UniqueBy, AmbiguousRoutes;
    assert Candidates(r) != [] ==> Candidates(r)[0] in Candidates(r);
    forall a
      ensures a in Candidates(r) <==> a in r.assignments && IsOpen(r, a)
      ensures Located(r, a) <==> CanBeReached(r, a)
    {
      CandidatesAreOpen(r, a);
      ReachMeans(r, a);
    }
    forall a: Assignment
      ensures a.skills <= r.worker.skills <==> forall skill | skill in a.skills :: skill in r.worker.skills
    {}
  }

  /** Nothing is refused without a ground, and the ground that is named is the first. */
  lemma {:induction false} RefusalNamesFirstGround(r: Request) returns (k: nat)
    ensures k <= |GROUNDS| && forall j | 0 <= j < k :: !IsGround(r, GROUNDS[j])
    ensures if k == |GROUNDS| then Refusal(r).None? else IsGround(r, GROUNDS[k]) && Refusal(r) == Some(GROUNDS[k])
  {
    GroundsMean(r);
    hide Candidates, IsOpen, Located, UniqueBy, SomeUnderWay, SomeOfAnotherWorker, SomeOutOfReach, SomeBeyondSkill,
      AmbiguousRoutes;
    if Refusal(r).None? {
      k := 7;
    } else {
      k := match Refusal(r).value
        case NoUnfinishedTasks => 0 case BoundedPlannerLimit => 1 case InProgressImmovable => 2
        case WorkerReassignmentForbidden => 3 case AddressNotConfirmed => 4 case AssignedWorkerMissingSkill => 5
        case _ => 6;
    }
  }

  // ---------------------------------------------------------------- what a proposal contains

  /** Each of the identifiers once, in the order of their characters. */
  ghost predicate InOrder(s: seq<string>) {
    forall i, j | 0 <= i < j < |s| :: ComesBefore(s[i], s[j])
  }

  lemma {:induction false} ListedInOrder(s: seq<string>, elements: set<string>)
    requires ListsSorted(s, elements)
    ensures InOrder(s) && forall x :: x in s <==> x in elements
  {
    NoRepeats(s, elements);
    forall x ensures x in s <==> x in elements {
      assert x in s <==> x in multiset(s);
    }
    forall i, j | 0 <= i < j < |s| ensures ComesBefore(s[i], s[j]) {
      StringLeqMeans(s[i], s[j]);
    }
  }

  /** Some candidate of this job, or of this workflow, is moved. */
  ghost predicate MovesJob(r: Request, p: Proposal, jobId: string) {
    exists a | a in Candidates(r) :: a.id in p.affectedAssignments && a.jobId == jobId
  }

  ghost predicate MovesWorkflow(r: Request, p: Proposal, workflowId: string) {
    exists a | a in Candidates(r) :: a.id in p.affectedAssignments && a.workflowId == workflowId
  }

  /** A proposal lists exactly the jobs, workflows and revisions of what it moves and the material of its jobs. */
  lemma {:induction false} ProposalLists(r: Request, naming: Naming, best: Candidate, p: Proposal)
    requires IsProposal(r, naming, best, p)
    ensures InOrder(p.affectedJobs) && forall job :: job in p.affectedJobs <==> MovesJob(r, p, job)
    ensures InOrder(p.affectedWorkflows) && forall w :: w in p.affectedWorkflows <==> MovesWorkflow(r, p, w)
    ensures forall w, revision: nat :: (w, revision) in p.expectedWorkflowRevisions <==>
      w in p.affectedWorkflows && w in r.workflowRevisions && r.workflowRevisions[w] == revision
    ensures forall m :: m in p.materialReferences <==> exists material | material in r.materials ::
      material.jobId in p.affectedJobs && m.jobId == material.jobId && m.taskId == material.taskId
        && m.revision == material.revision
  {
    hide Candidates, Moved, ConfirmedSchedule, FindOrder, Evaluated, Sort, RevisionsAmong, ListsSorted, PayloadOf,
      InOrder;
    var cs := Candidates(r);
    ListedInOrder(p.affectedJobs, AffectedJobs(cs, p.affectedAssignments));
    ListedInOrder(p.affectedWorkflows, AffectedWorkflows(cs, p.affectedAssignments));
    forall w, revision: nat ensures (w, revision) in p.expectedWorkflowRevisions <==>
      w in p.affectedWorkflows && w in r.workflowRevisions && r.workflowRevisions[w] == revision
    {
      if w in p.affectedWorkflows {
        var i :| 0 <= i < |p.affectedWorkflows| && p.affectedWorkflows[i] == w;
        assert p.expectedWorkflowRevisions[i] == (w, r.workflowRevisions[w]);
      }
    }
  }

  /** The figures before are those of the confirmed order, or -1 without a schedule; those after are of the plan. */
  lemma {:induction false} ProposalFigures(r: Request, naming: Naming, best: Candidate, p: Proposal)
    requires IsProposal(r, naming, best, p) && UniqueBy(Candidates(r), IdOf)
    ensures p.status == PendingOwnerApproval && p.afterSchedule == best.placements
    ensures p.idleAfter == best.idle && p.travelAfter == best.travel && p.conditional == best.conditional
    ensures var confirmed := Evaluate(DayOf(r), Sort(Candidates(r), ByStart));
      && p.idleBefore == (if confirmed.Ok? then confirmed.value.idle else -1)
      && p.travelBefore == (if confirmed.Ok? then confirmed.value.travel else -1)
  {
    BaselineIsConfirmedOrder(r);
    hide Candidates, UniqueBy, Moved, Evaluated, FindOrder, Evaluate, Sort, RevisionsAmong, ListsSorted, PayloadOf,
      ConfirmedSchedule;
  }

  /** The expected revisions of assignments are listed by their identifiers. */
  lemma {:induction false} RevisionsInOrder(r: Request, p: Proposal)
    requires p.expectedCalendarRevisions == Sort(RevisionsAmong(Candidates(r), p.affectedAssignments), RevisionLeq)
    ensures forall i, j | 0 <= i < j < |p.expectedCalendarRevisions| ::
      || ComesBefore(p.expectedCalendarRevisions[i].0, p.expectedCalendarRevisions[j].0)
      || (p.expectedCalendarRevisions[i].0 == p.expectedCalendarRevisions[j].0
          && p.expectedCalendarRevisions[i].1 <= p.expectedCalendarRevisions[j].1)
  {
    hide Candidates, RevisionsAmong, Sort;
    RevisionsAreOrdered();
    SortSorts(RevisionsAmong(Candidates(r), p.affectedAssignments), RevisionLeq);
    var listed := p.expectedCalendarRevisions;
    forall i, j | 0 <= i < j < |listed|
      ensures ComesBefore(listed[i].0, listed[j].0)
        || (listed[i].0 == listed[j].0 && listed[i].1 <= listed[j].1)
    {
      assert RevisionLeq(listed[i], listed[j]);
      StringLeqMeans(listed[i].0, listed[j].0);
    }
  }

  /** The confirmed order is that of the confirmed starts, and of the identifiers among equal starts. */
  lemma {:induction false} ConfirmedInOrder(r: Request, i: nat, j: nat)
    requires i < j < |ConfirmedSchedule(Candidates(r))|
    ensures var p, q := ConfirmedSchedule(Candidates(r))[i], ConfirmedSchedule(Candidates(r))[j];
      || p.start < q.start
      || (p.start == q.start && (p.assignmentId == q.assignmentId || ComesBefore(p.assignmentId, q.assignmentId)))
  {
    hide Candidates, Sort;
    var sorted := Sort(Candidates(r), ByStart);
    StartIsTotal();
    SortSorts(Candidates(r), ByStart);
    StringLeqMeans(sorted[i].id, sorted[j].id);
  }

  /** The confirmed schedule holds every candidate at its confirmed times. */
  lemma {:induction false} ConfirmedAsBooked(r: Request, i: nat)
    requires i < |ConfirmedSchedule(Candidates(r))|
    ensures |ConfirmedSchedule(Candidates(r))| == |Candidates(r)|
    ensures exists a | a in Candidates(r) :: var p := ConfirmedSchedule(Candidates(r))[i];
      && p.assignmentId == a.id && p.jobId == a.jobId && p.taskId == a.taskId && p.workerId == a.workerId
      && p.vehicleId == a.vehicleId && p.start == a.start && p.end == a.end
  {
    hide Candidates, Sort;
    SortPermutes(Candidates(r), ByStart);
    assert Sort(Candidates(r), ByStart)[i] in Candidates(r);
  }

  lemma {:induction false} SameTimetable(a: seq<Placement>, b: seq<Placement>)
    requires Timetable(a) == Timetable(b)
    ensures |a| == |b|
    ensures forall i | 0 <= i < |a| ::
      a[i].assignmentId == b[i].assignmentId && a[i].start == b[i].start && a[i].end == b[i].end
  {
    assert |Timetable(a)| == |a| && |Timetable(b)| == |b|;
    forall i | 0 <= i < |a|
      ensures a[i].assignmentId == b[i].assignmentId && a[i].start == b[i].start && a[i].end == b[i].end
    {
      assert Timetable(a)[i] == Timed(a[i].assignmentId, a[i].start, a[i].end);
      assert Timetable(b)[i] == Timed(b[i].assignmentId, b[i].start, b[i].end);
    }
  }

  /** Two proposals with one fingerprint content agree in everything they would do. */
  lemma {:induction false} FingerprintCoversContent(p: Proposal, q: Proposal)
    requires PayloadOf(p) == PayloadOf(q)
    ensures p.initiatingWorkflow == q.initiatingWorkflow && p.affectedJobs == q.affectedJobs
    ensures p.affectedWorkflows == q.affectedWorkflows && p.affectedAssignments == q.affectedAssignments
    ensures p.expectedWorkflowRevisions == q.expectedWorkflowRevisions
    ensures p.expectedCalendarRevisions == q.expectedCalendarRevisions
    ensures p.materialReferences == q.materialReferences && p.routeReferences == q.routeReferences
    ensures |p.beforeSchedule| == |q.beforeSchedule| && |p.afterSchedule| == |q.afterSchedule|
    ensures forall i | 0 <= i < |p.beforeSchedule| ::
      var a, b := p.beforeSchedule[i], q.beforeSchedule[i];
      a.assignmentId == b.assignmentId && a.start == b.start && a.end == b.end
    ensures forall i | 0 <= i < |p.afterSchedule| ::
      var a, b := p.afterSchedule[i], q.afterSchedule[i];
      a.assignmentId == b.assignmentId && a.start == b.start && a.end == b.end
  {
    SameTimetable(p.beforeSchedule, q.beforeSchedule);
    SameTimetable(p.afterSchedule, q.afterSchedule);
    hide Timetable;
  }
}
