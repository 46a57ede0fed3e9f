/** Two planner proposals for the same worker and day that can both be approved, and leave the worker in two places: the
    input on which the approved calendar overlaps without any row outside the plans. */
module RivalPlans {
  import opened Prelude
  import opened DispatchModels
  import opened Planner
  import opened DailyPlan
  import opened PlanProperties
  import opened ReplanStore
  import opened ReplanRuns
  import opened PlanApplied

  // ---------------------------------------------------------------- a day with one late delivery

  /** Nine seconds of work, without vehicle or deadline. */
  ghost predicate ShortVisit(a: Assignment) {
    a.Duration() == 9 && a.vehicleId.None? && a.hardDeadline.None?
  }

  ghost predicate Arrives(day: Day, a: Assignment, at: int) {
    && (a.jobId, a.taskId) in day.materials
    && var m := day.materials[(a.jobId, a.taskId)]; m.blocking && m.status.Expected? && m.availableAt == Some(at)
  }

  /** The first visit can stay where it is, the last one must wait for 20, as confirmed, and the late one for 30. */
  ghost predicate LateDelivery(day: Day, first: Assignment, last: Assignment, late: Assignment) {
    && ShortVisit(first) && ShortVisit(last) && ShortVisit(late)
    && day.start == first.start && 0 <= first.start <= 10 && last.start == 20 && 0 <= late.start < 20
    && first.jobId != last.jobId && last.jobId != late.jobId
    && MaterialAllows(day, first, first.start) && Arrives(day, last, 20) && Arrives(day, late, 30)
    && (first.jobId, last.jobId) in day.routes && day.routes[(first.jobId, last.jobId)].travelSeconds == 1
    && (last.jobId, late.jobId) in day.routes && day.routes[(last.jobId, late.jobId)].travelSeconds == 1
    && day.end == 100 && Window(0, 100) in day.worker.availability
  }

  lemma {:induction false} EarliestWithLateDelivery(day: Day, first: Assignment, last: Assignment, late: Assignment)
    requires LateDelivery(day, first, last, late)
    ensures Earliest(day, [first, last, late], [first.start, 20, 30])
    ensures Possible(day, [first, last, late], [first.start, 20, 30])
  {
    var o, starts := [first, last, late], [first.start, 20, 30];
    forall other | RespectsBounds(day, o, other) ensures NowhereLater(starts, other) {
      assert MaterialAllows(day, o[1], other[1]) && MaterialAllows(day, o[2], other[2]);
    }
  }

  ghost predicate IsLateMorning(r: Request, first: Assignment, last: Assignment, late: Assignment) {
    && ValidWorkday(r) && Refusal(r).None? && LateDelivery(DayOf(r), first, last, late)
    && multiset(Candidates(r)) == multiset([first, last, late]) && UniqueBy(Candidates(r), IdOf)
    && first.id != last.id && last.id != late.id && first.id != late.id
    && forall a | a in Candidates(r) :: a.workflowId in r.workflowRevisions && r.workflowRevisions[a.workflowId] == 0
  }

  lemma {:induction false} MembersOfMorning(r: Request, first: Assignment, last: Assignment, late: Assignment)
    requires IsLateMorning(r, first, last, late)
    ensures forall a :: a in Candidates(r) <==> a == first || a == last || a == late
    ensures |Candidates(r)| == 3
  {
    hide Candidates, LateDelivery, Refusal, UniqueBy, DayOf;
    SameMembers(Candidates(r), [first, last, late]);
  }

  lemma {:induction false} OnlyElement(s: seq<string>, x: string)
    requires x in s && (forall y | y in s :: y == x) && forall i, j | 0 <= i < j < |s| :: s[i] != s[j]
    ensures s == [x]
  {
    var n := |s| - 1;
    assert s[0] in s && s[n] in s;
  }

  lemma {:induction false} MovedOnce(r: Request, o: seq<Assignment>, c: Candidate, k: nat)
    requires Schedules(r, o, c) && UniqueBy(Candidates(r), IdOf) && k < |o| && |c.placements| == |o|
    requires forall i | 0 <= i < |o| :: TimesDiffer(c.placements[i], o[i]) <==> i == k
    ensures c.changed == 1 && Moved(c.placements, Candidates(r)) == [o[k].id]
  {
    hide Evaluate, Candidates, UniqueBy, DayOf, TotalChanged, Moved, TimesDiffer;
    ScheduleMoves(r, o, c);
    var moved := Moved(c.placements, Candidates(r));
    SchedulePlaces(r, o, c);
    SameMembers(o, Candidates(r));
    MovedAreTheChanged(c.placements, o, Candidates(r));
    assert o[k].id in moved;
    OnlyElement(moved, o[k].id);
  }

  /** The planned order moves only the late visit, to 30. */
  lemma {:induction false} PlannedMorning(r: Request, first: Assignment, last: Assignment, late: Assignment)
    returns (best: Candidate)
    requires IsLateMorning(r, first, last, late)
    ensures Schedules(r, [first, last, late], best) && Starts(best.placements) == [first.start, 20, 30]
    ensures best.changed == 1 && Moved(best.placements, Candidates(r)) == [late.id]
  {
    hide Evaluate, Candidates, Refusal, UniqueBy, DayOf, TotalChanged, Moved;
    var o, starts := [first, last, late], [first.start, 20, 30];
    EarliestWithLateDelivery(DayOf(r), first, last, late);
    best := TakenSchedule(r, o, starts);
    SchedulePlaces(r, o, best);
    forall i | 0 <= i < 3 ensures TimesDiffer(best.placements[i], o[i]) <==> i == 2 {
      assert best.placements[i].start == starts[i];
      assert best.placements[i] == PlacedAt(o[i], starts[i]);
    }
    MovedOnce(r, o, best, 2);
  }

  lemma {:induction false} SamePosition(o: seq<Assignment>, i: nat, j: nat)
    requires UniqueBy(o, IdOf) && i < |o| && j < |o| && o[i].id == o[j].id
    ensures i == j
  {
    assert IdOf(o[i]) == IdOf(o[j]);
  }

  /** A visit whose start is not its confirmed one is moved, and conversely. */
  lemma {:induction false} MovedMeans(r: Request, o: seq<Assignment>, c: Candidate, i: nat)
    requires Schedules(r, o, c) && UniqueBy(Candidates(r), IdOf) && i < |o|
    ensures |Starts(c.placements)| == |o|
    ensures o[i].id in Moved(c.placements, Candidates(r)) <==> Starts(c.placements)[i] != o[i].start
  {
    hide Evaluate, Candidates, UniqueBy, DayOf, TotalChanged, Moved;
    ScheduleMoves(r, o, c);
    SchedulePlaces(r, o, c);
    if o[i].id in Moved(c.placements, Candidates(r)) {
      var j :| 0 <= j < |o| && o[j].id == o[i].id && TimesDiffer(c.placements[j], o[j]);
      SamePosition(o, i, j);
    }
    assert c.placements[i] == PlacedAt(o[i], c.placements[i].start);
  }

  lemma {:induction false} LateStart(day: Day, o: seq<Assignment>, starts: seq<int>, k: nat, at: int)
    requires RespectsBounds(day, o, starts) && k < |o| && Arrives(day, o[k], at)
    ensures starts[k] >= at
  {
    assert MaterialAllows(day, o[k], starts[k]);
  }

  lemma {:induction false} InPlace(o: seq<Assignment>, starts: seq<int>, i: nat, j: nat, k: nat)
    requires |o| == |starts| == 3 && i < 3 && j < 3 && k < 3 && starts[i] < starts[j] < starts[k]
    requires forall m, n | 0 <= m < n < 3 :: starts[m] < starts[n]
    ensures o == [o[i], o[j], o[k]]
  {}

  lemma {:induction false} BoundsOfPossible(day: Day, o: seq<Assignment>, starts: seq<int>)
    requires Possible(day, o, starts)
    ensures RespectsBounds(day, o, starts)
  {}

  lemma {:induction false} AtMostOne(s: seq<string>, x: string, y: string)
    requires |s| <= 1 && x in s && y != x
    ensures y !in s
  {}

  /** Every other order moves at least two visits. */
  lemma {:induction false} OtherOrdersMoveMore(
    r: Request, first: Assignment, last: Assignment, late: Assignment, o: seq<Assignment>, c: Candidate
  )
    requires IsLateMorning(r, first, last, late) && Schedules(r, o, c) && c.changed <= 1
    ensures o == [first, last, late]
  {
    MembersOfMorning(r, first, last, late);
    SchedulePlaces(r, o, c);
    ScheduleMoves(r, o, c);
    hide Schedules, Candidates, Refusal, UniqueBy, DayOf, Moved, PlacesInOrder, RespectsBounds, Possible, KeepsTimes,
      TimesDiffer;
    var moved, starts := Moved(c.placements, Candidates(r)), Starts(c.placements);
    BoundsOfPossible(DayOf(r), o, starts);
    ScheduleRearranges(r, o, c);
    SameMembers(o, Candidates(r));
    StartsIncrease(DayOf(r), o, starts);
    var i: nat :| i < |o| && o[i] == first;
    var j: nat :| j < |o| && o[j] == last;
    var k: nat :| k < |o| && o[k] == late;
    LateStart(DayOf(r), o, starts, k, 30);
    MovedMeans(r, o, c, i);
    MovedMeans(r, o, c, j);
    MovedMeans(r, o, c, k);
    AtMostOne(moved, late.id, first.id);
    AtMostOne(moved, late.id, last.id);
    InPlace(o, starts, i, j, k);
  }

  // ---------------------------------------------------------------- what the planner answers

  /** A pending proposal that moves exactly this visit to 30. */
  ghost predicate MovesToThirty(p: Proposal, late: Assignment) {
    && p.status == PendingOwnerApproval && p.initiatingWorkflow == late.workflowId
    && ExpectedRevisions(p.expectedCalendarRevisions) == map[late.id := (late.id, late.revision)]
    && ExpectedRevisions(p.expectedWorkflowRevisions) == map[late.workflowId := (late.workflowId, 0)]
    && late.id in AfterById(p) && AfterById(p)[late.id].start == 30 && AfterById(p)[late.id].end == 39
  }

  lemma {:induction false} ChosenMorning(
    r: Request, first: Assignment, last: Assignment, late: Assignment, best: Candidate, chosen: Candidate
  )
    requires IsLateMorning(r, first, last, late) && Schedules(r, [first, last, late], best) && best.changed == 1
    requires Chosen(r, chosen)
    ensures chosen == best
  {
    hide Evaluate, Candidates, Refusal, UniqueBy, DayOf, Moved, Chosen;
    ChosenIsMinimum(r, chosen);
    var o :| Schedules(r, o, chosen);
    OtherOrdersMoveMore(r, first, last, late, o, chosen);
  }

  lemma {:induction false} OrderDiffers(r: Request, first: Assignment, last: Assignment, late: Assignment)
    requires IsLateMorning(r, first, last, late)
    ensures [first, last, late] != Sort(Candidates(r), ByStart)
  {
    hide Candidates, Refusal, UniqueBy, DayOf, Sort;
    StartIsTotal();
    SortSorts(Candidates(r), ByStart);
    assert !ByStart([first, last, late][1], [first, last, late][2]);
  }

  lemma {:induction false} PlanChooses(r: Request, naming: Naming, result: Result<PlanResult, PlanError>)
    returns (chosen: Candidate)
    requires IsPlan(r, naming, result) && ValidWorkday(r) && Refusal(r).None? && Evaluated(r) != []
    ensures Chosen(r, chosen) && Concludes(r, naming, chosen, result)
  {
    hide Refusal, Evaluated, Chosen, Concludes, Evaluate, Candidates;
    chosen :| Chosen(r, chosen) && Concludes(r, naming, chosen, result);
  }

  lemma {:induction false} ConcludesProposal(
    r: Request, naming: Naming, best: Candidate, result: Result<PlanResult, PlanError>
  )
    requires Concludes(r, naming, best, result)
    requires Ids(best.placements) != Ids(ConfirmedSchedule(Candidates(r)))
    requires forall a | a in Candidates(r) :: a.workflowId in r.workflowRevisions
    ensures result.Ok? && result.value.ProposalCreated? && IsProposal(r, naming, best, result.value.proposal)
  {
    hide IsProposal, Candidates, ConfirmedSchedule, Moved;
  }

  /** The planner proposes to move the late visit. */
  lemma {:induction false} MorningIsReplanned(
    r: Request, first: Assignment, last: Assignment, late: Assignment, naming: Naming,
    result: Result<PlanResult, PlanError>
  ) returns (best: Candidate)
    requires IsLateMorning(r, first, last, late) && IsPlan(r, naming, result)
    ensures result.Ok? && result.value.ProposalCreated?
    ensures Schedules(r, [first, last, late], best) && Starts(best.placements) == [first.start, 20, 30]
    ensures IsProposal(r, naming, best, result.value.proposal)
    ensures Moved(best.placements, Candidates(r)) == [late.id]
  {
    best := PlannedMorning(r, first, last, late);
    OrderDiffers(r, first, last, late);
    ScheduleIsEvaluated(r, [first, last, late], best);
    SchedulePlaces(r, [first, last, late], best);
    hide Schedules, Candidates, Refusal, UniqueBy, DayOf, Moved, Chosen, Sort, Evaluated, LateDelivery, IsProposal,
      ConfirmedSchedule, Possible, Earliest, IsPlan, Concludes;
    var chosen := PlanChooses(r, naming, result);
    ChosenMorning(r, first, last, late, best, chosen);
    PlannedIds([first, last, late], best.placements, Candidates(r));
    ConcludesProposal(r, naming, best, result);
  }

  lemma {:induction false} OneRevision(pairs: seq<(string, nat)>, id: string, revision: nat)
    requires forall k: string, v: nat :: (k, v) in pairs <==> k == id && v == revision
    ensures ExpectedRevisions(pairs) == map[id := (id, revision)]
  {
    hide TableBy;
    forall k ensures k in TableBy(pairs, First) <==> k == id {
      TableKey(pairs, First, k);
      if k == id {
        assert (id, revision) in pairs;
        var i :| 0 <= i < |pairs| && pairs[i] == (id, revision);
        assert First(pairs[i]) == id;
      }
    }
    TableHolds(pairs, First, id);
    var found := TableBy(pairs, First)[id];
    assert (found.0, found.1) in pairs;
  }

  lemma {:induction false} OnlyListed(s: seq<string>, elements: set<string>, x: string)
    requires ListsSorted(s, elements) && elements == {x}
    ensures s == [x]
  {
    assert multiset(s) == multiset{x};
    assert |s| == |multiset(s)| == 1;
    assert s[0] in multiset(s);
  }

  lemma {:induction false} CalendarRevisionOfLate(r: Request, p: Proposal, late: Assignment)
    requires UniqueBy(Candidates(r), IdOf) && late in Candidates(r) && p.affectedAssignments == [late.id]
    requires p.expectedCalendarRevisions == Sort(RevisionsAmong(Candidates(r), p.affectedAssignments), RevisionLeq)
    ensures ExpectedRevisions(p.expectedCalendarRevisions) == map[late.id := (late.id, late.revision)]
  {
    hide Candidates, UniqueBy, Sort, RevisionsAmong, ExpectedRevisions;
    ProposalRevisions(r, p);
    assert late.id in p.affectedAssignments;
    forall id, revision: nat
      ensures (id, revision) in p.expectedCalendarRevisions <==> id == late.id && revision == late.revision
    {
      if (id, revision) in p.expectedCalendarRevisions {
        var a :| a in Candidates(r) && a.id == id && a.revision == revision && id in p.affectedAssignments;
        SameItem(Candidates(r), a, late, IdOf);
      }
    }
    OneRevision(p.expectedCalendarRevisions, late.id, late.revision);
  }

  lemma {:induction false} WorkflowRevisionOfLate(
    r: Request, naming: Naming, best: Candidate, p: Proposal, late: Assignment
  )
    requires IsProposal(r, naming, best, p) && UniqueBy(Candidates(r), IdOf) && late in Candidates(r)
    requires Moved(best.placements, Candidates(r)) == [late.id]
    requires late.workflowId in r.workflowRevisions && r.workflowRevisions[late.workflowId] == 0
    ensures ExpectedRevisions(p.expectedWorkflowRevisions) == map[late.workflowId := (late.workflowId, 0)]
  {
    hide Candidates, UniqueBy, Sort, RevisionsAmong, ExpectedRevisions, PayloadOf, ConfirmedSchedule, FindOrder,
      Evaluated, Moved, ListsSorted;
    var cs := Candidates(r);
    forall x ensures x in AffectedWorkflows(cs, [late.id]) <==> x == late.workflowId {
      if x in AffectedWorkflows(cs, [late.id]) {
        var a :| a in cs && a.id in [late.id] && a.workflowId == x;
        SameItem(cs, a, late, IdOf);
      }
      assert late.id in [late.id];
    }
    assert AffectedWorkflows(cs, [late.id]) == {late.workflowId};
    OnlyListed(p.affectedWorkflows, AffectedWorkflows(cs, [late.id]), late.workflowId);
    assert p.expectedWorkflowRevisions == [(late.workflowId, 0)];
    OneRevision(p.expectedWorkflowRevisions, late.workflowId, 0);
  }

  lemma {:induction false} PlacementOfLate(
    r: Request, first: Assignment, last: Assignment, late: Assignment, best: Candidate, p: Proposal
  )
    requires IsLateMorning(r, first, last, late) && Schedules(r, [first, last, late], best)
    requires Starts(best.placements) == [first.start, 20, 30] && p.afterSchedule == best.placements
    ensures late.id in AfterById(p) && AfterById(p)[late.id].start == 30 && AfterById(p)[late.id].end == 39
  {
    hide Candidates, UniqueBy, Refusal, DayOf, TableBy, Evaluate, Possible, Earliest;
    SchedulePlaces(r, [first, last, late], best);
    UniqueRearranged(Candidates(r), [first, last, late], IdOf);
    PlacementIdsAreUnique(best.placements, [first, last, late]);
    TableLooksUp(p.afterSchedule, PlacementId);
    assert p.afterSchedule[2] in p.afterSchedule && PlacementId(p.afterSchedule[2]) == late.id;
    assert p.afterSchedule[2] == PlacedAt(late, 30);
  }

  lemma {:induction false} LateVisitMovesToThirty(
    r: Request, first: Assignment, last: Assignment, late: Assignment, naming: Naming,
    result: Result<PlanResult, PlanError>
  )
    requires IsLateMorning(r, first, last, late) && IsPlan(r, naming, result) && r.initiatingWorkflow == late.workflowId
    ensures result.Ok? && result.value.ProposalCreated? && MovesToThirty(result.value.proposal, late)
    ensures result.value.proposal.id == naming.proposalIdOf(result.value.proposal.fingerprint)
  {
    var best := MorningIsReplanned(r, first, last, late, naming, result);
    var p := result.value.proposal;
    MembersOfMorning(r, first, last, late);
    hide Candidates, UniqueBy, Sort, RevisionsAmong, ExpectedRevisions, AfterById, IsPlan, PayloadOf, ConfirmedSchedule,
      FindOrder, Evaluated, Moved, Schedules, Refusal, DayOf;
    CalendarRevisionOfLate(r, p, late);
    WorkflowRevisionOfLate(r, naming, best, p, late);
    PlacementOfLate(r, first, last, late, best, p);
  }

  // ---------------------------------------------------------------- the input

  /** A visit of nine seconds, in a job and workflow of its own. */
  function Visit(name: string, start: int): Assignment {
    AssignmentRecord.Assignment(name, name, name, name, "", {}, None, start, start + 9, None, Confirmed, 0)
  }

  function Delivery(a: Assignment, at: Option<int>): Material {
    MaterialRecord.Material(a.jobId, a.taskId, if at.Some? then Expected else Ready, at, true, 0)
  }

  function Drive(from: string, to: string): Route {
    Route("", from, to, 1, true)
  }

  /** The drives between any two of three jobs. */
  function Drives(x: string, y: string, z: string): seq<Route> {
    [Drive(x, y), Drive(y, x), Drive(x, z), Drive(z, x), Drive(y, z), Drive(z, y)]
  }

  function SomeDay(at: int): int { 0 }

  /** A request at the start of the first visit, with one second's drive between any two of the three visits; the last
      visit's material arrives at 20 and the late one's at 30. */
  function Morning(rows: seq<Assignment>, first: Assignment, last: Assignment, late: Assignment): Request {
    Request(late.workflowId, 0, first.start, 0, 100, 0, SomeDay,
            [Job(first.jobId, true, true), Job(last.jobId, true, true), Job(late.jobId, true, true)],
            map[first.workflowId := 0, last.workflowId := 0, late.workflowId := 0], rows,
            [Delivery(first, None), Delivery(last, Some(20)), Delivery(late, Some(30))],
            Drives(first.jobId, last.jobId, late.jobId), Worker("", {}, [Window(0, 100)]), [])
  }

  lemma {:induction false} EveryRowIsCandidate(r: Request, rows: seq<Assignment>)
    requires r.localDate == SomeDay && r.planningDate == 0 && forall a | a in rows :: a.status.Confirmed?
    ensures CandidatesAmong(r, rows) == rows
  {
    if rows != [] {
      var n := |rows| - 1;
      EveryRowIsCandidate(r, rows[..n]);
      assert rows[n] in rows && rows == rows[..n] + [rows[n]];
    }
  }

  lemma {:induction false} EveryRouteIsValid(routes: seq<Route>)
    requires forall x | x in routes :: x.valid
    ensures ValidRoutes(routes) == routes
  {
    if routes != [] {
      var n := |routes| - 1;
      EveryRouteIsValid(routes[..n]);
      assert routes[n] in routes && routes == routes[..n] + [routes[n]];
    }
  }

  lemma {:induction false} DrivesDiffer(x: string, y: string, z: string)
    requires x != y && y != z && x != z
    ensures UniqueBy(Drives(x, y, z), PairOf) && forall d | d in Drives(x, y, z) :: d.valid
    ensures Drive(x, y) in Drives(x, y, z) && Drive(y, z) in Drives(x, y, z)
  {
    var drives := Drives(x, y, z);
    assert drives[0] == Drive(x, y) && drives[4] == Drive(y, z);
  }

  lemma {:induction false} RoutesOfMorning(rows: seq<Assignment>, first: Assignment, last: Assignment, late: Assignment)
    requires first.jobId != last.jobId && last.jobId != late.jobId && first.jobId != late.jobId
    ensures var r := Morning(rows, first, last, late); UniqueBy(ValidRoutes(r.routes), PairOf)
    ensures var routes := DayOf(Morning(rows, first, last, late)).routes;
      && (first.jobId, last.jobId) in routes && routes[(first.jobId, last.jobId)].travelSeconds == 1
      && (last.jobId, late.jobId) in routes && routes[(last.jobId, late.jobId)].travelSeconds == 1
  {
    hide ValidRoutes, TableBy, Drives, UniqueBy;
    DrivesDiffer(first.jobId, last.jobId, late.jobId);
    EveryRouteIsValid(Drives(first.jobId, last.jobId, late.jobId));
    TableLooksUp(Drives(first.jobId, last.jobId, late.jobId), PairOf);
    assert PairOf(Drive(first.jobId, last.jobId)) == (first.jobId, last.jobId);
    assert PairOf(Drive(last.jobId, late.jobId)) == (last.jobId, late.jobId);
  }

  lemma {:induction false} MaterialsOfMorning(
    rows: seq<Assignment>, first: Assignment, last: Assignment, late: Assignment
  )
    requires first.jobId != last.jobId && last.jobId != late.jobId && first.jobId != late.jobId
    ensures var day := DayOf(Morning(rows, first, last, late));
      MaterialAllows(day, first, first.start) && Arrives(day, last, 20) && Arrives(day, late, 30)
  {
    var materials := Morning(rows, first, last, late).materials;
    hide ValidRoutes, TableBy;
    TableLooksUp(materials, TaskOf);
    assert materials[0] in materials && materials[1] in materials && materials[2] in materials;
  }

  lemma {:induction false} EveryJobIsLocated(
    rows: seq<Assignment>, first: Assignment, last: Assignment, late: Assignment
  )
    requires first.jobId != last.jobId && last.jobId != late.jobId && first.jobId != late.jobId
    ensures var r := Morning(rows, first, last, late); Located(r, first) && Located(r, last) && Located(r, late)
  {
    var jobs := Morning(rows, first, last, late).jobs;
    hide TableBy;
    TableLooksUp(jobs, JobId);
    assert jobs[0] in jobs && jobs[1] in jobs && jobs[2] in jobs;
  }

  /** Three visits in a row, of which the last stands at 20. */
  ghost predicate ThreeVisits(rows: seq<Assignment>, first: Assignment, last: Assignment, late: Assignment) {
    && first == Visit(first.id, first.start) && last == Visit(last.id, 20) && late == Visit(late.id, late.start)
    && first.id != last.id && last.id != late.id && first.id != late.id
    && 0 <= first.start <= 10 && 0 <= late.start < 20
    && multiset(rows) == multiset([first, last, late])
  }

  lemma {:induction false} ThreeIdsDiffer(x: Assignment, y: Assignment, z: Assignment)
    requires x.id != y.id && y.id != z.id && x.id != z.id
    ensures UniqueBy([x, y, z], IdOf)
  {}

  lemma {:induction false} VisitsAreConfirmed(
    rows: seq<Assignment>, first: Assignment, last: Assignment, late: Assignment
  )
    requires ThreeVisits(rows, first, last, late)
    ensures forall a | a in rows :: a.status.Confirmed? && a.workerId == "" && a.skills == {}
  {
    SameMembers(rows, [first, last, late]);
  }

  lemma {:induction false} RowsOfMorning(rows: seq<Assignment>, first: Assignment, last: Assignment, late: Assignment)
    requires ThreeVisits(rows, first, last, late)
    ensures Candidates(Morning(rows, first, last, late)) == rows && |rows| == 3 && UniqueBy(rows, IdOf)
    ensures forall a :: a in rows <==> a == first || a == last || a == late
  {
    hide UniqueBy, CandidatesAmong, Visit;
    SameMembers(rows, [first, last, late]);
    ThreeIdsDiffer(first, last, late);
    UniqueRearranged([first, last, late], rows, IdOf);
    VisitsAreConfirmed(rows, first, last, late);
    EveryRowIsCandidate(Morning(rows, first, last, late), rows);
  }

  lemma {:induction false} NothingRefuses(r: Request)
    requires 0 < |Candidates(r)| <= 3 && UniqueBy(ValidRoutes(r.routes), PairOf)
    requires forall a | a in Candidates(r) ::
      a.status.Confirmed? && a.workerId == r.worker.id && a.skills == {} && Located(r, a)
    ensures Refusal(r).None?
  {
    hide Candidates, UniqueBy, ValidRoutes, Located;
  }

  lemma {:induction false} MorningIsAccepted(
    rows: seq<Assignment>, first: Assignment, last: Assignment, late: Assignment
  )
    requires ThreeVisits(rows, first, last, late)
    ensures Refusal(Morning(rows, first, last, late)).None?
  {
    RowsOfMorning(rows, first, last, late);
    RoutesOfMorning(rows, first, last, late);
    EveryJobIsLocated(rows, first, last, late);
    VisitsAreConfirmed(rows, first, last, late);
    hide Candidates, UniqueBy, TableBy, ValidRoutes, Located, Visit, Drives, DayOf, Refusal;
    NothingRefuses(Morning(rows, first, last, late));
  }

  lemma {:induction false} MorningHasLateDelivery(
    rows: seq<Assignment>, first: Assignment, last: Assignment, late: Assignment
  )
    requires ThreeVisits(rows, first, last, late)
    ensures LateDelivery(DayOf(Morning(rows, first, last, late)), first, last, late)
  {
    RoutesOfMorning(rows, first, last, late);
    MaterialsOfMorning(rows, first, last, late);
    hide TableBy, ValidRoutes, MaterialAllows, Arrives, Drives;
    assert Morning(rows, first, last, late).worker.availability[0] == Window(0, 100);
  }

  lemma {:induction false} MorningIsLate(rows: seq<Assignment>, first: Assignment, last: Assignment, late: Assignment)
    requires ThreeVisits(rows, first, last, late)
    ensures IsLateMorning(Morning(rows, first, last, late), first, last, late)
  {
    hide LateDelivery, Candidates, UniqueBy, Refusal;
    RowsOfMorning(rows, first, last, late);
    MorningIsAccepted(rows, first, last, late);
    MorningHasLateDelivery(rows, first, last, late);
  }

  // ---------------------------------------------------------------- both proposals wait for the owner

  function Approval(p: Proposal): Response {
    Response(p.id, p.id, ApproveReplan, p.fingerprint)
  }

  function ClaimedGate(p: Proposal): Gate {
    Gate(p.initiatingWorkflow, p.id, p.fingerprint, "", "", Some("interrupt"), Resuming, Some(Approval(p)), None)
  }

  /** The three visits as confirmed, both proposals pending, and the owner's approval claimed for each. */
  function Waiting(a: Assignment, b: Assignment, c: Assignment, p: Proposal, q: Proposal): Db {
    Db(map[a.workflowId := Workflow(a.jobId, 0, "", ""), b.workflowId := Workflow(b.jobId, 0, "", ""),
           c.workflowId := Workflow(c.jobId, 0, "", "")],
       map[], map[a.id := a, b.id := b, c.id := c], map[p.id := p, q.id := q],
       map[p.id := ClaimedGate(p), q.id := ClaimedGate(q)], map[], map[])
  }

  lemma {:induction false} WaitingIsConsistent(a: Assignment, b: Assignment, c: Assignment, p: Proposal, q: Proposal)
    requires p.status == PendingOwnerApproval == q.status && p.id != q.id && p.fingerprint != q.fingerprint
    ensures Inv(Waiting(a, b, c, p, q))
  {}

  lemma {:induction false} WaitingIsUndecided(a: Assignment, b: Assignment, c: Assignment, p: Proposal, q: Proposal)
    requires p.status == PendingOwnerApproval == q.status && p.id != q.id
    ensures Undecided(Waiting(a, b, c, p, q), Approval(p)) && Undecided(Waiting(a, b, c, p, q), Approval(q))
  {}

  /** Either proposal is current and applicable. */
  lemma {:induction false} WaitingIsCurrent(
    a: Assignment, b: Assignment, c: Assignment, p: Proposal, q: Proposal, x: Proposal, late: Assignment
  )
    requires (late == a || late == b) && late.revision == 0 && MovesToThirty(x, late)
    requires a.id != b.id && b.id != c.id && a.id != c.id
    requires a.workflowId != b.workflowId && b.workflowId != c.workflowId && a.workflowId != c.workflowId
    ensures WorkflowsCurrent(Waiting(a, b, c, p, q), x) && CalendarCurrent(Waiting(a, b, c, p, q), x) && CanBeApplied(x)
  {
    hide ExpectedRevisions, AfterById;
  }

  lemma {:induction false} MovesApart(p: Proposal, q: Proposal, a: Assignment, b: Assignment)
    requires MovesToThirty(p, b) && MovesToThirty(q, a) && a.id != b.id && a.workflowId != b.workflowId
    ensures !ShareRow(p, q)
  {
    hide ExpectedRevisions, AfterById;
  }

  /** Three confirmed visits in jobs and workflows of their own. */
  ghost predicate Separate(a: Assignment, b: Assignment, c: Assignment) {
    && a.id != b.id && b.id != c.id && a.id != c.id
    && a.workflowId != b.workflowId && b.workflowId != c.workflowId && a.workflowId != c.workflowId
    && a.revision == b.revision == c.revision == 0
  }

  /** Two current approvals that share no row can be committed one after the other. */
  lemma {:induction false} BothGoThrough(db: Db, r: Response, rival: Response)
    requires Inv(db) && r.proposalId != rival.proposalId && r.action.ApproveReplan?
    requires Undecided(db, r) && Current(db, r) && Placeable(db, r)
    requires Undecided(db, rival) && Current(db, rival) && Placeable(db, rival)
    requires !ShareRow(db.proposals[r.proposalId], db.proposals[rival.proposalId])
    ensures Enabled(db, ResponseDecided(r)) && Enabled(After(db, ResponseDecided(r)), ResponseDecided(rival))
  {
    hide Inv, ClaimedFor, Current, ShareRow, GateDecided, CanBeApplied, AfterDecision;
    ClaimedResponseIsUndecided(db, r);
    RivalSurvivesIffNoRowIsShared(db, r, rival);
    EventKeepsInv(db, ResponseDecided(r));
    ClaimedResponseIsUndecided(After(db, ResponseDecided(r)), rival);
  }

  lemma {:induction false} BothAreApproved(a: Assignment, b: Assignment, c: Assignment, p: Proposal, q: Proposal)
    requires p.id != q.id && p.fingerprint != q.fingerprint && MovesToThirty(p, b) && MovesToThirty(q, a)
    requires Separate(a, b, c)
    ensures var db := Waiting(a, b, c, p, q);
      && Inv(db) && Enabled(db, ResponseDecided(Approval(p)))
      && Enabled(After(db, ResponseDecided(Approval(p))), ResponseDecided(Approval(q)))
  {
    WaitingIsConsistent(a, b, c, p, q);
    WaitingIsUndecided(a, b, c, p, q);
    WaitingIsCurrent(a, b, c, p, q, p, b);
    WaitingIsCurrent(a, b, c, p, q, q, a);
    MovesApart(p, q, a, b);
    hide MovesToThirty, Inv, WorkflowsCurrent, CalendarCurrent, CanBeApplied, ShareRow, Undecided, Enabled, After;
    BothGoThrough(Waiting(a, b, c, p, q), Approval(p), Approval(q));
  }

  /** One approval moves the late visit, and no other row or proposal. */
  lemma {:induction false} ApprovalMovesLate(db: Db, p: Proposal, late: Assignment)
    requires Enabled(db, ResponseDecided(Approval(p))) && db.proposals[p.id] == p && MovesToThirty(p, late)
    ensures late.id in db.calendar
    ensures var t := After(db, ResponseDecided(Approval(p)));
      && t.calendar == db.calendar[late.id :=
           db.calendar[late.id].(start := 30, end := 39, revision := db.calendar[late.id].revision + 1)]
      && forall id | id in db.proposals && id != p.id :: id in t.proposals && t.proposals[id] == db.proposals[id]
  {
    hide ExpectedRevisions, AfterById, Undecided, GateDecided, AdvancedWorkflows;
  }

  /** After both approvals the first two visits stand at the same time. */
  lemma {:induction false} BothStandAtThirty(a: Assignment, b: Assignment, c: Assignment, p: Proposal, q: Proposal)
    requires p.id != q.id && p.fingerprint != q.fingerprint && MovesToThirty(p, b) && MovesToThirty(q, a)
    requires Separate(a, b, c)
    requires Enabled(Waiting(a, b, c, p, q), ResponseDecided(Approval(p)))
    requires var next := After(Waiting(a, b, c, p, q), ResponseDecided(Approval(p)));
      Enabled(next, ResponseDecided(Approval(q)))
    ensures var next := After(Waiting(a, b, c, p, q), ResponseDecided(Approval(p)));
      var end := After(next, ResponseDecided(Approval(q)));
      && next.calendar.Keys == end.calendar.Keys == {a.id, b.id, c.id}
      && next.calendar[a.id] == a && next.calendar[c.id] == c && end.calendar[c.id] == c
      && next.calendar[b.id] == b.(start := 30, end := 39, revision := 1)
      && end.calendar[a.id] == a.(start := 30, end := 39, revision := 1) && end.calendar[b.id] == next.calendar[b.id]
  {
    hide Enabled, After, MovesToThirty;
    var db := Waiting(a, b, c, p, q);
    ApprovalMovesLate(db, p, b);
    ApprovalMovesLate(After(db, ResponseDecided(Approval(p))), q, a);
  }

  lemma {:induction false} CalendarOfThree(calendar: map<string, AssignmentRecord>, a: string, b: string, c: string)
    requires calendar.Keys == {a, b, c} && a != b && b != c && a != c
    requires forall x | x in calendar :: calendar[x].workerId == "" && !calendar[x].status.Cancelled?
    ensures NeverInTwoPlaces(calendar, "") <==>
      && Apart(calendar[a].start, calendar[a].end, calendar[b].start, calendar[b].end)
      && Apart(calendar[b].start, calendar[b].end, calendar[c].start, calendar[c].end)
      && Apart(calendar[a].start, calendar[a].end, calendar[c].start, calendar[c].end)
  {
    assert Works(calendar, "", a) && Works(calendar, "", b) && Works(calendar, "", c);
  }

  lemma {:induction false} EitherMayBeLate(a: Assignment, b: Assignment, c: Assignment)
    requires a == Visit(a.id, 0) && b == Visit(b.id, 10) && c == Visit(c.id, 20)
    requires a.id != b.id && b.id != c.id && a.id != c.id
    ensures ThreeVisits([a, b, c], a, c, b) && ThreeVisits([a, b, c], b, c, a)
  {
    assert multiset([a, b, c]) == multiset([a, c, b]) == multiset([b, c, a]);
  }

  lemma {:induction false} BothAreProposed(
    a: Assignment, b: Assignment, c: Assignment, naming: Naming, first: Result<PlanResult, PlanError>,
    second: Result<PlanResult, PlanError>
  )
    requires a == Visit(a.id, 0) && b == Visit(b.id, 10) && c == Visit(c.id, 20) && Separate(a, b, c)
    requires IsPlan(Morning([a, b, c], a, c, b), naming, first) && IsPlan(Morning([a, b, c], b, c, a), naming, second)
    ensures first.Ok? && first.value.ProposalCreated? && MovesToThirty(first.value.proposal, b)
    ensures second.Ok? && second.value.ProposalCreated? && MovesToThirty(second.value.proposal, a)
    ensures first.value.proposal.id != second.value.proposal.id ==>
      first.value.proposal.fingerprint != second.value.proposal.fingerprint
  {
    hide IsPlan, IsLateMorning, MovesToThirty;
    var rows := [a, b, c];
    EitherMayBeLate(a, b, c);
    hide ThreeVisits, Visit, Separate;
    MorningIsLate(rows, a, c, b);
    MorningIsLate(rows, b, c, a);
    LateVisitMovesToThirty(Morning(rows, a, c, b), a, c, b, naming, first);
    LateVisitMovesToThirty(Morning(rows, b, c, a), b, c, a, naming, second);
  }

  /** Two plans for the same three visits, the later one made before the earlier one is approved: both can be approved,
      in a consistent store and without any row outside the plans, and then the worker is in two places. The second plan
      keeps a visit that the first has moved, and nothing looks at it. */
  lemma {:induction false} TwoApprovedPlansCollide(
    x: string, y: string, z: string, naming: Naming, first: Result<PlanResult, PlanError>,
    second: Result<PlanResult, PlanError>
  )
    requires x != y && y != z && x != z
    requires var a, b, c := Visit(x, 0), Visit(y, 10), Visit(z, 20);
      IsPlan(Morning([a, b, c], a, c, b), naming, first) && IsPlan(Morning([a, b, c], b, c, a), naming, second)
    ensures first.Ok? && first.value.ProposalCreated? && second.Ok? && second.value.ProposalCreated?
    ensures first.value.proposal.id != second.value.proposal.id ==>
      var a, b, c := Visit(x, 0), Visit(y, 10), Visit(z, 20);
      var p, q := first.value.proposal, second.value.proposal;
      var db, events := Waiting(a, b, c, p, q), [ResponseDecided(Approval(p)), ResponseDecided(Approval(q))];
      && Inv(db) && IsRun(db, events)
      && NeverInTwoPlaces(db.calendar, "") && NeverInTwoPlaces(After(db, events[0]).calendar, "")
      && !NeverInTwoPlaces(End(db, events).calendar, "")
  {
    var a, b, c := Visit(x, 0), Visit(y, 10), Visit(z, 20);
    hide IsPlan, Morning, NeverInTwoPlaces, Inv, MovesToThirty, Enabled, After, IsRun, End;
    BothAreProposed(a, b, c, naming, first, second);
    var p, q := first.value.proposal, second.value.proposal;
    if p.id != q.id {
      var db := Waiting(a, b, c, p, q);
      var approve, again := ResponseDecided(Approval(p)), ResponseDecided(Approval(q));
      BothAreApproved(a, b, c, p, q);
      BothStandAtThirty(a, b, c, p, q);
      TwoEvents(db, approve, again);
      CalendarOfThree(db.calendar, x, y, z);
      CalendarOfThree(After(db, approve).calendar, x, y, z);
      CalendarOfThree(After(After(db, approve), again).calendar, x, y, z);
    }
  }
}
