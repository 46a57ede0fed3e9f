/** From plan to calendar: what an approved planner proposal leaves in the durable calendar. */
module PlanApplied {
  import opened Prelude
  import opened DispatchModels
  import opened Planner
  import opened DailyPlan
  import opened PlanProperties
  import opened ReplanStore

  /** An approved response to a stored proposal that can be committed now. */
  ghost predicate Approves(db: Db, r: Response, p: Proposal) {
    && Undecided(db, r) && Current(db, r) && r.action.ApproveReplan?
    && db.proposals[r.proposalId] == p
  }

  /** Every assignment a planner proposal expects to move has a placement: approval cannot fail halfway. */
  lemma {:induction false} PlannedProposalCanBeApplied(
    request: Request, p: Proposal, ordering: seq<Assignment>, best: Candidate
  )
    requires SoundProposal(request, p, ordering, best)
    ensures CanBeApplied(p)
  {
    hide Schedules, Possible, Candidates, TableBy, Sort;
    forall k | k in ExpectedRevisions(p.expectedCalendarRevisions) ensures k in AfterById(p) {
      TableKey(p.expectedCalendarRevisions, First, k);
      var i :| 0 <= i < |p.expectedCalendarRevisions| && First(p.expectedCalendarRevisions[i]) == k;
      assert p.expectedCalendarRevisions[i] in p.expectedCalendarRevisions;
      assert k in Ids(p.afterSchedule);
      var j :| 0 <= j < |p.afterSchedule| && Ids(p.afterSchedule)[j] == k;
      assert PlacementId(p.afterSchedule[j]) == k;
      TableKey(p.afterSchedule, PlacementId, k);
    }
  }

  lemma {:induction false} PlacementIdsAreUnique(placements: seq<Placement>, ordering: seq<Assignment>)
    requires PlacesInOrder(placements, ordering) && UniqueBy(ordering, IdOf)
    ensures UniqueBy(placements, PlacementId)
  {
    forall i, j | 0 <= i < j < |placements| ensures PlacementId(placements[i]) != PlacementId(placements[j]) {
      assert IdOf(ordering[i]) != IdOf(ordering[j]);
    }
  }

  lemma {:induction false} AffectedIsExpected(
    request: Request, p: Proposal, ordering: seq<Assignment>, best: Candidate, i: nat
  )
    requires SoundProposal(request, p, ordering, best) && i < |ordering|
    ensures ordering[i].id in ExpectedRevisions(p.expectedCalendarRevisions) <==>
      ordering[i].id in p.affectedAssignments
  {
    hide Possible, Candidates, TableBy, Sort, KeyLeq, Evaluate;
    var id := ordering[i].id;
    TableKey(p.expectedCalendarRevisions, First, id);
    SameMembers(ordering, Candidates(request));
    if id in p.affectedAssignments {
      assert ordering[i] in Candidates(request);
      assert (id, ordering[i].revision) in p.expectedCalendarRevisions;
      var k :| 0 <= k < |p.expectedCalendarRevisions| && p.expectedCalendarRevisions[k] == (id, ordering[i].revision);
      assert First(p.expectedCalendarRevisions[k]) == id;
    }
    if id in ExpectedRevisions(p.expectedCalendarRevisions) {
      var k :| 0 <= k < |p.expectedCalendarRevisions| && First(p.expectedCalendarRevisions[k]) == id;
      assert (id, p.expectedCalendarRevisions[k].1) in p.expectedCalendarRevisions;
    }
  }

  /** The proposal expects to move this row. */
  ghost predicate Moves(p: Proposal, x: string) {
    x in ExpectedRevisions(p.expectedCalendarRevisions)
  }

  lemma {:induction false} PlacementsAreUnique(
    request: Request, p: Proposal, ordering: seq<Assignment>, best: Candidate
  )
    requires SoundProposal(request, p, ordering, best) && UniqueBy(Candidates(request), IdOf)
    ensures UniqueBy(p.afterSchedule, PlacementId)
  {
    hide Possible, Candidates, Sort, KeyLeq, Evaluate, UniqueBy;
    SchedulePlaces(request, ordering, best);
    UniqueRearranged(Candidates(request), ordering, IdOf);
    PlacementIdsAreUnique(best.placements, ordering);
  }

  /** A row that the proposal moves stands after approval at the only placement that names it. */
  lemma {:induction false} MovedRow(
    db: Db, r: Response, request: Request, p: Proposal, ordering: seq<Assignment>, best: Candidate, x: string
  ) returns (i: nat)
    requires SoundProposal(request, p, ordering, best) && UniqueBy(Candidates(request), IdOf)
    requires Approves(db, r, p) && CanBeApplied(p) && Moves(p, x)
    ensures i < |p.afterSchedule| && p.afterSchedule[i].assignmentId == x
    ensures var t := AfterDecision(db, r);
      && x in db.calendar && x in t.calendar
      && t.calendar[x].start == p.afterSchedule[i].start && t.calendar[x].end == p.afterSchedule[i].end
      && t.calendar[x].workerId == db.calendar[x].workerId && t.calendar[x].status == db.calendar[x].status
  {
    PlacementsAreUnique(request, p, ordering, best);
    hide SoundProposal, Candidates, TableBy, UniqueBy;
    TableKey(p.afterSchedule, PlacementId, x);
    TableLooksUp(p.afterSchedule, PlacementId);
    i :| i < |p.afterSchedule| && PlacementId(p.afterSchedule[i]) == x;
    assert p.afterSchedule[i] in p.afterSchedule;
  }

  /** Approval leaves every other row as it was. */
  lemma {:induction false} OtherRow(db: Db, r: Response, p: Proposal, x: string)
    requires Approves(db, r, p) && CanBeApplied(p) && !Moves(p, x)
    ensures var t := AfterDecision(db, r);
      && (x in t.calendar <==> x in db.calendar) && (x in db.calendar ==> t.calendar[x] == db.calendar[x])
  {
    hide TableBy;
  }

  // ---------------------------------------------------------------- the planned day

  /** The row of the assignment stands where the planner saw it. */
  ghost predicate StillStands(db: Db, a: Assignment) {
    a.id in db.calendar && db.calendar[a.id].start == a.start && db.calendar[a.id].end == a.end
  }

  /** The candidates the proposal does not move still stand. */
  ghost predicate RestStands(db: Db, request: Request, p: Proposal) {
    forall a | a in Candidates(request) && a.id !in p.affectedAssignments :: StillStands(db, a)
  }

  ghost predicate StandsAt(calendar: map<string, AssignmentRecord>, placement: Placement) {
    && placement.assignmentId in calendar
    && calendar[placement.assignmentId].start == placement.start
    && calendar[placement.assignmentId].end == placement.end
  }

  /** Every placement of the plan is where its calendar row stands. */
  ghost predicate IsPlannedDay(calendar: map<string, AssignmentRecord>, p: Proposal) {
    forall i | 0 <= i < |p.afterSchedule| :: StandsAt(calendar, p.afterSchedule[i])
  }

  lemma {:induction false} SamePlacement(placements: seq<Placement>, i: nat, j: nat)
    requires UniqueBy(placements, PlacementId) && i < |placements| && j < |placements|
    requires placements[i].assignmentId == placements[j].assignmentId
    ensures i == j
  {
    assert PlacementId(placements[i]) == PlacementId(placements[j]);
  }

  /** The placement of an assignment stands when the proposal moves it, and otherwise when its row still stands. */
  lemma {:induction false} PlacementStands(
    db: Db, r: Response, request: Request, p: Proposal, ordering: seq<Assignment>, best: Candidate, i: nat
  )
    requires SoundProposal(request, p, ordering, best) && UniqueBy(Candidates(request), IdOf)
    requires Approves(db, r, p) && CanBeApplied(p) && i < |p.afterSchedule|
    ensures |ordering| == |p.afterSchedule| && ordering[i] in Candidates(request)
    ensures var a, t := ordering[i], AfterDecision(db, r);
      StandsAt(t.calendar, p.afterSchedule[i]) <==>
        (a.id !in p.affectedAssignments ==> StillStands(db, a))
  {
    var a := ordering[i];
    PlacementsAreUnique(request, p, ordering, best);
    SchedulePlaces(request, ordering, best);
    AffectedIsExpected(request, p, ordering, best, i);
    SameMembers(ordering, Candidates(request));
    assert ordering[i] in ordering && p.afterSchedule[i].assignmentId == a.id;
    if a.id in p.affectedAssignments {
      var j := MovedRow(db, r, request, p, ordering, best, a.id);
      SamePlacement(p.afterSchedule, i, j);
    } else {
      OtherRow(db, r, p, a.id);
      assert !TimesDiffer(best.placements[i], ordering[i]);
    }
  }

  lemma {:induction false} PlansTheCandidates(request: Request, p: Proposal, ordering: seq<Assignment>, best: Candidate)
    requires SoundProposal(request, p, ordering, best)
    ensures |ordering| == |p.afterSchedule| && forall a :: a in ordering <==> a in Candidates(request)
  {
    hide Possible, Candidates, Sort, KeyLeq, Evaluate;
    SameMembers(ordering, Candidates(request));
  }

  /** Exactly when approval leaves the planned day in the calendar: nothing compares the candidates that the proposal
      does not move, and they must still stand. */
  lemma {:induction false} PlannedDayIffRestStands(
    db: Db, r: Response, request: Request, p: Proposal, ordering: seq<Assignment>, best: Candidate
  )
    requires SoundProposal(request, p, ordering, best) && UniqueBy(Candidates(request), IdOf) && Approves(db, r, p)
    ensures CanBeApplied(p)
    ensures IsPlannedDay(AfterDecision(db, r).calendar, p) <==> RestStands(db, request, p)
  {
    PlannedProposalCanBeApplied(request, p, ordering, best);
    PlansTheCandidates(request, p, ordering, best);
    hide SoundProposal, UniqueBy, Current, AfterDecision, Candidates, CanBeApplied, StandsAt, StillStands;
    forall i | 0 <= i < |p.afterSchedule|
      ensures StandsAt(AfterDecision(db, r).calendar, p.afterSchedule[i]) <==>
        (ordering[i].id !in p.affectedAssignments ==> StillStands(db, ordering[i]))
      ensures ordering[i] in Candidates(request)
    {
      PlacementStands(db, r, request, p, ordering, best, i);
    }
    if IsPlannedDay(AfterDecision(db, r).calendar, p) {
      forall a | a in Candidates(request) && a.id !in p.affectedAssignments ensures StillStands(db, a) {
        var i :| 0 <= i < |ordering| && ordering[i] == a;
        assert StandsAt(AfterDecision(db, r).calendar, p.afterSchedule[i]);
      }
    }
  }

  /** If the rest stands, approval of a planner proposal leaves exactly the planned day in the calendar. */
  lemma {:induction false} ApprovedCalendarIsThePlan(
    db: Db, r: Response, request: Request, p: Proposal, ordering: seq<Assignment>, best: Candidate, i: nat
  )
    requires SoundProposal(request, p, ordering, best) && UniqueBy(Candidates(request), IdOf)
    requires Approves(db, r, p) && RestStands(db, request, p)
    requires i < |p.afterSchedule|
    ensures CanBeApplied(p)
    ensures var t := AfterDecision(db, r);
      var placement := p.afterSchedule[i];
      && placement.assignmentId in t.calendar
      && t.calendar[placement.assignmentId].start == placement.start
      && t.calendar[placement.assignmentId].end == placement.end
  {
    hide SoundProposal, UniqueBy, Current, AfterDecision, Candidates, CanBeApplied, RestStands;
    PlannedDayIffRestStands(db, r, request, p, ordering, best);
    assert StandsAt(AfterDecision(db, r).calendar, p.afterSchedule[i]);
  }

  // ---------------------------------------------------------------- overlaps

  /** The placements of a plan follow each other without overlap. */
  lemma {:induction false} PlacementsFollow(
    request: Request, p: Proposal, ordering: seq<Assignment>, best: Candidate, i: nat, j: nat
  )
    requires SoundProposal(request, p, ordering, best) && i < j < |p.afterSchedule|
    ensures p.afterSchedule[i].end <= p.afterSchedule[j].start
  {
    hide Candidates, KeyLeq, Evaluate, Schedules, MaterialAllows, Permitted;
    SchedulePlaces(request, ordering, best);
    var starts := Starts(best.placements);
    StartsIncrease(DayOf(request), ordering, starts);
    assert Follows(DayOf(request), ordering[i], starts[i], ordering[i + 1], starts[i + 1]);
    assert i + 1 == j || starts[i + 1] < starts[j];
  }

  /** If the rest stands, the planned assignments follow each other without overlap in the approved calendar. */
  lemma {:induction false} ApprovedCalendarHasNoOverlap(
    db: Db, r: Response, request: Request, p: Proposal, ordering: seq<Assignment>, best: Candidate, i: nat, j: nat
  )
    requires SoundProposal(request, p, ordering, best) && UniqueBy(Candidates(request), IdOf)
    requires Approves(db, r, p) && RestStands(db, request, p)
    requires i < j < |p.afterSchedule|
    ensures CanBeApplied(p)
    ensures var t := AfterDecision(db, r);
      && p.afterSchedule[i].assignmentId in t.calendar && p.afterSchedule[j].assignmentId in t.calendar
      && t.calendar[p.afterSchedule[i].assignmentId].end <= t.calendar[p.afterSchedule[j].assignmentId].start
  {
    hide SoundProposal, UniqueBy, Current, AfterDecision, Candidates, CanBeApplied, RestStands;
    ApprovedCalendarIsThePlan(db, r, request, p, ordering, best, i);
    ApprovedCalendarIsThePlan(db, r, request, p, ordering, best, j);
    PlacementsFollow(request, p, ordering, best, i, j);
  }

  predicate Apart(start: int, end: int, otherStart: int, otherEnd: int) {
    end <= otherStart || otherEnd <= start
  }

  /** A row at which the worker works: cancelled rows are no work. */
  ghost predicate Works(calendar: map<string, AssignmentRecord>, workerId: string, x: string) {
    x in calendar && calendar[x].workerId == workerId && !calendar[x].status.Cancelled?
  }

  /** No two rows at which the worker works overlap. */
  ghost predicate NeverInTwoPlaces(calendar: map<string, AssignmentRecord>, workerId: string) {
    forall x, y | Works(calendar, workerId, x) && Works(calendar, workerId, y) && x != y ::
      Apart(calendar[x].start, calendar[x].end, calendar[y].start, calendar[y].end)
  }

  /** Work that the proposal leaves where it is. */
  ghost predicate Stays(db: Db, p: Proposal, workerId: string, x: string) {
    Works(db.calendar, workerId, x) && !Moves(p, x)
  }

  /** The worker's rows that the proposal does not move are apart from each other and from the placements of those that
      it moves. */
  ghost predicate OthersKeepClear(db: Db, p: Proposal, workerId: string) {
    && (forall x, y | Stays(db, p, workerId, x) && Stays(db, p, workerId, y) && x != y ::
          Apart(db.calendar[x].start, db.calendar[x].end, db.calendar[y].start, db.calendar[y].end))
    && forall x, i | Stays(db, p, workerId, x) && 0 <= i < |p.afterSchedule| ::
         Moves(p, p.afterSchedule[i].assignmentId) && Works(db.calendar, workerId, p.afterSchedule[i].assignmentId) ==>
           Apart(db.calendar[x].start, db.calendar[x].end, p.afterSchedule[i].start, p.afterSchedule[i].end)
  }

  /** Two rows that the proposal moves are apart after approval. */
  lemma {:induction false} MovedRowsAreApart(
    db: Db, r: Response, request: Request, p: Proposal, ordering: seq<Assignment>, best: Candidate, x: string, y: string
  )
    requires SoundProposal(request, p, ordering, best) && UniqueBy(Candidates(request), IdOf)
    requires Approves(db, r, p) && CanBeApplied(p) && Moves(p, x) && Moves(p, y) && x != y
    ensures var t := AfterDecision(db, r);
      && x in t.calendar && y in t.calendar
      && Apart(t.calendar[x].start, t.calendar[x].end, t.calendar[y].start, t.calendar[y].end)
  {
    hide SoundProposal, UniqueBy, Current, CanBeApplied, AfterDecision, Candidates, Moves;
    var i := MovedRow(db, r, request, p, ordering, best, x);
    var j := MovedRow(db, r, request, p, ordering, best, y);
    if i < j {
      PlacementsFollow(request, p, ordering, best, i, j);
    } else {
      PlacementsFollow(request, p, ordering, best, j, i);
    }
  }

  lemma {:induction false} ClearMeansApart(
    db: Db, r: Response, request: Request, p: Proposal, ordering: seq<Assignment>, best: Candidate, workerId: string,
    x: string, y: string
  )
    requires SoundProposal(request, p, ordering, best) && UniqueBy(Candidates(request), IdOf)
    requires Approves(db, r, p) && CanBeApplied(p) && OthersKeepClear(db, p, workerId) && x != y
    requires var t := AfterDecision(db, r); Works(t.calendar, workerId, x) && Works(t.calendar, workerId, y)
    ensures var t := AfterDecision(db, r);
      Apart(t.calendar[x].start, t.calendar[x].end, t.calendar[y].start, t.calendar[y].end)
  {
    hide SoundProposal, UniqueBy, Current, AfterDecision, Candidates, CanBeApplied, Moves;
    if Moves(p, x) && Moves(p, y) {
      MovedRowsAreApart(db, r, request, p, ordering, best, x, y);
    } else if Moves(p, x) {
      var i := MovedRow(db, r, request, p, ordering, best, x);
      OtherRow(db, r, p, y);
      assert Stays(db, p, workerId, y) && Works(db.calendar, workerId, p.afterSchedule[i].assignmentId);
    } else if Moves(p, y) {
      var i := MovedRow(db, r, request, p, ordering, best, y);
      OtherRow(db, r, p, x);
      assert Stays(db, p, workerId, x) && Works(db.calendar, workerId, p.afterSchedule[i].assignmentId);
    } else {
      OtherRow(db, r, p, x);
      OtherRow(db, r, p, y);
      assert Stays(db, p, workerId, x) && Stays(db, p, workerId, y);
    }
  }

  lemma {:induction false} ApartMeansClear(
    db: Db, r: Response, request: Request, p: Proposal, ordering: seq<Assignment>, best: Candidate, workerId: string
  )
    requires SoundProposal(request, p, ordering, best) && UniqueBy(Candidates(request), IdOf)
    requires Approves(db, r, p) && CanBeApplied(p) && NeverInTwoPlaces(AfterDecision(db, r).calendar, workerId)
    ensures OthersKeepClear(db, p, workerId)
  {
    PlacementsAreUnique(request, p, ordering, best);
    hide SoundProposal, UniqueBy, Current, AfterDecision, Candidates, CanBeApplied, Moves;
    var t := AfterDecision(db, r);
    forall x, y | Stays(db, p, workerId, x) && Stays(db, p, workerId, y) && x != y
      ensures Apart(db.calendar[x].start, db.calendar[x].end, db.calendar[y].start, db.calendar[y].end)
    {
      OtherRow(db, r, p, x);
      OtherRow(db, r, p, y);
      assert Works(t.calendar, workerId, x) && Works(t.calendar, workerId, y);
    }
    forall x, i | Stays(db, p, workerId, x) && 0 <= i < |p.afterSchedule|
                  && Moves(p, p.afterSchedule[i].assignmentId)
                  && Works(db.calendar, workerId, p.afterSchedule[i].assignmentId)
      ensures Apart(db.calendar[x].start, db.calendar[x].end, p.afterSchedule[i].start, p.afterSchedule[i].end)
    {
      var y := p.afterSchedule[i].assignmentId;
      OtherRow(db, r, p, x);
      var j := MovedRow(db, r, request, p, ordering, best, y);
      SamePlacement(p.afterSchedule, i, j);
      assert Works(t.calendar, workerId, x) && Works(t.calendar, workerId, y);
    }
  }

  /** Exactly when the approved calendar never has the worker in two places: the rows that the proposal does not move
      must be apart from each other and from where it moves the others. Approval compares the revisions of the moved
      rows only, so nothing else keeps the other rows of the day, or those in other jobs, from having changed. */
  lemma {:induction false} NeverInTwoPlacesIffOthersKeepClear(
    db: Db, r: Response, request: Request, p: Proposal, ordering: seq<Assignment>, best: Candidate, workerId: string
  )
    requires SoundProposal(request, p, ordering, best) && UniqueBy(Candidates(request), IdOf) && Approves(db, r, p)
    ensures CanBeApplied(p)
    ensures NeverInTwoPlaces(AfterDecision(db, r).calendar, workerId) <==> OthersKeepClear(db, p, workerId)
  {
    hide SoundProposal, UniqueBy, Current, AfterDecision, Candidates, CanBeApplied, OthersKeepClear;
    PlannedProposalCanBeApplied(request, p, ordering, best);
    var t := AfterDecision(db, r);
    if OthersKeepClear(db, p, workerId) {
      forall x, y | Works(t.calendar, workerId, x) && Works(t.calendar, workerId, y) && x != y
        ensures Apart(t.calendar[x].start, t.calendar[x].end, t.calendar[y].start, t.calendar[y].end)
      {
        ClearMeansApart(db, r, request, p, ordering, best, workerId, x, y);
      }
    }
    if NeverInTwoPlaces(t.calendar, workerId) {
      ApartMeansClear(db, r, request, p, ordering, best, workerId);
    }
  }

  lemma {:induction false} ExtraRowIsIgnored(
    db: Db, r: Response, request: Request, p: Proposal, x: string, row: AssignmentRecord
  )
    requires Approves(db, r, p) && x !in db.calendar
    ensures var busy := db.(calendar := db.calendar[x := row]);
      Approves(busy, r, p) && !Moves(p, x) && (RestStands(db, request, p) ==> RestStands(busy, request, p))
  {
    hide TableBy, Candidates;
  }

  lemma {:induction false} SameRowStands(db: Db, busy: Db, r: Response, p: Proposal, y: string)
    requires Approves(db, r, p) && Approves(busy, r, p) && CanBeApplied(p)
    requires y in db.calendar && y in busy.calendar && busy.calendar[y] == db.calendar[y]
    ensures y in AfterDecision(db, r).calendar && y in AfterDecision(busy, r).calendar
    ensures AfterDecision(busy, r).calendar[y] == AfterDecision(db, r).calendar[y]
    ensures AfterDecision(db, r).calendar[y].workerId == db.calendar[y].workerId
    ensures AfterDecision(db, r).calendar[y].status == db.calendar[y].status
  {
    hide TableBy;
  }

  lemma {:induction false} TwoPlaces(calendar: map<string, AssignmentRecord>, workerId: string, x: string, y: string)
    requires Works(calendar, workerId, x) && Works(calendar, workerId, y) && x != y
    ensures !Apart(calendar[x].start, calendar[x].end, calendar[y].start, calendar[y].end) ==>
      !NeverInTwoPlaces(calendar, workerId)
  {}

  /** The condition can fail at a row outside the plan: further work that overlaps where a row of the worker stands
      after approval hinders neither the approval nor the plan, and leaves the worker in two places. */
  lemma {:induction false} ForeignRowIsNotLookedAt(
    db: Db, r: Response, request: Request, p: Proposal, ordering: seq<Assignment>, best: Candidate, y: string,
    x: string, row: AssignmentRecord
  )
    requires SoundProposal(request, p, ordering, best) && UniqueBy(Candidates(request), IdOf) && Approves(db, r, p)
    requires Works(db.calendar, row.workerId, y) && x !in db.calendar && !row.status.Cancelled?
    ensures CanBeApplied(p)
    ensures var planned := AfterDecision(db, r).calendar;
      var busy := db.(calendar := db.calendar[x := row]);
      && y in planned && Approves(busy, r, p) && (RestStands(db, request, p) ==> RestStands(busy, request, p))
      && (!Apart(row.start, row.end, planned[y].start, planned[y].end) ==>
            !NeverInTwoPlaces(AfterDecision(busy, r).calendar, row.workerId))
  {
    var busy := db.(calendar := db.calendar[x := row]);
    PlannedProposalCanBeApplied(request, p, ordering, best);
    ExtraRowIsIgnored(db, r, request, p, x, row);
    SameRowStands(db, busy, r, p, y);
    OtherRow(busy, r, p, x);
    hide SoundProposal, UniqueBy, Current, AfterDecision, Candidates, CanBeApplied, NeverInTwoPlaces, RestStands, Moves;
    var after := AfterDecision(busy, r).calendar;
    assert Works(after, row.workerId, x) && Works(after, row.workerId, y);
    TwoPlaces(after, row.workerId, x, y);
  }
}
