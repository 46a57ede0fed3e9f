/** What the answer that no reordering is feasible means: the planner would keep the order and still change times. */
module KeptOrder {
  import opened Prelude
  import opened DispatchModels
  import opened Planner
  import opened DailyPlan
  import opened PlanProperties
  import InputOrder

  function NoReorder(): Result<PlanResult, PlanError> {
    Ok(NoFeasibleReplan({NoFeasibleReorder}))
  }

  /** The schedule of the confirmed order, least among the schedules of all orders. */
  ghost predicate LeastInConfirmedOrder(r: Request, c: Candidate) {
    Schedules(r, Sort(Candidates(r), ByStart), c) && forall o, d | Schedules(r, o, d) :: KeyLeq(c, d)
  }

  lemma {:induction false} LeastIsChosen(r: Request, c: Candidate, best: Candidate)
    requires UniqueBy(Candidates(r), JobTaskOf) && LeastInConfirmedOrder(r, c) && Chosen(r, best)
    ensures best == c
  {
    hide Candidates, Sort, DayOf, Chosen, UniqueBy, KeyLeq, Evaluate;
    ChosenIsMinimum(r, best);
    var o: seq<Assignment> :| Schedules(r, o, best);
    assert KeyLeq(best, c) && KeyLeq(c, best);
    InputOrder.NoTwoSchedulesTie(r, o, best, Sort(Candidates(r), ByStart), c);
  }

  /** The chosen candidate keeps the order exactly when it is least in the confirmed order. */
  lemma {:induction false} ChosenInConfirmedOrder(r: Request, best: Candidate)
    requires UniqueBy(Candidates(r), IdOf) && Chosen(r, best)
    ensures Ids(best.placements) == Ids(ConfirmedSchedule(Candidates(r))) <==> LeastInConfirmedOrder(r, best)
  {
    hide Candidates, Sort, Chosen, UniqueBy, KeyLeq, Possible, Earliest, DayOf;
    ChosenIsMinimum(r, best);
    var o: seq<Assignment> :| Schedules(r, o, best);
    SchedulePlaces(r, o, best);
    ScheduleRearranges(r, o, best);
    PlannedIds(o, best.placements, Candidates(r));
    if LeastInConfirmedOrder(r, best) {
      var sorted := Sort(Candidates(r), ByStart);
      SchedulePlaces(r, sorted, best);
      ScheduleRearranges(r, sorted, best);
      PlannedIds(sorted, best.placements, Candidates(r));
    }
  }

  lemma {:induction false} KeptTimes(r: Request, best: Candidate)
    requires UniqueBy(Candidates(r), IdOf) && Chosen(r, best)
    requires Ids(best.placements) == Ids(ConfirmedSchedule(Candidates(r)))
    ensures SameTimes(best.placements, ConfirmedSchedule(Candidates(r))) <==> best.changed == 0
  {
    hide Candidates, Chosen, UniqueBy, ConfirmedSchedule, CalendarAlreadyStands, SameTimes;
    ChosenKeepsCalendar(r, best);
  }

  lemma {:induction false} NothingEvaluatedNothingLeast(r: Request)
    requires Evaluated(r) == []
    ensures forall c :: !LeastInConfirmedOrder(r, c)
  {
    hide Candidates, Evaluated, KeyLeq, Evaluate, Sort;
    forall c ensures !LeastInConfirmedOrder(r, c) {
      if LeastInConfirmedOrder(r, c) {
        ScheduleIsEvaluated(r, Sort(Candidates(r), ByStart), c);
      }
    }
  }

  /** The planner answers NO_FEASIBLE_REORDER exactly when the least schedule is that of the confirmed order and changes
      some time. Whether another order is feasible does not matter. */
  lemma {:induction false} NoReorderIffConfirmedOrderIsLeast(
    r: Request, naming: Naming, result: Result<PlanResult, PlanError>
  )
    requires IsPlan(r, naming, result) && UniqueBy(Candidates(r), IdOf) && UniqueBy(Candidates(r), JobTaskOf)
    ensures result == NoReorder() <==>
      ValidWorkday(r) && Refusal(r).None? && exists c :: LeastInConfirmedOrder(r, c) && c.changed > 0
  {
    hide Candidates, Chosen, UniqueBy, ConfirmedSchedule, LeastInConfirmedOrder, SameTimes, Evaluated, IsProposal,
      Moved, AffectedWorkflows;
    assert NoFeasibleReorder in {NoFeasibleReorder};
    if ValidWorkday(r) && Refusal(r).None? {
      if Evaluated(r) == [] {
        NothingEvaluatedNothingLeast(r);
      } else {
        var best :| Chosen(r, best) && Concludes(r, naming, best, result);
        ChosenInConfirmedOrder(r, best);
        if Ids(best.placements) == Ids(ConfirmedSchedule(Candidates(r))) {
          KeptTimes(r, best);
        }
        forall c | LeastInConfirmedOrder(r, c) ensures c == best {
          LeastIsChosen(r, c, best);
        }
      }
    }
  }

  // ---------------------------------------------------------------- another order can be feasible

  function Visit(job: string, task: string, start: int): Assignment {
    AssignmentRecord.Assignment(task, job, job, task, "", {}, None, start, start + 5, None, Confirmed, 0)
  }

  function AnyDay(at: int): int { 0 }

  /** Two visits in one job, confirmed for 0 and 5, on a day that begins at 1. */
  function LateStart(a: Assignment, b: Assignment): Request {
    Request(a.workflowId, 0, 1, 0, 100, 0, AnyDay, [Job(a.jobId, true, true)], map[a.workflowId := 0], [a, b],
            [MaterialRecord.Material(a.jobId, a.taskId, Ready, None, true, 0),
             MaterialRecord.Material(b.jobId, b.taskId, Ready, None, true, 0)],
            [], Worker("", {}, [Window(0, 100)]), [])
  }

  ghost predicate TwoVisits(a: Assignment, b: Assignment) {
    && a == Visit(a.jobId, a.id, 0) && b == Visit(a.jobId, b.id, 5)
    && a.id != b.id && StringLeq(a.id, b.id)
  }

  lemma {:induction false} LateStartDay(a: Assignment, b: Assignment)
    requires TwoVisits(a, b)
    ensures var r := LateStart(a, b);
      Candidates(r) == [a, b] && ValidWorkday(r) && Refusal(r).None?
      && DayOf(r).start == 1 && DayOf(r).end == 100 && Window(0, 100) in DayOf(r).worker.availability
      && UniqueBy(Candidates(r), IdOf) && UniqueBy(Candidates(r), JobTaskOf)
  {
    hide StringLeq;
    var r := LateStart(a, b);
    assert [a, b][..1] == [a] && [a][..0] == [];
    assert CandidatesAmong(r, [a]) == [a];
    TableLooksUp(r.jobs, JobId);
    assert r.jobs[0] in r.jobs;
    assert Located(r, a) && Located(r, b);
    assert r.worker.availability[0] == Window(0, 100);
  }

  lemma {:induction false} LateStartMaterials(a: Assignment, b: Assignment, t: int)
    requires TwoVisits(a, b)
    ensures MaterialAllows(DayOf(LateStart(a, b)), a, t) && MaterialAllows(DayOf(LateStart(a, b)), b, t)
  {
    hide StringLeq;
    var r := LateStart(a, b);
    TableLooksUp(r.materials, TaskOf);
    assert r.materials[0] in r.materials && r.materials[1] in r.materials;
  }

  ghost predicate FiveSeconds(a: Assignment) {
    a.Duration() == 5 && a.vehicleId.None? && a.hardDeadline.None?
  }

  lemma {:induction false} EarliestOfTwo(day: Day, x: Assignment, y: Assignment)
    requires FiveSeconds(x) && FiveSeconds(y) && x.jobId == y.jobId
    requires day.start == 1 && day.end == 100 && Window(0, 100) in day.worker.availability
    requires MaterialAllows(day, x, 1) && MaterialAllows(day, y, 6)
    ensures Earliest(day, [x, y], [1, 6]) && Possible(day, [x, y], [1, 6])
  {
    hide MaterialAllows;
    var o, starts := [x, y], [1, 6];
    forall other | RespectsBounds(day, o, other) ensures NowhereLater(starts, other) {
      assert Follows(day, o[0], other[0], o[1], other[1]);
    }
  }

  lemma {:induction false} NothingIdle(r: Request, x: Assignment, y: Assignment, c: Candidate)
    requires FiveSeconds(x) && FiveSeconds(y) && x.jobId == y.jobId && DayOf(r).start == 1
    requires Schedules(r, [x, y], c) && Starts(c.placements) == [1, 6]
    ensures c.idle == 0 && c.travel == 0
  {
    hide DayOf, Candidates, Run;
    TimeIsConserved(DayOf(r), [x, y]);
    RunPlacesInOrder(DayOf(r), [x, y]);
    assert [x, y][..1] == [x] && [x][..0] == [];
    assert TotalDuration([x]) == 5 && TotalTravel(DayOf(r), [x]) == 0;
    assert c.placements[1].start == 6;
  }

  lemma {:induction false} TwoIds(o: seq<Assignment>, moved: seq<string>)
    requires |o| == 2 && UniqueBy(o, IdOf) && o[0].id in moved && o[1].id in moved
    requires forall id | id in moved :: id == o[0].id || id == o[1].id
    requires forall i, j | 0 <= i < j < |moved| :: moved[i] != moved[j]
    ensures |moved| == 2
  {
    assert IdOf(o[0]) != IdOf(o[1]);
    var i :| 0 <= i < |moved| && moved[i] == o[0].id;
    var j :| 0 <= j < |moved| && moved[j] == o[1].id;
    var n := |moved| - 1;
    assert moved[0] in moved && moved[1] in moved && moved[n] in moved;
    assert moved[0] == moved[i] || moved[0] == moved[j];
  }

  lemma {:induction false} BothChange(r: Request, x: Assignment, y: Assignment, c: Candidate)
    requires Schedules(r, [x, y], c) && UniqueBy(Candidates(r), IdOf)
    requires Starts(c.placements) == [1, 6] && x.start != 1 && y.start != 6
    ensures c.changed == 2
  {
    hide DayOf, Candidates, UniqueBy, Evaluate, Moved, TotalChanged;
    var o := [x, y];
    ScheduleMoves(r, o, c);
    SchedulePlaces(r, o, c);
    SameMembers(o, Candidates(r));
    MovedAreTheChanged(c.placements, o, Candidates(r));
    var moved := Moved(c.placements, Candidates(r));
    assert c.placements[0].start == 1 && c.placements[1].start == 6;
    assert TimesDiffer(c.placements[0], o[0]) && TimesDiffer(c.placements[1], o[1]);
    assert o[0].id in moved && o[1].id in moved;
    TwoIds(o, moved);
  }

  /** Both orders have a schedule, with both times changed and nothing idle. */
  lemma {:induction false} EitherOrder(
    a: Assignment, b: Assignment, x: Assignment, y: Assignment
  ) returns (c: Candidate)
    requires TwoVisits(a, b) && ((x == a && y == b) || (x == b && y == a))
    ensures Schedules(LateStart(a, b), [x, y], c) && Starts(c.placements) == [1, 6]
    ensures c.changed == 2 && c.idle == 0 && c.travel == 0
  {
    hide StringLeq, DayOf, Candidates, Evaluate;
    LateStartDay(a, b);
    LateStartMaterials(a, b, 1);
    LateStartMaterials(a, b, 6);
    var r := LateStart(a, b);
    EarliestOfTwo(DayOf(r), x, y);
    assert multiset([x, y]) == multiset([a, b]);
    c := TakenSchedule(r, [x, y], [1, 6]);
    NothingIdle(r, x, y, c);
    BothChange(r, x, y, c);
  }

  lemma {:induction false} TwoOrders(o: seq<Assignment>, a: Assignment, b: Assignment)
    requires multiset(o) == multiset([a, b])
    ensures o == [a, b] || o == [b, a]
  {
    SameMembers(o, [a, b]);
    assert o[0] in o && o[1] in o;
    assert multiset(o) == multiset{o[0], o[1]} by {
      assert o == [o[0], o[1]];
    }
    assert multiset{o[0], o[1]} == multiset{a, b};
    if o[0] == a {
      assert multiset{o[1]} == multiset{o[0], o[1]} - multiset{a} == multiset{b};
      assert o[1] in multiset{b};
    } else {
      assert multiset{o[1]} == multiset{o[0], o[1]} - multiset{b} == multiset{a};
      assert o[1] in multiset{a};
    }
  }

  lemma {:induction false} ConfirmedOrderTies(a: Assignment, b: Assignment, c: Candidate, d: Candidate)
    requires TwoVisits(a, b) && Schedules(LateStart(a, b), [a, b], c) && Schedules(LateStart(a, b), [b, a], d)
    requires c.changed == d.changed && c.idle == d.idle && c.travel == d.travel
    ensures KeyLeq(c, d)
  {
    hide StringLeq, DayOf, Candidates, Evaluate;
    var r := LateStart(a, b);
    SchedulePlaces(r, [a, b], c);
    SchedulePlaces(r, [b, a], d);
    assert Tasks(c.placements)[0] == (a.jobId, a.id) && Tasks(d.placements)[0] == (a.jobId, b.id);
  }

  /** The answer does not mean that no other order is feasible: on this day both orders are, without any idle time, and
      the confirmed one is taken for its task identifiers. */
  lemma {:induction false} AnotherOrderCanBeFeasible(
    a: Assignment, b: Assignment, naming: Naming, result: Result<PlanResult, PlanError>
  )
    requires TwoVisits(a, b) && IsPlan(LateStart(a, b), naming, result)
    ensures result == NoReorder()
    ensures Sort(Candidates(LateStart(a, b)), ByStart) == [a, b] && exists c :: Schedules(LateStart(a, b), [b, a], c)
  {
    var r := LateStart(a, b);
    hide StringLeq, DayOf, Candidates, Evaluate, IsPlan, Sort, Refusal, LateStart, KeyLeq;
    LateStartDay(a, b);
    var c := EitherOrder(a, b, a, b);
    var d := EitherOrder(a, b, b, a);
    ConfirmedOrderTies(a, b, c, d);
    SortedOrderIsConfirmed(r, [a, b]);
    forall o, e | Schedules(r, o, e) ensures KeyLeq(c, e) {
      TwoOrders(o, a, b);
      if o == [a, b] {
        KeyIsTotal();
        assert KeyLeq(c, c);
      }
    }
    assert LeastInConfirmedOrder(r, c);
    NoReorderIffConfirmedOrderIsLeast(r, naming, result);
  }
}
