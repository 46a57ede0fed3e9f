/** What the daily plan guarantees for every request: minimality, when it keeps the calendar, what a proposal
    contains, and that the order in which inputs are listed is irrelevant. */
module PlanProperties {
  import opened Prelude
  import opened DispatchModels
  import opened Planner
  import opened DailyPlan

  function IdOf(a: Assignment): string { a.id }

  function JobTaskOf(a: Assignment): (string, string) { (a.jobId, a.taskId) }

  /** The placements keep the confirmed times of the assignments they place. */
  ghost predicate KeepsTimes(placements: seq<Placement>, ordering: seq<Assignment>) {
    |placements| == |ordering|
    && forall i | 0 <= i < |placements| ::
         placements[i].start == ordering[i].start && placements[i].end == ordering[i].end
  }

  /** The chosen candidate is a schedule of some order, and the lexicographic minimum over all of them. */
  lemma {:induction false} ChosenIsMinimum(r: Request, best: Candidate)
    requires Chosen(r, best)
    ensures exists ordering :: Schedules(r, ordering, best)
    ensures forall ordering, c | Schedules(r, ordering, c) :: KeyLeq(best, c)
  {
    hide Evaluated, KeyLeq, Schedules;
    EvaluatedAreSchedules(r);
    assert best in Evaluated(r);
    forall ordering, c | Schedules(r, ordering, c) ensures KeyLeq(best, c) {
      assert c in Evaluated(r);
    }
  }

  lemma {:induction false} SchedulePlaces(r: Request, ordering: seq<Assignment>, c: Candidate)
    requires Schedules(r, ordering, c)
    ensures PlacesInOrder(c.placements, ordering) && c.changed == TotalChanged(c.placements, ordering)
    ensures Possible(DayOf(r), ordering, Starts(c.placements)) && Earliest(DayOf(r), ordering, Starts(c.placements))
  {
    hide Possible, Earliest;
    RunPlacesInOrder(DayOf(r), ordering);
    RunIsEarliest(DayOf(r), ordering);
  }

  lemma {:induction false} NoChangeAmongOthers(p: Placement, others: seq<Assignment>, a: Assignment)
    requires UniqueBy(others + [a], IdOf) && p.assignmentId == a.id
    ensures CountChanged(p, others) == 0
  {
    if others != [] {
      var n := |others| - 1;
      assert (others + [a])[n] == others[n] && (others + [a])[n + 1] == a;
      assert IdOf(others[n]) != IdOf(a);
      assert forall i | 0 <= i < n :: (others[..n] + [a])[i] == (others + [a])[i];
      NoChangeAmongOthers(p, others[..n], a);
    }
  }

  /** Starts that are possible and earliest are those of a schedule. */
  lemma {:induction false} TakenSchedule(r: Request, o: seq<Assignment>, starts: seq<int>) returns (c: Candidate)
    requires multiset(o) == multiset(Candidates(r)) && Earliest(DayOf(r), o, starts) && Possible(DayOf(r), o, starts)
    ensures Schedules(r, o, c) && Starts(c.placements) == starts
  {
    hide Run, Earliest, Possible, Candidates, DayOf, TotalChanged;
    AcceptedIffEarliestIsPossible(DayOf(r), o, starts);
    c := Evaluate(DayOf(r), o).value;
  }

  lemma {:induction false} ChangesOfOne(p: Placement, ordering: seq<Assignment>, k: nat)
    requires UniqueBy(ordering, IdOf) && k < |ordering| && p.assignmentId == ordering[k].id
    ensures CountChanged(p, ordering) == if p.start != ordering[k].start || p.end != ordering[k].end then 1 else 0
  {
    var n := |ordering| - 1;
    if k < n {
      assert IdOf(ordering[k]) != IdOf(ordering[n]);
      assert forall i | 0 <= i < n :: ordering[..n][i] == ordering[i];
      ChangesOfOne(p, ordering[..n], k);
    } else {
      NoChangeAmongOthers(p, ordering[..n], ordering[n]);
    }
  }

  lemma {:induction false} FindsTheAssignment(cs: seq<Assignment>, a: Assignment)
    requires UniqueBy(cs, IdOf) && a in cs
    ensures FindAssignment(cs, a.id) == Some(a)
  {
    if cs[0] != a {
      var k :| 0 <= k < |cs| && cs[k] == a;
      assert IdOf(cs[0]) != IdOf(cs[k]);
      assert forall i | 0 <= i < |cs| - 1 :: cs[1..][i] == cs[i + 1];
      FindsTheAssignment(cs[1..], a);
    }
  }

  predicate TimesDiffer(p: Placement, a: Assignment) {
    p.start != a.start || p.end != a.end
  }

  /** The affected list of a prefix of the schedule: exactly the placements with new times, each once. */
  lemma {:induction false} MovedAreTheChanged(
    placements: seq<Placement>, ordering: seq<Assignment>, cs: seq<Assignment>
  )
    requires UniqueBy(ordering, IdOf) && UniqueBy(cs, IdOf) && forall a | a in ordering :: a in cs
    requires |placements| <= |ordering|
    requires forall i | 0 <= i < |placements| ::
      placements[i] == PlacedAt(ordering[i], placements[i].start)
    ensures |Moved(placements, cs)| == TotalChanged(placements, ordering)
    ensures forall id :: id in Moved(placements, cs) <==>
      exists i | 0 <= i < |placements| :: ordering[i].id == id && TimesDiffer(placements[i], ordering[i])
    ensures forall i, j | 0 <= i < j < |Moved(placements, cs)| :: Moved(placements, cs)[i] != Moved(placements, cs)[j]
  {
    hide CountChanged, FindAssignment;
    if placements != [] {
      var n := |placements| - 1;
      var init, last, a := placements[..n], placements[n], ordering[n];
      MovedAreTheChanged(init, ordering, cs);
      ChangesOfOne(last, ordering, n);
      FindsTheAssignment(cs, a);
      assert HasMoved(last, cs) <==> TimesDiffer(last, a);
      assert forall i | 0 <= i < n :: init[i] == placements[i];
      assert a.id !in Moved(init, cs) by {
        assert forall i | 0 <= i < n :: IdOf(ordering[i]) != IdOf(ordering[n]);
      }
    }
  }

  /** With unique assignment identifiers, what the affected list of a schedule of some order contains. */
  lemma {:induction false} ScheduleMoves(r: Request, ordering: seq<Assignment>, c: Candidate)
    requires Schedules(r, ordering, c) && UniqueBy(Candidates(r), IdOf)
    ensures UniqueBy(ordering, IdOf) && |c.placements| == |ordering|
    ensures |Moved(c.placements, Candidates(r))| == c.changed
    ensures c.changed == 0 <==> KeepsTimes(c.placements, ordering)
    ensures forall id :: id in Moved(c.placements, Candidates(r)) <==>
      exists i | 0 <= i < |ordering| :: ordering[i].id == id && TimesDiffer(c.placements[i], ordering[i])
  {
    hide Moved, TotalChanged, UniqueBy, Candidates, CandidatesAmong;
    SchedulePlaces(r, ordering, c);
    UniqueRearranged(Candidates(r), ordering, IdOf);
    SameMembers(ordering, Candidates(r));
    var affected := Moved(c.placements, Candidates(r));
    MovedAreTheChanged(c.placements, ordering, Candidates(r));
    if affected == [] {
      forall i | 0 <= i < |ordering| ensures !TimesDiffer(c.placements[i], ordering[i]) {
        assert ordering[i].id !in affected;
      }
    } else {
      assert affected[0] in affected;
    }
  }

  lemma {:induction false} ScheduleRearranges(r: Request, ordering: seq<Assignment>, c: Candidate)
    requires Schedules(r, ordering, c)
    ensures multiset(ordering) == multiset(Candidates(r))
  {}

  lemma {:induction false} SortedOrderIsConfirmed(r: Request, ordering: seq<Assignment>)
    requires multiset(ordering) == multiset(Candidates(r)) && SortedBy(ordering, ByStart)
    requires UniqueBy(Candidates(r), IdOf)
    ensures ordering == Sort(Candidates(r), ByStart)
  {
    hide Sort, UniqueBy, Candidates;
    var cs := Candidates(r);
    StartIsTotal();
    SortSorts(cs, ByStart);
    SortPermutes(cs, ByStart);
    UniqueRearranged(cs, ordering, IdOf);
    forall x, y | x in ordering && y in ordering && ByStart(x, y) && ByStart(y, x) ensures x == y {
      StringLeqTotal(x.id, y.id);
      SameItem(ordering, x, y, IdOf);
    }
    SortedListingsAgree(ordering, Sort(cs, ByStart), ByStart);
  }

  lemma {:induction false} StartsIncrease(day: Day, ordering: seq<Assignment>, starts: seq<int>)
    requires RespectsBounds(day, ordering, starts)
    ensures forall i, j | 0 <= i < j < |starts| :: starts[i] < starts[j]
  {
    if |ordering| > 1 {
      var n := |ordering| - 1;
      BoundsOfPrefix(day, ordering, starts, n);
      StartsIncrease(day, ordering[..n], starts[..n]);
      assert Follows(day, ordering[n - 1], starts[n - 1], ordering[n], starts[n]);
      forall i | 0 <= i < n ensures starts[i] < starts[n] {
        assert starts[..n][i] <= starts[..n][n - 1];
      }
      forall i, j | 0 <= i < j < |starts| ensures starts[i] < starts[j] {
        if j < n {
          assert starts[..n][i] < starts[..n][j];
        }
      }
    }
  }

  /** An order that keeps every confirmed time is the order of the confirmed starts. */
  lemma {:induction false} KeptOrderIsConfirmed(r: Request, ordering: seq<Assignment>, c: Candidate)
    requires Schedules(r, ordering, c) && UniqueBy(Candidates(r), IdOf) && KeepsTimes(c.placements, ordering)
    ensures ordering == Sort(Candidates(r), ByStart)
  {
    hide Sort, Schedules;
    SchedulePlaces(r, ordering, c);
    StartsIncrease(DayOf(r), ordering, Starts(c.placements));
    assert SortedBy(ordering, ByStart);
    assert multiset(ordering) == multiset(Candidates(r)) by {
      ScheduleRearranges(r, ordering, c);
    }
    SortedOrderIsConfirmed(r, ordering);
  }

  /** Some order of the candidates, placed greedily, reproduces every confirmed time. */
  ghost predicate CalendarAlreadyStands(r: Request) {
    exists ordering, c :: Schedules(r, ordering, c) && KeepsTimes(c.placements, ordering)
  }

  lemma {:induction false} PlannedIds(ordering: seq<Assignment>, placements: seq<Placement>, cs: seq<Assignment>)
    requires PlacesInOrder(placements, ordering) && multiset(ordering) == multiset(cs) && UniqueBy(cs, IdOf)
    ensures Ids(placements) == Ids(ConfirmedSchedule(cs)) <==> ordering == Sort(cs, ByStart)
  {
    hide Sort, UniqueBy;
    var sorted := Sort(cs, ByStart);
    SortPermutes(cs, ByStart);
    SameMembers(ordering, cs);
    if Ids(placements) == Ids(ConfirmedSchedule(cs)) {
      forall i | 0 <= i < |ordering| ensures ordering[i] == sorted[i] {
        assert Ids(placements)[i] == Ids(ConfirmedSchedule(cs))[i];
        assert ordering[i] in ordering && sorted[i] in sorted;
        SameItem(cs, ordering[i], sorted[i], IdOf);
      }
    }
  }

  /** When the chosen candidate keeps the confirmed order, it keeps the calendar exactly when nothing changed. */
  lemma {:induction false} ChosenKeepsCalendar(r: Request, best: Candidate)
    requires UniqueBy(Candidates(r), IdOf) && Chosen(r, best)
    ensures CalendarAlreadyStands(r) <==> best.changed == 0
    ensures best.changed == 0 ==>
      Ids(best.placements) == Ids(ConfirmedSchedule(Candidates(r)))
        && SameTimes(best.placements, ConfirmedSchedule(Candidates(r)))
    ensures Ids(best.placements) == Ids(ConfirmedSchedule(Candidates(r))) ==>
      SameTimes(best.placements, ConfirmedSchedule(Candidates(r))) ==> best.changed == 0
  {
    hide Schedules, Sort, Candidates, UniqueBy, Chosen, Moved;
    ChosenIsMinimum(r, best);
    var o: seq<Assignment> :| Schedules(r, o, best);
    ScheduleMoves(r, o, best);
    SchedulePlaces(r, o, best);
    ScheduleRearranges(r, o, best);
    PlannedIds(o, best.placements, Candidates(r));
    if best.changed == 0 {
      KeptOrderIsConfirmed(r, o, best);
    }
    if CalendarAlreadyStands(r) {
      var o', c :| Schedules(r, o', c) && KeepsTimes(c.placements, o');
      ScheduleMoves(r, o', c);
      assert KeyLeq(best, c);
    }
  }

  lemma {:induction false} NothingEvaluatedNothingStands(r: Request)
    requires Evaluated(r) == []
    ensures !CalendarAlreadyStands(r)
  {
    hide Evaluated, Schedules;
    EvaluatedAreSchedules(r);
    if CalendarAlreadyStands(r) {
      var o, c :| Schedules(r, o, c) && KeepsTimes(c.placements, o);
      ScheduleIsEvaluated(r, o, c);
    }
  }

  /** The planner reports no change exactly when no ground for refusal exists and some order reproduces the calendar. */
  lemma {:induction false} NoChangeIffCalendarStands(r: Request, naming: Naming, result: Result<PlanResult, PlanError>)
    requires IsPlan(r, naming, result) && UniqueBy(Candidates(r), IdOf)
    ensures result == Ok(NoChange) <==> ValidWorkday(r) && Refusal(r).None? && CalendarAlreadyStands(r)
  {
    hide UniqueBy, Candidates, Evaluated, Refusal, Chosen, IsProposal;
    if ValidWorkday(r) && Refusal(r).None? {
      if Evaluated(r) == [] {
        NothingEvaluatedNothingStands(r);
      } else {
        var best :| Chosen(r, best) && Concludes(r, naming, best, result);
        ChosenKeepsCalendar(r, best);
      }
    }
  }

  // ---------------------------------------------------------------- a refused day cannot be scheduled

  /** The answer that every order of the candidates was refused. */
  predicate EveryOrderFails(result: Result<PlanResult, PlanError>) {
    result.Ok? && result.value.NoFeasibleReplan? && forall x | x in result.value.reasons :: x.OrderFails?
  }

  ghost predicate CanBeScheduled(r: Request) {
    exists ordering, starts :: multiset(ordering) == multiset(Candidates(r)) && Possible(DayOf(r), ordering, starts)
  }

  lemma {:induction false} ScheduledDayIsEvaluated(r: Request)
    requires AvailableEarlier(DayOf(r))
    ensures CanBeScheduled(r) <==> Evaluated(r) != []
  {
    hide Evaluated, Candidates, AvailableEarlier, Possible, Run;
    if CanBeScheduled(r) {
      var ordering, starts :| multiset(ordering) == multiset(Candidates(r)) && Possible(DayOf(r), ordering, starts);
      PossibleOrderRuns(DayOf(r), ordering, starts);
      ScheduleIsEvaluated(r, ordering, Evaluate(DayOf(r), ordering).value);
    }
    if Evaluated(r) != [] {
      EvaluatedAreSchedules(r);
      assert Evaluated(r)[0] in Evaluated(r);
      var ordering :| Schedules(r, ordering, Evaluated(r)[0]);
      RunIsEarliest(DayOf(r), ordering);
    }
  }

  /** For hours that make refusals final, the planner reports that every order fails exactly when the day cannot be
      scheduled at all: no possible day is missed. */
  lemma {:induction false} NoPossibleDayIsMissed(r: Request, naming: Naming, result: Result<PlanResult, PlanError>)
    requires IsPlan(r, naming, result) && ValidWorkday(r) && Refusal(r).None? && AvailableEarlier(DayOf(r))
    ensures EveryOrderFails(result) <==> !CanBeScheduled(r)
  {
    hide Evaluated, Candidates, AvailableEarlier, CanBeScheduled, Chosen, IsProposal, Refusal, Moved, ConfirmedSchedule;
    ScheduledDayIsEvaluated(r);
    if Evaluated(r) != [] {
      var best :| Chosen(r, best) && Concludes(r, naming, best, result);
      assert NoFeasibleReorder in {NoFeasibleReorder};
    }
  }

  /** What a proposal for the calendar of `r` promises. */
  ghost predicate SoundProposal(r: Request, p: Proposal, ordering: seq<Assignment>, best: Candidate) {
    && Schedules(r, ordering, best) && p.afterSchedule == best.placements
    && ordering != Sort(Candidates(r), ByStart)
    && (forall o, c | Schedules(r, o, c) :: KeyLeq(best, c))
    && Possible(DayOf(r), ordering, Starts(best.placements))
    && p.affectedAssignments != [] && |p.affectedAssignments| == best.changed
    && |best.placements| == |ordering|
    && (forall id :: id in p.affectedAssignments <==>
          exists i | 0 <= i < |ordering| :: ordering[i].id == id && TimesDiffer(best.placements[i], ordering[i]))
    && (forall id, revision :: (id, revision) in p.expectedCalendarRevisions <==>
          exists a | a in Candidates(r) :: a.id == id && a.revision == revision && id in p.affectedAssignments)
    && (forall pair | pair in p.expectedCalendarRevisions :: pair.0 in Ids(p.afterSchedule))
  }

  lemma {:induction false} RevisionsOfAffected(cs: seq<Assignment>, affected: seq<string>, id: string, revision: nat)
    ensures (id, revision) in RevisionsAmong(cs, affected) <==>
      exists a | a in cs :: a.id == id && a.revision == revision && id in affected
  {
    if cs != [] {
      var n := |cs| - 1;
      assert cs == cs[..n] + [cs[n]];
      RevisionsOfAffected(cs[..n], affected, id, revision);
    }
  }

  lemma {:induction false} ProposalRevisions(r: Request, p: Proposal)
    requires p.expectedCalendarRevisions == Sort(RevisionsAmong(Candidates(r), p.affectedAssignments), RevisionLeq)
    ensures forall id, revision :: (id, revision) in p.expectedCalendarRevisions <==>
          exists a | a in Candidates(r) :: a.id == id && a.revision == revision && id in p.affectedAssignments
  {
    hide Sort, RevisionsAmong, Candidates;
    SortPermutes(RevisionsAmong(Candidates(r), p.affectedAssignments), RevisionLeq);
    forall id, revision: nat ensures (id, revision) in p.expectedCalendarRevisions <==>
      exists a | a in Candidates(r) :: a.id == id && a.revision == revision && id in p.affectedAssignments
    {
      RevisionsOfAffected(Candidates(r), p.affectedAssignments, id, revision);
    }
  }

  lemma {:induction false} MovedArePlaced(placements: seq<Placement>, cs: seq<Assignment>)
    ensures forall id | id in Moved(placements, cs) :: id in Ids(placements)
  {
    if placements != [] {
      var n := |placements| - 1;
      MovedArePlaced(placements[..n], cs);
      assert Ids(placements) == Ids(placements[..n]) + [placements[n].assignmentId];
    }
  }

  lemma {:induction false} RevisionsArePlaced(r: Request, p: Proposal, best: Candidate)
    requires p.affectedAssignments == Moved(best.placements, Candidates(r))
    requires p.expectedCalendarRevisions == Sort(RevisionsAmong(Candidates(r), p.affectedAssignments), RevisionLeq)
    ensures forall pair | pair in p.expectedCalendarRevisions :: pair.0 in Ids(best.placements)
  {
    hide Sort, RevisionsAmong, Candidates, Moved;
    ProposalRevisions(r, p);
    MovedArePlaced(best.placements, Candidates(r));
    forall pair | pair in p.expectedCalendarRevisions ensures pair.0 in Ids(best.placements) {
      assert (pair.0, pair.1) in p.expectedCalendarRevisions;
    }
  }

  /** A proposal is created only for a different order; it names exactly the assignments it moves, and at least one. */
  lemma {:induction false} ProposalIsSound(r: Request, naming: Naming, result: Result<PlanResult, PlanError>)
    requires IsPlan(r, naming, result) && UniqueBy(Candidates(r), IdOf)
    requires result.Ok? && result.value.ProposalCreated?
    ensures exists ordering, best :: SoundProposal(r, result.value.proposal, ordering, best)
  {
    hide UniqueBy, Candidates, Evaluated, Refusal, Chosen, Sort, Moved, RevisionsAmong, Schedules, Possible, Earliest,
      KeyLeq, ByStart, PayloadOf, AffectedJobs, AffectedWorkflows, MaterialReferences, ListsSorted, FindOrder,
      SameTimes, ConfirmedSchedule, TotalChanged, DayOf;
    var best :| Chosen(r, best) && Concludes(r, naming, best, result);
    var p := result.value.proposal;
    ChosenIsMinimum(r, best);
    var o: seq<Assignment> :| Schedules(r, o, best);
    ScheduleMoves(r, o, best);
    SchedulePlaces(r, o, best);
    ScheduleRearranges(r, o, best);
    PlannedIds(o, best.placements, Candidates(r));
    if best.changed == 0 {
      KeptOrderIsConfirmed(r, o, best);
    }
    ProposalRevisions(r, p);
    RevisionsArePlaced(r, p, best);
    assert SoundProposal(r, p, o, best);
  }
}
