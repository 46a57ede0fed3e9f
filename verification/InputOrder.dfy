/** The daily plan does not depend on the order in which assignments, jobs, materials, routes or vehicles are listed. */
module InputOrder {
  import opened Prelude
  import opened DispatchModels
  import opened Planner
  import opened DailyPlan
  import opened PlanProperties

  /** Two requests with the same inputs listed in possibly different orders, every key unique. */
  ghost predicate Relisted(r: Request, q: Request) {
    && q == r.(assignments := q.assignments, jobs := q.jobs, materials := q.materials,
               routes := q.routes, vehicles := q.vehicles)
    && multiset(q.assignments) == multiset(r.assignments) && multiset(q.jobs) == multiset(r.jobs)
    && multiset(q.materials) == multiset(r.materials) && multiset(q.routes) == multiset(r.routes)
    && multiset(q.vehicles) == multiset(r.vehicles)
    && UniqueBy(Candidates(r), IdOf) && UniqueBy(Candidates(r), JobTaskOf)
    && UniqueBy(r.jobs, JobId) && UniqueBy(r.materials, TaskOf) && UniqueBy(r.vehicles, VehicleId)
  }

  lemma {:induction false} CandidateCount(r: Request, assignments: seq<Assignment>, a: Assignment)
    ensures multiset(CandidatesAmong(r, assignments))[a] ==
      if !a.status.Completed? && !a.status.Cancelled? && r.localDate(a.start) == r.planningDate
      then multiset(assignments)[a] else 0
  {
    if assignments != [] {
      var n := |assignments| - 1;
      assert assignments == assignments[..n] + [assignments[n]];
      CandidateCount(r, assignments[..n], a);
    }
  }

  lemma {:induction false} ValidRouteCount(routes: seq<Route>, route: Route)
    ensures multiset(ValidRoutes(routes))[route] == if route.valid then multiset(routes)[route] else 0
  {
    if routes != [] {
      var n := |routes| - 1;
      assert routes == routes[..n] + [routes[n]];
      ValidRouteCount(routes[..n], route);
    }
  }

  lemma {:induction false} RelistedCandidates(r: Request, q: Request)
    requires Relisted(r, q)
    ensures multiset(Candidates(q)) == multiset(Candidates(r))
    ensures multiset(ValidRoutes(q.routes)) == multiset(ValidRoutes(r.routes))
  {
    forall a ensures multiset(Candidates(q))[a] == multiset(Candidates(r))[a] {
      CandidateCount(q, q.assignments, a);
      CandidateCount(r, r.assignments, a);
    }
    forall route ensures multiset(ValidRoutes(q.routes))[route] == multiset(ValidRoutes(r.routes))[route] {
      ValidRouteCount(q.routes, route);
      ValidRouteCount(r.routes, route);
    }
  }

  lemma {:induction false} RelistedRefusal(r: Request, q: Request)
    requires Relisted(r, q)
    ensures Refusal(q) == Refusal(r)
    ensures Refusal(r).None? ==> DayOf(q) == DayOf(r)
  {
    hide TableBy, Candidates, ValidRoutes, UniqueBy;
    RelistedCandidates(r, q);
    SameMembers(Candidates(q), Candidates(r));
    TableRearranged(r.jobs, q.jobs, JobId);
    assert forall a :: Located(q, a) <==> Located(r, a);
    if UniqueBy(ValidRoutes(r.routes), PairOf) {
      UniqueRearranged(ValidRoutes(r.routes), ValidRoutes(q.routes), PairOf);
      TableRearranged(ValidRoutes(r.routes), ValidRoutes(q.routes), PairOf);
    } else if UniqueBy(ValidRoutes(q.routes), PairOf) {
      UniqueRearranged(ValidRoutes(q.routes), ValidRoutes(r.routes), PairOf);
    }
    TableRearranged(r.materials, q.materials, TaskOf);
    TableRearranged(r.vehicles, q.vehicles, VehicleId);
  }

  /** With unique job and task pairs no two schedules tie. */
  lemma {:induction false} NoTwoSchedulesTie(
    r: Request, o: seq<Assignment>, b: Candidate, p: seq<Assignment>, c: Candidate
  )
    requires UniqueBy(Candidates(r), JobTaskOf) && Schedules(r, o, b) && Schedules(r, p, c)
    requires KeyLeq(b, c) && KeyLeq(c, b)
    ensures o == p && b == c
  {
    SchedulePlaces(r, o, b);
    SchedulePlaces(r, p, c);
    hide DayOf, Candidates, UniqueBy, PairsLeq, Evaluate, Possible, Earliest;
    PairsLeqOrders(Tasks(b.placements), Tasks(c.placements), []);
    SameMembers(o, Candidates(r));
    SameMembers(p, Candidates(r));
    forall i | 0 <= i < |o| ensures o[i] == p[i] {
      assert Tasks(b.placements)[i] == Tasks(c.placements)[i];
      assert o[i] in o && p[i] in p;
      SameItem(Candidates(r), o[i], p[i], JobTaskOf);
    }
    assert o == p;
  }

  /** ... so the choice is unique. */
  lemma {:induction false} ChoiceIsUnique(r: Request, q: Request, b: Candidate, c: Candidate)
    requires multiset(Candidates(q)) == multiset(Candidates(r)) && DayOf(q) == DayOf(r)
    requires UniqueBy(Candidates(r), JobTaskOf)
    requires Chosen(r, b) && Chosen(q, c)
    ensures b == c
  {
    hide Candidates, DayOf, Chosen, UniqueBy, KeyLeq, Evaluate;
    ChosenIsMinimum(r, b);
    ChosenIsMinimum(q, c);
    var o: seq<Assignment> :| Schedules(r, o, b);
    var p: seq<Assignment> :| Schedules(q, p, c);
    assert Schedules(r, p, c) && Schedules(q, o, b);
    NoTwoSchedulesTie(r, o, b, p, c);
  }

  lemma {:induction false} NotFound(cs: seq<Assignment>, id: string)
    ensures FindAssignment(cs, id).None? <==> forall a | a in cs :: a.id != id
    ensures FindAssignment(cs, id).Some? ==> FindAssignment(cs, id).value in cs && FindAssignment(cs, id).value.id == id
  {
    if cs != [] {
      NotFound(cs[1..], id);
      assert cs == [cs[0]] + cs[1..];
    }
  }

  lemma {:induction false} SameMoves(placements: seq<Placement>, cs: seq<Assignment>, ds: seq<Assignment>)
    requires UniqueBy(cs, IdOf) && multiset(cs) == multiset(ds)
    ensures Moved(placements, cs) == Moved(placements, ds)
  {
    hide UniqueBy, FindAssignment;
    if placements != [] {
      var n := |placements| - 1;
      SameMoves(placements[..n], cs, ds);
      var id := placements[n].assignmentId;
      NotFound(cs, id);
      NotFound(ds, id);
      SameMembers(cs, ds);
      var a, b := FindAssignment(cs, id), FindAssignment(ds, id);
      if a.Some? && b.Some? {
        SameItem(cs, a.value, b.value, IdOf);
      }
      assert a == b;
    }
  }

  lemma {:induction false} ListingIsUnique(a: seq<string>, b: seq<string>, elements: set<string>)
    requires ListsSorted(a, elements) && ListsSorted(b, elements)
    ensures a == b
  {
    forall x, y | StringLeq(x, y) && StringLeq(y, x) ensures x == y {
      StringLeqTotal(x, y);
    }
    SortedListingsAgree(a, b, StringLeq);
  }

  lemma {:induction false} MultiplicityIsOne<T>(s: seq<T>, x: T)
    requires forall i, j | 0 <= i < j < |s| :: s[i] != s[j]
    ensures multiset(s)[x] == if x in s then 1 else 0
  {
    if s != [] {
      var n := |s| - 1;
      assert s == s[..n] + [s[n]];
      MultiplicityIsOne(s[..n], x);
      if s[n] == x {
        assert x !in s[..n];
      }
    }
  }

  lemma {:induction false} RevisionsAreDistinct(cs: seq<Assignment>, affected: seq<string>)
    requires UniqueBy(cs, IdOf)
    ensures forall i, j | 0 <= i < j < |RevisionsAmong(cs, affected)| ::
      RevisionsAmong(cs, affected)[i] != RevisionsAmong(cs, affected)[j]
    ensures forall pair | pair in RevisionsAmong(cs, affected) :: exists i | 0 <= i < |cs| :: cs[i].id == pair.0
  {
    if cs != [] {
      var n := |cs| - 1;
      RevisionsAreDistinct(cs[..n], affected);
      assert forall i | 0 <= i < n :: cs[..n][i] == cs[i] && IdOf(cs[i]) != IdOf(cs[n]);
    }
  }

  lemma {:induction false} RevisionsAreOrdered()
    ensures TotalPreorder(RevisionLeq)
    ensures forall x, y | RevisionLeq(x, y) && RevisionLeq(y, x) :: x == y
  {
    forall x: (string, nat), y: (string, nat)
      ensures (RevisionLeq(x, y) || RevisionLeq(y, x)) && (RevisionLeq(x, y) && RevisionLeq(y, x) ==> x == y)
    {
      StringLeqTotal(x.0, y.0);
    }
    forall x: (string, nat), y: (string, nat), z: (string, nat) | RevisionLeq(x, y) && RevisionLeq(y, z)
      ensures RevisionLeq(x, z)
    {
      if StringLeq(x.0, y.0) && StringLeq(y.0, z.0) {
        StringLeqTransitive(x.0, y.0, z.0);
        StringLeqTotal(x.0, y.0);
        StringLeqTotal(y.0, z.0);
      }
    }
  }

  lemma {:induction false} SameRevisions(cs: seq<Assignment>, ds: seq<Assignment>, affected: seq<string>)
    requires UniqueBy(cs, IdOf) && multiset(cs) == multiset(ds)
    ensures Sort(RevisionsAmong(cs, affected), RevisionLeq) == Sort(RevisionsAmong(ds, affected), RevisionLeq)
  {
    hide UniqueBy, Sort, RevisionsAmong;
    var x, y := RevisionsAmong(cs, affected), RevisionsAmong(ds, affected);
    UniqueRearranged(cs, ds, IdOf);
    RevisionsAreDistinct(cs, affected);
    RevisionsAreDistinct(ds, affected);
    SameMembers(cs, ds);
    forall pair: (string, nat) ensures multiset(x)[pair] == multiset(y)[pair] {
      RevisionsOfAffected(cs, affected, pair.0, pair.1);
      RevisionsOfAffected(ds, affected, pair.0, pair.1);
      MultiplicityIsOne(x, pair);
      MultiplicityIsOne(y, pair);
      assert pair == (pair.0, pair.1);
    }
    RevisionsAreOrdered();
    SortSorts(x, RevisionLeq);
    SortSorts(y, RevisionLeq);
    SortPermutes(x, RevisionLeq);
    SortPermutes(y, RevisionLeq);
    SortedListingsAgree(Sort(x, RevisionLeq), Sort(y, RevisionLeq), RevisionLeq);
  }

  lemma {:induction false} FindOrderMeans(evaluated: seq<Candidate>, ids: seq<string>)
    ensures FindOrder(evaluated, ids).None? <==> forall c | c in evaluated :: Ids(c.placements) != ids
    ensures FindOrder(evaluated, ids).Some? ==>
      FindOrder(evaluated, ids).value in evaluated && Ids(FindOrder(evaluated, ids).value.placements) == ids
  {
    if evaluated != [] {
      FindOrderMeans(evaluated[1..], ids);
      assert evaluated == [evaluated[0]] + evaluated[1..];
    }
  }

  /** The "before" figures of a proposal are those of the confirmed order, when that order is feasible. */
  lemma {:induction false} BaselineIsConfirmedOrder(r: Request)
    requires UniqueBy(Candidates(r), IdOf)
    ensures var confirmed := Sort(Candidates(r), ByStart);
      FindOrder(Sort(Evaluated(r), KeyLeq), Ids(ConfirmedSchedule(Candidates(r)))) ==
        match Evaluate(DayOf(r), confirmed) case Ok(c) => Some(c) case Err(_) => None
  {
    hide Sort, UniqueBy, Candidates, Evaluated, Evaluate, FindOrder;
    var confirmed := Sort(Candidates(r), ByStart);
    var ids := Ids(ConfirmedSchedule(Candidates(r)));
    var ranked := Sort(Evaluated(r), KeyLeq);
    SortPermutes(Candidates(r), ByStart);
    SortPermutes(Evaluated(r), KeyLeq);
    EvaluatedAreSchedules(r);
    FindOrderMeans(ranked, ids);
    forall o, c | Schedules(r, o, c) ensures Ids(c.placements) == ids <==> o == confirmed {
      SchedulePlaces(r, o, c);
      PlannedIds(o, c.placements, Candidates(r));
    }
    if Evaluate(DayOf(r), confirmed).Ok? {
      assert Schedules(r, confirmed, Evaluate(DayOf(r), confirmed).value);
    }
  }

  lemma {:induction false} SameProposal(
    r: Request, q: Request, naming: Naming, best: Candidate, x: Proposal, y: Proposal
  )
    requires Relisted(r, q) && DayOf(q) == DayOf(r) && multiset(Candidates(q)) == multiset(Candidates(r))
    requires ConfirmedSchedule(Candidates(r)) == ConfirmedSchedule(Candidates(q))
    requires Sort(Candidates(r), ByStart) == Sort(Candidates(q), ByStart)
    requires IsProposal(r, naming, best, x) && IsProposal(q, naming, best, y)
    ensures x == y
  {
    hide Sort, UniqueBy, Candidates, Evaluated, Evaluate, FindOrder, Moved, RevisionsAmong, DayOf, ListsSorted;
    var cs, ds := Candidates(r), Candidates(q);
    SameMembers(cs, ds);
    UniqueRearranged(cs, ds, IdOf);
    SameMoves(best.placements, cs, ds);
    var affected := Moved(best.placements, cs);
    assert AffectedWorkflows(cs, affected) == AffectedWorkflows(ds, affected);
    assert AffectedJobs(cs, affected) == AffectedJobs(ds, affected);
    ListingIsUnique(x.affectedJobs, y.affectedJobs, AffectedJobs(cs, affected));
    ListingIsUnique(x.affectedWorkflows, y.affectedWorkflows, AffectedWorkflows(cs, affected));
    assert x.expectedWorkflowRevisions == y.expectedWorkflowRevisions;
    SameRevisions(cs, ds, affected);
    SameMembers(r.materials, q.materials);
    assert MaterialReferences(r.materials, AffectedJobs(cs, affected)) ==
      MaterialReferences(q.materials, AffectedJobs(cs, affected));
    BaselineIsConfirmedOrder(r);
    BaselineIsConfirmedOrder(q);
    assert PayloadOf(x) == PayloadOf(y);
  }

  lemma {:induction false} SameConclusion(
    r: Request, q: Request, naming: Naming, best: Candidate,
    x: Result<PlanResult, PlanError>, y: Result<PlanResult, PlanError>
  )
    requires Relisted(r, q) && Refusal(r).None?
    requires Concludes(r, naming, best, x) && Concludes(q, naming, best, y)
    ensures x == y
  {
    hide Sort, UniqueBy, Candidates, Evaluated, Evaluate, FindOrder, Moved, RevisionsAmong, Refusal, DayOf;
    var cs, ds := Candidates(r), Candidates(q);
    RelistedCandidates(r, q);
    RelistedRefusal(r, q);
    SameMembers(cs, ds);
    UniqueRearranged(cs, ds, IdOf);
    SortPermutes(ds, ByStart);
    StartIsTotal();
    SortSorts(ds, ByStart);
    SortedOrderIsConfirmed(r, Sort(ds, ByStart));
    assert ConfirmedSchedule(cs) == ConfirmedSchedule(ds);
    SameMoves(best.placements, cs, ds);
    var affected := Moved(best.placements, cs);
    assert AffectedWorkflows(cs, affected) == AffectedWorkflows(ds, affected);
    assert AffectedJobs(cs, affected) == AffectedJobs(ds, affected);
    if Ids(best.placements) != Ids(ConfirmedSchedule(cs)) {
      if AffectedWorkflows(cs, affected) <= r.workflowRevisions.Keys {
        SameProposal(r, q, naming, best, x.value.proposal, y.value.proposal);
      } else {
        StringLeqTotal(x.error.workflowId, y.error.workflowId);
      }
    }
  }

  lemma {:induction false} SchedulesCarryOver(r: Request, q: Request)
    requires multiset(Candidates(q)) == multiset(Candidates(r)) && DayOf(q) == DayOf(r)
    requires Evaluated(r) != []
    ensures Evaluated(q) != []
  {
    hide Evaluated, Candidates, DayOf;
    EvaluatedAreSchedules(r);
    assert Evaluated(r)[0] in Evaluated(r);
    var o :| Schedules(r, o, Evaluated(r)[0]);
    ScheduleIsEvaluated(q, o, Evaluated(r)[0]);
  }

  lemma {:induction false} SameFailures(r: Request, q: Request)
    requires multiset(Candidates(q)) == multiset(Candidates(r)) && DayOf(q) == DayOf(r)
    ensures Evaluated(r) == [] <==> Evaluated(q) == []
    ensures forall o, f :: Fails(r, o, f) <==> Fails(q, o, f)
  {
    hide Evaluated, Candidates, DayOf;
    if Evaluated(r) != [] {
      SchedulesCarryOver(r, q);
    } else if Evaluated(q) != [] {
      SchedulesCarryOver(q, r);
    }
  }

  /** The plan is a function of the set of inputs: listing them in another order gives the same answer. */
  lemma {:induction false} InputOrderIsIrrelevant(
    r: Request, q: Request, naming: Naming, x: Result<PlanResult, PlanError>, y: Result<PlanResult, PlanError>
  )
    requires Relisted(r, q) && IsPlan(r, naming, x) && IsPlan(q, naming, y)
    ensures x == y
  {
    hide UniqueBy, Candidates, Evaluated, Refusal, Chosen, Concludes, DayOf, Fails;
    RelistedRefusal(r, q);
    RelistedCandidates(r, q);
    if ValidWorkday(r) && Refusal(r).None? {
      SameFailures(r, q);
      if Evaluated(r) == [] {
        assert x.value.reasons == y.value.reasons;
      } else {
        var b :| Chosen(r, b) && Concludes(r, naming, b, x);
        var c :| Chosen(q, c) && Concludes(q, naming, c, y);
        ChoiceIsUnique(r, q, b, c);
        SameConclusion(r, q, naming, b, x, y);
      }
    }
  }
}
