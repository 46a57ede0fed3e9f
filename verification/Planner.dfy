/** The daily dispatch planner: greedy placement of one order, comparison of every order of the unfinished
    same-worker assignments, and the lexicographic choice among the feasible ones. */
module Planner {
  import opened Prelude
  import opened DispatchModels

  datatype MaterialStatus = Ready | Expected | Blocked

  datatype MaterialRecord = Material(
    jobId: string, taskId: string, status: MaterialStatus, availableAt: Option<int>, blocking: bool, revision: nat)

  /** Blocking material that is only expected names the instant at which it arrives. */
  type Material = m: MaterialRecord | m.blocking && m.status.Expected? ==> m.availableAt.Some?
    witness MaterialRecord.Material("", "", Ready, None, false, 0)

  datatype Route = Route(id: string, origin: string, destination: string, travelSeconds: nat, valid: bool)

  datatype Window = Window(start: int, end: int)

  datatype Worker = Worker(id: string, skills: set<string>, availability: seq<Window>)

  datatype Vehicle = Vehicle(id: string, availability: seq<Window>)

  datatype Job = Job(id: string, addressConfirmed: bool, hasCoordinates: bool)

  datatype Failure =
    | RouteSnapshotMissing | MaterialReadinessMissing | MaterialBlocked
    | WorkingHoursExceeded | HardDeadlineViolation | WorkerUnavailable | VehicleUnavailable

  /** Everything a single order is evaluated against. */
  datatype Day = Day(
    start: int, end: int, materials: map<(string, string), Material>, routes: map<(string, string), Route>,
    worker: Worker, vehicles: map<string, Vehicle>)

  datatype Candidate = Candidate(
    placements: seq<Placement>, changed: nat, idle: int, travel: int, routeIds: seq<string>, conditional: bool)

  predicate Covers(start: int, end: int, windows: seq<Window>) {
    exists w | w in windows :: w.start <= start && end <= w.end
  }

  // ---------------------------------------------------------------- what makes a schedule possible

  /** `b` may start at `t` after `a` started at `s`: a route is known and its travel time fits. */
  predicate Follows(day: Day, a: Assignment, s: int, b: Assignment, t: int) {
    if a.jobId == b.jobId then s + a.Duration() <= t
    else (a.jobId, b.jobId) in day.routes
         && s + a.Duration() + day.routes[(a.jobId, b.jobId)].travelSeconds <= t
  }

  /** The material for `a` is known, not blocked, and not expected after `t`. */
  predicate MaterialAllows(day: Day, a: Assignment, t: int) {
    && (a.jobId, a.taskId) in day.materials
    && var m := day.materials[(a.jobId, a.taskId)];
       m.blocking ==> !m.status.Blocked? && (m.status.Expected? ==> m.availableAt.value <= t)
  }

  /** Start, travel and material lower bounds for one order. */
  ghost predicate RespectsBounds(day: Day, ordering: seq<Assignment>, starts: seq<int>) {
    && |starts| == |ordering|
    && (forall i | 0 <= i < |ordering| :: MaterialAllows(day, ordering[i], starts[i]))
    && (ordering != [] ==> day.start <= starts[0])
    && (forall i, j | 0 <= i && j == i + 1 && j < |ordering| ::
          Follows(day, ordering[i], starts[i], ordering[j], starts[j]))
  }

  predicate WithinHours(day: Day, a: Assignment, t: int) {
    t + a.Duration() <= day.end
  }

  predicate MeetsDeadline(a: Assignment, t: int) {
    a.hardDeadline.Some? ==> t + a.Duration() <= a.hardDeadline.value
  }

  predicate Staffed(day: Day, a: Assignment, t: int) {
    Covers(t, t + a.Duration(), day.worker.availability)
  }

  predicate Equipped(day: Day, a: Assignment, t: int) {
    a.vehicleId.Some? ==>
      a.vehicleId.value in day.vehicles
      && Covers(t, t + a.Duration(), day.vehicles[a.vehicleId.value].availability)
  }

  /** Workday end, hard deadline and availability for one assignment. */
  predicate Permitted(day: Day, a: Assignment, t: int) {
    WithinHours(day, a, t) && MeetsDeadline(a, t) && Staffed(day, a, t) && Equipped(day, a, t)
  }

  ghost predicate Possible(day: Day, ordering: seq<Assignment>, starts: seq<int>) {
    && RespectsBounds(day, ordering, starts)
    && forall i | 0 <= i < |ordering| :: Permitted(day, ordering[i], starts[i])
  }

  ghost predicate NowhereLater(starts: seq<int>, other: seq<int>) {
    |starts| == |other| && forall i | 0 <= i < |starts| :: starts[i] <= other[i]
  }

  /** The pointwise earliest starts among all that respect the bounds. */
  ghost predicate Earliest(day: Day, ordering: seq<Assignment>, starts: seq<int>) {
    && RespectsBounds(day, ordering, starts)
    && forall other | RespectsBounds(day, ordering, other) :: NowhereLater(starts, other)
  }

  // ---------------------------------------------------------------- _evaluate_order

  datatype Progress = Progress(
    cursor: int, placements: seq<Placement>, routeIds: seq<string>, idle: int, travel: int, conditional: bool)

  /** The first rule that forbids `a` to start at `t`. */
  function Violation(day: Day, a: Assignment, t: int): Option<Failure> {
    if !WithinHours(day, a, t) then Some(WorkingHoursExceeded)
    else if !MeetsDeadline(a, t) then Some(HardDeadlineViolation)
    else if !Staffed(day, a, t) then Some(WorkerUnavailable)
    else if !Equipped(day, a, t) then Some(VehicleUnavailable)
    else None
  }

  /** The greedy step: travel, wait for material, place at once or fail. */
  function Step(day: Day, p: Progress, previous: Option<string>, a: Assignment): Result<Progress, Failure> {
    var drives := previous.Some? && previous.value != a.jobId;
    if drives && (previous.value, a.jobId) !in day.routes then Err(RouteSnapshotMissing)
    else
      var travel := if drives then day.routes[(previous.value, a.jobId)].travelSeconds else 0;
      var routeIds := if drives then p.routeIds + [day.routes[(previous.value, a.jobId)].id] else p.routeIds;
      if (a.jobId, a.taskId) !in day.materials then Err(MaterialReadinessMissing)
      else
        var m := day.materials[(a.jobId, a.taskId)];
        var waits := m.blocking && m.status.Expected?;
        var cursor := p.cursor + travel;
        var start := if waits && m.availableAt.value > cursor then m.availableAt.value else cursor;
        if m.blocking && m.status.Blocked? then Err(MaterialBlocked)
        else if Violation(day, a, start).Some? then Err(Violation(day, a, start).value)
        else Ok(Progress(start + a.Duration(), p.placements + [PlacedAt(a, start)], routeIds,
                         p.idle + (start - cursor), p.travel + travel, p.conditional || waits))
  }

  function LastJob(ordering: seq<Assignment>): Option<string> {
    if ordering == [] then None else Some(ordering[|ordering| - 1].jobId)
  }

  function Run(day: Day, ordering: seq<Assignment>): Result<Progress, Failure> {
    if ordering == [] then Ok(Progress(day.start, [], [], 0, 0, false))
    else
      var init := ordering[..|ordering| - 1];
      match Run(day, init)
      case Err(f) => Err(f)
      case Ok(p) => Step(day, p, LastJob(init), ordering[|ordering| - 1])
  }

  /** How many assignments named by a placement have other times than the placement. */
  function CountChanged(p: Placement, ordering: seq<Assignment>): nat {
    if ordering == [] then 0
    else
      var last := ordering[|ordering| - 1];
      CountChanged(p, ordering[..|ordering| - 1])
      + if p.assignmentId == last.id && (p.start != last.start || p.end != last.end) then 1 else 0
  }

  function TotalChanged(placements: seq<Placement>, ordering: seq<Assignment>): nat {
    if placements == [] then 0
    else TotalChanged(placements[..|placements| - 1], ordering) + CountChanged(placements[|placements| - 1], ordering)
  }

  function Evaluate(day: Day, ordering: seq<Assignment>): Result<Candidate, Failure> {
    match Run(day, ordering)
    case Err(f) => Err(f)
    case Ok(p) =>
      Ok(Candidate(p.placements, TotalChanged(p.placements, ordering), p.idle, p.travel, p.routeIds, p.conditional))
  }

  lemma {:induction false} FailureStays(day: Day, ordering: seq<Assignment>, n: nat)
    requires n <= |ordering| && Run(day, ordering[..n]).Err?
    ensures Run(day, ordering) == Run(day, ordering[..n])
    decreases |ordering|
  {
    if n < |ordering| {
      assert ordering[..|ordering| - 1][..n] == ordering[..n];
      FailureStays(day, ordering[..|ordering| - 1], n);
    } else {
      assert ordering[..n] == ordering;
    }
  }

  lemma {:induction false} RunOfNothing(day: Day, ordering: seq<Assignment>)
    ensures Run(day, ordering[..0]) == Ok(Progress(day.start, [], [], 0, 0, false))
  {}

  lemma {:induction false} RunAdvances(day: Day, ordering: seq<Assignment>, i: nat)
    requires i < |ordering| && Run(day, ordering[..i]).Ok?
    ensures var next := Step(day, Run(day, ordering[..i]).value, LastJob(ordering[..i]), ordering[i]);
      Run(day, ordering[..i + 1]) == next && (next.Err? ==> Run(day, ordering) == next)
  {
    assert ordering[..i + 1][..i] == ordering[..i];
    if Run(day, ordering[..i + 1]).Err? {
      FailureStays(day, ordering, i + 1);
    }
  }

  /** The checks on one placement, in order. */
  method CheckTimes(day: Day, a: Assignment, start: int, end: int) returns (violation: Option<Failure>)
    requires end == start + a.Duration()
    ensures violation == Violation(day, a, start)
  {
    hide Covers;
    if end > day.end {
      return Some(WorkingHoursExceeded);
    }
    if a.hardDeadline.Some? && end > a.hardDeadline.value {
      return Some(HardDeadlineViolation);
    }
    if !Covers(start, end, day.worker.availability) {
      return Some(WorkerUnavailable);
    }
    if a.vehicleId.Some? {
      if a.vehicleId.value !in day.vehicles || !Covers(start, end, day.vehicles[a.vehicleId.value].availability) {
        return Some(VehicleUnavailable);
      }
    }
    violation := None;
  }

  /** The double loop of the `changed` sum. */
  method ChangedCommitments(placements: seq<Placement>, ordering: seq<Assignment>) returns (changed: nat)
    ensures changed == TotalChanged(placements, ordering)
  {
    changed := 0;
    for i := 0 to |placements|
      invariant changed == TotalChanged(placements[..i], ordering)
    {
      var before := changed;
      assert placements[..i + 1][..i] == placements[..i];
      for j := 0 to |ordering|
        invariant changed == before + CountChanged(placements[i], ordering[..j])
      {
        assert ordering[..j + 1][..j] == ordering[..j];
        if placements[i].assignmentId == ordering[j].id
           && (placements[i].start != ordering[j].start || placements[i].end != ordering[j].end) {
          changed := changed + 1;
        }
      }
      assert ordering[..|ordering|] == ordering;
    }
    assert placements[..|placements|] == placements;
  }

  method EvaluateOrder(day: Day, ordering: seq<Assignment>) returns (result: Result<Candidate, Failure>)
    ensures result == Evaluate(day, ordering)
  {
    hide Run, TotalChanged, CountChanged, Violation;
    var cursor := day.start;
    var previousJob: Option<string> := None;
    var placements: seq<Placement> := [];
    var routeIds: seq<string> := [];
    var idle, travel, conditional := 0, 0, false;
    RunOfNothing(day, ordering);
    for i := 0 to |ordering|
      invariant Run(day, ordering[..i]) == Ok(Progress(cursor, placements, routeIds, idle, travel, conditional))
      invariant previousJob == LastJob(ordering[..i])
    {
      var assignment := ordering[i];
      RunAdvances(day, ordering, i);
      if previousJob.Some? && previousJob.value != assignment.jobId {
        if (previousJob.value, assignment.jobId) !in day.routes {
          return Err(RouteSnapshotMissing);
        }
        var route := day.routes[(previousJob.value, assignment.jobId)];
        cursor := cursor + route.travelSeconds;
        travel := travel + route.travelSeconds;
        routeIds := routeIds + [route.id];
      }
      if (assignment.jobId, assignment.taskId) !in day.materials {
        return Err(MaterialReadinessMissing);
      }
      var material := day.materials[(assignment.jobId, assignment.taskId)];
      var earliest := cursor;
      if material.blocking {
        if material.status.Blocked? {
          return Err(MaterialBlocked);
        }
        if material.status.Expected? {
          conditional := true;
          earliest := if material.availableAt.value > earliest then material.availableAt.value else earliest;
        }
      }
      idle := idle + (earliest - cursor);
      var end := earliest + assignment.Duration();
      var violation := CheckTimes(day, assignment, earliest, end);
      if violation.Some? {
        return Err(violation.value);
      }
      placements := placements + [Placement(assignment.id, assignment.jobId, assignment.taskId,
                                            assignment.workerId, assignment.vehicleId, earliest, end)];
      cursor := end;
      previousJob := Some(assignment.jobId);
    }
    assert ordering[..|ordering|] == ordering;
    var changed := ChangedCommitments(placements, ordering);
    result := Ok(Candidate(placements, changed, idle, travel, routeIds, conditional));
  }

  // ---------------------------------------------------------------- what a returned schedule guarantees

  function Starts(placements: seq<Placement>): (r: seq<int>)
    ensures |r| == |placements| && forall i | 0 <= i < |r| :: r[i] == placements[i].start
  {
    seq(|placements|, i requires 0 <= i < |placements| => placements[i].start)
  }

  /** The placements are the assignments of the order, each keeping worker, vehicle and duration. */
  ghost predicate PlacesInOrder(placements: seq<Placement>, ordering: seq<Assignment>) {
    && |placements| == |ordering|
    && forall i | 0 <= i < |placements| :: placements[i] == PlacedAt(ordering[i], placements[i].start)
  }

  lemma {:induction false} RunPlacesInOrder(day: Day, ordering: seq<Assignment>)
    requires Run(day, ordering).Ok?
    ensures var p := Run(day, ordering).value;
      && PlacesInOrder(p.placements, ordering)
      && p.cursor == if ordering == [] then day.start else p.placements[|p.placements| - 1].end
  {
    if ordering != [] {
      RunPlacesInOrder(day, ordering[..|ordering| - 1]);
    }
  }

  lemma {:induction false} BoundsOfPrefix(day: Day, ordering: seq<Assignment>, starts: seq<int>, n: nat)
    requires RespectsBounds(day, ordering, starts) && n <= |ordering|
    ensures RespectsBounds(day, ordering[..n], starts[..n])
  {}

  /** Adding one more assignment to an order. */
  lemma {:induction false} BoundsExtend(day: Day, ordering: seq<Assignment>, starts: seq<int>, a: Assignment, t: int)
    requires |starts| == |ordering|
    ensures RespectsBounds(day, ordering + [a], starts + [t]) <==>
      && RespectsBounds(day, ordering, starts)
      && MaterialAllows(day, a, t)
      && if ordering == [] then day.start <= t
         else Follows(day, ordering[|ordering| - 1], starts[|starts| - 1], a, t)
  {
    var n := |ordering|;
    var longer, times := ordering + [a], starts + [t];
    if RespectsBounds(day, longer, times) {
      BoundsOfPrefix(day, longer, times, n);
      assert longer[..n] == ordering && times[..n] == starts;
      assert MaterialAllows(day, longer[n], times[n]);
      if n > 0 {
        assert Follows(day, longer[n - 1], times[n - 1], longer[n], times[n]);
      }
    }
  }

  /** The worker, free since `cursor` at the job `previous`, can be at `a` by `t`. */
  predicate ArrivesBy(day: Day, cursor: int, previous: Option<string>, a: Assignment, t: int) {
    if previous.None? || previous.value == a.jobId then cursor <= t
    else (previous.value, a.jobId) in day.routes && cursor + day.routes[(previous.value, a.jobId)].travelSeconds <= t
  }

  /** One greedy step: the assignment starts at the first instant that travel and material allow. */
  lemma {:induction false} StepIsEarliest(
    day: Day, p: Progress, previous: Option<string>, a: Assignment
  ) returns (t: int)
    requires Step(day, p, previous, a).Ok?
    ensures var next := Step(day, p, previous, a).value;
      && next.placements == p.placements + [PlacedAt(a, t)]
      && next.cursor == t + a.Duration()
    ensures MaterialAllows(day, a, t) && Permitted(day, a, t) && ArrivesBy(day, p.cursor, previous, a, t)
    ensures forall u | MaterialAllows(day, a, u) && ArrivesBy(day, p.cursor, previous, a, u) :: t <= u
  {
    hide Covers;
    var next := Step(day, p, previous, a).value;
    t := next.cursor - a.Duration();
  }

  /** When the worker is free again after the order. */
  ghost function Free(day: Day, ordering: seq<Assignment>, starts: seq<int>): int
    requires |starts| == |ordering|
  {
    if ordering == [] then day.start else starts[|starts| - 1] + ordering[|ordering| - 1].Duration()
  }

  lemma {:induction false} EarliestExtends(day: Day, init: seq<Assignment>, starts: seq<int>, a: Assignment, t: int)
    requires Earliest(day, init, starts) && Possible(day, init, starts)
    requires MaterialAllows(day, a, t) && Permitted(day, a, t)
    requires ArrivesBy(day, Free(day, init, starts), LastJob(init), a, t)
    requires forall u | MaterialAllows(day, a, u) && ArrivesBy(day, Free(day, init, starts), LastJob(init), a, u) ::
      t <= u
    ensures Earliest(day, init + [a], starts + [t]) && Possible(day, init + [a], starts + [t])
  {
    hide MaterialAllows, Permitted;
    BoundsExtend(day, init, starts, a, t);
    var n := |init|;
    forall other | RespectsBounds(day, init + [a], other) ensures NowhereLater(starts + [t], other) {
      BoundsOfPrefix(day, init + [a], other, n);
      assert (init + [a])[..n] == init && other == other[..n] + [other[n]];
      BoundsExtend(day, init, other[..n], a, other[n]);
      assert NowhereLater(starts, other[..n]);
    }
  }

  /** A returned schedule is possible, and no schedule that respects the bounds places anything earlier. */
  lemma {:induction false} RunIsEarliest(day: Day, ordering: seq<Assignment>)
    requires Run(day, ordering).Ok?
    ensures var starts := Starts(Run(day, ordering).value.placements);
      Earliest(day, ordering, starts) && Possible(day, ordering, starts)
  {
    hide Step, MaterialAllows, Permitted;
    var p := Run(day, ordering).value;
    if ordering != [] {
      var n := |ordering| - 1;
      var init, a := ordering[..n], ordering[n];
      var q := Run(day, init).value;
      RunIsEarliest(day, init);
      RunPlacesInOrder(day, init);
      var t := StepIsEarliest(day, q, LastJob(init), a);
      assert Starts(p.placements) == Starts(q.placements) + [t];
      assert ordering == init + [a];
      EarliestExtends(day, init, Starts(q.placements), a, t);
    }
  }

  // ---------------------------------------------------------------- what a refusal means

  /** Whatever refuses a step other than availability refuses every later start as well. */
  lemma {:induction false} StepRefusesLaterStarts(
    day: Day, p: Progress, previous: Option<string>, a: Assignment, u: int
  )
    requires Step(day, p, previous, a).Err?
    requires MaterialAllows(day, a, u) && ArrivesBy(day, p.cursor, previous, a, u)
    requires WithinHours(day, a, u) && MeetsDeadline(a, u)
    ensures Step(day, p, previous, a).error.WorkerUnavailable? || Step(day, p, previous, a).error.VehicleUnavailable?
  {
    hide Covers;
  }

  /** Only the earliest start is tried: when it is permitted the step succeeds. */
  lemma {:induction false} StepTakesTheEarliestStart(
    day: Day, p: Progress, previous: Option<string>, a: Assignment, t: int
  )
    requires MaterialAllows(day, a, t) && ArrivesBy(day, p.cursor, previous, a, t) && Permitted(day, a, t)
    requires forall u | MaterialAllows(day, a, u) && ArrivesBy(day, p.cursor, previous, a, u) :: t <= u
    ensures Step(day, p, previous, a).Ok?
    ensures Step(day, p, previous, a).value.placements == p.placements + [PlacedAt(a, t)]
  {
    hide Covers;
    var drives := previous.Some? && previous.value != a.jobId;
    var cursor := p.cursor + if drives then day.routes[(previous.value, a.jobId)].travelSeconds else 0;
    var m := day.materials[(a.jobId, a.taskId)];
    var waits := m.blocking && m.status.Expected? && m.availableAt.value > cursor;
    var start := if waits then m.availableAt.value else cursor;
    assert MaterialAllows(day, a, start) && ArrivesBy(day, p.cursor, previous, a, start);
  }

  lemma {:induction false} PossiblePrefix(day: Day, ordering: seq<Assignment>, starts: seq<int>, n: nat)
    requires Possible(day, ordering, starts) && n <= |ordering|
    ensures Possible(day, ordering[..n], starts[..n])
  {
    BoundsOfPrefix(day, ordering, starts, n);
  }

  /** In any schedule that respects the bounds, the last assignment is reachable from the greedy cursor. */
  lemma {:induction false} LastIsReachable(day: Day, ordering: seq<Assignment>, starts: seq<int>)
    requires ordering != [] && RespectsBounds(day, ordering, starts)
    requires Run(day, ordering[..|ordering| - 1]).Ok?
    ensures var n := |ordering| - 1;
      && MaterialAllows(day, ordering[n], starts[n])
      && ArrivesBy(day, Run(day, ordering[..n]).value.cursor, LastJob(ordering[..n]), ordering[n], starts[n])
  {
    hide Step, MaterialAllows;
    var n := |ordering| - 1;
    var init := ordering[..n];
    RunIsEarliest(day, init);
    RunPlacesInOrder(day, init);
    BoundsOfPrefix(day, ordering, starts, n);
    assert NowhereLater(Starts(Run(day, init).value.placements), starts[..n]);
    if n > 0 {
      assert init[n - 1] == ordering[n - 1];
      assert Follows(day, ordering[n - 1], starts[n - 1], ordering[n], starts[n]);
    }
  }

  /** A missing route, missing or blocked material, the workday end and a hard deadline are final:
      no schedule of any kind exists in that order. */
  lemma {:induction false} HardFailureIsFinal(day: Day, ordering: seq<Assignment>)
    requires Run(day, ordering).Err?
    requires !Run(day, ordering).error.WorkerUnavailable? && !Run(day, ordering).error.VehicleUnavailable?
    ensures !exists starts :: Possible(day, ordering, starts)
  {
    hide Step, MaterialAllows;
    var n := |ordering| - 1;
    var init := ordering[..n];
    if Run(day, init).Err? {
      HardFailureIsFinal(day, init);
    }
    forall starts | Possible(day, ordering, starts) ensures false {
      PossiblePrefix(day, ordering, starts, n);
      if Run(day, init).Ok? {
        LastIsReachable(day, ordering, starts);
        StepRefusesLaterStarts(day, Run(day, init).value, LastJob(init), ordering[n], starts[n]);
      }
    }
  }

  function PointwiseMin(a: seq<int>, b: seq<int>): (r: seq<int>)
    requires |a| == |b|
    ensures |r| == |a| && forall i | 0 <= i < |r| :: r[i] == if a[i] <= b[i] then a[i] else b[i]
  {
    seq(|a|, i requires 0 <= i < |a| => if a[i] <= b[i] then a[i] else b[i])
  }

  lemma {:induction false} BoundsMeet(day: Day, ordering: seq<Assignment>, a: seq<int>, b: seq<int>)
    requires RespectsBounds(day, ordering, a) && RespectsBounds(day, ordering, b)
    ensures RespectsBounds(day, ordering, PointwiseMin(a, b))
  {}

  lemma {:induction false} EarlierPrefixExtends(
    day: Day, init: seq<Assignment>, starts: seq<int>, other: seq<int>, last: Assignment, t: int
  )
    requires RespectsBounds(day, init + [last], starts + [t]) && RespectsBounds(day, init, other)
    requires |starts| == |init|
    ensures |other| == |starts|
    ensures RespectsBounds(day, init + [last], PointwiseMin(starts, other) + [t])
  {
    hide MaterialAllows;
    BoundsExtend(day, init, starts, last, t);
    BoundsMeet(day, init, starts, other);
    BoundsExtend(day, init, PointwiseMin(starts, other), last, t);
  }

  lemma {:induction false} EarliestPrefix(day: Day, ordering: seq<Assignment>, starts: seq<int>, n: nat)
    requires Earliest(day, ordering, starts) && |ordering| == |starts| == n + 1
    ensures Earliest(day, ordering[..n], starts[..n])
    ensures forall u | MaterialAllows(day, ordering[n], u)
                       && ArrivesBy(day, Free(day, ordering[..n], starts[..n]), LastJob(ordering[..n]),
                                    ordering[n], u) ::
              starts[n] <= u
  {
    hide RespectsBounds, MaterialAllows;
    var init, last := ordering[..n], ordering[n];
    assert ordering == init + [last] && starts == starts[..n] + [starts[n]];
    BoundsOfPrefix(day, ordering, starts, n);
    BoundsExtend(day, init, starts[..n], last, starts[n]);
    forall other | RespectsBounds(day, init, other) ensures NowhereLater(starts[..n], other) {
      EarlierPrefixExtends(day, init, starts[..n], other, last, starts[n]);
      var longer := PointwiseMin(starts[..n], other) + [starts[n]];
      assert NowhereLater(starts, longer);
      assert forall i | 0 <= i < n :: starts[i] <= longer[i];
    }
    forall u | MaterialAllows(day, last, u) && ArrivesBy(day, Free(day, init, starts[..n]), LastJob(init), last, u)
      ensures starts[n] <= u
    {
      BoundsExtend(day, init, starts[..n], last, u);
      assert NowhereLater(starts, starts[..n] + [u]);
    }
  }

  /** An order is accepted exactly when its pointwise earliest schedule is possible, and that schedule is returned. */
  lemma {:induction false} AcceptedIffEarliestIsPossible(day: Day, ordering: seq<Assignment>, starts: seq<int>)
    ensures Earliest(day, ordering, starts) && Possible(day, ordering, starts) <==>
      Run(day, ordering).Ok? && starts == Starts(Run(day, ordering).value.placements)
  {
    hide Step, MaterialAllows, Permitted;
    if Earliest(day, ordering, starts) && Possible(day, ordering, starts) {
      if ordering != [] {
        var n := |ordering| - 1;
        var init := ordering[..n];
        EarliestPrefix(day, ordering, starts, n);
        PossiblePrefix(day, ordering, starts, n);
        AcceptedIffEarliestIsPossible(day, init, starts[..n]);
        LastIsReachable(day, ordering, starts);
        RunPlacesInOrder(day, init);
        StepTakesTheEarliestStart(day, Run(day, init).value, LastJob(init), ordering[n], starts[n]);
        assert starts == starts[..n] + [starts[n]];
      }
    } else if Run(day, ordering).Ok? {
      RunIsEarliest(day, ordering);
    }
  }

  /** Refusal for availability is not final: a worker who comes in later could still do the work. */
  lemma {:induction false} AvailabilityFailureIsNotFinal()
    ensures exists day, ordering, starts ::
      Run(day, ordering) == Err(WorkerUnavailable) && Possible(day, ordering, starts)
  {
    var a: Assignment := AssignmentRecord.Assignment("a", "j", "w", "t", "p", {}, None, 0, 5, None, Confirmed, 0);
    var day := Day(0, 100, map[("j", "t") := MaterialRecord.Material("j", "t", Ready, None, false, 0)], map[],
                   Worker("p", {}, [Window(10, 20)]), map[]);
    assert [a][..0] == [];
    assert Run(day, [a]) == Err(WorkerUnavailable);
    var w := Window(10, 20);
    assert w in day.worker.availability && w.start <= 10 && 15 <= w.end;
    assert Possible(day, [a], [10]);
  }

  // ---------------------------------------------------------------- when a refusal for availability is final

  /** What a window of the worker and one of a vehicle have in common before the workday ends. */
  function Shared(day: Day, w: Window, u: Window): Window {
    var start, end := if w.start >= u.start then w.start else u.start, if w.end <= u.end then w.end else u.end;
    Window(start, if end <= day.end then end else day.end)
  }

  /** Work that fills the window could also have begun one second earlier, unless the day had not begun by then. */
  predicate OpensSeamlessly(day: Day, window: Window, windows: seq<Window>) {
    day.start < window.start < window.end ==> Covers(window.start - 1, window.end - 1, windows)
  }

  /** Whoever is available for some work during the day is available for it at every earlier start as well: no window of
      the worker, nor what it has in common with a window of a vehicle, opens after the start of the day, except where
      another window already covers the second before. */
  predicate AvailableEarlier(day: Day) {
    && (forall w | w in day.worker.availability :: OpensSeamlessly(day, Shared(day, w, w), day.worker.availability))
    && forall id, w, u | id in day.vehicles && w in day.worker.availability && u in day.vehicles[id].availability ::
         && OpensSeamlessly(day, Shared(day, w, u), day.worker.availability)
         && OpensSeamlessly(day, Shared(day, w, u), day.vehicles[id].availability)
  }

  /** An order without a run has no schedule at all. */
  ghost predicate RefusalIsFinal(day: Day, ordering: seq<Assignment>) {
    Run(day, ordering).Err? ==> !exists starts :: Possible(day, ordering, starts)
  }

  /** The same day with other materials and routes. */
  predicate SameHours(day: Day, other: Day) {
    other.start == day.start && other.end == day.end && other.worker == day.worker && other.vehicles == day.vehicles
  }

  predicate Available(day: Day, a: Assignment, t: int) {
    Staffed(day, a, t) && Equipped(day, a, t)
  }

  lemma {:induction false} OneSecondEarlier(day: Day, a: Assignment, t: int)
    requires AvailableEarlier(day) && Available(day, a, t) && WithinHours(day, a, t) && day.start < t
    ensures Available(day, a, t - 1)
  {
    var end := t + a.Duration();
    var w :| w in day.worker.availability && w.start <= t && end <= w.end;
    if a.vehicleId.None? {
      assert OpensSeamlessly(day, Shared(day, w, w), day.worker.availability);
    } else {
      var id := a.vehicleId.value;
      var u :| u in day.vehicles[id].availability && u.start <= t && end <= u.end;
      assert OpensSeamlessly(day, Shared(day, w, u), day.worker.availability);
      assert OpensSeamlessly(day, Shared(day, w, u), day.vehicles[id].availability);
    }
  }

  lemma {:induction false} AnyTimeEarlier(day: Day, a: Assignment, t: int, u: int)
    requires AvailableEarlier(day) && Available(day, a, u) && WithinHours(day, a, u) && day.start <= t <= u
    ensures Available(day, a, t)
    decreases u - t
  {
    hide AvailableEarlier, Available;
    if t < u {
      OneSecondEarlier(day, a, u);
      AnyTimeEarlier(day, a, t, u - 1);
    }
  }

  /** The start the greedy step tries. */
  lemma {:induction false} FirstStart(day: Day, cursor: int, previous: Option<string>, a: Assignment, u: int)
    returns (t: int)
    requires MaterialAllows(day, a, u) && ArrivesBy(day, cursor, previous, a, u)
    ensures MaterialAllows(day, a, t) && ArrivesBy(day, cursor, previous, a, t) && cursor <= t <= u
    ensures forall v | MaterialAllows(day, a, v) && ArrivesBy(day, cursor, previous, a, v) :: t <= v
  {
    var drives := previous.Some? && previous.value != a.jobId;
    t := cursor + if drives then day.routes[(previous.value, a.jobId)].travelSeconds else 0;
    var m := day.materials[(a.jobId, a.taskId)];
    if m.blocking && m.status.Expected? && m.availableAt.value > t {
      t := m.availableAt.value;
    }
  }

  lemma {:induction false} CursorAfterStart(day: Day, ordering: seq<Assignment>)
    requires Run(day, ordering).Ok?
    ensures day.start <= Run(day, ordering).value.cursor
  {
    hide Violation;
    if ordering != [] {
      CursorAfterStart(day, ordering[..|ordering| - 1]);
    }
  }

  lemma {:induction false} PermittedEarlier(day: Day, a: Assignment, t: int, u: int)
    requires AvailableEarlier(day) && Permitted(day, a, u) && day.start <= t <= u
    ensures Permitted(day, a, t)
  {
    hide AvailableEarlier, Covers;
    AnyTimeEarlier(day, a, t, u);
  }

  lemma {:induction false} PossibleOrderRuns(day: Day, ordering: seq<Assignment>, starts: seq<int>)
    requires AvailableEarlier(day) && Possible(day, ordering, starts)
    ensures Run(day, ordering).Ok?
  {
    hide Step, MaterialAllows, Permitted, AvailableEarlier;
    if ordering != [] {
      var n := |ordering| - 1;
      var init := ordering[..n];
      PossiblePrefix(day, ordering, starts, n);
      PossibleOrderRuns(day, init, starts[..n]);
      LastIsReachable(day, ordering, starts);
      CursorAfterStart(day, init);
      var p := Run(day, init).value;
      var t := FirstStart(day, p.cursor, LastJob(init), ordering[n], starts[n]);
      PermittedEarlier(day, ordering[n], t, starts[n]);
      StepTakesTheEarliestStart(day, p, LastJob(init), ordering[n], t);
    }
  }

  /** A window that opens too late: the one assignment that fills it, whose material arrives one second before. */
  lemma {:induction false} LateWindowIsMissed(day: Day, window: Window, vehicleId: Option<string>)
    returns (other: Day, ordering: seq<Assignment>)
    requires day.start < window.start < window.end <= day.end
    requires Covers(window.start, window.end, day.worker.availability)
    requires vehicleId.Some? ==>
      && vehicleId.value in day.vehicles
      && Covers(window.start, window.end, day.vehicles[vehicleId.value].availability)
    requires Covers(window.start - 1, window.end - 1, day.worker.availability) ==>
      && vehicleId.Some?
      && !Covers(window.start - 1, window.end - 1, day.vehicles[vehicleId.value].availability)
    ensures SameHours(day, other) && !RefusalIsFinal(other, ordering)
  {
    hide Covers;
    var a: Assignment := AssignmentRecord.Assignment(
      "", "", "", "", "", {}, vehicleId, window.start, window.end, None, Confirmed, 0);
    var m: Material := MaterialRecord.Material("", "", Expected, Some(window.start - 1), true, 0);
    other := day.(materials := map[("", "") := m], routes := map[]);
    ordering := [a];
    assert ordering[..0] == [];
    assert Run(other, []) == Ok(Progress(day.start, [], [], 0, 0, false));
    assert Violation(other, a, window.start - 1).Some?;
    assert Run(other, ordering).Err?;
    assert Possible(other, ordering, [window.start]);
  }

  lemma {:induction false} SharedIsCovered(day: Day, w: Window, u: Window, windows: seq<Window>)
    requires w in windows || u in windows
    ensures Covers(Shared(day, w, u).start, Shared(day, w, u).end, windows)
  {
    if w in windows {
      assert w.start <= Shared(day, w, u).start && Shared(day, w, u).end <= w.end;
    } else {
      assert u.start <= Shared(day, w, u).start && Shared(day, w, u).end <= u.end;
    }
  }

  lemma {:induction false} NotAvailableEarlier(day: Day) returns (other: Day, ordering: seq<Assignment>)
    requires !AvailableEarlier(day)
    ensures SameHours(day, other) && !RefusalIsFinal(other, ordering)
  {
    hide RefusalIsFinal, Covers;
    if w :| w in day.worker.availability && !OpensSeamlessly(day, Shared(day, w, w), day.worker.availability) {
      SharedIsCovered(day, w, w, day.worker.availability);
      other, ordering := LateWindowIsMissed(day, Shared(day, w, w), None);
    } else {
      var id, w, u :| id in day.vehicles && w in day.worker.availability && u in day.vehicles[id].availability
        && !(OpensSeamlessly(day, Shared(day, w, u), day.worker.availability)
             && OpensSeamlessly(day, Shared(day, w, u), day.vehicles[id].availability));
      SharedIsCovered(day, w, u, day.worker.availability);
      SharedIsCovered(day, w, u, day.vehicles[id].availability);
      other, ordering := LateWindowIsMissed(day, Shared(day, w, u), Some(id));
    }
  }

  /** Exactly when refusals are final: for the hours of a day, whatever its orders, materials and routes, a refused
      order has no schedule if and only if nobody's availability opens late. */
  lemma {:induction false} RefusalIsFinalIffAvailableEarlier(day: Day)
    ensures AvailableEarlier(day) <==> forall other, ordering | SameHours(day, other) :: RefusalIsFinal(other, ordering)
  {
    hide Run, Possible;
    if AvailableEarlier(day) {
      forall other, ordering | SameHours(day, other) ensures RefusalIsFinal(other, ordering) {
        assert AvailableEarlier(other);
        if starts :| Possible(other, ordering, starts) {
          PossibleOrderRuns(other, ordering, starts);
        }
      }
    } else {
      var other, ordering := NotAvailableEarlier(day);
    }
  }

  /** Some window is open from the start of the day until at least `end`. */
  predicate OpenUntil(day: Day, end: int, windows: seq<Window>) {
    exists e | e in windows :: e.start <= day.start && end <= e.end
  }

  predicate PresentFromTheStart(day: Day, windows: seq<Window>) {
    forall w | w in windows :: OpenUntil(day, w.end, windows)
  }

  lemma {:induction false} PresentOpensSeamlessly(day: Day, w: Window, u: Window, windows: seq<Window>)
    requires PresentFromTheStart(day, windows) && (w in windows || u in windows)
    ensures OpensSeamlessly(day, Shared(day, w, u), windows)
  {
    var end := Shared(day, w, u).end;
    assert OpenUntil(day, w.end, windows) || OpenUntil(day, u.end, windows);
    hide PresentFromTheStart;
    var e :| e in windows && e.start <= day.start && end <= e.end;
  }

  /** When the worker and every vehicle are there from the start of the day until they leave, the planner is complete:
      it accepts an order exactly when some schedule of that order is possible. */
  lemma {:induction false} AcceptedIffPossible(day: Day, ordering: seq<Assignment>)
    requires PresentFromTheStart(day, day.worker.availability)
    requires forall id | id in day.vehicles :: PresentFromTheStart(day, day.vehicles[id].availability)
    ensures Run(day, ordering).Ok? <==> exists starts :: Possible(day, ordering, starts)
  {
    hide Run, Possible, OpensSeamlessly, OpenUntil;
    forall w | w in day.worker.availability ensures OpensSeamlessly(day, Shared(day, w, w), day.worker.availability) {
      PresentOpensSeamlessly(day, w, w, day.worker.availability);
    }
    forall id, w, u | id in day.vehicles && w in day.worker.availability && u in day.vehicles[id].availability
      ensures OpensSeamlessly(day, Shared(day, w, u), day.worker.availability)
      ensures OpensSeamlessly(day, Shared(day, w, u), day.vehicles[id].availability)
    {
      PresentOpensSeamlessly(day, w, u, day.worker.availability);
      PresentOpensSeamlessly(day, w, u, day.vehicles[id].availability);
    }
    assert AvailableEarlier(day);
    hide PresentFromTheStart, AvailableEarlier;
    RefusalIsFinalIffAvailableEarlier(day);
    assert RefusalIsFinal(day, ordering);
    if Run(day, ordering).Ok? {
      RunIsEarliest(day, ordering);
    }
  }

  // ---------------------------------------------------------------- conservation

  function TotalDuration(ordering: seq<Assignment>): int {
    if ordering == [] then 0
    else TotalDuration(ordering[..|ordering| - 1]) + ordering[|ordering| - 1].Duration()
  }

  /** Travel between consecutive assignments of different jobs. */
  function TotalTravel(day: Day, ordering: seq<Assignment>): nat {
    if |ordering| < 2 then 0
    else
      var a, b := ordering[|ordering| - 2], ordering[|ordering| - 1];
      TotalTravel(day, ordering[..|ordering| - 1])
      + if a.jobId != b.jobId && (a.jobId, b.jobId) in day.routes
        then day.routes[(a.jobId, b.jobId)].travelSeconds else 0
  }

  /** The snapshots of the drives between consecutive assignments of different jobs. */
  function RoutesTaken(day: Day, ordering: seq<Assignment>): seq<string> {
    if |ordering| < 2 then []
    else
      var a, b := ordering[|ordering| - 2], ordering[|ordering| - 1];
      RoutesTaken(day, ordering[..|ordering| - 1])
      + if a.jobId != b.jobId && (a.jobId, b.jobId) in day.routes then [day.routes[(a.jobId, b.jobId)].id] else []
  }

  predicate AwaitsMaterial(day: Day, a: Assignment) {
    && (a.jobId, a.taskId) in day.materials
    && var m := day.materials[(a.jobId, a.taskId)]; m.blocking && m.status.Expected?
  }

  /** The time from the start of the day to the last end is exactly work, travel and idle time. */
  lemma {:induction false} TimeIsConserved(day: Day, ordering: seq<Assignment>)
    requires Run(day, ordering).Ok?
    ensures var p := Run(day, ordering).value;
      && p.cursor - day.start == TotalDuration(ordering) + p.travel + p.idle
      && p.travel == TotalTravel(day, ordering) && p.routeIds == RoutesTaken(day, ordering)
      && p.idle >= 0
      && (p.conditional <==> exists a | a in ordering :: AwaitsMaterial(day, a))
  {
    hide Covers;
    if ordering != [] {
      var n := |ordering| - 1;
      assert ordering == ordering[..n] + [ordering[n]];
      TimeIsConserved(day, ordering[..n]);
      assert Run(day, ordering).value.conditional
          == (Run(day, ordering[..n]).value.conditional || AwaitsMaterial(day, ordering[n]));
    }
  }

  // ---------------------------------------------------------------- schedules and refusals in plain terms

  /** Somebody is available for the whole time. */
  ghost predicate ThereFrom(windows: seq<Window>, start: int, end: int) {
    exists w | w in windows :: w.start <= start && end <= w.end
  }

  /** The placement is the assignment itself, at a time that hours, deadline, worker, vehicle and material allow. */
  ghost predicate IsLawful(day: Day, a: Assignment, p: Placement) {
    && p.assignmentId == a.id && p.jobId == a.jobId && p.taskId == a.taskId
    && p.workerId == a.workerId && p.vehicleId == a.vehicleId
    && p.end - p.start == a.end - a.start && p.end <= day.end
    && (a.hardDeadline.Some? ==> p.end <= a.hardDeadline.value)
    && ThereFrom(day.worker.availability, p.start, p.end)
    && (a.vehicleId.Some? ==>
          && a.vehicleId.value in day.vehicles
          && ThereFrom(day.vehicles[a.vehicleId.value].availability, p.start, p.end))
    && (a.jobId, a.taskId) in day.materials
    && var m := day.materials[(a.jobId, a.taskId)];
       m.blocking ==> m.status != Blocked && (m.status == Expected ==> m.availableAt.value <= p.start)
  }

  /** Between two assignments there is time for the drive, over a known route unless they belong to one job. */
  ghost predicate LeavesTime(day: Day, a: Assignment, p: Placement, b: Assignment, q: Placement) {
    if a.jobId == b.jobId then p.end <= q.start
    else (a.jobId, b.jobId) in day.routes && p.end + day.routes[(a.jobId, b.jobId)].travelSeconds <= q.start
  }

  /** The first instant after the drive at which the material is there. */
  ghost predicate IsEarliestStart(day: Day, a: Assignment, previous: Option<string>, free: int, t: int) {
    var drives := previous.Some? && previous.value != a.jobId;
    && (drives ==> (previous.value, a.jobId) in day.routes)
    && (a.jobId, a.taskId) in day.materials
    && var arrival := free + if drives then day.routes[(previous.value, a.jobId)].travelSeconds else 0;
       var m := day.materials[(a.jobId, a.taskId)];
       if m.blocking && m.status == Expected && m.availableAt.value > arrival then t == m.availableAt.value
       else t == arrival
  }

  /** The job before place `i`, and when the worker is free after it. */
  function JobBefore(ordering: seq<Assignment>, i: nat): Option<string>
    requires i <= |ordering|
  {
    if i == 0 then None else Some(ordering[i - 1].jobId)
  }

  function FreeAt(day: Day, placements: seq<Placement>, i: nat): int
    requires i <= |placements|
  {
    if i == 0 then day.start else placements[i - 1].end
  }

  lemma {:induction false} StepStartsEarliest(day: Day, p: Progress, previous: Option<string>, a: Assignment)
    requires Step(day, p, previous, a).Ok?
    ensures var next := Step(day, p, previous, a).value;
      && |next.placements| == |p.placements| + 1 && next.placements[..|p.placements|] == p.placements
      && IsEarliestStart(day, a, previous, p.cursor, next.placements[|p.placements|].start)
  {
    hide Violation;
  }

  /** Nothing is placed later than the drive and the material demand. */
  lemma {:induction false} StartsAreEarliest(day: Day, ordering: seq<Assignment>, i: nat)
    requires Run(day, ordering).Ok? && i < |ordering|
    ensures var placements := Run(day, ordering).value.placements;
      && |placements| == |ordering|
      && IsEarliestStart(day, ordering[i], JobBefore(ordering, i), FreeAt(day, placements, i), placements[i].start)
  {
    hide Step, IsEarliestStart;
    var n := |ordering| - 1;
    var init := ordering[..n];
    RunPlacesInOrder(day, ordering);
    RunPlacesInOrder(day, init);
    StepStartsEarliest(day, Run(day, init).value, LastJob(init), ordering[n]);
    if i < n {
      StartsAreEarliest(day, init, i);
      assert Run(day, ordering).value.placements[..n] == Run(day, init).value.placements;
    }
  }

  lemma {:induction false} PlacementIsLawful(day: Day, ordering: seq<Assignment>, i: nat)
    requires Run(day, ordering).Ok? && i < |ordering|
    ensures var placements := Run(day, ordering).value.placements;
      |placements| == |ordering| && IsLawful(day, ordering[i], placements[i])
  {
    RunPlacesInOrder(day, ordering);
    RunIsEarliest(day, ordering);
    hide Run, Earliest, Follows;
    var placements := Run(day, ordering).value.placements;
    assert placements[i] == PlacedAt(ordering[i], placements[i].start);
    assert MaterialAllows(day, ordering[i], Starts(placements)[i]);
    assert Permitted(day, ordering[i], Starts(placements)[i]);
  }

  lemma {:induction false} NextLeavesTime(day: Day, ordering: seq<Assignment>, i: nat)
    requires Run(day, ordering).Ok? && i + 1 < |ordering|
    ensures var placements := Run(day, ordering).value.placements;
      |placements| == |ordering| && LeavesTime(day, ordering[i], placements[i], ordering[i + 1], placements[i + 1])
  {
    RunPlacesInOrder(day, ordering);
    RunIsEarliest(day, ordering);
    hide Run, Earliest, MaterialAllows, Permitted;
    var placements := Run(day, ordering).value.placements;
    assert placements[i] == PlacedAt(ordering[i], placements[i].start);
    assert Follows(day, ordering[i], Starts(placements)[i], ordering[i + 1], Starts(placements)[i + 1]);
  }

  /** A returned schedule is lawful at every place, leaves time for the drive to the next, and wastes none: each start
      is the first instant after the drive at which the material is there. */
  lemma {:induction false} ScheduleIsLawful(day: Day, ordering: seq<Assignment>, i: nat)
    requires Run(day, ordering).Ok? && i < |ordering|
    ensures var placements := Run(day, ordering).value.placements;
      && |placements| == |ordering|
      && IsLawful(day, ordering[i], placements[i])
      && IsEarliestStart(day, ordering[i], JobBefore(ordering, i), FreeAt(day, placements, i), placements[i].start)
      && (i + 1 < |ordering| ==> LeavesTime(day, ordering[i], placements[i], ordering[i + 1], placements[i + 1]))
  {
    hide Run, IsLawful, IsEarliestStart, LeavesTime;
    PlacementIsLawful(day, ordering, i);
    StartsAreEarliest(day, ordering, i);
    if i + 1 < |ordering| {
      NextLeavesTime(day, ordering, i);
    }
  }

  /** What is reported when `a` cannot be placed after the job `previous`, from which the worker is free at `free`: a
      missing route, missing or blocked material, or else the first rule that the earliest start `t` breaks. */
  ghost predicate IsReported(day: Day, a: Assignment, previous: Option<string>, free: int, t: int, f: Failure) {
    var drives := previous.Some? && previous.value != a.jobId;
    if drives && (previous.value, a.jobId) !in day.routes then f == RouteSnapshotMissing
    else if (a.jobId, a.taskId) !in day.materials then f == MaterialReadinessMissing
    else
      var m := day.materials[(a.jobId, a.taskId)];
      var end := t + (a.end - a.start);
      if m.blocking && m.status == Blocked then f == MaterialBlocked
      else
        && IsEarliestStart(day, a, previous, free, t)
        && match f
           case WorkingHoursExceeded => end > day.end
           case HardDeadlineViolation => end <= day.end && a.hardDeadline.Some? && a.hardDeadline.value < end
           case WorkerUnavailable =>
             && end <= day.end && (a.hardDeadline.Some? ==> end <= a.hardDeadline.value)
             && !ThereFrom(day.worker.availability, t, end)
           case VehicleUnavailable =>
             && end <= day.end && (a.hardDeadline.Some? ==> end <= a.hardDeadline.value)
             && ThereFrom(day.worker.availability, t, end) && a.vehicleId.Some?
             && (a.vehicleId.value in day.vehicles ==>
                   !ThereFrom(day.vehicles[a.vehicleId.value].availability, t, end))
           case _ => false
  }

  lemma {:induction false} StepReports(day: Day, p: Progress, previous: Option<string>, a: Assignment) returns (t: int)
    requires Step(day, p, previous, a).Err?
    ensures IsReported(day, a, previous, p.cursor, t, Step(day, p, previous, a).error)
  {
    t := p.cursor;
    var drives := previous.Some? && previous.value != a.jobId;
    if (drives ==> (previous.value, a.jobId) in day.routes) && (a.jobId, a.taskId) in day.materials {
      t := t + if drives then day.routes[(previous.value, a.jobId)].travelSeconds else 0;
      var m := day.materials[(a.jobId, a.taskId)];
      if m.blocking && m.status == Expected && m.availableAt.value > t {
        t := m.availableAt.value;
      }
    }
  }

  /** A refusal reports the first assignment that cannot be placed, and the first rule it breaks at its earliest start
      after the schedule of all assignments before it. */
  lemma {:induction false} FailureIsFirstViolation(day: Day, ordering: seq<Assignment>) returns (k: nat, t: int)
    requires Run(day, ordering).Err?
    ensures k < |ordering| && Run(day, ordering[..k]).Ok?
    ensures var placements := Run(day, ordering[..k]).value.placements;
      && |placements| == k
      && IsReported(day, ordering[k], JobBefore(ordering, k), FreeAt(day, placements, k), t, Run(day, ordering).error)
  {
    hide IsReported, Step;
    var n := |ordering| - 1;
    var init := ordering[..n];
    if Run(day, init).Err? {
      k, t := FailureIsFirstViolation(day, init);
      assert init[..k] == ordering[..k];
    } else {
      k := n;
      RunPlacesInOrder(day, init);
      t := StepReports(day, Run(day, init).value, LastJob(init), ordering[n]);
    }
  }
}
