/** Overtime evidence: the union of countable seconds in a worker's local calendar day, the split of
    placements at local midnights, and the baseline-to-candidate comparison. Instants are whole UTC seconds. */
module WorkingTime {
  import opened Prelude

  datatype Interval = Interval(start: int, end: int)

  const COUNTABLE := "COUNTABLE"

  datatype WorkKind = CompletedCountable | UnchangedScheduled | BaselineChanged | ProposedCandidate
  {
    predicate Common() {
      CompletedCountable? || UnchangedScheduled?
    }
  }

  datatype WorkItemRecord = WorkItem(
    workerId: string, kind: WorkKind, start: int, end: int, countability: string, source: string)

  type WorkItem = i: WorkItemRecord | i.start < i.end
    witness WorkItemRecord.WorkItem("", CompletedCountable, 0, 1, COUNTABLE, "")

  datatype RuleRecord = Rule(workerId: string, periodStart: int, periodEnd: int, thresholdSeconds: nat)

  type Rule = r: RuleRecord | r.periodStart < r.periodEnd witness RuleRecord.Rule("", 0, 1, 0)

  datatype WorkingTimeError = CalculationPeriod | RuleWorkItems | WorkingInterval

  // ---------------------------------------------------------------- covered seconds

  ghost function Seconds(start: int, end: int): (r: set<int>)
    ensures forall t :: t in r <==> start <= t < end
    ensures start <= end ==> |r| == end - start
    decreases end - start
  {
    if start < end then Seconds(start, end - 1) + {end - 1} else {}
  }

  /** The seconds that lie in at least one interval. */
  ghost function Covered(intervals: seq<Interval>): set<int> {
    if intervals == [] then {}
    else
      Covered(intervals[..|intervals| - 1])
      + Seconds(intervals[|intervals| - 1].start, intervals[|intervals| - 1].end)
  }

  lemma {:induction false} CoveredMeans(intervals: seq<Interval>)
    ensures forall t :: t in Covered(intervals) <==> exists iv | iv in intervals :: iv.start <= t < iv.end
  {
    if intervals != [] {
      var init, last := intervals[..|intervals| - 1], intervals[|intervals| - 1];
      assert intervals == init + [last];
      CoveredMeans(init);
    }
  }

  ghost predicate Nonempty(intervals: seq<Interval>) {
    forall iv | iv in intervals :: iv.start < iv.end
  }

  /** Ascending intervals that may touch but never overlap. */
  ghost predicate Ascending(intervals: seq<Interval>) {
    forall i, j | 0 <= i < j < |intervals| :: intervals[i].end <= intervals[j].start
  }

  function TotalLength(intervals: seq<Interval>): int {
    if intervals == [] then 0
    else
      var last := intervals[|intervals| - 1];
      TotalLength(intervals[..|intervals| - 1]) + (last.end - last.start)
  }

  lemma {:induction false} CoveredOfLast(init: seq<Interval>, last: Interval)
    ensures Covered(init + [last]) == Covered(init) + Seconds(last.start, last.end)
  {
    assert (init + [last])[..|init|] == init;
  }

  lemma {:induction false} UnionAssociates(a: set<int>, b: set<int>, c: set<int>)
    ensures a + (b + c) == a + b + c
  {}

  lemma {:induction false} CoveredOfLonger(a: seq<Interval>, init: seq<Interval>, last: Interval)
    requires Covered(a + init) == Covered(a) + Covered(init)
    ensures Covered(a + (init + [last])) == Covered(a) + Covered(init + [last])
  {
    hide Covered, Seconds;
    assert a + (init + [last]) == (a + init) + [last];
    CoveredOfLast(a + init, last);
    CoveredOfLast(init, last);
    UnionAssociates(Covered(a), Covered(init), Seconds(last.start, last.end));
  }

  lemma {:induction false} CoveredOfNothing()
    ensures Covered([]) == {}
  {}

  lemma {:induction false} CoveredOfAppend(a: seq<Interval>, b: seq<Interval>)
    ensures Covered(a + b) == Covered(a) + Covered(b)
  {
    hide Covered;
    if b == [] {
      CoveredOfNothing();
      assert a + b == a;
    } else {
      var init, last := b[..|b| - 1], b[|b| - 1];
      CoveredOfAppend(a, init);
      CoveredOfLonger(a, init, last);
      assert b == init + [last];
    }
  }

  lemma {:induction false} CoveredOfOne(iv: Interval)
    ensures Covered([iv]) == Seconds(iv.start, iv.end)
  {
    assert [iv][..0] == [];
  }

  lemma {:induction false} JoinedSeconds(a: Interval, b: Interval)
    requires a.start <= b.start <= a.end < b.end
    ensures Seconds(a.start, b.end) == Seconds(a.start, a.end) + Seconds(b.start, b.end)
  {
    forall t ensures t in Seconds(a.start, b.end) <==> t in Seconds(a.start, a.end) + Seconds(b.start, b.end) {}
  }

  lemma {:induction false} CoveredWithin(inner: Interval, outer: Interval)
    requires outer.start <= inner.start && inner.end <= outer.end
    ensures Covered([inner]) <= Covered([outer])
  {
    hide Covered, Seconds;
    CoveredOfOne(inner);
    CoveredOfOne(outer);
  }

  lemma {:induction false} CoverDependsOnMembers(a: seq<Interval>, b: seq<Interval>)
    requires forall iv :: iv in a <==> iv in b
    ensures Covered(a) == Covered(b)
  {
    hide Covered;
    CoveredMeans(a);
    CoveredMeans(b);
    forall t ensures t in Covered(a) <==> t in Covered(b) {}
  }

  lemma {:induction false} SubsetIsSmaller(a: set<int>, b: set<int>)
    requires a <= b
    ensures |a| <= |b|
  {
    assert b == a + (b - a);
  }

  lemma {:induction false} LastIsSeparate(init: seq<Interval>, last: Interval)
    requires forall iv | iv in init :: iv.end <= last.start
    ensures Covered(init) !! Seconds(last.start, last.end)
  {
    hide Covered, Seconds;
    CoveredMeans(init);
  }

  lemma {:induction false} DisjointUnion(a: set<int>, b: set<int>)
    requires a !! b
    ensures |a + b| == |a| + |b|
  {}

  /** Adding up lengths counts covered seconds when nothing overlaps. */
  lemma {:induction false} LengthCountsSeconds(intervals: seq<Interval>)
    requires Nonempty(intervals) && Ascending(intervals)
    ensures TotalLength(intervals) == |Covered(intervals)|
  {
    if intervals == [] {
      CoveredOfNothing();
    } else {
      hide Covered;
      var n := |intervals| - 1;
      var init, last := intervals[..n], intervals[n];
      assert intervals == init + [last] && last in intervals;
      forall iv | iv in init ensures iv.end <= last.start {
        var i :| 0 <= i < n && intervals[i] == iv;
      }
      LengthCountsSeconds(init);
      LastIsSeparate(init, last);
      CoveredOfLast(init, last);
      DisjointUnion(Covered(init), Seconds(last.start, last.end));
    }
  }

  // ---------------------------------------------------------------- calculate_rule_overtime

  function ItemInterval(item: WorkItem): Interval {
    Interval(item.start, item.end)
  }

  function IntervalsOf(items: seq<WorkItem>): (r: seq<Interval>)
    ensures |r| == |items| && forall i | 0 <= i < |items| :: r[i] == ItemInterval(items[i])
  {
    seq(|items|, i requires 0 <= i < |items| => ItemInterval(items[i]))
  }

  predicate CountableUnder(item: WorkItem, rule: Rule) {
    && item.workerId == rule.workerId
    && rule.periodStart <= item.start && item.end <= rule.periodEnd
    && item.countability == COUNTABLE
  }

  /** `MAX_ZERO_COUNTABLE_SECONDS_MINUS_THRESHOLD`. */
  function Excess(seconds: nat, threshold: nat): nat {
    if seconds > threshold then seconds - threshold else 0
  }

  /** What the rule means: the seconds at work in the period beyond the threshold. */
  ghost function RuleOvertime(rule: Rule, items: seq<WorkItem>): nat {
    Excess(|Covered(IntervalsOf(items))|, rule.thresholdSeconds)
  }

  /** The instants at which some item has the worker at work. */
  ghost predicate SecondsOfWork(items: seq<WorkItem>, seconds: set<int>) {
    forall t :: t in seconds <==> exists item | item in items :: item.start <= t < item.end
  }

  lemma {:induction false} MembersOfIntervals(items: seq<WorkItem>, iv: Interval)
    ensures iv in IntervalsOf(items) <==> exists item | item in items :: ItemInterval(item) == iv
  {
    if item :| item in items && ItemInterval(item) == iv {
      var i: nat :| i < |items| && items[i] == item;
      assert IntervalsOf(items)[i] == iv;
    }
  }

  lemma {:induction false} ItemAt(items: seq<WorkItem>, t: int) returns (item: WorkItem)
    requires t in Covered(IntervalsOf(items))
    ensures item in items && item.start <= t < item.end
  {
    CoveredMeans(IntervalsOf(items));
    var iv :| iv in IntervalsOf(items) && iv.start <= t < iv.end;
    MembersOfIntervals(items, iv);
    item :| item in items && ItemInterval(item) == iv;
  }

  lemma {:induction false} AtWork(items: seq<WorkItem>, item: WorkItem, t: int)
    requires item in items && item.start <= t < item.end
    ensures t in Covered(IntervalsOf(items))
  {
    CoveredMeans(IntervalsOf(items));
    MembersOfIntervals(items, ItemInterval(item));
  }

  /** The covered seconds are those at which some item has the worker at work, and no other set is. */
  lemma {:induction false} CoveredIsWork(items: seq<WorkItem>)
    ensures SecondsOfWork(items, Covered(IntervalsOf(items)))
  {
    hide Covered, IntervalsOf;
    var covered := Covered(IntervalsOf(items));
    forall t ensures t in covered <==> exists item | item in items :: item.start <= t < item.end {
      if t in covered {
        var item := ItemAt(items, t);
      }
      if item :| item in items && item.start <= t < item.end {
        AtWork(items, item, t);
      }
    }
  }

  lemma {:induction false} SameSeconds(items: seq<WorkItem>, a: set<int>, b: set<int>)
    requires SecondsOfWork(items, a) && SecondsOfWork(items, b)
    ensures a == b
  {
    forall t ensures t in a <==> t in b {}
  }

  /** What the seconds at work exceed the threshold by is overtime, and nothing else is. */
  ghost predicate IsBeyondThreshold(rule: Rule, items: seq<WorkItem>, overtime: nat) {
    forall seconds | SecondsOfWork(items, seconds) ::
      if |seconds| <= rule.thresholdSeconds then overtime == 0
      else overtime + rule.thresholdSeconds == |seconds|
  }

  lemma {:induction false} OvertimeIsBeyondThreshold(rule: Rule, items: seq<WorkItem>)
    ensures IsBeyondThreshold(rule, items, RuleOvertime(rule, items))
  {
    hide Covered, IntervalsOf, SecondsOfWork;
    CoveredIsWork(items);
    forall seconds | SecondsOfWork(items, seconds)
      ensures seconds == Covered(IntervalsOf(items))
    {
      SameSeconds(items, seconds, Covered(IntervalsOf(items)));
    }
  }

  predicate IntervalLeq(a: Interval, b: Interval) {
    a.start < b.start || (a.start == b.start && a.end <= b.end)
  }

  lemma {:induction false} SortKeepsCover(items: seq<WorkItem>)
    ensures var intervals := Sort(IntervalsOf(items), IntervalLeq);
      && Nonempty(intervals) && SortedBy(intervals, IntervalLeq)
      && Covered(intervals) == Covered(IntervalsOf(items))
  {
    var raw := IntervalsOf(items);
    SortPermutes(raw, IntervalLeq);
    SortSorts(raw, IntervalLeq);
    CoverDependsOnMembers(Sort(raw, IntervalLeq), raw);
  }

  /** `merged` is the union of the intervals read so far, the last one possibly still growing. */
  ghost predicate MergesPrefix(merged: seq<Interval>, read: seq<Interval>) {
    && Nonempty(merged) && Ascending(merged)
    && Covered(merged) == Covered(read)
    && (merged != [] ==> read != [] && merged[|merged| - 1].start <= read[|read| - 1].start)
    && (merged == [] ==> read == [])
  }

  lemma {:induction false} NothingMerged()
    ensures MergesPrefix([], [])
  {}

  lemma {:induction false} NewRun(merged: seq<Interval>, read: seq<Interval>, current: Interval)
    requires MergesPrefix(merged, read) && current.start < current.end
    requires merged != [] ==> merged[|merged| - 1].end < current.start
    ensures MergesPrefix(merged + [current], read + [current])
  {
    hide Covered;
    CoveredOfAppend(merged, [current]);
    CoveredOfAppend(read, [current]);
    assert forall i | 0 <= i < |merged| - 1 :: merged[i].end <= merged[|merged| - 1].start;
    assert forall i | 0 <= i < |merged| :: merged[i] in merged;
  }

  lemma {:induction false} LongerLast(init: seq<Interval>, last: Interval, current: Interval)
    requires last.start <= current.start <= last.end < current.end
    ensures Covered(init + [Interval(last.start, current.end)]) == Covered(init + [last]) + Covered([current])
  {
    hide Covered;
    var longer := Interval(last.start, current.end);
    CoveredOfAppend(init, [last]);
    CoveredOfAppend(init, [longer]);
    assert Covered([longer]) == Covered([last]) + Covered([current]) by {
      hide Seconds;
      CoveredOfOne(last);
      CoveredOfOne(longer);
      CoveredOfOne(current);
      JoinedSeconds(last, current);
    }
    UnionAssociates(Covered(init), Covered([last]), Covered([current]));
  }

  lemma {:induction false} LongerRun(merged: seq<Interval>, read: seq<Interval>, current: Interval)
    requires MergesPrefix(merged, read) && merged != []
    requires read[|read| - 1].start <= current.start <= merged[|merged| - 1].end < current.end
    ensures MergesPrefix(
      merged[|merged| - 1 := Interval(merged[|merged| - 1].start, current.end)], read + [current])
  {
    hide Covered;
    var init, last := merged[..|merged| - 1], merged[|merged| - 1];
    var longer := Interval(last.start, current.end);
    assert merged == init + [last] && merged[|merged| - 1 := longer] == init + [longer];
    assert last in merged;
    CoveredOfAppend(read, [current]);
    LongerLast(init, last, current);
  }

  lemma {:induction false} AbsorbedUnion(a: set<int>, b: set<int>, c: set<int>)
    requires c <= b
    ensures (a + b) + c == a + b
  {}

  lemma {:induction false} CoveredByRun(merged: seq<Interval>, read: seq<Interval>, current: Interval)
    requires MergesPrefix(merged, read) && merged != []
    requires read[|read| - 1].start <= current.start && current.end <= merged[|merged| - 1].end
    ensures MergesPrefix(merged, read + [current])
  {
    hide Covered;
    var init, last := merged[..|merged| - 1], merged[|merged| - 1];
    assert merged == init + [last];
    CoveredOfAppend(init, [last]);
    CoveredOfAppend(read, [current]);
    CoveredWithin(current, last);
    AbsorbedUnion(Covered(init), Covered([last]), Covered([current]));
  }

  /** The sort-and-merge loop. */
  method Merge(intervals: seq<Interval>) returns (merged: seq<Interval>)
    requires Nonempty(intervals) && SortedBy(intervals, IntervalLeq)
    ensures Nonempty(merged) && Ascending(merged)
    ensures Covered(merged) == Covered(intervals)
  {
    hide Covered, Ascending;
    merged := [];
    NothingMerged();
    for i := 0 to |intervals|
      invariant MergesPrefix(merged, intervals[..i])
    {
      var current := intervals[i];
      assert current in intervals;
      assert intervals[..i + 1] == intervals[..i] + [current];
      assert i > 0 ==> IntervalLeq(intervals[i - 1], current);
      if merged == [] || current.start > merged[|merged| - 1].end {
        NewRun(merged, intervals[..i], current);
        merged := merged + [current];
      } else if current.end > merged[|merged| - 1].end {
        LongerRun(merged, intervals[..i], current);
        merged := merged[|merged| - 1 := Interval(merged[|merged| - 1].start, current.end)];
      } else {
        CoveredByRun(merged, intervals[..i], current);
      }
    }
    assert intervals[..|intervals|] == intervals;
  }

  method CalculateRuleOvertime(rule: Rule, items: seq<WorkItem>, periodStart: int, periodEnd: int)
    returns (result: Result<nat, WorkingTimeError>)
    ensures (periodStart, periodEnd) != (rule.periodStart, rule.periodEnd) ==> result == Err(CalculationPeriod)
    ensures (periodStart, periodEnd) == (rule.periodStart, rule.periodEnd) ==>
      if forall item | item in items :: CountableUnder(item, rule) then result == Ok(RuleOvertime(rule, items))
      else result == Err(RuleWorkItems)
    ensures result.Ok? <==>
      && periodStart == rule.periodStart && periodEnd == rule.periodEnd
      && forall item | item in items ::
           && item.workerId == rule.workerId && periodStart <= item.start && item.end <= periodEnd
           && item.countability == "COUNTABLE"
    ensures result.Ok? ==> IsBeyondThreshold(rule, items, result.value)
  {
    hide IsBeyondThreshold;
    if (periodStart, periodEnd) != (rule.periodStart, rule.periodEnd) {
      return Err(CalculationPeriod);
    }
    if exists item | item in items :: !CountableUnder(item, rule) {
      return Err(RuleWorkItems);
    }
    var intervals := Sort(IntervalsOf(items), IntervalLeq);
    SortKeepsCover(items);
    hide Covered, TotalLength;
    var merged := Merge(intervals);
    LengthCountsSeconds(merged);
    var countableSeconds := TotalLength(merged);
    result := Ok(if countableSeconds - rule.thresholdSeconds > 0 then countableSeconds - rule.thresholdSeconds else 0);
    OvertimeIsBeyondThreshold(rule, items);
  }

  /** Work at one more second adds at most one second of overtime, and exactly one from the threshold on. */
  lemma {:induction false} EachSecondCounts(rule: Rule, a: seq<WorkItem>, b: seq<WorkItem>, t: int)
    requires Covered(IntervalsOf(b)) == Covered(IntervalsOf(a)) + {t} && t !in Covered(IntervalsOf(a))
    ensures var n := |Covered(IntervalsOf(a))|;
      RuleOvertime(rule, b) == RuleOvertime(rule, a) + if n >= rule.thresholdSeconds then 1 else 0
  {
    hide Covered;
  }

  /** Overtime grows with the seconds at work. */
  lemma {:induction false} OvertimeIsMonotone(rule: Rule, a: seq<WorkItem>, b: seq<WorkItem>)
    requires Covered(IntervalsOf(a)) <= Covered(IntervalsOf(b))
    ensures RuleOvertime(rule, a) <= RuleOvertime(rule, b)
  {
    SubsetIsSmaller(Covered(IntervalsOf(a)), Covered(IntervalsOf(b)));
  }

  /** Order and duplication of evidence never matter. */
  lemma {:induction false} OvertimeIgnoresOrderAndRepeats(rule: Rule, a: seq<WorkItem>, b: seq<WorkItem>)
    requires forall item :: item in a <==> item in b
    ensures RuleOvertime(rule, a) == RuleOvertime(rule, b)
  {
    forall iv ensures iv in IntervalsOf(a) <==> iv in IntervalsOf(b) {
      MembersOfIntervals(a, iv);
      MembersOfIntervals(b, iv);
    }
    CoverDependsOnMembers(IntervalsOf(a), IntervalsOf(b));
  }

  lemma {:induction false} CoveredInside(before: seq<Interval>, middle: seq<Interval>, after: seq<Interval>)
    ensures Covered(before + middle + after) == Covered(before) + Covered(middle) + Covered(after)
  {
    hide Covered;
    CoveredOfAppend(before + middle, after);
    CoveredOfAppend(before, middle);
  }

  lemma {:induction false} SplitInTwo(iv: Interval, at: int)
    requires iv.start < at < iv.end
    ensures Covered([Interval(iv.start, at), Interval(at, iv.end)]) == Covered([iv])
  {
    hide Covered, Seconds;
    var first, second := Interval(iv.start, at), Interval(at, iv.end);
    CoveredOfOne(first);
    CoveredOfOne(second);
    CoveredOfOne(iv);
    JoinedSeconds(first, second);
    assert [first] + [second] == [first, second];
    CoveredOfAppend([first], [second]);
  }

  lemma {:induction false} SplitCovers(before: seq<Interval>, iv: Interval, at: int, after: seq<Interval>)
    requires iv.start < at < iv.end
    ensures Covered(before + [Interval(iv.start, at), Interval(at, iv.end)] + after)
         == Covered(before + [iv] + after)
  {
    hide Covered;
    CoveredInside(before, [Interval(iv.start, at), Interval(at, iv.end)], after);
    CoveredInside(before, [iv], after);
    SplitInTwo(iv, at);
  }

  /** Recording one stretch of work as two adjoining items changes nothing. */
  lemma {:induction false} OvertimeIgnoresSplitting(
    rule: Rule, before: seq<WorkItem>, item: WorkItem, at: int, after: seq<WorkItem>
  )
    requires item.start < at < item.end
    ensures RuleOvertime(rule, before + [item.(end := at), item.(start := at)] + after)
         == RuleOvertime(rule, before + [item] + after)
  {
    var first: WorkItem, second: WorkItem := item.(end := at), item.(start := at);
    var x, y := IntervalsOf(before), IntervalsOf(after);
    assert IntervalsOf(before + [first, second] + after) == x + [ItemInterval(first), ItemInterval(second)] + y;
    assert IntervalsOf(before + [item] + after) == x + [ItemInterval(item)] + y;
    SplitCovers(x, ItemInterval(item), at, y);
  }

  // ---------------------------------------------------------------- _local_calendar_periods

  /** A time zone: the instant at which each local date begins, and the local date of each instant. */
  datatype Zone = Zone(midnight: int -> int, dateOf: int -> int)
  {
    ghost predicate Valid() {
      && (forall d, e | d < e :: midnight(d) < midnight(e))
      && (forall t :: midnight(dateOf(t)) <= t < midnight(dateOf(t) + 1))
    }

    function Day(date: int): Interval {
      Interval(midnight(date), midnight(date + 1))
    }
  }

  predicate Overlaps(a: Interval, b: Interval) {
    a.start < b.end && b.start < a.end
  }

  /** The local days that some input interval touches, in order: no more and no fewer. */
  ghost predicate AreTouchedDays(zone: Zone, intervals: seq<Interval>, periods: seq<Interval>) {
    && Nonempty(periods) && Ascending(periods)
    && (forall p | p in periods ::
          exists date :: p == zone.Day(date) && exists iv | iv in intervals :: Overlaps(iv, p))
    && (forall iv, date | iv in intervals && Overlaps(iv, zone.Day(date)) :: zone.Day(date) in periods)
  }

  /** `days` is exactly the set of local days touched by `intervals`. */
  ghost predicate DaysOf(zone: Zone, intervals: seq<Interval>, days: set<Interval>) {
    && (forall p | p in days :: exists date :: p == zone.Day(date) && exists iv | iv in intervals :: Overlaps(iv, p))
    && (forall iv, date | iv in intervals && Overlaps(iv, zone.Day(date)) :: zone.Day(date) in days)
  }

  lemma {:induction false} OverlappedDates(zone: Zone, iv: Interval, date: int)
    requires zone.Valid() && iv.start < iv.end
    ensures Overlaps(iv, zone.Day(date)) <==> zone.dateOf(iv.start) <= date <= zone.dateOf(iv.end - 1)
  {
    var first, last := zone.dateOf(iv.start), zone.dateOf(iv.end - 1);
    if date < first {
      assert date + 1 == first || zone.midnight(date + 1) < zone.midnight(first);
    } else if date > last {
      assert last + 1 == date || zone.midnight(last + 1) < zone.midnight(date);
    } else {
      assert date == first || zone.midnight(first + 1) <= zone.midnight(date) by {
        if first < date && first + 1 != date {
          assert zone.midnight(first + 1) < zone.midnight(date);
        }
      }
      assert date == last || zone.midnight(date) < zone.midnight(last);
      assert date == first || zone.midnight(first) < zone.midnight(date + 1);
    }
  }

  ghost predicate DayWithin(zone: Zone, first: int, next: int, p: Interval) {
    exists d | first <= d < next :: p == zone.Day(d)
  }

  /** `extended` holds `days` and the local days from `first` up to but excluding `next`. */
  ghost predicate Extends(zone: Zone, days: set<Interval>, extended: set<Interval>, first: int, next: int) {
    && days <= extended
    && (forall p | p in extended :: p in days || DayWithin(zone, first, next, p))
    && (forall d | first <= d < next :: zone.Day(d) in extended)
  }

  lemma {:induction false} NextDay(zone: Zone, days: set<Interval>, extended: set<Interval>, first: int, next: int)
    requires Extends(zone, days, extended, first, next) && first <= next
    ensures Extends(zone, days, extended + {zone.Day(next)}, first, next + 1)
  {
    forall p | p in extended + {zone.Day(next)} ensures p in days || DayWithin(zone, first, next + 1, p) {
      if p in extended {
        assert p in days || DayWithin(zone, first, next, p);
      } else {
        assert p == zone.Day(next);
      }
    }
  }

  lemma {:induction false} NoDaysYet(zone: Zone, days: set<Interval>, first: int)
    ensures Extends(zone, days, days, first, first)
  {}

  lemma {:induction false} NewDaysComplete(
    zone: Zone, earlier: seq<Interval>, iv: Interval, days: set<Interval>, extended: set<Interval>
  )
    requires zone.Valid() && iv.start < iv.end && DaysOf(zone, earlier, days)
    requires Extends(zone, days, extended, zone.dateOf(iv.start), zone.dateOf(iv.end - 1) + 1)
    ensures DaysOf(zone, earlier + [iv], extended)
  {
    forall p | p in extended
      ensures exists date :: p == zone.Day(date) && exists x | x in earlier + [iv] :: Overlaps(x, p)
    {
      if p in days {
        var date :| p == zone.Day(date) && exists x | x in earlier :: Overlaps(x, p);
        var x :| x in earlier && Overlaps(x, p);
        assert x in earlier + [iv];
      } else {
        var d :| zone.dateOf(iv.start) <= d < zone.dateOf(iv.end - 1) + 1 && p == zone.Day(d);
        OverlappedDates(zone, iv, d);
        assert iv in earlier + [iv];
      }
    }
    forall x, date | x in earlier + [iv] && Overlaps(x, zone.Day(date)) ensures zone.Day(date) in extended {
      if x !in earlier {
        OverlappedDates(zone, iv, date);
      }
    }
  }

  /** The `while current_date <= final_date` loop for one interval. */
  method AddDays(zone: Zone, ghost earlier: seq<Interval>, iv: Interval, days: set<Interval>)
    returns (extended: set<Interval>)
    requires zone.Valid() && iv.start < iv.end && DaysOf(zone, earlier, days)
    ensures DaysOf(zone, earlier + [iv], extended)
  {
    hide Extends, DaysOf;
    var first := zone.dateOf(iv.start);
    var current := first;
    var final := zone.dateOf(iv.end - 1);
    extended := days;
    NoDaysYet(zone, days, first);
    while current <= final
      invariant first <= current && (current <= final + 1 || current == first)
      invariant Extends(zone, days, extended, first, current)
      decreases final - current
    {
      NextDay(zone, days, extended, first, current);
      extended := extended + {Interval(zone.midnight(current), zone.midnight(current + 1))};
      current := current + 1;
    }
    OverlappedDates(zone, iv, first);
    NewDaysComplete(zone, earlier, iv, days, extended);
  }

  lemma {:induction false} DaysInOrder(zone: Zone, d: int, e: int)
    requires zone.Valid() && IntervalLeq(zone.Day(d), zone.Day(e)) && zone.Day(d) != zone.Day(e)
    ensures zone.Day(d).end <= zone.Day(e).start
  {
    assert e < d ==> zone.midnight(e) < zone.midnight(d);
    assert d + 1 < e ==> zone.midnight(d + 1) < zone.midnight(e);
  }

  lemma {:induction false} DaysAscend(zone: Zone, intervals: seq<Interval>, days: set<Interval>, sorted: seq<Interval>)
    requires zone.Valid() && DaysOf(zone, intervals, days)
    requires forall p :: p in sorted <==> p in days
    requires forall i, j | 0 <= i < j < |sorted| :: sorted[i] != sorted[j]
    requires SortedBy(sorted, IntervalLeq)
    ensures AreTouchedDays(zone, intervals, sorted)
  {
    forall p | p in sorted ensures exists d :: p == zone.Day(d) && p.start < p.end {
      var d :| p == zone.Day(d) && exists x | x in intervals :: Overlaps(x, p);
      assert zone.midnight(d) < zone.midnight(d + 1);
    }
    forall i, j | 0 <= i < j < |sorted| ensures sorted[i].end <= sorted[j].start {
      assert sorted[i] in sorted && sorted[j] in sorted && IntervalLeq(sorted[i], sorted[j]);
      hide IntervalLeq, Zone.Day, Zone.Valid;
      var d :| sorted[i] == zone.Day(d) && sorted[i].start < sorted[i].end;
      var e :| sorted[j] == zone.Day(e) && sorted[j].start < sorted[j].end;
      DaysInOrder(zone, d, e);
    }
  }

  method LocalCalendarPeriods(zone: Zone, intervals: seq<Interval>)
    returns (result: Result<seq<Interval>, WorkingTimeError>)
    requires zone.Valid()
    ensures result.Err? <==> !Nonempty(intervals)
    ensures result.Ok? ==> AreTouchedDays(zone, intervals, result.value)
  {
    var days: set<Interval> := {};
    for i := 0 to |intervals|
      invariant Nonempty(intervals[..i])
      invariant DaysOf(zone, intervals[..i], days)
    {
      var iv := intervals[i];
      if iv.end <= iv.start {
        assert iv in intervals;
        return Err(WorkingInterval);
      }
      assert intervals[..i + 1] == intervals[..i] + [iv];
      days := AddDays(zone, intervals[..i], iv, days);
    }
    assert intervals[..|intervals|] == intervals;
    var sorted := SortedSet(days, IntervalLeq);
    DaysAscend(zone, intervals, days, sorted);
    result := Ok(sorted);
  }

  // ---------------------------------------------------------------- clipping placements to periods

  function Max(a: int, b: int): int { if a >= b then a else b }

  function Min(a: int, b: int): int { if a <= b then a else b }

  /** `max(start, period_start)` to `min(end, period_end)`. */
  function Clip(iv: Interval, period: Interval): Interval {
    Interval(Max(iv.start, period.start), Min(iv.end, period.end))
  }

  /** The work intervals a placement contributes, one for each period in which it has time. */
  function Pieces(iv: Interval, periods: seq<Interval>): seq<Interval> {
    if periods == [] then []
    else
      var last := Clip(iv, periods[|periods| - 1]);
      Pieces(iv, periods[..|periods| - 1]) + if last.end > last.start then [last] else []
  }

  /** Non-empty, non-overlapping pieces that cover what `iv` and the periods have in common. */
  ghost predicate ArePieces(iv: Interval, periods: seq<Interval>, pieces: seq<Interval>) {
    && Nonempty(pieces) && Ascending(pieces)
    && Covered(pieces) == Covered([iv]) * Covered(periods)
    && forall p | p in pieces :: periods != [] && p.end <= periods[|periods| - 1].end
  }

  lemma {:induction false} Distribute(a: set<int>, b: set<int>, c: set<int>)
    ensures a * (b + c) == a * b + a * c
  {}

  lemma {:induction false} ClipIntersects(iv: Interval, period: Interval)
    ensures Covered([Clip(iv, period)]) == Covered([iv]) * Covered([period])
    ensures Clip(iv, period).end <= Clip(iv, period).start ==> Covered([iv]) * Covered([period]) == {}
  {
    hide Covered, Seconds;
    CoveredOfOne(iv);
    CoveredOfOne(period);
    CoveredOfOne(Clip(iv, period));
  }

  lemma {:induction false} AddPiece(iv: Interval, init: seq<Interval>, last: Interval, earlier: seq<Interval>)
    requires iv.start < iv.end && last.start < last.end && Ascending(init + [last])
    requires ArePieces(iv, init, earlier)
    ensures var piece := Clip(iv, last);
      ArePieces(iv, init + [last], earlier + if piece.end > piece.start then [piece] else [])
  {
    hide Covered;
    var piece := Clip(iv, last);
    CoveredOfAppend(init, [last]);
    ClipIntersects(iv, last);
    Distribute(Covered([iv]), Covered(init), Covered([last]));
    assert init != [] ==> (init + [last])[|init| - 1].end <= (init + [last])[|init|].start;
    assert forall i | 0 <= i < |earlier| :: earlier[i] in earlier;
    if piece.end > piece.start {
      CoveredOfAppend(earlier, [piece]);
    } else {
      assert earlier + [] == earlier;
    }
  }

  lemma {:induction false} PiecesAreIntersections(iv: Interval, periods: seq<Interval>)
    requires Nonempty(periods) && Ascending(periods) && iv.start < iv.end
    ensures ArePieces(iv, periods, Pieces(iv, periods))
  {
    if periods != [] {
      hide ArePieces;
      var n := |periods| - 1;
      assert periods == periods[..n] + [periods[n]] && periods[n] in periods;
      PiecesAreIntersections(iv, periods[..n]);
      AddPiece(iv, periods[..n], periods[n], Pieces(iv, periods[..n]));
    }
  }

  lemma {:induction false} TouchedDaysCover(zone: Zone, intervals: seq<Interval>, periods: seq<Interval>)
    requires zone.Valid() && AreTouchedDays(zone, intervals, periods)
    ensures Covered(intervals) <= Covered(periods)
  {
    CoveredMeans(intervals);
    CoveredMeans(periods);
    forall t | t in Covered(intervals) ensures t in Covered(periods) {
      var iv :| iv in intervals && iv.start <= t < iv.end;
      var p := zone.Day(zone.dateOf(t));
      assert Overlaps(iv, p) && p in periods;
    }
  }

  /** Splitting a placement at local midnights loses nothing and counts nothing twice. */
  lemma {:induction false} MidnightSplitConserves(
    zone: Zone, intervals: seq<Interval>, periods: seq<Interval>, iv: Interval
  )
    requires zone.Valid() && Nonempty(intervals) && AreTouchedDays(zone, intervals, periods) && iv in intervals
    ensures Nonempty(Pieces(iv, periods)) && Ascending(Pieces(iv, periods))
    ensures Covered(Pieces(iv, periods)) == Covered([iv])
    ensures TotalLength(Pieces(iv, periods)) == iv.end - iv.start
  {
    hide Covered;
    PiecesAreIntersections(iv, periods);
    TouchedDaysCover(zone, intervals, periods);
    CoveredOfOne(iv);
    CoveredMeans(intervals);
    assert Covered([iv]) <= Covered(intervals);
    LengthCountsSeconds(Pieces(iv, periods));
  }

  // ---------------------------------------------------------------- baseline and candidate compared

  datatype PeriodKey = PeriodKey(workerId: string, start: int, end: int)

  datatype Comparison = Comparison(
    workerId: string, period: Interval, rule: Option<Rule>,
    baseline: seq<WorkItem>, candidate: seq<WorkItem>, coverageComplete: bool,
    baselineOvertime: Option<nat>, candidateOvertime: Option<nat>)
  {
    function Key(): PeriodKey {
      PeriodKey(workerId, period.start, period.end)
    }

    predicate CreatesOvertime() {
      coverageComplete && baselineOvertime.Some? && candidateOvertime.Some?
      && candidateOvertime.value > baselineOvertime.value
    }

    /** What the evidence constructors leave standing: items of the right side and worker, and, on complete
        coverage, the same common work on both sides with amounts recomputed from the selected rule. */
    ghost predicate Valid() {
      && period.start < period.end
      && (rule.Some? ==> rule.value.workerId == workerId
                         && Interval(rule.value.periodStart, rule.value.periodEnd) == period)
      && (forall item | item in baseline :: item.workerId == workerId && !item.kind.ProposedCandidate?)
      && (forall item | item in candidate :: item.workerId == workerId && !item.kind.BaselineChanged?)
      && if coverageComplete then
           && rule.Some?
           && (baseline != [] || candidate != [])
           && (forall item: WorkItem | item.kind.Common() :: item in baseline <==> item in candidate)
           && (forall item | item in baseline + candidate :: CountableUnder(item, rule.value))
           && baselineOvertime == Some(RuleOvertime(rule.value, baseline))
           && candidateOvertime == Some(RuleOvertime(rule.value, candidate))
         else
           baselineOvertime == None && candidateOvertime == None
    }
  }

  datatype OvertimeApplicability = CreatesOvertime | DoesNotCreateOvertime | UnknownOvertime

  datatype OvertimeAssessment = OvertimeAssessment(
    relevantPeriods: seq<PeriodKey>, comparisons: seq<Comparison>, universeComplete: bool)
  {
    predicate Complete() {
      && universeComplete
      && relevantPeriods != []
      && relevantPeriods == seq(|comparisons|, i requires 0 <= i < |comparisons| => comparisons[i].Key())
      && forall c | c in comparisons :: c.coverageComplete
    }

    function Applicability(): OvertimeApplicability {
      if !Complete() then UnknownOvertime
      else if exists c | c in comparisons :: c.CreatesOvertime() then CreatesOvertime
      else DoesNotCreateOvertime
    }
  }

  /** One comparison reports new overtime exactly when the candidate puts the worker to work for more
      seconds of the day than both the baseline and the threshold. */
  lemma {:induction false} NewOvertimeMeansMoreSeconds(c: Comparison)
    requires c.Valid() && c.coverageComplete
    ensures var atWork := |Covered(IntervalsOf(c.candidate))|;
      c.CreatesOvertime() <==>
        atWork > c.rule.value.thresholdSeconds && atWork > |Covered(IntervalsOf(c.baseline))|
  {}

  /** No netting: a single worker-day decides, whatever the other worker-days save. */
  lemma {:induction false} OvertimeIsDecidedPerWorkerDay(a: OvertimeAssessment)
    requires forall c | c in a.comparisons :: c.Valid()
    ensures a.Applicability() == CreatesOvertime <==>
      a.Complete() && exists c | c in a.comparisons ::
        && c.rule.Some?
        && |Covered(IntervalsOf(c.candidate))| > c.rule.value.thresholdSeconds
        && |Covered(IntervalsOf(c.candidate))| > |Covered(IntervalsOf(c.baseline))|
    ensures a.Applicability() != UnknownOvertime <==>
      && a.universeComplete && |a.relevantPeriods| == |a.comparisons| > 0
      && forall i | 0 <= i < |a.comparisons| ::
           var c, key := a.comparisons[i], a.relevantPeriods[i];
           && c.coverageComplete && key.workerId == c.workerId
           && key.start == c.period.start && key.end == c.period.end
  {
    forall c | c in a.comparisons && c.coverageComplete
      ensures c.CreatesOvertime() <==>
        && |Covered(IntervalsOf(c.candidate))| > c.rule.value.thresholdSeconds
        && |Covered(IntervalsOf(c.candidate))| > |Covered(IntervalsOf(c.baseline))|
    {
      NewOvertimeMeansMoreSeconds(c);
    }
  }

  /** The changed items of a comparison are the placements clipped to its period: all of the baseline's,
      and nothing but the proposal's. */
  ghost predicate ClippedFrom(c: Comparison, baseline: seq<Interval>, proposed: seq<Interval>) {
    && (forall p | p in baseline && Clip(p, c.period).start < Clip(p, c.period).end ::
          exists item | item in c.baseline :: ItemInterval(item) == Clip(p, c.period))
    && (forall item | item in c.candidate && item.kind.ProposedCandidate? ::
          exists p | p in proposed :: ItemInterval(item) == Clip(p, c.period))
  }

  lemma {:induction false} MoveWithinBaselineCovers(c: Comparison, baseline: seq<Interval>, proposed: seq<Interval>)
    requires c.Valid() && c.coverageComplete && ClippedFrom(c, baseline, proposed)
    requires Covered(proposed) <= Covered(baseline)
    ensures Covered(IntervalsOf(c.candidate)) <= Covered(IntervalsOf(c.baseline))
  {
    hide Covered;
    forall t | t in Covered(IntervalsOf(c.candidate)) ensures t in Covered(IntervalsOf(c.baseline)) {
      var item := ItemAt(c.candidate, t);
      if item.kind.Common() {
        AtWork(c.baseline, item, t);
      } else {
        var p :| p in proposed && ItemInterval(item) == Clip(p, c.period);
        CoveredMeans(proposed);
        CoveredMeans(baseline);
        assert p.start <= t < p.end;
        assert t in Covered(proposed);
        assert t in Covered(baseline);
        var b :| b in baseline && b.start <= t < b.end;
        var original :| original in c.baseline && ItemInterval(original) == Clip(b, c.period);
        AtWork(c.baseline, original, t);
      }
    }
  }

  /** Moving work to hours in which the worker was already working is never overtime. */
  lemma {:induction false} MoveWithinBaselineHoursIsNotOvertime(
    a: OvertimeAssessment, baseline: map<string, seq<Interval>>, proposed: map<string, seq<Interval>>
  )
    requires forall c | c in a.comparisons ::
        && c.Valid()
        && (a.Complete() ==>
              && c.workerId in baseline && c.workerId in proposed
              && ClippedFrom(c, baseline[c.workerId], proposed[c.workerId]))
    requires forall w | w in proposed :: w in baseline && Covered(proposed[w]) <= Covered(baseline[w])
    ensures a.Applicability() != CreatesOvertime
  {
    if a.Complete() {
      forall c | c in a.comparisons ensures !c.CreatesOvertime() {
        MoveWithinBaselineCovers(c, baseline[c.workerId], proposed[c.workerId]);
        OvertimeIsMonotone(c.rule.value, c.candidate, c.baseline);
      }
    }
  }
}
