/** Splitting one job item into task-day chunks, and the chunks a dependent job item waits for.
    Quantities and hours are exact reals. */
module Chunking {
  import opened Prelude

  datatype UnitType = SquareMeter | WorkerHour | Piece | Room
  {
    predicate Continuous() {
      SquareMeter? || WorkerHour?
    }
  }

  datatype SkuProfile = SkuProfile(sku: string, unit: UnitType, norm: real, predecessorIfPresent: seq<string>)

  datatype ChunkId = ChunkId(jobItemId: string, index: nat)

  datatype ScheduledChunk = ScheduledChunk(
    id: ChunkId, sequence: nat, quantity: real, workerHours: real, predecessor: Option<ChunkId>)

  datatype ChunkedJobItem = ChunkedJobItem(
    jobId: string, jobItemId: string, sku: string, chunks: seq<ScheduledChunk>)

  datatype ChunkingError =
    | JobItemIdRequired
    | NotPositive(name: string)
    | NotWholeUnits
    | UnitDoesNotFit
    | PredecessorWithoutChunks

  predicate IsBlank(s: string) {
    forall c | c in s :: c in " \t\n\r"
  }

  predicate IsWhole(x: real) {
    x == x.Floor as real
  }

  function TotalQuantity(chunks: seq<ScheduledChunk>): real {
    if chunks == [] then 0.0
    else TotalQuantity(chunks[..|chunks| - 1]) + chunks[|chunks| - 1].quantity
  }

  function TotalHours(chunks: seq<ScheduledChunk>): real {
    if chunks == [] then 0.0
    else TotalHours(chunks[..|chunks| - 1]) + chunks[|chunks| - 1].workerHours
  }

  /** An amount of work that one task day can hold. */
  predicate AmountFits(quantity: real, hours: real, profile: SkuProfile, maximum: real) {
    && 0.0 < hours <= maximum
    && hours == quantity * profile.norm
    && (profile.unit.Continuous() || IsWhole(quantity))
  }

  predicate FitsTaskDay(c: ScheduledChunk, profile: SkuProfile, maximum: real) {
    AmountFits(c.quantity, c.workerHours, profile, maximum)
  }

  /** Any way at all to do the requested quantity in task days. */
  ghost predicate IsChunkingOf(chunks: seq<ScheduledChunk>, quantity: real, profile: SkuProfile, maximum: real) {
    && (forall c | c in chunks :: FitsTaskDay(c, profile, maximum))
    && TotalQuantity(chunks) == quantity
  }

  /** The most that one task day holds. */
  function Capacity(profile: SkuProfile, maximum: real): real
    requires profile.norm > 0.0
  {
    if profile.unit.Continuous() then maximum / profile.norm else (maximum / profile.norm).Floor as real
  }

  ghost predicate AllButLastFull(chunks: seq<ScheduledChunk>, profile: SkuProfile, maximum: real)
    requires profile.norm > 0.0
  {
    forall i | 0 <= i < |chunks| - 1 :: chunks[i].quantity == Capacity(profile, maximum)
  }

  ghost predicate LinkedAt(c: ScheduledChunk, jobItemId: string, i: nat) {
    && c.id == ChunkId(jobItemId, i + 1)
    && c.sequence == i + 1
    && c.predecessor == if i == 0 then None else Some(ChunkId(jobItemId, i))
  }

  /** Numbered from one, each naming the chunk before it. */
  ghost predicate Linked(chunks: seq<ScheduledChunk>, jobItemId: string) {
    forall i | 0 <= i < |chunks| :: LinkedAt(chunks[i], jobItemId, i)
  }

  lemma {:induction false} MultiplyOrder(a: real, b: real, m: real)
    requires a <= b && m > 0.0
    ensures a * m <= b * m
  {}

  lemma {:induction false} MultiplyStrictOrder(a: real, b: real, m: real)
    requires a < b && m > 0.0
    ensures a * m < b * m
  {}

  lemma {:induction false} Distribute(sum: real, a: real, b: real, m: real)
    requires sum == a + b
    ensures sum * m == a * m + b * m
  {}

  lemma {:induction false} PartOfWhole(part: real, m: real)
    requires 0.0 <= part < 1.0 && m > 0.0
    ensures 0.0 <= part * m < m
  {}

  lemma {:induction false} Associate(a: real, b: real, m: real)
    ensures (a * b) * m == a * (b * m)
  {}

  lemma {:induction false} Cancel(a: real, b: real, m: real)
    requires m > 0.0 && a * m == b * m
    ensures a == b
  {
    if a < b {
      MultiplyStrictOrder(a, b, m);
    } else if b < a {
      MultiplyStrictOrder(b, a, m);
    }
  }

  lemma {:induction false} DivideAndMultiply(a: real, m: real)
    requires m != 0.0
    ensures a / m * m == a && a * m / m == a
  {}

  lemma {:induction false} CapacityIsLargest(c: ScheduledChunk, profile: SkuProfile, maximum: real)
    requires profile.norm > 0.0 && FitsTaskDay(c, profile, maximum)
    ensures 0.0 < c.quantity <= Capacity(profile, maximum)
  {
    assert c.quantity == c.workerHours / profile.norm;
    assert c.workerHours / profile.norm <= maximum / profile.norm;
    if !profile.unit.Continuous() {
      assert c.quantity.Floor <= (maximum / profile.norm).Floor;
    }
  }

  lemma {:induction false} TotalWithinCapacity(chunks: seq<ScheduledChunk>, profile: SkuProfile, maximum: real)
    requires profile.norm > 0.0
    requires forall c | c in chunks :: FitsTaskDay(c, profile, maximum)
    ensures TotalQuantity(chunks) <= |chunks| as real * Capacity(profile, maximum)
  {
    hide Capacity, AmountFits;
    if chunks != [] {
      var n := |chunks| - 1;
      TotalWithinCapacity(chunks[..n], profile, maximum);
      assert chunks[n] in chunks;
      CapacityIsLargest(chunks[n], profile, maximum);
      Distribute(|chunks| as real, n as real, 1.0, Capacity(profile, maximum));
    }
  }

  lemma {:induction false} FullChunksTotal(chunks: seq<ScheduledChunk>, capacity: real)
    requires forall c | c in chunks :: c.quantity == capacity
    ensures TotalQuantity(chunks) == |chunks| as real * capacity
  {
    if chunks != [] {
      var n := |chunks| - 1;
      FullChunksTotal(chunks[..n], capacity);
      assert chunks[n] in chunks;
      Distribute(|chunks| as real, n as real, 1.0, capacity);
    }
  }

  lemma {:induction false} FullButLastTotal(chunks: seq<ScheduledChunk>, capacity: real)
    requires chunks != [] && forall i | 0 <= i < |chunks| - 1 :: chunks[i].quantity == capacity
    ensures TotalQuantity(chunks) == (|chunks| - 1) as real * capacity + chunks[|chunks| - 1].quantity
  {
    FullChunksTotal(chunks[..|chunks| - 1], capacity);
  }

  lemma {:induction false} HoursFollowQuantity(chunks: seq<ScheduledChunk>, profile: SkuProfile, maximum: real)
    requires forall c | c in chunks :: FitsTaskDay(c, profile, maximum)
    ensures TotalHours(chunks) == TotalQuantity(chunks) * profile.norm
  {
    if chunks != [] {
      HoursFollowQuantity(chunks[..|chunks| - 1], profile, maximum);
      assert chunks[|chunks| - 1] in chunks;
      Distribute(TotalQuantity(chunks), TotalQuantity(chunks[..|chunks| - 1]), chunks[|chunks| - 1].quantity,
                 profile.norm);
    }
  }

  lemma {:induction false} TooFewDays(fewer: nat, full: nat, capacity: real, last: real)
    requires fewer <= full && 0.0 < last <= capacity
    ensures fewer as real * capacity < full as real * capacity + last
  {
    MultiplyOrder(fewer as real, full as real, capacity);
  }

  /** A greedy chunking is as short as any chunking of the same quantity. */
  lemma {:induction false} GreedyIsShortest(
    chunks: seq<ScheduledChunk>, other: seq<ScheduledChunk>, quantity: real, profile: SkuProfile, maximum: real
  )
    requires profile.norm > 0.0
    requires IsChunkingOf(chunks, quantity, profile, maximum) && AllButLastFull(chunks, profile, maximum)
    requires IsChunkingOf(other, quantity, profile, maximum)
    ensures |chunks| <= |other|
  {
    hide TotalQuantity, Capacity, AmountFits;
    if |other| < |chunks| {
      var last := chunks[|chunks| - 1];
      var capacity := Capacity(profile, maximum);
      assert last in chunks;
      FullButLastTotal(chunks, capacity);
      CapacityIsLargest(last, profile, maximum);
      TotalWithinCapacity(other, profile, maximum);
      TooFewDays(|other|, |chunks| - 1, capacity, last.quantity);
    }
  }

  lemma {:induction false} WholeSum(a: real, b: real)
    requires IsWhole(a) && IsWhole(b)
    ensures IsWhole(a + b)
  {
    assert a + b == (a.Floor + b.Floor) as real;
  }

  /** Whole pieces never add up to a fractional quantity. */
  lemma {:induction false} WholeUnitsTotal(chunks: seq<ScheduledChunk>, profile: SkuProfile, maximum: real)
    requires !profile.unit.Continuous()
    requires forall c | c in chunks :: FitsTaskDay(c, profile, maximum)
    ensures IsWhole(TotalQuantity(chunks))
  {
    if chunks != [] {
      WholeUnitsTotal(chunks[..|chunks| - 1], profile, maximum);
      assert chunks[|chunks| - 1] in chunks;
      WholeSum(TotalQuantity(chunks[..|chunks| - 1]), chunks[|chunks| - 1].quantity);
    }
  }

  /** The refusals of `_positive_decimal` and of the discrete units, in source order. */
  function Refusal(jobItemId: string, quantity: real, profile: SkuProfile, maximum: real): Option<ChunkingError> {
    if IsBlank(jobItemId) then Some(JobItemIdRequired)
    else if quantity <= 0.0 then Some(NotPositive("quantity"))
    else if profile.norm <= 0.0 then Some(NotPositive("norm_worker_hours_per_unit"))
    else if maximum <= 0.0 then Some(NotPositive("max_scheduled_hours_per_task_day"))
    else if profile.unit.Continuous() then None
    else if !IsWhole(quantity) then Some(NotWholeUnits)
    else if Capacity(profile, maximum) < 1.0 then Some(UnitDoesNotFit)
    else None
  }

  /** The two refusals that look at well-formed positive input are exactly right:
      no chunking of that quantity exists. */
  lemma {:induction false} RefusedQuantityHasNoChunking(
    jobItemId: string, quantity: real, profile: SkuProfile, maximum: real, chunks: seq<ScheduledChunk>
  )
    requires Refusal(jobItemId, quantity, profile, maximum) in {Some(NotWholeUnits), Some(UnitDoesNotFit)}
    ensures !IsChunkingOf(chunks, quantity, profile, maximum)
  {
    if IsChunkingOf(chunks, quantity, profile, maximum) {
      WholeUnitsTotal(chunks, profile, maximum);
      var c := chunks[|chunks| - 1];
      assert c in chunks;
      CapacityIsLargest(c, profile, maximum);
      assert false;
    }
  }

  function SumOfQuantities(values: seq<(real, real)>): real {
    if values == [] then 0.0
    else SumOfQuantities(values[..|values| - 1]) + values[|values| - 1].0
  }

  /** Quantity-and-hours pairs that satisfy the contract once they are numbered. */
  ghost predicate GreedyValues(values: seq<(real, real)>, quantity: real, profile: SkuProfile, maximum: real)
    requires profile.norm > 0.0
  {
    && values != []
    && SumOfQuantities(values) == quantity
    && (forall i | 0 <= i < |values| ::
          AmountFits(values[i].0, values[i].1, profile, maximum))
    && (forall i | 0 <= i < |values| - 1 :: values[i].0 == Capacity(profile, maximum))
  }

  lemma {:induction false} NumberingKeepsGreedy(
    chunks: seq<ScheduledChunk>, values: seq<(real, real)>, quantity: real, profile: SkuProfile, maximum: real
  )
    requires profile.norm > 0.0 && GreedyValues(values, quantity, profile, maximum)
    requires |chunks| == |values| && TotalQuantity(chunks) == SumOfQuantities(values)
    requires forall i | 0 <= i < |values| ::
        chunks[i].quantity == values[i].0 && chunks[i].workerHours == values[i].1
    ensures IsChunkingOf(chunks, quantity, profile, maximum)
    ensures AllButLastFull(chunks, profile, maximum)
    ensures TotalHours(chunks) == quantity * profile.norm
  {
    HoursFollowQuantity(chunks, profile, maximum);
  }

  /** Rounding down the number of task days leaves less than one of them. */
  lemma {:induction false} LessThanOneDayLeft(total: real, maximum: real, days: real, n: real)
    requires maximum > 0.0 && n <= days < n + 1.0 && days * maximum == total
    ensures 0.0 <= total - n * maximum < maximum
  {
    var over := days - n;
    Distribute(days, n, over, maximum);
    PartOfWhole(over, maximum);
    var product := over * maximum;
    assert total == n * maximum + product;
  }

  /** Whole task days and the rest make up the quantity again. */
  lemma {:induction false} DaysAndRestAddUp(quantity: real, norm: real, maximum: real, n: real, rest: real)
    requires norm > 0.0 && rest == quantity * norm - n * maximum
    ensures n * (maximum / norm) + rest / norm == quantity
  {
    var full, x := maximum / norm, rest / norm;
    DivideAndMultiply(maximum, norm);
    DivideAndMultiply(rest, norm);
    Associate(n, full, norm);
    Distribute(n * full + x, n * full, x, norm);
    Cancel(n * full + x, quantity, norm);
  }

  lemma {:induction false} PositiveQuotient(a: real, m: real)
    requires a > 0.0 && m > 0.0
    ensures a / m > 0.0
  {}

  /** The floor leaves less than one task day over, and nothing is lost by it. */
  lemma {:induction false} ContinuousArithmetic(quantity: real, norm: real, maximum: real, fullCount: int)
    requires quantity > 0.0 && norm > 0.0 && maximum > 0.0
    requires fullCount == (quantity * norm / maximum).Floor
    ensures fullCount >= 0
    ensures var remainderHours := quantity * norm - maximum * fullCount as real;
      && 0.0 <= remainderHours < maximum
      && remainderHours / norm * norm == remainderHours
      && fullCount as real * (maximum / norm) + remainderHours / norm == quantity
    ensures maximum / norm * norm == maximum
  {
    MultiplyStrictOrder(0.0, quantity, norm);
    var days := quantity * norm / maximum;
    DivideAndMultiply(quantity * norm, maximum);
    PositiveQuotient(quantity * norm, maximum);
    LessThanOneDayLeft(quantity * norm, maximum, days, fullCount as real);
    DaysAndRestAddUp(quantity, norm, maximum, fullCount as real, quantity * norm - maximum * fullCount as real);
    DivideAndMultiply(maximum, norm);
    DivideAndMultiply(quantity * norm - maximum * fullCount as real, norm);
  }

  lemma {:induction false} SumOfEqualQuantities(values: seq<(real, real)>, q: real)
    requires forall i | 0 <= i < |values| :: values[i].0 == q
    ensures SumOfQuantities(values) == |values| as real * q
  {
    if values != [] {
      SumOfEqualQuantities(values[..|values| - 1], q);
      Distribute(|values| as real, (|values| - 1) as real, 1.0, q);
    }
  }

  lemma {:induction false} SumWithRest(
    days: seq<(real, real)>, values: seq<(real, real)>, quantity: real, capacity: real, norm: real, rest: (real, real)
  )
    requires norm > 0.0 && forall i | 0 <= i < |days| :: days[i].0 == capacity
    requires values == days + if rest.1 > 0.0 then [rest] else []
    requires rest.0 * norm == rest.1 && rest.1 >= 0.0
    requires |days| as real * capacity + rest.0 == quantity
    ensures SumOfQuantities(values) == quantity
  {
    SumOfEqualQuantities(days, capacity);
    if rest.1 > 0.0 {
      assert values[..|values| - 1] == days;
    } else {
      assert values == days;
      DivideAndMultiply(rest.0, norm);
    }
  }

  lemma {:induction false} ContinuousGreedy(
    days: seq<(real, real)>, values: seq<(real, real)>, quantity: real, profile: SkuProfile, maximum: real,
    rest: (real, real)
  )
    requires quantity > 0.0 && profile.norm > 0.0 && profile.unit.Continuous()
    requires forall i | 0 <= i < |days| :: days[i] == (Capacity(profile, maximum), maximum)
    requires values == days + if rest.1 > 0.0 then [rest] else []
    requires Capacity(profile, maximum) * profile.norm == maximum && rest.0 * profile.norm == rest.1
    requires 0.0 <= rest.1 < maximum
    requires |days| as real * Capacity(profile, maximum) + rest.0 == quantity
    ensures GreedyValues(values, quantity, profile, maximum)
  {
    hide Capacity, SumOfQuantities;
    SumWithRest(days, values, quantity, Capacity(profile, maximum), profile.norm, rest);
  }

  method ContinuousValues(quantity: real, profile: SkuProfile, maximum: real) returns (values: seq<(real, real)>)
    requires quantity > 0.0 && profile.norm > 0.0 && maximum > 0.0 && profile.unit.Continuous()
    ensures GreedyValues(values, quantity, profile, maximum)
  {
    var norm := profile.norm;
    var totalHours := quantity * norm;
    var fullCount := (totalHours / maximum).Floor;
    var fullQuantity := maximum / norm;
    var remainderHours := totalHours - maximum * fullCount as real;
    ContinuousArithmetic(quantity, norm, maximum, fullCount);
    values := seq(fullCount, _ => (fullQuantity, maximum));
    ghost var days := values;
    if remainderHours > 0.0 {
      values := values + [(remainderHours / norm, remainderHours)];
    }
    ContinuousGreedy(days, values, quantity, profile, maximum, (remainderHours / norm, remainderHours));
  }

  lemma {:induction false} UnitsFit(units: int, most: int, profile: SkuProfile, maximum: real)
    requires profile.norm > 0.0 && 1 <= units <= most == (maximum / profile.norm).Floor
    ensures AmountFits(units as real, units as real * profile.norm, profile, maximum)
  {
    assert units as real <= maximum / profile.norm;
    MultiplyOrder(units as real, maximum / profile.norm, profile.norm);
    DivideAndMultiply(maximum, profile.norm);
    MultiplyStrictOrder(0.0, units as real, profile.norm);
  }

  method DiscreteValues(quantity: real, profile: SkuProfile, maximum: real, unitsPerFullChunk: int)
    returns (values: seq<(real, real)>)
    requires quantity > 0.0 && IsWhole(quantity) && profile.norm > 0.0 && maximum > 0.0
    requires !profile.unit.Continuous()
    requires unitsPerFullChunk == (maximum / profile.norm).Floor && unitsPerFullChunk >= 1
    ensures GreedyValues(values, quantity, profile, maximum)
  {
    hide AmountFits;
    var remaining := quantity.Floor;
    values := [];
    while remaining > 0
      invariant 0 <= remaining <= quantity.Floor
      invariant SumOfQuantities(values) + remaining as real == quantity
      invariant forall i | 0 <= i < |values| ::
          AmountFits(values[i].0, values[i].1, profile, maximum)
      invariant forall i | 0 <= i < |values| && (remaining > 0 || i < |values| - 1) ::
          values[i].0 == unitsPerFullChunk as real
    {
      var units := if unitsPerFullChunk <= remaining then unitsPerFullChunk else remaining;
      UnitsFit(units, unitsPerFullChunk, profile, maximum);
      var value := (units as real, units as real * profile.norm);
      assert (values + [value])[..|values|] == values;
      values := values + [value];
      remaining := remaining - units;
    }
  }

  lemma {:induction false} NumberingKeepsTotal(chunks: seq<ScheduledChunk>, values: seq<(real, real)>)
    requires |chunks| == |values| && forall i | 0 <= i < |values| :: chunks[i].quantity == values[i].0
    ensures TotalQuantity(chunks) == SumOfQuantities(values)
  {
    if values != [] {
      NumberingKeepsTotal(chunks[..|chunks| - 1], values[..|values| - 1]);
    }
  }

  /** The numbering loop. */
  method NumberChunks(jobItemId: string, values: seq<(real, real)>) returns (chunks: seq<ScheduledChunk>)
    ensures |chunks| == |values| && Linked(chunks, jobItemId)
    ensures forall i | 0 <= i < |values| ::
        chunks[i].quantity == values[i].0 && chunks[i].workerHours == values[i].1
    ensures TotalQuantity(chunks) == SumOfQuantities(values)
  {
    hide TotalQuantity, SumOfQuantities;
    chunks := [];
    for i := 0 to |values|
      invariant |chunks| == i && Linked(chunks, jobItemId)
      invariant forall k | 0 <= k < i ::
          chunks[k].quantity == values[k].0 && chunks[k].workerHours == values[k].1
    {
      var previous := if chunks == [] then None else Some(chunks[|chunks| - 1].id);
      ghost var before := chunks;
      chunks := chunks + [ScheduledChunk(ChunkId(jobItemId, i + 1), i + 1, values[i].0, values[i].1, previous)];
      assert chunks[..i] == before;
      assert i > 0 ==> LinkedAt(before[i - 1], jobItemId, i - 1);
    }
    NumberingKeepsTotal(chunks, values);
  }

  function Units(n: int): real { n as real }

  /** A whole number of units. */
  ghost predicate Integral(x: real) {
    exists n :: x == Units(n)
  }

  /** Positive work within a task day, at the norm of the SKU, and in whole units when these are pieces or rooms. */
  ghost predicate HoldsItsShare(c: ScheduledChunk, profile: SkuProfile, maximum: real) {
    && 0.0 < c.workerHours <= maximum && c.workerHours == c.quantity * profile.norm
    && (profile.unit in {Piece, Room} ==> Integral(c.quantity))
  }

  /** A task day can hold no more: every hour is used, or one more unit would not fit. */
  ghost predicate IsFull(c: ScheduledChunk, profile: SkuProfile, maximum: real) {
    if profile.unit in {Piece, Room} then (c.quantity + 1.0) * profile.norm > maximum
    else c.workerHours == maximum
  }

  lemma {:induction false} IntegralMeansWhole(x: real)
    ensures Integral(x) <==> IsWhole(x)
  {
    if IsWhole(x) {
      assert x == Units(x.Floor);
    }
  }

  lemma {:induction false} OneUnitFits(norm: real, maximum: real)
    requires norm > 0.0 && maximum > 0.0
    ensures (maximum / norm).Floor >= 1 <==> norm <= maximum
  {
    var ratio := maximum / norm;
    DivideAndMultiply(maximum, norm);
    if ratio >= 1.0 {
      MultiplyOrder(1.0, ratio, norm);
    } else {
      MultiplyStrictOrder(ratio, 1.0, norm);
    }
  }

  /** What is refused, in terms of the input alone. */
  lemma {:induction false} RefusedExactlyWhen(jobItemId: string, quantity: real, profile: SkuProfile, maximum: real)
    ensures Refusal(jobItemId, quantity, profile, maximum).Some? <==>
      || (forall c | c in jobItemId :: c in {' ', '\t', '\n', '\r'})
      || quantity <= 0.0 || profile.norm <= 0.0 || maximum <= 0.0
      || (profile.unit in {Piece, Room} && (!Integral(quantity) || maximum < profile.norm))
  {
    hide IsWhole, Integral;
    IntegralMeansWhole(quantity);
    assert IsBlank(jobItemId) <==> forall c | c in jobItemId :: c in {' ', '\t', '\n', '\r'};
    if profile.norm > 0.0 && maximum > 0.0 {
      OneUnitFits(profile.norm, maximum);
    }
  }

  lemma {:induction false} FullMeansFull(c: ScheduledChunk, profile: SkuProfile, maximum: real)
    requires profile.norm > 0.0 && FitsTaskDay(c, profile, maximum) && c.quantity == Capacity(profile, maximum)
    ensures IsFull(c, profile, maximum)
  {
    var ratio := maximum / profile.norm;
    DivideAndMultiply(maximum, profile.norm);
    if !profile.unit.Continuous() {
      MultiplyStrictOrder(ratio, c.quantity + 1.0, profile.norm);
    }
  }

  lemma {:induction false} SharesAreHeld(
    chunks: seq<ScheduledChunk>, quantity: real, profile: SkuProfile, maximum: real
  )
    requires profile.norm > 0.0
    requires IsChunkingOf(chunks, quantity, profile, maximum) && AllButLastFull(chunks, profile, maximum)
    ensures forall i | 0 <= i < |chunks| ::
      && HoldsItsShare(chunks[i], profile, maximum)
      && (i < |chunks| - 1 ==> IsFull(chunks[i], profile, maximum))
  {
    hide TotalQuantity, Capacity, IsFull, Integral, IsWhole;
    forall i | 0 <= i < |chunks|
      ensures HoldsItsShare(chunks[i], profile, maximum)
      ensures i < |chunks| - 1 ==> IsFull(chunks[i], profile, maximum)
    {
      assert chunks[i] in chunks;
      IntegralMeansWhole(chunks[i].quantity);
      if i < |chunks| - 1 {
        FullMeansFull(chunks[i], profile, maximum);
      }
    }
  }

  method GenerateJobItemChunks(jobItemId: string, quantity: real, profile: SkuProfile, maximum: real)
    returns (result: Result<seq<ScheduledChunk>, ChunkingError>)
    ensures result.Err? <==> Refusal(jobItemId, quantity, profile, maximum).Some?
    ensures result.Err? ==> Refusal(jobItemId, quantity, profile, maximum) == Some(result.error)
    ensures result.Ok? ==>
      var chunks := result.value;
      && chunks != []
      && IsChunkingOf(chunks, quantity, profile, maximum)
      && TotalHours(chunks) == quantity * profile.norm
      && AllButLastFull(chunks, profile, maximum)
      && Linked(chunks, jobItemId)
    ensures result.Err? <==>
      || (forall c | c in jobItemId :: c in {' ', '\t', '\n', '\r'})
      || quantity <= 0.0 || profile.norm <= 0.0 || maximum <= 0.0
      || (profile.unit in {Piece, Room} && (!Integral(quantity) || maximum < profile.norm))
    ensures result.Ok? ==> forall i | 0 <= i < |result.value| ::
      && HoldsItsShare(result.value[i], profile, maximum)
      && (i < |result.value| - 1 ==> IsFull(result.value[i], profile, maximum))
  {
    RefusedExactlyWhen(jobItemId, quantity, profile, maximum);
    if IsBlank(jobItemId) {
      return Err(JobItemIdRequired);
    }
    if quantity <= 0.0 {
      return Err(NotPositive("quantity"));
    }
    var norm := profile.norm;
    if norm <= 0.0 {
      return Err(NotPositive("norm_worker_hours_per_unit"));
    }
    if maximum <= 0.0 {
      return Err(NotPositive("max_scheduled_hours_per_task_day"));
    }
    var values: seq<(real, real)>;
    if profile.unit.Continuous() {
      values := ContinuousValues(quantity, profile, maximum);
    } else {
      if !IsWhole(quantity) {
        return Err(NotWholeUnits);
      }
      var unitsPerFullChunk := (maximum / norm).Floor;
      if unitsPerFullChunk < 1 {
        return Err(UnitDoesNotFit);
      }
      values := DiscreteValues(quantity, profile, maximum, unitsPerFullChunk);
    }
    var chunks := NumberChunks(jobItemId, values);
    NumberingKeepsGreedy(chunks, values, quantity, profile, maximum);
    SharesAreHeld(chunks, quantity, profile, maximum);
    result := Ok(chunks);
  }

  predicate IsMatchingPredecessor(item: ChunkedJobItem, jobId: string, dependent: SkuProfile) {
    item.jobId == jobId && item.sku in dependent.predecessorIfPresent
  }

  function MatchingPredecessors(
    items: seq<ChunkedJobItem>, jobId: string, dependent: SkuProfile
  ): (r: seq<ChunkedJobItem>)
    ensures forall x :: x in r <==> x in items && IsMatchingPredecessor(x, jobId, dependent)
  {
    if items == [] then []
    else (if IsMatchingPredecessor(items[0], jobId, dependent) then [items[0]] else [])
         + MatchingPredecessors(items[1..], jobId, dependent)
  }

  function ConditionalPredecessorChunkIds(
    jobId: string, dependent: SkuProfile, items: seq<ChunkedJobItem>
  ): Result<seq<ChunkId>, ChunkingError> {
    var matching := Sort(MatchingPredecessors(items, jobId, dependent),
                         (a: ChunkedJobItem, b: ChunkedJobItem) => StringLeq(a.jobItemId, b.jobItemId));
    if exists item | item in matching :: item.chunks == [] then Err(PredecessorWithoutChunks)
    else Ok(seq(|matching|, i requires 0 <= i < |matching| && matching[i].chunks != [] =>
                  matching[i].chunks[|matching[i].chunks| - 1].id))
  }

  /** Following `predecessor` links upward from chunk `from` reaches chunk `to` of the same item. */
  ghost predicate WaitsFor(chunks: seq<ScheduledChunk>, from: nat, to: nat)
    requires from < |chunks|
    decreases from
  {
    || from == to
    || exists mid: nat ::
         mid < from && chunks[from].predecessor == Some(chunks[mid].id) && WaitsFor(chunks, mid, to)
  }

  ghost predicate WaitsForAllUpTo(chunks: seq<ScheduledChunk>, from: nat)
    requires from < |chunks|
  {
    forall k: nat | k <= from :: WaitsFor(chunks, from, k)
  }

  lemma {:induction false} ChainReachesEveryChunk(chunks: seq<ScheduledChunk>, jobItemId: string, from: nat, to: nat)
    requires Linked(chunks, jobItemId) && to <= from < |chunks|
    ensures WaitsFor(chunks, from, to)
  {
    if to < from {
      ChainReachesEveryChunk(chunks, jobItemId, from - 1, to);
      assert chunks[from].predecessor == Some(chunks[from - 1].id);
    }
  }

  /** An explicit predecessor that was never chunked: an item of the job, of a SKU that the dependent one lists. */
  predicate Unchunked(jobId: string, dependent: SkuProfile, items: seq<ChunkedJobItem>) {
    exists item | item in items && item.jobId == jobId && item.sku in dependent.predecessorIfPresent ::
      item.chunks == []
  }

  lemma {:induction false} RefusedWhenUnchunked(jobId: string, dependent: SkuProfile, items: seq<ChunkedJobItem>)
    ensures var result := ConditionalPredecessorChunkIds(jobId, dependent, items);
      if Unchunked(jobId, dependent, items) then result == Err(PredecessorWithoutChunks) else result.Ok?
  {
    var leq := (a: ChunkedJobItem, b: ChunkedJobItem) => StringLeq(a.jobItemId, b.jobItemId);
    SortPermutes(MatchingPredecessors(items, jobId, dependent), leq);
  }

  lemma {:induction false} LastChunksOfMatching(jobId: string, dependent: SkuProfile, items: seq<ChunkedJobItem>)
    requires !Unchunked(jobId, dependent, items)
    requires forall item | item in items && IsMatchingPredecessor(item, jobId, dependent) ::
      Linked(item.chunks, item.jobItemId)
    ensures ConditionalPredecessorChunkIds(jobId, dependent, items).Ok?
    ensures forall id :: id in ConditionalPredecessorChunkIds(jobId, dependent, items).value <==>
        exists item | item in items ::
          IsMatchingPredecessor(item, jobId, dependent) && id == ChunkId(item.jobItemId, |item.chunks|)
  {
    RefusedWhenUnchunked(jobId, dependent, items);
    var leq := (a: ChunkedJobItem, b: ChunkedJobItem) => StringLeq(a.jobItemId, b.jobItemId);
    var found := MatchingPredecessors(items, jobId, dependent);
    var matching := Sort(found, leq);
    SortPermutes(found, leq);
    hide StringLeq, Sort, Unchunked;
    var ids := ConditionalPredecessorChunkIds(jobId, dependent, items).value;
    forall i | 0 <= i < |matching|
      ensures matching[i] in items && ids[i] == ChunkId(matching[i].jobItemId, |matching[i].chunks|)
    {
      assert matching[i] in matching;
      assert LinkedAt(matching[i].chunks[|matching[i].chunks| - 1], matching[i].jobItemId, |matching[i].chunks| - 1);
    }
    forall item | item in items && IsMatchingPredecessor(item, jobId, dependent)
      ensures ChunkId(item.jobItemId, |item.chunks|) in ids
    {
      assert item in matching;
      var i: nat :| i < |matching| && matching[i] == item;
      assert ids[i] in ids;
    }
  }

  /** A dependent item waits exactly for the whole of each explicit predecessor of the same job: it is refused exactly
      when one of them has no chunks, and otherwise the returned ids are the last chunks, each of which waits for all
      chunks of its item. Items that are no predecessors play no part. */
  lemma {:induction false} DependentWaitsForWholePredecessors(
    jobId: string, dependent: SkuProfile, items: seq<ChunkedJobItem>
  )
    requires forall item | item in items && item.jobId == jobId && item.sku in dependent.predecessorIfPresent ::
      Linked(item.chunks, item.jobItemId)
    ensures var result := ConditionalPredecessorChunkIds(jobId, dependent, items);
      if Unchunked(jobId, dependent, items) then result == Err(PredecessorWithoutChunks)
      else
        && result.Ok?
        && (forall id :: id in result.value <==>
              exists item | item in items && item.jobId == jobId && item.sku in dependent.predecessorIfPresent ::
                id == ChunkId(item.jobItemId, |item.chunks|))
        && forall item | item in items && item.jobId == jobId && item.sku in dependent.predecessorIfPresent ::
             item.chunks != [] && WaitsForAllUpTo(item.chunks, |item.chunks| - 1)
  {
    hide ConditionalPredecessorChunkIds;
    RefusedWhenUnchunked(jobId, dependent, items);
    if !Unchunked(jobId, dependent, items) {
      LastChunksOfMatching(jobId, dependent, items);
      forall item | item in items && IsMatchingPredecessor(item, jobId, dependent)
        ensures item.chunks != [] && WaitsForAllUpTo(item.chunks, |item.chunks| - 1)
      {
        var last := |item.chunks| - 1;
        forall k: nat | k <= last ensures WaitsFor(item.chunks, last, k) {
          ChainReachesEveryChunk(item.chunks, item.jobItemId, last, k);
        }
      }
    }
  }

  lemma {:induction false} ItemsAreOrdered(leq: (ChunkedJobItem, ChunkedJobItem) -> bool)
    requires forall a, b :: leq(a, b) <==> StringLeq(a.jobItemId, b.jobItemId)
    ensures TotalPreorder(leq)
  {
    StringLeqIsTotal();
    hide StringLeq;
  }

  /** The chunks to wait for are listed in the order of their items. */
  lemma {:induction false} WaitsInOrder(jobId: string, dependent: SkuProfile, items: seq<ChunkedJobItem>)
    requires forall item | item in items && item.jobId == jobId && item.sku in dependent.predecessorIfPresent ::
      Linked(item.chunks, item.jobItemId)
    ensures var result := ConditionalPredecessorChunkIds(jobId, dependent, items);
      result.Ok? ==> forall i, j | 0 <= i < j < |result.value| ::
        || result.value[i].jobItemId == result.value[j].jobItemId
        || ComesBefore(result.value[i].jobItemId, result.value[j].jobItemId)
  {
    var leq := (a: ChunkedJobItem, b: ChunkedJobItem) => StringLeq(a.jobItemId, b.jobItemId);
    var found := MatchingPredecessors(items, jobId, dependent);
    var matching := Sort(found, leq);
    SortPermutes(found, leq);
    ItemsAreOrdered(leq);
    SortSorts(found, leq);
    hide StringLeq, Sort;
    var result := ConditionalPredecessorChunkIds(jobId, dependent, items);
    if result.Ok? {
      forall i | 0 <= i < |matching|
        ensures matching[i].chunks != [] && result.value[i].jobItemId == matching[i].jobItemId
      {
        assert matching[i] in matching;
        assert LinkedAt(matching[i].chunks[|matching[i].chunks| - 1], matching[i].jobItemId, |matching[i].chunks| - 1);
      }
      forall i, j | 0 <= i < j < |matching|
        ensures matching[i].jobItemId == matching[j].jobItemId
          || ComesBefore(matching[i].jobItemId, matching[j].jobItemId)
      {
        assert leq(matching[i], matching[j]);
        StringLeqMeans(matching[i].jobItemId, matching[j].jobItemId);
      }
    }
  }
}
