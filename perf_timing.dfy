/**
 * Operation timing of the performance crate: the integer square root it
 * uses for standard deviations, the per-category measurement windows of
 * `TimingData` (at most 32 kept, the oldest dropped), the statistics
 * computed from them, and the start/stop `CycleTimer`. Durations and
 * instants are microsecond counts; the clock is a parameter.
 */
module PerfTiming {
  import opened Ints
  import opened Wrappers

  // ---------------------------------------------------------------- Square root

  /**
   * `d * d` and `a * n`, written as repeated addition so that the
   * statistics below carry no multiplication the solver has to reason
   * about; `SquareIsProduct` and `TimesIsProduct` connect them to `*`.
   */
  function Square(d: nat): nat {
    if d == 0 then 0 else Square(d - 1) + 2 * d - 1
  }

  function Times(a: nat, n: nat): nat {
    if n == 0 then 0 else Times(a, n - 1) + a
  }

  lemma {:induction false} SquareIsProduct(d: nat)
    ensures Square(d) == d * d
  {
    if d > 0 {
      SquareIsProduct(d - 1);
      assert (d - 1) * (d - 1) == d * d - 2 * d + 1;
    }
  }

  lemma {:induction false} TimesIsProduct(a: nat, n: nat)
    ensures Times(a, n) == a * n
  {
    if n > 0 {
      TimesIsProduct(a, n - 1);
      assert a * (n - 1) == a * n - a;
    }
  }

  predicate IsFloorSqrt(r: nat, v: nat) {
    r * r <= v < (r + 1) * (r + 1)
  }

  lemma SquareMono(a: nat, b: nat)
    requires a <= b
    ensures a * a <= b * b
  {
    assert a * a <= a * b by { MulMono(a, a, b); }
    assert a * b <= b * b by { MulMono(b, a, b); }
  }

  lemma MulMono(k: nat, x: nat, y: nat)
    requires x <= y
    ensures k * x <= k * y && x * k <= y * k
  {
    assert k * y - k * x == k * (y - x);
  }

  /** There is one floor square root. */
  lemma FloorSqrtUnique(r1: nat, r2: nat, v: nat)
    requires IsFloorSqrt(r1, v) && IsFloorSqrt(r2, v)
    ensures r1 == r2
  {
    if r1 < r2 {
      SquareMono(r1 + 1, r2);
    } else if r2 < r1 {
      SquareMono(r2 + 1, r1);
    }
  }

  /** A reference definition: the root of `v / 4`, doubled, and one more when that still fits. */
  function FloorSqrt(v: nat): nat {
    if v == 0 then 0
    else
      var h := 2 * FloorSqrt(v / 4);
      if Square(h + 1) <= v then h + 1 else h
  }

  /** The reference definition is the floor square root. */
  lemma {:induction false} FloorSqrtIsRoot(v: nat)
    ensures IsFloorSqrt(FloorSqrt(v), v)
  {
    if v > 0 {
      var r0 := FloorSqrt(v / 4);
      FloorSqrtIsRoot(v / 4);
      var h := 2 * r0;
      FloorSqrtStep(v, r0, h);
      assert FloorSqrt(v) == if Square(h + 1) <= v then h + 1 else h;
      SquareIsProduct(h + 1);
    }
  }

  lemma FloorSqrtStep(v: nat, r0: nat, h: nat)
    requires IsFloorSqrt(r0, v / 4) && h == 2 * r0
    ensures h * h <= v < (h + 2) * (h + 2)
  {
    assert h * h == 4 * (r0 * r0);
    assert (h + 2) * (h + 2) == 4 * ((r0 + 1) * (r0 + 1));
    assert v / 4 + 1 <= (r0 + 1) * (r0 + 1);
  }

  /**
   * One Newton step `(x + v / x) / 2` from any positive `x` lands on or
   * above the floor square root.
   */
  lemma NewtonStepAbove(v: nat, x: nat)
    requires x >= 1
    ensures v < ((x + v / x) / 2 + 1) * ((x + v / x) / 2 + 1)
  {
    var q := v / x;
    var s := (x + q) / 2 + 1;
    assert v < x * (q + 1) by { DivBounds(v, x); assert x * (q + 1) == q * x + x; }
    assert 2 * s >= x + q + 1;
    SquareMono(x + q + 1, 2 * s);
    assert (2 * s) * (2 * s) == 4 * (s * s);
    var d := x - q - 1;
    assert (x + q + 1) * (x + q + 1) == d * d + 4 * (x * (q + 1));
    assert d * d >= 0;
  }

  /** When the step no longer goes down, `x` is at most the floor square root. */
  lemma NewtonExit(v: nat, x: nat)
    requires x >= 1 && (x + v / x) / 2 >= x
    ensures x * x <= v
  {
    var q := v / x;
    assert q >= x;
    DivBounds(v, x);
    MulMono(x, x, q);
    assert x * q == q * x;
  }

  lemma DivByAtLeastTwo(v: nat, x: nat)
    requires x >= 2
    ensures v / x <= v / 2
  {
    DivBounds(v, x);
    MulMono(v / x, 2, x);
    QuotientAtMost2(v, v / x);
  }

  lemma QuotientAtMost2(v: nat, q: nat)
    requires q * 2 <= v
    ensures q <= v / 2
  {
  }

  /**
   * `int_sqrt` with its first guess written as `value / 2 + value % 2`,
   * which is `(value + 1) / 2` without the overflow at `u64::MAX`: Newton's
   * iteration from `value` down to the floor square root. No intermediate
   * leaves the `u64` range.
   */
  method IntSqrt(value: u64) returns (x: nat)
    ensures x == FloorSqrt(value)
  {
    if value == 0 {
      return 0;
    }
    x := value;
    var y := value / 2 + value % 2;
    assert y == (x + value / x) / 2;
    assert value < (value + 1) * (value + 1);
    while y < x
      invariant 1 <= x <= value
      invariant y == (x + value / x) / 2
      invariant value < (x + 1) * (x + 1)
      invariant x == value || x <= value / 2 + value % 2
      decreases x
    {
      NewtonStepAbove(value, x);
      x := y;
      if x >= 2 {
        DivByAtLeastTwo(value, x);
      }
      assert x + value / x <= U64_MAX;
      y := (x + value / x) / 2;
    }
    NewtonExit(value, x);
    FloorSqrtIsRoot(value);
    FloorSqrtUnique(x, FloorSqrt(value), value);
  }

  /**
   * The first guess of `int_sqrt` as written, `(x + 1) / 2` in `u64`: at
   * `u64::MAX` the sum wraps to 0 (or panics in a debug build), the guess
   * is 0, and the next step divides by it.
   */
  function IntSqrtFirstGuessAsWritten(value: u64): (y: u64)
    ensures value < U64_MAX ==> y == (value + 1) / 2
  {
    Wrap64(value + 1) / 2
  }

  /**
   * The divisor of the first Newton step of `int_sqrt` as written: the loop
   * is entered when the first guess is below the value, and its body sets
   * `x` to that guess before computing `value / x`. None when the loop is
   * not entered. Below `u64::MAX` the divisor is never 0.
   */
  function FirstStepDivisorAsWritten(value: u64): (d: Option<u64>)
    requires value > 0
    ensures d.Some? <==> IntSqrtFirstGuessAsWritten(value) < value
    ensures value < U64_MAX && d.Some? ==> d.value > 0
  {
    var y := IntSqrtFirstGuessAsWritten(value);
    if y < value then Some(y) else None
  }

  /** At `u64::MAX` the loop is entered with the guess 0, so its first step divides by zero. */
  lemma IntSqrtAsWrittenDividesByZero()
    ensures IntSqrtFirstGuessAsWritten(U64_MAX) == 0
    ensures FirstStepDivisorAsWritten(U64_MAX) == Some(0)
  {
  }

  // ---------------------------------------------------------------- Measurements

  /** `MAX_TIMING_MEASUREMENTS`, the capacity of each category's window. */
  const MAX_TIMING_MEASUREMENTS: nat := 32

  datatype TimingCategory =
    | SensorReading | NetworkOperation | MqttPublish | ConsoleCommand | SystemBoot
    | MemoryAllocation | I2cOperation | TaskScheduling | InterruptHandling | SystemCycle

  const ALL_CATEGORIES: seq<TimingCategory> :=
    [SensorReading, NetworkOperation, MqttPublish, ConsoleCommand, SystemBoot,
     MemoryAllocation, I2cOperation, TaskScheduling, InterruptHandling, SystemCycle]

  lemma AllCategoriesListed(c: TimingCategory)
    ensures c in ALL_CATEGORIES
  {
  }

  datatype TimingMeasurement = TimingMeasurement(duration: nat, timestamp: nat, context: u32)

  /** A push onto a full `Vec<_, 32>` after `remove(0)`: the oldest entry gives way. */
  function PushNewest<T>(s: seq<T>, m: T): (r: seq<T>)
    requires |s| <= MAX_TIMING_MEASUREMENTS
    ensures |r| <= MAX_TIMING_MEASUREMENTS && |r| >= 1 && r[|r| - 1] == m
  {
    if |s| == MAX_TIMING_MEASUREMENTS then s[1..] + [m] else s + [m]
  }

  /** The newest (at most) 32 entries of a history. */
  function Window<T>(h: seq<T>): (r: seq<T>)
    ensures |r| <= MAX_TIMING_MEASUREMENTS
  {
    if |h| <= MAX_TIMING_MEASUREMENTS then h else h[|h| - MAX_TIMING_MEASUREMENTS..]
  }

  /** Pushing onto the window of a history gives the window of the history with the entry added. */
  lemma PushNewestWindow<T>(h: seq<T>, m: T)
    ensures PushNewest(Window(h), m) == Window(h + [m])
  {
    if |h| > MAX_TIMING_MEASUREMENTS {
      assert Window(h)[1..] + [m] == (h + [m])[|h| + 1 - MAX_TIMING_MEASUREMENTS..];
    } else if |h| == MAX_TIMING_MEASUREMENTS {
      assert h[1..] + [m] == (h + [m])[1..];
    }
  }

  /** The window a category holds after a sequence of recordings into an empty one. */
  function Replay<T>(h: seq<T>): (r: seq<T>)
    ensures |r| <= MAX_TIMING_MEASUREMENTS
  {
    if |h| == 0 then [] else PushNewest(Replay(h[..|h| - 1]), h[|h| - 1])
  }

  /** Each category keeps exactly the 32 most recent of all the measurements recorded into it. */
  lemma {:induction false} ReplayKeepsNewest<T>(h: seq<T>)
    ensures Replay(h) == Window(h)
  {
    if |h| > 0 {
      var init := h[..|h| - 1];
      assert init + [h[|h| - 1]] == h;
      ReplayKeepsNewest(init);
      PushNewestWindow(init, h[|h| - 1]);
    }
  }

  /** A category's window, empty when nothing was recorded into it. */
  function Stored(m: map<TimingCategory, seq<TimingMeasurement>>, c: TimingCategory): seq<TimingMeasurement> {
    if c in m then m[c] else []
  }

  predicate WindowsFit(m: map<TimingCategory, seq<TimingMeasurement>>) {
    forall c :: c in m ==> |m[c]| <= MAX_TIMING_MEASUREMENTS
  }

  // ---------------------------------------------------------------- Statistics

  function Durations(ms: seq<TimingMeasurement>): (r: seq<nat>)
    ensures |r| == |ms| && forall i :: 0 <= i < |ms| ==> r[i] == ms[i].duration
  {
    if |ms| == 0 then [] else Durations(ms[..|ms| - 1]) + [ms[|ms| - 1].duration]
  }

  function Sum(ds: seq<nat>): nat {
    if |ds| == 0 then 0 else Sum(ds[..|ds| - 1]) + ds[|ds| - 1]
  }

  function SeqMin(ds: seq<nat>): (r: nat)
    requires |ds| > 0
    ensures r in ds && forall i :: 0 <= i < |ds| ==> r <= ds[i]
  {
    if |ds| == 1 then ds[0]
    else
      var m := SeqMin(ds[..|ds| - 1]);
      assert forall i :: 0 <= i < |ds| - 1 ==> ds[..|ds| - 1][i] == ds[i];
      if ds[|ds| - 1] < m then ds[|ds| - 1] else m
  }

  function SeqMax(ds: seq<nat>): (r: nat)
    requires |ds| > 0
    ensures r in ds && forall i :: 0 <= i < |ds| ==> ds[i] <= r
  {
    if |ds| == 1 then ds[0]
    else
      var m := SeqMax(ds[..|ds| - 1]);
      assert forall i :: 0 <= i < |ds| - 1 ==> ds[..|ds| - 1][i] == ds[i];
      if ds[|ds| - 1] > m then ds[|ds| - 1] else m
  }

  function AbsDiff(a: nat, b: nat): nat {
    if a > b then a - b else b - a
  }

  /** The sum of squared distances from the average. */
  function SquaredDeviations(ds: seq<nat>, avg: nat): nat {
    if |ds| == 0 then 0
    else SquaredDeviations(ds[..|ds| - 1], avg) + Square(AbsDiff(ds[|ds| - 1], avg))
  }

  /** The integer fields of `CategoryStatistics` (the percentiles and the trend are floating point). */
  datatype CategoryStatistics = CategoryStatistics(count: nat, minDuration: nat, maxDuration: nat,
                                                   averageDuration: nat, stdDeviation: nat, lastMeasurement: nat)

  const EMPTY_STATISTICS := CategoryStatistics(0, 0, 0, 0, 0, 0)

  /** What `calculate_category_statistics` computes from a window. */
  function Stats(ms: seq<TimingMeasurement>): CategoryStatistics {
    if |ms| == 0 then EMPTY_STATISTICS
    else
      var ds := Durations(ms);
      var avg := Sum(ds) / |ms|;
      CategoryStatistics(|ms|, SeqMin(ds), SeqMax(ds), avg, FloorSqrt(MeanSquaredDeviation(ms)), ms[|ms| - 1].duration)
  }

  /** The variance as the crate computes it: the squared deviations from the (rounded-down) average, averaged. */
  function MeanSquaredDeviation(ms: seq<TimingMeasurement>): nat {
    if |ms| == 0 then 0 else SquaredDeviations(Durations(ms), Sum(Durations(ms)) / |ms|) / |ms|
  }

  lemma {:induction false} SumBetween(ds: seq<nat>, lo: nat, hi: nat)
    requires forall i :: 0 <= i < |ds| ==> lo <= ds[i] <= hi
    ensures |ds| * lo <= Sum(ds) <= |ds| * hi
  {
    if |ds| > 0 {
      var init := ds[..|ds| - 1];
      assert forall i :: 0 <= i < |init| ==> init[i] == ds[i];
      SumBetween(init, lo, hi);
      assert |ds| * lo == |init| * lo + lo && |ds| * hi == |init| * hi + hi;
    }
  }

  /** An average lies between the least and greatest of what it averages. */
  lemma AverageBetween(sum: nat, n: nat, lo: nat, hi: nat)
    requires n > 0 && n * lo <= sum <= n * hi
    ensures lo <= sum / n <= hi
  {
    var avg := sum / n;
    DivBounds(sum, n);
    if lo > avg {
      MulMono(n, avg + 1, lo);
    }
    if avg > hi {
      MulMono(n, hi + 1, avg);
    }
  }

  /** The statistics of a non-empty window: its size, and `min <= average <= max`. */
  lemma StatsOrdered(ms: seq<TimingMeasurement>)
    requires |ms| > 0
    ensures Stats(ms).count == |ms|
    ensures Stats(ms).minDuration <= Stats(ms).averageDuration <= Stats(ms).maxDuration
  {
    var ds := Durations(ms);
    SumBetween(ds, SeqMin(ds), SeqMax(ds));
    AverageBetween(Sum(ds), |ms|, SeqMin(ds), SeqMax(ds));
  }

  /** Every stored duration lies between the minimum and the maximum, and the newest is reported last. */
  lemma StatsCoverWindow(ms: seq<TimingMeasurement>, i: nat)
    requires i < |ms|
    ensures Stats(ms).minDuration <= ms[i].duration <= Stats(ms).maxDuration
    ensures Stats(ms).lastMeasurement == ms[|ms| - 1].duration
  {
    assert Durations(ms)[i] == ms[i].duration;
  }

  /** The standard deviation is the floor square root of the variance: the one `r` with `r * r <= variance < (r + 1) * (r + 1)`. */
  lemma StatsDeviation(ms: seq<TimingMeasurement>, r: nat)
    requires |ms| > 0
    ensures Stats(ms).stdDeviation == r <==> IsFloorSqrt(r, MeanSquaredDeviation(ms))
  {
    var x := MeanSquaredDeviation(ms);
    assert Stats(ms).stdDeviation == FloorSqrt(x);
    FloorSqrtIsRoot(x);
    if IsFloorSqrt(r, x) {
      FloorSqrtUnique(r, FloorSqrt(x), x);
    }
  }

  /** The first pass of `calculate_category_statistics`: the sum and, as the sorted copy gives them, the least and greatest durations. */
  method SumAndExtremes(ds: seq<nat>) returns (sum: nat, lo: nat, hi: nat)
    requires |ds| > 0
    ensures sum == Sum(ds) && lo == SeqMin(ds) && hi == SeqMax(ds)
  {
    sum, lo, hi := 0, ds[0], ds[0];
    var i := 0;
    while i < |ds|
      invariant 0 <= i <= |ds|
      invariant sum == Sum(ds[..i])
      invariant i > 0 ==> lo == SeqMin(ds[..i]) && hi == SeqMax(ds[..i])
      invariant i == 0 ==> lo == hi == ds[0]
    {
      assert ds[..i + 1][..i] == ds[..i];
      sum := sum + ds[i];
      if i > 0 {
        lo := if ds[i] < lo then ds[i] else lo;
        hi := if ds[i] > hi then ds[i] else hi;
      }
      i := i + 1;
    }
    assert ds[..|ds|] == ds;
  }

  /** The second pass: the squared distances from the average, summed. */
  method SumSquaredDeviations(ds: seq<nat>, avg: nat) returns (squares: nat)
    ensures squares == SquaredDeviations(ds, avg)
  {
    squares := 0;
    var i := 0;
    while i < |ds|
      invariant 0 <= i <= |ds|
      invariant squares == SquaredDeviations(ds[..i], avg)
    {
      assert ds[..i + 1][..i] == ds[..i];
      var diff := if ds[i] > avg then ds[i] - avg else avg - ds[i];
      SquareIsProduct(diff);
      squares := squares + diff * diff;
      i := i + 1;
    }
    assert ds[..|ds|] == ds;
  }

  /** Integer division of a total by a positive count. */
  function Average(total: nat, count: nat): (r: nat)
    requires count > 0
    ensures r * count <= total < r * count + count
  {
    DivBounds(total, count);
    total / count
  }

  /** `calculate_category_statistics`: the two passes over the durations, then the square root of the mean squared deviation. */
  method CalculateCategoryStatistics(ms: seq<TimingMeasurement>) returns (st: CategoryStatistics)
    requires Computable(ms)
    ensures st == Stats(ms)
  {
    if |ms| == 0 {
      return EMPTY_STATISTICS;
    }
    var ds := Durations(ms);
    var count := |ms|;
    var sum, lo, hi := SumAndExtremes(ds);
    var avg := Average(sum, count);
    var squares := SumSquaredDeviations(ds, avg);
    var variance := Average(squares, count);
    assert variance == MeanSquaredDeviation(ms);
    var root := IntSqrt(variance);
    st := CategoryStatistics(count, lo, hi, avg, root, ms[count - 1].duration);
  }

  /** The integer fields of `OverallStatistics` (the efficiency ratio is floating point). */
  datatype OverallStatistics = OverallStatistics(totalOperations: nat, totalTime: nat,
                                                 averageOperationTime: nat, collectionDuration: nat)

  datatype TimingStatistics = TimingStatistics(categoryStats: map<TimingCategory, CategoryStatistics>,
                                               overallStats: OverallStatistics)
  {
    /** `get_average_time`: present exactly for the categories that have statistics. */
    function AverageTime(c: TimingCategory): (r: Option<nat>)
      ensures r.Some? <==> c in categoryStats
      ensures r.Some? ==> r.value == categoryStats[c].averageDuration
    {
      if c in categoryStats then Some(categoryStats[c].averageDuration) else None
    }

    /** `get_max_time` */
    function MaxTime(c: TimingCategory): (r: Option<nat>)
      ensures r.Some? <==> c in categoryStats
      ensures r.Some? ==> r.value == categoryStats[c].maxDuration
    {
      if c in categoryStats then Some(categoryStats[c].maxDuration) else None
    }

    /** `get_count`: 0 for a category without statistics. */
    function Count(c: TimingCategory): (r: nat)
      ensures c !in categoryStats ==> r == 0
      ensures c in categoryStats ==> r == categoryStats[c].count
    {
      if c in categoryStats then categoryStats[c].count else 0
    }
  }

  /** The limit `has_performance_issues` applies to a category's average, in microseconds. */
  function Threshold(c: TimingCategory): nat {
    match c
    case SensorReading => 500
    case NetworkOperation => 5000 * 1000
    case MqttPublish => 500 * 1000
    case _ => 1000 * 1000
  }

  /** `has_performance_issues`: some category's average is above its limit. */
  method HasPerformanceIssues(st: TimingStatistics) returns (r: bool)
    ensures r <==> exists c :: c in st.categoryStats && st.categoryStats[c].averageDuration > Threshold(c)
  {
    var i := 0;
    while i < |ALL_CATEGORIES|
      invariant 0 <= i <= |ALL_CATEGORIES|
      invariant forall k :: 0 <= k < i && ALL_CATEGORIES[k] in st.categoryStats ==>
        st.categoryStats[ALL_CATEGORIES[k]].averageDuration <= Threshold(ALL_CATEGORIES[k])
    {
      var c := ALL_CATEGORIES[i];
      if c in st.categoryStats && st.categoryStats[c].averageDuration > Threshold(c) {
        return true;
      }
      i := i + 1;
    }
    forall c | c in st.categoryStats
      ensures st.categoryStats[c].averageDuration <= Threshold(c)
    {
      AllCategoriesListed(c);
    }
    return false;
  }

  /** The statistics of the categories among `cats` that hold measurements. */
  function CategoryStatsOf(m: map<TimingCategory, seq<TimingMeasurement>>, cats: seq<TimingCategory>)
    : map<TimingCategory, CategoryStatistics>
  {
    if |cats| == 0 then map[]
    else
      var rest := CategoryStatsOf(m, cats[..|cats| - 1]);
      var c := cats[|cats| - 1];
      if |Stored(m, c)| > 0 then rest[c := Stats(Stored(m, c))] else rest
  }

  /** Exactly the listed categories holding measurements have statistics, and they are those of their windows. */
  lemma {:induction false} CategoryStatsOfContents(m: map<TimingCategory, seq<TimingMeasurement>>, cats: seq<TimingCategory>)
    ensures forall c :: c in CategoryStatsOf(m, cats) <==> c in cats && |Stored(m, c)| > 0
    ensures forall c :: c in CategoryStatsOf(m, cats) ==> CategoryStatsOf(m, cats)[c] == Stats(Stored(m, c))
  {
    if |cats| > 0 {
      var init := cats[..|cats| - 1];
      CategoryStatsOfContents(m, init);
      assert cats == init + [cats[|cats| - 1]];
    }
  }

  /** The measurement count summed over the categories in `cats` (the categories being distinct). */
  function TotalOperations(m: map<TimingCategory, seq<TimingMeasurement>>, cats: seq<TimingCategory>): nat {
    if |cats| == 0 then 0 else TotalOperations(m, cats[..|cats| - 1]) + |Stored(m, cats[|cats| - 1])|
  }

  /** The time summed over the categories in `cats`: each one's average times its count. */
  function TotalTime(m: map<TimingCategory, seq<TimingMeasurement>>, cats: seq<TimingCategory>): nat {
    if |cats| == 0 then 0
    else
      var ms := Stored(m, cats[|cats| - 1]);
      TotalTime(m, cats[..|cats| - 1]) + (if |ms| > 0 then Times(Stats(ms).averageDuration, Stats(ms).count) else 0)
  }

  /** One more category: its statistics join those of the categories before it when it holds measurements. */
  lemma CategoryStatsStep(m: map<TimingCategory, seq<TimingMeasurement>>, cats: seq<TimingCategory>, k: nat)
    requires k < |cats|
    ensures CategoryStatsOf(m, cats[..k + 1])
         == (if |Stored(m, cats[k])| > 0 then CategoryStatsOf(m, cats[..k])[cats[k] := Stats(Stored(m, cats[k]))]
             else CategoryStatsOf(m, cats[..k]))
  {
    assert cats[..k + 1][..k] == cats[..k];
  }

  /** One more category: its window's size joins the count. */
  lemma TotalOperationsStep(m: map<TimingCategory, seq<TimingMeasurement>>, cats: seq<TimingCategory>, k: nat)
    requires k < |cats|
    ensures TotalOperations(m, cats[..k + 1]) == TotalOperations(m, cats[..k]) + |Stored(m, cats[k])|
  {
    assert cats[..k + 1][..k] == cats[..k];
  }

  /** One more category: its average times its count joins the time. */
  lemma TotalTimeStep(m: map<TimingCategory, seq<TimingMeasurement>>, cats: seq<TimingCategory>, k: nat)
    requires k < |cats|
    ensures TotalTime(m, cats[..k + 1])
         == TotalTime(m, cats[..k]) + (if |Stored(m, cats[k])| > 0 then Times(Stats(Stored(m, cats[k])).averageDuration, Stats(Stored(m, cats[k])).count) else 0)
  {
    assert cats[..k + 1][..k] == cats[..k];
  }

  /** At most 32 measurements per category: at most 320 counted in all. */
  lemma {:induction false} TotalOperationsBound(m: map<TimingCategory, seq<TimingMeasurement>>, cats: seq<TimingCategory>)
    requires WindowsFit(m)
    ensures TotalOperations(m, cats) <= MAX_TIMING_MEASUREMENTS * |cats|
  {
    if |cats| > 0 {
      TotalOperationsBound(m, cats[..|cats| - 1]);
    }
  }

  /** The time counted never exceeds the sum of the greatest durations, `count * max` per category. */
  lemma {:induction false} TotalTimeBound(m: map<TimingCategory, seq<TimingMeasurement>>, cats: seq<TimingCategory>)
    ensures TotalTime(m, cats) <= MaxTotal(m, cats)
  {
    if |cats| > 0 {
      TotalTimeBound(m, cats[..|cats| - 1]);
      var ms := Stored(m, cats[|cats| - 1]);
      if |ms| > 0 {
        StatsOrdered(ms);
        TimesIsProduct(Stats(ms).averageDuration, Stats(ms).count);
        TimesIsProduct(Stats(ms).maxDuration, Stats(ms).count);
        MulMono(Stats(ms).count, Stats(ms).averageDuration, Stats(ms).maxDuration);
      }
    }
  }

  function MaxTotal(m: map<TimingCategory, seq<TimingMeasurement>>, cats: seq<TimingCategory>): nat {
    if |cats| == 0 then 0
    else
      var ms := Stored(m, cats[|cats| - 1]);
      MaxTotal(m, cats[..|cats| - 1]) + Times(Stats(ms).maxDuration, Stats(ms).count)
  }

  /** The loop of `get_statistics`: the statistics of each category holding measurements, and the totals. */
  method Aggregate(m: map<TimingCategory, seq<TimingMeasurement>>)
    returns (stats: map<TimingCategory, CategoryStatistics>, totalOperations: nat, totalTime: nat)
    requires forall c :: c in m ==> Computable(m[c])
    ensures stats == CategoryStatsOf(m, ALL_CATEGORIES)
    ensures totalOperations == TotalOperations(m, ALL_CATEGORIES)
    ensures totalTime == TotalTime(m, ALL_CATEGORIES)
  {
    stats, totalOperations, totalTime := map[], 0, 0;
    var i := 0;
    while i < |ALL_CATEGORIES|
      invariant 0 <= i <= |ALL_CATEGORIES|
      invariant stats == CategoryStatsOf(m, ALL_CATEGORIES[..i])
      invariant totalOperations == TotalOperations(m, ALL_CATEGORIES[..i])
      invariant totalTime == TotalTime(m, ALL_CATEGORIES[..i])
    {
      var c := ALL_CATEGORIES[i];
      CategoryStatsStep(m, ALL_CATEGORIES, i);
      TotalOperationsStep(m, ALL_CATEGORIES, i);
      TotalTimeStep(m, ALL_CATEGORIES, i);
      if c in m && |m[c]| > 0 {
        var cs := CalculateCategoryStatistics(m[c]);
        stats := stats[c := cs];
        totalOperations := totalOperations + cs.count;
        TimesIsProduct(cs.averageDuration, cs.count);
        totalTime := totalTime + cs.averageDuration * cs.count;
      }
      i := i + 1;
    }
    assert ALL_CATEGORIES[..|ALL_CATEGORIES|] == ALL_CATEGORIES;
  }

  /** `total / n` in unsigned arithmetic, and 0 when there is nothing to divide by. */
  function MeanOf(total: nat, n: nat): nat {
    if n > 0 then total / n else 0
  }

  // ---------------------------------------------------------------- TimingData

  /** `TimingData`: a window of measurements per category, the number recorded and the start of collection. */
  class TimingData {
    var measurements: map<TimingCategory, seq<TimingMeasurement>>
    var totalMeasurements: u32
    var startTime: nat

    predicate Valid()
      reads this
    {
      WindowsFit(measurements)
    }

    /** `TimingData::new` */
    constructor (now: nat)
      ensures Valid()
      ensures measurements == map[] && totalMeasurements == 0 && startTime == now
    {
      measurements := map[];
      totalMeasurements := 0;
      startTime := now;
    }

    /**
     * `record_measurement_with_context`: the measurement joins its
     * category's window, the oldest leaving when 32 are held, and the
     * count goes up, saturating at `u32::MAX`.
     */
    method RecordMeasurementWithContext(category: TimingCategory, duration: nat, context: u32, now: nat)
      requires Valid()
      modifies this
      ensures Valid()
      ensures measurements == old(measurements)[category := PushNewest(Stored(old(measurements), category),
                                                                       TimingMeasurement(duration, now, context))]
      ensures totalMeasurements == SatAdd(old(totalMeasurements), 1, U32_MAX)
      ensures startTime == old(startTime)
    {
      var window := if category in measurements then measurements[category] else [];
      if |window| == MAX_TIMING_MEASUREMENTS {
        window := window[1..];
      }
      window := window + [TimingMeasurement(duration, now, context)];
      measurements := measurements[category := window];
      totalMeasurements := if totalMeasurements == U32_MAX then U32_MAX else totalMeasurements + 1;
    }

    /** `record_measurement`: the same with context 0. */
    method RecordMeasurement(category: TimingCategory, duration: nat, now: nat)
      requires Valid()
      modifies this
      ensures Valid()
      ensures measurements == old(measurements)[category := PushNewest(Stored(old(measurements), category),
                                                                       TimingMeasurement(duration, now, 0))]
      ensures totalMeasurements == SatAdd(old(totalMeasurements), 1, U32_MAX)
      ensures startTime == old(startTime)
    {
      RecordMeasurementWithContext(category, duration, 0, now);
    }

    /** `get_measurements` */
    function GetMeasurements(category: TimingCategory): (r: Option<seq<TimingMeasurement>>)
      reads this
      ensures r.Some? <==> category in measurements
      ensures r.Some? ==> r.value == measurements[category]
    {
      if category in measurements then Some(measurements[category]) else None
    }

    /** `clear`: no measurements, a zero count, collection restarted now. */
    method Clear(now: nat)
      modifies this
      ensures Valid()
      ensures measurements == map[] && totalMeasurements == 0 && startTime == now
    {
      measurements := map[];
      totalMeasurements := 0;
      startTime := now;
    }

    /**
     * `get_statistics`: the statistics of every category holding
     * measurements, the operations and time summed over them, and the
     * mean time per operation.
     */
    method GetStatistics(now: nat) returns (st: TimingStatistics)
      requires Valid()
      requires forall c :: c in measurements ==> Computable(measurements[c])
      ensures st.categoryStats == CategoryStatsOf(measurements, ALL_CATEGORIES)
      ensures st.overallStats.totalOperations == TotalOperations(measurements, ALL_CATEGORIES)
      ensures st.overallStats.totalTime == TotalTime(measurements, ALL_CATEGORIES)
      ensures st.overallStats.averageOperationTime
           == MeanOf(st.overallStats.totalTime, st.overallStats.totalOperations)
      ensures st.overallStats.collectionDuration == SatSub(now, startTime)
    {
      var stats, totalOperations, totalTime := Aggregate(measurements);
      var average := MeanOf(totalTime, totalOperations);
      st := TimingStatistics(stats, OverallStatistics(totalOperations, totalTime, average, SatSub(now, startTime)));
    }
  }

  /** The window's squared deviations fit the `u64` the square root is taken of. */
  predicate Computable(ms: seq<TimingMeasurement>) {
    MeanSquaredDeviation(ms) <= U64_MAX
  }

  /** Once a category is recorded into, the statistics count it: `get_count` is its window's size. */
  lemma CountOfRecorded(m: map<TimingCategory, seq<TimingMeasurement>>, c: TimingCategory)
    ensures TimingStatistics(CategoryStatsOf(m, ALL_CATEGORIES), OverallStatistics(0, 0, 0, 0)).Count(c) == |Stored(m, c)|
  {
    CategoryStatsOfContents(m, ALL_CATEGORIES);
    AllCategoriesListed(c);
  }

  // ---------------------------------------------------------------- CycleTimer

  /** `CycleTimer`: the start instant while running, the category and context it records under. */
  class CycleTimer {
    var startTime: Option<nat>
    var category: TimingCategory
    var context: u32

    /** `CycleTimer::new` */
    constructor (category: TimingCategory)
      ensures startTime == None && this.category == category && context == 0
    {
      startTime := None;
      this.category := category;
      context := 0;
    }

    /** `CycleTimer::with_context` */
    constructor WithContext(category: TimingCategory, context: u32)
      ensures startTime == None && this.category == category && this.context == context
    {
      startTime := None;
      this.category := category;
      this.context := context;
    }

    /** `is_running`: from a `Start` until the next `Stop`. */
    predicate IsRunning()
      reads this
    {
      startTime.Some?
    }

    /** `start` */
    method Start(now: nat)
      modifies this
      ensures startTime == Some(now) && IsRunning()
      ensures category == old(category) && context == old(context)
    {
      startTime := Some(now);
    }

    /**
     * `stop`: the time since the start, or `None` when the timer was not
     * running; either way the timer is stopped afterwards.
     */
    method Stop(now: nat) returns (d: Option<nat>)
      requires startTime.Some? ==> startTime.value <= now
      modifies this
      ensures d.None? <==> old(startTime).None?
      ensures d.Some? <==> old(IsRunning())
      ensures d.Some? ==> d.value + old(startTime).value == now
      ensures startTime == None && !IsRunning()
      ensures category == old(category) && context == old(context)
    {
      match startTime
      case None =>
        d := None;
      case Some(start) =>
        startTime := None;
        d := Some(now - start);
    }

    /** `stop_and_record`: a measured duration is also recorded under the timer's category and context. */
    method StopAndRecord(data: TimingData, now: nat) returns (d: Option<nat>)
      requires startTime.Some? ==> startTime.value <= now
      requires data.Valid()
      modifies this, data
      ensures d.None? <==> old(startTime).None?
      ensures d.Some? ==> d.value + old(startTime).value == now
      ensures startTime == None
      ensures d.None? ==> data.measurements == old(data.measurements) && data.totalMeasurements == old(data.totalMeasurements)
      ensures d.Some? ==> data.measurements == old(data.measurements)[category := PushNewest(
                            Stored(old(data.measurements), category), TimingMeasurement(d.value, now, context))]
      ensures data.Valid() && data.startTime == old(data.startTime)
    {
      d := Stop(now);
      if d.Some? {
        data.RecordMeasurementWithContext(category, d.value, context, now);
      }
    }
  }

  /** Start then stop measures the time between them and leaves the timer stopped. */
  method StartStop(t: CycleTimer, started: nat, stopped: nat) returns (d: Option<nat>)
    requires started <= stopped
    modifies t
    ensures d == Some(stopped - started) && !t.IsRunning()
  {
    t.Start(started);
    d := t.Stop(stopped);
  }
}
