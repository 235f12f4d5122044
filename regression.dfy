/**
 * The performance regression tester: timing, memory and system metrics
 * compared against fixed thresholds, a severity per metric, a simplified
 * statistical test over the failed metrics, the overall verdict, and a
 * history of at most 16 test results from which a trend is read.
 *
 * Floating-point quantities (change percentages, rates, the efficiency
 * ratio) are `real`s: the comparisons are those of the source, without
 * `f32` rounding. Durations are microsecond counts.
 */
module Regression {
  import opened Wrappers
  import opened Ints
  import PerfTiming

  // ---------------------------------------------------------------- enums

  /** `RegressionResult`, the verdict of one test. */
  datatype RegressionResult = Pass | PassWithWarnings | Fail | CriticalFail | Inconclusive

  /** `RegressionSeverity`; `NoRegression` is the source's `None`. Ordered as declared. */
  datatype RegressionSeverity = NoRegression | Minor | Moderate | Major | Critical

  function Rank(s: RegressionSeverity): nat {
    match s
    case NoRegression => 0
    case Minor => 1
    case Moderate => 2
    case Major => 3
    case Critical => 4
  }

  datatype PerformanceMetric =
    | SensorReadingTime | MqttPublishTime | NetworkConnectionTime | BootTime | HeapUsage
    | StackUsage | FlashUsage | SystemEfficiency | ConsoleResponseTime | TaskSchedulingLatency

  datatype RegressionRecommendation =
    | ReviewCodeChanges | ProfileMemoryAllocation | OptimizeCriticalPath | ReviewCompilerSettings
    | CheckResourceLeaks | AnalyzeTaskScheduling | ReviewHardwareConfig | ConsiderPerformanceTuning

  datatype TrendDirection = Improving | Stable | Unstable | Worsening

  // ---------------------------------------------------------------- configuration

  /** `RegressionConfig`; only the threshold percentage, the statistical switch and the p-value bound are read. */
  datatype RegressionConfig = RegressionConfig(regressionThresholdPercent: real, consecutiveFailureThreshold: u32,
                                               statisticalTesting: bool, confidenceLevel: real, maxPValue: real)

  const DEFAULT_CONFIG := RegressionConfig(15.0, 3, true, 0.95, 0.05)

  /** One entry of the timing thresholds: the baseline and the largest acceptable time, in microseconds. */
  datatype TimingThreshold = TimingThreshold(category: PerfTiming.TimingCategory, baselineTime: nat, maxTime: nat,
                                             enabled: bool)

  /** The eight timing thresholds of `create_default_thresholds`; the last four are disabled. */
  const DEFAULT_TIMING_THRESHOLDS: seq<TimingThreshold> := [
    TimingThreshold(PerfTiming.SensorReading, 450, 500, true),
    TimingThreshold(PerfTiming.MqttPublish, 300_000, 500_000, true),
    TimingThreshold(PerfTiming.NetworkOperation, 3_500_000, 5_000_000, true),
    TimingThreshold(PerfTiming.SystemBoot, 2_300_000, 2_500_000, true),
    TimingThreshold(PerfTiming.ConsoleCommand, 50_000, 100_000, false),
    TimingThreshold(PerfTiming.I2cOperation, 100, 200, false),
    TimingThreshold(PerfTiming.TaskScheduling, 10, 50, false),
    TimingThreshold(PerfTiming.SystemCycle, 30_000_000, 35_000_000, false)
  ]

  /** The timing thresholds are a fixed array of eight. */
  const TIMING_THRESHOLD_COUNT := 8

  const MAX_HEAP_INCREASE := 4 * 1024
  const MAX_STACK_INCREASE := 2 * 1024
  const MIN_EFFICIENCY := 0.80

  /** The memory targets of the phase-0 reference baseline, the one the memory test compares against. */
  const BASELINE_HEAP_BYTES := 48 * 1024
  const BASELINE_STACK_BYTES := 4 * 1024

  const METRIC_RESULTS_CAPACITY := 16
  const REGRESSIONS_CAPACITY := 8
  const HISTORY_CAPACITY := 16

  /** Every threshold has a positive baseline, so the change percentage is defined. */
  predicate ThresholdsWellFormed(ths: seq<TimingThreshold>) {
    forall i :: 0 <= i < |ths| ==> ths[i].baselineTime > 0
  }

  // ---------------------------------------------------------------- results

  datatype MetricRegressionResult = MetricRegressionResult(metric: PerformanceMetric, currentValue: real,
                                                           baselineValue: real, changePercent: real, passed: bool,
                                                           regressionSeverity: RegressionSeverity)

  /** `DetectedRegression` without its formatted description. */
  datatype DetectedRegression = DetectedRegression(metric: PerformanceMetric, severity: RegressionSeverity,
                                                   degradationPercent: real, expectedValue: real, actualValue: real,
                                                   recommendations: seq<RegressionRecommendation>)

  datatype StatisticalAnalysis = StatisticalAnalysis(sampleSize: nat, significance: real, pValue: real,
                                                     confidenceInterval: (real, real), statisticalTestPassed: bool)

  datatype RegressionTestResult = RegressionTestResult(timestamp: nat, result: RegressionResult,
                                                       metricResults: seq<MetricRegressionResult>,
                                                       statisticalResults: StatisticalAnalysis,
                                                       regressions: seq<DetectedRegression>, executionTime: nat)

  datatype RegressionTrend = RegressionTrend(trend: TrendDirection, recentFailures: nat)

  /** The two fields of a memory snapshot the memory test reads, as 32-bit `usize`s. */
  datatype MemorySnapshot = MemorySnapshot(heapUsed: u32, stackUsed: u32)

  // ---------------------------------------------------------------- severity

  function AbsReal(x: real): real { if x < 0.0 then -x else x }

  /**
   * `calculate_regression_severity`: the size of the change, in either
   * direction, against a third, a half, one and two times the threshold.
   */
  function Severity(config: RegressionConfig, changePercent: real): RegressionSeverity {
    var a := AbsReal(changePercent);
    var t := config.regressionThresholdPercent;
    if a < t / 3.0 then NoRegression
    else if a < t / 2.0 then Minor
    else if a < t then Moderate
    else if a < t * 2.0 then Major
    else Critical
  }

  /** For a non-negative threshold, a larger change never lowers the severity. */
  lemma SeverityMonotone(config: RegressionConfig, c1: real, c2: real)
    requires config.regressionThresholdPercent >= 0.0
    requires AbsReal(c1) <= AbsReal(c2)
    ensures Rank(Severity(config, c1)) <= Rank(Severity(config, c2))
  {
  }

  /** The bands of the default 15 % threshold: below 5, 7.5, 15 and 30 %. */
  lemma DefaultSeverityBands(c: real)
    ensures Severity(DEFAULT_CONFIG, c) == NoRegression <==> AbsReal(c) < 5.0
    ensures Severity(DEFAULT_CONFIG, c) == Minor <==> 5.0 <= AbsReal(c) < 7.5
    ensures Severity(DEFAULT_CONFIG, c) == Moderate <==> 7.5 <= AbsReal(c) < 15.0
    ensures Severity(DEFAULT_CONFIG, c) == Major <==> 15.0 <= AbsReal(c) < 30.0
    ensures Severity(DEFAULT_CONFIG, c) == Critical <==> 30.0 <= AbsReal(c)
  {
  }

  /**
   * The severity a degradation deserves: a change toward better
   * performance (a negative percentage) is no regression.
   */
  function DegradationSeverity(config: RegressionConfig, changePercent: real): (s: RegressionSeverity)
    ensures changePercent <= 0.0 ==> s == NoRegression
    ensures changePercent > 0.0 ==> s == Severity(config, changePercent)
  {
    if changePercent <= 0.0 then NoRegression else Severity(config, changePercent)
  }

  // ---------------------------------------------------------------- recommendations

  /** `create_timing_regression`'s recommendations: two, and a third from `Major` up. */
  function TimingRecommendations(s: RegressionSeverity): (r: seq<RegressionRecommendation>)
    ensures |r| == (if Rank(s) >= Rank(Major) then 3 else 2) && |r| <= 4
    ensures r[..2] == [ReviewCodeChanges, OptimizeCriticalPath]
    ensures ReviewCompilerSettings in r <==> Rank(s) >= Rank(Major)
  {
    [ReviewCodeChanges, OptimizeCriticalPath] + (if Rank(s) >= Rank(Major) then [ReviewCompilerSettings] else [])
  }

  /** `create_memory_regression`'s recommendations, whatever the severity. */
  const MEMORY_RECOMMENDATIONS := [ProfileMemoryAllocation, CheckResourceLeaks]

  // ---------------------------------------------------------------- timing metrics

  /** The metric a timing category is reported as; the other categories are skipped. */
  function MetricOf(c: PerfTiming.TimingCategory): Option<PerformanceMetric> {
    match c
    case SensorReading => Some(SensorReadingTime)
    case MqttPublish => Some(MqttPublishTime)
    case NetworkOperation => Some(NetworkConnectionTime)
    case SystemBoot => Some(BootTime)
    case ConsoleCommand => Some(ConsoleResponseTime)
    case TaskScheduling => Some(TaskSchedulingLatency)
    case _ => None
  }

  /** `((current - baseline) / baseline) * 100`. */
  function ChangePercent(current: real, baseline: real): real
    requires baseline != 0.0
  {
    ((current - baseline) / baseline) * 100.0
  }

  /**
   * The result one threshold contributes: none when it is disabled, when
   * its category has no average or no metric; otherwise the average
   * against the baseline, passed when within the maximum.
   */
  function TimingEntry(stats: PerfTiming.TimingStatistics, th: TimingThreshold, config: RegressionConfig)
    : (r: Option<MetricRegressionResult>)
    requires th.baselineTime > 0
    ensures r.Some? <==> th.enabled && th.category in stats.categoryStats && MetricOf(th.category).Some?
    ensures r.Some? ==> (r.value.metric == MetricOf(th.category).value
                         && (r.value.passed <==> stats.categoryStats[th.category].averageDuration <= th.maxTime))
  {
    if !th.enabled then None
    else match stats.AverageTime(th.category)
      case None => None
      case Some(current) =>
        match MetricOf(th.category)
        case None => None
        case Some(metric) =>
          var change := ChangePercent(current as real, th.baselineTime as real);
          Some(MetricRegressionResult(metric, current as real, th.baselineTime as real, change,
                                      current <= th.maxTime, Severity(config, change)))
  }

  function OptionSeq<T>(o: Option<T>): seq<T> {
    if o.Some? then [o.value] else []
  }

  /** The timing results of the thresholds in order. */
  function TimingResults(stats: PerfTiming.TimingStatistics, ths: seq<TimingThreshold>, config: RegressionConfig)
    : (r: seq<MetricRegressionResult>)
    requires ThresholdsWellFormed(ths)
    ensures |r| <= EnabledCount(ths)
  {
    if |ths| == 0 then []
    else TimingResults(stats, ths[..|ths| - 1], config) + OptionSeq(TimingEntry(stats, ths[|ths| - 1], config))
  }

  function EnabledCount(ths: seq<TimingThreshold>): nat {
    if |ths| == 0 then 0 else EnabledCount(ths[..|ths| - 1]) + (if ths[|ths| - 1].enabled then 1 else 0)
  }

  /** The regression `create_timing_regression` records for a timing result. */
  function TimingRegressionOf(m: MetricRegressionResult): DetectedRegression {
    DetectedRegression(m.metric, m.regressionSeverity, m.changePercent, m.baselineValue, m.currentValue,
                       TimingRecommendations(m.regressionSeverity))
  }

  /** The regressions of the timing results whose severity is above `None`, in order. */
  function TimingRegressions(ms: seq<MetricRegressionResult>): (r: seq<DetectedRegression>)
    ensures |r| <= |ms|
    ensures forall k :: 0 <= k < |r| ==> Rank(r[k].severity) > 0
  {
    if |ms| == 0 then []
    else
      var last := ms[|ms| - 1];
      TimingRegressions(ms[..|ms| - 1]) + (if Rank(last.regressionSeverity) > 0 then [TimingRegressionOf(last)] else [])
  }

  lemma TimingResultsStep(stats: PerfTiming.TimingStatistics, ths: seq<TimingThreshold>, i: nat, config: RegressionConfig)
    requires i < |ths| && ThresholdsWellFormed(ths)
    ensures ThresholdsWellFormed(ths[..i]) && ThresholdsWellFormed(ths[..i + 1])
    ensures TimingResults(stats, ths[..i + 1], config) ==
      TimingResults(stats, ths[..i], config) + OptionSeq(TimingEntry(stats, ths[i], config))
  {
    assert ths[..i + 1][..i] == ths[..i];
  }

  lemma TimingRegressionsSnoc(ms: seq<MetricRegressionResult>, m: MetricRegressionResult)
    ensures TimingRegressions(ms + [m]) ==
      TimingRegressions(ms) + (if Rank(m.regressionSeverity) > 0 then [TimingRegressionOf(m)] else [])
  {
    assert (ms + [m])[..|ms|] == ms;
  }

  /** A heapless `push` whose error is discarded: nothing happens when the vector is full. */
  function PushBounded<T>(s: seq<T>, x: T, capacity: nat): seq<T> {
    if |s| < capacity then s + [x] else s
  }

  /** The body of the threshold loop of `test_timing_metrics`: the result for one enabled threshold with a measured, known category. */
  method EvaluateThreshold(stats: PerfTiming.TimingStatistics, th: TimingThreshold, config: RegressionConfig)
    returns (entry: Option<MetricRegressionResult>)
    requires th.baselineTime > 0
    ensures entry == TimingEntry(stats, th, config)
  {
    if !th.enabled {
      return None;
    }
    var current := stats.AverageTime(th.category);
    if current.None? {
      return None;
    }
    var metric := MetricOf(th.category);
    if metric.None? {
      return None;
    }
    var change := ChangePercent(current.value as real, th.baselineTime as real);
    var severity := Severity(config, change);
    return Some(MetricRegressionResult(metric.value, current.value as real, th.baselineTime as real,
                                       change, current.value <= th.maxTime, severity));
  }

  /**
   * `test_timing_metrics`, on fresh vectors: a pass over the thresholds
   * pushing each result and each regression found. The pushes never hit
   * the capacities, so the vectors hold every result.
   */
  method TestTimingMetrics(stats: PerfTiming.TimingStatistics, ths: seq<TimingThreshold>, config: RegressionConfig)
    returns (metricResults: seq<MetricRegressionResult>, regressions: seq<DetectedRegression>)
    requires |ths| == TIMING_THRESHOLD_COUNT && ThresholdsWellFormed(ths)
    ensures metricResults == TimingResults(stats, ths, config)
    ensures regressions == TimingRegressions(metricResults)
  {
    metricResults, regressions := [], [];
    var i := 0;
    while i < |ths|
      invariant 0 <= i <= |ths|
      invariant ThresholdsWellFormed(ths[..i])
      invariant metricResults == TimingResults(stats, ths[..i], config)
      invariant regressions == TimingRegressions(metricResults)
      invariant |metricResults| <= i
    {
      TimingResultsStep(stats, ths, i, config);
      var entry := EvaluateThreshold(stats, ths[i], config);
      if entry.Some? {
        var result := entry.value;
        TimingRegressionsSnoc(metricResults, result);
        metricResults := PushBounded(metricResults, result, METRIC_RESULTS_CAPACITY);
        if Rank(result.regressionSeverity) > Rank(NoRegression) {
          regressions := PushBounded(regressions, TimingRegressionOf(result), REGRESSIONS_CAPACITY);
        }
      }
      i := i + 1;
    }
    assert ths[..|ths|] == ths;
  }

  // ---------------------------------------------------------------- memory and system metrics

  /** `x as i32` of a 32-bit value. */
  function AsI32(x: int): int {
    var w := x % 0x1_0000_0000;
    if w >= 0x8000_0000 then w - 0x1_0000_0000 else w
  }

  /** `used as i32 - target as i32`, wrapping as a release build does. */
  function Change32(used: u32, target: nat): int {
    AsI32(AsI32(used) - AsI32(target))
  }

  /** The memory results: heap and stack, each only when its growth exceeds the allowed increase; never passed. */
  function MemoryResults(snap: MemorySnapshot, config: RegressionConfig): seq<MetricRegressionResult> {
    var heap := Change32(snap.heapUsed, BASELINE_HEAP_BYTES);
    var stack := Change32(snap.stackUsed, BASELINE_STACK_BYTES);
    var heapPercent := (heap as real / BASELINE_HEAP_BYTES as real) * 100.0;
    var stackPercent := (stack as real / BASELINE_STACK_BYTES as real) * 100.0;
    (if heap > MAX_HEAP_INCREASE
     then [MetricRegressionResult(HeapUsage, snap.heapUsed as real, BASELINE_HEAP_BYTES as real, heapPercent,
                                  false, Severity(config, heapPercent))]
     else [])
    + (if stack > MAX_STACK_INCREASE
       then [MetricRegressionResult(StackUsage, snap.stackUsed as real, BASELINE_STACK_BYTES as real, stackPercent,
                                    false, Severity(config, stackPercent))]
       else [])
  }

  /** The memory regressions: only the heap's is ever recorded. */
  function MemoryRegressions(snap: MemorySnapshot, config: RegressionConfig): (r: seq<DetectedRegression>)
    ensures |r| <= 1
    ensures forall k :: 0 <= k < |r| ==> r[k].metric == HeapUsage && Rank(r[k].severity) > 0
  {
    var heap := Change32(snap.heapUsed, BASELINE_HEAP_BYTES);
    var heapPercent := (heap as real / BASELINE_HEAP_BYTES as real) * 100.0;
    var severity := Severity(config, heapPercent);
    if heap > MAX_HEAP_INCREASE && Rank(severity) > Rank(NoRegression)
    then [DetectedRegression(HeapUsage, severity, heapPercent, BASELINE_HEAP_BYTES as real, snap.heapUsed as real,
                             MEMORY_RECOMMENDATIONS)]
    else []
  }

  /** The system result: the efficiency ratio when it is below 0.80, never passed, its change reported negative. */
  function SystemResults(efficiency: real, config: RegressionConfig): seq<MetricRegressionResult> {
    if efficiency < MIN_EFFICIENCY then
      var change := ((MIN_EFFICIENCY - efficiency) / MIN_EFFICIENCY) * 100.0;
      [MetricRegressionResult(SystemEfficiency, efficiency, MIN_EFFICIENCY, -change, false, Severity(config, change))]
    else []
  }

  /** Under the default threshold a heap growth beyond 4 KiB records a regression of at least `Minor` severity. */
  lemma DefaultHeapGrowthIsRegression(snap: MemorySnapshot)
    requires Change32(snap.heapUsed, BASELINE_HEAP_BYTES) > MAX_HEAP_INCREASE
    ensures |MemoryRegressions(snap, DEFAULT_CONFIG)| == 1
    ensures Rank(MemoryRegressions(snap, DEFAULT_CONFIG)[0].severity) >= Rank(Minor)
  {
    var heap := Change32(snap.heapUsed, BASELINE_HEAP_BYTES);
    var heapPercent := (heap as real / BASELINE_HEAP_BYTES as real) * 100.0;
    assert heapPercent > 8.0;
    DefaultSeverityBands(heapPercent);
  }

  // ---------------------------------------------------------------- statistics and verdict

  /** The number of results that did not pass. */
  function FailedCount(ms: seq<MetricRegressionResult>): (n: nat)
    ensures n <= |ms|
    ensures n == 0 <==> forall k :: 0 <= k < |ms| ==> ms[k].passed
  {
    if |ms| == 0 then 0 else FailedCount(ms[..|ms| - 1]) + (if ms[|ms| - 1].passed then 0 else 1)
  }

  /**
   * `perform_statistical_analysis`: with testing enabled and some results,
   * the failure rate is the p-value and the test passes when it is at most
   * the bound; otherwise an empty analysis that did not pass.
   */
  function StatisticalAnalysisOf(config: RegressionConfig, ms: seq<MetricRegressionResult>): (a: StatisticalAnalysis)
    ensures a.statisticalTestPassed ==> config.statisticalTesting && |ms| > 0
    ensures a.sampleSize == (if config.statisticalTesting && |ms| > 0 then |ms| else 0)
  {
    if !config.statisticalTesting || |ms| == 0 then StatisticalAnalysis(0, 0.0, 1.0, (0.0, 0.0), false)
    else
      var rate := FailedCount(ms) as real / |ms| as real;
      StatisticalAnalysis(|ms|, if rate > 0.5 then 0.95 else 0.5, rate, (rate * 0.8, rate * 1.2), rate <= config.maxPValue)
  }

  /**
   * Under the default 5 % bound and with at most 16 results, the test
   * passes exactly when every result passed: one failure in 16 is already
   * a rate of 6.25 %.
   */
  lemma DefaultStatisticalPassIff(ms: seq<MetricRegressionResult>)
    requires 1 <= |ms| <= METRIC_RESULTS_CAPACITY
    ensures StatisticalAnalysisOf(DEFAULT_CONFIG, ms).statisticalTestPassed <==> FailedCount(ms) == 0
  {
    if FailedCount(ms) > 0 {
      RateAboveBound(FailedCount(ms), |ms|);
    }
  }

  /** At least one failure in at most 16 is a rate above 5 %. */
  lemma RateAboveBound(f: nat, n: nat)
    requires 1 <= f <= n <= METRIC_RESULTS_CAPACITY
    ensures f as real / n as real > 0.05
  {
    var fr, nr := f as real, n as real;
    var rate := fr / nr;
    assert rate * nr == fr;
    assert 0.05 * nr < fr;
    RealCancel(rate, 0.05, nr);
  }

  /** A positive factor can be cancelled from a strict order. */
  lemma RealCancel(x: real, y: real, k: real)
    requires k > 0.0 && x * k > y * k
    ensures x > y
  {
    if x <= y {
      RealMulRight(x, y, k);
    }
  }

  lemma RealMulRight(x: real, y: real, k: real)
    requires x <= y && k >= 0.0
    ensures x * k <= y * k
  {
    assert y * k - x * k == (y - x) * k;
  }

  predicate HasSeverity(regs: seq<DetectedRegression>, s: RegressionSeverity) {
    exists k :: 0 <= k < |regs| && regs[k].severity == s
  }

  /**
   * `determine_overall_result`: inconclusive without results; then a
   * critical regression, a major one or a failed statistical test, a
   * moderate or minor one, in that order of precedence.
   */
  function DetermineOverallResult(config: RegressionConfig, ms: seq<MetricRegressionResult>,
                                  regs: seq<DetectedRegression>, stat: StatisticalAnalysis): (r: RegressionResult)
    ensures r == Inconclusive <==> |ms| == 0
    ensures r == CriticalFail <==> |ms| > 0 && HasSeverity(regs, Critical)
    ensures r == Fail <==> (|ms| > 0 && !HasSeverity(regs, Critical)
                            && (HasSeverity(regs, Major) || (config.statisticalTesting && !stat.statisticalTestPassed)))
    ensures r == Pass <==> (|ms| > 0 && (config.statisticalTesting ==> stat.statisticalTestPassed)
                            && forall k :: 0 <= k < |regs| ==> regs[k].severity == NoRegression)
  {
    if |ms| == 0 then Inconclusive
    else if HasSeverity(regs, Critical) then CriticalFail
    else if HasSeverity(regs, Major) then Fail
    else if config.statisticalTesting && !stat.statisticalTestPassed then Fail
    else if HasSeverity(regs, Moderate) then PassWithWarnings
    else if HasSeverity(regs, Minor) then PassWithWarnings
    else Pass
  }

  function VerdictRank(r: RegressionResult): nat {
    match r
    case Pass => 0
    case PassWithWarnings => 1
    case Fail => 2
    case CriticalFail => 3
    case Inconclusive => 0
  }

  /** Recording one more regression never improves the verdict of a test with results. */
  lemma MoreRegressionsNeverBetter(config: RegressionConfig, ms: seq<MetricRegressionResult>,
                                   regs: seq<DetectedRegression>, extra: DetectedRegression, stat: StatisticalAnalysis)
    requires |ms| > 0
    ensures VerdictRank(DetermineOverallResult(config, ms, regs + [extra], stat))
         >= VerdictRank(DetermineOverallResult(config, ms, regs, stat))
  {
    forall s | HasSeverity(regs, s) ensures HasSeverity(regs + [extra], s) {
      var k :| 0 <= k < |regs| && regs[k].severity == s;
      assert (regs + [extra])[k] == regs[k];
    }
  }

  /**
   * Under the default configuration, a failed result among at most 16
   * fails the test unless a critical regression makes it a critical
   * failure.
   */
  lemma DefaultFailedMetricFails(ms: seq<MetricRegressionResult>, regs: seq<DetectedRegression>, k: nat)
    requires 1 <= |ms| <= METRIC_RESULTS_CAPACITY && k < |ms| && !ms[k].passed
    ensures VerdictRank(DetermineOverallResult(DEFAULT_CONFIG, ms, regs, StatisticalAnalysisOf(DEFAULT_CONFIG, ms))) >= 2
  {
    DefaultStatisticalPassIff(ms);
  }

  // ---------------------------------------------------------------- a whole test

  /** The results of the timing, memory and system tests, in that order. */
  function MetricResults(config: RegressionConfig, stats: PerfTiming.TimingStatistics, snap: MemorySnapshot,
                         efficiency: real): seq<MetricRegressionResult> {
    TimingResults(stats, DEFAULT_TIMING_THRESHOLDS, config) + MemoryResults(snap, config)
      + SystemResults(efficiency, config)
  }

  /** The regressions of the timing and memory tests, in that order. */
  function Regressions(config: RegressionConfig, stats: PerfTiming.TimingStatistics, snap: MemorySnapshot)
    : seq<DetectedRegression> {
    TimingRegressions(TimingResults(stats, DEFAULT_TIMING_THRESHOLDS, config)) + MemoryRegressions(snap, config)
  }

  /**
   * The record `execute_regression_test` returns and stores: stamped with
   * the time and duration given, within the capacities of its vectors,
   * inconclusive exactly when no metric was checked and a critical
   * failure exactly when a critical regression was detected.
   */
  function TestResultOf(config: RegressionConfig, stats: PerfTiming.TimingStatistics, snap: MemorySnapshot,
                        efficiency: real, now: nat, elapsed: nat): (r: RegressionTestResult)
    ensures r.timestamp == now && r.executionTime == elapsed
    ensures |r.metricResults| <= 7 && |r.regressions| <= 5
    ensures r.result == Inconclusive <==> r.metricResults == []
    ensures r.result == CriticalFail <==> r.metricResults != [] && HasSeverity(r.regressions, Critical)
  {
    CapacitiesNeverReached(config, stats, snap, efficiency);
    var ms := MetricResults(config, stats, snap, efficiency);
    var regs := Regressions(config, stats, snap);
    var stat := StatisticalAnalysisOf(config, ms);
    RegressionTestResult(now, DetermineOverallResult(config, ms, regs, stat), ms, stat, regs, elapsed)
  }

  lemma DefaultThresholdsWellFormed()
    ensures |DEFAULT_TIMING_THRESHOLDS| == TIMING_THRESHOLD_COUNT
    ensures ThresholdsWellFormed(DEFAULT_TIMING_THRESHOLDS)
    ensures EnabledCount(DEFAULT_TIMING_THRESHOLDS) == 4
  {
    var ths := DEFAULT_TIMING_THRESHOLDS;
    assert ths[..1][..0] == ths[..0];
    assert EnabledCount(ths[..1]) == 1;
    assert ths[..2][..1] == ths[..1];
    assert EnabledCount(ths[..2]) == 2;
    assert ths[..3][..2] == ths[..2];
    assert EnabledCount(ths[..3]) == 3;
    assert ths[..4][..3] == ths[..3];
    assert EnabledCount(ths[..4]) == 4;
    assert ths[..5][..4] == ths[..4];
    assert EnabledCount(ths[..5]) == 4;
    assert ths[..6][..5] == ths[..5];
    assert EnabledCount(ths[..6]) == 4;
    assert ths[..7][..6] == ths[..6];
    assert EnabledCount(ths[..7]) == 4;
    assert ths[..8][..7] == ths[..7];
    assert ths[..8] == ths;
  }

  /**
   * With the default thresholds a test gives at most 7 results and 5
   * regressions, inside the vectors' capacities of 16 and 8: no push is
   * ever dropped.
   */
  lemma CapacitiesNeverReached(config: RegressionConfig, stats: PerfTiming.TimingStatistics, snap: MemorySnapshot,
                               efficiency: real)
    ensures |MetricResults(config, stats, snap, efficiency)| <= 7
    ensures |Regressions(config, stats, snap)| <= 5
  {
    DefaultThresholdsWellFormed();
  }

  /** The history after storing a result: the oldest leaves first when 16 are held. */
  function AppendBounded(h: seq<RegressionTestResult>, r: RegressionTestResult): seq<RegressionTestResult> {
    (if |h| >= HISTORY_CAPACITY then h[1..] else h) + [r]
  }

  /** The bounded history keeps at most 16 results, ends with the new one and loses only the oldest. */
  lemma AppendBoundedKeepsNewest(h: seq<RegressionTestResult>, r: RegressionTestResult)
    requires |h| <= HISTORY_CAPACITY
    ensures |AppendBounded(h, r)| == if |h| == HISTORY_CAPACITY then HISTORY_CAPACITY else |h| + 1
    ensures AppendBounded(h, r)[|AppendBounded(h, r)| - 1] == r
    ensures |h| == HISTORY_CAPACITY ==> AppendBounded(h, r)[..HISTORY_CAPACITY - 1] == h[1..]
    ensures |h| < HISTORY_CAPACITY ==> AppendBounded(h, r)[..|h|] == h
  {
  }

  // ---------------------------------------------------------------- trend

  predicate IsFailure(r: RegressionTestResult) {
    r.result == Fail || r.result == CriticalFail
  }

  /** The number of failed tests. */
  function Failures(h: seq<RegressionTestResult>): (n: nat)
    ensures n <= |h|
  {
    if |h| == 0 then 0 else Failures(h[..|h| - 1]) + (if IsFailure(h[|h| - 1]) then 1 else 0)
  }

  lemma {:induction false} FailuresAppend(a: seq<RegressionTestResult>, b: seq<RegressionTestResult>)
    ensures Failures(a + b) == Failures(a) + Failures(b)
  {
    if |b| > 0 {
      var init := b[..|b| - 1];
      FailuresAppend(a, init);
      assert (a + b)[..|a + b| - 1] == a + init;
      assert (a + b)[|a + b| - 1] == b[|b| - 1];
    } else {
      assert a + b == a;
    }
  }

  lemma FailuresSingle(r: RegressionTestResult)
    ensures Failures([r]) == if IsFailure(r) then 1 else 0
  {
    assert [r][..0] == [];
  }

  /** The newest `n` results, or all of them when fewer. */
  function Newest(h: seq<RegressionTestResult>, n: nat): (r: seq<RegressionTestResult>)
    ensures |r| == if |h| < n then |h| else n
    ensures r == h[|h| - |r|..]
  {
    if |h| <= n then h else h[|h| - n..]
  }

  /**
   * `analyze_regression_trends`: nothing with fewer than three results;
   * otherwise the failures among the newest five, three or more
   * worsening, at most one stable, two unstable.
   */
  function Trend(h: seq<RegressionTestResult>): (r: Option<RegressionTrend>)
    ensures r.None? <==> |h| < 3
    ensures r.Some? ==> r.value.recentFailures == Failures(Newest(h, 5)) <= 5
    ensures r.Some? ==> ((r.value.trend == Worsening <==> r.value.recentFailures >= 3)
                         && (r.value.trend == Stable <==> r.value.recentFailures <= 1)
                         && (r.value.trend == Unstable <==> r.value.recentFailures == 2)
                         && r.value.trend != Improving)
  {
    if |h| < 3 then None
    else
      var failures := Failures(Newest(h, 5));
      var trend := if failures >= 3 then Worsening else if failures <= 1 then Stable else Unstable;
      Some(RegressionTrend(trend, failures))
  }

  /** Three failed tests in a row, the newest three, make the trend worsening. */
  lemma ThreeRecentFailuresWorsen(h: seq<RegressionTestResult>)
    requires |h| >= 3
    requires IsFailure(h[|h| - 1]) && IsFailure(h[|h| - 2]) && IsFailure(h[|h| - 3])
    ensures Trend(h).Some? && Trend(h).value.trend == Worsening
  {
    var w := Newest(h, 5);
    var x, y, z := h[|h| - 3], h[|h| - 2], h[|h| - 1];
    assert w == w[..|w| - 3] + ([x] + [y] + [z]);
    FailuresAppend(w[..|w| - 3], [x] + [y] + [z]);
    FailuresAppend([x] + [y], [z]);
    FailuresAppend([x], [y]);
    FailuresSingle(x);
    FailuresSingle(y);
    FailuresSingle(z);
  }

  /** Storing a failed test never lowers the failures the trend counts. */
  lemma StoringFailureNeverLowersFailures(h: seq<RegressionTestResult>, r: RegressionTestResult)
    requires |h| <= HISTORY_CAPACITY && IsFailure(r)
    ensures Failures(Newest(AppendBounded(h, r), 5)) >= Failures(Newest(h, 5))
  {
    var h' := AppendBounded(h, r);
    var four := Newest(h, 4);
    assert Newest(h', 5) == four + [r] by {
      AppendBoundedKeepsNewest(h, r);
    }
    FailuresAppend(four, [r]);
    if |h| > 4 {
      assert Newest(h, 5) == [h[|h| - 5]] + four;
      FailuresAppend([h[|h| - 5]], four);
    } else {
      assert Newest(h, 5) == four;
    }
  }

  /** Storing a passed test never raises the failures the trend counts. */
  lemma StoringSuccessNeverRaisesFailures(h: seq<RegressionTestResult>, r: RegressionTestResult)
    requires |h| <= HISTORY_CAPACITY && !IsFailure(r)
    ensures Failures(Newest(AppendBounded(h, r), 5)) <= Failures(Newest(h, 5))
  {
    var h' := AppendBounded(h, r);
    var four := Newest(h, 4);
    assert Newest(h', 5) == four + [r] by {
      AppendBoundedKeepsNewest(h, r);
    }
    FailuresAppend(four, [r]);
    if |h| > 4 {
      assert Newest(h, 5) == [h[|h| - 5]] + four;
      FailuresAppend([h[|h| - 5]], four);
    } else {
      assert Newest(h, 5) == four;
    }
  }

  // ---------------------------------------------------------------- findings

  /** A sensor whose average read is 200 microseconds against the 450 of the baseline. */
  function FastSensorStatistics(): PerfTiming.TimingStatistics {
    PerfTiming.TimingStatistics(map[PerfTiming.SensorReading := PerfTiming.CategoryStatistics(1, 200, 200, 200, 0, 200)],
                                PerfTiming.OverallStatistics(1, 200, 200, 0))
  }

  /**
   * As written, a sensor reading 55 % faster than its baseline is graded
   * a critical regression: the severity takes the change's absolute value.
   */
  lemma FasterSensorIsCritical()
    ensures TimingEntry(FastSensorStatistics(), DEFAULT_TIMING_THRESHOLDS[0], DEFAULT_CONFIG)
         == Some(MetricRegressionResult(SensorReadingTime, 200.0, 450.0, -250.0 / 4.5, true, Critical))
  {
    var change := ChangePercent(200.0, 450.0);
    assert change == -250.0 / 4.5;
    DefaultSeverityBands(change);
  }

  /** A threshold that contributes nothing leaves the timing results as they were. */
  lemma TimingResultsSkip(stats: PerfTiming.TimingStatistics, ths: seq<TimingThreshold>, k: nat,
                          config: RegressionConfig)
    requires k < |ths| && ThresholdsWellFormed(ths)
    requires !ths[k].enabled || ths[k].category !in stats.categoryStats
    ensures TimingResults(stats, ths[..k + 1], config) == TimingResults(stats, ths[..k], config)
  {
    assert ths[..k + 1][..k] == ths[..k];
  }

  /** Of the default thresholds, only the sensor's reports on the faster sensor's statistics. */
  lemma FastSensorTimingResults()
    ensures TimingResults(FastSensorStatistics(), DEFAULT_TIMING_THRESHOLDS, DEFAULT_CONFIG)
         == [MetricRegressionResult(SensorReadingTime, 200.0, 450.0, -250.0 / 4.5, true, Critical)]
  {
    var stats, ths := FastSensorStatistics(), DEFAULT_TIMING_THRESHOLDS;
    DefaultThresholdsWellFormed();
    FasterSensorIsCritical();
    assert ths[..1][..0] == [];
    TimingResultsSkip(stats, ths, 1, DEFAULT_CONFIG);
    TimingResultsSkip(stats, ths, 2, DEFAULT_CONFIG);
    TimingResultsSkip(stats, ths, 3, DEFAULT_CONFIG);
    TimingResultsSkip(stats, ths, 4, DEFAULT_CONFIG);
    TimingResultsSkip(stats, ths, 5, DEFAULT_CONFIG);
    TimingResultsSkip(stats, ths, 6, DEFAULT_CONFIG);
    TimingResultsSkip(stats, ths, 7, DEFAULT_CONFIG);
    assert ths[..8] == ths;
  }

  /** The faster sensor alone, with memory and efficiency within bounds, makes the whole test a critical failure. */
  lemma FasterSensorFailsTest()
    ensures TestResultOf(DEFAULT_CONFIG, FastSensorStatistics(), MemorySnapshot(40_000, 3_000), 0.9, 0, 0).result
         == CriticalFail
  {
    FastSensorTimingResults();
    var entry := MetricRegressionResult(SensorReadingTime, 200.0, 450.0, -250.0 / 4.5, true, Critical);
    assert [entry][..0] == [];
    assert TimingRegressions([entry])[0].severity == Critical;
    var regs := Regressions(DEFAULT_CONFIG, FastSensorStatistics(), MemorySnapshot(40_000, 3_000));
    assert regs[0].severity == Critical;
  }

  /** Graded by `DegradationSeverity`, the same faster reading is no regression, and a slower one keeps its grade. */
  lemma FasterSensorIsNoRegressionFixed(c: real)
    ensures DegradationSeverity(DEFAULT_CONFIG, ChangePercent(200.0, 450.0)) == NoRegression
    ensures c > 0.0 ==> DegradationSeverity(DEFAULT_CONFIG, c) == Severity(DEFAULT_CONFIG, c)
  {
    assert ChangePercent(200.0, 450.0) < 0.0;
  }

  // ---------------------------------------------------------------- the tester

  /** `RegressionTester`: its configuration and the history of test results. */
  class RegressionTester {
    var config: RegressionConfig
    var testHistory: seq<RegressionTestResult>

    predicate Valid()
      reads this
    {
      |testHistory| <= HISTORY_CAPACITY
    }

    /** `RegressionTester::new` */
    constructor ()
      ensures Valid() && config == DEFAULT_CONFIG && testHistory == []
    {
      config := DEFAULT_CONFIG;
      testHistory := [];
    }

    /** `RegressionTester::with_config` */
    constructor WithConfig(config: RegressionConfig)
      ensures Valid() && this.config == config && testHistory == []
    {
      this.config := config;
      testHistory := [];
    }

    /**
     * `execute_regression_test`: the timing, memory and system tests, the
     * statistics and the verdict; the result is stored, the oldest one
     * leaving a full history. The start instant and the elapsed time are
     * parameters.
     */
    method ExecuteRegressionTest(stats: PerfTiming.TimingStatistics, snap: MemorySnapshot, efficiency: real,
                                 now: nat, elapsed: nat) returns (result: RegressionTestResult)
      requires Valid()
      modifies this
      ensures Valid()
      ensures result == TestResultOf(config, stats, snap, efficiency, now, elapsed)
      ensures testHistory == AppendBounded(old(testHistory), result)
      ensures config == old(config)
    {
      DefaultThresholdsWellFormed();
      var metricResults, regressions := TestTimingMetrics(stats, DEFAULT_TIMING_THRESHOLDS, config);
      metricResults := metricResults + MemoryResults(snap, config) + SystemResults(efficiency, config);
      regressions := regressions + MemoryRegressions(snap, config);
      var statistical := StatisticalAnalysisOf(config, metricResults);
      var verdict := DetermineOverallResult(config, metricResults, regressions, statistical);
      result := RegressionTestResult(now, verdict, metricResults, statistical, regressions, elapsed);
      if |testHistory| == HISTORY_CAPACITY {
        testHistory := testHistory[1..];
      }
      testHistory := testHistory + [result];
    }

    /** `analyze_regression_trends` over the stored history. */
    function AnalyzeRegressionTrends(): (r: Option<RegressionTrend>)
      reads this
      ensures r.None? <==> |testHistory| < 3
    {
      Trend(testHistory)
    }
  }
}
