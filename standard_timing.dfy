/**
 * The timing standard every application follows: sensor, heartbeat and
 * status intervals in seconds with millisecond offsets, converted to
 * loop-cycle counts for the synchronous application and to cycle
 * counts of the asynchronous ones, and the manager that counts cycles
 * and says when an event is due.
 */
module StandardTiming {
  import opened Ints
  import opened Wrappers

  datatype StandardTimingConfig = StandardTimingConfig(
    sensorReadingIntervalSecs: u32,
    heartbeatIntervalSecs: u32,
    statusIntervalSecs: u32,
    syncLoopDelayMs: u32,
    asyncCycleDurationSecs: u32,
    sensorOffsetMs: u32,
    heartbeatOffsetMs: u32,
    statusOffsetMs: u32)

  /** `StandardTimingConfig::default()` */
  const DEFAULT_TIMING := StandardTimingConfig(30, 60, 120, 50, 10, 0, 5000, 10000)

  datatype SyncTimingCycles = SyncTimingCycles(
    sensorIntervalCycles: u32,
    heartbeatIntervalCycles: u32,
    statusIntervalCycles: u32,
    sensorOffsetCycles: u32,
    heartbeatOffsetCycles: u32,
    statusOffsetCycles: u32)

  datatype TimingEvent = SensorReading | Heartbeat | StatusReport

  datatype IoTArchitecture = Synchronous | AsyncMinimal | AsyncFull

  /** The interval in seconds and the offset in milliseconds the configuration gives an event. */
  function IntervalSecs(c: StandardTimingConfig, e: TimingEvent): u32 {
    match e
    case SensorReading => c.sensorReadingIntervalSecs
    case Heartbeat => c.heartbeatIntervalSecs
    case StatusReport => c.statusIntervalSecs
  }

  function OffsetMs(c: StandardTimingConfig, e: TimingEvent): u32 {
    match e
    case SensorReading => c.sensorOffsetMs
    case Heartbeat => c.heartbeatOffsetMs
    case StatusReport => c.statusOffsetMs
  }

  function IntervalCycles(s: SyncTimingCycles, e: TimingEvent): u32 {
    match e
    case SensorReading => s.sensorIntervalCycles
    case Heartbeat => s.heartbeatIntervalCycles
    case StatusReport => s.statusIntervalCycles
  }

  function OffsetCycles(s: SyncTimingCycles, e: TimingEvent): u32 {
    match e
    case SensorReading => s.sensorOffsetCycles
    case Heartbeat => s.heartbeatOffsetCycles
    case StatusReport => s.statusOffsetCycles
  }

  /** A whole number of loop cycles of `delay` milliseconds to a second; the product wraps at 32 bits. */
  function SecsToCycles(secs: u32, delay: u32): (r: u32)
    requires delay > 0
    ensures 1000 % delay == 0 && secs * (1000 / delay) <= U32_MAX ==> r * delay == secs * 1000
  {
    CyclesTimesDelay(secs, delay);
    Wrap32(secs * (1000 / delay))
  }

  lemma CyclesTimesDelay(secs: nat, delay: nat)
    requires delay > 0
    ensures 1000 % delay == 0 ==> secs * (1000 / delay) * delay == secs * 1000
  {
    var perSecond := 1000 / delay;
    if 1000 % delay == 0 {
      assert perSecond * delay == 1000;
      assert secs * perSecond * delay == secs * (perSecond * delay);
    }
  }

  /** The number of whole loop cycles of `delay` milliseconds in `ms`. */
  function MsToCycles(ms: u32, delay: u32): (r: u32)
    requires delay > 0
    ensures r * delay <= ms < r * delay + delay
  {
    DivBounds(ms, delay);
    ms / delay
  }

  /**
   * `to_sync_cycles`: each interval in loop cycles (seconds times the
   * cycles to a second) and each offset in loop cycles (milliseconds
   * over the delay). A zero delay divides by zero in the source.
   */
  function ToSyncCycles(c: StandardTimingConfig): (r: SyncTimingCycles)
    requires c.syncLoopDelayMs > 0
    ensures forall e :: IntervalCycles(r, e) == SecsToCycles(IntervalSecs(c, e), c.syncLoopDelayMs)
    ensures forall e :: OffsetCycles(r, e) == MsToCycles(OffsetMs(c, e), c.syncLoopDelayMs)
  {
    var d := c.syncLoopDelayMs;
    SyncTimingCycles(
      SecsToCycles(c.sensorReadingIntervalSecs, d),
      SecsToCycles(c.heartbeatIntervalSecs, d),
      SecsToCycles(c.statusIntervalSecs, d),
      MsToCycles(c.sensorOffsetMs, d),
      MsToCycles(c.heartbeatOffsetMs, d),
      MsToCycles(c.statusOffsetMs, d))
  }

  /** With the 50 ms loop there are 20 cycles to a second: 600, 1200 and 2400 cycles, offset by 0, 100 and 200. */
  lemma DefaultSyncCycles()
    ensures ToSyncCycles(DEFAULT_TIMING) == SyncTimingCycles(600, 1200, 2400, 0, 100, 200)
  {
    assert SecsToCycles(30, 50) == 600;
    assert SecsToCycles(60, 50) == 1200;
    assert SecsToCycles(120, 50) == 2400;
  }

  /** `validate`: every interval and the two cycle lengths nonzero, then sensor <= heartbeat <= status. */
  function Validate(c: StandardTimingConfig): (r: Result<(), string>)
    ensures r.Ok? <==> (c.sensorReadingIntervalSecs > 0 && c.heartbeatIntervalSecs > 0 && c.statusIntervalSecs > 0
                        && c.syncLoopDelayMs > 0 && c.asyncCycleDurationSecs > 0
                        && c.sensorReadingIntervalSecs <= c.heartbeatIntervalSecs <= c.statusIntervalSecs)
    ensures c.sensorReadingIntervalSecs == 0 ==> r == Err("Sensor interval must be > 0")
  {
    if c.sensorReadingIntervalSecs == 0 then Err("Sensor interval must be > 0")
    else if c.heartbeatIntervalSecs == 0 then Err("Heartbeat interval must be > 0")
    else if c.statusIntervalSecs == 0 then Err("Status interval must be > 0")
    else if c.syncLoopDelayMs == 0 then Err("Sync loop delay must be > 0")
    else if c.asyncCycleDurationSecs == 0 then Err("Async cycle duration must be > 0")
    else if c.heartbeatIntervalSecs < c.sensorReadingIntervalSecs then Err("Heartbeat interval should be >= sensor interval")
    else if c.statusIntervalSecs < c.heartbeatIntervalSecs then Err("Status interval should be >= heartbeat interval")
    else Ok(())
  }

  /**
   * A valid configuration whose loop is at most a second long and which
   * does not overflow has nonzero intervals in loop cycles, in the same
   * order as the intervals in seconds.
   */
  lemma ValidCyclesOrdered(c: StandardTimingConfig)
    requires Validate(c).Ok? && c.syncLoopDelayMs <= 1000
    requires c.statusIntervalSecs * (1000 / c.syncLoopDelayMs) <= U32_MAX
    ensures var s := ToSyncCycles(c);
      0 < s.sensorIntervalCycles <= s.heartbeatIntervalCycles <= s.statusIntervalCycles
  {
    var k := 1000 / c.syncLoopDelayMs;
    assert k >= 1;
    MulLe(c.sensorReadingIntervalSecs, c.heartbeatIntervalSecs, k);
    MulLe(c.heartbeatIntervalSecs, c.statusIntervalSecs, k);
    MulLe(1, c.sensorReadingIntervalSecs, k);
  }

  lemma DefaultValid()
    ensures Validate(DEFAULT_TIMING).Ok?
    ensures Validate(DEFAULT_TIMING.(sensorReadingIntervalSecs := 0)) == Err("Sensor interval must be > 0")
  {
  }

  /** The precondition of the synchronous schedule: the source divides by the delay and, past cycle 0, by the interval. */
  predicate SyncSchedulable(c: StandardTimingConfig, e: TimingEvent, cycle: u32) {
    c.syncLoopDelayMs > 0 && (cycle > 0 ==> IntervalCycles(ToSyncCycles(c), e) > 0)
  }

  /** `get_sync_cycle_count`: past cycle 0, the event is due when the cycle is its offset modulo its interval. */
  function SyncEventDue(c: StandardTimingConfig, e: TimingEvent, cycle: u32): (r: bool)
    requires SyncSchedulable(c, e, cycle)
    ensures r <==> (cycle > 0 && cycle % IntervalCycles(ToSyncCycles(c), e) == OffsetCycles(ToSyncCycles(c), e))
  {
    var s := ToSyncCycles(c);
    match e
    case SensorReading => cycle > 0 && cycle % s.sensorIntervalCycles == s.sensorOffsetCycles
    case Heartbeat => cycle > 0 && cycle % s.heartbeatIntervalCycles == s.heartbeatOffsetCycles
    case StatusReport => cycle > 0 && cycle % s.statusIntervalCycles == s.statusOffsetCycles
  }

  /**
   * The event is due exactly at the cycles q * interval + offset past 0,
   * so an offset of a whole interval or more means it is never due.
   */
  lemma SyncDueTimes(c: StandardTimingConfig, e: TimingEvent, cycle: u32)
    requires SyncSchedulable(c, e, cycle) && cycle > 0
    ensures var s := ToSyncCycles(c);
      SyncEventDue(c, e, cycle) <==>
      (OffsetCycles(s, e) < IntervalCycles(s, e) && cycle == (cycle / IntervalCycles(s, e)) * IntervalCycles(s, e) + OffsetCycles(s, e))
  {
    var s := ToSyncCycles(c);
    RemainderIsOffset(cycle, IntervalCycles(s, e), OffsetCycles(s, e));
  }

  /** `x % i == o` exactly when `o` is below `i` and `x` is a whole number of `i` past `o`. */
  lemma RemainderIsOffset(x: nat, i: nat, o: nat)
    requires i > 0
    ensures x % i == o <==> o < i && x == (x / i) * i + o
  {
    DivBounds(x, i);
    if o < i && x == (x / i) * i + o {
      ModUnique(x, i, x / i, o);
    }
  }

  /** Moving one interval on (within 32 bits) does not change whether the event is due. */
  lemma SyncEventPeriodic(c: StandardTimingConfig, e: TimingEvent, cycle: u32)
    requires SyncSchedulable(c, e, cycle) && cycle > 0
    requires cycle + IntervalCycles(ToSyncCycles(c), e) <= U32_MAX
    ensures SyncSchedulable(c, e, cycle + IntervalCycles(ToSyncCycles(c), e))
    ensures SyncEventDue(c, e, cycle + IntervalCycles(ToSyncCycles(c), e)) == SyncEventDue(c, e, cycle)
  {
    var i := IntervalCycles(ToSyncCycles(c), e);
    ModAddMultiple(cycle, 1, i);
  }

  /**
   * `(interval + cycle - 1) / cycle` in 32 bits: the async cycles in an
   * interval, rounded up when the addition does not overflow.
   */
  function AsyncCyclesPerInterval(c: StandardTimingConfig, e: TimingEvent): (r: u32)
    requires c.asyncCycleDurationSecs > 0
    ensures var secs, d := IntervalSecs(c, e), c.asyncCycleDurationSecs;
      secs + d - 1 <= U32_MAX ==> secs <= r * d && (secs == 0 || (r - 1) * d < secs)
  {
    var secs, d := IntervalSecs(c, e), c.asyncCycleDurationSecs;
    CeilingBounds(secs, d);
    Quotient(Wrap32(secs + d - 1), d)
  }

  /** `x / d` on `u32`: never more than the dividend. */
  function Quotient(x: u32, d: u32): (r: u32)
    requires d > 0
    ensures r == x / d
  {
    DivMonotone(x, x, d);
    QuotientAtMost(x, d, x);
    MulLe(1, d, x);
    x / d
  }

  /** `(secs + d - 1) / d` is the least multiple count covering `secs`. */
  lemma CeilingBounds(secs: nat, d: nat)
    requires d > 0
    ensures var r := (secs + d - 1) / d; secs <= r * d && (secs == 0 || (r - 1) * d < secs)
  {
    var r := (secs + d - 1) / d;
    DivBounds(secs + d - 1, d);
    assert (r - 1) * d == r * d - d;
  }

  predicate AsyncSchedulable(c: StandardTimingConfig, e: TimingEvent, counter: u32) {
    c.asyncCycleDurationSecs > 0 && (counter > 0 ==> AsyncCyclesPerInterval(c, e) > 0)
  }

  /** `get_async_cycle_count`: past cycle 0, the event is due on every multiple of its cycles per interval. */
  function AsyncEventDue(c: StandardTimingConfig, e: TimingEvent, counter: u32): (r: bool)
    requires AsyncSchedulable(c, e, counter)
    ensures r <==> counter > 0 && counter % AsyncCyclesPerInterval(c, e) == 0
    ensures r ==> counter >= AsyncCyclesPerInterval(c, e)
  {
    var k := AsyncCyclesPerInterval(c, e);
    if counter > 0 then MultipleAtLeast(counter, k); counter % k == 0 else false
  }

  /** A positive multiple of `k` is at least `k`. */
  lemma MultipleAtLeast(x: nat, k: nat)
    requires k > 0 && x > 0
    ensures x % k == 0 ==> x >= k
  {
    DivBounds(x, k);
    if x % k == 0 {
      MulLe(1, x / k, k);
    }
  }

  /** With 10-second cycles the default events are due every 3, 6 and 12 cycles. */
  lemma DefaultAsyncCycles()
    ensures AsyncCyclesPerInterval(DEFAULT_TIMING, SensorReading) == 3
    ensures AsyncCyclesPerInterval(DEFAULT_TIMING, Heartbeat) == 6
    ensures AsyncCyclesPerInterval(DEFAULT_TIMING, StatusReport) == 12
  {
  }

  /** `for_architecture`: each adjustment sets the value the default already has. */
  function ForArchitecture(arch: IoTArchitecture): (r: StandardTimingConfig)
    ensures r == DEFAULT_TIMING
  {
    match arch
    case Synchronous => DEFAULT_TIMING.(syncLoopDelayMs := 50)
    case AsyncMinimal => DEFAULT_TIMING.(asyncCycleDurationSecs := 10)
    case AsyncFull => DEFAULT_TIMING.(asyncCycleDurationSecs := 10)
  }

  /**
   * `TimingManager`: the configuration of its architecture and a cycle
   * counter. `embassy` stands for the build feature that enables the
   * asynchronous schedule; without it an asynchronous manager never
   * reports an event.
   */
  class TimingManager {
    var config: StandardTimingConfig
    var cycleCounter: u32
    var architecture: IoTArchitecture

    predicate Valid()
      reads this
    {
      config == ForArchitecture(architecture)
    }

    constructor (architecture: IoTArchitecture)
      ensures Valid() && this.architecture == architecture && cycleCounter == 0
    {
      this.config := ForArchitecture(architecture);
      this.cycleCounter := 0;
      this.architecture := architecture;
    }

    /** `increment_cycle`: the counter goes up by one, wrapping at 32 bits. */
    method IncrementCycle()
      modifies this
      ensures cycleCounter == Wrap32(old(cycleCounter) + 1)
      ensures config == old(config) && architecture == old(architecture)
    {
      cycleCounter := Wrap32(cycleCounter + 1);
    }

    /** `reset` */
    method Reset()
      modifies this
      ensures cycleCounter == 0 && config == old(config) && architecture == old(architecture)
    {
      cycleCounter := 0;
    }

    /** `is_time_for_event` */
    function IsTimeForEvent(event: TimingEvent, embassy: bool): (r: bool)
      reads this
      requires Valid()
      ensures architecture.Synchronous? ==> (r <==> cycleCounter > 0 && cycleCounter % SecsToCycles(IntervalSecs(DEFAULT_TIMING, event), 50) == OffsetCycles(ToSyncCycles(DEFAULT_TIMING), event))
      ensures !architecture.Synchronous? ==> (r <==> embassy && cycleCounter > 0 && cycleCounter % AsyncCyclesPerInterval(DEFAULT_TIMING, event) == 0)
    {
      DefaultSyncCycles();
      if architecture.Synchronous? then SyncEventDue(config, event, cycleCounter)
      else if embassy then AsyncEventDue(config, event, cycleCounter)
      else false
    }
  }

  /**
   * The default synchronous schedule: the heartbeat is due at cycle 100
   * (its 5000 ms offset), but with its offset of 0 the sensor reading is
   * not due at cycle 1; it first falls due at cycle 600.
   */
  lemma DefaultSyncSchedule()
    ensures SyncEventDue(DEFAULT_TIMING, Heartbeat, 100)
    ensures !SyncEventDue(DEFAULT_TIMING, SensorReading, 1)
    ensures !SyncEventDue(DEFAULT_TIMING, Heartbeat, 1)
    ensures SyncEventDue(DEFAULT_TIMING, SensorReading, 600)
    ensures forall cycle: u32 :: 0 < cycle < 600 ==> !SyncEventDue(DEFAULT_TIMING, SensorReading, cycle)
  {
    DefaultSyncCycles();
  }

  /** A new synchronous manager stepped once reports neither a reading nor a heartbeat. */
  method FirstCycle() returns (sensor: bool, heartbeat: bool)
    ensures !sensor && !heartbeat
  {
    var m := new TimingManager(Synchronous);
    m.IncrementCycle();
    sensor := m.IsTimeForEvent(SensorReading, false);
    heartbeat := m.IsTimeForEvent(Heartbeat, false);
    DefaultSyncSchedule();
  }
}
