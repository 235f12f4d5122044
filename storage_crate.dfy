/**
 * The root of the storage crate: its error kinds and bounded error strings,
 * the health report of a unified storage manager, and the in-memory mock
 * backend.
 */
module StorageCrate {
  import opened Wrappers
  import opened Ints
  import opened Text
  import opened StorageTraits

  const MAX_ERROR_LEN: nat := 256
  const MAX_CONFIG_STRING_LEN: nat := 128
  const MOCK_CAPACITY: nat := 32

  /** Errors of the storage managers, each with a message of at most 256 bytes. */
  datatype StorageErrorKind =
    | OperationFailed(message: string)
    | CorruptedData(message: string)
    | CapacityExceededKind(message: string)
    | KeyNotFoundKind(message: string)
    | SerializationFailed(message: string)
    | HardwareErrorKind(message: string)
    | WearLevelingErrorKind(message: string)
    | TransactionFailed(message: string)

  /**
   * `create_error_string` and `create_config_string`: the message itself
   * when it fits `cap` bytes, otherwise its first `cap - 3` bytes.
   */
  function BoundedString(msg: string, cap: nat): (r: string)
    requires cap >= 3
    ensures |r| <= cap && StartsWith(msg, r)
    ensures |msg| <= cap <==> r == msg
    ensures |msg| > cap ==> |r| == cap - 3
  {
    if |msg| <= cap then msg else msg[..cap - 3]
  }

  function ErrorString(msg: string): (r: string)
    ensures |r| <= MAX_ERROR_LEN && StartsWith(msg, r)
    ensures |msg| <= MAX_ERROR_LEN ==> r == msg
  {
    BoundedString(msg, MAX_ERROR_LEN)
  }

  function ConfigString(msg: string): (r: string)
    ensures |r| <= MAX_CONFIG_STRING_LEN && StartsWith(msg, r)
    ensures |msg| <= MAX_CONFIG_STRING_LEN ==> r == msg
  {
    BoundedString(msg, MAX_CONFIG_STRING_LEN)
  }

  /** Bounding a string twice is bounding it once. */
  lemma BoundedStringIdempotent(msg: string, cap: nat)
    requires cap >= 3
    ensures BoundedString(BoundedString(msg, cap), cap) == BoundedString(msg, cap)
  {
  }

  // --------------------------------------------------------------- health

  /** The weighting a unified storage manager reports about its backend. */
  datatype StorageHealth = StorageHealth(
    capacity: StorageCapacity, stats: StorageStats,
    fragmentationLevel: u8, wearLevel: u8, needsMaintenance: bool)

  /**
   * `calculate_fragmentation`: failed writes as a percentage of all writes
   * (wrapping `u64` product, capped at 100); 0 before the first write.
   */
  function CalculateFragmentation(stats: StorageStats): (r: u8)
    ensures r <= 100
    ensures stats.totalWrites == 0 ==> r == 0
    ensures stats.totalWrites > 0 && stats.failedWrites <= stats.totalWrites && stats.failedWrites * 100 <= U64_MAX ==>
      r == stats.failedWrites * 100 / stats.totalWrites
  {
    if stats.totalWrites == 0 then 0
    else
      var x := Wrap64(stats.failedWrites * 100);
      SharePercent(stats.failedWrites, stats.totalWrites);
      var q: nat := x / stats.totalWrites;
      Min(q, 100)
  }

  /** Without overflow, the capped percentage of a part of the whole is the plain percentage. */
  lemma SharePercent(part: nat, whole: nat)
    requires whole > 0
    ensures part <= whole && part * 100 <= U64_MAX ==> Min(Wrap64(part * 100) / whole, 100) == part * 100 / whole
  {
    if part <= whole && part * 100 <= U64_MAX {
      var x := part * 100;
      assert Wrap64(x) == x;
      MulLe(part, whole, 100);
      QuotientAtMost(x, whole, 100);
    }
  }

  const FLASH_ENDURANCE: nat := 100000

  /** `calculate_wear_level`: erase cycles as a percentage of 100000 (wrapping `u64`, capped at 100). */
  function CalculateWearLevel(stats: StorageStats): (r: u8)
    ensures r <= 100
    ensures stats.eraseCycles == 0 ==> r == 0
    ensures stats.eraseCycles >= FLASH_ENDURANCE && stats.eraseCycles * 100 <= U64_MAX ==> r == 100
    ensures stats.eraseCycles < FLASH_ENDURANCE ==> r == stats.eraseCycles * 100 / FLASH_ENDURANCE && r < 100
  {
    if stats.eraseCycles == 0 then 0
    else
      var x := Wrap64(stats.eraseCycles * 100);
      DivAtLeast(x, FLASH_ENDURANCE, 100);
      Min(x / FLASH_ENDURANCE, 100)
  }

  /**
   * Maintenance is due above 50% fragmentation or 80% wear: without
   * overflow, when at least 51% of the writes failed or 81000 erase
   * cycles have been counted.
   */
  predicate NeedsMaintenance(stats: StorageStats)
    ensures stats.eraseCycles * 100 <= U64_MAX ==>
      stats.failedWrites <= stats.totalWrites && stats.failedWrites * 100 <= U64_MAX ==>
      (NeedsMaintenance(stats) <==>
        (stats.totalWrites > 0 && stats.failedWrites * 100 >= 51 * stats.totalWrites) || stats.eraseCycles >= 81000)
  {
    PercentThresholds(stats);
    CalculateFragmentation(stats) > 50 || CalculateWearLevel(stats) > 80
  }

  /** Where the two percentages cross the maintenance thresholds. */
  lemma PercentThresholds(stats: StorageStats)
    ensures stats.totalWrites > 0 ==>
      (stats.failedWrites * 100 / stats.totalWrites > 50 <==> stats.failedWrites * 100 >= 51 * stats.totalWrites)
    ensures stats.eraseCycles * 100 / FLASH_ENDURANCE > 80 <==> stats.eraseCycles >= 81000
  {
    if stats.totalWrites > 0 {
      DivAtLeast(stats.failedWrites * 100, stats.totalWrites, 51);
    }
    DivAtLeast(stats.eraseCycles * 100, FLASH_ENDURANCE, 81);
  }

  /** `get_health`: a capacity the backend cannot report is replaced by the default one. */
  function GetHealth(capacity: Result<StorageCapacity, StorageError>, stats: StorageStats): (r: StorageHealth)
    ensures capacity.Ok? ==> r.capacity == capacity.value
    ensures capacity.Err? ==> r.capacity == DefaultCapacity()
    ensures r.stats == stats && r.needsMaintenance == NeedsMaintenance(stats)
    ensures r.fragmentationLevel <= 100 && r.wearLevel <= 100
  {
    StorageHealth(
      if capacity.Ok? then capacity.value else DefaultCapacity(), stats,
      CalculateFragmentation(stats), CalculateWearLevel(stats), NeedsMaintenance(stats))
  }

  function CapacityScore(h: StorageHealth): (r: nat)
  {
    if h.capacity.availableBytes > 0 then 100 else 0
  }

  /**
   * `health_score` as the source computes it: every product and sum is
   * taken in `u8`, so it wraps (the build uses release arithmetic).
   */
  function HealthScoreAsWritten(h: StorageHealth): (r: u8)
    ensures r <= 100
  {
    var capacityScore := CapacityScore(h);
    var fragmentationScore := Wrap8(100 - h.fragmentationLevel);
    var wearScore := Wrap8(100 - h.wearLevel);
    var sum := Wrap8(Wrap8(Wrap8(capacityScore * 30) + Wrap8(fragmentationScore * 40)) + Wrap8(wearScore * 30));
    Min(sum / 100, 100)
  }

  /** Free, unfragmented and unworn storage scores 0 under the `u8` arithmetic, instead of 100. */
  lemma PerfectStorageScoresZero(h: StorageHealth)
    requires h.capacity.availableBytes > 0 && h.fragmentationLevel == 0 && h.wearLevel == 0
    ensures HealthScoreAsWritten(h) == 0
    ensures HealthScore(h) == 100
  {
    assert Wrap8(100 * 30) == 184 && Wrap8(100 * 40) == 160;
    assert Wrap8(184 + 160) == 88 && Wrap8(88 + 184) == 16;
  }

  /**
   * The evidently intended `health_score`: the 30/40/30 weighted mean of
   * the capacity, fragmentation and wear scores, without wrapping.
   */
  function HealthScore(h: StorageHealth): (r: u8)
    requires h.fragmentationLevel <= 100 && h.wearLevel <= 100
    ensures r <= 100
    ensures r * 100 <= CapacityScore(h) * 30 + (100 - h.fragmentationLevel) * 40 + (100 - h.wearLevel) * 30 < (r + 1) * 100
  {
    var sum := CapacityScore(h) * 30 + (100 - h.fragmentationLevel) * 40 + (100 - h.wearLevel) * 30;
    DivBounds(sum, 100);
    QuotientAtMost(sum, 100, 100);
    sum / 100
  }

  /** More fragmentation or more wear never raises the score. */
  lemma HealthScoreMonotone(a: StorageHealth, b: StorageHealth)
    requires a.fragmentationLevel <= b.fragmentationLevel <= 100 && a.wearLevel <= b.wearLevel <= 100
    requires CapacityScore(a) >= CapacityScore(b)
    ensures HealthScore(a) >= HealthScore(b)
  {
    var sa := CapacityScore(a) * 30 + (100 - a.fragmentationLevel) * 40 + (100 - a.wearLevel) * 30;
    var sb := CapacityScore(b) * 30 + (100 - b.fragmentationLevel) * 40 + (100 - b.wearLevel) * 30;
    DivMonotone(sb, sa, 100);
  }

  /**
   * `is_healthy`: a score above 70 and no maintenance due. Storage with
   * no free bytes is never healthy, and free storage is healthy exactly
   * while 40 times its fragmentation plus 30 times its wear stays within
   * 2900.
   */
  predicate IsHealthy(h: StorageHealth)
    requires h.fragmentationLevel <= 100 && h.wearLevel <= 100
    ensures IsHealthy(h) <==>
      h.capacity.availableBytes > 0 && h.fragmentationLevel * 40 + h.wearLevel * 30 <= 2900 && !h.needsMaintenance
  {
    HealthScore(h) > 70 && !h.needsMaintenance
  }

  /** The `match` of `status`: the label of a score band. */
  function Band(score: u8): string {
    if score >= 90 then "Excellent"
    else if score >= 70 then "Good"
    else if score >= 50 then "Fair"
    else if score >= 30 then "Poor"
    else "Critical"
  }

  /** `status` as the source computes it, on the wrapping `u8` score. */
  function StatusAsWritten(h: StorageHealth): (r: string)
    ensures r in {"Excellent", "Good", "Fair", "Poor", "Critical"}
    ensures r == "Critical" <==> HealthScoreAsWritten(h) < 30
  {
    Band(HealthScoreAsWritten(h))
  }

  /** As written, perfect storage is labelled "Critical"; the intended score labels it "Excellent". */
  lemma PerfectStorageIsCriticalAsWritten(h: StorageHealth)
    requires h.capacity.availableBytes > 0 && h.fragmentationLevel == 0 && h.wearLevel == 0
    ensures StatusAsWritten(h) == "Critical"
    ensures Status(h) == "Excellent"
  {
    PerfectStorageScoresZero(h);
  }

  /** `status` on the intended score: the label of its band, "Excellent" or "Good" for healthy storage. */
  function Status(h: StorageHealth): (r: string)
    requires h.fragmentationLevel <= 100 && h.wearLevel <= 100
    ensures r in {"Excellent", "Good", "Fair", "Poor", "Critical"}
    ensures r == "Excellent" <==> HealthScore(h) >= 90
    ensures r == "Critical" <==> HealthScore(h) < 30
    ensures IsHealthy(h) ==> r in {"Excellent", "Good"}
  {
    Band(HealthScore(h))
  }

  /** `validate_storage`: an unhealthy report is an `OperationFailed` error. */
  function ValidateStorage(h: StorageHealth): (r: Result<(), StorageErrorKind>)
    requires h.fragmentationLevel <= 100 && h.wearLevel <= 100
    ensures r.Ok? <==> IsHealthy(h)
    ensures r.Err? ==> r.error == OperationFailed("Storage health check failed")
  {
    if !IsHealthy(h) then Err(OperationFailed(ErrorString("Storage health check failed"))) else Ok(())
  }

  /** With the `u8` score, even perfect storage fails validation. */
  lemma PerfectStorageFailsAsWritten(h: StorageHealth)
    requires h.capacity.availableBytes > 0 && h.fragmentationLevel == 0 && h.wearLevel == 0 && !h.needsMaintenance
    ensures !(HealthScoreAsWritten(h) > 70 && !h.needsMaintenance)
    ensures ValidateStorage(h).Ok?
  {
    PerfectStorageScoresZero(h);
  }

  // ----------------------------------------------------------- mock backend

  /** The in-memory backend: up to 32 keys, fixed 64 KiB capacity, operation counters. */
  class MockStorage {
    var data: map<string, seq<u8>>
    const capacity: StorageCapacity
    var stats: StorageStats

    ghost predicate Valid()
      reads this
    {
      |data| <= MOCK_CAPACITY && forall k :: k in data ==> |k| <= MAX_KEY_LEN
    }

    constructor()
      ensures Valid() && data == map[] && stats == NewStats()
      ensures capacity == StorageCapacity(65536, 0, 65536, 4096, 16)
    {
      data := map[];
      capacity := StorageCapacity(65536, 0, 65536, 4096, 16);
      stats := NewStats();
    }

    /**
     * `store`: a key over 64 bytes is `InvalidKey`; a new key when 32 are
     * held is `CapacityExceeded`; otherwise the bytes are inserted (or
     * replace the old ones) and one more write is counted.
     */
    method Store(key: StorageKey, value: StorageValue) returns (r: Result<(), StorageError>)
      requires Valid()
      modifies this
      ensures Valid()
      ensures |key.key| > MAX_KEY_LEN ==> r == Err(InvalidKey)
      ensures |key.key| <= MAX_KEY_LEN && key.key !in old(data) && |old(data)| >= MOCK_CAPACITY ==> r == Err(CapacityExceeded)
      ensures r.Err? ==> data == old(data) && stats == old(stats)
      ensures r.Ok? <==> |key.key| <= MAX_KEY_LEN && (key.key in old(data) || |old(data)| < MOCK_CAPACITY)
      ensures r.Ok? ==> data == old(data)[key.key := value.data]
      ensures r.Ok? ==> stats == old(stats).(totalWrites := Wrap64(old(stats).totalWrites + 1))
    {
      if |key.key| > MAX_KEY_LEN {
        return Err(InvalidKey);
      }
      if key.key !in data && |data| >= MOCK_CAPACITY {
        return Err(CapacityExceeded);
      }
      data := data[key.key := value.data];
      stats := stats.(totalWrites := Wrap64(stats.totalWrites + 1));
      return Ok(());
    }

    /**
     * `retrieve`: `InvalidKey` for a key over 64 bytes, `KeyNotFound` for a
     * missing one; otherwise one more read is counted and the stored bytes
     * come back as a value (`InvalidValue` past 4096 bytes).
     */
    method Retrieve(key: StorageKey) returns (r: Result<StorageValue, StorageError>)
      modifies this
      ensures data == old(data)
      ensures |key.key| > MAX_KEY_LEN ==> r == Err(InvalidKey) && stats == old(stats)
      ensures |key.key| <= MAX_KEY_LEN && key.key !in data ==> r == Err(KeyNotFound) && stats == old(stats)
      ensures |key.key| <= MAX_KEY_LEN && key.key in data ==>
        stats == old(stats).(totalReads := Wrap64(old(stats).totalReads + 1)) &&
        r == (if |data[key.key]| <= MAX_VALUE_SIZE then Ok(StorageValue(data[key.key])) else Err(InvalidValue))
    {
      if |key.key| > MAX_KEY_LEN {
        return Err(InvalidKey);
      }
      if key.key !in data {
        return Err(KeyNotFound);
      }
      var bytes := data[key.key];
      stats := stats.(totalReads := Wrap64(stats.totalReads + 1));
      var v := NewValue(bytes);
      if v.Err? {
        return Err(InvalidValue);
      }
      return v;
    }

    /** `delete`: removes the key and counts one more delete; a missing key is `KeyNotFound`. */
    method Delete(key: StorageKey) returns (r: Result<(), StorageError>)
      requires Valid()
      modifies this
      ensures Valid()
      ensures |key.key| > MAX_KEY_LEN ==> r == Err(InvalidKey)
      ensures |key.key| <= MAX_KEY_LEN && key.key !in old(data) ==> r == Err(KeyNotFound)
      ensures r.Err? ==> data == old(data) && stats == old(stats)
      ensures r.Ok? <==> |key.key| <= MAX_KEY_LEN && key.key in old(data)
      ensures r.Ok? ==> data == old(data) - {key.key}
      ensures r.Ok? ==> stats == old(stats).(totalDeletes := Wrap64(old(stats).totalDeletes + 1))
    {
      if |key.key| > MAX_KEY_LEN {
        return Err(InvalidKey);
      }
      if key.key !in data {
        return Err(KeyNotFound);
      }
      data := data - {key.key};
      stats := stats.(totalDeletes := Wrap64(stats.totalDeletes + 1));
      return Ok(());
    }

    /** `exists` */
    function Exists(key: StorageKey): (r: Result<bool, StorageError>)
      reads this
      ensures r.Err? <==> |key.key| > MAX_KEY_LEN
      ensures r.Ok? ==> (r.value <==> key.key in data)
    {
      if |key.key| > MAX_KEY_LEN then Err(InvalidKey) else Ok(key.key in data)
    }

    /** `list_keys`: the stored keys that start with the prefix (all of them without one); order is not modelled. */
    function ListKeys(prefix: Option<string>): (r: set<string>)
      reads this
      ensures forall k :: k in r <==> k in data && (prefix.None? || StartsWith(k, prefix.value))
      ensures prefix.None? ==> r == data.Keys
    {
      set k | k in data && (prefix.None? || StartsWith(k, prefix.value))
    }

    /** `maintenance`: forgets the failed writes and nothing else. */
    method Maintenance() returns (r: Result<(), StorageError>)
      modifies this
      ensures r == Ok(()) && data == old(data)
      ensures stats == old(stats).(failedWrites := 0)
    {
      stats := stats.(failedWrites := 0);
      return Ok(());
    }

    function GetCapacity(): (r: Result<StorageCapacity, StorageError>)
      ensures r == Ok(capacity)
    {
      Ok(capacity)
    }

    function GetStats(): (r: Result<StorageStats, StorageError>)
      reads this
      ensures r == Ok(stats)
    {
      Ok(stats)
    }
  }

  /** A freshly stored value reads back unchanged from the mock. */
  method StoreThenRetrieve(m: MockStorage, key: StorageKey, value: StorageValue) returns (r: Result<StorageValue, StorageError>)
    requires m.Valid() && |key.key| <= MAX_KEY_LEN && |value.data| <= MAX_VALUE_SIZE
    requires key.key in m.data || |m.data| < MOCK_CAPACITY
    modifies m
    ensures r == Ok(value)
  {
    var s := m.Store(key, value);
    r := m.Retrieve(key);
  }
}
