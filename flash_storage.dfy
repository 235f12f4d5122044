/**
 * The flash storage manager: a fixed table of equal sectors ("regions")
 * laid out from a base address, a key-to-address map, and the access
 * statistics.  The flash itself is simulated, as in the source: writes and
 * reads only count bytes, and a read finds erased (zero) bytes.
 */
module FlashStorage {
  import opened Wrappers
  import opened Ints
  import opened Text
  import opened StorageTraits
  import opened StorageCrate

  const MAX_REGIONS: nat := 16
  const MAX_MAPPED_KEYS: nat := 64
  const CONFIG_SECTORS: nat := 2
  const READ_BUFFER_SIZE: nat := 1024

  datatype FlashConfig = FlashConfig(
    baseAddress: u32, totalSize: u32, sectorSize: u32, reservedSectors: u32,
    wearLevelingEnabled: bool, maxEraseCycles: u32)

  /** `FlashConfig::default`: 64 KiB of 4 KiB sectors at 3 MiB, two reserved, 100000 erases. */
  function DefaultFlashConfig(): (c: FlashConfig)
    ensures c.sectorSize > 0 && c.totalSize / c.sectorSize == 16
    ensures c.baseAddress == 0x300000 && c.wearLevelingEnabled && c.maxEraseCycles == 100000
  {
    FlashConfig(0x300000, 65536, 4096, 2, true, 100000)
  }

  datatype RegionPurpose = Configuration | UserData | WearLeveling | BadBlockTable

  datatype FlashRegion = FlashRegion(
    startAddress: u32, size: u32, purpose: RegionPurpose, eraseCycles: u32, inUse: bool)

  // -------------------------------------------------------------- layout

  /** The number of user-data sectors: sectors minus 2 minus the reserved ones, in wrapping `usize`. */
  function DataSectors(c: FlashConfig): u32
    requires c.sectorSize > 0
  {
    Wrap32(Wrap32(c.totalSize / c.sectorSize - CONFIG_SECTORS) - c.reservedSectors)
  }

  /** Regions 0 and 1 hold configuration, the next `data` user data, the rest wear-levelling space. */
  function PurposeAt(k: nat, data: nat): RegionPurpose {
    if k < CONFIG_SECTORS then Configuration
    else if k < CONFIG_SECTORS + data then UserData
    else WearLeveling
  }

  /** The address `k` sectors past `address`, in wrapping `u32` arithmetic. */
  function AddressAfter(address: nat, k: nat, sectorSize: nat): u32 {
    Wrap32(address + k * sectorSize)
  }

  /** One more sector from a wrapped address is the next wrapped address. */
  lemma AddressNext(address: nat, k: nat, sectorSize: nat)
    ensures Wrap32(AddressAfter(address, k, sectorSize) + sectorSize) == AddressAfter(address, k + 1, sectorSize)
  {
    WrapAdd32(address + k * sectorSize, sectorSize);
    assert address + k * sectorSize + sectorSize == address + (k + 1) * sectorSize;
  }

  /** `k` sectors past the address `j` sectors past `address` is `j + k` sectors past it. */
  lemma AddressSum(address: nat, j: nat, k: nat, sectorSize: nat)
    ensures AddressAfter(AddressAfter(address, j, sectorSize), k, sectorSize) == AddressAfter(address, j + k, sectorSize)
  {
    WrapAdd32(address + j * sectorSize, k * sectorSize);
    assert address + j * sectorSize + k * sectorSize == address + (j + k) * sectorSize;
  }

  /** Region `k` of the layout: one fresh sector at `base + k * sector_size` (wrapping `u32`). */
  function LaidOut(c: FlashConfig, k: nat): FlashRegion
    requires c.sectorSize > 0
  {
    FlashRegion(AddressAfter(c.baseAddress, k, c.sectorSize), c.sectorSize, PurposeAt(k, DataSectors(c)), 0, false)
  }

  /** `count` fresh regions of one purpose, one sector apart from `address`. */
  function Run(address: nat, count: nat, sectorSize: u32, purpose: RegionPurpose): (r: seq<FlashRegion>)
    ensures |r| == count
    ensures forall k :: 0 <= k < count ==> r[k] == FlashRegion(AddressAfter(address, k, sectorSize), sectorSize, purpose, 0, false)
  {
    if count == 0 then []
    else Run(address, count - 1, sectorSize, purpose) + [FlashRegion(AddressAfter(address, count - 1, sectorSize), sectorSize, purpose, 0, false)]
  }

  predicate IsLayout(c: FlashConfig, regions: seq<FlashRegion>)
    requires c.sectorSize > 0
  {
    |regions| == CONFIG_SECTORS + DataSectors(c) + c.reservedSectors &&
    forall k :: 0 <= k < |regions| ==> regions[k] == LaidOut(c, k)
  }

  /** The configuration, user-data and reserved runs, each starting where the previous one ended, make up the layout. */
  lemma ThreeRunsAreLayout(c: FlashConfig, a1: nat, a2: nat)
    requires c.sectorSize > 0
    requires a1 == AddressAfter(c.baseAddress, CONFIG_SECTORS, c.sectorSize)
    requires a2 == AddressAfter(a1, DataSectors(c), c.sectorSize)
    ensures IsLayout(c, Run(c.baseAddress, CONFIG_SECTORS, c.sectorSize, Configuration)
      + Run(a1, DataSectors(c), c.sectorSize, UserData) + Run(a2, c.reservedSectors, c.sectorSize, WearLeveling))
  {
    var data, ss := DataSectors(c), c.sectorSize;
    var run1 := Run(c.baseAddress, CONFIG_SECTORS, ss, Configuration);
    var run2 := Run(a1, data, ss, UserData);
    var run3 := Run(a2, c.reservedSectors, ss, WearLeveling);
    var regions := run1 + run2 + run3;
    forall k | 0 <= k < |regions|
      ensures regions[k] == LaidOut(c, k)
    {
      if k < CONFIG_SECTORS {
        assert regions[k] == run1[k];
      } else if k < CONFIG_SECTORS + data {
        assert regions[k] == run2[k - CONFIG_SECTORS];
        AddressSum(c.baseAddress, CONFIG_SECTORS, k - CONFIG_SECTORS, ss);
      } else {
        assert regions[k] == run3[k - CONFIG_SECTORS - data];
        AddressSum(c.baseAddress, CONFIG_SECTORS, data, ss);
        AddressSum(c.baseAddress, CONFIG_SECTORS + data, k - CONFIG_SECTORS - data, ss);
      }
    }
  }

  // ------------------------------------------------------ region queries

  predicate Fits(r: FlashRegion, size: nat, purpose: RegionPurpose) {
    r.purpose == purpose && !r.inUse && r.size >= size
  }

  /** The first region of the purpose that is free and large enough. */
  function FirstFit(s: seq<FlashRegion>, size: nat, purpose: RegionPurpose): (r: Option<nat>)
    ensures r.Some? ==> r.value < |s| && Fits(s[r.value], size, purpose)
    ensures r.Some? ==> forall j :: 0 <= j < r.value ==> !Fits(s[j], size, purpose)
    ensures r.None? <==> forall j :: 0 <= j < |s| ==> !Fits(s[j], size, purpose)
  {
    if s == [] then None
    else if Fits(s[0], size, purpose) then Some(0)
    else
      var t := FirstFit(s[1..], size, purpose);
      assert forall j :: 1 <= j < |s| ==> s[j] == s[1..][j - 1];
      if t.None? then None else Some(t.value + 1)
  }

  /** The first region that starts at `address`. */
  function FirstAt(s: seq<FlashRegion>, address: u32): (r: Option<nat>)
    ensures r.Some? ==> r.value < |s| && s[r.value].startAddress == address
    ensures r.Some? ==> forall j :: 0 <= j < r.value ==> s[j].startAddress != address
    ensures r.None? <==> forall j :: 0 <= j < |s| ==> s[j].startAddress != address
  {
    if s == [] then None
    else if s[0].startAddress == address then Some(0)
    else
      var t := FirstAt(s[1..], address);
      assert forall j :: 1 <= j < |s| ==> s[j] == s[1..][j - 1];
      if t.None? then None else Some(t.value + 1)
  }

  /** The position of the first zero byte, or the length when there is none. */
  function FirstZero(buffer: seq<u8>): (r: nat)
    ensures r <= |buffer|
    ensures forall j :: 0 <= j < r ==> buffer[j] != 0
    ensures r < |buffer| ==> buffer[r] == 0
  {
    if buffer == [] then 0
    else if buffer[0] == 0 then 0
    else
      assert forall j :: 1 <= j < |buffer| ==> buffer[j] == buffer[1..][j - 1];
      1 + FirstZero(buffer[1..])
  }

  /** Some in-use region starts at `address`. */
  predicate IsLive(s: seq<FlashRegion>, address: u32) {
    exists i :: 0 <= i < |s| && s[i].startAddress == address && s[i].inUse
  }

  function InUseCount(s: seq<FlashRegion>): (r: nat)
    ensures r <= |s|
  {
    if s == [] then 0 else InUseCount(s[..|s| - 1]) + (if s[|s| - 1].inUse then 1 else 0)
  }

  function SumCycles(s: seq<FlashRegion>): nat {
    if s == [] then 0 else SumCycles(s[..|s| - 1]) + s[|s| - 1].eraseCycles
  }

  /** The number of regions erased more often than the budget allows. */
  function BadCount(s: seq<FlashRegion>, max: u32): (r: nat)
    ensures r <= |s|
  {
    if s == [] then 0 else BadCount(s[..|s| - 1], max) + (if s[|s| - 1].eraseCycles > max then 1 else 0)
  }

  /** The bytes `defragment` reclaims: the sizes of the free regions that have been erased. */
  function Reclaimable(s: seq<FlashRegion>): nat {
    if s == [] then 0
    else Reclaimable(s[..|s| - 1]) + (if !s[|s| - 1].inUse && s[|s| - 1].eraseCycles > 0 then s[|s| - 1].size else 0)
  }

  function Defragged(r: FlashRegion): FlashRegion {
    if !r.inUse && r.eraseCycles > 0 then r.(eraseCycles := 0) else r
  }

  /** `get_average_wear_level`: the mean erase count (wrapping `u32` sum), as a capped percentage of the budget. */
  function AverageWear(s: seq<FlashRegion>, max: u32): (r: u8)
    requires s == [] || max > 0
    ensures r <= 100
    ensures s == [] || SumCycles(s) == 0 ==> r == 0
  {
    if s == [] then 0
    else
      var average: nat := Wrap32(SumCycles(s)) / |s|;
      CappedPercent(Wrap32(average * 100), max)
  }

  /** When the erase counts are small enough not to wrap, every region at its budget makes the average wear 100. */
  lemma AllWornAverage(s: seq<FlashRegion>, max: u32)
    requires s != [] && max > 0 && SumCycles(s) * 100 <= U32_MAX
    requires forall i :: 0 <= i < |s| ==> s[i].eraseCycles >= max
    ensures AverageWear(s, max) == 100
  {
    SumAtLeast(s, max);
    FullAverageArith(SumCycles(s), |s|, max);
  }

  /** A non-wrapping sum of at least `max` per region averages to at least `max`, which caps the percentage at 100. */
  lemma FullAverageArith(sum: nat, n: nat, max: nat)
    requires n > 0 && max > 0 && sum >= max * n && sum * 100 <= U32_MAX
    ensures CappedPercent(Wrap32(Wrap32(sum) / n * 100), max) == 100
  {
    assert Wrap32(sum) == sum;
    var average: nat := sum / n;
    DivAtLeast(sum, n, max);
    DivBounds(sum, n);
    MulLe(1, n, average);
    assert average <= sum;
    assert Wrap32(average * 100) == average * 100;
    MulLe(max, average, 100);
  }

  lemma {:induction false} SumAtLeast(s: seq<FlashRegion>, max: u32)
    requires forall i :: 0 <= i < |s| ==> s[i].eraseCycles >= max
    ensures SumCycles(s) >= max * |s|
    decreases |s|
  {
    if s != [] {
      SumAtLeast(s[..|s| - 1], max);
      assert max * (|s| - 1) + max == max * |s|;
    }
  }

  // ---------------------------------------------------- wear candidates

  /**
   * The running maximum of the user-data erase counts over the first `n`
   * regions, starting from (index 0, count 0) and replaced only by a
   * strictly larger count.
   */
  function MaxUserPrefix(s: seq<FlashRegion>, n: nat): (r: (nat, u32))
    requires n <= |s|
    ensures r.0 < n || r.0 == 0
  {
    if n == 0 then (0, 0)
    else
      var p := MaxUserPrefix(s, n - 1);
      if s[n - 1].purpose == UserData && s[n - 1].eraseCycles > p.1 then (n - 1, s[n - 1].eraseCycles) else p
  }

  /** The running maximum bounds every user-data count seen and, once positive, is the first region holding it. */
  lemma {:induction false} MaxUserPrefixIsMax(s: seq<FlashRegion>, n: nat)
    requires n <= |s|
    ensures forall j :: 0 <= j < n && s[j].purpose == UserData ==> s[j].eraseCycles <= MaxUserPrefix(s, n).1
    ensures MaxUserPrefix(s, n).1 > 0 ==> (MaxUserPrefix(s, n).0 < n &&
      s[MaxUserPrefix(s, n).0].purpose == UserData && s[MaxUserPrefix(s, n).0].eraseCycles == MaxUserPrefix(s, n).1)
    ensures MaxUserPrefix(s, n).1 > 0 ==> forall j :: 0 <= j < MaxUserPrefix(s, n).0 && s[j].purpose == UserData ==>
      s[j].eraseCycles < MaxUserPrefix(s, n).1
    ensures MaxUserPrefix(s, n).1 == 0 ==> MaxUserPrefix(s, n).0 == 0
  {
    if n > 0 {
      MaxUserPrefixIsMax(s, n - 1);
    }
  }

  /** The running minimum, from (index 0, `u32::MAX`), replaced only by a strictly smaller count. */
  function MinUserPrefix(s: seq<FlashRegion>, n: nat): (r: (nat, u32))
    requires n <= |s|
    ensures r.0 < n || r.0 == 0
  {
    if n == 0 then (0, U32_MAX)
    else
      var p := MinUserPrefix(s, n - 1);
      if s[n - 1].purpose == UserData && s[n - 1].eraseCycles < p.1 then (n - 1, s[n - 1].eraseCycles) else p
  }

  /** The running minimum is below every user-data count seen and, once under `u32::MAX`, is the first region holding it. */
  lemma {:induction false} MinUserPrefixIsMin(s: seq<FlashRegion>, n: nat)
    requires n <= |s|
    ensures forall j :: 0 <= j < n && s[j].purpose == UserData ==> MinUserPrefix(s, n).1 <= s[j].eraseCycles
    ensures MinUserPrefix(s, n).1 < U32_MAX ==> (MinUserPrefix(s, n).0 < n &&
      s[MinUserPrefix(s, n).0].purpose == UserData && s[MinUserPrefix(s, n).0].eraseCycles == MinUserPrefix(s, n).1)
    ensures MinUserPrefix(s, n).1 < U32_MAX ==> forall j :: 0 <= j < MinUserPrefix(s, n).0 && s[j].purpose == UserData ==>
      s[j].eraseCycles > MinUserPrefix(s, n).1
    ensures MinUserPrefix(s, n).1 == U32_MAX ==> MinUserPrefix(s, n).0 == 0
  {
    if n > 0 {
      MinUserPrefixIsMin(s, n - 1);
    }
  }

  /**
   * `find_wear_leveling_candidates`: the most- and least-erased user-data
   * regions when their counts differ (wrapping `u32` difference) by more
   * than a tenth of the budget.
   */
  function WearCandidates(s: seq<FlashRegion>, max: u32): Result<(nat, nat), StorageErrorKind> {
    var hi := MaxUserPrefix(s, |s|);
    var lo := MinUserPrefix(s, |s|);
    if Wrap32(hi.1 - lo.1) > max / 10 then Ok((hi.0, lo.0))
    else Err(WearLevelingErrorKind(ErrorString("No wear leveling needed")))
  }

  predicate HasUserData(s: seq<FlashRegion>) {
    exists i :: 0 <= i < |s| && s[i].purpose == UserData
  }

  predicate IsFirstMaxUser(s: seq<FlashRegion>, i: int) {
    0 <= i < |s| && s[i].purpose == UserData &&
    (forall j :: 0 <= j < |s| && s[j].purpose == UserData ==> s[j].eraseCycles <= s[i].eraseCycles) &&
    (forall j :: 0 <= j < i && s[j].purpose == UserData ==> s[j].eraseCycles < s[i].eraseCycles)
  }

  predicate IsFirstMinUser(s: seq<FlashRegion>, i: int) {
    0 <= i < |s| && s[i].purpose == UserData &&
    (forall j :: 0 <= j < |s| && s[j].purpose == UserData ==> s[i].eraseCycles <= s[j].eraseCycles) &&
    (forall j :: 0 <= j < i && s[j].purpose == UserData ==> s[j].eraseCycles > s[i].eraseCycles)
  }

  /**
   * With user-data regions, candidates are offered exactly when the spread
   * of their erase counts exceeds a tenth of the budget, and they are the
   * first most-erased and the first least-erased of them.
   */
  lemma CandidatesAreExtremes(s: seq<FlashRegion>, max: u32)
    requires HasUserData(s)
    ensures WearCandidates(s, max).Ok? ==> (IsFirstMaxUser(s, WearCandidates(s, max).value.0) &&
      IsFirstMinUser(s, WearCandidates(s, max).value.1))
    ensures WearCandidates(s, max).Ok? <==>
      exists i, j :: IsFirstMaxUser(s, i) && IsFirstMinUser(s, j) && s[i].eraseCycles - s[j].eraseCycles > max / 10
  {
    var hi := MaxUserPrefix(s, |s|);
    var lo := MinUserPrefix(s, |s|);
    MaxUserPrefixIsMax(s, |s|);
    MinUserPrefixIsMin(s, |s|);
    var k :| 0 <= k < |s| && s[k].purpose == UserData;
    assert lo.1 <= s[k].eraseCycles <= hi.1;
    if WearCandidates(s, max).Ok? {
      assert hi.1 > 0 && lo.1 < U32_MAX;
    }
    if hi.1 > 0 && lo.1 < U32_MAX {
      assert IsFirstMaxUser(s, hi.0) && IsFirstMinUser(s, lo.0);
      forall i, j | IsFirstMaxUser(s, i) && IsFirstMinUser(s, j)
        ensures s[i].eraseCycles == hi.1 && s[j].eraseCycles == lo.1
      {
      }
    } else if hi.1 == 0 {
      forall i, j | IsFirstMaxUser(s, i) && IsFirstMinUser(s, j)
        ensures s[i].eraseCycles - s[j].eraseCycles <= max / 10
      {
        assert s[i].eraseCycles <= hi.1;
      }
    } else {
      forall i, j | IsFirstMaxUser(s, i) && IsFirstMinUser(s, j)
        ensures s[i].eraseCycles - s[j].eraseCycles <= max / 10
      {
        assert s[j].eraseCycles >= lo.1;
      }
    }
  }

  /** Without user-data regions the difference `0 - u32::MAX` wraps to 1: (0, 0) is offered for a budget under 10. */
  lemma NoUserDataCandidates(s: seq<FlashRegion>, max: u32)
    requires !HasUserData(s)
    ensures WearCandidates(s, max) == (if max < 10 then Ok((0, 0)) else Err(WearLevelingErrorKind("No wear leveling needed")))
  {
    var hi := MaxUserPrefix(s, |s|);
    var lo := MinUserPrefix(s, |s|);
    MaxUserPrefixIsMax(s, |s|);
    MinUserPrefixIsMin(s, |s|);
    assert hi.1 == 0 && lo.1 == U32_MAX;
    assert Wrap32(0 - U32_MAX) == 1;
  }

  /** Candidate indices name regions of the table, whenever it has any. */
  lemma CandidatesInRange(s: seq<FlashRegion>, max: u32)
    requires |s| > 0 && WearCandidates(s, max).Ok?
    ensures WearCandidates(s, max).value.0 < |s| && WearCandidates(s, max).value.1 < |s|
  {
  }

  /**
   * `check_wear_leveling` on a region table: when enabled and the average
   * wear is above the threshold, the least-worn candidate gets one more
   * erase; no candidate is an error.
   */
  function WearCheck(c: FlashConfig, threshold: u8, s: seq<FlashRegion>): (r: (Result<(), StorageErrorKind>, seq<FlashRegion>))
    requires !c.wearLevelingEnabled || c.maxEraseCycles > 0
    ensures |r.1| == |s|
    ensures forall i :: 0 <= i < |s| ==> r.1[i] == s[i] || r.1[i] == s[i].(eraseCycles := Wrap32(s[i].eraseCycles + 1))
    ensures r.0.Err? ==> r.1 == s
  {
    if !c.wearLevelingEnabled || AverageWear(s, c.maxEraseCycles) <= threshold then (Ok(()), s)
    else
      var cand := WearCandidates(s, c.maxEraseCycles);
      if cand.Err? then (Err(cand.error), s)
      else
        var (high, low) := cand.value;
        if high < |s| && low < |s| then (Ok(()), s[low := s[low].(eraseCycles := Wrap32(s[low].eraseCycles + 1))])
        else (Err(WearLevelingErrorKind(ErrorString("Invalid region indices"))), s)
  }

  // ----------------------------------------------------------- manager

  class FlashStorageManager {
    const config: FlashConfig
    var regions: seq<FlashRegion>
    var keyMap: map<string, u32>
    var stats: StorageStats
    const transactionActive: bool
    const wearLevelThreshold: u8

    /** The bounded containers hold what they can hold. */
    ghost predicate Bounded()
      reads this
    {
      config.sectorSize > 0 && |regions| <= MAX_REGIONS && |keyMap| <= MAX_MAPPED_KEYS &&
      forall k :: k in keyMap ==> |k| <= MAX_KEY_LEN
    }

    /** A manager after `new`: bounded, with at least the two configuration regions. */
    ghost predicate Valid()
      reads this
    {
      Bounded() && |regions| >= CONFIG_SECTORS
    }

    /** The divisions by the erase budget that wear levelling performs are defined. */
    predicate WearMathDefined()
      reads this
    {
      !config.wearLevelingEnabled || config.maxEraseCycles > 0
    }

    constructor Empty(c: FlashConfig)
      requires c.sectorSize > 0
      ensures Bounded() && config == c && regions == [] && keyMap == map[] && stats == NewStats()
      ensures !transactionActive && wearLevelThreshold == 80
    {
      config := c;
      regions := [];
      keyMap := map[];
      stats := NewStats();
      transactionActive := false;
      wearLevelThreshold := 80;
    }

    /**
     * One loop of `initialize_regions`: pushes `count` fresh regions of one
     * purpose, one sector apart from `address`; the 17th push fails.
     */
    method PushRegions(count: nat, purpose: RegionPurpose, address: u32) returns (ok: bool, next: u32)
      requires Bounded()
      modifies this
      ensures Bounded() && keyMap == old(keyMap) && stats == old(stats)
      ensures ok <==> |old(regions)| + count <= MAX_REGIONS
      ensures ok ==> regions == old(regions) + Run(address, count, config.sectorSize, purpose)
      ensures ok ==> next == AddressAfter(address, count, config.sectorSize)
    {
      var current := address;
      for i := 0 to count
        invariant Bounded() && keyMap == old(keyMap) && stats == old(stats)
        invariant regions == old(regions) + Run(address, i, config.sectorSize, purpose)
        invariant current == AddressAfter(address, i, config.sectorSize)
      {
        if |regions| >= MAX_REGIONS {
          return false, current;
        }
        regions := regions + [FlashRegion(current, config.sectorSize, purpose, 0, false)];
        AddressNext(address, i, config.sectorSize);
        current := Wrap32(current + config.sectorSize);
      }
      return true, current;
    }

    /** `initialize_regions`: 2 configuration, then the user-data, then the reserved regions. */
    method InitializeRegions() returns (r: Result<(), StorageErrorKind>)
      requires Bounded() && regions == []
      modifies this
      ensures Bounded() && keyMap == old(keyMap) && stats == old(stats)
      ensures r.Ok? <==> CONFIG_SECTORS + DataSectors(config) + config.reservedSectors <= MAX_REGIONS
      ensures r.Err? ==> r.error == OperationFailed("Failed to add region")
      ensures r.Ok? ==> IsLayout(config, regions)
    {
      var data := DataSectors(config);
      var ok1, a1 := PushRegions(CONFIG_SECTORS, Configuration, config.baseAddress);
      var ok2, a2 := PushRegions(data, UserData, a1);
      if !ok2 {
        return Err(OperationFailed(ErrorString("Failed to add region")));
      }
      var ok3, a3 := PushRegions(config.reservedSectors, WearLeveling, a2);
      if !ok3 {
        return Err(OperationFailed(ErrorString("Failed to add region")));
      }
      ThreeRunsAreLayout(config, a1, a2);
      return Ok(());
    }

    /**
     * `FlashStorageManager::new`: lays out the regions (a table of more than
     * 16 is an `OperationFailed` error) with an empty key map, fresh
     * statistics and a wear threshold of 80.  A zero sector size panics.
     */
    static method New(c: FlashConfig) returns (r: Result<FlashStorageManager, StorageErrorKind>)
      requires c.sectorSize > 0
      ensures r.Ok? <==> CONFIG_SECTORS + DataSectors(c) + c.reservedSectors <= MAX_REGIONS
      ensures r.Err? ==> r.error == OperationFailed("Failed to add region")
      ensures r.Ok? ==> fresh(r.value) && r.value.Valid() && r.value.config == c && IsLayout(c, r.value.regions)
      ensures r.Ok? ==> r.value.keyMap == map[] && r.value.stats == NewStats()
      ensures r.Ok? ==> !r.value.transactionActive && r.value.wearLevelThreshold == 80
    {
      var m := new FlashStorageManager.Empty(c);
      var init := m.InitializeRegions();
      if init.Err? {
        return Err(init.error);
      }
      return Ok(m);
    }

    /** `find_available_region`: the loop over the table, stopping at the first fit. */
    method FindAvailableRegion(size: nat, purpose: RegionPurpose) returns (r: Option<nat>)
      ensures r == FirstFit(regions, size, purpose)
    {
      for i := 0 to |regions|
        invariant forall j :: 0 <= j < i ==> !Fits(regions[j], size, purpose)
      {
        if Fits(regions[i], size, purpose) {
          return Some(i);
        }
      }
      return None;
    }

    /** `find_wear_leveling_candidates`: one pass keeping the running maximum and minimum. */
    method FindWearLevelingCandidates() returns (r: Result<(nat, nat), StorageErrorKind>)
      ensures r == WearCandidates(regions, config.maxEraseCycles)
    {
      var highIndex: nat, lowIndex: nat := 0, 0;
      var maxCycles: u32, minCycles: u32 := 0, U32_MAX;
      for i := 0 to |regions|
        invariant (highIndex, maxCycles) == MaxUserPrefix(regions, i)
        invariant (lowIndex, minCycles) == MinUserPrefix(regions, i)
      {
        if regions[i].purpose == UserData {
          if regions[i].eraseCycles > maxCycles {
            maxCycles := regions[i].eraseCycles;
            highIndex := i;
          }
          if regions[i].eraseCycles < minCycles {
            minCycles := regions[i].eraseCycles;
            lowIndex := i;
          }
        }
      }
      if Wrap32(maxCycles - minCycles) > config.maxEraseCycles / 10 {
        return Ok((highIndex, lowIndex));
      }
      return Err(WearLevelingErrorKind(ErrorString("No wear leveling needed")));
    }

    /** `move_region_data`: the simulated move costs the target region one erase. */
    method MoveRegionData(from: nat, to: nat) returns (r: Result<(), StorageErrorKind>)
      requires Bounded()
      modifies this
      ensures Bounded() && keyMap == old(keyMap) && stats == old(stats)
      ensures from < |old(regions)| && to < |old(regions)| ==> (r == Ok(()) &&
        regions == old(regions)[to := old(regions)[to].(eraseCycles := Wrap32(old(regions)[to].eraseCycles + 1))])
      ensures !(from < |old(regions)| && to < |old(regions)|) ==>
        (r == Err(WearLevelingErrorKind("Invalid region indices")) && regions == old(regions))
    {
      if from < |regions| && to < |regions| {
        regions := regions[to := regions[to].(eraseCycles := Wrap32(regions[to].eraseCycles + 1))];
        return Ok(());
      }
      return Err(WearLevelingErrorKind(ErrorString("Invalid region indices")));
    }

    /** `check_wear_leveling` together with `perform_wear_leveling`. */
    method CheckWearLeveling() returns (r: Result<(), StorageErrorKind>)
      requires Bounded() && WearMathDefined()
      modifies this
      ensures Bounded() && keyMap == old(keyMap) && stats == old(stats)
      ensures (r, regions) == WearCheck(config, wearLevelThreshold, old(regions))
    {
      if !config.wearLevelingEnabled {
        return Ok(());
      }
      if AverageWear(regions, config.maxEraseCycles) > wearLevelThreshold {
        var candidates := FindWearLevelingCandidates();
        if candidates.Err? {
          return Err(candidates.error);
        }
        var (high, low) := candidates.value;
        r := MoveRegionData(high, low);
        return r;
      }
      return Ok(());
    }

    /** `erase_sector`: one more erase of the region, counted in the statistics. */
    method EraseSector(index: nat) returns (r: Result<(), StorageErrorKind>)
      requires Bounded()
      modifies this
      ensures Bounded() && keyMap == old(keyMap)
      ensures index >= |old(regions)| ==> (r == Err(OperationFailed("Invalid region index")) &&
        regions == old(regions) && stats == old(stats))
      ensures index < |old(regions)| ==> (r == Ok(()) &&
        regions == old(regions)[index := old(regions)[index].(eraseCycles := Wrap32(old(regions)[index].eraseCycles + 1))] &&
        stats == old(stats).(eraseCycles := Wrap64(old(stats).eraseCycles + 1)))
    {
      if index >= |regions| {
        return Err(OperationFailed(ErrorString("Invalid region index")));
      }
      regions := regions[index := regions[index].(eraseCycles := Wrap32(regions[index].eraseCycles + 1))];
      stats := stats.(eraseCycles := Wrap64(stats.eraseCycles + 1));
      return Ok(());
    }

    /**
     * `store`: takes the first free user-data region large enough for the
     * value (none is `CapacityExceeded`), counts the simulated write, maps
     * the key to the region's start, marks the region in use, then runs
     * the wear check, whose failure is reported as `WearLevelingError`
     * although the value is stored.
     */
    method Store(key: StorageKey, value: StorageValue) returns (r: Result<(), StorageError>)
      requires Bounded() && WearMathDefined()
      modifies this
      ensures Bounded()
      ensures FirstFit(old(regions), |value.data|, UserData).None? ==>
        (r == Err(CapacityExceeded) && regions == old(regions) && keyMap == old(keyMap) && stats == old(stats))
      ensures FirstFit(old(regions), |value.data|, UserData).Some? ==> stats == old(stats).(
        bytesWritten := Wrap64(old(stats).bytesWritten + |value.data|),
        totalWrites := Wrap64(old(stats).totalWrites + 1))
      ensures FirstFit(old(regions), |value.data|, UserData).Some? && |key.key| > MAX_KEY_LEN ==>
        (r == Err(InvalidKey) && regions == old(regions) && keyMap == old(keyMap))
      ensures (FirstFit(old(regions), |value.data|, UserData).Some? && |key.key| <= MAX_KEY_LEN &&
        key.key !in old(keyMap) && |old(keyMap)| >= MAX_MAPPED_KEYS) ==>
        (r == Err(CapacityExceeded) && regions == old(regions) && keyMap == old(keyMap))
      ensures (FirstFit(old(regions), |value.data|, UserData).Some? && |key.key| <= MAX_KEY_LEN &&
        (key.key in old(keyMap) || |old(keyMap)| < MAX_MAPPED_KEYS)) ==>
        (var i := FirstFit(old(regions), |value.data|, UserData).value;
         var check := WearCheck(config, wearLevelThreshold, old(regions)[i := old(regions)[i].(inUse := true)]);
         keyMap == old(keyMap)[key.key := old(regions)[i].startAddress] && regions == check.1 &&
         r == (if check.0.Ok? then Ok(()) else Err(WearLevelingError)))
    {
      var index := FindAvailableRegion(|value.data|, UserData);
      if index.None? {
        return Err(CapacityExceeded);
      }
      var address := regions[index.value].startAddress;
      stats := stats.(bytesWritten := Wrap64(stats.bytesWritten + |value.data|),
                      totalWrites := Wrap64(stats.totalWrites + 1));
      if |key.key| > MAX_KEY_LEN {
        return Err(InvalidKey);
      }
      if key.key !in keyMap && |keyMap| >= MAX_MAPPED_KEYS {
        return Err(CapacityExceeded);
      }
      keyMap := keyMap[key.key := address];
      regions := regions[index.value := regions[index.value].(inUse := true)];
      var check := CheckWearLeveling();
      if check.Err? {
        return Err(WearLevelingError);
      }
      return Ok(());
    }

    /**
     * `retrieve`: a mapped key's region is read into a zeroed 1024-byte
     * buffer; the simulated read leaves it erased, so the value is the
     * bytes before the first zero: none.
     */
    method Retrieve(key: StorageKey) returns (r: Result<StorageValue, StorageError>)
      modifies this
      ensures regions == old(regions) && keyMap == old(keyMap)
      ensures |key.key| > MAX_KEY_LEN ==> r == Err(InvalidKey) && stats == old(stats)
      ensures |key.key| <= MAX_KEY_LEN && key.key !in keyMap ==> r == Err(KeyNotFound) && stats == old(stats)
      ensures |key.key| <= MAX_KEY_LEN && key.key in keyMap ==> (r == Ok(StorageValue([])) &&
        stats == old(stats).(bytesRead := Wrap64(old(stats).bytesRead + READ_BUFFER_SIZE),
                             totalReads := Wrap64(old(stats).totalReads + 1)))
    {
      if |key.key| > MAX_KEY_LEN {
        return Err(InvalidKey);
      }
      if key.key !in keyMap {
        return Err(KeyNotFound);
      }
      var buffer: seq<u8> := seq(READ_BUFFER_SIZE, _ => 0);
      stats := stats.(bytesRead := Wrap64(stats.bytesRead + |buffer|), totalReads := Wrap64(stats.totalReads + 1));
      var dataLen := FirstZero(buffer);
      r := NewValue(buffer[..dataLen]);
    }

    /**
     * `delete`: unmaps the key, frees the first region starting at its
     * address and counts one more delete; a missing key is `KeyNotFound`.
     */
    method Delete(key: StorageKey) returns (r: Result<(), StorageError>)
      requires Bounded()
      modifies this
      ensures Bounded()
      ensures |key.key| > MAX_KEY_LEN ==> r == Err(InvalidKey)
      ensures |key.key| <= MAX_KEY_LEN && key.key !in old(keyMap) ==> r == Err(KeyNotFound)
      ensures r.Err? ==> regions == old(regions) && keyMap == old(keyMap) && stats == old(stats)
      ensures r.Ok? <==> |key.key| <= MAX_KEY_LEN && key.key in old(keyMap)
      ensures r.Ok? ==> keyMap == old(keyMap) - {key.key}
      ensures r.Ok? ==> stats == old(stats).(totalDeletes := Wrap64(old(stats).totalDeletes + 1))
      ensures r.Ok? ==> (var at := FirstAt(old(regions), old(keyMap)[key.key]);
        regions == if at.Some? then old(regions)[at.value := old(regions)[at.value].(inUse := false)] else old(regions))
    {
      if |key.key| > MAX_KEY_LEN {
        return Err(InvalidKey);
      }
      if key.key !in keyMap {
        return Err(KeyNotFound);
      }
      var address := keyMap[key.key];
      keyMap := keyMap - {key.key};
      var i := 0;
      while i < |regions|
        invariant 0 <= i <= |regions| && regions == old(regions)
        invariant forall j :: 0 <= j < i ==> regions[j].startAddress != address
      {
        if regions[i].startAddress == address {
          regions := regions[i := regions[i].(inUse := false)];
          break;
        }
        i := i + 1;
      }
      stats := stats.(totalDeletes := Wrap64(stats.totalDeletes + 1));
      return Ok(());
    }

    /** `exists` */
    function Exists(key: StorageKey): (r: Result<bool, StorageError>)
      reads this
      ensures r.Err? <==> |key.key| > MAX_KEY_LEN
      ensures r.Ok? ==> (r.value <==> key.key in keyMap)
    {
      if |key.key| > MAX_KEY_LEN then Err(InvalidKey) else Ok(key.key in keyMap)
    }

    /** `list_keys`: the mapped keys with the prefix; order is not modelled. */
    function ListKeys(prefix: Option<string>): (r: set<string>)
      reads this
      ensures forall k :: k in r <==> k in keyMap && (prefix.None? || StartsWith(k, prefix.value))
    {
      set k | k in keyMap && (prefix.None? || StartsWith(k, prefix.value))
    }

    /** `get_capacity`: the in-use regions count as used, one sector each (wrapping `usize`). */
    function GetCapacity(): (r: Result<StorageCapacity, StorageError>)
      reads this
      requires config.sectorSize > 0
      ensures r.Ok? && r.value.totalBytes == config.totalSize && r.value.sectorSize == config.sectorSize
      ensures InUseCount(regions) * config.sectorSize <= U32_MAX ==> r.value.usedBytes == InUseCount(regions) * config.sectorSize
      ensures r.value.availableBytes == SatSub(config.totalSize, r.value.usedBytes)
    {
      Ok(NewCapacity(config.totalSize, Wrap32(InUseCount(regions) * config.sectorSize), config.sectorSize))
    }

    function GetStats(): (r: Result<StorageStats, StorageError>)
      reads this
      ensures r == Ok(stats)
    {
      Ok(stats)
    }

    /**
     * `garbage_collect`: drops every mapping whose address is not the start
     * of an in-use region and returns how many were dropped.
     */
    method GarbageCollect() returns (collected: nat)
      requires Bounded()
      modifies this
      ensures Bounded() && regions == old(regions) && stats == old(stats)
      ensures forall k :: k in keyMap <==> k in old(keyMap) && IsLive(regions, old(keyMap)[k])
      ensures forall k :: k in keyMap ==> keyMap[k] == old(keyMap)[k]
      ensures collected == |old(keyMap)| - |keyMap|
    {
      var pending := keyMap.Keys;
      var toRemove: set<string> := {};
      while pending != {}
        invariant pending <= keyMap.Keys && toRemove <= keyMap.Keys && pending !! toRemove
        invariant forall k :: k in keyMap && k !in pending ==> (k in toRemove <==> !IsLive(regions, keyMap[k]))
        decreases |pending|
      {
        var k :| k in pending;
        if !IsLive(regions, keyMap[k]) {
          toRemove := toRemove + {k};
        }
        pending := pending - {k};
      }
      var kept := keyMap - toRemove;
      assert kept.Keys == keyMap.Keys - toRemove;
      CardinalityOfDifference(keyMap.Keys, toRemove);
      keyMap := kept;
      collected := |toRemove|;
    }

    static lemma CardinalityOfDifference(a: set<string>, b: set<string>)
      requires b <= a
      ensures |a - b| == |a| - |b|
    {
      assert a == (a - b) + b;
    }

    /** `maintenance`: garbage collection, then the wear check (its failure is `WearLevelingError`). */
    method Maintenance() returns (r: Result<(), StorageError>)
      requires Bounded() && WearMathDefined()
      modifies this
      ensures Bounded() && stats == old(stats)
      ensures forall k :: k in keyMap <==> k in old(keyMap) && IsLive(old(regions), old(keyMap)[k])
      ensures forall k :: k in keyMap ==> keyMap[k] == old(keyMap)[k]
      ensures (r.Ok?, regions) == (WearCheck(config, wearLevelThreshold, old(regions)).0.Ok?,
                                   WearCheck(config, wearLevelThreshold, old(regions)).1)
      ensures r.Err? ==> r.error == WearLevelingError
    {
      var collected := GarbageCollect();
      var check := CheckWearLeveling();
      if check.Err? {
        return Err(WearLevelingError);
      }
      return Ok(());
    }

    /** `defragment`: resets the erase count of every free, erased region and sums their sizes (wrapping `usize`). */
    method Defragment() returns (reclaimed: u32)
      requires Bounded()
      modifies this
      ensures Bounded() && keyMap == old(keyMap) && stats == old(stats)
      ensures |regions| == |old(regions)| && forall i :: 0 <= i < |regions| ==> regions[i] == Defragged(old(regions)[i])
      ensures reclaimed == Wrap32(Reclaimable(old(regions)))
    {
      reclaimed := 0;
      for i := 0 to |regions|
        invariant Bounded() && keyMap == old(keyMap) && stats == old(stats) && |regions| == |old(regions)|
        invariant forall j :: 0 <= j < i ==> regions[j] == Defragged(old(regions)[j])
        invariant forall j :: i <= j < |regions| ==> regions[j] == old(regions)[j]
        invariant reclaimed == Wrap32(Reclaimable(old(regions)[..i]))
      {
        assert old(regions)[..i + 1][..i] == old(regions)[..i];
        if !regions[i].inUse && regions[i].eraseCycles > 0 {
          WrapAdd32(Reclaimable(old(regions)[..i]), regions[i].size);
          reclaimed := Wrap32(reclaimed + regions[i].size);
          regions := regions[i := regions[i].(eraseCycles := 0)];
        }
      }
      assert old(regions)[..|regions|] == old(regions);
    }

    /** `verify_integrity`: the simplified check reports no corrupted key. */
    function VerifyIntegrity(): (r: seq<StorageKey>)
      ensures |r| == 0
    {
      []
    }

    /** `repair_data`: every listed key counts as repaired. */
    method RepairData(keys: seq<StorageKey>) returns (repaired: nat)
      ensures repaired == |keys|
    {
      repaired := 0;
      for i := 0 to |keys|
        invariant repaired == i
      {
        repaired := repaired + 1;
      }
    }

    /** `get_fragmentation_level`: above 80% regions in use, the free share; otherwise 0. */
    function FragmentationLevel(): (r: u8)
      reads this
      ensures r <= 20
      ensures |regions| == 0 ==> r == 0
      ensures |regions| > 0 ==> var usage := InUseCount(regions) * 100 / |regions|;
        r == (if usage > 80 then 100 - usage else 0)
    {
      if |regions| == 0 then 0
      else
        var usage: nat := InUseCount(regions) * 100 / |regions|;
        MulLe(InUseCount(regions), |regions|, 100);
        QuotientAtMost(InUseCount(regions) * 100, |regions|, 100);
        if usage > 80 then Wrap8(100 - usage) else 0
    }

    /**
     * `needs_maintenance`: fragmentation above 20 or average wear above
     * 70. The fragmentation level never exceeds 20, so only the wear
     * decides, and a manager without regions never needs maintenance.
     */
    predicate NeedsMaintenance()
      reads this
      requires regions == [] || config.maxEraseCycles > 0
      ensures NeedsMaintenance() <==> AverageWearLevel() > 70
      ensures regions == [] ==> !NeedsMaintenance()
    {
      FragmentationLevel() > 20 || AverageWearLevel() > 70
    }

    /** `get_wear_level`: a region's erases as a capped percentage of the budget; 0 out of range. */
    function WearLevel(region: nat): (r: u8)
      reads this
      requires region >= |regions| || config.maxEraseCycles > 0
      ensures r <= 100
      ensures region >= |regions| ==> r == 0
      ensures region < |regions| && regions[region].eraseCycles * 100 <= U32_MAX ==>
        (r == 100 <==> regions[region].eraseCycles >= config.maxEraseCycles)
    {
      if region < |regions| then
        WearPercentFacts(regions[region].eraseCycles, config.maxEraseCycles);
        CappedPercent(Wrap32(regions[region].eraseCycles * 100), config.maxEraseCycles)
      else 0
    }

    function AverageWearLevel(): (r: u8)
      reads this
      requires regions == [] || config.maxEraseCycles > 0
      ensures r == AverageWear(regions, config.maxEraseCycles)
    {
      AverageWear(regions, config.maxEraseCycles)
    }

    /** `level_wear`: with candidates, the least-worn one gets one more erase. */
    method LevelWear() returns (r: Result<(), StorageError>)
      requires Valid()
      modifies this
      ensures Valid() && keyMap == old(keyMap) && stats == old(stats) && r == Ok(())
      ensures var cand := WearCandidates(old(regions), config.maxEraseCycles);
        regions == if cand.Ok? then old(regions)[cand.value.1 := old(regions)[cand.value.1].(
          eraseCycles := Wrap32(old(regions)[cand.value.1].eraseCycles + 1))] else old(regions)
    {
      var candidates := FindWearLevelingCandidates();
      if candidates.Ok? {
        CandidatesInRange(regions, config.maxEraseCycles);
        var low := candidates.value.1;
        regions := regions[low := regions[low].(eraseCycles := Wrap32(regions[low].eraseCycles + 1))];
      }
      return Ok(());
    }

    /** `get_bad_block_count`: the regions erased more often than the budget. */
    function BadBlockCount(): (r: nat)
      reads this
      ensures r == BadCount(regions, config.maxEraseCycles) && r <= |regions|
    {
      BadCount(regions, config.maxEraseCycles)
    }

    /**
     * `mark_bad_block`: sets the erase count one past the budget (wrapping
     * `u32`) and frees the region; an out-of-range block is `InvalidValue`.
     */
    method MarkBadBlock(block: nat) returns (r: Result<(), StorageError>)
      requires Bounded()
      modifies this
      ensures Bounded() && keyMap == old(keyMap) && stats == old(stats)
      ensures block >= |old(regions)| ==> r == Err(InvalidValue) && regions == old(regions)
      ensures block < |old(regions)| ==> (r == Ok(()) &&
        regions == old(regions)[block := old(regions)[block].(eraseCycles := Wrap32(config.maxEraseCycles + 1), inUse := false)])
      ensures block < |old(regions)| && config.maxEraseCycles < U32_MAX ==> regions[block].eraseCycles > config.maxEraseCycles
    {
      if block < |regions| {
        regions := regions[block := regions[block].(eraseCycles := Wrap32(config.maxEraseCycles + 1), inUse := false)];
        return Ok(());
      }
      return Err(InvalidValue);
    }

    /** `get_remaining_lifetime`: 100 minus the average wear. */
    function RemainingLifetime(): (r: u8)
      reads this
      requires regions == [] || config.maxEraseCycles > 0
      ensures r + AverageWearLevel() == 100
    {
      SatSub(100, AverageWearLevel())
    }
  }

  /** Without wrap-around, `min(cycles * 100 / max, 100)` is 100 exactly when the budget is used up. */
  lemma WearPercentFacts(cycles: nat, max: nat)
    requires max > 0
    ensures cycles * 100 <= U32_MAX ==> (CappedPercent(Wrap32(cycles * 100), max) == 100 <==> cycles >= max)
  {
    if cycles * 100 <= U32_MAX {
      if cycles >= max {
        MulLe(max, cycles, 100);
      } else {
        MulLe(cycles + 1, max, 100);
      }
    }
  }

  /** A freshly laid-out table has nothing in use and no erase recorded. */
  lemma FreshLayoutIsUnused(c: FlashConfig, s: seq<FlashRegion>)
    requires c.sectorSize > 0 && IsLayout(c, s)
    ensures InUseCount(s) == 0 && SumCycles(s) == 0
    ensures forall i :: 0 <= i < |s| ==> !s[i].inUse && s[i].eraseCycles == 0
  {
    FreshPrefix(s);
  }

  lemma {:induction false} FreshPrefix(s: seq<FlashRegion>)
    requires forall i :: 0 <= i < |s| ==> !s[i].inUse && s[i].eraseCycles == 0
    ensures InUseCount(s) == 0 && SumCycles(s) == 0
    decreases |s|
  {
    if s != [] {
      FreshPrefix(s[..|s| - 1]);
    }
  }

  /** The default configuration lays out 2 configuration, 12 user-data and 2 wear-levelling regions. */
  lemma DefaultLayout()
    ensures DataSectors(DefaultFlashConfig()) == 12
    ensures CONFIG_SECTORS + DataSectors(DefaultFlashConfig()) + DefaultFlashConfig().reservedSectors == MAX_REGIONS
  {
  }
}
