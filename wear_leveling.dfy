/**
 * Erase-cycle bookkeeping for up to 64 flash sectors: per-sector erase
 * counts, wear levels in percent, bad-sector marking, and the queries that
 * pick sectors for levelling.
 */
module WearLeveling {
  import opened Wrappers
  import opened Ints
  import opened StorageTraits

  const MAX_SECTORS: nat := 64

  datatype SectorWearInfo = SectorWearInfo(
    sectorIndex: nat, eraseCycles: u32, wearLevel: u8, isBad: bool, lastAccess: u64)

  /** The number of sectors flagged bad. */
  function CountBad(s: seq<SectorWearInfo>): nat {
    if s == [] then 0 else CountBad(s[..|s| - 1]) + (if s[|s| - 1].isBad then 1 else 0)
  }

  /** Replacing one sector changes the bad count by the change in that sector's flag. */
  lemma {:induction false} CountBadUpdate(s: seq<SectorWearInfo>, i: nat, x: SectorWearInfo)
    requires i < |s|
    ensures CountBad(s[i := x]) + (if s[i].isBad then 1 else 0) == CountBad(s) + (if x.isBad then 1 else 0)
    decreases |s|
  {
    var t := s[i := x];
    if i < |s| - 1 {
      assert t[..|t| - 1] == s[..|s| - 1][i := x];
      CountBadUpdate(s[..|s| - 1], i, x);
    } else {
      assert t[..|t| - 1] == s[..|s| - 1];
    }
  }

  /** The rounded-down mean of levels of at most 100 each, as `u8`. */
  function MeanLevel(sum: nat, count: nat): (r: u8)
    requires count > 0 && sum <= 100 * count
    ensures r <= 100 && r == sum / count
  {
    QuotientAtMost(sum, count, 100);
    Wrap8(sum / count)
  }

  /**
   * The unused share of an erase budget `t` after `cycles` erases, in
   * percent: wrapping `u32` product, capped at 100.
   */
  function LifetimePercent(cycles: u32, t: u32): (r: u8)
    requires t > 0
    ensures r <= 100
    ensures cycles >= t ==> r == 0
    ensures t * 100 <= U32_MAX ==> r == (t - Min(cycles, t)) * 100 / t
    ensures t * 100 <= U32_MAX && cycles == 0 ==> r == 100
  {
    var remaining := SatSub(t, cycles);
    assert remaining == t - Min(cycles, t);
    PercentOfBudget(remaining, t);
    CappedPercent(Wrap32(remaining * 100), t)
  }

  /** A share `rem` of a budget `t` whose percentage fits in `u32` is at most 100 percent, and exactly 100 for the whole budget. */
  lemma PercentOfBudget(rem: nat, t: nat)
    requires 0 < t && rem <= t
    ensures t * 100 <= U32_MAX ==> rem * 100 <= U32_MAX && rem * 100 / t <= 100
    ensures t * 100 <= U32_MAX && rem == t ==> rem * 100 / t == 100
  {
    MulLe(rem, t, 100);
    QuotientAtMost(rem * 100, t, 100);
    DivAtLeast(t * 100, t, 100);
    QuotientAtMost(t * 100, t, 100);
  }

  /** The number of good (not bad) sectors. */
  function CountGood(s: seq<SectorWearInfo>): nat {
    if s == [] then 0 else CountGood(s[..|s| - 1]) + (if s[|s| - 1].isBad then 0 else 1)
  }

  /** The sum of the wear levels of the good sectors. */
  function SumGoodWear(s: seq<SectorWearInfo>): nat {
    if s == [] then 0 else SumGoodWear(s[..|s| - 1]) + (if s[|s| - 1].isBad then 0 else s[|s| - 1].wearLevel)
  }

  /** With every wear level at most 100, the sum over the good sectors is at most 100 per good sector. */
  lemma {:induction false} SumGoodWearBound(s: seq<SectorWearInfo>)
    requires forall i :: 0 <= i < |s| ==> s[i].wearLevel <= 100
    ensures SumGoodWear(s) <= 100 * CountGood(s)
    ensures CountGood(s) <= |s|
    decreases |s|
  {
    if s != [] {
      SumGoodWearBound(s[..|s| - 1]);
    }
  }

  /** Sector `i` is the first good sector of least erase count. */
  predicate IsFirstMin(s: seq<SectorWearInfo>, i: int) {
    0 <= i < |s| && !s[i].isBad &&
    (forall j :: 0 <= j < |s| && !s[j].isBad ==> s[i].eraseCycles <= s[j].eraseCycles) &&
    (forall j :: 0 <= j < i && !s[j].isBad ==> s[j].eraseCycles > s[i].eraseCycles)
  }

  /** Sector `i` is the first good sector of greatest erase count. */
  predicate IsFirstMax(s: seq<SectorWearInfo>, i: int) {
    0 <= i < |s| && !s[i].isBad &&
    (forall j :: 0 <= j < |s| && !s[j].isBad ==> s[j].eraseCycles <= s[i].eraseCycles) &&
    (forall j :: 0 <= j < i && !s[j].isBad ==> s[j].eraseCycles < s[i].eraseCycles)
  }

  /** There is at most one first most-worn sector. */
  lemma FirstMaxUnique(s: seq<SectorWearInfo>, a: int, b: int)
    requires IsFirstMax(s, a) && IsFirstMax(s, b)
    ensures a == b
  {
  }

  /** Some two good sectors differ by more than a twentieth of the erase budget, so levelling is due. */
  ghost predicate LevellingDue(s: seq<SectorWearInfo>, maxCycles: u32) {
    exists i, j :: 0 <= i < |s| && 0 <= j < |s| && !s[i].isBad && !s[j].isBad &&
      s[i].eraseCycles - s[j].eraseCycles > maxCycles / 20
  }

  /** Sector `j` is one of the two sectors `level_wear` touches: levelling is due and it is the first most- or least-worn one. */
  ghost predicate Levelled(s: seq<SectorWearInfo>, maxCycles: u32, j: int) {
    LevellingDue(s, maxCycles) && (IsFirstMax(s, j) || IsFirstMin(s, j))
  }

  /** There is at most one first least-worn sector. */
  lemma FirstMinUnique(s: seq<SectorWearInfo>, a: int, b: int)
    requires IsFirstMin(s, a) && IsFirstMin(s, b)
    ensures a == b
  {
  }

  /** The first good sector of least erase count among the first `n` (`min_by_key` keeps the first minimum). */
  function LeastWornPrefix(s: seq<SectorWearInfo>, n: nat): (r: Option<nat>)
    requires n <= |s|
    ensures r.Some? ==> IsFirstMin(s[..n], r.value)
    ensures r.None? <==> forall j :: 0 <= j < n ==> s[j].isBad
  {
    if n == 0 then None
    else
      var p := LeastWornPrefix(s, n - 1);
      assert forall j :: 0 <= j < n - 1 ==> s[..n][j] == s[..n - 1][j];
      if s[n - 1].isBad then p
      else if p.None? || s[n - 1].eraseCycles < s[p.value].eraseCycles then Some(n - 1)
      else p
  }

  /** The position of `x` among `sorted` by erase count, then by index. */
  predicate WearBefore(c: seq<u32>, a: nat, b: nat)
    requires a < |c| && b < |c|
  {
    c[a] < c[b] || (c[a] == c[b] && a <= b)
  }

  predicate InRange(xs: seq<nat>, n: nat) {
    forall k :: 0 <= k < |xs| ==> xs[k] < n
  }

  predicate SortedByWear(c: seq<u32>, xs: seq<nat>)
    requires InRange(xs, |c|)
  {
    forall i, j :: 0 <= i < j < |xs| ==> WearBefore(c, xs[i], xs[j])
  }

  /** Inserts index `x` into `xs` in front of the first index it comes before. */
  function InsertByWear(c: seq<u32>, xs: seq<nat>, x: nat): (r: seq<nat>)
    requires x < |c| && InRange(xs, |c|)
    ensures InRange(r, |c|)
  {
    if xs == [] then [x]
    else if WearBefore(c, x, xs[0]) then [x] + xs
    else [xs[0]] + InsertByWear(c, xs[1..], x)
  }

  /** Insertion adds exactly the one index. */
  lemma {:induction false} InsertPermutes(c: seq<u32>, xs: seq<nat>, x: nat)
    requires x < |c| && InRange(xs, |c|)
    ensures multiset(InsertByWear(c, xs, x)) == multiset(xs) + multiset{x}
    decreases |xs|
  {
    if xs != [] && !WearBefore(c, x, xs[0]) {
      assert xs == [xs[0]] + xs[1..];
      InsertPermutes(c, xs[1..], x);
    }
  }

  /** Insertion keeps a sorted sequence sorted. */
  lemma {:induction false} InsertSorted(c: seq<u32>, xs: seq<nat>, x: nat)
    requires x < |c| && InRange(xs, |c|) && SortedByWear(c, xs)
    ensures SortedByWear(c, InsertByWear(c, xs, x))
    decreases |xs|
  {
    if xs == [] {
    } else if WearBefore(c, x, xs[0]) {
      assert forall k :: 0 <= k < |xs| ==> WearBefore(c, x, xs[k]);
    } else {
      var tail := xs[1..];
      InsertSorted(c, tail, x);
      var rest := InsertByWear(c, tail, x);
      InsertPermutes(c, tail, x);
      forall k | 0 <= k < |rest|
        ensures WearBefore(c, xs[0], rest[k])
      {
        assert rest[k] in multiset(rest);
        if rest[k] != x {
          assert rest[k] in multiset(tail);
          var m :| 0 <= m < |tail| && tail[m] == rest[k];
          assert xs[m + 1] == rest[k];
        }
      }
    }
  }

  /** Indices 0..n-1 ordered by erase count, ties in index order (a stable sort of the indices). */
  function SortIndicesByWear(c: seq<u32>, n: nat): (r: seq<nat>)
    requires n <= |c|
    ensures InRange(r, |c|)
  {
    if n == 0 then [] else InsertByWear(c, SortIndicesByWear(c, n - 1), n - 1)
  }

  lemma MultisetSnoc(ins: seq<nat>, prev: seq<nat>, indices: seq<nat>, x: nat)
    requires multiset(ins) == multiset(prev) + multiset{x} && multiset(prev) == multiset(indices)
    ensures multiset(ins) == multiset(indices + [x])
  {
  }

  /** The sort is a permutation of the indices. */
  lemma {:induction false} SortIndicesPermutes(c: seq<u32>, n: nat)
    requires n <= |c|
    ensures multiset(SortIndicesByWear(c, n)) == multiset(Indices(n))
  {
    if n > 0 {
      var prev, x: nat := SortIndicesByWear(c, n - 1), n - 1;
      assert SortIndicesByWear(c, n) == InsertByWear(c, prev, x);
      SortIndicesPermutes(c, n - 1);
      InsertPermutes(c, prev, x);
      MultisetSnoc(InsertByWear(c, prev, x), prev, Indices(n - 1), x);
    }
  }

  lemma {:induction false} SortIndicesSorted(c: seq<u32>, n: nat)
    requires n <= |c|
    ensures SortedByWear(c, SortIndicesByWear(c, n))
  {
    if n > 0 {
      var prev := SortIndicesByWear(c, n - 1);
      assert SortIndicesByWear(c, n) == InsertByWear(c, prev, n - 1);
      SortIndicesSorted(c, n - 1);
      InsertSorted(c, prev, n - 1);
    }
  }

  function Indices(n: nat): (r: seq<nat>)
    ensures |r| == n && forall k :: 0 <= k < n ==> r[k] == k
  {
    if n == 0 then [] else Indices(n - 1) + [n - 1]
  }

  /** The indices of the good sectors, ascending. */
  function GoodIndices(s: seq<SectorWearInfo>, n: nat): (r: seq<nat>)
    requires n <= |s|
    ensures forall i: nat :: i in r <==> i < n && !s[i].isBad
    ensures forall a, b :: 0 <= a < b < |r| ==> r[a] < r[b]
  {
    if n == 0 then []
    else
      var p := GoodIndices(s, n - 1);
      assert forall a :: 0 <= a < |p| ==> p[a] in p;
      if s[n - 1].isBad then p else p + [n - 1]
  }

  class WearLevelingManager {
    var sectors: seq<SectorWearInfo>
    const maxEraseCycles: u32
    var wearThreshold: u8
    var badBlockCount: nat

    /** Each sector knows its index, has a wear level of at most 100, and the bad count matches the flags. */
    ghost predicate Valid()
      reads this
    {
      |sectors| <= MAX_SECTORS &&
      (forall i :: 0 <= i < |sectors| ==> sectors[i].sectorIndex == i && sectors[i].wearLevel <= 100) &&
      badBlockCount == CountBad(sectors)
    }

    constructor FromSectors(s: seq<SectorWearInfo>, maxCycles: u32)
      requires |s| <= MAX_SECTORS && forall i :: 0 <= i < |s| ==> s[i] == SectorWearInfo(i, 0, 0, false, 0)
      ensures Valid() && sectors == s && maxEraseCycles == maxCycles && wearThreshold == 80 && badBlockCount == 0
    {
      sectors := s;
      maxEraseCycles := maxCycles;
      wearThreshold := 80;
      badBlockCount := 0;
      new;
      NoBadInFresh(s);
    }

    static lemma {:induction false} NoBadInFresh(s: seq<SectorWearInfo>)
      requires forall i :: 0 <= i < |s| ==> !s[i].isBad
      ensures CountBad(s) == 0
      decreases |s|
    {
      if s != [] {
        NoBadInFresh(s[..|s| - 1]);
      }
    }

    /**
     * `WearLevelingManager::new`: `sector_count` fresh sectors; pushing a
     * 65th one fails with `CapacityExceeded`.
     */
    static method New(sectorCount: nat, maxCycles: u32) returns (r: Result<WearLevelingManager, StorageError>)
      ensures sectorCount > MAX_SECTORS <==> r.Err?
      ensures r.Err? ==> r.error == CapacityExceeded
      ensures r.Ok? ==> fresh(r.value) && r.value.Valid() && |r.value.sectors| == sectorCount
      ensures r.Ok? ==> r.value.maxEraseCycles == maxCycles && r.value.badBlockCount == 0
      ensures r.Ok? ==> forall i :: 0 <= i < sectorCount ==> r.value.sectors[i] == SectorWearInfo(i, 0, 0, false, 0)
    {
      var s: seq<SectorWearInfo> := [];
      var i := 0;
      while i < sectorCount
        invariant 0 <= i <= sectorCount && i <= MAX_SECTORS && |s| == i
        invariant forall k :: 0 <= k < i ==> s[k] == SectorWearInfo(k, 0, 0, false, 0)
      {
        if |s| >= MAX_SECTORS {
          return Err(CapacityExceeded);
        }
        s := s + [SectorWearInfo(i, 0, 0, false, 0)];
        i := i + 1;
      }
      var m := new WearLevelingManager.FromSectors(s, maxCycles);
      return Ok(m);
    }

    /**
     * `calculate_wear_level`: `cycles * 100 / max` in wrapping `u32`,
     * capped at 100.  Without overflow the level is 100 exactly when the
     * sector has reached its erase budget.
     */
    function CalculateWearLevel(cycles: u32): (r: u8)
      requires maxEraseCycles > 0
      reads this
      ensures r <= 100
      ensures cycles * 100 <= U32_MAX ==> (r == 100 <==> cycles >= maxEraseCycles)
      ensures cycles * 100 <= U32_MAX ==> r * maxEraseCycles <= cycles * 100
    {
      var x := Wrap32(cycles * 100);
      CappedPercentFacts(x, maxEraseCycles);
      Min(x / maxEraseCycles, 100)
    }

    /**
     * `mark_sector_bad` (also `mark_bad_block`): flags the sector, counting
     * it only if it was not bad already; an out-of-range sector is
     * `InvalidValue`.
     */
    method MarkSectorBad(sector: nat) returns (r: Result<(), StorageError>)
      requires Valid()
      modifies this
      ensures Valid()
      ensures sector >= |old(sectors)| ==> r == Err(InvalidValue) && sectors == old(sectors) && badBlockCount == old(badBlockCount)
      ensures sector < |old(sectors)| ==> r == Ok(()) && sectors == old(sectors)[sector := old(sectors)[sector].(isBad := true)]
      ensures sector < |old(sectors)| ==> badBlockCount == old(badBlockCount) + (if old(sectors)[sector].isBad then 0 else 1)
    {
      if sector >= |sectors| {
        return Err(InvalidValue);
      }
      if !sectors[sector].isBad {
        CountBadUpdate(sectors, sector, sectors[sector].(isBad := true));
        sectors := sectors[sector := sectors[sector].(isBad := true)];
        badBlockCount := badBlockCount + 1;
      } else {
        assert sectors[sector := sectors[sector].(isBad := true)] == sectors;
      }
      return Ok(());
    }

    /**
     * `update_erase_count`: one more erase of the sector (wrapping `u32`),
     * its wear level recomputed, and the sector flagged bad once it reaches
     * the erase budget; an out-of-range sector is `InvalidValue`.  The
     * division by a zero budget panics.
     */
    method UpdateEraseCount(sector: nat) returns (r: Result<(), StorageError>)
      requires Valid() && maxEraseCycles > 0
      modifies this
      ensures Valid()
      ensures sector >= |old(sectors)| ==> r == Err(InvalidValue) && sectors == old(sectors) && badBlockCount == old(badBlockCount)
      ensures sector < |old(sectors)| ==> (r == Ok(()) && |sectors| == |old(sectors)| &&
        (forall j :: 0 <= j < |sectors| && j != sector ==> sectors[j] == old(sectors)[j]) &&
        var cycles := Wrap32(old(sectors)[sector].eraseCycles + 1);
        sectors[sector] == SectorWearInfo(sector, cycles, CalculateWearLevel(cycles),
          old(sectors)[sector].isBad || cycles >= maxEraseCycles, 0))
    {
      if sector >= |sectors| {
        return Err(InvalidValue);
      }
      var cycles := Wrap32(sectors[sector].eraseCycles + 1);
      var updated := sectors[sector].(eraseCycles := cycles, lastAccess := 0);
      CountBadUpdate(sectors, sector, updated);
      sectors := sectors[sector := updated];
      sectors := sectors[sector := sectors[sector].(wearLevel := CalculateWearLevel(cycles))];
      CountBadUpdate(old(sectors)[sector := updated], sector, sectors[sector]);
      if cycles >= maxEraseCycles && !sectors[sector].isBad {
        r := MarkSectorBad(sector);
      } else {
        r := Ok(());
      }
    }

    /**
     * `find_wear_leveling_candidates`: the first most-worn and the first
     * least-worn good sector, returned only when their erase counts differ
     * by more than a twentieth of the budget.
     */
    method FindWearLevelingCandidates() returns (r: Option<(nat, nat)>)
      ensures r.Some? ==> (IsFirstMax(sectors, r.value.0) && IsFirstMin(sectors, r.value.1) &&
        sectors[r.value.0].eraseCycles - sectors[r.value.1].eraseCycles > maxEraseCycles / 20)
      ensures r.None? ==> (forall i, j :: 0 <= i < |sectors| && 0 <= j < |sectors| && !sectors[i].isBad && !sectors[j].isBad ==>
        sectors[i].eraseCycles - sectors[j].eraseCycles <= maxEraseCycles / 20)
    {
      var s := sectors;
      var minIdx: nat, maxIdx: nat := 0, 0;
      var minCycles: u32, maxCycles: u32 := U32_MAX, 0;
      for i := 0 to |s|
        invariant forall j :: 0 <= j < i && !s[j].isBad ==> minCycles <= s[j].eraseCycles <= maxCycles
        invariant minCycles < U32_MAX ==> (minIdx < i && !s[minIdx].isBad && s[minIdx].eraseCycles == minCycles &&
          forall j :: 0 <= j < minIdx && !s[j].isBad ==> s[j].eraseCycles > minCycles)
        invariant maxCycles > 0 ==> (maxIdx < i && !s[maxIdx].isBad && s[maxIdx].eraseCycles == maxCycles &&
          forall j :: 0 <= j < maxIdx && !s[j].isBad ==> s[j].eraseCycles < maxCycles)
      {
        if !s[i].isBad {
          if s[i].eraseCycles < minCycles {
            minCycles := s[i].eraseCycles;
            minIdx := i;
          }
          if s[i].eraseCycles > maxCycles {
            maxCycles := s[i].eraseCycles;
            maxIdx := i;
          }
        }
      }
      var difference := SatSub(maxCycles, minCycles);
      var threshold := maxEraseCycles / 20;
      if difference > threshold {
        return Some((maxIdx, minIdx));
      }
      return None;
    }

    /** `get_sectors_by_wear`: all sector indices, ascending by erase count, ties in index order. */
    function SectorsByWear(): (r: seq<nat>)
      reads this
      ensures InRange(r, |sectors|) && multiset(r) == multiset(Indices(|sectors|))
      ensures forall i, j :: 0 <= i < j < |r| ==> sectors[r[i]].eraseCycles <= sectors[r[j]].eraseCycles
      ensures forall i, j :: 0 <= i < j < |r| && sectors[r[i]].eraseCycles == sectors[r[j]].eraseCycles ==> r[i] <= r[j]
    {
      var c := seq(|sectors|, k requires 0 <= k < |sectors| reads this => sectors[k].eraseCycles);
      SortIndicesSorted(c, |sectors|);
      SortIndicesPermutes(c, |sectors|);
      SortIndicesByWear(c, |sectors|)
    }

    /** `get_available_sectors`: the good sector indices, ascending. */
    function AvailableSectors(): (r: seq<nat>)
      reads this
      ensures forall i: nat :: i in r <==> i < |sectors| && !sectors[i].isBad
      ensures forall a, b :: 0 <= a < b < |r| ==> r[a] < r[b]
    {
      GoodIndices(sectors, |sectors|)
    }

    /** `get_least_worn_sector`: the first good sector of least erase count, if any sector is good. */
    function LeastWornSector(): (r: Option<nat>)
      reads this
      ensures r.Some? ==> IsFirstMin(sectors, r.value)
      ensures r.None? <==> forall j :: 0 <= j < |sectors| ==> sectors[j].isBad
    {
      assert sectors[..|sectors|] == sectors;
      LeastWornPrefix(sectors, |sectors|)
    }

    /** Levelling candidates always name the sector `get_least_worn_sector` reports. */
    lemma CandidateIsLeastWorn(hi: nat, lo: nat)
      requires IsFirstMax(sectors, hi) && IsFirstMin(sectors, lo)
      ensures LeastWornSector() == Some(lo)
    {
      FirstMinUnique(sectors, LeastWornSector().value, lo);
    }

    /**
     * `get_sector_remaining_lifetime`: 0 for an out-of-range or bad sector,
     * otherwise the unused share of the erase budget in percent (wrapping
     * `u32` product, capped at 100).
     */
    function SectorRemainingLifetime(sector: nat): (r: u8)
      reads this
      requires maxEraseCycles > 0 || sector >= |sectors| || sectors[sector].isBad
      ensures r <= 100
      ensures sector >= |sectors| || sectors[sector].isBad ==> r == 0
      ensures sector < |sectors| && !sectors[sector].isBad && sectors[sector].eraseCycles >= maxEraseCycles ==> r == 0
      ensures sector < |sectors| && !sectors[sector].isBad && maxEraseCycles * 100 <= U32_MAX ==>
        r == (maxEraseCycles - Min(sectors[sector].eraseCycles, maxEraseCycles)) * 100 / maxEraseCycles
      ensures sector < |sectors| && !sectors[sector].isBad && sectors[sector].eraseCycles == 0 && maxEraseCycles * 100 <= U32_MAX ==>
        r == 100
    {
      if sector >= |sectors| then 0
      else if sectors[sector].isBad then 0
      else
        LifetimePercent(sectors[sector].eraseCycles, maxEraseCycles)
    }

    /** `get_wear_level`: the stored level, 0 for an out-of-range region. */
    function WearLevel(region: nat): (r: u8)
      reads this
      requires Valid()
      ensures r <= 100
      ensures region >= |sectors| ==> r == 0
    {
      if region < |sectors| then sectors[region].wearLevel else 0
    }

    /**
     * `get_average_wear_level`: 0 with no sectors, 100 when every sector is
     * bad, otherwise the rounded-down mean level of the good sectors.
     */
    function AverageWearLevel(): (r: u8)
      reads this
      requires Valid()
      ensures |sectors| == 0 ==> r == 0
      ensures |sectors| > 0 && CountGood(sectors) == 0 ==> r == 100
      ensures CountGood(sectors) > 0 ==> r == SumGoodWear(sectors) / CountGood(sectors)
      ensures r <= 100
    {
      if |sectors| == 0 then 0
      else
        var available := CountGood(sectors);
        assert forall i :: 0 <= i < |sectors| ==> sectors[i].wearLevel <= 100;
        SumGoodWearBound(sectors);
        if available > 0 then MeanLevel(SumGoodWear(sectors), available) else 100
    }

    /** `get_bad_block_count` */
    function BadBlockCount(): (r: nat)
      reads this
      requires Valid()
      ensures r == CountBad(sectors)
    {
      badBlockCount
    }

    /** The least remaining lifetime over the good sectors among the first `n`; 0 when none is good. */
    function MinLifetimePrefix(n: nat): (r: Option<u8>)
      reads this
      requires n <= |sectors| && (maxEraseCycles > 0 || forall j :: 0 <= j < n ==> sectors[j].isBad)
      ensures r.None? <==> forall j :: 0 <= j < n ==> sectors[j].isBad
      ensures r.Some? ==> ((exists j :: 0 <= j < n && !sectors[j].isBad && r.value == SectorRemainingLifetime(j)) &&
        forall j :: 0 <= j < n && !sectors[j].isBad ==> r.value <= SectorRemainingLifetime(j))
    {
      if n == 0 then None
      else
        var p := MinLifetimePrefix(n - 1);
        if sectors[n - 1].isBad then p
        else
          var l := SectorRemainingLifetime(n - 1);
          if p.None? || l < p.value then Some(l) else p
    }

    /**
     * `get_remaining_lifetime`: the least remaining lifetime of a good
     * sector; 0 with no sectors or no good sector.
     */
    function RemainingLifetime(): (r: u8)
      reads this
      requires maxEraseCycles > 0 || forall j :: 0 <= j < |sectors| ==> sectors[j].isBad
      ensures r <= 100
      ensures (forall j :: 0 <= j < |sectors| ==> sectors[j].isBad) ==> r == 0
      ensures forall j :: 0 <= j < |sectors| && !sectors[j].isBad ==> r <= SectorRemainingLifetime(j)
      ensures (exists j :: 0 <= j < |sectors| && !sectors[j].isBad) ==>
        exists j :: 0 <= j < |sectors| && !sectors[j].isBad && r == SectorRemainingLifetime(j)
    {
      if |sectors| == 0 then 0
      else
        var m := MinLifetimePrefix(|sectors|);
        if m.Some? then m.value else 0
    }

    /**
     * `level_wear`: when there are candidates, exactly the first most-worn
     * and the first least-worn good sector get the simulated access time 1;
     * otherwise nothing changes.
     */
    method LevelWear() returns (r: Result<(), StorageError>)
      requires Valid()
      modifies this
      ensures Valid() && r == Ok(())
      ensures |sectors| == |old(sectors)| && badBlockCount == old(badBlockCount)
      ensures forall j :: 0 <= j < |sectors| ==>
        sectors[j] == if Levelled(old(sectors), maxEraseCycles, j) then old(sectors)[j].(lastAccess := 1) else old(sectors)[j]
      ensures !LevellingDue(old(sectors), maxEraseCycles) ==> sectors == old(sectors)
    {
      ghost var s0 := sectors;
      var candidates := FindWearLevelingCandidates();
      if candidates.Some? {
        var (high, low) := candidates.value;
        assert LevellingDue(s0, maxEraseCycles) by {
          assert !s0[high].isBad && !s0[low].isBad;
        }
        forall j | IsFirstMax(s0, j) || IsFirstMin(s0, j)
          ensures j == high || j == low
        {
          if IsFirstMax(s0, j) {
            FirstMaxUnique(s0, j, high);
          } else {
            FirstMinUnique(s0, j, low);
          }
        }
        CountBadUpdate(sectors, high, sectors[high].(lastAccess := 1));
        sectors := sectors[high := sectors[high].(lastAccess := 1)];
        CountBadUpdate(sectors, low, sectors[low].(lastAccess := 1));
        sectors := sectors[low := sectors[low].(lastAccess := 1)];
      } else {
        assert !LevellingDue(s0, maxEraseCycles);
      }
      return Ok(());
    }
  }
}
