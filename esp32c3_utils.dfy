/**
 * The ESP32-C3 storage helpers: address alignment by bit masks, 4-byte
 * buffer rounding, the flash-range check, the recommended partition
 * table and the lifetime estimate.  `usize` is 32 bits wide on this
 * target, and arithmetic wraps as in a release build.
 */
module Esp32c3Utils {
  import opened Ints

  const FLASH_START: nat := 0x000000
  const FLASH_SIZE: nat := 0x400000

  function Pow2(k: nat): (r: nat)
    ensures r >= 1
  {
    if k == 0 then 1 else 2 * Pow2(k - 1)
  }

  /** `a & b` on naturals, bit by bit from the least significant. */
  function BitAnd(a: nat, b: nat): (r: nat)
    ensures r <= a
    decreases a
  {
    if a == 0 || b == 0 then 0 else (a % 2) * (b % 2) + 2 * BitAnd(a / 2, b / 2)
  }

  /** `!a` on `u32`. */
  function BitNot32(a: u32): u32 {
    U32_MAX - a
  }

  /** A mask of the low `n` bits keeps every number below `2^n`. */
  lemma {:induction false} LowMaskKeeps(x: nat, n: nat)
    requires x < Pow2(n)
    ensures BitAnd(x, Pow2(n) - 1) == x
    decreases n
  {
    if n > 0 && x > 0 {
      assert (Pow2(n) - 1) / 2 == Pow2(n - 1) - 1 && (Pow2(n) - 1) % 2 == 1;
      LowMaskKeeps(x / 2, n - 1);
    }
  }

  /** Halving splits the remainder modulo `2^k` into the low bit and the half's remainder. */
  lemma ModPow2Step(x: nat, k: nat)
    requires k > 0
    ensures x % Pow2(k) == 2 * ((x / 2) % Pow2(k - 1)) + x % 2
  {
    var p := Pow2(k - 1);
    var q := x / 2;
    DivBounds(q, p);
    var a := q / p;
    var b := q % p;
    assert x == a * (2 * p) + (2 * b + x % 2);
    ModUnique(x, 2 * p, a, 2 * b + x % 2);
  }

  /** A mask of the bits from `k` up to `n` clears the low `k` bits of a number below `2^n`. */
  lemma {:induction false} HighMaskClears(x: nat, n: nat, k: nat)
    requires k <= n && x < Pow2(n)
    ensures Pow2(k) <= Pow2(n)
    ensures BitAnd(x, Pow2(n) - Pow2(k)) == x - x % Pow2(k)
    decreases k
  {
    MaskDecreasing(n, k);
    if k == 0 {
      LowMaskKeeps(x, n);
      assert Pow2(k) == 1 && x % 1 == 0;
    } else {
      var half, n1, k1 := x / 2, n - 1, k - 1;
      MaskDecreasing(n1, k1);
      HalfBelow(x, n);
      HighMaskClears(half, n1, k1);
      HighMaskStep(x, n, k);
    }
  }

  lemma HalfBelow(x: nat, n: nat)
    requires n > 0 && x < Pow2(n)
    ensures x / 2 < Pow2(n - 1)
  {
    assert Pow2(n) == 2 * Pow2(n - 1);
  }

  /** The step of HighMaskClears: from the half of `x` to `x`. */
  lemma HighMaskStep(x: nat, n: nat, k: nat)
    requires 0 < k <= n && Pow2(k - 1) <= Pow2(n - 1)
    requires BitAnd(x / 2, Pow2(n - 1) - Pow2(k - 1)) == x / 2 - (x / 2) % Pow2(k - 1)
    ensures BitAnd(x, Pow2(n) - Pow2(k)) == x - x % Pow2(k)
  {
    var half := Pow2(n - 1) - Pow2(k - 1);
    assert Pow2(n) - Pow2(k) == 2 * half;
    BitAndEvenMask(x, half);
    ModPow2Step(x, k);
  }

  /** An even mask drops the low bit and masks the rest with half the mask. */
  lemma BitAndEvenMask(x: nat, half: nat)
    ensures BitAnd(x, 2 * half) == 2 * BitAnd(x / 2, half)
  {
    if x > 0 && half > 0 {
      assert (2 * half) % 2 == 0 && (2 * half) / 2 == half;
    }
  }

  lemma {:induction false} MaskDecreasing(n: nat, k: nat)
    requires k <= n
    ensures Pow2(k) <= Pow2(n)
    decreases n
  {
    if k < n {
      MaskDecreasing(n - 1, k);
    }
  }

  /**
   * `is_address_aligned`: a remainder test, which panics for alignment 0.
   * It holds exactly when the address is a whole number of alignments.
   */
  predicate IsAddressAligned(address: u32, alignment: u32): (r: bool)
    requires alignment > 0
    ensures r <==> (address / alignment) * alignment == address
  {
    address % alignment == 0
  }

  /** `align_address`: `(address + alignment - 1) & !(alignment - 1)` in wrapping `u32`. */
  function AlignAddress(address: u32, alignment: u32): (r: u32)
    ensures r <= Wrap32(address + alignment - 1)
  {
    BitAnd(Wrap32(address + alignment - 1), BitNot32(Wrap32(alignment - 1)))
  }

  /** Masking with `!(2^k - 1)` rounds down to a multiple of `2^k`. */
  lemma RoundDownByMask(x: u32, k: nat)
    requires k < 32
    ensures Pow2(k) <= 0x8000_0000
    ensures BitAnd(x, BitNot32(Pow2(k) - 1)) == x - x % Pow2(k)
  {
    MaskDecreasing(31, k);
    Pow2Of32();
    MaskDecreasing(32, k);
    HighMaskClears(x, 32, k);
  }

  lemma Pow2Of32()
    ensures Pow2(31) == 0x8000_0000 && Pow2(32) == 0x1_0000_0000
  {
    assert Pow2(4) == 16 && Pow2(3) == 8;
    Pow2Add(4, 4);
    Pow2Add(8, 8);
    Pow2Add(16, 16);
    Pow2Add(4, 3);
    Pow2Add(8, 7);
    Pow2Add(16, 15);
  }

  lemma {:induction false} Pow2Add(a: nat, b: nat)
    ensures Pow2(a + b) == Pow2(a) * Pow2(b)
    decreases b
  {
    if b > 0 {
      Pow2Add(a, b - 1);
      assert Pow2(a + b) == 2 * Pow2(a + b - 1);
      assert Pow2(a) * Pow2(b) == Pow2(a) * (2 * Pow2(b - 1)) == 2 * (Pow2(a) * Pow2(b - 1));
    }
  }

  /**
   * For a power-of-two alignment and no wrap-around, the aligned address
   * is aligned, and the least such address at or above the input.
   */
  lemma AlignAddressRoundsUp(address: u32, k: nat)
    requires k < 32 && address + Pow2(k) - 1 <= U32_MAX
    ensures Pow2(k) <= U32_MAX
    ensures IsAddressAligned(AlignAddress(address, Pow2(k)), Pow2(k))
    ensures address <= AlignAddress(address, Pow2(k)) < address + Pow2(k)
  {
    var a := Pow2(k);
    var y: u32 := address + a - 1;
    RoundDownByMask(y, k);
    assert Wrap32(y) == y && Wrap32(a - 1) == a - 1;
    RoundDownFacts(y, a);
  }

  /**
   * For a power-of-two alignment and no wrap-around, an address is
   * aligned exactly when aligning it leaves it where it is.
   */
  lemma AlignedIsFixedPoint(address: u32, k: nat)
    requires k < 32 && address + Pow2(k) - 1 <= U32_MAX
    ensures Pow2(k) <= U32_MAX
    ensures IsAddressAligned(address, Pow2(k)) <==> AlignAddress(address, Pow2(k)) == address
  {
    AlignAddressRoundsUp(address, k);
    if address % Pow2(k) == 0 {
      OneMultipleInWindow(address, AlignAddress(address, Pow2(k)), Pow2(k));
    }
  }

  /** Two multiples of `a` less than `a` apart are equal. */
  lemma OneMultipleInWindow(x: nat, y: nat, a: nat)
    requires a > 0 && x % a == 0 && y % a == 0 && x <= y < x + a
    ensures x == y
  {
    var p := x / a;
    assert x == p * a;
    ModUnique(y, a, p, y - x);
  }

  /** Subtracting the remainder gives a multiple of the divisor within one divisor below. */
  lemma RoundDownFacts(y: nat, a: nat)
    requires a > 0
    ensures (y - y % a) % a == 0 && y - a < y - y % a <= y
  {
    DivBounds(y, a);
    var q := y / a;
    assert y - y % a == q * a;
    ModUnique(q * a, a, q, 0);
  }

  /** `optimal_buffer_size`: the size rounded up to a multiple of 4 (wrapping `usize`). */
  function OptimalBufferSize(dataSize: u32): (r: u32)
    ensures dataSize + 3 <= U32_MAX ==> r % 4 == 0 && dataSize <= r < dataSize + 4
  {
    var r := BitAnd(Wrap32(dataSize + 3), BitNot32(3));
    if dataSize + 3 <= U32_MAX then
      AlignAddressRoundsUp(dataSize, 2);
      assert AlignAddress(dataSize, 4) == r;
      r
    else r
  }

  /** The smallest multiple of 4 at or above the size is what `optimal_buffer_size` returns. */
  lemma OptimalBufferIsLeast(dataSize: u32, m: nat)
    requires dataSize + 3 <= U32_MAX && m % 4 == 0 && m >= dataSize
    ensures OptimalBufferSize(dataSize) <= m
  {
    var r := OptimalBufferSize(dataSize);
    var qr, qm := r / 4, m / 4;
    assert r == 4 * qr && m == 4 * qm;
  }

  /** `validate_flash_region` as written: the end `start + size` is computed in wrapping `u32`. */
  predicate ValidateFlashRegionAsWritten(startAddress: u32, size: u32)
    ensures ValidateFlashRegionAsWritten(startAddress, size) <==>
      startAddress + size <= FLASH_SIZE || 0x1_0000_0000 <= startAddress + size <= 0x1_0000_0000 + FLASH_SIZE
  {
    startAddress >= FLASH_START && Wrap32(startAddress + size) <= FLASH_SIZE
  }

  /** A region reaching past the 4 MiB flash is accepted once its end wraps around. */
  lemma WrappedRegionAccepted()
    ensures ValidateFlashRegionAsWritten(0xFFFF_FFFF, 2)
    ensures 0xFFFF_FFFF + 2 > FLASH_SIZE
  {
  }

  /** The intended check: the whole region lies within the 4 MiB flash. */
  predicate ValidateFlashRegion(startAddress: u32, size: u32)
    ensures ValidateFlashRegion(startAddress, size) ==> ValidateFlashRegionAsWritten(startAddress, size)
    ensures ValidateFlashRegion(startAddress, size) ==> startAddress < FLASH_SIZE || size == 0
  {
    startAddress >= FLASH_START && startAddress + size <= FLASH_SIZE
  }

  /** The corrected check accepts exactly the regions inside the flash, and agrees with the written one on them. */
  lemma ValidateFlashRegionExact(startAddress: u32, size: u32)
    ensures ValidateFlashRegion(startAddress, size) <==> startAddress + size <= FLASH_SIZE
    ensures ValidateFlashRegion(startAddress, size) ==> ValidateFlashRegionAsWritten(startAddress, size)
    ensures startAddress + size <= U32_MAX ==> (ValidateFlashRegion(startAddress, size) <==> ValidateFlashRegionAsWritten(startAddress, size))
  {
  }

  datatype Partition = Partition(offset: u32, size: u32, name: string)

  /** `get_recommended_partitions`: bootloader, partition table, app, storage, user data. */
  function RecommendedPartitions(): (r: seq<Partition>)
    ensures |r| == 5 && |r| <= 8
    ensures forall i :: 0 <= i < |r| ==> r[i].offset + r[i].size <= FLASH_SIZE
    ensures forall i, j :: 0 <= i < j < |r| ==> r[i].offset + r[i].size <= r[j].offset
  {
    [Partition(0x000000, 0x010000, "bootloader"),
     Partition(0x010000, 0x001000, "partition_table"),
     Partition(0x020000, 0x180000, "app"),
     Partition(0x200000, 0x100000, "storage"),
     Partition(0x300000, 0x100000, "user_data")]
  }

  /** `estimate_lifetime_remaining`: whole days of the remaining cycles at the daily rate. */
  function EstimateLifetimeRemaining(currentCycles: u32, maxCycles: u32, usagePerDay: u32): (r: u32)
    ensures currentCycles >= maxCycles || usagePerDay == 0 ==> r == 0
    ensures currentCycles < maxCycles && usagePerDay > 0 ==>
      (r * usagePerDay <= maxCycles - currentCycles < (r + 1) * usagePerDay)
  {
    if currentCycles >= maxCycles || usagePerDay == 0 then 0
    else
      DivBounds(maxCycles - currentCycles, usagePerDay);
      (maxCycles - currentCycles) / usagePerDay
  }
}
