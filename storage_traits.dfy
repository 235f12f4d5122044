/**
 * The value types shared by every storage backend of the firmware's
 * storage crate: validated keys and values, the capacity report, the
 * operation counters, and the helper functions for keys, checksums and
 * byte counts.  `usize` is the 32-bit word of the ESP32-C3.
 */
module StorageTraits {
  import opened Wrappers
  import opened Ints
  import opened Text

  const MAX_KEY_LEN: nat := 64
  const MAX_VALUE_SIZE: nat := 4096

  datatype StorageError =
    | KeyNotFound
    | InvalidKey
    | InvalidValue
    | CapacityExceeded
    | HardwareError
    | CorruptedData
    | Timeout
    | ReadOnly
    | TransactionConflict
    | WearLevelingError
    | ConfigurationError(message: string)
    | Unknown

  // ---------------------------------------------------------------- keys

  /** A character a key may contain: an ASCII letter or digit, '_', '-' or '.'. */
  predicate IsKeyChar(c: char) {
    ('a' <= c <= 'z') || ('A' <= c <= 'Z') || ('0' <= c <= '9') || c == '_' || c == '-' || c == '.'
  }

  /** The characters of `s` are all key characters (the reference definition). */
  predicate AllKeyChars(s: string) {
    forall i :: 0 <= i < |s| ==> IsKeyChar(s[i])
  }

  /** `key.chars().all(...)`, checked character by character from the front. */
  function AllKeyCharsFrom(s: string): (r: bool)
    ensures r <==> AllKeyChars(s)
  {
    if s == [] then true
    else
      assert forall i :: 1 <= i < |s| ==> s[1..][i - 1] == s[i];
      IsKeyChar(s[0]) && AllKeyCharsFrom(s[1..])
  }

  /** A key that passed validation. */
  datatype StorageKey = StorageKey(key: string)
  {
    function Len(): nat { |key| }
    predicate KeyStartsWith(prefix: string) { StartsWith(key, prefix) }
    predicate KeyEndsWith(suffix: string) { EndsWith(key, suffix) }
  }

  /** The conditions `StorageKey::new` checks, in the order it checks them. */
  predicate ValidKeyText(key: string) {
    key != [] && |key| <= MAX_KEY_LEN && AllKeyChars(key)
  }

  /** `StorageKey::new`: an empty key, one longer than 64 or one with another character is `InvalidKey`. */
  function NewKey(key: string): (r: Result<StorageKey, StorageError>)
    ensures r.Ok? <==> key != [] && |key| <= MAX_KEY_LEN && AllKeyChars(key)
    ensures r.Ok? ==> r.value.key == key && r.value.Len() == |key|
    ensures r.Err? ==> r.error == InvalidKey
  {
    if key == [] then Err(InvalidKey)
    else if |key| > MAX_KEY_LEN then Err(InvalidKey)
    else if !AllKeyCharsFrom(key) then Err(InvalidKey)
    else Ok(StorageKey(key))
  }

  /** `utils::validate_key`, which agrees with `StorageKey::new` on every text. */
  function ValidateKey(key: string): (r: bool)
    ensures r <==> NewKey(key).Ok?
  {
    key != [] && |key| <= MAX_KEY_LEN && AllKeyCharsFrom(key)
  }

  /** The key characters of `s`, in order (`filter`). */
  function KeyCharsOf(s: string): (r: string)
    ensures |r| <= |s| && AllKeyChars(r)
    ensures AllKeyChars(s) ==> r == s
    ensures r == [] <==> forall i :: 0 <= i < |s| ==> !IsKeyChar(s[i])
  {
    if s == [] then []
    else
      assert forall i :: 1 <= i < |s| ==> s[1..][i - 1] == s[i];
      if IsKeyChar(s[0]) then [s[0]] + KeyCharsOf(s[1..]) else KeyCharsOf(s[1..])
  }

  /**
   * `utils::sanitize_key`: the key characters of `key`, at most 64 of them,
   * or "default" when none remain.  The result is always a valid key, and a
   * key that is already valid is returned unchanged.
   */
  function SanitizeKey(key: string): (r: string)
    ensures ValidateKey(r)
    ensures ValidateKey(key) ==> r == key
    ensures (forall i :: 0 <= i < |key| ==> !IsKeyChar(key[i])) ==> r == "default"
    ensures r == "default" || (|r| <= |KeyCharsOf(key)| && r == KeyCharsOf(key)[..|r|])
  {
    var kept := KeyCharsOf(key);
    if kept == [] then DefaultKeyValid(); "default"
    else if |kept| <= MAX_KEY_LEN then kept
    else kept[..MAX_KEY_LEN]
  }

  lemma DefaultKeyValid()
    ensures ValidateKey("default")
  {
    var d := "default";
    assert AllKeyChars(d) by {
      forall i | 0 <= i < |d| ensures IsKeyChar(d[i]) { }
    }
  }

  /** Sanitising twice gives what sanitising once does. */
  lemma SanitizeIdempotent(key: string)
    ensures SanitizeKey(SanitizeKey(key)) == SanitizeKey(key)
  {
  }

  // -------------------------------------------------------------- values

  /** A value of at most 4096 bytes. */
  datatype StorageValue = StorageValue(data: seq<u8>)
  {
    function Len(): nat { |data| }
    predicate IsEmpty() { data == [] }
  }

  /**
   * `StorageValue::new`: copies the bytes one by one into a bounded vector;
   * more than 4096 bytes is `InvalidValue`.
   */
  method NewValue(data: seq<u8>) returns (r: Result<StorageValue, StorageError>)
    ensures r.Ok? <==> |data| <= MAX_VALUE_SIZE
    ensures r.Ok? ==> r.value.data == data
    ensures r.Err? ==> r.error == InvalidValue
  {
    if |data| > MAX_VALUE_SIZE {
      return Err(InvalidValue);
    }
    var copy: seq<u8> := [];
    for i := 0 to |data|
      invariant copy == data[..i]
    {
      copy := copy + [data[i]];
    }
    return Ok(StorageValue(copy));
  }

  // ------------------------------------------------------------ capacity

  datatype StorageCapacity = StorageCapacity(
    totalBytes: u32, usedBytes: u32, availableBytes: u32, sectorSize: u32, sectorCount: u32)
  {
    /** `usage_percentage`: `used * 100 / total` in wrapping `usize`, truncated to `u8`; 0 when total is 0. */
    function UsagePercentage(): (r: u8)
      ensures totalBytes == 0 ==> r == 0
      ensures totalBytes > 0 && usedBytes <= totalBytes && usedBytes * 100 <= U32_MAX ==>
        r == usedBytes * 100 / totalBytes && r <= 100
    {
      if totalBytes == 0 then 0
      else
        PercentFits(usedBytes, totalBytes);
        Wrap8(Wrap32(usedBytes * 100) / totalBytes)
    }

    /** `is_nearly_full`: over 90% used, that is, without overflow, at least 91% of the total. */
    predicate IsNearlyFull()
      ensures totalBytes == 0 ==> !IsNearlyFull()
      ensures totalBytes > 0 && usedBytes <= totalBytes && usedBytes * 100 <= U32_MAX ==>
        (IsNearlyFull() <==> usedBytes * 100 >= 91 * totalBytes)
    {
      UsageThreshold(usedBytes, totalBytes, 91);
      UsagePercentage() > 90
    }

    /** `is_critically_full`: over 95% used, that is, without overflow, at least 96% of the total. */
    predicate IsCriticallyFull()
      ensures totalBytes == 0 ==> !IsCriticallyFull()
      ensures totalBytes > 0 && usedBytes <= totalBytes && usedBytes * 100 <= U32_MAX ==>
        (IsCriticallyFull() <==> usedBytes * 100 >= 96 * totalBytes)
    {
      UsageThreshold(usedBytes, totalBytes, 96);
      UsagePercentage() > 95
    }

    function FreeBytes(): u32 { availableBytes }

    /** `free_percentage`: `100 - usage` in wrapping `u8`. */
    function FreePercentage(): (r: u8)
      ensures UsagePercentage() <= 100 ==> r + UsagePercentage() == 100
    {
      Wrap8(100 - UsagePercentage())
    }
  }

  /** The percentage reaches k exactly when k percent of the whole is used. */
  lemma UsageThreshold(used: nat, total: nat, k: nat)
    ensures total > 0 ==> (used * 100 / total >= k <==> used * 100 >= k * total)
  {
    if total > 0 {
      DivAtLeast(used * 100, total, k);
    }
  }

  /** Without overflow, a share of at most the whole is at most 100 percent and needs no truncation. */
  lemma PercentFits(used: nat, total: nat)
    requires total > 0
    ensures used <= total && used * 100 <= U32_MAX ==>
      Wrap8(Wrap32(used * 100) / total) == used * 100 / total <= 100
  {
    if used <= total && used * 100 <= U32_MAX {
      var x := used * 100;
      assert Wrap32(x) == x;
      assert x <= 100 * total;
      QuotientAtMost(x, total, 100);
      var q := x / total;
      assert q <= 100;
      assert Wrap8(q) == q;
    }
  }

  /** `StorageCapacity::new`; the division by a zero sector size panics. */
  function NewCapacity(total: u32, used: u32, sectorSize: u32): (r: StorageCapacity)
    requires sectorSize > 0
    ensures r.totalBytes == total && r.usedBytes == used && r.sectorSize == sectorSize
    ensures r.availableBytes == SatSub(total, used)
    ensures r.sectorCount * sectorSize <= total < (r.sectorCount + 1) * sectorSize
  {
    StorageCapacity(total, used, SatSub(total, used), sectorSize, total / sectorSize)
  }

  /** Critically full storage is also nearly full. */
  lemma CriticalIsNearlyFull(c: StorageCapacity)
    requires c.IsCriticallyFull()
    ensures c.IsNearlyFull()
  {
  }

  /** The default capacity: 64 KiB of 4 KiB sectors, all free. */
  function DefaultCapacity(): (r: StorageCapacity)
    ensures r.availableBytes == r.totalBytes == 65536 && r.usedBytes == 0
    ensures r.sectorCount == 16 && r.UsagePercentage() == 0 && r.FreePercentage() == 100
  {
    NewCapacity(65536, 0, 4096)
  }

  // --------------------------------------------------------------- stats

  datatype StorageStats = StorageStats(
    totalReads: u64, totalWrites: u64, totalDeletes: u64,
    failedReads: u64, failedWrites: u64, failedDeletes: u64,
    bytesRead: u64, bytesWritten: u64, eraseCycles: u64, lastOperationTime: u64)
  {
    /** `total_operations`: reads + writes + deletes in wrapping `u64`. */
    function TotalOperations(): (r: u64)
      ensures totalReads + totalWrites + totalDeletes <= U64_MAX ==>
        r == totalReads + totalWrites + totalDeletes && r >= totalReads && r >= totalWrites && r >= totalDeletes
    {
      Wrap64(totalReads + totalWrites + totalDeletes)
    }

    /** `total_failures`: the failed reads, writes and deletes in wrapping `u64`. */
    function TotalFailures(): (r: u64)
      ensures failedReads + failedWrites + failedDeletes <= U64_MAX ==>
        r == failedReads + failedWrites + failedDeletes
    {
      Wrap64(failedReads + failedWrites + failedDeletes)
    }
  }

  /** `StorageStats::new`, which `reset` also restores. */
  function NewStats(): StorageStats {
    StorageStats(0, 0, 0, 0, 0, 0, 0, 0, 0, 0)
  }

  /** After a reset no operation and no failure is counted. */
  lemma ResetClearsCounts()
    ensures NewStats().TotalOperations() == 0 && NewStats().TotalFailures() == 0
  {
    var z := NewStats();
    assert z.totalReads + z.totalWrites + z.totalDeletes == 0;
    assert z.failedReads + z.failedWrites + z.failedDeletes == 0;
  }

  // ----------------------------------------------------------- checksums

  /** One step of the checksum: add the byte, multiply by 1103515245, add 12345, all wrapping. */
  function ChecksumStep(acc: u32, b: u8): u32 {
    Wrap32(Wrap32(Wrap32(acc + b) * 1103515245) + 12345)
  }

  /** The checksum fold started from `acc`. */
  function ChecksumFrom(acc: u32, data: seq<u8>): u32 {
    if data == [] then acc else ChecksumStep(ChecksumFrom(acc, data[..|data| - 1]), data[|data| - 1])
  }

  /** `utils::calculate_checksum` as a value. */
  function Checksum(data: seq<u8>): u32 {
    ChecksumFrom(0, data)
  }

  /** The checksum of a concatenation continues from the checksum of its first part. */
  lemma {:induction false} ChecksumConcat(acc: u32, a: seq<u8>, b: seq<u8>)
    ensures ChecksumFrom(acc, a + b) == ChecksumFrom(ChecksumFrom(acc, a), b)
    decreases |b|
  {
    if b == [] {
      assert a + b == a;
    } else {
      var b' := b[..|b| - 1];
      assert (a + b)[..|a + b| - 1] == a + b';
      ChecksumConcat(acc, a, b');
    }
  }

  /** `utils::calculate_checksum`: the loop over the bytes. */
  method CalculateChecksum(data: seq<u8>) returns (checksum: u32)
    ensures checksum == Checksum(data)
    ensures VerifyChecksum(data, checksum)
  {
    checksum := 0;
    for i := 0 to |data|
      invariant checksum == ChecksumFrom(0, data[..i])
    {
      assert data[..i + 1][..i] == data[..i];
      checksum := Wrap32(checksum + data[i]);
      checksum := Wrap32(checksum * 1103515245);
      checksum := Wrap32(checksum + 12345);
    }
    assert data[..|data|] == data;
  }

  /**
   * `utils::verify_checksum`: a checksum that verifies the data is the
   * checksum of no copy of it with one byte changed.
   */
  predicate VerifyChecksum(data: seq<u8>, expected: u32): (r: bool)
    ensures r ==> forall i, b: u8 :: 0 <= i < |data| && b != data[i] ==> Checksum(ReplaceByte(data, i, b)) != expected
  {
    ChecksumSeesEveryByte(data);
    Checksum(data) == expected
  }

  /** `1103515245 * 4005161829 == 1029054899 * 2^32 + 1`: the multiplier is invertible modulo 2^32. */
  const CHECKSUM_INVERSE: nat := 4005161829

  /** On a natural number, wrapping is the remainder modulo 2^32. */
  lemma Wrap32IsMod(x: nat)
    ensures Wrap32(x) == x % 0x1_0000_0000
  {
    if x < 0x1_0000_0000 {
      ModUnique(x, 0x1_0000_0000, 0, x);
    }
  }

  /** Below 2^33, wrapping subtracts 2^32 at most once. */
  lemma Wrap32Once(x: nat)
    requires x < 0x2_0000_0000
    ensures Wrap32(x) == if x < 0x1_0000_0000 then x else x - 0x1_0000_0000
  {
    if x >= 0x1_0000_0000 {
      ModUnique(x, 0x1_0000_0000, 1, x - 0x1_0000_0000);
    }
  }

  /** Multiplying by the inverse undoes the wrapping multiplication by 1103515245. */
  lemma UndoMultiplier(x: u32)
    ensures Wrap32(Wrap32(x * 1103515245) * CHECKSUM_INVERSE) == x
  {
    var n := 0x1_0000_0000;
    var p := x * 1103515245;
    var q := p / n;
    var w := p % n;
    assert p == q * n + w;
    Wrap32IsMod(p);
    assert w * CHECKSUM_INVERSE == p * CHECKSUM_INVERSE - q * CHECKSUM_INVERSE * n;
    assert p * CHECKSUM_INVERSE == x * 1029054899 * n + x;
    var k := x * 1029054899 - q * CHECKSUM_INVERSE;
    assert w * CHECKSUM_INVERSE == k * n + x;
    assert k >= 0;
    ModUnique(w * CHECKSUM_INVERSE, n, k, x);
    Wrap32IsMod(w * CHECKSUM_INVERSE);
  }

  /** Equal steps come from equal wrapped sums of accumulator and byte. */
  lemma ChecksumStepInjective(a1: u32, b1: u8, a2: u32, b2: u8)
    requires ChecksumStep(a1, b1) == ChecksumStep(a2, b2)
    ensures Wrap32(a1 + b1) == Wrap32(a2 + b2)
  {
    WrapAddInjective(Wrap32(Wrap32(a1 + b1) * 1103515245), Wrap32(Wrap32(a2 + b2) * 1103515245), 12345);
    UndoMultiplier(Wrap32(a1 + b1));
    UndoMultiplier(Wrap32(a2 + b2));
  }

  /** Adding the same amount below 2^32 with wrap-around keeps distinct values distinct. */
  lemma WrapAddInjective(m1: u32, m2: u32, c: u32)
    requires Wrap32(m1 + c) == Wrap32(m2 + c)
    ensures m1 == m2
  {
    Wrap32Once(m1 + c);
    Wrap32Once(m2 + c);
  }

  /** Continuing the fold over the same bytes from two different accumulators gives two different results. */
  lemma {:induction false} ChecksumFromInjective(a1: u32, a2: u32, data: seq<u8>)
    requires ChecksumFrom(a1, data) == ChecksumFrom(a2, data)
    ensures a1 == a2
    decreases |data|
  {
    if data != [] {
      var init, last := data[..|data| - 1], data[|data| - 1];
      ChecksumStepInjective(ChecksumFrom(a1, init), last, ChecksumFrom(a2, init), last);
      Wrap32Once(ChecksumFrom(a1, init) + last);
      Wrap32Once(ChecksumFrom(a2, init) + last);
      ChecksumFromInjective(a1, a2, init);
    }
  }

  /**
   * A checksum that verifies some data rejects every copy of it with one
   * byte changed, wherever that byte is.
   */
  lemma ChecksumDetectsByteChange(prefix: seq<u8>, x: u8, y: u8, suffix: seq<u8>, expected: u32)
    requires x != y
    ensures VerifyChecksum(prefix + [x] + suffix, expected) ==> !VerifyChecksum(prefix + [y] + suffix, expected)
  {
    ChecksumChangesWithByte(prefix, x, y, suffix);
  }

  /** The data with the byte at position `i` replaced by `b`. */
  function ReplaceByte(data: seq<u8>, i: nat, b: u8): seq<u8>
    requires i < |data|
  {
    data[i := b]
  }

  /** Changing the byte at any one position of the data changes its checksum. */
  lemma ChecksumSeesEveryByte(data: seq<u8>)
    ensures forall i, b: u8 :: 0 <= i < |data| && b != data[i] ==> Checksum(ReplaceByte(data, i, b)) != Checksum(data)
  {
    forall i, b: u8 | 0 <= i < |data| && b != data[i]
      ensures Checksum(ReplaceByte(data, i, b)) != Checksum(data)
    {
      assert data == data[..i] + [data[i]] + data[i + 1..];
      assert ReplaceByte(data, i, b) == data[..i] + [b] + data[i + 1..];
      ChecksumChangesWithByte(data[..i], data[i], b, data[i + 1..]);
    }
  }

  /** The checksums of two texts that differ in one byte differ. */
  lemma ChecksumChangesWithByte(prefix: seq<u8>, x: u8, y: u8, suffix: seq<u8>)
    requires x != y
    ensures Checksum(prefix + [x] + suffix) != Checksum(prefix + [y] + suffix)
  {
    var c := Checksum(prefix);
    assert (prefix + [x])[..|prefix|] == prefix && (prefix + [y])[..|prefix|] == prefix;
    assert ChecksumFrom(0, prefix + [x]) == ChecksumStep(c, x);
    assert ChecksumFrom(0, prefix + [y]) == ChecksumStep(c, y);
    ChecksumConcat(0, prefix + [x], suffix);
    ChecksumConcat(0, prefix + [y], suffix);
    if Checksum(prefix + [x] + suffix) == Checksum(prefix + [y] + suffix) {
      ChecksumFromInjective(ChecksumStep(c, x), ChecksumStep(c, y), suffix);
      ChecksumStepInjective(c, x, c, y);
      Wrap32Once(c + x);
      Wrap32Once(c + y);
    }
  }

  // --------------------------------------------------------- byte counts

  function Pow10(k: nat): nat {
    if k == 0 then 1 else 10 * Pow10(k - 1)
  }

  /** A number below 10^k has at most k decimal digits. */
  lemma {:induction false} DecimalLength(n: nat, k: nat)
    requires k >= 1 && n < Pow10(k)
    ensures |NatToDecimal(n)| <= k
  {
    if n >= 10 {
      DecimalLength(n / 10, k - 1);
    }
  }

  /**
   * `utils::format_bytes`: "<n>B" below 1 KiB, "<n>KB" below 1 MiB,
   * "<n>MB" otherwise, with the count rounded down; it always fits the
   * 16-character buffer.
   */
  function FormatBytes(bytes: u32): (r: string)
    ensures |r| <= 16
    ensures bytes < 1024 ==>
      EndsWith(r, "B") && ParseUnsigned(r[..|r| - 1], U32_MAX) == Some(bytes)
    ensures 1024 <= bytes < 1024 * 1024 ==>
      EndsWith(r, "KB") && ParseUnsigned(r[..|r| - 2], U32_MAX) == Some(bytes / 1024)
    ensures 1024 * 1024 <= bytes ==>
      EndsWith(r, "MB") && ParseUnsigned(r[..|r| - 2], U32_MAX) == Some(bytes / (1024 * 1024))
  {
    var n := ScaledSize(bytes);
    var unit := if bytes < 1024 then "B" else if bytes < 1024 * 1024 then "KB" else "MB";
    CountWithUnit(n, unit);
    NatToDecimal(n) + unit
  }

  /** The count `format_bytes` prints: the bytes, KiB or MiB, rounded down; four digits at most. */
  function ScaledSize(bytes: u32): (n: nat)
    ensures n < 10000
    ensures bytes < 1024 ==> n == bytes
    ensures 1024 <= bytes < 1024 * 1024 ==> n == bytes / 1024
    ensures 1024 * 1024 <= bytes ==> n == bytes / (1024 * 1024)
  {
    if bytes < 1024 then bytes
    else if bytes < 1024 * 1024 then (QuotientAtMost(bytes, 1024, 1024); bytes / 1024)
    else (QuotientAtMost(bytes, 1024 * 1024, 4096); bytes / (1024 * 1024))
  }

  /** A count of at most four digits followed by its unit reads back as the count. */
  lemma CountWithUnit(n: nat, unit: string)
    requires n < 10000
    ensures |NatToDecimal(n) + unit| <= 4 + |unit|
    ensures EndsWith(NatToDecimal(n) + unit, unit)
    ensures ParseUnsigned((NatToDecimal(n) + unit)[..|NatToDecimal(n)|], U32_MAX) == Some(n)
  {
    var digits := NatToDecimal(n);
    DecimalRoundTrip(n, U32_MAX);
    assert Pow10(4) == 10000;
    DecimalLength(n, 4);
    var r := digits + unit;
    assert r[..|digits|] == digits;
    assert r[|r| - |unit|..] == unit;
  }
}
