/**
 * Flash persistence of the system configuration: the binary frame around
 * the serialized configuration, its XOR checksum, the 1024-byte flash
 * image, storage capacity figures, the in-memory mock backend and the
 * caching persistence manager.
 *
 * A frame is
 *
 *   0..3   magic 0xCA 0xFE 0xC0 0xDE
 *   4      format version 1
 *   5..6   payload length n, little-endian
 *   7..    the n payload bytes
 *   7 + n  the XOR of the payload bytes
 *
 * The payload is the JSON text of the configuration; producing and
 * parsing that text is not part of this model, so payloads are bytes.
 */
module ConfigFlash {
  import opened Wrappers
  import opened Ints

  const FLASH_CONFIG_OFFSET: u32 := 0x310000
  const FLASH_CONFIG_SIZE: nat := 1024
  const CONFIG_MAGIC_BYTES: seq<u8> := [0xCA, 0xFE, 0xC0, 0xDE]
  const CONFIG_VERSION: u8 := 1
  /** Header (magic, version, length) and trailing checksum byte together. */
  const FRAME_OVERHEAD: nat := 8
  const PAYLOAD_OFFSET: nat := 7
  const ERASED: u8 := 0xFF

  /** The two configuration error kinds the flash layer raises, with their messages. */
  datatype ConfigErrorKind = SerializationFailed(message: string) | StorageFailed(message: string)

  /** The errors of the ESP32 flash driver. */
  datatype FlashStorageError = OutOfBounds | Alignment | Other

  const TOO_LARGE: ConfigErrorKind := SerializationFailed("Configuration too large")

  /** `calculate_checksum`: the XOR of all bytes, folded from the left. */
  function Checksum(data: seq<u8>): u8
    decreases |data|
  {
    if |data| == 0 then 0 else Xor8(Checksum(data[..|data| - 1]), data[|data| - 1])
  }

  /** The checksum of a concatenation is the XOR of the checksums. */
  lemma {:induction false} ChecksumConcat(a: seq<u8>, b: seq<u8>)
    ensures Checksum(a + b) == Xor8(Checksum(a), Checksum(b))
    decreases |b|
  {
    if |b| == 0 {
      assert a + b == a;
      Xor8Identity(Checksum(a));
    } else {
      var b' := b[..|b| - 1];
      assert (a + b)[..|a + b| - 1] == a + b';
      ChecksumConcat(a, b');
      Xor8Assoc(Checksum(a), Checksum(b'), b[|b| - 1]);
    }
  }

  /**
   * Replacing one byte changes the checksum by exactly the XOR of the old
   * and the new byte, so every single-byte corruption is detected.
   */
  lemma ChecksumDetectsByteChange(data: seq<u8>, i: nat, x: u8)
    requires i < |data|
    ensures Xor8(Checksum(data[i := x]), Checksum(data)) == Xor8(x, data[i])
    ensures Checksum(data[i := x]) == Checksum(data) <==> x == data[i]
  {
    var p, s := data[..i], data[i + 1..];
    assert data == (p + [data[i]]) + s;
    assert data[i := x] == (p + [x]) + s;
    ChecksumConcat(p + [data[i]], s);
    ChecksumConcat(p + [x], s);
    assert (p + [x])[..|p + [x]| - 1] == p;
    assert (p + [data[i]])[..|p + [data[i]]| - 1] == p;
    Xor8Difference(Checksum(p), x, data[i], Checksum(s));
    Xor8ZeroIsEqual(Checksum(data[i := x]), Checksum(data));
    Xor8ZeroIsEqual(x, data[i]);
  }

  /** A payload of 7-bit bytes (ASCII, as JSON output without escapes beyond ASCII) has a checksum below 0x80. */
  lemma {:induction false} AsciiChecksum(data: seq<u8>)
    requires forall i :: 0 <= i < |data| ==> data[i] < 0x80
    ensures Checksum(data) < 0x80
    decreases |data|
  {
    if |data| > 0 {
      AsciiChecksum(data[..|data| - 1]);
      Xor8Below80(Checksum(data[..|data| - 1]), data[|data| - 1]);
    }
  }

  /** The frame `serialize_config` builds around a payload. */
  function Frame(payload: seq<u8>): (r: seq<u8>)
    requires |payload| <= U16_MAX
    ensures |r| == |payload| + FRAME_OVERHEAD
  {
    CONFIG_MAGIC_BYTES + [CONFIG_VERSION, Lo(|payload|), Hi(|payload|)] + payload + [Checksum(payload)]
  }

  /** `serialize_config` after the JSON step: the frame, or an error for a payload over 1016 bytes. */
  method SerializeFrame(payload: seq<u8>) returns (r: Result<seq<u8>, ConfigErrorKind>)
    ensures r.Err? <==> |payload| > FLASH_CONFIG_SIZE - FRAME_OVERHEAD
    ensures r.Err? ==> r.error == TOO_LARGE
    ensures r.Ok? ==> r.value == Frame(payload) && |r.value| <= FLASH_CONFIG_SIZE
  {
    var buffer: seq<u8> := [];
    for i := 0 to |CONFIG_MAGIC_BYTES|
      invariant buffer == CONFIG_MAGIC_BYTES[..i]
    {
      buffer := buffer + [CONFIG_MAGIC_BYTES[i]];
    }
    buffer := buffer + [CONFIG_VERSION];
    buffer := buffer + [0];
    buffer := buffer + [0];
    if |payload| > FLASH_CONFIG_SIZE - FRAME_OVERHEAD {
      return Err(TOO_LARGE);
    }
    var n: u16 := |payload|;
    buffer := buffer[5 := Lo(n)][6 := Hi(n)];
    ghost var header := buffer;
    assert header == CONFIG_MAGIC_BYTES + [CONFIG_VERSION, Lo(n), Hi(n)];
    for i := 0 to |payload|
      invariant buffer == header + payload[..i]
    {
      buffer := buffer + [payload[i]];
    }
    assert buffer[PAYLOAD_OFFSET..] == payload;
    var checksum := Checksum(buffer[PAYLOAD_OFFSET..]);
    buffer := buffer + [checksum];
    return Ok(buffer);
  }

  /** `deserialize_config` up to the JSON step: the checks in order, then the payload bytes. */
  function Deserialize(data: seq<u8>): (r: Result<seq<u8>, ConfigErrorKind>)
    ensures r.Ok? ==> |r.value| + FRAME_OVERHEAD <= |data|
  {
    if |data| < FRAME_OVERHEAD then Err(SerializationFailed("Data too short"))
    else if data[0..4] != CONFIG_MAGIC_BYTES then Err(SerializationFailed("Invalid magic bytes"))
    else if data[4] != CONFIG_VERSION then Err(SerializationFailed("Unsupported version"))
    else
      var dataLen := FromLe16(data[5], data[6]);
      if dataLen > |data| - FRAME_OVERHEAD then Err(SerializationFailed("Invalid data length"))
      else if data[PAYLOAD_OFFSET + dataLen] != Checksum(data[PAYLOAD_OFFSET..PAYLOAD_OFFSET + dataLen]) then
        Err(SerializationFailed("Checksum mismatch"))
      else Ok(data[PAYLOAD_OFFSET..PAYLOAD_OFFSET + dataLen])
  }

  /**
   * Deserialization accepts exactly the inputs that begin with the frame of
   * the payload it returns, whatever follows the frame.
   */
  lemma DeserializeAcceptsFrames(data: seq<u8>, p: seq<u8>)
    ensures Deserialize(data) == Ok(p) <==>
      (|p| <= U16_MAX && |p| + FRAME_OVERHEAD <= |data| && data[..|p| + FRAME_OVERHEAD] == Frame(p))
  {
    if |p| <= U16_MAX && |p| + FRAME_OVERHEAD <= |data| && data[..|p| + FRAME_OVERHEAD] == Frame(p) {
      DeserializeFramePrefix(data, p);
    }
    if Deserialize(data) == Ok(p) {
      DeserializedIsFramed(data, p);
    }
  }

  lemma DeserializeFramePrefix(data: seq<u8>, p: seq<u8>)
    requires |p| <= U16_MAX && |p| + FRAME_OVERHEAD <= |data| && data[..|p| + FRAME_OVERHEAD] == Frame(p)
    ensures Deserialize(data) == Ok(p)
  {
    var f := Frame(p);
    assert data[0..4] == f[0..4] == CONFIG_MAGIC_BYTES;
    assert data[4] == f[4] && data[5] == f[5] && data[6] == f[6];
    FromLe16OfBytes(|p|);
    assert data[PAYLOAD_OFFSET..PAYLOAD_OFFSET + |p|] == f[PAYLOAD_OFFSET..PAYLOAD_OFFSET + |p|] == p;
    assert data[PAYLOAD_OFFSET + |p|] == f[PAYLOAD_OFFSET + |p|];
  }

  lemma DeserializedIsFramed(data: seq<u8>, p: seq<u8>)
    requires Deserialize(data) == Ok(p)
    ensures |p| <= U16_MAX && |p| + FRAME_OVERHEAD <= |data| && data[..|p| + FRAME_OVERHEAD] == Frame(p)
  {
    var n := FromLe16(data[5], data[6]);
    assert n == |p|;
    assert data[..|p| + FRAME_OVERHEAD] == Frame(p);
  }

  /** Deserializing a serialized payload gives the payload back. */
  lemma DeserializeFrame(p: seq<u8>)
    requires |p| <= U16_MAX
    ensures Deserialize(Frame(p)) == Ok(p)
  {
    DeserializeAcceptsFrames(Frame(p), p);
    assert Frame(p)[..|p| + FRAME_OVERHEAD] == Frame(p);
  }

  function Erased(n: nat): (r: seq<u8>)
    ensures |r| == n && forall i :: 0 <= i < n ==> r[i] == ERASED
  {
    seq(n, _ => ERASED)
  }

  /** `save_config`'s flash buffer: the frame followed by erased (0xFF) bytes up to 1024. */
  function FlashImage(frame: seq<u8>): (r: seq<u8>)
    requires |frame| <= FLASH_CONFIG_SIZE
    ensures |r| == FLASH_CONFIG_SIZE && r[..|frame|] == frame
  {
    frame + Erased(FLASH_CONFIG_SIZE - |frame|)
  }

  /** `clear_config` writes an all-erased image. */
  const ERASED_IMAGE: seq<u8> := Erased(FLASH_CONFIG_SIZE)

  /** `save_config`: the flash image to write at FLASH_CONFIG_OFFSET, or the serialization error. */
  method SaveConfig(payload: seq<u8>) returns (r: Result<seq<u8>, ConfigErrorKind>)
    ensures r.Ok? <==> |payload| <= FLASH_CONFIG_SIZE - FRAME_OVERHEAD
    ensures r.Err? ==> r.error == TOO_LARGE
    ensures r.Ok? ==> r.value == FlashImage(Frame(payload))
  {
    var serialized := SerializeFrame(payload);
    if serialized.Err? {
      return Err(serialized.error);
    }
    var frame := serialized.value;
    var dataLen := Min(|frame|, FLASH_CONFIG_SIZE);
    return Ok(frame[..dataLen] + Erased(FLASH_CONFIG_SIZE - dataLen));
  }

  /** The error `save_config` reports for a failed flash write. */
  function WriteFailed(e: FlashStorageError): ConfigErrorKind {
    match e
    case OutOfBounds => StorageFailed("Flash out of bounds")
    case Alignment => StorageFailed("Flash alignment error")
    case Other => StorageFailed("Flash write error")
  }

  /** The error `load_config` reports for a failed flash read. */
  function ReadFailed(e: FlashStorageError): ConfigErrorKind {
    match e
    case OutOfBounds => StorageFailed("Flash out of bounds")
    case Alignment => StorageFailed("Flash alignment error")
    case Other => StorageFailed("Flash read error")
  }

  /** The length of a buffer without its trailing erased bytes. */
  function DataEnd(b: seq<u8>): (r: nat)
    ensures r <= |b|
    ensures r > 0 ==> b[r - 1] != ERASED
    ensures forall j :: r <= j < |b| ==> b[j] == ERASED
    decreases |b|
  {
    if |b| == 0 then 0
    else if b[|b| - 1] != ERASED then |b|
    else DataEnd(b[..|b| - 1])
  }

  /** `load_config`'s `actual_len`: one past the last non-erased byte, or the whole buffer if all are erased. */
  function ActualLength(b: seq<u8>): (r: nat)
    ensures r <= |b|
  {
    if DataEnd(b) == 0 then |b| else DataEnd(b)
  }

  /** Erased padding after a buffer does not move its data end. */
  lemma {:induction false} DataEndPadded(b: seq<u8>, k: nat)
    ensures DataEnd(b + Erased(k)) == DataEnd(b)
    decreases k
  {
    if k == 0 {
      assert b + Erased(k) == b;
    } else {
      assert (b + Erased(k))[..|b| + k - 1] == b + Erased(k - 1);
      DataEndPadded(b, k - 1);
    }
  }

  /**
   * `load_config` as written: the read buffer is cut after its last
   * non-erased byte before it is deserialized.
   */
  method LoadConfigAsWritten(read: Result<seq<u8>, FlashStorageError>) returns (r: Result<seq<u8>, ConfigErrorKind>)
    requires read.Ok? ==> |read.value| == FLASH_CONFIG_SIZE
    ensures read.Err? ==> r == Err(ReadFailed(read.error))
    ensures read.Ok? ==> r == Deserialize(read.value[..ActualLength(read.value)])
  {
    if read.Err? {
      return Err(ReadFailed(read.error));
    }
    var buffer := read.value;
    var actualLen := FLASH_CONFIG_SIZE;
    var i := |buffer|;
    while i > 0
      invariant 0 <= i <= |buffer|
      invariant DataEnd(buffer[..i]) == DataEnd(buffer)
      invariant actualLen == FLASH_CONFIG_SIZE
    {
      assert buffer[..i][..i - 1] == buffer[..i - 1];
      i := i - 1;
      if buffer[i] != ERASED {
        actualLen := i + 1;
        break;
      }
    }
    assert actualLen == ActualLength(buffer);
    return Deserialize(buffer[..actualLen]);
  }

  /** Saving then loading as written recovers the payload whenever its checksum is not 0xFF. */
  lemma LoadAsWrittenAfterSave(p: seq<u8>)
    requires |p| <= FLASH_CONFIG_SIZE - FRAME_OVERHEAD && Checksum(p) != ERASED
    ensures Deserialize(FlashImage(Frame(p))[..ActualLength(FlashImage(Frame(p)))]) == Ok(p)
  {
    var f := Frame(p);
    var img := FlashImage(f);
    assert f[|f| - 1] == Checksum(p);
    assert DataEnd(f) == |f|;
    DataEndPadded(f, FLASH_CONFIG_SIZE - |f|);
    assert img == f + Erased(FLASH_CONFIG_SIZE - |f|);
    assert ActualLength(img) == |f|;
    assert img[..|f|] == f;
    DeserializeFrame(p);
  }

  /** A payload whose checksum is 0xFF loses its checksum to the trimming and does not load back. */
  lemma ErasedChecksumIsLost()
    ensures Checksum([0xFF]) == ERASED
    ensures Deserialize(FlashImage(Frame([0xFF]))[..ActualLength(FlashImage(Frame([0xFF])))]) ==
      Err(SerializationFailed("Data too short"))
  {
    var p: seq<u8> := [0xFF];
    assert Checksum(p) == Xor8(0, 0xFF) == 0xFF by {
      assert p[..0] == [];
      Xor8Identity(0xFF);
    }
    var f := Frame(p);
    assert f == [0xCA, 0xFE, 0xC0, 0xDE, 1, 1, 0, 0xFF, 0xFF];
    DataEndPadded(f, FLASH_CONFIG_SIZE - |f|);
    assert f[..8][..7] == f[..7];
    assert f[..9][..8] == f[..8];
    assert DataEnd(f[..7]) == 7;
    assert DataEnd(f) == DataEnd(f[..8]) == DataEnd(f[..7]);
  }

  /** JSON text of ASCII characters never hits that case. */
  lemma AsciiPayloadLoadsAsWritten(p: seq<u8>)
    requires |p| <= FLASH_CONFIG_SIZE - FRAME_OVERHEAD
    requires forall i :: 0 <= i < |p| ==> p[i] < 0x80
    ensures Deserialize(FlashImage(Frame(p))[..ActualLength(FlashImage(Frame(p)))]) == Ok(p)
  {
    AsciiChecksum(p);
    LoadAsWrittenAfterSave(p);
  }

  /** `load_config` as intended: the frame's own length field delimits it, so the whole buffer is deserialized. */
  method LoadConfig(read: Result<seq<u8>, FlashStorageError>) returns (r: Result<seq<u8>, ConfigErrorKind>)
    requires read.Ok? ==> |read.value| == FLASH_CONFIG_SIZE
    ensures read.Err? ==> r == Err(ReadFailed(read.error))
    ensures read.Ok? ==> r == Deserialize(read.value)
  {
    if read.Err? {
      return Err(ReadFailed(read.error));
    }
    return Deserialize(read.value);
  }

  /** With the corrected load, every saved payload loads back, and an erased region holds no configuration. */
  lemma LoadAfterSave(p: seq<u8>)
    requires |p| <= FLASH_CONFIG_SIZE - FRAME_OVERHEAD
    ensures Deserialize(FlashImage(Frame(p))) == Ok(p)
    ensures Deserialize(ERASED_IMAGE) == Err(SerializationFailed("Invalid magic bytes"))
  {
    var f := Frame(p);
    DeserializeAcceptsFrames(FlashImage(f), p);
    assert ERASED_IMAGE[0..4] != CONFIG_MAGIC_BYTES by {
      assert ERASED_IMAGE[0] == ERASED;
    }
  }

  /** `config_exists`: the first four bytes read are the magic. */
  function ConfigExists(header: Result<seq<u8>, FlashStorageError>): (r: Result<bool, ConfigErrorKind>)
    requires header.Ok? ==> |header.value| == FRAME_OVERHEAD
    ensures header.Err? ==> r == Err(StorageFailed("Flash read error"))
    ensures header.Ok? ==> r.Ok? && (r.value <==> header.value[0..4] == CONFIG_MAGIC_BYTES)
  {
    if header.Err? then Err(StorageFailed("Flash read error")) else Ok(header.value[0..4] == CONFIG_MAGIC_BYTES)
  }

  /** The header of a saved image shows a configuration; that of a cleared one does not. */
  lemma ExistsAfterSaveAndClear(p: seq<u8>)
    requires |p| <= FLASH_CONFIG_SIZE - FRAME_OVERHEAD
    ensures ConfigExists(Ok(FlashImage(Frame(p))[..FRAME_OVERHEAD])) == Ok(true)
    ensures ConfigExists(Ok(ERASED_IMAGE[..FRAME_OVERHEAD])) == Ok(false)
  {
    var img := FlashImage(Frame(p));
    assert img[..FRAME_OVERHEAD][0..4] == Frame(p)[0..4] == CONFIG_MAGIC_BYTES;
    assert ERASED_IMAGE[..FRAME_OVERHEAD][0] == ERASED;
  }

  const CLEAR_FAILED: ConfigErrorKind := StorageFailed("Flash erase error")

  /** Storage capacity figures, in bytes (`usize`, 32 bits). */
  datatype StorageCapacity = StorageCapacity(totalBytes: u32, usedBytes: u32, availableBytes: u32)

  /** `StorageCapacity::new`: the available bytes are the total less the used, saturating at 0. */
  function NewCapacity(total: u32, used: u32): (r: StorageCapacity)
    ensures r.totalBytes == total && r.usedBytes == used
    ensures used <= total ==> r.usedBytes + r.availableBytes == r.totalBytes
    ensures used >= total ==> r.availableBytes == 0
  {
    StorageCapacity(total, used, SatSub(total, used))
  }

  /** `usage_percentage`: `used * 100 / total` in wrapping `usize`, truncated to `u8`; 0 for an empty total. */
  function UsagePercentage(c: StorageCapacity): (r: u8)
    ensures c.totalBytes == 0 ==> r == 0
    ensures c.totalBytes > 0 && c.usedBytes <= c.totalBytes && c.usedBytes * 100 <= U32_MAX ==>
      (r <= 100 && r * c.totalBytes <= c.usedBytes * 100 < (r + 1) * c.totalBytes)
  {
    if c.totalBytes == 0 then 0
    else
      var q: nat := Wrap32(c.usedBytes * 100) / c.totalBytes;
      if c.usedBytes <= c.totalBytes && c.usedBytes * 100 <= U32_MAX then
        DivBounds(c.usedBytes * 100, c.totalBytes);
        QuotientAtMost(c.usedBytes * 100, c.totalBytes, 100);
        Wrap8(q)
      else Wrap8(q)
  }

  /** `is_nearly_full`: usage above 90 percent. */
  predicate IsNearlyFull(c: StorageCapacity) {
    UsagePercentage(c) > 90
  }

  /** Without wrap-around, storage is nearly full exactly when at least 91 % of it is used. */
  lemma NearlyFullThreshold(c: StorageCapacity)
    requires c.totalBytes > 0 && c.usedBytes <= c.totalBytes && c.usedBytes * 100 <= U32_MAX
    ensures IsNearlyFull(c) <==> c.usedBytes * 100 >= 91 * c.totalBytes
  {
    var r := UsagePercentage(c);
    if r >= 91 {
      MulLe(91, r, c.totalBytes);
    } else {
      MulLe(r + 1, 91, c.totalBytes);
    }
  }

  /** `FlashConfigManager::get_capacity`: 1024 bytes, none counted as used. */
  const FLASH_CAPACITY: StorageCapacity := NewCapacity(FLASH_CONFIG_SIZE, 0)

  const MOCK_USED_BYTES: u32 := 256

  /** The in-memory configuration storage used for testing. */
  class MockStorage<C> {
    var config: Option<C>
    var capacity: StorageCapacity

    /** A stored configuration counts 256 bytes as used; the total stays 1024. */
    ghost predicate Valid()
      reads this
    {
      capacity.totalBytes == FLASH_CONFIG_SIZE
      && capacity.usedBytes + capacity.availableBytes == capacity.totalBytes
      && capacity.usedBytes == (if config.Some? then MOCK_USED_BYTES else 0)
    }

    constructor ()
      ensures Valid() && config == None && capacity == NewCapacity(FLASH_CONFIG_SIZE, 0)
    {
      config := None;
      capacity := NewCapacity(FLASH_CONFIG_SIZE, 0);
    }

    /** `set_config`: store a configuration directly. */
    method SetConfig(c: C)
      requires Valid()
      modifies this
      ensures Valid() && config == Some(c)
      ensures capacity == StorageCapacity(FLASH_CONFIG_SIZE, MOCK_USED_BYTES, FLASH_CONFIG_SIZE - MOCK_USED_BYTES)
    {
      config := Some(c);
      capacity := capacity.(usedBytes := MOCK_USED_BYTES);
      capacity := capacity.(availableBytes := capacity.totalBytes - capacity.usedBytes);
    }

    /** `save_config`: never fails. */
    method SaveConfig(c: C) returns (r: Result<(), ConfigErrorKind>)
      requires Valid()
      modifies this
      ensures Valid() && r == Ok(()) && config == Some(c)
      ensures capacity == StorageCapacity(FLASH_CONFIG_SIZE, MOCK_USED_BYTES, FLASH_CONFIG_SIZE - MOCK_USED_BYTES)
    {
      config := Some(c);
      capacity := capacity.(usedBytes := MOCK_USED_BYTES);
      capacity := capacity.(availableBytes := capacity.totalBytes - capacity.usedBytes);
      return Ok(());
    }

    /** `load_config`: the stored configuration, or an error when there is none. */
    function LoadConfig(): (r: Result<C, ConfigErrorKind>)
      reads this
      ensures r.Ok? <==> config.Some?
      ensures r.Ok? ==> config == Some(r.value)
      ensures r.Err? ==> r.error == StorageFailed("No config found")
    {
      if config.Some? then Ok(config.value) else Err(StorageFailed("No config found"))
    }

    function ConfigExists(): (r: Result<bool, ConfigErrorKind>)
      reads this
      ensures r.Ok? && (r.value <==> LoadConfig().Ok?)
    {
      Ok(config.Some?)
    }

    /** `clear_config`: drop the configuration and free its bytes. */
    method ClearConfig() returns (r: Result<(), ConfigErrorKind>)
      requires Valid()
      modifies this
      ensures Valid() && r == Ok(()) && config == None
      ensures capacity == NewCapacity(FLASH_CONFIG_SIZE, 0)
    {
      config := None;
      capacity := capacity.(usedBytes := 0);
      capacity := capacity.(availableBytes := capacity.totalBytes);
      return Ok(());
    }

    function GetCapacity(): (r: StorageCapacity)
      requires Valid()
      reads this
      ensures r.totalBytes == FLASH_CONFIG_SIZE && r.usedBytes + r.availableBytes == FLASH_CONFIG_SIZE
      ensures r.usedBytes > 0 <==> config.Some?
    {
      capacity
    }
  }

  /** `storage_utils::backup_config`: copy the primary's configuration into the backup. */
  method BackupConfig<C>(primary: MockStorage<C>, backup: MockStorage<C>) returns (r: Result<(), ConfigErrorKind>)
    requires primary != backup && primary.Valid() && backup.Valid()
    modifies backup
    ensures backup.Valid()
    ensures r.Ok? <==> primary.config.Some?
    ensures r.Err? ==> r == Err(StorageFailed("No config found")) && unchanged(backup)
    ensures r.Ok? ==> backup.config == primary.config
  {
    var loaded := primary.LoadConfig();
    if loaded.Err? {
      return Err(loaded.error);
    }
    r := backup.SaveConfig(loaded.value);
  }

  /**
   * The caching configuration manager over its storage backend.  A clean
   * cache always equals what the storage holds, so `load` answers as the
   * storage would.
   */
  class ConfigPersistenceManager<C> {
    const storage: MockStorage<C>
    var cachedConfig: Option<C>
    var dirty: bool

    ghost predicate Valid()
      reads this, storage
    {
      storage.Valid() && (cachedConfig.Some? && !dirty ==> cachedConfig == storage.config)
    }

    constructor (storage: MockStorage<C>)
      requires storage.Valid()
      ensures Valid() && this.storage == storage && cachedConfig == None && !dirty
    {
      this.storage := storage;
      cachedConfig := None;
      dirty := false;
    }

    /** `load`: a clean cached configuration, else whatever the storage loads (which then becomes the clean cache). */
    method Load() returns (r: Result<C, ConfigErrorKind>)
      requires Valid()
      modifies this
      ensures Valid() && r == storage.LoadConfig()
      ensures old(cachedConfig.Some? && !dirty) ==> r == Ok(old(cachedConfig).value) && unchanged(this)
      ensures !old(cachedConfig.Some? && !dirty) && r.Ok? ==> cachedConfig == Some(r.value) && !dirty
      ensures r.Err? ==> unchanged(this)
    {
      if cachedConfig.Some? && !dirty {
        return Ok(cachedConfig.value);
      }
      r := storage.LoadConfig();
      if r.Ok? {
        cachedConfig := Some(r.value);
        dirty := false;
      }
    }

    /**
     * `save`: store, then keep the saved configuration as the clean cache.
     * `backend` is what the backend's `save_config` reports: the mock always
     * reports `Ok`, the flash manager `TOO_LARGE` for an oversized payload or
     * a write error.  A reported error is passed up by `?` before the cache
     * is touched.
     */
    method Save(c: C, backend: Result<(), ConfigErrorKind>) returns (r: Result<(), ConfigErrorKind>)
      requires Valid()
      modifies this, storage
      ensures Valid() && r == backend
      ensures r.Ok? ==> storage.config == Some(c) && cachedConfig == Some(c) && !dirty
      ensures r.Err? ==> unchanged(this) && unchanged(storage)
    {
      if backend.Err? {
        return backend;
      }
      var _ := storage.SaveConfig(c);
      cachedConfig := Some(c);
      dirty := false;
      r := backend;
    }

    /** `update_cache`: replace the cached configuration and mark it dirty. */
    method UpdateCache(c: C)
      requires Valid()
      modifies this
      ensures Valid() && cachedConfig == Some(c) && dirty
    {
      cachedConfig := Some(c);
      dirty := true;
    }

    function Exists(): (r: Result<bool, ConfigErrorKind>)
      reads this, storage
      ensures r == storage.ConfigExists()
    {
      storage.ConfigExists()
    }

    /**
     * `clear`: clear the storage and the cache.  `backend` is what the
     * backend's `clear_config` reports (always `Ok` for the mock, a write
     * error for the flash manager); an error is passed up with the cache kept.
     */
    method Clear(backend: Result<(), ConfigErrorKind>) returns (r: Result<(), ConfigErrorKind>)
      requires Valid()
      modifies this, storage
      ensures Valid() && r == backend
      ensures r.Ok? ==> storage.config == None && cachedConfig == None && !dirty
      ensures r.Err? ==> unchanged(this) && unchanged(storage)
    {
      if backend.Err? {
        return backend;
      }
      var _ := storage.ClearConfig();
      cachedConfig := None;
      dirty := false;
      r := backend;
    }

    /** `reload`: load from the storage regardless of the cache. */
    method Reload() returns (r: Result<C, ConfigErrorKind>)
      requires Valid()
      modifies this
      ensures Valid() && r == storage.LoadConfig()
      ensures r.Ok? ==> cachedConfig == Some(r.value) && !dirty
      ensures r.Err? ==> unchanged(this)
    {
      r := storage.LoadConfig();
      if r.Ok? {
        cachedConfig := Some(r.value);
        dirty := false;
      }
    }

    function GetCapacity(): (r: StorageCapacity)
      requires Valid()
      reads this, storage
      ensures r == storage.capacity
    {
      storage.GetCapacity()
    }

    function IsDirty(): bool
      reads this
    {
      dirty
    }

    function GetCached(): Option<C>
      reads this
    {
      cachedConfig
    }
  }

  /**
   * A save the backend refuses (the flash manager's `TOO_LARGE`, say) leaves
   * the manager loading exactly what the storage held before.
   */
  method FailedSaveKeepsLoad<C>(m: ConfigPersistenceManager<C>, c: C, e: ConfigErrorKind) returns (saved: Result<(), ConfigErrorKind>, loaded: Result<C, ConfigErrorKind>)
    requires m.Valid()
    modifies m, m.storage
    ensures saved == Err(e)
    ensures loaded == old(m.storage.LoadConfig())
  {
    saved := m.Save(c, Err(e));
    loaded := m.Load();
  }

  /**
   * A save followed by a load answers from the cache with the saved
   * configuration; an update followed by a load discards the update and
   * answers with the stored one.
   */
  method SaveUpdateLoad<C>(m: ConfigPersistenceManager<C>, saved: C, updated: C) returns (first: Result<C, ConfigErrorKind>, second: Result<C, ConfigErrorKind>)
    requires m.Valid()
    modifies m, m.storage
    ensures first == Ok(saved) && second == Ok(saved)
  {
    var _ := m.Save(saved, Ok(()));
    first := m.Load();
    m.UpdateCache(updated);
    second := m.Load();
  }
}
