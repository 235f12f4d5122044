/**
 * The main application's persistent WiFi/MQTT credentials and its serial
 * console line editor.  Credentials live in three fixed-size byte arrays
 * with explicit lengths and are saved to flash as one 256-byte record:
 *
 *   0..1   magic 0xCA 0xFE
 *   2..4   lengths of the SSID, the password and the broker address
 *   5..6   broker port, little-endian
 *   7      reserved (0)
 *   8..    SSID (up to 32 bytes), 40.. password (up to 64), 104.. broker (up to 16)
 *
 * All other bytes of a saved record are zero.
 */
module MainApp {
  import opened Wrappers
  import opened Ints

  const SSID_CAPACITY: nat := 32
  const PASSWORD_CAPACITY: nat := 64
  const BROKER_IP_CAPACITY: nat := 16
  const WIFI_CONFIG_SIZE: nat := 256
  const WIFI_CONFIG_FLASH_OFFSET: u32 := 0x310000
  const SSID_OFFSET: nat := 8
  const PASSWORD_OFFSET: nat := 40
  const BROKER_IP_OFFSET: nat := 104

  /** "10.10.10.210" */
  const DEFAULT_BROKER_IP: seq<u8> := [0x31, 0x30, 0x2E, 0x31, 0x30, 0x2E, 0x31, 0x30, 0x2E, 0x32, 0x31, 0x30]
  const DEFAULT_BROKER_PORT: u16 := 1883

  function Zeros(n: nat): (r: seq<u8>)
    ensures |r| == n && forall i :: 0 <= i < n ==> r[i] == 0
  {
    seq(n, _ => 0)
  }

  /** What a credentials value shows through its getters: the used prefix of each array. */
  datatype Credentials = Credentials(ssid: seq<u8>, password: seq<u8>, brokerIp: seq<u8>, brokerPort: u16, isConfigured: bool)
  {
    predicate WithinCapacity() {
      |ssid| <= SSID_CAPACITY && |password| <= PASSWORD_CAPACITY && |brokerIp| <= BROKER_IP_CAPACITY
    }
  }

  /** `WifiCredentials::new()`: nothing set, the default broker, unconfigured. */
  const DEFAULT_CREDENTIALS: Credentials := Credentials([], [], DEFAULT_BROKER_IP, DEFAULT_BROKER_PORT, false)

  /** Byte `j` of the record `save_wifi_credentials` writes. */
  function RecordByte(v: Credentials, j: nat): u8
    requires v.WithinCapacity()
  {
    if j == 0 then 0xCA
    else if j == 1 then 0xFE
    else if j == 2 then |v.ssid|
    else if j == 3 then |v.password|
    else if j == 4 then |v.brokerIp|
    else if j == 5 then Lo(v.brokerPort)
    else if j == 6 then Hi(v.brokerPort)
    else if SSID_OFFSET <= j < SSID_OFFSET + |v.ssid| then v.ssid[j - SSID_OFFSET]
    else if PASSWORD_OFFSET <= j < PASSWORD_OFFSET + |v.password| then v.password[j - PASSWORD_OFFSET]
    else if BROKER_IP_OFFSET <= j < BROKER_IP_OFFSET + |v.brokerIp| then v.brokerIp[j - BROKER_IP_OFFSET]
    else 0
  }

  /** A record buffer holds the bytes of `v` below `p` and zeros from `p` on. */
  ghost predicate Built(b: seq<u8>, v: Credentials, p: nat)
    requires v.WithinCapacity()
  {
    |b| == WIFI_CONFIG_SIZE && forall j :: 0 <= j < WIFI_CONFIG_SIZE ==> b[j] == if j < p then RecordByte(v, j) else 0
  }

  /** Between the header and the end, each field's bytes are followed by zeros up to the next field. */
  lemma RecordFields(v: Credentials)
    requires v.WithinCapacity()
    ensures forall j :: SSID_OFFSET <= j < PASSWORD_OFFSET ==>
      RecordByte(v, j) == if j < SSID_OFFSET + |v.ssid| then v.ssid[j - SSID_OFFSET] else 0
    ensures forall j :: PASSWORD_OFFSET <= j < BROKER_IP_OFFSET ==>
      RecordByte(v, j) == if j < PASSWORD_OFFSET + |v.password| then v.password[j - PASSWORD_OFFSET] else 0
    ensures forall j :: BROKER_IP_OFFSET <= j < WIFI_CONFIG_SIZE ==>
      RecordByte(v, j) == if j < BROKER_IP_OFFSET + |v.brokerIp| then v.brokerIp[j - BROKER_IP_OFFSET] else 0
  {
  }

  lemma BuiltIsRecord(b: seq<u8>, v: Credentials)
    requires v.WithinCapacity() && Built(b, v, WIFI_CONFIG_SIZE)
    ensures b == EncodeRecord(v)
  {
  }

  /** The 256-byte flash record of a credentials value. */
  function EncodeRecord(v: Credentials): (r: seq<u8>)
    requires v.WithinCapacity()
    ensures |r| == WIFI_CONFIG_SIZE
    ensures r[0] == 0xCA && r[1] == 0xFE && r[7] == 0
    ensures r[2] == |v.ssid| && r[3] == |v.password| && r[4] == |v.brokerIp|
    ensures FromLe16(r[5], r[6]) == v.brokerPort
    ensures forall j :: 120 <= j < WIFI_CONFIG_SIZE ==> r[j] == 0
  {
    HiLo(v.brokerPort);
    seq(WIFI_CONFIG_SIZE, j requires 0 <= j => RecordByte(v, j))
  }

  /** A record whose magic and three lengths `load_wifi_credentials` accepts. */
  predicate AcceptedRecord(b: seq<u8>)
    requires |b| == WIFI_CONFIG_SIZE
  {
    b[0] == 0xCA && b[1] == 0xFE
    && b[2] <= SSID_CAPACITY && b[3] <= PASSWORD_CAPACITY && b[4] <= BROKER_IP_CAPACITY
  }

  /** What `load_wifi_credentials` makes of a record read from flash. */
  function DecodeRecord(b: seq<u8>): (r: Credentials)
    requires |b| == WIFI_CONFIG_SIZE
    ensures r.WithinCapacity() && |r.brokerIp| > 0
  {
    if AcceptedRecord(b) then
      Credentials(b[SSID_OFFSET..SSID_OFFSET + b[2]],
                  b[PASSWORD_OFFSET..PASSWORD_OFFSET + b[3]],
                  if b[4] > 0 then b[BROKER_IP_OFFSET..BROKER_IP_OFFSET + b[4]] else DEFAULT_BROKER_IP,
                  FromLe16(b[5], b[6]),
                  b[2] > 0 && b[3] > 0)
    else DEFAULT_CREDENTIALS
  }

  /**
   * Loading a saved record gives back what was saved, except that an empty
   * broker address comes back as the default one and the configured flag
   * is recomputed from the SSID and password lengths.
   */
  lemma LoadAfterSave(v: Credentials)
    requires v.WithinCapacity()
    ensures DecodeRecord(EncodeRecord(v)) ==
      v.(brokerIp := if |v.brokerIp| == 0 then DEFAULT_BROKER_IP else v.brokerIp,
         isConfigured := |v.ssid| > 0 && |v.password| > 0)
  {
    var b := EncodeRecord(v);
    assert b[SSID_OFFSET..SSID_OFFSET + |v.ssid|] == v.ssid by {
      forall j | 0 <= j < |v.ssid| ensures b[SSID_OFFSET + j] == v.ssid[j] {
        assert b[SSID_OFFSET + j] == RecordByte(v, SSID_OFFSET + j);
      }
    }
    assert b[PASSWORD_OFFSET..PASSWORD_OFFSET + |v.password|] == v.password by {
      forall j | 0 <= j < |v.password| ensures b[PASSWORD_OFFSET + j] == v.password[j] {
        assert b[PASSWORD_OFFSET + j] == RecordByte(v, PASSWORD_OFFSET + j);
      }
    }
    assert b[BROKER_IP_OFFSET..BROKER_IP_OFFSET + |v.brokerIp|] == v.brokerIp by {
      forall j | 0 <= j < |v.brokerIp| ensures b[BROKER_IP_OFFSET + j] == v.brokerIp[j] {
        assert b[BROKER_IP_OFFSET + j] == RecordByte(v, BROKER_IP_OFFSET + j);
      }
    }
  }

  /**
   * A record with bad magic or an over-long length loads the defaults; a
   * loaded record is configured exactly when it is accepted and neither
   * the SSID nor the password is empty.
   */
  lemma LoadRejectsBadRecord(b: seq<u8>)
    requires |b| == WIFI_CONFIG_SIZE
    ensures !AcceptedRecord(b) ==> DecodeRecord(b) == DEFAULT_CREDENTIALS
    ensures DecodeRecord(b).isConfigured <==> AcceptedRecord(b) && b[2] > 0 && b[3] > 0
    ensures DecodeRecord(b).brokerPort == if AcceptedRecord(b) then FromLe16(b[5], b[6]) else DEFAULT_BROKER_PORT
  {
  }

  /** A loaded value can be saved again, and saving and loading it once more changes nothing. */
  lemma LoadIsStable(b: seq<u8>)
    requires |b| == WIFI_CONFIG_SIZE
    ensures DecodeRecord(EncodeRecord(DecodeRecord(b))) == DecodeRecord(b)
  {
    LoadAfterSave(DecodeRecord(b));
  }

  /** The credentials record of the main application (`WifiCredentials`). */
  class WifiCredentials {
    const ssid: array<u8>
    var ssidLen: u8
    const password: array<u8>
    var passwordLen: u8
    const mqttBrokerIp: array<u8>
    var mqttBrokerIpLen: u8
    var mqttBrokerPort: u16
    var isConfigured: bool

    predicate Valid()
      reads this
    {
      ssid.Length == SSID_CAPACITY && password.Length == PASSWORD_CAPACITY && mqttBrokerIp.Length == BROKER_IP_CAPACITY
      && ssidLen <= SSID_CAPACITY && passwordLen <= PASSWORD_CAPACITY && mqttBrokerIpLen <= BROKER_IP_CAPACITY
    }

    /** The getters' view: `ssid[..ssid_len]`, `password[..password_len]`, `mqtt_broker_ip[..mqtt_broker_ip_len]`. */
    function Value(): (v: Credentials)
      requires Valid()
      reads this, ssid, password, mqttBrokerIp
      ensures v.WithinCapacity()
    {
      Credentials(ssid[..ssidLen], password[..passwordLen], mqttBrokerIp[..mqttBrokerIpLen], mqttBrokerPort, isConfigured)
    }

    /** `WifiCredentials::new()`. */
    constructor ()
      ensures Valid() && fresh(ssid) && fresh(password) && fresh(mqttBrokerIp)
      ensures Value() == DEFAULT_CREDENTIALS
      ensures ssid[..] == Zeros(SSID_CAPACITY) && password[..] == Zeros(PASSWORD_CAPACITY)
      ensures mqttBrokerIp[..] == DEFAULT_BROKER_IP + Zeros(4)
    {
      ssid := new u8[SSID_CAPACITY](_ => 0);
      ssidLen := 0;
      password := new u8[PASSWORD_CAPACITY](_ => 0);
      passwordLen := 0;
      mqttBrokerIp := new u8[BROKER_IP_CAPACITY]((i: int) => if 0 <= i < 12 then DEFAULT_BROKER_IP[i] else 0);
      mqttBrokerIpLen := 12;
      mqttBrokerPort := DEFAULT_BROKER_PORT;
      isConfigured := false;
      new;
      assert mqttBrokerIp[..12] == DEFAULT_BROKER_IP;
      assert mqttBrokerIp[..] == DEFAULT_BROKER_IP + Zeros(4);
    }

    /** `dst[offset..offset + n].copy_from_slice(&src[..n])`. */
    static method CopyFrom(dst: array<u8>, offset: nat, src: seq<u8>, n: nat)
      requires n <= |src| && offset + n <= dst.Length
      modifies dst
      ensures forall j :: 0 <= j < dst.Length ==> dst[j] == (if offset <= j < offset + n then src[j - offset] else old(dst[j]))
    {
      forall j | offset <= j < offset + n {
        dst[j] := src[j - offset];
      }
    }

    /** Copy `bytes` to the front of `a` and clear the rest of it. */
    static method CopyPadded(a: array<u8>, bytes: seq<u8>)
      requires |bytes| <= a.Length
      modifies a
      ensures a[..] == bytes + Zeros(a.Length - |bytes|)
    {
      forall j | 0 <= j < |bytes| {
        a[j] := bytes[j];
      }
      for i := |bytes| to a.Length
        invariant forall j :: 0 <= j < |bytes| ==> a[j] == bytes[j]
        invariant forall j :: |bytes| <= j < i ==> a[j] == 0
      {
        a[i] := 0;
      }
      assert a[..] == bytes + Zeros(a.Length - |bytes|) by {
        forall j | 0 <= j < a.Length ensures a[j] == (bytes + Zeros(a.Length - |bytes|))[j] {
        }
      }
    }

    /** `set_ssid`: accepted iff at most 32 bytes; the configured flag is left to the caller. */
    method SetSsid(bytes: seq<u8>) returns (ok: bool)
      requires Valid()
      modifies this, ssid
      ensures Valid()
      ensures ok <==> |bytes| <= SSID_CAPACITY
      ensures ok ==> Value() == old(Value()).(ssid := bytes) && ssid[..] == bytes + Zeros(SSID_CAPACITY - |bytes|)
      ensures !ok ==> Value() == old(Value()) && ssid[..] == old(ssid[..])
    {
      if |bytes| <= SSID_CAPACITY {
        CopyPadded(ssid, bytes);
        ssidLen := |bytes|;
        assert ssid[..ssidLen] == bytes;
        ok := true;
      } else {
        ok := false;
      }
    }

    /** `set_password`: accepted iff at most 64 bytes. */
    method SetPassword(bytes: seq<u8>) returns (ok: bool)
      requires Valid()
      modifies this, password
      ensures Valid()
      ensures ok <==> |bytes| <= PASSWORD_CAPACITY
      ensures ok ==> Value() == old(Value()).(password := bytes) && password[..] == bytes + Zeros(PASSWORD_CAPACITY - |bytes|)
      ensures !ok ==> Value() == old(Value()) && password[..] == old(password[..])
    {
      if |bytes| <= PASSWORD_CAPACITY {
        CopyPadded(password, bytes);
        passwordLen := |bytes|;
        assert password[..passwordLen] == bytes;
        ok := true;
      } else {
        ok := false;
      }
    }

    /** `set_mqtt_broker_ip`: accepted iff at most 16 bytes. */
    method SetMqttBrokerIp(bytes: seq<u8>) returns (ok: bool)
      requires Valid()
      modifies this, mqttBrokerIp
      ensures Valid()
      ensures ok <==> |bytes| <= BROKER_IP_CAPACITY
      ensures ok ==> Value() == old(Value()).(brokerIp := bytes) && mqttBrokerIp[..] == bytes + Zeros(BROKER_IP_CAPACITY - |bytes|)
      ensures !ok ==> Value() == old(Value()) && mqttBrokerIp[..] == old(mqttBrokerIp[..])
    {
      if |bytes| <= BROKER_IP_CAPACITY {
        CopyPadded(mqttBrokerIp, bytes);
        mqttBrokerIpLen := |bytes|;
        assert mqttBrokerIp[..mqttBrokerIpLen] == bytes;
        ok := true;
      } else {
        ok := false;
      }
    }

    /** The buffer `save_wifi_credentials` writes to flash at WIFI_CONFIG_FLASH_OFFSET. */
    method SaveRecord() returns (buffer: array<u8>)
      requires Valid()
      ensures fresh(buffer)
      ensures buffer[..] == EncodeRecord(Value())
    {
      ghost var v := Value();
      buffer := new u8[WIFI_CONFIG_SIZE](_ => 0);
      WriteHeader(buffer, v, ssidLen, passwordLen, mqttBrokerIpLen, mqttBrokerPort);
      RecordFields(v);
      CopyField(buffer, v, SSID_OFFSET, ssid[..ssidLen], ssidLen, PASSWORD_OFFSET);
      CopyField(buffer, v, PASSWORD_OFFSET, password[..passwordLen], passwordLen, BROKER_IP_OFFSET);
      CopyField(buffer, v, BROKER_IP_OFFSET, mqttBrokerIp[..mqttBrokerIpLen], mqttBrokerIpLen, WIFI_CONFIG_SIZE);
      BuiltIsRecord(buffer[..], v);
    }

    /** The first eight bytes of `save_wifi_credentials`: magic, lengths, port, reserved byte. */
    static method WriteHeader(buffer: array<u8>, ghost v: Credentials, ssidLen: u8, passwordLen: u8, brokerIpLen: u8, port: u16)
      requires v.WithinCapacity() && Built(buffer[..], v, 0)
      requires ssidLen == |v.ssid| && passwordLen == |v.password| && brokerIpLen == |v.brokerIp| && port == v.brokerPort
      modifies buffer
      ensures Built(buffer[..], v, SSID_OFFSET)
    {
      buffer[0] := 0xCA;
      buffer[1] := 0xFE;
      buffer[2] := ssidLen;
      buffer[3] := passwordLen;
      buffer[4] := brokerIpLen;
      buffer[5] := Lo(port);
      buffer[6] := Hi(port);
      buffer[7] := 0;
    }

    /** One field of `save_wifi_credentials`: its first `n` bytes go to `offset` when `n > 0`. */
    static method CopyField(buffer: array<u8>, ghost v: Credentials, offset: nat, field: seq<u8>, n: nat, next: nat)
      requires v.WithinCapacity() && Built(buffer[..], v, offset)
      requires n <= |field| && offset + n <= next <= WIFI_CONFIG_SIZE
      requires forall j :: offset <= j < next ==> RecordByte(v, j) == if j < offset + n then field[j - offset] else 0
      modifies buffer
      ensures Built(buffer[..], v, next)
    {
      if n > 0 {
        CopyFrom(buffer, offset, field, n);
      }
    }

    /**
     * `load_wifi_credentials`, given the outcome of reading the 256-byte
     * record from flash: a read error is passed on, any record read gives
     * a fresh credentials object.
     */
    static method Load<E>(read: Result<seq<u8>, E>) returns (r: Result<WifiCredentials, E>)
      requires read.Ok? ==> |read.value| == WIFI_CONFIG_SIZE
      ensures read.Err? ==> r == Err(read.error)
      ensures read.Ok? ==> r.Ok? && fresh(r.value) && r.value.Valid() && r.value.Value() == DecodeRecord(read.value)
    {
      if read.Err? {
        return Err(read.error);
      }
      var b := read.value;
      if b[0] == 0xCA && b[1] == 0xFE {
        if b[2] <= SSID_CAPACITY && b[3] <= PASSWORD_CAPACITY && b[4] <= BROKER_IP_CAPACITY {
          var config := FromAcceptedRecord(b);
          return Ok(config);
        }
      }
      var defaultConfig := WithDefaultBroker();
      return Ok(defaultConfig);
    }

    /** The accepted-record path of `load_wifi_credentials`: fill a fresh `new()` from the record. */
    static method FromAcceptedRecord(b: seq<u8>) returns (config: WifiCredentials)
      requires |b| == WIFI_CONFIG_SIZE && AcceptedRecord(b)
      ensures fresh(config) && config.Valid() && config.Value() == DecodeRecord(b)
    {
      var ssidLen, passwordLen, brokerIpLen := b[2], b[3], b[4];
      config := new WifiCredentials();
      config.LoadSsid(b[SSID_OFFSET..SSID_OFFSET + ssidLen]);
      config.LoadPassword(b[PASSWORD_OFFSET..PASSWORD_OFFSET + passwordLen]);
      if brokerIpLen > 0 {
        config.LoadBrokerIp(b[BROKER_IP_OFFSET..BROKER_IP_OFFSET + brokerIpLen]);
      } else {
        config.LoadBrokerIp(DEFAULT_BROKER_IP);
      }
      config.mqttBrokerPort := FromLe16(b[5], b[6]);
      config.isConfigured := ssidLen > 0 && passwordLen > 0;
    }

    /** A non-empty SSID read from the record replaces the empty one of `new()`. */
    method LoadSsid(bytes: seq<u8>)
      requires Valid() && |bytes| <= SSID_CAPACITY && ssidLen == 0
      modifies this`ssidLen, ssid
      ensures Valid() && Value() == old(Value()).(ssid := bytes)
    {
      if |bytes| > 0 {
        CopyFrom(ssid, 0, bytes, |bytes|);
        ssidLen := |bytes| as u8;
        assert ssid[..ssidLen] == bytes;
      }
    }

    /** A non-empty password read from the record replaces the empty one of `new()`. */
    method LoadPassword(bytes: seq<u8>)
      requires Valid() && |bytes| <= PASSWORD_CAPACITY && passwordLen == 0
      modifies this`passwordLen, password
      ensures Valid() && Value() == old(Value()).(password := bytes)
    {
      if |bytes| > 0 {
        CopyFrom(password, 0, bytes, |bytes|);
        passwordLen := |bytes| as u8;
        assert password[..passwordLen] == bytes;
      }
    }

    /** A broker address copied to the front of the field, which it then ends. */
    method LoadBrokerIp(bytes: seq<u8>)
      requires Valid() && 0 < |bytes| <= BROKER_IP_CAPACITY
      modifies this`mqttBrokerIpLen, mqttBrokerIp
      ensures Valid() && Value() == old(Value()).(brokerIp := bytes)
    {
      CopyFrom(mqttBrokerIp, 0, bytes, |bytes|);
      mqttBrokerIpLen := |bytes| as u8;
      assert mqttBrokerIp[..mqttBrokerIpLen] == bytes;
    }

    /** The fallback of `load_wifi_credentials`: `new()` with the default broker address and port set again. */
    static method WithDefaultBroker() returns (config: WifiCredentials)
      ensures fresh(config) && config.Valid() && config.Value() == DEFAULT_CREDENTIALS
    {
      config := new WifiCredentials();
      config.LoadBrokerIp(DEFAULT_BROKER_IP);
      config.mqttBrokerPort := DEFAULT_BROKER_PORT;
    }
  }

  const CR: u8 := 0x0D
  const LF: u8 := 0x0A
  const BACKSPACE: u8 := 0x08
  const DELETE: u8 := 0x7F
  const INPUT_BUFFER_SIZE: nat := 128

  predicate IsPrintable(ch: u8) {
    0x20 <= ch <= 0x7E
  }

  /**
   * One byte of the console loop on the line typed so far: the new line,
   * and the command handed to the command processor, if any.
   */
  function EditLine(line: seq<u8>, ch: u8): (r: (seq<u8>, Option<seq<u8>>))
    ensures |line| < INPUT_BUFFER_SIZE ==> |r.0| < INPUT_BUFFER_SIZE
    ensures r.1.Some? <==> (ch == CR || ch == LF) && |line| > 0
    ensures r.1.Some? ==> r.1.value == line
    ensures ch == CR || ch == LF ==> r.0 == []
    ensures r.0 != line ==> (ch == CR || ch == LF || ch == BACKSPACE || ch == DELETE || IsPrintable(ch))
  {
    if ch == CR || ch == LF then ([], if |line| > 0 then Some(line) else None)
    else if ch == BACKSPACE || ch == DELETE then (if |line| > 0 then line[..|line| - 1] else line, None)
    else if IsPrintable(ch) then (if |line| < INPUT_BUFFER_SIZE - 1 then line + [ch] else line, None)
    else (line, None)
  }

  /** The line after a run of bytes none of which ends a line. */
  function TypeBytes(line: seq<u8>, bytes: seq<u8>): seq<u8>
    decreases |bytes|
  {
    if |bytes| == 0 then line else TypeBytes(EditLine(line, bytes[0]).0, bytes[1..])
  }

  /** Typing printable bytes on an empty line keeps the first 127 of them. */
  lemma {:induction false} TypedLineIsKept(line: seq<u8>, bytes: seq<u8>)
    requires |line| < INPUT_BUFFER_SIZE
    requires forall i :: 0 <= i < |bytes| ==> IsPrintable(bytes[i])
    ensures |line| + |bytes| < INPUT_BUFFER_SIZE ==> TypeBytes(line, bytes) == line + bytes
    ensures TypeBytes(line, bytes) == (line + bytes)[..Min(|line| + |bytes|, INPUT_BUFFER_SIZE - 1)]
    decreases |bytes|
  {
    if |bytes| > 0 {
      var next := EditLine(line, bytes[0]).0;
      TypedLineIsKept(next, bytes[1..]);
      if |line| < INPUT_BUFFER_SIZE - 1 {
        assert next == line + [bytes[0]];
        assert next + bytes[1..] == line + bytes;
      } else {
        assert next == line;
        assert (line + bytes)[..INPUT_BUFFER_SIZE - 1] == line;
        assert (line + bytes[1..])[..INPUT_BUFFER_SIZE - 1] == line;
      }
    }
  }

  /** The console input buffer and its fill level. */
  class ConsoleInput {
    const buffer: array<u8>
    var inputLen: nat

    predicate Valid()
      reads this
    {
      buffer.Length == INPUT_BUFFER_SIZE && inputLen < INPUT_BUFFER_SIZE
    }

    function Line(): seq<u8>
      requires Valid()
      reads this, buffer
    {
      buffer[..inputLen]
    }

    constructor ()
      ensures Valid() && fresh(buffer) && Line() == []
    {
      buffer := new u8[INPUT_BUFFER_SIZE](_ => 0);
      inputLen := 0;
    }

    /** Handle one received byte; a completed, nonempty line is returned as the command. */
    method Receive(ch: u8) returns (command: Option<seq<u8>>)
      requires Valid()
      modifies this, buffer
      ensures Valid()
      ensures (Line(), command) == EditLine(old(Line()), ch)
      ensures IsPrintable(ch) && old(inputLen) < INPUT_BUFFER_SIZE - 1 ==> buffer[..] == old(buffer[..])[old(inputLen) := ch]
      ensures !(IsPrintable(ch) && old(inputLen) < INPUT_BUFFER_SIZE - 1) ==> buffer[..] == old(buffer[..])
    {
      command := None;
      if ch == CR || ch == LF {
        if inputLen > 0 {
          command := Some(buffer[..inputLen]);
        }
        inputLen := 0;
      } else if ch == BACKSPACE || ch == DELETE {
        if inputLen > 0 {
          inputLen := inputLen - 1;
          assert Line() == old(Line())[..inputLen];
        }
      } else if IsPrintable(ch) {
        if inputLen < buffer.Length - 1 {
          buffer[inputLen] := ch;
          inputLen := inputLen + 1;
          assert buffer[..inputLen] == old(Line()) + [ch];
        }
      }
    }
  }
}
