/**
 * The MQTT 3.1.1 wire format the firmware's clients speak, as the
 * standard defines it: the variable-length "remaining length" field
 * (section 2.2.3 of MQTT 3.1.1), the CONNECT packet with a client
 * identifier and clean session (section 3.1) and the PUBLISH packet
 * (section 3.3), each with its encoder and a decoder that reads it back.
 * These are the reference the packet builders of the two clients are
 * compared with.
 */
module MqttWire {
  import opened Ints
  import opened Wrappers

  type Bytes = seq<u8>

  /** The largest remaining length four bytes of seven bits can carry. */
  const MAX_REMAINING_LENGTH: nat := 268435455

  /** "MQTT" */
  const PROTOCOL_NAME: Bytes := [0x4D, 0x51, 0x54, 0x54]

  /** `x.to_be_bytes()` for a `u16`, and reading it back. */
  function Be16(x: u16): (r: Bytes)
    ensures |r| == 2 && Read16(r, 0) == x
  {
    HiLo(x);
    [Hi(x), Lo(x)]
  }

  function Read16(b: Bytes, i: nat): u16
    requires i + 2 <= |b|
  {
    (b[i] as int) * 0x100 + b[i + 1] as int
  }

  function Pow128(k: nat): (r: nat)
    ensures r >= 1
  {
    if k == 0 then 1 else 128 * Pow128(k - 1)
  }

  /** Seven bits to a byte, least significant first, the top bit set on every byte but the last. */
  function EncodeRemainingLength(len: nat): (r: Bytes)
    ensures |r| >= 1 && r[|r| - 1] < 128
    ensures forall i :: 0 <= i < |r| - 1 ==> r[i] >= 128
    ensures len < 128 <==> |r| == 1
  {
    if len < 128 then [len]
    else
      var rest := EncodeRemainingLength(len / 128);
      [128 + len % 128] + rest
  }

  /** The field never takes more than four bytes for a length the protocol allows. */
  lemma {:induction false} EncodedLengthBytes(len: nat, k: nat)
    requires k >= 1 && len < Pow128(k)
    ensures |EncodeRemainingLength(len)| <= k
  {
    if len >= 128 {
      assert Pow128(1) == 128;
      assert k >= 2;
      DivAtLeast(len, 128, Pow128(k - 1));
      EncodedLengthBytes(len / 128, k - 1);
    }
  }

  /** Decoding the field: the value and the number of bytes it took, at most `left` of them. */
  function DecodeDigits(b: Bytes, left: nat): (r: Option<(nat, nat)>)
    ensures r.Some? ==> 1 <= r.value.1 <= |b| && r.value.1 <= left
    decreases left
  {
    if left == 0 || |b| == 0 then None
    else if b[0] < 128 then Some((b[0], 1))
    else
      match DecodeDigits(b[1..], left - 1)
      case None => None
      case Some(d) => Some((b[0] - 128 + 128 * d.0, d.1 + 1))
  }

  /** The remaining length at the start of `b`, read as section 2.2.3 prescribes. */
  function DecodeRemainingLength(b: Bytes): Option<(nat, nat)> {
    DecodeDigits(b, 4)
  }

  lemma {:induction false} DigitsRoundTrip(len: nat, rest: Bytes, left: nat)
    requires left >= 1 && len < Pow128(left)
    ensures DecodeDigits(EncodeRemainingLength(len) + rest, left) == Some((len, |EncodeRemainingLength(len)|))
  {
    var b := EncodeRemainingLength(len) + rest;
    if len < 128 {
      assert b[0] == len;
    } else {
      assert Pow128(1) == 128;
      assert left >= 2;
      DivAtLeast(len, 128, Pow128(left - 1));
      DigitsRoundTrip(len / 128, rest, left - 1);
      assert b[1..] == EncodeRemainingLength(len / 128) + rest;
      DivBounds(len, 128);
    }
  }

  /** Every length the protocol allows is read back from its encoding, whatever follows it. */
  lemma RemainingLengthRoundTrip(len: nat, rest: Bytes)
    requires len <= MAX_REMAINING_LENGTH
    ensures DecodeRemainingLength(EncodeRemainingLength(len) + rest) == Some((len, |EncodeRemainingLength(len)|))
    ensures |EncodeRemainingLength(len)| <= 4
  {
    assert Pow128(4) == MAX_REMAINING_LENGTH + 1;
    DigitsRoundTrip(len, rest, 4);
    EncodedLengthBytes(len, 4);
  }

  lemma ShortLengthField(len: nat)
    ensures len <= MAX_REMAINING_LENGTH ==> |EncodeRemainingLength(len)| <= 4
  {
    if len <= MAX_REMAINING_LENGTH {
      RemainingLengthRoundTrip(len, []);
    }
  }

  /** A CONNECT packet as the receiver sees it. */
  datatype Connect = Connect(level: u8, flags: u8, keepAlive: u16, clientId: Bytes)

  /** A PUBLISH packet as the receiver sees it. */
  datatype Publish = Publish(retain: bool, qos: nat, topic: Bytes, packetId: Option<u16>, payload: Bytes)

  /** The variable header and payload of a clean-session MQTT 3.1.1 CONNECT carrying only a client identifier. */
  function ConnectBody(keepAlive: u16, clientId: Bytes): (r: Bytes)
    requires |clientId| <= U16_MAX
    ensures |r| == 12 + |clientId|
  {
    Be16(4) + PROTOCOL_NAME + [4, 0x02] + Be16(keepAlive) + Be16(|clientId|) + clientId
  }

  /**
   * CONNECT: type 1 with no flags, the remaining length, then the body.
   * It takes 14 to 17 bytes besides the client identifier, which it ends
   * with, preceded by its full 16-bit length.
   */
  function ConnectPacket(keepAlive: u16, clientId: Bytes): (r: Bytes)
    requires |clientId| <= U16_MAX
    ensures 14 + |clientId| <= |r| <= 17 + |clientId|
    ensures r[0] == 0x10
    ensures Read16(r, |r| - |clientId| - 2) == |clientId| && r[|r| - |clientId|..] == clientId
  {
    var body := ConnectBody(keepAlive, clientId);
    var len := EncodeRemainingLength(|body|);
    RemainingLengthRoundTrip(|body|, []);
    ConnectBodyFields(keepAlive, clientId);
    var r := [0x10] + len + body;
    assert r[1 + |len|..] == body;
    r
  }

  /** Reading a CONNECT packet that fills `b` exactly. */
  function ParseConnect(b: Bytes): Option<Connect> {
    if |b| < 2 || b[0] != 0x10 then None
    else
      match DecodeRemainingLength(b[1..])
      case None => None
      case Some(d) =>
        if |b| != 1 + d.1 + d.0 then None
        else
          var body := b[1 + d.1..];
          if |body| < 12 || body[..6] != Be16(4) + PROTOCOL_NAME then None
          else if |body| != 12 + Read16(body, 10) then None
          else Some(Connect(body[6], body[7], Read16(body, 8), body[12..]))
  }

  lemma ConnectBodyFields(keepAlive: u16, clientId: Bytes)
    requires |clientId| <= U16_MAX
    ensures var body := ConnectBody(keepAlive, clientId);
      body[..6] == Be16(4) + PROTOCOL_NAME && body[6] == 4 && body[7] == 0x02
      && Read16(body, 8) == keepAlive && Read16(body, 10) == |clientId| && body[12..] == clientId
  {
    var body := ConnectBody(keepAlive, clientId);
    var k, n := Be16(keepAlive), Be16(|clientId|);
    assert body[8..10] == k;
    assert body[10..12] == n;
  }

  /** The CONNECT packet is read back as the protocol level 4, clean session, keep-alive and client identifier. */
  lemma ConnectRoundTrip(keepAlive: u16, clientId: Bytes)
    requires |clientId| <= U16_MAX
    ensures ParseConnect(ConnectPacket(keepAlive, clientId)) == Some(Connect(4, 0x02, keepAlive, clientId))
  {
    var body := ConnectBody(keepAlive, clientId);
    var len := EncodeRemainingLength(|body|);
    var p := ConnectPacket(keepAlive, clientId);
    assert p[1..] == len + body;
    RemainingLengthRoundTrip(|body|, body);
    assert p[1 + |len|..] == body;
    ConnectBodyFields(keepAlive, clientId);
  }

  /** The first byte of PUBLISH: type 3, DUP clear, the QoS in bits 1-2 and RETAIN in bit 0. */
  function PublishHeader(retain: bool, qos: nat): (r: u8)
    requires qos <= 2
    ensures r / 16 == 3 && (r / 2) % 4 == qos && (r % 2 == 1 <==> retain)
  {
    0x30 + (if retain then 1 else 0) + 2 * qos
  }

  /** The number of bytes of the variable header and payload of a PUBLISH. */
  function PublishBodyLength(qos: nat, topic: Bytes, payload: Bytes): nat {
    2 + |topic| + (if qos > 0 then 2 else 0) + |payload|
  }

  /** The topic with its length, the packet identifier 1 when QoS is above 0, then the payload. */
  function PublishBody(qos: nat, topic: Bytes, payload: Bytes): (r: Bytes)
    requires |topic| <= U16_MAX
    ensures |r| == PublishBodyLength(qos, topic, payload)
  {
    Be16(|topic|) + topic + (if qos > 0 then Be16(1) else []) + payload
  }

  /**
   * PUBLISH: the header byte carrying the QoS and RETAIN, the remaining
   * length, then the body, ending with the payload; a body the field can
   * carry costs at most five bytes in front of it.
   */
  function PublishPacket(retain: bool, qos: nat, topic: Bytes, payload: Bytes): (r: Bytes)
    requires qos <= 2 && |topic| <= U16_MAX
    ensures |r| > |payload| && r[|r| - |payload|..] == payload
    ensures r[0] / 16 == 3 && (r[0] / 2) % 4 == qos && (r[0] % 2 == 1 <==> retain)
    ensures PublishBodyLength(qos, topic, payload) <= MAX_REMAINING_LENGTH ==>
      |r| <= 5 + PublishBodyLength(qos, topic, payload)
  {
    var body := PublishBody(qos, topic, payload);
    var len := EncodeRemainingLength(|body|);
    ShortLengthField(|body|);
    var r := [PublishHeader(retain, qos)] + len + body;
    assert r[|r| - |payload|..] == body[|body| - |payload|..] == payload;
    r
  }

  /** Reading the body of a PUBLISH whose header gave `retain` and `qos`. */
  function ParsePublishBody(retain: bool, qos: nat, body: Bytes): Option<Publish> {
    if |body| < 2 then None
    else
      var tl := Read16(body, 0);
      var idLen := if qos > 0 then 2 else 0;
      if |body| < 2 + tl + idLen then None
      else Some(Publish(retain, qos, body[2..2 + tl], if qos > 0 then Some(Read16(body, 2 + tl)) else None, body[2 + tl + idLen..]))
  }

  /** Reading a PUBLISH packet that fills `b` exactly; a QoS of 3 is malformed. */
  function ParsePublish(b: Bytes): Option<Publish> {
    if |b| < 2 || b[0] / 16 != 3 || (b[0] / 2) % 4 == 3 then None
    else
      match DecodeRemainingLength(b[1..])
      case None => None
      case Some(d) =>
        if |b| != 1 + d.1 + d.0 then None
        else ParsePublishBody(b[0] % 2 == 1, (b[0] / 2) % 4, b[1 + d.1..])
  }

  lemma PublishBodyRoundTrip(retain: bool, qos: nat, topic: Bytes, payload: Bytes)
    requires qos <= 2 && |topic| <= U16_MAX
    ensures ParsePublishBody(retain, qos, PublishBody(qos, topic, payload))
         == Some(Publish(retain, qos, topic, if qos > 0 then Some(1) else None, payload))
  {
    var body := PublishBody(qos, topic, payload);
    var n := |topic|;
    assert body[..2] == Be16(n);
    assert body[2..2 + n] == topic;
    if qos > 0 {
      assert body[2 + n..4 + n] == Be16(1);
    }
  }

  /** The PUBLISH packet is read back as its retain flag, QoS, topic, packet identifier and payload. */
  lemma PublishRoundTrip(retain: bool, qos: nat, topic: Bytes, payload: Bytes)
    requires qos <= 2 && |topic| <= U16_MAX
    requires PublishBodyLength(qos, topic, payload) <= MAX_REMAINING_LENGTH
    ensures ParsePublish(PublishPacket(retain, qos, topic, payload))
         == Some(Publish(retain, qos, topic, if qos > 0 then Some(1) else None, payload))
  {
    var body := PublishBody(qos, topic, payload);
    var len := EncodeRemainingLength(|body|);
    var p := PublishPacket(retain, qos, topic, payload);
    assert p[1..] == len + body;
    RemainingLengthRoundTrip(|body|, body);
    assert p[1 + |len|..] == body;
    PublishBodyRoundTrip(retain, qos, topic, payload);
  }
}
