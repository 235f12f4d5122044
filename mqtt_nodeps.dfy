/**
 * The packet builders of the dependency-free synchronous application's
 * MQTT client: CONNECT with a fixed 60-second keep-alive and a client
 * identifier, and PUBLISH with the configured QoS, each with a remaining
 * length of one or two bytes. They are compared with the standard
 * encoding of MqttWire: they agree while the client identifier is under
 * 256 bytes and the remaining length under 16384.
 */
module MqttNodeps {
  import opened Ints
  import opened Wrappers
  import opened MqttWire

  /**
   * The remaining length as written: one byte below 128, else the low
   * seven bits with the top bit set (`0x80 | (len & 0x7F)`) and then
   * `len >> 7` truncated to a byte.
   */
  function RemainingLengthAsWritten(len: nat): (r: Bytes)
    ensures |r| == (if len < 128 then 1 else 2)
  {
    if len < 128 then [len] else [128 + len % 128, Wrap8(len / 128)]
  }

  /** Below 16384 the two-byte form is the standard encoding. */
  lemma RemainingLengthAgrees(len: nat)
    requires len < 16384
    ensures RemainingLengthAsWritten(len) == EncodeRemainingLength(len)
  {
    if len >= 128 {
      QuotientAtMost(len, 128, 127);
      assert EncodeRemainingLength(len / 128) == [len / 128];
    }
  }

  /**
   * From 16384 on, `len >> 7` no longer fits in seven bits: its top bit
   * reads as "more length bytes follow", so a receiver does not find the
   * length in the two bytes written.
   */
  lemma RemainingLengthAsWrittenMisread(rest: Bytes)
    ensures RemainingLengthAsWritten(16384) == [0x80, 0x80]
    ensures DecodeRemainingLength(RemainingLengthAsWritten(16384) + rest) != Some((16384, 2))
  {
    var b := RemainingLengthAsWritten(16384) + rest;
    assert b[1..][1..] == rest;
  }

  /** `create_mqtt_connect`, the body: protocol "MQTT" level 4, clean session, keep-alive 60, and the client identifier behind a length whose high byte is always 0. */
  function ConnectBodyAsWritten(clientId: Bytes): (r: Bytes)
    ensures |r| == 12 + |clientId|
  {
    [0x00, 0x04] + PROTOCOL_NAME + [0x04, 0x02] + [0x00, 0x3C] + [0x00, Wrap8(|clientId|)] + clientId
  }

  /** `create_mqtt_connect` */
  function ConnectPacketAsWritten(clientId: Bytes): (r: Bytes)
    ensures |r| >= 14 + |clientId| && r[0] == 0x10 && r[|r| - |clientId|..] == clientId
  {
    var body := ConnectBodyAsWritten(clientId);
    var r := [0x10] + RemainingLengthAsWritten(|body|) + body;
    assert r[|r| - |clientId|..] == body[12..];
    r
  }

  /**
   * `create_mqtt_connect` as the client runs it: the fixed header byte,
   * the variable header and client identifier pushed field by field,
   * then the remaining length and the body.
   */
  method CreateMqttConnect(clientId: Bytes) returns (packet: Bytes)
    ensures packet == ConnectPacketAsWritten(clientId)
  {
    packet := [0x10];
    var variableHeader: Bytes := [];
    variableHeader := variableHeader + [0x00, 0x04];
    variableHeader := variableHeader + PROTOCOL_NAME;
    variableHeader := variableHeader + [0x04];
    variableHeader := variableHeader + [0x02];
    variableHeader := variableHeader + [0x00, 0x3C];
    variableHeader := variableHeader + [0x00, Wrap8(|clientId|)];
    variableHeader := variableHeader + clientId;
    assert variableHeader == ConnectBodyAsWritten(clientId);
    var remainingLen := |variableHeader|;
    if remainingLen < 128 {
      packet := packet + [remainingLen];
    } else {
      packet := packet + [128 + remainingLen % 128];
      packet := packet + [Wrap8(remainingLen / 128)];
    }
    packet := packet + variableHeader;
  }

  /** A client identifier under 256 bytes gives exactly the standard CONNECT with a 60-second keep-alive. */
  lemma ConnectAgrees(clientId: Bytes)
    requires |clientId| < 256
    ensures ConnectPacketAsWritten(clientId) == ConnectPacket(60, clientId)
    ensures ParseConnect(ConnectPacketAsWritten(clientId)) == Some(Connect(4, 0x02, 60, clientId))
  {
    assert Be16(4) == [0x00, 0x04];
    assert Be16(60) == [0x00, 0x3C];
    assert Be16(|clientId|) == [0x00, Wrap8(|clientId|)];
    assert ConnectBodyAsWritten(clientId) == ConnectBody(60, clientId);
    RemainingLengthAgrees(12 + |clientId|);
    ConnectRoundTrip(60, clientId);
  }

  /**
   * With 256 bytes or more the length written is the identifier's length
   * modulo 256, so no receiver reads the packet as a CONNECT.
   */
  lemma LongClientIdRejected(clientId: Bytes)
    requires 256 <= |clientId| < 16384 - 12
    ensures ParseConnect(ConnectPacketAsWritten(clientId)) == None
  {
    var body := ConnectBodyAsWritten(clientId);
    var p := ConnectPacketAsWritten(clientId);
    var len := RemainingLengthAsWritten(|body|);
    RemainingLengthAgrees(|body|);
    assert p[1..] == len + body;
    RemainingLengthRoundTrip(|body|, body);
    assert p[1 + |len|..] == body;
    assert body[..6] == Be16(4) + PROTOCOL_NAME;
    assert Read16(body, 10) == |clientId| % 256;
  }

  /** The first byte of `create_simple_mqtt_publish`: `0x30 | (qos & 0x03) << 1`. */
  function PublishHeaderAsWritten(qos: u8): (r: u8)
    ensures qos <= 2 ==> r == PublishHeader(false, qos)
  {
    0x30 + 2 * (qos % 4)
  }

  function PublishBodyAsWritten(qos: u8, topic: Bytes, payload: Bytes): (r: Bytes)
    ensures |r| == PublishBodyLength(qos, topic, payload)
  {
    Be16(Wrap16(|topic|)) + topic + (if qos > 0 then Be16(1) else []) + payload
  }

  /** `create_simple_mqtt_publish` */
  function PublishPacketAsWritten(qos: u8, topic: Bytes, payload: Bytes): (r: Bytes)
    ensures |r| >= 4 + |topic| + |payload| && r[0] == PublishHeaderAsWritten(qos) && r[|r| - |payload|..] == payload
  {
    var body := PublishBodyAsWritten(qos, topic, payload);
    var r := [PublishHeaderAsWritten(qos)] + RemainingLengthAsWritten(|body|) + body;
    assert r[|r| - |payload|..] == body[|body| - |payload|..];
    r
  }

  /**
   * `create_simple_mqtt_publish` as the client runs it: the body (topic
   * length and topic, packet identifier 1 when QoS is above 0, payload),
   * then the flags byte, the remaining length and the body.
   */
  method CreateSimpleMqttPublish(qos: u8, topic: Bytes, payload: Bytes) returns (packet: Bytes)
    ensures packet == PublishPacketAsWritten(qos, topic, payload)
  {
    packet := [];
    var variableHeader: Bytes := [];
    variableHeader := variableHeader + Be16(Wrap16(|topic|));
    variableHeader := variableHeader + topic;
    if qos > 0 {
      variableHeader := variableHeader + Be16(1);
    }
    variableHeader := variableHeader + payload;
    assert variableHeader == PublishBodyAsWritten(qos, topic, payload);
    var flags: u8 := 0x30;
    flags := flags + 2 * (qos % 4);
    packet := packet + [flags];
    var remainingLen := |variableHeader|;
    if remainingLen < 128 {
      packet := packet + [remainingLen];
    } else {
      packet := packet + [128 + remainingLen % 128];
      packet := packet + [Wrap8(remainingLen / 128)];
    }
    packet := packet + variableHeader;
  }

  /** Within the limits the PUBLISH written is the standard one and is read back with packet identifier 1 when QoS is above 0. */
  lemma PublishAgrees(qos: u8, topic: Bytes, payload: Bytes)
    requires qos <= 2 && |topic| <= U16_MAX && PublishBodyLength(qos, topic, payload) < 16384
    ensures PublishPacketAsWritten(qos, topic, payload) == PublishPacket(false, qos, topic, payload)
    ensures ParsePublish(PublishPacketAsWritten(qos, topic, payload))
         == Some(Publish(false, qos, topic, if qos > 0 then Some(1) else None, payload))
  {
    RemainingLengthAgrees(PublishBodyLength(qos, topic, payload));
    PublishRoundTrip(false, qos, topic, payload);
  }

  /**
   * A QoS of 4 sets no QoS bits but still writes the packet identifier,
   * which the receiver then takes as the first two bytes of the payload.
   */
  lemma QosFourLeaksPacketId(topic: Bytes, payload: Bytes)
    requires |topic| <= U16_MAX && PublishBodyLength(4, topic, payload) < 16384
    ensures ParsePublish(PublishPacketAsWritten(4, topic, payload)) == Some(Publish(false, 0, topic, None, Be16(1) + payload))
  {
    var body := PublishBodyAsWritten(4, topic, payload);
    assert body == PublishBody(0, topic, Be16(1) + payload);
    RemainingLengthAgrees(|body|);
    assert PublishHeaderAsWritten(4) == PublishHeader(false, 0);
    PublishRoundTrip(false, 0, topic, Be16(1) + payload);
  }
}
