/**
 * The asynchronous MQTT client: its configuration defaults (the broker
 * address parsed from the build environment with a fixed fallback), the
 * CONNECT and PUBLISH builders, which write the remaining length as a
 * single byte, the CONNACK check and the topic names it forms.
 */
module MqttEmbassy {
  import opened Ints
  import opened Wrappers
  import opened MqttWire
  import Text
  import ConfigValidation

  /** The broker address used when the configured one is not four `u8` parts. */
  const FALLBACK_BROKER_IP: (u8, u8, u8, u8) := (192, 168, 1, 100)

  /** `str::parse::<u8>()`: decimal digits with an optional '+', at most 255. */
  function ParseU8(s: string): Option<u8> {
    match Text.ParseUnsigned(s, U8_MAX)
    case None => None
    case Some(v) => Some(v)
  }

  /**
   * The broker address of `MqttConfig::default()`: the setting split at
   * '.', taken when it has four parts that each parse as a `u8`, else the
   * fallback.
   */
  function BrokerIp(setting: string): (r: (u8, u8, u8, u8))
    ensures var parts := Text.Split(setting, '.');
      if |parts| == 4 && ParseU8(parts[0]).Some? && ParseU8(parts[1]).Some? && ParseU8(parts[2]).Some? && ParseU8(parts[3]).Some?
      then r == (ParseU8(parts[0]).value, ParseU8(parts[1]).value, ParseU8(parts[2]).value, ParseU8(parts[3]).value)
      else r == FALLBACK_BROKER_IP
  {
    var parts := Text.Split(setting, '.');
    if |parts| == 4 then
      match (ParseU8(parts[0]), ParseU8(parts[1]), ParseU8(parts[2]), ParseU8(parts[3]))
      case (Some(a), Some(b), Some(c), Some(d)) => (a, b, c, d)
      case _ => FALLBACK_BROKER_IP
    else FALLBACK_BROKER_IP
  }

  /** An address written as four octets in decimal is read back as those octets. */
  lemma BrokerIpOfFormatted(a: u8, b: u8, c: u8, d: u8)
    ensures BrokerIp(ConfigValidation.FormatIp(a, b, c, d)) == (a, b, c, d)
  {
    ConfigValidation.NoDotInDecimal(a);
    ConfigValidation.NoDotInDecimal(b);
    ConfigValidation.NoDotInDecimal(c);
    ConfigValidation.NoDotInDecimal(d);
    var parts := [Text.NatToDecimal(a), Text.NatToDecimal(b), Text.NatToDecimal(c), Text.NatToDecimal(d)];
    Text.SplitOfJoin(parts, '.');
    Text.DecimalRoundTrip(a, U8_MAX);
    Text.DecimalRoundTrip(b, U8_MAX);
    Text.DecimalRoundTrip(c, U8_MAX);
    Text.DecimalRoundTrip(d, U8_MAX);
  }

  /** Every address the configuration validator accepts is used as written rather than replaced by the fallback. */
  lemma ValidBrokerIpUsed(setting: string)
    requires ConfigValidation.IsValidIpFormat(setting)
    ensures ConfigValidation.FormatIp(BrokerIp(setting).0, BrokerIp(setting).1, BrokerIp(setting).2, BrokerIp(setting).3) == setting
  {
    ConfigValidation.ValidIpIsFormatted(setting);
    var a: u8, b: u8, c: u8, d: u8 :| setting == ConfigValidation.FormatIp(a, b, c, d);
    BrokerIpOfFormatted(a, b, c, d);
  }

  /** The broker port of `MqttConfig::default()`: the setting as a `u16`, else 1883. */
  function BrokerPort(setting: string): (r: u16)
    ensures Text.ParseUnsigned(setting, U16_MAX).Some? ==> r == Text.ParseUnsigned(setting, U16_MAX).value
    ensures Text.ParseUnsigned(setting, U16_MAX).None? ==> r == 1883
  {
    match Text.ParseUnsigned(setting, U16_MAX)
    case Some(p) => p
    case None => 1883
  }

  datatype MqttConfig = MqttConfig(brokerIp: (u8, u8, u8, u8), brokerPort: u16, clientId: string,
                                   topicPrefix: string, keepAlive: u16)

  /** `MqttConfig::default()`, the four build settings given as parameters. */
  function DefaultConfig(ipSetting: string, portSetting: string, clientId: string, topicPrefix: string): (r: MqttConfig)
    ensures r.brokerIp == BrokerIp(ipSetting) && r.brokerPort == BrokerPort(portSetting)
    ensures r.clientId == clientId && r.topicPrefix == topicPrefix && r.keepAlive == 60
  {
    MqttConfig(BrokerIp(ipSetting), BrokerPort(portSetting), clientId, topicPrefix, 60)
  }

  /** `create_connect_packet`: the standard body, with the remaining length written as `len as u8`. */
  function ConnectPacketAsWritten(keepAlive: u16, clientId: Bytes): (r: Bytes)
    ensures |r| == 14 + |clientId| && r[0] == 0x10 && r[1] == Wrap8(12 + |clientId|)
  {
    var body := Be16(4) + PROTOCOL_NAME + [0x04, 0x02] + Be16(keepAlive) + Be16(Wrap16(|clientId|)) + clientId;
    [0x10, Wrap8(|body|)] + body
  }

  /**
   * `create_connect_packet` as the client runs it: the fixed header byte,
   * the variable header and client identifier pushed field by field,
   * then the body's length as one byte and the body.
   */
  method CreateConnectPacket(keepAlive: u16, clientId: Bytes) returns (packet: Bytes)
    ensures packet == ConnectPacketAsWritten(keepAlive, clientId)
  {
    packet := [0x10];
    var variableHeader: Bytes := [];
    variableHeader := variableHeader + Be16(|PROTOCOL_NAME|);
    variableHeader := variableHeader + PROTOCOL_NAME;
    variableHeader := variableHeader + [0x04];
    variableHeader := variableHeader + [0x02];
    variableHeader := variableHeader + Be16(keepAlive);
    variableHeader := variableHeader + Be16(Wrap16(|clientId|));
    variableHeader := variableHeader + clientId;
    packet := packet + [Wrap8(|variableHeader|)];
    packet := packet + variableHeader;
  }

  /** While the body is under 128 bytes this is the standard CONNECT, read back with the configured keep-alive. */
  lemma ConnectAgrees(keepAlive: u16, clientId: Bytes)
    requires 12 + |clientId| < 128
    ensures ConnectPacketAsWritten(keepAlive, clientId) == ConnectPacket(keepAlive, clientId)
    ensures ParseConnect(ConnectPacketAsWritten(keepAlive, clientId)) == Some(Connect(4, 0x02, keepAlive, clientId))
  {
    ConnectRoundTrip(keepAlive, clientId);
  }

  /** `create_publish_packet`, the first byte: `0x30`, `| 0x01` when retained, `| (qos & 0x03) << 1`. */
  function PublishHeaderAsWritten(retain: bool, qos: u8): (r: u8)
    ensures qos <= 2 ==> r == PublishHeader(retain, qos)
  {
    0x30 + (if retain then 1 else 0) + 2 * (qos % 4)
  }

  /** `create_publish_packet` */
  function PublishPacketAsWritten(retain: bool, qos: u8, topic: Bytes, payload: Bytes): (r: Bytes)
    ensures |r| == 2 + PublishBodyLength(qos, topic, payload)
    ensures r[0] == PublishHeaderAsWritten(retain, qos) && r[1] == Wrap8(PublishBodyLength(qos, topic, payload))
  {
    var body := Be16(Wrap16(|topic|)) + topic + (if qos > 0 then Be16(1) else []) + payload;
    [PublishHeaderAsWritten(retain, qos), Wrap8(|body|)] + body
  }

  /**
   * `create_publish_packet` as the client runs it: the flags byte, then
   * the body (topic length and topic, packet identifier 1 when QoS is
   * above 0, payload), its length as one byte and the body.
   */
  method CreatePublishPacket(retain: bool, qos: u8, topic: Bytes, payload: Bytes) returns (packet: Bytes)
    ensures packet == PublishPacketAsWritten(retain, qos, topic, payload)
  {
    packet := [];
    var flags: u8 := 0x30;
    if retain {
      flags := flags + 0x01;
    }
    flags := flags + 2 * (qos % 4);
    packet := packet + [flags];
    var variableHeader: Bytes := [];
    variableHeader := variableHeader + Be16(Wrap16(|topic|));
    variableHeader := variableHeader + topic;
    if qos > 0 {
      variableHeader := variableHeader + Be16(1);
    }
    variableHeader := variableHeader + payload;
    packet := packet + [Wrap8(|variableHeader|)];
    packet := packet + variableHeader;
  }

  /** While the body is under 128 bytes this is the standard PUBLISH, read back whole. */
  lemma PublishAgrees(retain: bool, qos: u8, topic: Bytes, payload: Bytes)
    requires qos <= 2 && PublishBodyLength(qos, topic, payload) < 128
    ensures PublishPacketAsWritten(retain, qos, topic, payload) == PublishPacket(retain, qos, topic, payload)
    ensures ParsePublish(PublishPacketAsWritten(retain, qos, topic, payload))
         == Some(Publish(retain, qos, topic, if qos > 0 then Some(1) else None, payload))
  {
    PublishRoundTrip(retain, qos, topic, payload);
  }

  /**
   * A body of 128 to 255 bytes gets a length byte with its top bit set:
   * the receiver takes the topic length's high byte as a second length
   * byte, the length it reads is never the packet's, and the packet is
   * rejected.
   */
  lemma LongPublishRejected(retain: bool, qos: u8, topic: Bytes, payload: Bytes)
    requires qos <= 2 && 128 <= PublishBodyLength(qos, topic, payload) < 256
    ensures ParsePublish(PublishPacketAsWritten(retain, qos, topic, payload)) == None
  {
    var p := PublishPacketAsWritten(retain, qos, topic, payload);
    var n := PublishBodyLength(qos, topic, payload);
    assert p[0] / 16 == 3 && (p[0] / 2) % 4 == qos;
    assert Hi(|topic|) == 0;
    assert p[1..][1..][0] == 0;
    assert DecodeRemainingLength(p[1..]) == Some((n - 128, 2));
  }

  /**
   * The CONNACK check of `connect`: at least four bytes read, a CONNACK
   * type byte first and return code 0 in the fourth byte. The second
   * and third bytes (length and session-present flag) are not looked at.
   */
  function ConnackAccepted(buffer: Bytes, n: nat): (r: bool)
    requires |buffer| == 64 && n <= 64
    ensures r ==> n >= 4 && buffer[0] == 0x20 && buffer[3] == 0
  {
    n >= 4 && buffer[0] == 0x20 && buffer[3] == 0x00
  }

  /** The CONNACK of section 3.2 of MQTT 3.1.1: type 2, length 2, the session-present flag and the return code. */
  function Connack(sessionPresent: bool, returnCode: u8): Bytes {
    [0x20, 0x02, if sessionPresent then 1 else 0, returnCode]
  }

  /** A CONNACK read into the 64-byte buffer is accepted exactly when its return code is 0 (connection accepted). */
  lemma ConnackAcceptedIffReturnCodeZero(sessionPresent: bool, returnCode: u8, rest: Bytes)
    requires |rest| == 60
    ensures ConnackAccepted(Connack(sessionPresent, returnCode) + rest, 4) <==> returnCode == 0
  {
    assert (Connack(sessionPresent, returnCode) + rest)[3] == returnCode;
  }

  /**
   * `heapless::String<64>::push_str`: the text is appended only when the
   * whole of it fits.
   */
  function PushBounded(s: string, t: string): (r: string)
    ensures |s| + |t| <= 64 ==> r == s + t
    ensures |s| + |t| > 64 ==> r == s
  {
    if |s| + |t| <= 64 then s + t else s
  }

  /** `get_topic`: prefix, '/', suffix, each left out when it does not fit in 64 bytes. */
  function GetTopic(prefix: string, suffix: string): (r: string)
    ensures |r| <= 64
    ensures |prefix| + 1 + |suffix| <= 64 ==> r == prefix + "/" + suffix
    ensures |prefix| <= 64 ==> Text.StartsWith(prefix + "/" + suffix, r) && Text.StartsWith(r, prefix)
    ensures |prefix| > 64 ==> Text.StartsWith("/" + suffix, r)
  {
    var withPrefix := PushBounded("", prefix);
    var withSlash := PushBounded(withPrefix, "/");
    var r := PushBounded(withSlash, suffix);
    assert r[..|withPrefix|] == withPrefix;
    r
  }
}
