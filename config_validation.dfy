/**
 * Configuration validation of the unified IoT configuration: a report
 * that collects issues of three severities and stays valid until a
 * critical one is added, one rule per checked field, and the validators
 * of the WiFi, MQTT, sensor, console, storage and hardware sections and
 * of the whole system.
 *
 * Every rule reports at most one issue, the first branch of its
 * `if`/`else if` chain that applies.  A validator adds the issues of its
 * rules in source order, so the issues of a fresh report are the
 * concatenation of what the rules found.
 */
module ConfigValidation {
  import opened Wrappers
  import opened Ints
  import Text

  datatype Severity = Critical | Warning | Info

  datatype ValidationIssue = ValidationIssue(severity: Severity, field: string, message: string, suggestion: Option<string>)

  /** No issue of the list is critical (see CountZero for the element-wise reading). */
  predicate NoCritical(issues: seq<ValidationIssue>) {
    Count(issues, Critical) == 0
  }

  lemma NoCriticalConcat(a: seq<ValidationIssue>, b: seq<ValidationIssue>)
    ensures NoCritical(a + b) <==> NoCritical(a) && NoCritical(b)
  {
    CountAppend(a, b, Critical);
  }

  /** The number of issues of one severity (`filter(..).count()`). */
  function Count(issues: seq<ValidationIssue>, severity: Severity): (r: nat)
    ensures r <= |issues|
  {
    if issues == [] then 0
    else Count(issues[..|issues| - 1], severity) + (if issues[|issues| - 1].severity == severity then 1 else 0)
  }

  lemma {:induction false} CountAppend(a: seq<ValidationIssue>, b: seq<ValidationIssue>, severity: Severity)
    ensures Count(a + b, severity) == Count(a, severity) + Count(b, severity)
    decreases |b|
  {
    if b == [] {
      assert a + b == a;
    } else {
      var b' := b[..|b| - 1];
      assert (a + b)[..|a + b| - 1] == a + b';
      CountAppend(a, b', severity);
    }
  }

  /** The count is zero exactly when no issue has that severity. */
  lemma {:induction false} CountZero(issues: seq<ValidationIssue>, severity: Severity)
    ensures Count(issues, severity) == 0 <==> forall i :: 0 <= i < |issues| ==> issues[i].severity != severity
  {
    if issues != [] {
      var init := issues[..|issues| - 1];
      CountZero(init, severity);
      assert forall i :: 0 <= i < |init| ==> init[i] == issues[i];
    }
  }

  /** The issue a rule reports, if any, as a list of at most one. */
  function Found(finding: Option<ValidationIssue>): seq<ValidationIssue> {
    if finding.Some? then [finding.value] else []
  }

  /** The rule reported an issue of that severity for that field. */
  predicate Reports(finding: Option<ValidationIssue>, severity: Severity, field: string) {
    finding.Some? && finding.value.severity == severity && finding.value.field == field
  }

  /** The rule found nothing critical. */
  predicate Passes(finding: Option<ValidationIssue>) {
    !(finding.Some? && finding.value.severity == Critical)
  }

  lemma NoCriticalThen(issues: seq<ValidationIssue>, finding: Option<ValidationIssue>)
    ensures NoCritical(issues + Found(finding)) <==> NoCritical(issues) && Passes(finding)
  {
    CountAppend(issues, Found(finding), Critical);
  }

  /** Findings of several rules, concatenated, contain nothing critical exactly when no rule found something critical. */
  lemma Passes3(a: Option<ValidationIssue>, b: Option<ValidationIssue>, c: Option<ValidationIssue>)
    ensures NoCritical(Found(a) + Found(b) + Found(c)) <==> Passes(a) && Passes(b) && Passes(c)
  {
    NoCriticalThen([], a);
    assert [] + Found(a) == Found(a);
    NoCriticalThen(Found(a), b);
    NoCriticalThen(Found(a) + Found(b), c);
  }

  lemma Passes6(a: Option<ValidationIssue>, b: Option<ValidationIssue>, c: Option<ValidationIssue>,
                d: Option<ValidationIssue>, e: Option<ValidationIssue>, f: Option<ValidationIssue>)
    ensures NoCritical(Found(a) + Found(b) + Found(c) + Found(d) + Found(e) + Found(f)) <==>
      Passes(a) && Passes(b) && Passes(c) && Passes(d) && Passes(e) && Passes(f)
  {
    var abc := Found(a) + Found(b) + Found(c);
    Passes3(a, b, c);
    NoCriticalThen(abc, d);
    NoCriticalThen(abc + Found(d), e);
    NoCriticalThen(abc + Found(d) + Found(e), f);
  }

  /** The message and the suggestion of an issue, as the validators spell them. */
  datatype Advice = Advice(message: string, suggestion: string)

  /** `add_issue` with a suggestion, as every call in the validators passes one. */
  function Issue(severity: Severity, field: string, advice: Advice): Option<ValidationIssue> {
    Some(ValidationIssue(severity, field, advice.message, Some(advice.suggestion)))
  }

  /** `ValidationReport`: the issues collected so far and the verdict. */
  class ValidationReport {
    var issues: seq<ValidationIssue>
    var isValid: bool

    /** The verdict is true exactly while no critical issue was added. */
    predicate Valid()
      reads this
    {
      isValid == NoCritical(issues)
    }

    /** `ValidationReport::new`: no issues, valid. */
    constructor ()
      ensures issues == [] && isValid && Valid()
    {
      issues := [];
      isValid := true;
    }

    /** `add_issue`: appends the issue and clears the verdict for a critical one. */
    method AddIssue(severity: Severity, field: string, message: string, suggestion: Option<string>)
      modifies this
      ensures issues == old(issues) + [ValidationIssue(severity, field, message, suggestion)]
      ensures isValid == (old(isValid) && severity != Critical)
      ensures old(Valid()) ==> Valid()
      ensures CriticalCount() == old(CriticalCount()) + (if severity == Critical then 1 else 0)
    {
      if severity == Critical {
        isValid := false;
      }
      var issue := ValidationIssue(severity, field, message, suggestion);
      CountAppend(issues, [issue], Critical);
      NoCriticalConcat(issues, [issue]);
      issues := issues + [issue];
    }

    /** Adds the issue a rule found; nothing when the rule found none. */
    method Add(finding: Option<ValidationIssue>)
      modifies this
      ensures issues == old(issues) + Found(finding)
      ensures isValid == (old(isValid) && NoCritical(Found(finding)))
      ensures old(Valid()) ==> Valid()
    {
      if finding.Some? {
        var f := finding.value;
        AddIssue(f.severity, f.field, f.message, f.suggestion);
      }
    }

    /**
     * `report.issues.extend(sub.issues)` followed by clearing the verdict
     * when the sub-report is invalid.
     */
    method Extend(sub: ValidationReport)
      requires sub != this
      modifies this
      ensures issues == old(issues) + sub.issues
      ensures isValid == (old(isValid) && sub.isValid)
      ensures old(Valid()) && sub.Valid() ==> Valid()
    {
      NoCriticalConcat(issues, sub.issues);
      issues := issues + sub.issues;
      if !sub.isValid {
        isValid := false;
      }
    }

    /** `critical_count`: zero exactly when the report is valid. */
    function CriticalCount(): (r: nat)
      reads this
      ensures r <= |issues|
      ensures r == 0 <==> forall i :: 0 <= i < |issues| ==> issues[i].severity != Critical
      ensures Valid() ==> (isValid <==> r == 0)
    {
      CountZero(issues, Critical);
      Count(issues, Critical)
    }

    /** `warning_count`: zero exactly when no issue is a warning. */
    function WarningCount(): (r: nat)
      reads this
      ensures r <= |issues|
      ensures r == 0 <==> forall i :: 0 <= i < |issues| ==> issues[i].severity != Warning
    {
      CountZero(issues, Warning);
      Count(issues, Warning)
    }

    /** `summary`: the two counts and the total in one line. */
    function Summary(): (r: string)
      reads this
      ensures Text.StartsWith(r, "Validation: ") && Text.EndsWith(r, " total issues")
    {
      var s := "Validation: " + Text.NatToDecimal(Count(issues, Critical)) + " critical, "
        + Text.NatToDecimal(Count(issues, Warning)) + " warnings, "
        + Text.NatToDecimal(|issues|) + " total issues";
      assert s[..12] == "Validation: ";
      assert s[|s| - 13..] == " total issues";
      s
    }
  }

  // ---------------------------------------------------------------------
  // The configuration sections that are validated.

  datatype WiFiConfig = WiFiConfig(ssid: string, password: string, timeoutSeconds: u32, retryAttempts: u8, autoReconnect: bool)

  datatype MqttConfig = MqttConfig(
    brokerIp: string, brokerPort: u16, clientId: string, topicPrefix: string,
    sensorTopic: string, statusTopic: string, heartbeatTopic: string,
    sensorIntervalSecs: u16, heartbeatIntervalSecs: u16, statusIntervalSecs: u16)

  /** The offsets are `f32` values, modelled as reals. */
  datatype SensorConfig = SensorConfig(
    i2cAddress: u8, readingIntervalSecs: u32, calibrationEnabled: bool,
    temperatureOffset: real, humidityOffset: real, pressureOffset: real)

  datatype ConsoleConfig = ConsoleConfig(enabled: bool, baudRate: u32, commandTimeoutMs: u32, historySize: u8, prompt: string)

  datatype SystemConfig = SystemConfig(
    performanceMonitoring: bool, statusLedEnabled: bool, debugOutput: bool,
    heapSize: u32, taskStackSize: u32, watchdogTimeoutSecs: u32)

  datatype StorageConfig = StorageConfig(flashOffset: u32, backupEnabled: bool, wearLeveling: bool, compression: bool)

  datatype HardwareConfig = HardwareConfig(i2cSdaPin: u8, i2cSclPin: u8, statusLedPin: u8, i2cFrequencyHz: u32)

  datatype FeatureFlags = FeatureFlags(
    wifiEnabled: bool, mqttEnabled: bool, consoleEnabled: bool,
    performanceEnabled: bool, containerEnabled: bool, storageEnabled: bool)

  datatype IoTSystemConfig = IoTSystemConfig(
    wifi: WiFiConfig, mqtt: MqttConfig, sensor: SensorConfig, console: ConsoleConfig,
    system: SystemConfig, storage: StorageConfig, features: FeatureFlags, hardware: HardwareConfig)

  /** The `Default` values of the sections (the feature flags follow the build features). */
  const DEFAULT_WIFI := WiFiConfig("", "", 10, 3, true)
  const DEFAULT_MQTT := MqttConfig("192.168.1.100", 1883, "esp32c3-iot", "esp32",
    "esp32/sensor/bme280", "esp32/status", "esp32/heartbeat", 30, 60, 120)
  const DEFAULT_SENSOR := SensorConfig(0x76, 30, true, 0.0, 0.0, 0.0)
  const DEFAULT_CONSOLE := ConsoleConfig(true, 115200, 5000, 10, "esp32> ")
  const DEFAULT_STORAGE := StorageConfig(0x310000, true, true, false)
  const DEFAULT_HARDWARE := HardwareConfig(8, 9, 3, 100_000)

  function DefaultSystem(debugOutput: bool): SystemConfig {
    SystemConfig(true, true, debugOutput, 64 * 1024, 4096, 30)
  }

  function DefaultConfig(debugOutput: bool, features: FeatureFlags): IoTSystemConfig {
    IoTSystemConfig(DEFAULT_WIFI, DEFAULT_MQTT, DEFAULT_SENSOR, DEFAULT_CONSOLE,
      DefaultSystem(debugOutput), DEFAULT_STORAGE, features, DEFAULT_HARDWARE)
  }

  // ---------------------------------------------------------------------
  // IP addresses and topics.

  /** One part of an address: `part.parse::<u8>()` succeeds and formats back to the same text. */
  predicate IsValidIpPart(part: string) {
    var n := Text.ParseUnsigned(part, U8_MAX);
    n.Some? && part == Text.NatToDecimal(n.value)
  }

  /** `is_valid_ip_format`: four parts separated by '.', each a valid part. */
  predicate IsValidIpFormat(ip: string) {
    var parts := Text.Split(ip, '.');
    |parts| == 4 && forall k :: 0 <= k < 4 ==> IsValidIpPart(parts[k])
  }

  /** A part is valid exactly when it is a decimal number up to 255 without a leading zero. */
  lemma IpPartExact(part: string)
    ensures IsValidIpPart(part) <==> Text.Canonical(part) && Text.DigitsValue(part) <= U8_MAX
  {
    if Text.Canonical(part) && Text.DigitsValue(part) <= U8_MAX {
      assert Text.AcceptsDigits(part, U8_MAX);
      Text.CanonicalIsDecimal(part);
    }
  }

  /** The dotted decimal form of four octets. */
  function FormatIp(a: u8, b: u8, c: u8, d: u8): string {
    Text.Join([Text.NatToDecimal(a), Text.NatToDecimal(b), Text.NatToDecimal(c), Text.NatToDecimal(d)], '.')
  }

  lemma NoDotInDecimal(n: nat)
    ensures '.' !in Text.NatToDecimal(n)
  {
    assert !Text.IsDigit('.');
  }

  /** Four parts without a '.' joined by '.' form a valid address exactly when every part is valid. */
  lemma JoinedIpValid(parts: seq<string>)
    requires |parts| == 4 && forall k :: 0 <= k < 4 ==> '.' !in parts[k]
    ensures IsValidIpFormat(Text.Join(parts, '.')) <==> forall k :: 0 <= k < 4 ==> IsValidIpPart(parts[k])
  {
    Text.SplitOfJoin(parts, '.');
  }

  /** Every address written as four octets in decimal is accepted. */
  lemma FormattedIpIsValid(a: u8, b: u8, c: u8, d: u8)
    ensures IsValidIpFormat(FormatIp(a, b, c, d))
  {
    NoDotInDecimal(a);
    NoDotInDecimal(b);
    NoDotInDecimal(c);
    NoDotInDecimal(d);
    Text.DecimalRoundTrip(a, U8_MAX);
    Text.DecimalRoundTrip(b, U8_MAX);
    Text.DecimalRoundTrip(c, U8_MAX);
    Text.DecimalRoundTrip(d, U8_MAX);
    JoinedIpValid([Text.NatToDecimal(a), Text.NatToDecimal(b), Text.NatToDecimal(c), Text.NatToDecimal(d)]);
  }

  /** Conversely, every accepted address is four octets written in decimal. */
  lemma ValidIpIsFormatted(ip: string)
    requires IsValidIpFormat(ip)
    ensures exists a: u8, b: u8, c: u8, d: u8 :: ip == FormatIp(a, b, c, d)
  {
    var parts := Text.Split(ip, '.');
    var v0, v1, v2, v3 := Text.ParseUnsigned(parts[0], U8_MAX).value, Text.ParseUnsigned(parts[1], U8_MAX).value,
      Text.ParseUnsigned(parts[2], U8_MAX).value, Text.ParseUnsigned(parts[3], U8_MAX).value;
    assert IsValidIpPart(parts[0]) && IsValidIpPart(parts[1]) && IsValidIpPart(parts[2]) && IsValidIpPart(parts[3]);
    assert parts == [Text.NatToDecimal(v0), Text.NatToDecimal(v1), Text.NatToDecimal(v2), Text.NatToDecimal(v3)];
    Text.SplitJoin(ip, '.');
    assert ip == FormatIp(v0, v1, v2, v3);
  }

  /** The value of a digit string of one to three digits. */
  lemma SmallDigitsValue(s: string)
    requires 1 <= |s| <= 3 && Text.AllDigits(s)
    ensures |s| == 1 ==> Text.DigitsValue(s) == Text.DigitValue(s[0])
    ensures |s| == 2 ==> Text.DigitsValue(s) == 10 * Text.DigitValue(s[0]) + Text.DigitValue(s[1])
    ensures |s| == 3 ==> Text.DigitsValue(s) == 100 * Text.DigitValue(s[0]) + 10 * Text.DigitValue(s[1]) + Text.DigitValue(s[2])
  {
    var p := s[..|s| - 1];
    if |s| >= 2 {
      var q := p[..|p| - 1];
      assert q[..|q|] == q;
      if |s| == 3 {
        assert q == [s[0]] && p[1] == s[1];
        assert Text.DigitsValue(q[..0]) == 0;
      } else {
        assert p == [s[0]];
      }
    }
  }

  /** A part of one to three digits, not starting with 0 unless it is "0", is valid exactly up to 255. */
  lemma SmallPart(s: string)
    requires 1 <= |s| <= 3 && Text.AllDigits(s) && (s[0] == '0' ==> |s| == 1)
    ensures '.' !in s
    ensures IsValidIpPart(s) <==> Text.DigitsValue(s) <= U8_MAX
  {
    assert !Text.IsDigit('.');
    IpPartExact(s);
  }

  /** Four parts joined by '.' are a valid address when each part is. */
  lemma FourParts(a: string, b: string, c: string, d: string)
    requires '.' !in a && '.' !in b && '.' !in c && '.' !in d
    ensures IsValidIpFormat(a + ("." + (b + ("." + (c + ("." + d)))))) <==>
      IsValidIpPart(a) && IsValidIpPart(b) && IsValidIpPart(c) && IsValidIpPart(d)
  {
    assert [a, b, c, d][1..] == [b, c, d] && [b, c, d][1..] == [c, d] && [c, d][1..] == [d];
    assert Text.Join([c, d], '.') == c + "." + d;
    assert Text.Join([b, c, d], '.') == b + "." + (c + "." + d);
    assert Text.Join([a, b, c, d], '.') == a + ("." + (b + ("." + (c + ("." + d)))));
    JoinedIpValid([a, b, c, d]);
  }

  /** An address made of four valid parts is accepted. */
  lemma ValidDottedQuad(ip: string, a: string, b: string, c: string, d: string)
    requires ip == a + ("." + (b + ("." + (c + ("." + d)))))
    requires '.' !in a && '.' !in b && '.' !in c && '.' !in d
    requires IsValidIpPart(a) && IsValidIpPart(b) && IsValidIpPart(c) && IsValidIpPart(d)
    ensures IsValidIpFormat(ip)
  {
    FourParts(a, b, c, d);
  }

  /** An address with an invalid part among its four is rejected. */
  lemma InvalidDottedQuad(ip: string, a: string, b: string, c: string, d: string)
    requires ip == a + ("." + (b + ("." + (c + ("." + d)))))
    requires '.' !in a && '.' !in b && '.' !in c && '.' !in d
    requires !IsValidIpPart(a) || !IsValidIpPart(b) || !IsValidIpPart(c) || !IsValidIpPart(d)
    ensures !IsValidIpFormat(ip)
  {
    FourParts(a, b, c, d);
  }

  /** The parts the tests use, each checked on its own. */
  lemma Parts192And168()
    ensures IsValidIpPart("192") && IsValidIpPart("168") && '.' !in "192" && '.' !in "168"
  {
    SmallDigitsValue("192");
    SmallPart("192");
    SmallDigitsValue("168");
    SmallPart("168");
  }

  lemma SingleDigitParts()
    ensures IsValidIpPart("0") && IsValidIpPart("1") && '.' !in "0" && '.' !in "1"
  {
    SmallPart("0");
    SmallPart("1");
  }

  lemma Parts10And100()
    ensures IsValidIpPart("10") && IsValidIpPart("100") && '.' !in "10" && '.' !in "100"
  {
    SmallDigitsValue("10");
    SmallPart("10");
    SmallDigitsValue("100");
    SmallPart("100");
  }

  lemma RejectedParts()
    ensures !IsValidIpPart("256") && !IsValidIpPart("01") && '.' !in "256" && '.' !in "01"
  {
    SmallDigitsValue("256");
    SmallPart("256");
    assert !Text.IsDigit('.');
    assert !Text.Canonical("01");
    IpPartExact("01");
  }

  /** The addresses the tests of the validator check, one lemma each. */
  lemma ValidIpExample()
    ensures IsValidIpFormat("192.168.1.1")
  {
    assert "192.168.1.1" == "192" + ("." + ("168" + ("." + ("1" + ("." + "1")))));
    Parts192And168();
    SingleDigitParts();
    ValidDottedQuad("192.168.1.1", "192", "168", "1", "1");
  }

  lemma ValidIpExampleWithZeros()
    ensures IsValidIpFormat("10.0.0.1")
  {
    assert "10.0.0.1" == "10" + ("." + ("0" + ("." + ("0" + ("." + "1")))));
    SingleDigitParts();
    Parts10And100();
    ValidDottedQuad("10.0.0.1", "10", "0", "0", "1");
  }

  lemma OutOfRangeIpExample()
    ensures !IsValidIpFormat("192.168.1.256")
  {
    assert "192.168.1.256" == "192" + ("." + ("168" + ("." + ("1" + ("." + "256")))));
    Parts192And168();
    SingleDigitParts();
    RejectedParts();
    InvalidDottedQuad("192.168.1.256", "192", "168", "1", "256");
  }

  lemma LeadingZeroIpExample()
    ensures !IsValidIpFormat("192.168.01.1")
  {
    assert "192.168.01.1" == "192" + ("." + ("168" + ("." + ("01" + ("." + "1")))));
    Parts192And168();
    SingleDigitParts();
    RejectedParts();
    InvalidDottedQuad("192.168.01.1", "192", "168", "01", "1");
  }

  /** Three parts are too few, whatever they hold. */
  lemma ThreeParts(ip: string, a: string, b: string, c: string)
    requires ip == a + ("." + (b + ("." + c)))
    requires '.' !in a && '.' !in b && '.' !in c
    ensures !IsValidIpFormat(ip)
  {
    assert [a, b, c][1..] == [b, c] && [b, c][1..] == [c];
    assert Text.Join([b, c], '.') == b + ("." + c);
    assert Text.Join([a, b, c], '.') == a + ("." + Text.Join([b, c], '.'));
    Text.SplitOfJoin([a, b, c], '.');
  }

  lemma ThreePartIpExample()
    ensures !IsValidIpFormat("192.168.1")
  {
    assert "192.168.1" == "192" + ("." + ("168" + ("." + "1")));
    SmallPart("192");
    SmallPart("168");
    SmallPart("1");
    ThreeParts("192.168.1", "192", "168", "1");
  }

  /** `topic.contains("//")` */
  predicate HasEmptyLevel(topic: string) {
    Text.Find(topic, "//").Some?
  }

  const TOPIC_EMPTY := Advice("MQTT topic cannot be empty", "Set a valid topic name")
  const TOPIC_WILDCARD_NOT_LAST := Advice("MQTT wildcard '#' must be at the end", "Move '#' to end or remove it")
  const TOPIC_EMPTY_LEVELS := Advice("MQTT topic contains empty levels", "Remove double slashes")
  const TOPIC_LEADING_SLASH := Advice("MQTT topic starts with '/' (may be unnecessary)", "Consider removing leading slash")

  /** `validate_mqtt_topic`: the first of the four topic checks that fails. */
  function TopicRule(field: string, topic: string): (r: Option<ValidationIssue>)
    ensures r.Some? ==> r.value.field == field
    ensures Reports(r, Critical, field) <==> topic == [] || ('#' in topic && topic[|topic| - 1] != '#')
    ensures Reports(r, Warning, field) <==>
      (!Reports(r, Critical, field) && exists j :: Text.OccursAt(topic, "//", j))
    ensures Reports(r, Info, field) <==>
      (!Reports(r, Critical, field) && !Reports(r, Warning, field) && topic[0] == '/')
  {
    if topic == [] then
      Issue(Critical, field, TOPIC_EMPTY)
    else if '#' in topic && !Text.EndsWith(topic, "#") then
      Issue(Critical, field, TOPIC_WILDCARD_NOT_LAST)
    else if HasEmptyLevel(topic) then
      Issue(Warning, field, TOPIC_EMPTY_LEVELS)
    else if Text.StartsWith(topic, "/") then
      Issue(Info, field, TOPIC_LEADING_SLASH)
    else None
  }

  /** A '#' followed by another final '#' passes the wildcard check: only the last character is looked at. */
  lemma InnerWildcardBeforeFinalOne()
    ensures !Reports(TopicRule("t", "a/#/#"), Critical, "t")
  {
    assert "a/#/#"[4] == '#';
  }

  // ---------------------------------------------------------------------
  // WiFi rules.

  const SSID_EMPTY := Advice("WiFi SSID cannot be empty", "Set a valid WiFi network name")
  const SSID_TOO_LONG := Advice("WiFi SSID too long (max 32 characters)", "Shorten the SSID")

  function SsidRule(ssid: string): (r: Option<ValidationIssue>)
    ensures r.Some? <==> ssid == [] || |ssid| > 32
    ensures r.Some? ==> Reports(r, Critical, "wifi.ssid")
  {
    if ssid == [] then
      Issue(Critical, "wifi.ssid", SSID_EMPTY)
    else if |ssid| > 32 then
      Issue(Critical, "wifi.ssid", SSID_TOO_LONG)
    else None
  }

  const PASSWORD_EMPTY := Advice("WiFi password is empty (open network)", "Consider using a secured network")
  const PASSWORD_SHORT := Advice("WiFi password is short (less than 8 characters)", "Use a stronger password")
  const PASSWORD_TOO_LONG := Advice("WiFi password too long (max 64 characters)", "Shorten the password")

  function PasswordRule(password: string): (r: Option<ValidationIssue>)
    ensures Reports(r, Critical, "wifi.password") <==> |password| > 64
    ensures Reports(r, Warning, "wifi.password") <==> |password| < 8
    ensures r.None? <==> 8 <= |password| <= 64
    ensures r.Some? ==> r.value.field == "wifi.password"
  {
    if password == [] then
      Issue(Warning, "wifi.password", PASSWORD_EMPTY)
    else if |password| < 8 then
      Issue(Warning, "wifi.password", PASSWORD_SHORT)
    else if |password| > 64 then
      Issue(Critical, "wifi.password", PASSWORD_TOO_LONG)
    else None
  }

  const WIFI_TIMEOUT_ZERO := Advice("WiFi timeout cannot be zero", "Set timeout to at least 5 seconds")
  const WIFI_TIMEOUT_LONG := Advice("WiFi timeout is very long", "Consider reducing timeout to 10-30 seconds")

  function WiFiTimeoutRule(timeoutSeconds: u32): (r: Option<ValidationIssue>)
    ensures Reports(r, Critical, "wifi.timeout_seconds") <==> timeoutSeconds == 0
    ensures Reports(r, Warning, "wifi.timeout_seconds") <==> timeoutSeconds > 60
    ensures r.None? <==> 1 <= timeoutSeconds <= 60
    ensures r.Some? ==> r.value.field == "wifi.timeout_seconds"
  {
    if timeoutSeconds == 0 then
      Issue(Critical, "wifi.timeout_seconds", WIFI_TIMEOUT_ZERO)
    else if timeoutSeconds > 60 then
      Issue(Warning, "wifi.timeout_seconds", WIFI_TIMEOUT_LONG)
    else None
  }

  const NO_RETRIES := Advice("No retry attempts configured", "Consider allowing 1-3 retry attempts")
  const TOO_MANY_RETRIES := Advice("Too many retry attempts may cause delays", "Limit retry attempts to 3-5")

  function RetryAttemptsRule(retryAttempts: u8): (r: Option<ValidationIssue>)
    ensures r.Some? <==> retryAttempts == 0 || retryAttempts > 10
    ensures r.Some? ==> Reports(r, Warning, "wifi.retry_attempts")
  {
    if retryAttempts == 0 then
      Issue(Warning, "wifi.retry_attempts", NO_RETRIES)
    else if retryAttempts > 10 then
      Issue(Warning, "wifi.retry_attempts", TOO_MANY_RETRIES)
    else None
  }

  /** The issues `WiFiConfig::validate` reports, in order. */
  function WiFiIssues(c: WiFiConfig): seq<ValidationIssue> {
    Found(SsidRule(c.ssid)) + Found(PasswordRule(c.password))
      + Found(WiFiTimeoutRule(c.timeoutSeconds)) + Found(RetryAttemptsRule(c.retryAttempts))
  }

  /** A WiFi section the validator accepts: an SSID of 1 to 32 characters, a password of at most 64, a timeout. */
  predicate WiFiAcceptable(c: WiFiConfig) {
    0 < |c.ssid| <= 32 && |c.password| <= 64 && c.timeoutSeconds > 0
  }

  lemma WiFiVerdict(c: WiFiConfig)
    ensures NoCritical(WiFiIssues(c)) <==> WiFiAcceptable(c)
  {
    Passes3(SsidRule(c.ssid), PasswordRule(c.password), WiFiTimeoutRule(c.timeoutSeconds));
    NoCriticalThen(Found(SsidRule(c.ssid)) + Found(PasswordRule(c.password)) + Found(WiFiTimeoutRule(c.timeoutSeconds)),
      RetryAttemptsRule(c.retryAttempts));
  }

  /** `WiFiConfig::validate` */
  method ValidateWiFi(c: WiFiConfig) returns (report: ValidationReport)
    ensures fresh(report) && report.Valid()
    ensures report.issues == WiFiIssues(c)
    ensures report.isValid <==> WiFiAcceptable(c)
  {
    report := new ValidationReport();
    report.Add(SsidRule(c.ssid));
    report.Add(PasswordRule(c.password));
    report.Add(WiFiTimeoutRule(c.timeoutSeconds));
    report.Add(RetryAttemptsRule(c.retryAttempts));
    WiFiVerdict(c);
  }

  // ---------------------------------------------------------------------
  // MQTT rules.

  const BROKER_IP_EMPTY := Advice("MQTT broker IP cannot be empty", "Set a valid broker IP address")
  const BROKER_IP_INVALID := Advice("MQTT broker IP format is invalid", "Use format like 192.168.1.100")

  function BrokerIpRule(brokerIp: string): (r: Option<ValidationIssue>)
    ensures r.None? <==> IsValidIpFormat(brokerIp)
    ensures r.Some? ==> Reports(r, Critical, "mqtt.broker_ip")
  {
    if brokerIp == [] then
      assert Text.Split(brokerIp, '.') == [""];
      Issue(Critical, "mqtt.broker_ip", BROKER_IP_EMPTY)
    else if !IsValidIpFormat(brokerIp) then
      Issue(Critical, "mqtt.broker_ip", BROKER_IP_INVALID)
    else None
  }

  const BROKER_PORT_ZERO := Advice("MQTT broker port cannot be zero", "Use standard port 1883 or 8883 for TLS")
  const BROKER_PORT_NONSTANDARD := Advice("Non-standard MQTT port", "Standard ports are 1883 (plain) or 8883 (TLS)")

  function BrokerPortRule(brokerPort: u16): (r: Option<ValidationIssue>)
    ensures Reports(r, Critical, "mqtt.broker_port") <==> brokerPort == 0
    ensures Reports(r, Info, "mqtt.broker_port") <==> brokerPort !in {0, 1883, 8883}
    ensures r.Some? ==> r.value.field == "mqtt.broker_port" && r.value.severity != Warning
  {
    if brokerPort == 0 then
      Issue(Critical, "mqtt.broker_port", BROKER_PORT_ZERO)
    else if brokerPort != 1883 && brokerPort != 8883 then
      Issue(Info, "mqtt.broker_port", BROKER_PORT_NONSTANDARD)
    else None
  }

  const CLIENT_ID_EMPTY := Advice("MQTT client ID cannot be empty", "Set a unique client identifier")
  const CLIENT_ID_LONG := Advice("MQTT client ID may be too long for some brokers", "Keep client ID under 23 characters")

  function ClientIdRule(clientId: string): (r: Option<ValidationIssue>)
    ensures Reports(r, Critical, "mqtt.client_id") <==> clientId == []
    ensures Reports(r, Warning, "mqtt.client_id") <==> |clientId| > 23
    ensures r.None? <==> 0 < |clientId| <= 23
    ensures r.Some? ==> r.value.field == "mqtt.client_id"
  {
    if clientId == [] then
      Issue(Critical, "mqtt.client_id", CLIENT_ID_EMPTY)
    else if |clientId| > 23 then
      Issue(Warning, "mqtt.client_id", CLIENT_ID_LONG)
    else None
  }

  const SENSOR_INTERVAL_SHORT := Advice("Sensor interval too short", "Set interval to at least 1 second")
  const SENSOR_INTERVAL_LONG := Advice("Sensor interval very long (over 1 hour)", "Consider shorter interval for better monitoring")

  function SensorIntervalRule(secs: u16): (r: Option<ValidationIssue>)
    ensures Reports(r, Critical, "mqtt.sensor_interval_secs") <==> secs < 1
    ensures Reports(r, Warning, "mqtt.sensor_interval_secs") <==> secs > 3600
    ensures r.None? <==> 1 <= secs <= 3600
    ensures r.Some? ==> r.value.field == "mqtt.sensor_interval_secs"
  {
    if secs < 1 then
      Issue(Critical, "mqtt.sensor_interval_secs", SENSOR_INTERVAL_SHORT)
    else if secs > 3600 then
      Issue(Warning, "mqtt.sensor_interval_secs", SENSOR_INTERVAL_LONG)
    else None
  }

  const HEARTBEAT_INTERVAL_SHORT := Advice("Heartbeat interval may be too short", "Consider 30-60 second intervals")

  function HeartbeatIntervalRule(secs: u16): (r: Option<ValidationIssue>)
    ensures r.Some? <==> secs < 10
    ensures r.Some? ==> Reports(r, Warning, "mqtt.heartbeat_interval_secs")
  {
    if secs < 10 then
      Issue(Warning, "mqtt.heartbeat_interval_secs", HEARTBEAT_INTERVAL_SHORT)
    else None
  }

  /** The issues `MqttConfig::validate` reports, in order; the status interval is not checked. */
  function MqttIssues(c: MqttConfig): seq<ValidationIssue> {
    Found(BrokerIpRule(c.brokerIp)) + Found(BrokerPortRule(c.brokerPort)) + Found(ClientIdRule(c.clientId))
      + Found(TopicRule("mqtt.sensor_topic", c.sensorTopic))
      + Found(TopicRule("mqtt.status_topic", c.statusTopic))
      + Found(TopicRule("mqtt.heartbeat_topic", c.heartbeatTopic))
      + Found(SensorIntervalRule(c.sensorIntervalSecs)) + Found(HeartbeatIntervalRule(c.heartbeatIntervalSecs))
  }

  /** A topic that passes without a critical issue: non-empty, and any '#' at least ends it. */
  predicate TopicAcceptable(topic: string) {
    topic != [] && ('#' in topic ==> topic[|topic| - 1] == '#')
  }

  /** An MQTT section the validator accepts. */
  predicate MqttAcceptable(c: MqttConfig) {
    IsValidIpFormat(c.brokerIp) && c.brokerPort != 0 && c.clientId != []
      && TopicAcceptable(c.sensorTopic) && TopicAcceptable(c.statusTopic) && TopicAcceptable(c.heartbeatTopic)
      && c.sensorIntervalSecs >= 1
  }

  lemma MqttVerdict(c: MqttConfig)
    ensures NoCritical(MqttIssues(c)) <==> MqttAcceptable(c)
  {
    var ip, port, id := BrokerIpRule(c.brokerIp), BrokerPortRule(c.brokerPort), ClientIdRule(c.clientId);
    var st, su, hb := TopicRule("mqtt.sensor_topic", c.sensorTopic), TopicRule("mqtt.status_topic", c.statusTopic),
      TopicRule("mqtt.heartbeat_topic", c.heartbeatTopic);
    var si, hi := SensorIntervalRule(c.sensorIntervalSecs), HeartbeatIntervalRule(c.heartbeatIntervalSecs);
    var six := Found(ip) + Found(port) + Found(id) + Found(st) + Found(su) + Found(hb);
    Passes6(ip, port, id, st, su, hb);
    NoCriticalThen(six, si);
    NoCriticalThen(six + Found(si), hi);
  }

  /** `MqttConfig::validate` */
  method ValidateMqtt(c: MqttConfig) returns (report: ValidationReport)
    ensures fresh(report) && report.Valid()
    ensures report.issues == MqttIssues(c)
    ensures report.isValid <==> MqttAcceptable(c)
  {
    report := new ValidationReport();
    report.Add(BrokerIpRule(c.brokerIp));
    report.Add(BrokerPortRule(c.brokerPort));
    report.Add(ClientIdRule(c.clientId));
    report.Add(TopicRule("mqtt.sensor_topic", c.sensorTopic));
    report.Add(TopicRule("mqtt.status_topic", c.statusTopic));
    report.Add(TopicRule("mqtt.heartbeat_topic", c.heartbeatTopic));
    report.Add(SensorIntervalRule(c.sensorIntervalSecs));
    report.Add(HeartbeatIntervalRule(c.heartbeatIntervalSecs));
    MqttVerdict(c);
  }

  lemma DefaultBrokerIpValid()
    ensures IsValidIpFormat("192.168.1.100")
  {
    assert "192.168.1.100" == "192" + ("." + ("168" + ("." + ("1" + ("." + "100")))));
    Parts192And168();
    SingleDigitParts();
    Parts10And100();
    ValidDottedQuad("192.168.1.100", "192", "168", "1", "100");
  }

  lemma DefaultTopicsAcceptable()
    ensures TopicAcceptable("esp32/sensor/bme280") && TopicAcceptable("esp32/status") && TopicAcceptable("esp32/heartbeat")
  {
    assert forall i :: 0 <= i < |"esp32/sensor/bme280"| ==> "esp32/sensor/bme280"[i] != '#';
    assert forall i :: 0 <= i < |"esp32/status"| ==> "esp32/status"[i] != '#';
    assert forall i :: 0 <= i < |"esp32/heartbeat"| ==> "esp32/heartbeat"[i] != '#';
  }

  /** The default MQTT section passes, as its test expects. */
  lemma DefaultMqttAccepted()
    ensures MqttAcceptable(DEFAULT_MQTT)
  {
    var m := DEFAULT_MQTT;
    assert m.brokerIp == "192.168.1.100";
    DefaultBrokerIpValid();
    DefaultTopicsAcceptable();
    assert m.sensorTopic == "esp32/sensor/bme280" && m.statusTopic == "esp32/status" && m.heartbeatTopic == "esp32/heartbeat";
  }

  // ---------------------------------------------------------------------
  // Sensor rules.

  const I2C_ADDRESS_ZERO := Advice("I2C address cannot be zero", "Use 0x76 or 0x77 for BME280")
  const I2C_ADDRESS_NONSTANDARD := Advice("Non-standard BME280 I2C address", "BME280 typically uses 0x76 or 0x77")

  function I2cAddressRule(address: u8): (r: Option<ValidationIssue>)
    ensures Reports(r, Critical, "sensor.i2c_address") <==> address == 0
    ensures Reports(r, Warning, "sensor.i2c_address") <==> address !in {0, 0x76, 0x77}
    ensures r.Some? ==> r.value.field == "sensor.i2c_address"
  {
    if address == 0 then
      Issue(Critical, "sensor.i2c_address", I2C_ADDRESS_ZERO)
    else if address != 0x76 && address != 0x77 then
      Issue(Warning, "sensor.i2c_address", I2C_ADDRESS_NONSTANDARD)
    else None
  }

  const READING_INTERVAL_ZERO := Advice("Reading interval cannot be zero", "Set interval to at least 1 second")
  const READING_INTERVAL_LONG := Advice("Reading interval very long (over 1 hour)", "Consider shorter interval for responsive monitoring")

  function ReadingIntervalRule(secs: u32): (r: Option<ValidationIssue>)
    ensures Reports(r, Critical, "sensor.reading_interval_secs") <==> secs == 0
    ensures Reports(r, Warning, "sensor.reading_interval_secs") <==> secs > 3600
    ensures r.Some? ==> r.value.field == "sensor.reading_interval_secs"
  {
    if secs == 0 then
      Issue(Critical, "sensor.reading_interval_secs", READING_INTERVAL_ZERO)
    else if secs > 3600 then
      Issue(Warning, "sensor.reading_interval_secs", READING_INTERVAL_LONG)
    else None
  }

  function Abs(x: real): (r: real)
    ensures r >= 0.0 && (r == x || r == -x)
  {
    if x < 0.0 then -x else x
  }

  function OffsetAdvice(quantity: string): Advice {
    Advice("Large " + quantity + " offset may indicate calibration issue", "Verify sensor calibration")
  }

  /** A calibration offset whose magnitude exceeds the limit is a warning. */
  function OffsetRule(quantity: string, offset: real, limit: real): (r: Option<ValidationIssue>)
    ensures r.Some? <==> offset > limit || offset < -limit
    ensures r.Some? ==> Reports(r, Warning, "sensor." + quantity + "_offset")
  {
    if Abs(offset) > limit then
      Issue(Warning, "sensor." + quantity + "_offset", OffsetAdvice(quantity))
    else None
  }

  /** The issues `SensorConfig::validate` reports, in order. */
  function SensorIssues(c: SensorConfig): seq<ValidationIssue> {
    Found(I2cAddressRule(c.i2cAddress)) + Found(ReadingIntervalRule(c.readingIntervalSecs))
      + Found(OffsetRule("temperature", c.temperatureOffset, 10.0))
      + Found(OffsetRule("humidity", c.humidityOffset, 20.0))
      + Found(OffsetRule("pressure", c.pressureOffset, 100.0))
  }

  predicate SensorAcceptable(c: SensorConfig) {
    c.i2cAddress != 0 && c.readingIntervalSecs != 0
  }

  lemma SensorVerdict(c: SensorConfig)
    ensures NoCritical(SensorIssues(c)) <==> SensorAcceptable(c)
  {
    var a, ri := I2cAddressRule(c.i2cAddress), ReadingIntervalRule(c.readingIntervalSecs);
    var t, h, p := OffsetRule("temperature", c.temperatureOffset, 10.0),
      OffsetRule("humidity", c.humidityOffset, 20.0), OffsetRule("pressure", c.pressureOffset, 100.0);
    Passes3(a, ri, t);
    NoCriticalThen(Found(a) + Found(ri) + Found(t), h);
    NoCriticalThen(Found(a) + Found(ri) + Found(t) + Found(h), p);
  }

  /** `SensorConfig::validate` */
  method ValidateSensor(c: SensorConfig) returns (report: ValidationReport)
    ensures fresh(report) && report.Valid()
    ensures report.issues == SensorIssues(c)
    ensures report.isValid <==> SensorAcceptable(c)
  {
    report := new ValidationReport();
    report.Add(I2cAddressRule(c.i2cAddress));
    report.Add(ReadingIntervalRule(c.readingIntervalSecs));
    report.Add(OffsetRule("temperature", c.temperatureOffset, 10.0));
    report.Add(OffsetRule("humidity", c.humidityOffset, 20.0));
    report.Add(OffsetRule("pressure", c.pressureOffset, 100.0));
    SensorVerdict(c);
  }

  // ---------------------------------------------------------------------
  // Console rules.

  const STANDARD_BAUD_RATES: seq<u32> := [9600, 19200, 38400, 57600, 115200, 230400, 460800, 921600]

  const BAUD_RATE_ZERO := Advice("Console baud rate cannot be zero", "Use standard baud rate like 115200")
  const BAUD_RATE_NONSTANDARD := Advice("Non-standard baud rate", "Consider using standard baud rate for compatibility")

  function BaudRateRule(baudRate: u32): (r: Option<ValidationIssue>)
    ensures Reports(r, Critical, "console.baud_rate") <==> baudRate == 0
    ensures Reports(r, Warning, "console.baud_rate") <==> baudRate != 0 && baudRate !in STANDARD_BAUD_RATES
    ensures r.Some? ==> r.value.field == "console.baud_rate"
  {
    if baudRate == 0 then
      Issue(Critical, "console.baud_rate", BAUD_RATE_ZERO)
    else if baudRate !in STANDARD_BAUD_RATES then
      Issue(Warning, "console.baud_rate", BAUD_RATE_NONSTANDARD)
    else None
  }

  const COMMAND_TIMEOUT_SHORT := Advice("Very short command timeout", "Consider timeout of at least 1000ms")
  const COMMAND_TIMEOUT_LONG := Advice("Very long command timeout", "Consider timeout under 30 seconds")

  function CommandTimeoutRule(timeoutMs: u32): (r: Option<ValidationIssue>)
    ensures r.Some? <==> timeoutMs < 1000 || timeoutMs > 30000
    ensures r.Some? ==> Reports(r, Warning, "console.command_timeout_ms")
  {
    if timeoutMs < 1000 then
      Issue(Warning, "console.command_timeout_ms", COMMAND_TIMEOUT_SHORT)
    else if timeoutMs > 30000 then
      Issue(Warning, "console.command_timeout_ms", COMMAND_TIMEOUT_LONG)
    else None
  }

  const NO_HISTORY := Advice("No command history configured", "Consider enabling command history")
  const HISTORY_LARGE := Advice("Large history size may use too much memory", "Consider reducing history size to save RAM")

  function HistorySizeRule(historySize: u8): (r: Option<ValidationIssue>)
    ensures Reports(r, Info, "console.history_size") <==> historySize == 0
    ensures Reports(r, Warning, "console.history_size") <==> historySize > 50
    ensures r.Some? ==> r.value.field == "console.history_size" && r.value.severity != Critical
  {
    if historySize == 0 then
      Issue(Info, "console.history_size", NO_HISTORY)
    else if historySize > 50 then
      Issue(Warning, "console.history_size", HISTORY_LARGE)
    else None
  }

  /** The issues `ConsoleConfig::validate` reports, in order. */
  function ConsoleIssues(c: ConsoleConfig): seq<ValidationIssue> {
    Found(BaudRateRule(c.baudRate)) + Found(CommandTimeoutRule(c.commandTimeoutMs)) + Found(HistorySizeRule(c.historySize))
  }

  lemma ConsoleVerdict(c: ConsoleConfig)
    ensures NoCritical(ConsoleIssues(c)) <==> c.baudRate != 0
  {
    Passes3(BaudRateRule(c.baudRate), CommandTimeoutRule(c.commandTimeoutMs), HistorySizeRule(c.historySize));
  }

  /** `ConsoleConfig::validate` */
  method ValidateConsole(c: ConsoleConfig) returns (report: ValidationReport)
    ensures fresh(report) && report.Valid()
    ensures report.issues == ConsoleIssues(c)
    ensures report.isValid <==> c.baudRate != 0
  {
    report := new ValidationReport();
    report.Add(BaudRateRule(c.baudRate));
    report.Add(CommandTimeoutRule(c.commandTimeoutMs));
    report.Add(HistorySizeRule(c.historySize));
    ConsoleVerdict(c);
  }

  // ---------------------------------------------------------------------
  // Storage rules: three independent checks of the flash offset.

  const SECTOR_SIZE: u32 := 4096

  const FLASH_OFFSET_LOW := Advice("Flash offset may conflict with application code", "Use offset above 1MB (0x100000)")

  function LowOffsetRule(flashOffset: u32): (r: Option<ValidationIssue>)
    ensures r.Some? <==> flashOffset < 0x100000
    ensures r.Some? ==> Reports(r, Warning, "storage.flash_offset")
  {
    if flashOffset < 0x100000 then
      Issue(Warning, "storage.flash_offset", FLASH_OFFSET_LOW)
    else None
  }

  const FLASH_OFFSET_HIGH := Advice("Flash offset may exceed available flash memory", "Ensure offset is within your flash size")

  function HighOffsetRule(flashOffset: u32): (r: Option<ValidationIssue>)
    ensures r.Some? <==> flashOffset > 0x380000
    ensures r.Some? ==> Reports(r, Warning, "storage.flash_offset")
  {
    if flashOffset > 0x380000 then
      Issue(Warning, "storage.flash_offset", FLASH_OFFSET_HIGH)
    else None
  }

  const FLASH_OFFSET_UNALIGNED := Advice("Flash offset must be sector-aligned (4KB)", "Use offset that is multiple of 4096")

  function SectorAlignmentRule(flashOffset: u32): (r: Option<ValidationIssue>)
    ensures r.Some? <==> flashOffset % SECTOR_SIZE != 0
    ensures r.Some? ==> Reports(r, Critical, "storage.flash_offset")
  {
    if flashOffset % SECTOR_SIZE != 0 then
      Issue(Critical, "storage.flash_offset", FLASH_OFFSET_UNALIGNED)
    else None
  }

  /** The issues `StorageConfig::validate` reports, in order. */
  function StorageIssues(c: StorageConfig): seq<ValidationIssue> {
    Found(LowOffsetRule(c.flashOffset)) + Found(HighOffsetRule(c.flashOffset)) + Found(SectorAlignmentRule(c.flashOffset))
  }

  lemma StorageVerdict(c: StorageConfig)
    ensures NoCritical(StorageIssues(c)) <==> c.flashOffset % SECTOR_SIZE == 0
    ensures |StorageIssues(c)| <= 2
  {
    Passes3(LowOffsetRule(c.flashOffset), HighOffsetRule(c.flashOffset), SectorAlignmentRule(c.flashOffset));
  }

  /** `StorageConfig::validate` */
  method ValidateStorage(c: StorageConfig) returns (report: ValidationReport)
    ensures fresh(report) && report.Valid()
    ensures report.issues == StorageIssues(c)
    ensures report.isValid <==> c.flashOffset % SECTOR_SIZE == 0
  {
    report := new ValidationReport();
    report.Add(LowOffsetRule(c.flashOffset));
    report.Add(HighOffsetRule(c.flashOffset));
    report.Add(SectorAlignmentRule(c.flashOffset));
    StorageVerdict(c);
  }

  // ---------------------------------------------------------------------
  // Hardware rules.

  /** The GPIO pins of the ESP32-C3 that the validator accepts. */
  const VALID_GPIO_PINS: seq<u8> := [0, 1, 2, 3, 4, 5, 6, 7, 8, 9, 10, 18, 19, 20, 21]

  lemma ValidGpioPins(pin: u8)
    ensures pin in VALID_GPIO_PINS <==> pin <= 10 || 18 <= pin <= 21
  {
    if pin <= 10 || 18 <= pin <= 21 {
      var k := if pin <= 10 then pin else pin - 7;
      assert VALID_GPIO_PINS[k] == pin;
    }
  }

  const PIN_INVALID := Advice("Invalid GPIO pin for ESP32-C3", "Use valid GPIO pin (0-10, 18-21)")

  function PinRule(field: string, pin: u8): (r: Option<ValidationIssue>)
    ensures r.Some? <==> pin !in VALID_GPIO_PINS
    ensures r.Some? ==> Reports(r, Critical, field)
  {
    if pin !in VALID_GPIO_PINS then
      Issue(Critical, field, PIN_INVALID)
    else None
  }

  const I2C_PINS_SAME := Advice("SDA and SCL pins cannot be the same", "Use different pins for SDA and SCL")

  function I2cPinConflictRule(sda: u8, scl: u8): (r: Option<ValidationIssue>)
    ensures r.Some? <==> sda == scl
    ensures r.Some? ==> Reports(r, Critical, "hardware.i2c_sda_pin")
  {
    if sda == scl then
      Issue(Critical, "hardware.i2c_sda_pin", I2C_PINS_SAME)
    else None
  }

  const LED_PIN_CONFLICT := Advice("LED pin conflicts with I2C pins", "Consider using different pin for LED")

  function LedPinConflictRule(sda: u8, scl: u8, led: u8): (r: Option<ValidationIssue>)
    ensures r.Some? <==> led == sda || led == scl
    ensures r.Some? ==> Reports(r, Warning, "hardware.status_led_pin")
  {
    if sda == led || scl == led then
      Issue(Warning, "hardware.status_led_pin", LED_PIN_CONFLICT)
    else None
  }

  const STANDARD_I2C_FREQUENCIES: seq<u32> := [100_000, 400_000, 1_000_000]

  const I2C_FREQUENCY_ZERO := Advice("I2C frequency cannot be zero", "Use standard frequency like 100000 Hz")
  const I2C_FREQUENCY_HIGH := Advice("Very high I2C frequency may cause communication issues", "Consider frequency under 1MHz")
  const I2C_FREQUENCY_NONSTANDARD := Advice("Non-standard I2C frequency", "Standard frequencies are 100kHz, 400kHz, 1MHz")

  function I2cFrequencyRule(hz: u32): (r: Option<ValidationIssue>)
    ensures Reports(r, Critical, "hardware.i2c_frequency_hz") <==> hz == 0
    ensures Reports(r, Warning, "hardware.i2c_frequency_hz") <==> hz > 1_000_000
    ensures Reports(r, Info, "hardware.i2c_frequency_hz") <==> 0 < hz < 1_000_000 && hz != 100_000 && hz != 400_000
    ensures r.Some? ==> r.value.field == "hardware.i2c_frequency_hz"
  {
    if hz == 0 then
      Issue(Critical, "hardware.i2c_frequency_hz", I2C_FREQUENCY_ZERO)
    else if hz > 1_000_000 then
      Issue(Warning, "hardware.i2c_frequency_hz", I2C_FREQUENCY_HIGH)
    else if hz !in STANDARD_I2C_FREQUENCIES then
      Issue(Info, "hardware.i2c_frequency_hz", I2C_FREQUENCY_NONSTANDARD)
    else None
  }

  /** The issues `HardwareConfig::validate` reports, in order. */
  function HardwareIssues(c: HardwareConfig): seq<ValidationIssue> {
    Found(PinRule("hardware.i2c_sda_pin", c.i2cSdaPin)) + Found(PinRule("hardware.i2c_scl_pin", c.i2cSclPin))
      + Found(PinRule("hardware.status_led_pin", c.statusLedPin))
      + Found(I2cPinConflictRule(c.i2cSdaPin, c.i2cSclPin))
      + Found(LedPinConflictRule(c.i2cSdaPin, c.i2cSclPin, c.statusLedPin))
      + Found(I2cFrequencyRule(c.i2cFrequencyHz))
  }

  /** Hardware the validator accepts: three usable pins, distinct I2C pins and a clock. */
  predicate HardwareAcceptable(c: HardwareConfig) {
    c.i2cSdaPin in VALID_GPIO_PINS && c.i2cSclPin in VALID_GPIO_PINS && c.statusLedPin in VALID_GPIO_PINS
      && c.i2cSdaPin != c.i2cSclPin && c.i2cFrequencyHz != 0
  }

  lemma HardwareVerdict(c: HardwareConfig)
    ensures NoCritical(HardwareIssues(c)) <==> HardwareAcceptable(c)
  {
    Passes6(PinRule("hardware.i2c_sda_pin", c.i2cSdaPin), PinRule("hardware.i2c_scl_pin", c.i2cSclPin),
      PinRule("hardware.status_led_pin", c.statusLedPin), I2cPinConflictRule(c.i2cSdaPin, c.i2cSclPin),
      LedPinConflictRule(c.i2cSdaPin, c.i2cSclPin, c.statusLedPin), I2cFrequencyRule(c.i2cFrequencyHz));
  }

  /** `HardwareConfig::validate` */
  method ValidateHardware(c: HardwareConfig) returns (report: ValidationReport)
    ensures fresh(report) && report.Valid()
    ensures report.issues == HardwareIssues(c)
    ensures report.isValid <==> HardwareAcceptable(c)
  {
    report := new ValidationReport();
    report.Add(PinRule("hardware.i2c_sda_pin", c.i2cSdaPin));
    report.Add(PinRule("hardware.i2c_scl_pin", c.i2cSclPin));
    report.Add(PinRule("hardware.status_led_pin", c.statusLedPin));
    report.Add(I2cPinConflictRule(c.i2cSdaPin, c.i2cSclPin));
    report.Add(LedPinConflictRule(c.i2cSdaPin, c.i2cSclPin, c.statusLedPin));
    report.Add(I2cFrequencyRule(c.i2cFrequencyHz));
    HardwareVerdict(c);
  }

  // ---------------------------------------------------------------------
  // The whole system.

  const MQTT_WITHOUT_WIFI := Advice("MQTT requires WiFi to be enabled", "Enable WiFi feature or disable MQTT")

  function MqttWithoutWiFiRule(features: FeatureFlags): (r: Option<ValidationIssue>)
    ensures r.Some? <==> features.mqttEnabled && !features.wifiEnabled
    ensures r.Some? ==> Reports(r, Critical, "features.mqtt_enabled")
  {
    if features.mqttEnabled && !features.wifiEnabled then
      Issue(Critical, "features.mqtt_enabled", MQTT_WITHOUT_WIFI)
    else None
  }

  const HEAP_SMALL := Advice("Heap size may be too small for WiFi operations", "Consider increasing heap size to 64KB")

  function HeapSizeRule(heapSize: u32): (r: Option<ValidationIssue>)
    ensures r.Some? <==> heapSize < 32 * 1024
    ensures r.Some? ==> Reports(r, Warning, "system.heap_size")
  {
    if heapSize < 32 * 1024 then
      Issue(Warning, "system.heap_size", HEAP_SMALL)
    else None
  }

  const STACK_SMALL := Advice("Stack size may be insufficient for complex operations", "Consider increasing stack size to 4KB")

  function StackSizeRule(taskStackSize: u32): (r: Option<ValidationIssue>)
    ensures r.Some? <==> taskStackSize < 2048
    ensures r.Some? ==> Reports(r, Warning, "system.task_stack_size")
  {
    if taskStackSize < 2048 then
      Issue(Warning, "system.task_stack_size", STACK_SMALL)
    else None
  }

  /** The issues of the six sections, in the order the system validator collects them. */
  function SectionIssues(c: IoTSystemConfig): seq<ValidationIssue> {
    WiFiIssues(c.wifi) + MqttIssues(c.mqtt) + SensorIssues(c.sensor) + ConsoleIssues(c.console)
      + StorageIssues(c.storage) + HardwareIssues(c.hardware)
  }

  /** The issues `IoTSystemConfig::validate` reports: the sections', then the cross-component and resource checks. */
  function SystemIssues(c: IoTSystemConfig): seq<ValidationIssue> {
    SectionIssues(c) + Found(MqttWithoutWiFiRule(c.features))
      + Found(HeapSizeRule(c.system.heapSize)) + Found(StackSizeRule(c.system.taskStackSize))
  }

  /** Every section passes on its own. */
  predicate SectionsAcceptable(c: IoTSystemConfig) {
    WiFiAcceptable(c.wifi) && MqttAcceptable(c.mqtt) && SensorAcceptable(c.sensor)
      && c.console.baudRate != 0 && c.storage.flashOffset % SECTOR_SIZE == 0 && HardwareAcceptable(c.hardware)
  }

  lemma NoCritical6(a: seq<ValidationIssue>, b: seq<ValidationIssue>, c: seq<ValidationIssue>,
                    d: seq<ValidationIssue>, e: seq<ValidationIssue>, f: seq<ValidationIssue>)
    ensures NoCritical(a + b + c + d + e + f) <==>
      NoCritical(a) && NoCritical(b) && NoCritical(c) && NoCritical(d) && NoCritical(e) && NoCritical(f)
  {
    NoCriticalConcat(a, b);
    NoCriticalConcat(a + b, c);
    NoCriticalConcat(a + b + c, d);
    NoCriticalConcat(a + b + c + d, e);
    NoCriticalConcat(a + b + c + d + e, f);
  }

  lemma SectionsVerdict(c: IoTSystemConfig)
    ensures NoCritical(SectionIssues(c)) <==> SectionsAcceptable(c)
  {
    var w, m, s, co, st, h := WiFiIssues(c.wifi), MqttIssues(c.mqtt), SensorIssues(c.sensor),
      ConsoleIssues(c.console), StorageIssues(c.storage), HardwareIssues(c.hardware);
    NoCritical6(w, m, s, co, st, h);
    WiFiVerdict(c.wifi);
    MqttVerdict(c.mqtt);
    SensorVerdict(c.sensor);
    ConsoleVerdict(c.console);
    StorageVerdict(c.storage);
    HardwareVerdict(c.hardware);
  }

  /** The system is valid exactly when every section is and MQTT is not enabled without WiFi. */
  lemma SystemVerdict(c: IoTSystemConfig)
    ensures NoCritical(SystemIssues(c)) <==> SectionsAcceptable(c) && !(c.features.mqttEnabled && !c.features.wifiEnabled)
  {
    var f, hp, sk := MqttWithoutWiFiRule(c.features), HeapSizeRule(c.system.heapSize), StackSizeRule(c.system.taskStackSize);
    SectionsVerdict(c);
    NoCriticalThen(SectionIssues(c), f);
    NoCriticalThen(SectionIssues(c) + Found(f), hp);
    NoCriticalThen(SectionIssues(c) + Found(f) + Found(hp), sk);
  }

  /** The first part of `IoTSystemConfig::validate`: the WiFi, MQTT and sensor reports merged in turn. */
  method ExtendWithNetworkSections(report: ValidationReport, c: IoTSystemConfig)
    requires report.issues == [] && report.isValid
    modifies report
    ensures report.Valid()
    ensures report.issues == WiFiIssues(c.wifi) + MqttIssues(c.mqtt) + SensorIssues(c.sensor)
  {
    var wifi := ValidateWiFi(c.wifi);
    report.Extend(wifi);
    assert [] + wifi.issues == wifi.issues;
    var mqtt := ValidateMqtt(c.mqtt);
    report.Extend(mqtt);
    var sensor := ValidateSensor(c.sensor);
    report.Extend(sensor);
  }

  /** The second part: the console, storage and hardware reports merged in turn. */
  method ExtendWithDeviceSections(report: ValidationReport, c: IoTSystemConfig)
    requires report.Valid()
    modifies report
    ensures report.Valid()
    ensures report.issues == old(report.issues) + ConsoleIssues(c.console) + StorageIssues(c.storage) + HardwareIssues(c.hardware)
  {
    var console := ValidateConsole(c.console);
    report.Extend(console);
    var storage := ValidateStorage(c.storage);
    report.Extend(storage);
    var hardware := ValidateHardware(c.hardware);
    report.Extend(hardware);
  }

  /** `IoTSystemConfig::validate` */
  method ValidateSystem(c: IoTSystemConfig) returns (report: ValidationReport)
    ensures fresh(report) && report.Valid()
    ensures report.issues == SystemIssues(c)
    ensures report.isValid <==> SectionsAcceptable(c) && !(c.features.mqttEnabled && !c.features.wifiEnabled)
  {
    report := new ValidationReport();
    ExtendWithNetworkSections(report, c);
    ExtendWithDeviceSections(report, c);
    report.Add(MqttWithoutWiFiRule(c.features));
    report.Add(HeapSizeRule(c.system.heapSize));
    report.Add(StackSizeRule(c.system.taskStackSize));
    SystemVerdict(c);
  }

  /**
   * The default configuration is rejected whatever the build features:
   * its SSID is empty.  The system test of the validator expects it to
   * pass.
   */
  lemma DefaultSystemRejected(debugOutput: bool, features: FeatureFlags)
    ensures !NoCritical(SystemIssues(DefaultConfig(debugOutput, features)))
    ensures NoCritical(StorageIssues(DEFAULT_STORAGE)) && NoCritical(ConsoleIssues(DEFAULT_CONSOLE))
  {
    SystemVerdict(DefaultConfig(debugOutput, features));
    StorageVerdict(DEFAULT_STORAGE);
    ConsoleVerdict(DEFAULT_CONSOLE);
  }

  /** The default WiFi section with an SSID and a password of 8 to 64 characters passes, as its test expects. */
  lemma NamedWiFiAccepted(ssid: string, password: string)
    requires 0 < |ssid| <= 32 && 8 <= |password| <= 64
    ensures NoCritical(WiFiIssues(DEFAULT_WIFI.(ssid := ssid, password := password)))
  {
    WiFiVerdict(DEFAULT_WIFI.(ssid := ssid, password := password));
  }
}
