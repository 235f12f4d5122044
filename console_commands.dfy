/**
 * The command language of the serial console: a typed line is trimmed,
 * split into words, its first word folded to lower case and matched
 * against the command names; `wifi` and `mqtt` take a subcommand and an
 * argument. Executing a command updates the console's copy of the system
 * configuration and produces the text written back to the terminal.
 *
 * Texts are bounded like the `heapless::String` buffers that hold them:
 * `push_str` appends all of a text or, when it does not fit, nothing.
 */
module ConsoleCommands {
  import opened Ints
  import opened Wrappers
  import Text

  /** The capacities of the configuration strings. */
  const MAX_SSID_LEN: nat := 32
  const MAX_PASSWORD_LEN: nat := 64
  const MAX_IP_LEN: nat := 15
  const MAX_HOSTNAME_LEN: nat := 64
  /** The capacity of a command line kept in `Command::Unknown`. */
  const MAX_CMD_LEN: nat := 128
  /** The capacity of the buffer the lowered command word is built in. */
  const COMMAND_WORD_LEN: nat := 32
  /** The capacity of a response. */
  const MAX_RESPONSE_LEN: nat := 512

  /** A fresh bounded string after one `push_str(s)`: `s` when it fits, else empty. */
  function Bounded(s: string, capacity: nat): (r: string)
    ensures |r| <= capacity
    ensures |s| <= capacity ==> r == s
    ensures |s| > capacity ==> r == []
  {
    if |s| <= capacity then s else []
  }

  datatype Command =
    | Help
    | Status
    | Info
    | SetWifiSsid(ssid: string)
    | SetWifiPassword(password: string)
    | ShowWifi
    | SetMqttBroker(ip: string)
    | SetMqttPort(port: u16)
    | SetMqttClientId(clientId: string)
    | SetMqttPrefix(prefix: string)
    | ShowMqtt
    | Restart
    | Save
    | Load
    | Clear
    | Unknown(text: string)

  /** Every text a command carries fits the capacity of its `heapless::String`. */
  predicate CommandFits(cmd: Command) {
    match cmd
    case SetWifiSsid(s) => |s| <= MAX_SSID_LEN
    case SetWifiPassword(p) => |p| <= MAX_PASSWORD_LEN
    case SetMqttBroker(ip) => |ip| <= MAX_IP_LEN
    case SetMqttClientId(id) => |id| <= MAX_HOSTNAME_LEN
    case SetMqttPrefix(p) => |p| <= MAX_HOSTNAME_LEN
    case Unknown(t) => |t| <= MAX_CMD_LEN
    case _ => true
  }

  /** The command word as matched: lowered, and cut at the 32 characters its buffer holds. */
  function CommandWord(w: string): (r: string)
    ensures |r| == Min(|w|, COMMAND_WORD_LEN)
  {
    Text.AsciiLowerString(w)[..Min(|w|, COMMAND_WORD_LEN)]
  }

  /** The loop of `parse_command` that pushes each lowered character of the command word. */
  method LowerCommandWord(w: string) returns (r: string)
    ensures r == CommandWord(w)
  {
    r := [];
    var i := 0;
    while i < |w|
      invariant 0 <= i <= |w|
      invariant r == Text.AsciiLowerString(w)[..Min(i, COMMAND_WORD_LEN)]
    {
      if |r| < COMMAND_WORD_LEN {
        r := r + [Text.AsciiLower(w[i])];
      }
      i := i + 1;
    }
  }

  /** Two command words equal up to ASCII case are matched alike. */
  lemma CommandWordIgnoresCase(a: string, b: string)
    requires Text.EqIgnoreAsciiCase(a, b)
    ensures CommandWord(a) == CommandWord(b)
  {
  }

  /** The command names `parse_command` recognises, in lower case. */
  const COMMAND_NAMES: set<string> := {"help", "h", "?", "status", "stat", "info", "i", "clear", "cls",
                                       "restart", "reset", "save", "load", "wifi", "mqtt"}

  /** The `wifi` subcommands: the argument after `ssid`, `password` or `pass`; anything else shows the settings. */
  function WifiCommand(args: seq<string>): (r: Command)
    ensures r.ShowWifi? || r.SetWifiSsid? || r.SetWifiPassword?
    ensures CommandFits(r)
  {
    if |args| == 0 || args[0] == "show" then ShowWifi
    else if args[0] == "ssid" then
      if |args| >= 2 then SetWifiSsid(Bounded(args[1], MAX_SSID_LEN)) else ShowWifi
    else if args[0] == "password" || args[0] == "pass" then
      if |args| >= 2 then SetWifiPassword(Bounded(args[1], MAX_PASSWORD_LEN)) else ShowWifi
    else ShowWifi
  }

  /** The `mqtt` subcommands; a port that is not a `u16` is reported as an unknown command. */
  function MqttCommand(args: seq<string>): (r: Command)
    ensures r.ShowMqtt? || r.SetMqttBroker? || r.SetMqttPort? || r.SetMqttClientId? || r.SetMqttPrefix? || r == Unknown("Invalid port number")
    ensures CommandFits(r)
  {
    if |args| == 0 || args[0] == "show" then ShowMqtt
    else if args[0] == "broker" || args[0] == "ip" then
      if |args| >= 2 then SetMqttBroker(Bounded(args[1], MAX_IP_LEN)) else ShowMqtt
    else if args[0] == "port" then
      if |args| >= 2 then
        match Text.ParseUnsigned(args[1], U16_MAX)
        case Some(p) => SetMqttPort(p)
        case None => Unknown("Invalid port number")
      else ShowMqtt
    else if args[0] == "client" then
      if |args| >= 2 then SetMqttClientId(Bounded(args[1], MAX_HOSTNAME_LEN)) else ShowMqtt
    else if args[0] == "prefix" then
      if |args| >= 2 then SetMqttPrefix(Bounded(args[1], MAX_HOSTNAME_LEN)) else ShowMqtt
    else ShowMqtt
  }

  /** The command named by a lowered command word, its arguments and the trimmed line. */
  function Dispatch(cmd: string, args: seq<string>, line: string): (r: Command)
    ensures CommandFits(r)
  {
    if cmd == "help" || cmd == "h" || cmd == "?" then Help
    else if cmd == "status" || cmd == "stat" then Status
    else if cmd == "info" || cmd == "i" then Info
    else if cmd == "clear" || cmd == "cls" then Clear
    else if cmd == "restart" || cmd == "reset" then Restart
    else if cmd == "save" then Save
    else if cmd == "load" then Load
    else if cmd == "wifi" then WifiCommand(args)
    else if cmd == "mqtt" then MqttCommand(args)
    else Unknown(Bounded(line, MAX_CMD_LEN))
  }

  /** Only the names `help`, `h` and `?` select Help. */
  lemma DispatchHelp(cmd: string, args: seq<string>, line: string)
    ensures Dispatch(cmd, args, line) == Help <==> cmd in {"help", "h", "?"}
  {
  }

  /** The line itself matters only when the word is no command name. */
  lemma DispatchKnown(cmd: string, args: seq<string>, line1: string, line2: string)
    requires cmd in COMMAND_NAMES
    ensures Dispatch(cmd, args, line1) == Dispatch(cmd, args, line2)
  {
  }

  lemma DispatchUnknown(cmd: string, args: seq<string>, line: string)
    requires cmd !in COMMAND_NAMES
    ensures Dispatch(cmd, args, line) == Unknown(Bounded(line, MAX_CMD_LEN))
  {
  }

  /** The words of the trimmed line: runs of non-whitespace, none at all exactly when the line is blank. */
  function LineWords(line: string): (r: seq<string>)
    ensures forall k :: 0 <= k < |r| ==> Text.IsWord(r[k])
    ensures r == [] <==> forall i :: 0 <= i < |line| ==> Text.IsWhitespace(line[i])
  {
    var t := Text.Trim(line);
    Text.WordsAreWords(t);
    Text.TrimEmptyIffBlank(line);
    Text.TrimProperties(line);
    assert t != [] ==> Text.TrimStart(t) == t;
    Text.Words(t)
  }

  /** A line with something other than whitespace in it has a first word. */
  lemma NonBlankHasWords(line: string)
    requires Text.Trim(line) != []
    ensures |LineWords(line)| >= 1
  {
    Text.TrimProperties(line);
    var t := Text.Trim(line);
    assert Text.TrimStart(t) == t;
  }

  /** `CommandHandler::parse_command` */
  function ParseCommand(line: string): (r: Command)
    ensures CommandFits(r)
  {
    var t := Text.Trim(line);
    if t == [] then Help
    else
      NonBlankHasWords(line);
      var parts := LineWords(line);
      Dispatch(CommandWord(parts[0]), parts[1..], t)
  }

  /** The lowered first word of a non-blank line. */
  function FirstCommandWord(line: string): string
    requires Text.Trim(line) != []
  {
    NonBlankHasWords(line);
    CommandWord(LineWords(line)[0])
  }

  /** A line is read as Help exactly when it is blank or its command word is `help`, `h` or `?`. */
  lemma HelpIffBlankOrHelpWord(line: string)
    ensures ParseCommand(line) == Help <==>
      (forall i :: 0 <= i < |line| ==> Text.IsWhitespace(line[i])) ||
      (Text.Trim(line) != [] && FirstCommandWord(line) in {"help", "h", "?"})
  {
    Text.TrimEmptyIffBlank(line);
    if Text.Trim(line) != [] {
      NonBlankHasWords(line);
      var parts := LineWords(line);
      DispatchHelp(CommandWord(parts[0]), parts[1..], Text.Trim(line));
    }
  }

  /**
   * Two lines whose first words agree up to ASCII case and whose other
   * words are the same are read as the same command, unless the word is
   * no command name (then the line itself is kept).
   */
  lemma ParseIgnoresCommandCase(line1: string, line2: string)
    requires Text.Trim(line1) != [] && Text.Trim(line2) != []
    requires |LineWords(line1)| >= 1 && |LineWords(line2)| >= 1
    requires Text.EqIgnoreAsciiCase(LineWords(line1)[0], LineWords(line2)[0])
    requires LineWords(line1)[1..] == LineWords(line2)[1..]
    requires FirstCommandWord(line1) in COMMAND_NAMES
    ensures ParseCommand(line1) == ParseCommand(line2)
  {
    var p1, p2 := LineWords(line1), LineWords(line2);
    CommandWordIgnoresCase(p1[0], p2[0]);
    DispatchKnown(CommandWord(p1[0]), p1[1..], Text.Trim(line1), Text.Trim(line2));
  }

  /** A line whose command word is no command name is kept whole, as far as 128 characters hold it. */
  lemma UnknownKeepsLine(line: string)
    requires Text.Trim(line) != [] && FirstCommandWord(line) !in COMMAND_NAMES
    ensures ParseCommand(line) == Unknown(Bounded(Text.Trim(line), MAX_CMD_LEN))
  {
    NonBlankHasWords(line);
    var parts := LineWords(line);
    DispatchUnknown(CommandWord(parts[0]), parts[1..], Text.Trim(line));
  }

  /**
   * `wifi` shows the settings unless its subcommand is `ssid`,
   * `password` or `pass` with an argument after it; `ssid X` sets the
   * SSID to X alone (the words after it are ignored), or to nothing when
   * X does not fit in 32 characters.
   */
  lemma WifiSubcommands(args: seq<string>)
    ensures WifiCommand(args) == ShowWifi <==> |args| < 2 || args[0] !in {"ssid", "password", "pass"}
    ensures WifiCommand(args).SetWifiSsid? <==> |args| >= 2 && args[0] == "ssid"
    ensures WifiCommand(args).SetWifiPassword? <==> |args| >= 2 && args[0] in {"password", "pass"}
    ensures WifiCommand(args).SetWifiSsid? && |args[1]| <= MAX_SSID_LEN ==> WifiCommand(args).ssid == args[1]
    ensures WifiCommand(args).SetWifiSsid? && |args[1]| > MAX_SSID_LEN ==> WifiCommand(args).ssid == []
  {
  }

  /** `mqtt port X` sets the port when X reads as a `u16` and is refused with "Invalid port number" otherwise. */
  lemma MqttPortArgument(args: seq<string>)
    requires |args| >= 2 && args[0] == "port"
    ensures Text.ParseUnsigned(args[1], U16_MAX).Some? ==> MqttCommand(args) == SetMqttPort(Text.ParseUnsigned(args[1], U16_MAX).value)
    ensures Text.ParseUnsigned(args[1], U16_MAX).None? <==> MqttCommand(args) == Unknown("Invalid port number")
  {
  }

  /** A command typed as words separated by single spaces is read from exactly those words. */
  lemma ParseOfTypedWords(ws: seq<string>)
    requires |ws| >= 1 && forall k :: 0 <= k < |ws| ==> Text.IsWord(ws[k])
    ensures ParseCommand(Text.Join(ws, ' ')) == Dispatch(CommandWord(ws[0]), ws[1..], Text.Join(ws, ' '))
  {
    var line := Text.Join(ws, ' ');
    Text.TrimOfJoinedWords(ws);
    Text.WordsOfJoin(ws);
    Text.JoinEnds(ws, ' ');
  }

  /** Typing `mqtt port` and a port number in decimal sets exactly that port. */
  lemma PortCommandRoundTrip(port: u16)
    ensures ParseCommand(Text.Join(["mqtt", "port", Text.NatToDecimal(port)], ' ')) == SetMqttPort(port)
  {
    var d := Text.NatToDecimal(port);
    var ws := ["mqtt", "port", d];
    var args := ["port", d];
    MqttWordsAreWords();
    DecimalIsWord(port);
    ParseOfTypedWords(ws);
    assert ws[1..] == args;
    LowerNames();
    DispatchMqtt(args, Text.Join(ws, ' '));
    Text.DecimalRoundTrip(port, U16_MAX);
    MqttPortArgument(args);
  }

  /** Typing `wifi ssid` and a name of at most 32 characters sets the SSID to that name. */
  lemma SsidCommandRoundTrip(ssid: string)
    requires Text.IsWord(ssid) && |ssid| <= MAX_SSID_LEN
    ensures ParseCommand(Text.Join(["wifi", "ssid", ssid], ' ')) == SetWifiSsid(ssid)
  {
    var ws := ["wifi", "ssid", ssid];
    var args := ["ssid", ssid];
    WifiWordsAreWords();
    ParseOfTypedWords(ws);
    assert ws[1..] == args;
    LowerNames();
    DispatchWifi(args, Text.Join(ws, ' '));
    WifiSubcommands(args);
  }

  lemma DispatchMqtt(args: seq<string>, line: string)
    ensures Dispatch("mqtt", args, line) == MqttCommand(args)
  {
  }

  lemma DispatchWifi(args: seq<string>, line: string)
    ensures Dispatch("wifi", args, line) == WifiCommand(args)
  {
  }

  /** `wifi` and `mqtt` are already in lower case. */
  lemma LowerNames()
    ensures CommandWord("mqtt") == "mqtt" && CommandWord("wifi") == "wifi"
  {
    var m, w := "mqtt", "wifi";
    assert Text.AsciiLowerString(m) == m;
    assert Text.AsciiLowerString(w) == w;
  }

  lemma MqttWordsAreWords()
    ensures Text.IsWord("mqtt") && Text.IsWord("port")
  {
    var m, p := "mqtt", "port";
    assert forall j :: 0 <= j < 4 ==> 'a' <= m[j] <= 'z' && 'a' <= p[j] <= 'z';
  }

  lemma WifiWordsAreWords()
    ensures Text.IsWord("wifi") && Text.IsWord("ssid")
  {
    var w, s := "wifi", "ssid";
    assert forall j :: 0 <= j < 4 ==> 'a' <= w[j] <= 'z' && 'a' <= s[j] <= 'z';
  }

  lemma DecimalIsWord(n: nat)
    ensures Text.IsWord(Text.NatToDecimal(n))
  {
    var d := Text.NatToDecimal(n);
    assert forall j :: 0 <= j < |d| ==> Text.IsDigit(d[j]);
  }

  datatype WifiSettings = WifiSettings(ssid: string, password: string)
  datatype MqttSettings = MqttSettings(brokerIp: string, brokerPort: u16, clientId: string, topicPrefix: string)
  datatype SystemInfo = SystemInfo(uptimeSeconds: u64, freeHeap: u32, wifiConnected: bool, mqttConnected: bool,
                                   sensorActive: bool, currentIp: Option<string>)
  datatype SystemConfig = SystemConfig(wifi: WifiSettings, mqtt: MqttSettings, system: SystemInfo)

  /** `SystemConfig::new()`: no credentials, port 1883, client "esp32-c3", prefix "esp32", nothing connected. */
  const INITIAL_CONFIG: SystemConfig :=
    SystemConfig(WifiSettings("", ""), MqttSettings("", 1883, "esp32-c3", "esp32"),
                 SystemInfo(0, 0, false, false, false, None))

  /** Every configuration string within the capacity of its buffer. */
  predicate ConfigFits(c: SystemConfig) {
    |c.wifi.ssid| <= MAX_SSID_LEN && |c.wifi.password| <= MAX_PASSWORD_LEN &&
    |c.mqtt.brokerIp| <= MAX_IP_LEN && |c.mqtt.clientId| <= MAX_HOSTNAME_LEN &&
    |c.mqtt.topicPrefix| <= MAX_HOSTNAME_LEN &&
    (c.system.currentIp.Some? ==> |c.system.currentIp.value| <= MAX_IP_LEN)
  }

  /** `WiFiCredentials::is_valid` */
  predicate WifiComplete(w: WifiSettings) {
    w.ssid != [] && w.password != []
  }

  /** `MqttConfig::is_valid` */
  predicate MqttComplete(m: MqttSettings) {
    m.brokerIp != [] && m.brokerPort > 0
  }

  /** The configuration after a command: the setters replace one field, every other command leaves it as it was. */
  function Apply(c: SystemConfig, cmd: Command): (r: SystemConfig)
    ensures r.system == c.system
  {
    match cmd
    case SetWifiSsid(s) => c.(wifi := c.wifi.(ssid := s))
    case SetWifiPassword(p) => c.(wifi := c.wifi.(password := p))
    case SetMqttBroker(ip) => c.(mqtt := c.mqtt.(brokerIp := ip))
    case SetMqttPort(p) => c.(mqtt := c.mqtt.(brokerPort := p))
    case SetMqttClientId(id) => c.(mqtt := c.mqtt.(clientId := id))
    case SetMqttPrefix(p) => c.(mqtt := c.mqtt.(topicPrefix := p))
    case _ => c
  }

  /** A setter is a command that changes a configuration field. */
  predicate IsSetter(cmd: Command) {
    cmd.SetWifiSsid? || cmd.SetWifiPassword? || cmd.SetMqttBroker? || cmd.SetMqttPort? ||
    cmd.SetMqttClientId? || cmd.SetMqttPrefix?
  }

  /**
   * Each setter changes its own field to the value it carries and no
   * other; the other commands change nothing; the bounds of the buffers
   * are kept.
   */
  lemma ApplyChangesOnlyItsField(c: SystemConfig, cmd: Command)
    requires ConfigFits(c) && CommandFits(cmd)
    ensures ConfigFits(Apply(c, cmd))
    ensures !IsSetter(cmd) ==> Apply(c, cmd) == c
    ensures cmd.SetWifiSsid? ==> Apply(c, cmd).wifi.ssid == cmd.ssid && Apply(c, cmd).(wifi := c.wifi.(ssid := c.wifi.ssid)) == c
    ensures cmd.SetWifiPassword? ==> Apply(c, cmd).wifi.password == cmd.password && Apply(c, cmd).(wifi := c.wifi) == c
    ensures cmd.SetMqttBroker? ==> Apply(c, cmd).mqtt.brokerIp == cmd.ip && Apply(c, cmd).(mqtt := c.mqtt) == c
    ensures cmd.SetMqttPort? ==> Apply(c, cmd).mqtt.brokerPort == cmd.port && Apply(c, cmd).(mqtt := c.mqtt) == c
    ensures cmd.SetMqttClientId? ==> Apply(c, cmd).mqtt.clientId == cmd.clientId && Apply(c, cmd).(mqtt := c.mqtt) == c
    ensures cmd.SetMqttPrefix? ==> Apply(c, cmd).mqtt.topicPrefix == cmd.prefix && Apply(c, cmd).(mqtt := c.mqtt) == c
  {
  }

  /** A setter changes only its own part of the configuration: the SSID setter leaves the password, MQTT and status alone. */
  lemma SsidSetterKeepsOtherFields(c: SystemConfig, s: string)
    ensures Apply(c, SetWifiSsid(s)).wifi.password == c.wifi.password
    ensures Apply(c, SetWifiSsid(s)).mqtt == c.mqtt && Apply(c, SetWifiSsid(s)).system == c.system
  {
  }

  const CRLF: string := "\r\n"

  /** The help text `execute_command` writes with one `push_str`: 23 lines, each ended by CRLF. */
  const HELP_TEXT: string :=
    "\r\n" +
    "=== ESP32-C3 IoT System Console ===\r\n" +
    "Available commands:\r\n" +
    "help, h, ?       - Show this help\r\n" +
    "status, stat     - Show system status\r\n" +
    "info, i          - Show detailed system info\r\n" +
    "clear, cls       - Clear screen\r\n" +
    "restart, reset   - Restart system\r\n" +
    "save             - Save config to flash\r\n" +
    "load             - Load config from flash\r\n" +
    "\r\n" +
    "WiFi commands:\r\n" +
    "wifi show        - Show WiFi config\r\n" +
    "wifi ssid <name> - Set WiFi SSID\r\n" +
    "wifi pass <pwd>  - Set WiFi password\r\n" +
    "\r\n" +
    "MQTT commands:\r\n" +
    "mqtt show        - Show MQTT config\r\n" +
    "mqtt broker <ip> - Set MQTT broker IP\r\n" +
    "mqtt port <num>  - Set MQTT port\r\n" +
    "mqtt client <id> - Set client ID\r\n" +
    "mqtt prefix <pfx>- Set topic prefix\r\n" +
    "\r\n"

  /** The help text is longer than a response can hold. */
  lemma HelpTextTooLong()
    ensures |HELP_TEXT| == 660 && |HELP_TEXT| > MAX_RESPONSE_LEN
  {
  }

  /** "Valid" or "Incomplete" */
  function Completeness(complete: bool): string {
    if complete then "Valid" else "Incomplete"
  }

  /** The response to every command but Help, which fits the 512-character buffer in one piece of text. */
  function ResponseText(c: SystemConfig, cmd: Command): string {
    match cmd
    case Help => HELP_TEXT
    case Status =>
      "\r\n=== System Status ===\r\nWiFi: " +
      (if c.system.wifiConnected then
         "Connected" + (if c.system.currentIp.Some? then " (" + c.system.currentIp.value + ")" else "")
       else "Disconnected") +
      "\r\nMQTT: " + (if c.system.mqttConnected then "Connected" else "Disconnected") +
      "\r\nSensor: " + (if c.system.sensorActive then "Active" else "Inactive") + "\r\n"
    case Info => "\r\n=== System Information ===\r\nChip: ESP32-C3\r\nFramework: Embassy\r\nBuild: Release\r\nFree Heap: 48KB\r\n"
    case SetWifiSsid(s) => "\r\nWiFi SSID set to: " + s + "\r\n"
    case SetWifiPassword(_) => "\r\nWiFi password updated\r\n"
    case ShowWifi =>
      "\r\n=== WiFi Configuration ===\r\nSSID: " + c.wifi.ssid +
      "\r\nPassword: " + (if c.wifi.password == [] then "(not set)" else "********") +
      "\r\nStatus: " + Completeness(WifiComplete(c.wifi)) + "\r\n"
    case SetMqttBroker(ip) => "\r\nMQTT broker set to: " + ip + "\r\n"
    case SetMqttPort(_) => "\r\nMQTT port set to: 1883\r\n"
    case SetMqttClientId(id) => "\r\nMQTT client ID set to: " + id + "\r\n"
    case SetMqttPrefix(p) => "\r\nMQTT topic prefix set to: " + p + "\r\n"
    case ShowMqtt =>
      "\r\n=== MQTT Configuration ===\r\nBroker: " + c.mqtt.brokerIp + ":1883\r\nClient ID: " + c.mqtt.clientId +
      "\r\nTopic Prefix: " + c.mqtt.topicPrefix + "\r\nStatus: " + Completeness(MqttComplete(c.mqtt)) + "\r\n"
    case Clear => "\U{1B}[2J\U{1B}[H"
    case Restart => "\r\nRestarting system...\r\n"
    case Save => "\r\nConfiguration saved to flash\r\n"
    case Load => "\r\nConfiguration loaded from flash\r\n"
    case Unknown(t) => "\r\nUnknown command: " + t + "\r\nType 'help' for available commands\r\n"
  }

  /**
   * The response `execute_command` returns, with the 512-character
   * buffer: the help text is written with a single `push_str`, which
   * does not fit, so the Help response is empty.
   */
  function Response(c: SystemConfig, cmd: Command): (r: string)
    ensures cmd.Help? ==> r == []
  {
    HelpTextTooLong();
    if cmd.Help? then Bounded(HELP_TEXT, MAX_RESPONSE_LEN) else ResponseText(c, cmd)
  }

  /** Every command but help answers with some text. */
  lemma OtherResponsesNonEmpty(c: SystemConfig, cmd: Command)
    requires !cmd.Help?
    ensures Response(c, cmd) != []
  {
    var t := ResponseText(c, cmd);
    match cmd
    case Help =>
    case Status => assert |t| >= |"\r\n=== System Status ===\r\nWiFi: "|;
    case ShowWifi => assert |t| >= |"\r\n=== WiFi Configuration ===\r\nSSID: "|;
    case ShowMqtt => assert |t| >= |"\r\n=== MQTT Configuration ===\r\nBroker: "|;
    case _ => assert |t| >= 2;
  }

  /** The help command answers with nothing at all. */
  lemma HelpResponseEmpty(c: SystemConfig)
    ensures Response(c, Help) == []
    ensures ResponseText(c, Help) != []
  {
    HelpTextTooLong();
  }

  /** The help response with a buffer large enough for the help text: the whole text. */
  function ResponseFixed(c: SystemConfig, cmd: Command): (r: string)
    ensures cmd.Help? ==> r == HELP_TEXT
    ensures !cmd.Help? ==> r == Response(c, cmd)
  {
    HelpTextTooLong();
    if cmd.Help? then Bounded(HELP_TEXT, 1024) else ResponseText(c, cmd)
  }

  /** With room for 1024 characters the help text is shown whole, and every other response is unchanged. */
  lemma ResponseFixedShowsHelp(c: SystemConfig, cmd: Command)
    ensures ResponseFixed(c, Help) == HELP_TEXT
    ensures !cmd.Help? ==> ResponseFixed(c, cmd) == Response(c, cmd)
  {
    HelpTextTooLong();
  }

  /** Whatever port is set, the confirmation names 1883. */
  lemma PortResponseIgnoresPort(c: SystemConfig, p: u16, q: u16)
    ensures Response(c, SetMqttPort(p)) == Response(c, SetMqttPort(q))
  {
  }

  /** The password is never echoed: the wifi listing shows only whether one is set. */
  lemma ShowWifiHidesPassword(c: SystemConfig, p: string)
    requires c.wifi.password != [] && p != []
    ensures Response(c, ShowWifi) == Response(c.(wifi := c.wifi.(password := p)), ShowWifi)
  {
  }

  /** The console's command handler and its copy of the configuration. */
  class CommandHandler {
    var config: SystemConfig

    predicate Valid()
      reads this
    {
      ConfigFits(config)
    }

    /** `CommandHandler::new` */
    constructor ()
      ensures config == INITIAL_CONFIG && Valid()
    {
      config := INITIAL_CONFIG;
    }

    /** `execute_command`: the configuration after the command and the text written back. */
    method ExecuteCommand(cmd: Command) returns (response: string)
      requires Valid() && CommandFits(cmd)
      modifies this
      ensures config == Apply(old(config), cmd) && Valid()
      ensures response == Response(old(config), cmd)
    {
      ApplyChangesOnlyItsField(config, cmd);
      response := Response(config, cmd);
      config := Apply(config, cmd);
    }

    /** `update_system_status`: the three flags and the address (bounded to 15 characters), or no address. */
    method UpdateSystemStatus(wifiConnected: bool, mqttConnected: bool, sensorActive: bool, currentIp: Option<string>)
      requires Valid()
      modifies this
      ensures config.wifi == old(config).wifi && config.mqtt == old(config).mqtt
      ensures config.system == old(config).system.(wifiConnected := wifiConnected, mqttConnected := mqttConnected,
        sensorActive := sensorActive, currentIp := if currentIp.Some? then Some(Bounded(currentIp.value, MAX_IP_LEN)) else None)
      ensures Valid()
    {
      var ip: Option<string> := None;
      if currentIp.Some? {
        ip := Some(Bounded(currentIp.value, MAX_IP_LEN));
      }
      config := config.(system := config.system.(wifiConnected := wifiConnected, mqttConnected := mqttConnected,
                                                  sensorActive := sensorActive, currentIp := ip));
    }
  }

  /** A line typed at the console and executed: the command it is read as, applied. */
  lemma TypedSsidIsStored(c: SystemConfig, ssid: string)
    requires Text.IsWord(ssid) && |ssid| <= MAX_SSID_LEN
    ensures Apply(c, ParseCommand(Text.Join(["wifi", "ssid", ssid], ' '))).wifi.ssid == ssid
  {
    SsidCommandRoundTrip(ssid);
  }
}
