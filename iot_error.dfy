/**
 * The unified error taxonomy of the IoT system: five categories of
 * error, each variant carrying a message bounded to 64 bytes and a
 * numeric code in its category's block (1xxx sensor, 2xxx network,
 * 3xxx hardware, 4xxx configuration, 5xxx system), a context chain of at
 * most four entries, the display text, and the conversions from the
 * error kinds of the drivers.
 */
module IotError {
  import opened Ints

  const MAX_ERROR_MESSAGE_LEN: nat := 64
  const MAX_ERROR_CONTEXT_DEPTH: nat := 4

  /** `utils::error_message`: the message when it fits, else its first 61 bytes and "...". */
  function ErrorMessage(msg: string): (r: string)
    ensures |r| <= MAX_ERROR_MESSAGE_LEN
    ensures |msg| <= MAX_ERROR_MESSAGE_LEN ==> r == msg
    ensures |msg| > MAX_ERROR_MESSAGE_LEN ==> |r| == MAX_ERROR_MESSAGE_LEN && r[..61] == msg[..61] && r[61..] == "..."
  {
    if |msg| <= MAX_ERROR_MESSAGE_LEN then msg
    else
      var r := msg[..SatSub(MAX_ERROR_MESSAGE_LEN, 3)] + "...";
      assert r[..61] == msg[..61];
      r
  }

  /** A message already bounded is kept: bounding twice is bounding once. */
  lemma ErrorMessageIdempotent(msg: string)
    ensures ErrorMessage(ErrorMessage(msg)) == ErrorMessage(msg)
    ensures ErrorMessage(msg) == msg <==> |msg| <= MAX_ERROR_MESSAGE_LEN
  {
  }

  datatype SensorError =
    | InitializationFailed(msg: string)
    | I2CError(msg: string)
    | InvalidData(msg: string)
    | CalibrationError(msg: string)
    | NotResponding(msg: string)
    | InvalidConfiguration(msg: string)
  {
    function ErrorCode(): (r: u16)
      ensures 1001 <= r <= 1006
    {
      match this
      case InitializationFailed(_) => 1001
      case I2CError(_) => 1002
      case InvalidData(_) => 1003
      case CalibrationError(_) => 1004
      case NotResponding(_) => 1005
      case InvalidConfiguration(_) => 1006
    }

    /** The fixed text `Display` writes before the message. */
    function Prefix(): string {
      match this
      case InitializationFailed(_) => "Sensor initialization failed: "
      case I2CError(_) => "I2C communication error: "
      case InvalidData(_) => "Invalid sensor data: "
      case CalibrationError(_) => "Sensor calibration error: "
      case NotResponding(_) => "Sensor not responding: "
      case InvalidConfiguration(_) => "Invalid sensor configuration: "
    }
  }

  datatype NetworkError =
    | WiFiConnectionFailed(msg: string)
    | WiFiConfigurationError(msg: string)
    | DHCPFailed(msg: string)
    | TCPConnectionFailed(msg: string)
    | Timeout(msg: string)
    | DNSResolutionFailed(msg: string)
    | HardwareInitFailed(msg: string)
  {
    function ErrorCode(): (r: u16)
      ensures 2001 <= r <= 2007
    {
      match this
      case WiFiConnectionFailed(_) => 2001
      case WiFiConfigurationError(_) => 2002
      case DHCPFailed(_) => 2003
      case TCPConnectionFailed(_) => 2004
      case Timeout(_) => 2005
      case DNSResolutionFailed(_) => 2006
      case HardwareInitFailed(_) => 2007
    }

    function Prefix(): string {
      match this
      case WiFiConnectionFailed(_) => "WiFi connection failed: "
      case WiFiConfigurationError(_) => "WiFi configuration error: "
      case DHCPFailed(_) => "DHCP failed: "
      case TCPConnectionFailed(_) => "TCP connection failed: "
      case Timeout(_) => "Network timeout: "
      case DNSResolutionFailed(_) => "DNS resolution failed: "
      case HardwareInitFailed(_) => "Network hardware initialization failed: "
    }
  }

  datatype HardwareError =
    | GPIOError(msg: string)
    | SPIError(msg: string)
    | UARTError(msg: string)
    | TimerError(msg: string)
    | InterruptError(msg: string)
    | PowerError(msg: string)
    | ClockError(msg: string)
  {
    function ErrorCode(): (r: u16)
      ensures 3001 <= r <= 3007
    {
      match this
      case GPIOError(_) => 3001
      case SPIError(_) => 3002
      case UARTError(_) => 3003
      case TimerError(_) => 3004
      case InterruptError(_) => 3005
      case PowerError(_) => 3006
      case ClockError(_) => 3007
    }

    function Prefix(): string {
      match this
      case GPIOError(_) => "GPIO error: "
      case SPIError(_) => "SPI error: "
      case UARTError(_) => "UART error: "
      case TimerError(_) => "Timer error: "
      case InterruptError(_) => "Interrupt error: "
      case PowerError(_) => "Power management error: "
      case ClockError(_) => "Clock configuration error: "
    }
  }

  datatype ConfigError =
    | InvalidParameter(msg: string)
    | MissingConfiguration(msg: string)
    | ParsingError(msg: string)
    | ValidationError(msg: string)
    | ConfigNotFound(msg: string)
  {
    function ErrorCode(): (r: u16)
      ensures 4001 <= r <= 4005
    {
      match this
      case InvalidParameter(_) => 4001
      case MissingConfiguration(_) => 4002
      case ParsingError(_) => 4003
      case ValidationError(_) => 4004
      case ConfigNotFound(_) => 4005
    }

    function Prefix(): string {
      match this
      case InvalidParameter(_) => "Invalid configuration parameter: "
      case MissingConfiguration(_) => "Missing required configuration: "
      case ParsingError(_) => "Configuration parsing error: "
      case ValidationError(_) => "Configuration validation error: "
      case ConfigNotFound(_) => "Configuration not found: "
    }
  }

  datatype SystemError =
    | OutOfMemory(msg: string)
    | TaskCreationFailed(msg: string)
    | ResourceUnavailable(msg: string)
    | SystemInitializationFailed(msg: string)
    | WatchdogTimeout(msg: string)
    | StackOverflow(msg: string)
    | Panic(msg: string)
  {
    function ErrorCode(): (r: u16)
      ensures 5001 <= r <= 5007
    {
      match this
      case OutOfMemory(_) => 5001
      case TaskCreationFailed(_) => 5002
      case ResourceUnavailable(_) => 5003
      case SystemInitializationFailed(_) => 5004
      case WatchdogTimeout(_) => 5005
      case StackOverflow(_) => 5006
      case Panic(_) => 5007
    }

    function Prefix(): string {
      match this
      case OutOfMemory(_) => "Out of memory: "
      case TaskCreationFailed(_) => "Task creation failed: "
      case ResourceUnavailable(_) => "Resource unavailable: "
      case SystemInitializationFailed(_) => "System initialization failed: "
      case WatchdogTimeout(_) => "Watchdog timeout: "
      case StackOverflow(_) => "Stack overflow: "
      case Panic(_) => "System panic: "
    }
  }

  /** Within a category, two errors share a code exactly when they are the same variant. */
  lemma CodesDistinctWithinCategories(s1: SensorError, s2: SensorError, n1: NetworkError, n2: NetworkError,
                                      h1: HardwareError, h2: HardwareError, c1: ConfigError, c2: ConfigError,
                                      y1: SystemError, y2: SystemError)
    ensures s1.ErrorCode() == s2.ErrorCode() <==> s1.(msg := s2.msg) == s2
    ensures n1.ErrorCode() == n2.ErrorCode() <==> n1.(msg := n2.msg) == n2
    ensures h1.ErrorCode() == h2.ErrorCode() <==> h1.(msg := h2.msg) == h2
    ensures c1.ErrorCode() == c2.ErrorCode() <==> c1.(msg := c2.msg) == c2
    ensures y1.ErrorCode() == y2.ErrorCode() <==> y1.(msg := y2.msg) == y2
  {
  }

  datatype IoTErrorKind =
    | Sensor(sensor: SensorError)
    | Network(network: NetworkError)
    | Hardware(hardware: HardwareError)
    | Configuration(config: ConfigError)
    | System(system: SystemError)
  {
    /** `IoTError::error_code`: the code of the wrapped error, whose thousands digit names the category. */
    function ErrorCode(): (r: u16)
      ensures Sensor? <==> r / 1000 == 1
      ensures Network? <==> r / 1000 == 2
      ensures Hardware? <==> r / 1000 == 3
      ensures Configuration? <==> r / 1000 == 4
      ensures System? <==> r / 1000 == 5
    {
      match this
      case Sensor(e) => e.ErrorCode()
      case Network(e) => e.ErrorCode()
      case Hardware(e) => e.ErrorCode()
      case Configuration(e) => e.ErrorCode()
      case System(e) => e.ErrorCode()
    }

    /** `IoTError::category`: the fixed name of the category. */
    function Category(): (r: string)
      ensures r in {"Sensor", "Network", "Hardware", "Configuration", "System"}
    {
      match this
      case Sensor(_) => "Sensor"
      case Network(_) => "Network"
      case Hardware(_) => "Hardware"
      case Configuration(_) => "Configuration"
      case System(_) => "System"
    }

    function Message(): string {
      match this
      case Sensor(e) => e.msg
      case Network(e) => e.msg
      case Hardware(e) => e.msg
      case Configuration(e) => e.msg
      case System(e) => e.msg
    }

    /** The `Display` text of the wrapped error: its fixed prefix, then the message. */
    function Display(): (r: string)
      ensures |r| >= |Message()| && r[|r| - |Message()|..] == Message()
    {
      match this
      case Sensor(e) => e.Prefix() + e.msg
      case Network(e) => e.Prefix() + e.msg
      case Hardware(e) => e.Prefix() + e.msg
      case Configuration(e) => e.Prefix() + e.msg
      case System(e) => e.Prefix() + e.msg
    }
  }

  /** Two error kinds with the same code are in the same category. */
  lemma CodeDeterminesCategory(a: IoTErrorKind, b: IoTErrorKind)
    ensures a.ErrorCode() == b.ErrorCode() ==> a.Category() == b.Category()
    ensures a.Category() == b.Category() <==> a.ErrorCode() / 1000 == b.ErrorCode() / 1000
  {
  }

  /**
   * `ErrorContext::add_context` on the list of contexts (most recent
   * first): the context goes in front unless it is longer than 64 bytes
   * or the chain already holds four.
   */
  function AddedContext(contexts: seq<string>, context: string): (r: seq<string>)
    ensures r == contexts || (|r| == |contexts| + 1 && r[0] == context && r[1..] == contexts)
    ensures |r| == |contexts| + 1 <==> |context| <= MAX_ERROR_MESSAGE_LEN && |contexts| < MAX_ERROR_CONTEXT_DEPTH
    ensures |contexts| <= MAX_ERROR_CONTEXT_DEPTH ==> |r| <= MAX_ERROR_CONTEXT_DEPTH
  {
    if |context| <= MAX_ERROR_MESSAGE_LEN && |contexts| < MAX_ERROR_CONTEXT_DEPTH then [context] + contexts
    else contexts
  }

  /** A chain within its bounds: at most four entries, each of at most 64 bytes. */
  predicate BoundedContexts(contexts: seq<string>) {
    |contexts| <= MAX_ERROR_CONTEXT_DEPTH && forall i :: 0 <= i < |contexts| ==> |contexts[i]| <= MAX_ERROR_MESSAGE_LEN
  }

  lemma AddedContextBounded(contexts: seq<string>, context: string)
    requires BoundedContexts(contexts)
    ensures BoundedContexts(AddedContext(contexts, context))
  {
    var r := AddedContext(contexts, context);
    if r != contexts {
      assert forall i :: 1 <= i < |r| ==> r[i] == contexts[i - 1];
    }
  }

  /** `contexts.join(" <- ")`, as `ErrorContext`'s `Display` writes them. */
  function JoinContexts(contexts: seq<string>): (r: string)
    ensures contexts == [] ==> r == ""
    ensures |contexts| == 1 ==> r == contexts[0]
  {
    if contexts == [] then ""
    else if |contexts| == 1 then contexts[0]
    else contexts[0] + " <- " + JoinContexts(contexts[1..])
  }

  /** `ErrorContext`: the chain of contexts, most recent first. */
  class ErrorContext {
    var contexts: seq<string>

    predicate Valid()
      reads this
    {
      BoundedContexts(contexts)
    }

    constructor ()
      ensures contexts == [] && Valid()
    {
      contexts := [];
    }

    /** `add_context` */
    method AddContext(context: string)
      modifies this
      ensures contexts == AddedContext(old(contexts), context)
      ensures old(Valid()) ==> Valid()
    {
      if |context| <= MAX_ERROR_MESSAGE_LEN {
        if |contexts| < MAX_ERROR_CONTEXT_DEPTH {
          contexts := [context] + contexts;
        }
      }
      if BoundedContexts(old(contexts)) {
        AddedContextBounded(old(contexts), context);
      }
    }
  }

  /** `IoTError`: the kind and the value of its context chain. */
  datatype IoTError = IoTError(kind: IoTErrorKind, contexts: seq<string>)
  {
    /** `with_context`: the same kind, the context added as `add_context` adds it. */
    function WithContext(context: string): (r: IoTError)
      ensures r.kind == kind && r.ErrorCode() == ErrorCode() && r.Category() == Category()
      ensures r.contexts == AddedContext(contexts, context)
    {
      IoTError(kind, AddedContext(contexts, context))
    }

    function ErrorCode(): u16 { kind.ErrorCode() }

    function Category(): string { kind.Category() }

    /** `Display`: the kind's text, then " [Context: ...]" when there is a context. */
    function Display(): (r: string)
      ensures contexts == [] ==> r == kind.Display()
      ensures |r| >= |kind.Display()| && r[..|kind.Display()|] == kind.Display()
    {
      var main := kind.Display();
      var r := if contexts == [] then main else main + " [Context: " + JoinContexts(contexts) + "]";
      assert r[..|main|] == main;
      r
    }
  }

  /** `IoTError::new` and the per-category constructors: no context yet. */
  function NewError(kind: IoTErrorKind): (r: IoTError)
    ensures r.kind == kind && r.contexts == []
  {
    IoTError(kind, [])
  }

  /** A fresh error accepts four contexts of at most 64 bytes, and no fifth. */
  lemma ContextDepthLimit(kind: IoTErrorKind, c: string)
    requires |c| <= MAX_ERROR_MESSAGE_LEN
    ensures var e := NewError(kind).WithContext(c).WithContext(c).WithContext(c).WithContext(c);
      |e.contexts| == 4 && e.WithContext(c) == e
  {
  }

  /** `from_wifi_error`: the four known kinds, and a connection failure for any other. */
  function FromWifiError(errorType: string, message: string): (r: IoTError)
    ensures r.kind.Network? && r.contexts == [] && r.kind.network.msg == ErrorMessage(message)
    ensures r.ErrorCode() == (if errorType == "HardwareInit" then 2007
                              else if errorType == "Configuration" then 2002
                              else if errorType == "Dhcp" then 2003
                              else 2001)
  {
    var msg := ErrorMessage(message);
    var e := if errorType == "HardwareInit" then NetworkError.HardwareInitFailed(msg)
      else if errorType == "Configuration" then NetworkError.WiFiConfigurationError(msg)
      else if errorType == "Connection" then NetworkError.WiFiConnectionFailed(msg)
      else if errorType == "Dhcp" then NetworkError.DHCPFailed(msg)
      else NetworkError.WiFiConnectionFailed(msg);
    NewError(Network(e))
  }

  /** `from_mqtt_error`: a serialisation error is a system error, everything else a TCP failure. */
  function FromMqttError(errorType: string, message: string): (r: IoTError)
    ensures r.contexts == []
    ensures errorType == "SerializationError" ==> r.kind == System(SystemError.SystemInitializationFailed(ErrorMessage(message)))
    ensures errorType != "SerializationError" ==> r.kind == Network(NetworkError.TCPConnectionFailed(ErrorMessage(message)))
  {
    var msg := ErrorMessage(message);
    if errorType == "ConnectionFailed" then NewError(Network(NetworkError.TCPConnectionFailed(msg)))
    else if errorType == "ProtocolError" then NewError(Network(NetworkError.TCPConnectionFailed(msg)))
    else if errorType == "IoError" then NewError(Network(NetworkError.TCPConnectionFailed(msg)))
    else if errorType == "SerializationError" then NewError(System(SystemError.SystemInitializationFailed(msg)))
    else NewError(Network(NetworkError.TCPConnectionFailed(msg)))
  }

  /** `from_uart_error` */
  function FromUartError(message: string): (r: IoTError)
    ensures r.ErrorCode() == 3003 && r.Category() == "Hardware" && r.kind.Message() == ErrorMessage(message)
  {
    NewError(Hardware(HardwareError.UARTError(ErrorMessage(message))))
  }

  /** `utils::sensor_error`: the named sensor error; an unknown name is an initialisation failure. */
  function SensorErrorOf(errorType: string, message: string): (r: IoTError)
    ensures r.kind.Sensor? && r.contexts == [] && r.kind.Message() == ErrorMessage(message)
    ensures errorType !in {"init_failed", "i2c_error", "invalid_data", "calibration_error", "not_responding", "invalid_config"}
      ==> r.ErrorCode() == 1001
  {
    var msg := ErrorMessage(message);
    var e := match errorType
      case "init_failed" => SensorError.InitializationFailed(msg)
      case "i2c_error" => SensorError.I2CError(msg)
      case "invalid_data" => SensorError.InvalidData(msg)
      case "calibration_error" => SensorError.CalibrationError(msg)
      case "not_responding" => SensorError.NotResponding(msg)
      case "invalid_config" => SensorError.InvalidConfiguration(msg)
      case _ => SensorError.InitializationFailed(msg);
    NewError(Sensor(e))
  }

  /** `utils::network_error`: the named network error; an unknown name is a WiFi connection failure. */
  function NetworkErrorOf(errorType: string, message: string): (r: IoTError)
    ensures r.kind.Network? && r.contexts == [] && r.kind.Message() == ErrorMessage(message)
    ensures errorType !in {"wifi_failed", "wifi_config", "dhcp_failed", "tcp_failed", "timeout", "dns_failed", "hw_init_failed"}
      ==> r.ErrorCode() == 2001
  {
    var msg := ErrorMessage(message);
    var e := match errorType
      case "wifi_failed" => NetworkError.WiFiConnectionFailed(msg)
      case "wifi_config" => NetworkError.WiFiConfigurationError(msg)
      case "dhcp_failed" => NetworkError.DHCPFailed(msg)
      case "tcp_failed" => NetworkError.TCPConnectionFailed(msg)
      case "timeout" => NetworkError.Timeout(msg)
      case "dns_failed" => NetworkError.DNSResolutionFailed(msg)
      case "hw_init_failed" => NetworkError.HardwareInitFailed(msg)
      case _ => NetworkError.WiFiConnectionFailed(msg);
    NewError(Network(e))
  }

  /** Every sensor and network error name selects a distinct code. */
  lemma ErrorNamesSelectCodes(message: string)
    ensures SensorErrorOf("i2c_error", message).ErrorCode() == 1002
    ensures SensorErrorOf("invalid_config", message).ErrorCode() == 1006
    ensures NetworkErrorOf("timeout", message).ErrorCode() == 2005
    ensures NetworkErrorOf("hw_init_failed", message).ErrorCode() == 2007
    ensures FromWifiError("Connection", message) == NetworkErrorOf("wifi_failed", message)
  {
  }

  /** The error kinds of the embedded-hal I2C bus the conversion distinguishes. */
  datatype I2cErrorKind = Bus | ArbitrationLoss | NoAcknowledge | Overrun | OtherI2cError

  /** `From<i2c::ErrorKind>`: a sensor I2C error with a fixed message per kind. */
  function FromI2cErrorKind(error: I2cErrorKind): (r: IoTError)
    ensures r.ErrorCode() == 1002 && r.contexts == []
  {
    var msg := match error
      case Bus => "I2C bus error"
      case ArbitrationLoss => "I2C arbitration loss"
      case NoAcknowledge => "I2C no acknowledge"
      case Overrun => "I2C overrun"
      case OtherI2cError => "Unknown I2C error";
    NewError(Sensor(SensorError.I2CError(ErrorMessage(msg))))
  }

  /** `From<E: I2CErrorTrait>`: every driver I2C error becomes the same sensor error. */
  const FROM_I2C_DRIVER_ERROR: IoTError := NewError(Sensor(SensorError.I2CError(ErrorMessage("I2C communication error"))))

  /** `nb::Error` */
  datatype NbError = WouldBlock | OtherNbError

  /** `From<nb::Error<E>>`: blocking is a resource shortage, any other error a GPIO failure. */
  function FromNbError(error: NbError): (r: IoTError)
    ensures error.WouldBlock? ==> r.ErrorCode() == 5003 && r.kind.Message() == "Operation would block"
    ensures error.OtherNbError? ==> r.ErrorCode() == 3001 && r.kind.Message() == "Hardware operation failed"
  {
    match error
    case WouldBlock => NewError(System(SystemError.ResourceUnavailable(ErrorMessage("Operation would block"))))
    case OtherNbError => NewError(Hardware(HardwareError.GPIOError(ErrorMessage("Hardware operation failed"))))
  }
}
