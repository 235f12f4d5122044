/**
 * The hardware configuration of the ESP32-C3 abstraction layer: the I2C,
 * UART, GPIO, WiFi and system settings with their defaults and presets,
 * the range checks of each part, the check that no two interfaces share a
 * pin, and the validating constructor.
 */
module HalConfig {
  import opened Ints
  import opened Wrappers

  /** The highest GPIO number of the ESP32-C3. */
  const MAX_GPIO: int := 21
  /** The pin number that stands for the built-in USB Serial/JTAG console. */
  const USB_SERIAL_PIN: u8 := 255
  /** The capacity of `GpioConfig::user_pins`. */
  const MAX_USER_PINS: nat := 8
  /** The capacity of the set of used pins in `check_pin_conflicts`. */
  const PIN_SET_CAPACITY: nat := 16

  /** The validation errors; `Message` gives the text each one carries. */
  datatype ConfigError =
    | InvalidSdaPin | InvalidSclPin | I2cFrequencyRange | I2cTimeoutRange
    | InvalidTxPin | InvalidRxPin | BaudRateRange | DataBitsRange | StopBitsRange
    | InvalidStatusLedPin | InvalidUserPin | TooManyUserPins
    | WifiTimeoutRange | WifiRetryRange | WifiDelayRange
    | TooManyPins | SdaConflict | SclConflict | TxConflict | RxConflict | StatusLedConflict

  function Message(e: ConfigError): string {
    match e
    case InvalidSdaPin => "Invalid I2C SDA pin for ESP32-C3"
    case InvalidSclPin => "Invalid I2C SCL pin for ESP32-C3"
    case I2cFrequencyRange => "I2C frequency out of supported range (10kHz - 1MHz)"
    case I2cTimeoutRange => "I2C timeout must be 1-10000ms"
    case InvalidTxPin => "Invalid UART TX pin for ESP32-C3"
    case InvalidRxPin => "Invalid UART RX pin for ESP32-C3"
    case BaudRateRange => "UART baud rate out of supported range"
    case DataBitsRange => "UART data bits must be 5-8"
    case StopBitsRange => "UART stop bits must be 1-2"
    case InvalidStatusLedPin => "Invalid status LED pin for ESP32-C3"
    case InvalidUserPin => "Invalid user GPIO pin for ESP32-C3"
    case TooManyUserPins => "Too many user pins configured"
    case WifiTimeoutRange => "WiFi connection timeout must be 1-300 seconds"
    case WifiRetryRange => "WiFi retry attempts must be 1-20"
    case WifiDelayRange => "WiFi retry delay must be 1-60 seconds"
    case TooManyPins => "Too many pins configured"
    case SdaConflict => "I2C SDA pin conflict"
    case SclConflict => "I2C SCL pin conflict"
    case TxConflict => "UART TX pin conflict"
    case RxConflict => "UART RX pin conflict"
    case StatusLedConflict => "Status LED pin conflict"
  }

  // ---------------------------------------------------------------- I2C

  datatype I2cConfig = I2cConfig(sdaPin: u8, sclPin: u8, frequency: u32, pullupEnabled: bool, timeoutMs: u32)

  /** `I2cConfig::default()` and `esp32c3_default()`: SDA 8, SCL 9, 400 kHz, pull-ups on, 1000 ms. */
  const DEFAULT_I2C := I2cConfig(8, 9, 400_000, true, 1000)

  /** `I2cConfig::with_pins`: the given pins, everything else as the default. */
  function I2cWithPins(sda: u8, scl: u8): (r: I2cConfig)
    ensures r.sdaPin == sda && r.sclPin == scl
    ensures r.(sdaPin := DEFAULT_I2C.sdaPin, sclPin := DEFAULT_I2C.sclPin) == DEFAULT_I2C
  {
    DEFAULT_I2C.(sdaPin := sda, sclPin := scl)
  }

  /** `I2cConfig::with_frequency`: only the frequency changes. */
  function I2cWithFrequency(c: I2cConfig, frequency: u32): (r: I2cConfig)
    ensures r.frequency == frequency && r.(frequency := c.frequency) == c
  {
    c.(frequency := frequency)
  }

  /** The I2C settings the validator accepts. */
  predicate I2cInRange(c: I2cConfig) {
    c.sdaPin <= MAX_GPIO && c.sclPin <= MAX_GPIO
    && 10_000 <= c.frequency <= 1_000_000
    && 1 <= c.timeoutMs <= 10_000
  }

  /**
   * `I2cConfig::validate`: the SDA pin, the SCL pin, the frequency and the
   * timeout are checked in that order and the first one out of range
   * names the error.
   */
  function I2cValidate(c: I2cConfig): (r: Result<(), ConfigError>)
    ensures r.Ok? <==> I2cInRange(c)
    ensures c.sdaPin > MAX_GPIO ==> r == Err(InvalidSdaPin)
    ensures c.sdaPin <= MAX_GPIO && c.sclPin > MAX_GPIO ==> r == Err(InvalidSclPin)
    ensures c.sdaPin <= MAX_GPIO && c.sclPin <= MAX_GPIO && !(10_000 <= c.frequency <= 1_000_000) ==> r == Err(I2cFrequencyRange)
    ensures r.Err? && r.error == I2cTimeoutRange <==> c.sdaPin <= MAX_GPIO && c.sclPin <= MAX_GPIO && 10_000 <= c.frequency <= 1_000_000 && !(1 <= c.timeoutMs <= 10_000)
  {
    if c.sdaPin > 21 then Err(InvalidSdaPin)
    else if c.sclPin > 21 then Err(InvalidSclPin)
    else if c.frequency < 10_000 || c.frequency > 1_000_000 then Err(I2cFrequencyRange)
    else if c.timeoutMs == 0 || c.timeoutMs > 10_000 then Err(I2cTimeoutRange)
    else Ok(())
  }

  // ---------------------------------------------------------------- UART

  datatype UartParity = NoParity | Even | Odd

  datatype UartConfig = UartConfig(txPin: u8, rxPin: u8, baudRate: u32, dataBits: u8, stopBits: u8,
                                   parity: UartParity, flowControl: bool, rxBufferSize: nat, txBufferSize: nat)

  /** `UartConfig::default()`: TX 21, RX 20, 115200 baud, 8N1, no flow control, 256-byte buffers. */
  const DEFAULT_UART := UartConfig(21, 20, 115_200, 8, 1, NoParity, false, 256, 256)

  /** `UartConfig::with_pins`: the given pins, everything else as the default. */
  function UartWithPins(tx: u8, rx: u8): (r: UartConfig)
    ensures r.txPin == tx && r.rxPin == rx
    ensures r.(txPin := DEFAULT_UART.txPin, rxPin := DEFAULT_UART.rxPin) == DEFAULT_UART
  {
    DEFAULT_UART.(txPin := tx, rxPin := rx)
  }

  /** `UartConfig::with_baud_rate`: only the baud rate changes. */
  function UartWithBaudRate(c: UartConfig, baudRate: u32): (r: UartConfig)
    ensures r.baudRate == baudRate && r.(baudRate := c.baudRate) == c
  {
    c.(baudRate := baudRate)
  }

  /** `UartConfig::esp32c3_usb_serial()`: both pins 255, the console on USB Serial/JTAG. */
  function UsbSerialUart(): (r: UartConfig)
    ensures UsbSerial(r)
    ensures r.(txPin := DEFAULT_UART.txPin, rxPin := DEFAULT_UART.rxPin) == DEFAULT_UART
  {
    UartWithPins(USB_SERIAL_PIN, USB_SERIAL_PIN)
  }

  predicate UsbSerial(c: UartConfig) {
    c.txPin == USB_SERIAL_PIN && c.rxPin == USB_SERIAL_PIN
  }

  /** The UART settings the validator checks when the console is on real pins. */
  predicate UartInRange(c: UartConfig) {
    c.txPin <= MAX_GPIO && c.rxPin <= MAX_GPIO
    && 300 <= c.baudRate <= 2_000_000
    && 5 <= c.dataBits <= 8
    && 1 <= c.stopBits <= 2
  }

  /**
   * `UartConfig::validate`: the USB Serial/JTAG console (both pins 255)
   * is accepted whatever its other settings; otherwise the TX pin, the RX
   * pin, the baud rate, the data bits and the stop bits are checked in
   * that order.
   */
  function UartValidate(c: UartConfig): (r: Result<(), ConfigError>)
    ensures UsbSerial(c) ==> r == Ok(())
    ensures r.Ok? <==> UsbSerial(c) || UartInRange(c)
    ensures !UsbSerial(c) && c.txPin > MAX_GPIO ==> r == Err(InvalidTxPin)
    ensures !UsbSerial(c) && c.txPin <= MAX_GPIO && c.rxPin > MAX_GPIO ==> r == Err(InvalidRxPin)
    ensures !UsbSerial(c) && c.txPin <= MAX_GPIO && c.rxPin <= MAX_GPIO && !(300 <= c.baudRate <= 2_000_000) ==> r == Err(BaudRateRange)
    ensures (!UsbSerial(c) && c.txPin <= MAX_GPIO && c.rxPin <= MAX_GPIO && 300 <= c.baudRate <= 2_000_000
             && !(5 <= c.dataBits <= 8)) ==> r == Err(DataBitsRange)
  {
    if c.txPin == 255 && c.rxPin == 255 then Ok(())
    else if c.txPin > 21 then Err(InvalidTxPin)
    else if c.rxPin > 21 then Err(InvalidRxPin)
    else if c.baudRate < 300 || c.baudRate > 2_000_000 then Err(BaudRateRange)
    else if c.dataBits < 5 || c.dataBits > 8 then Err(DataBitsRange)
    else if c.stopBits < 1 || c.stopBits > 2 then Err(StopBitsRange)
    else Ok(())
  }

  // ---------------------------------------------------------------- GPIO

  datatype GpioConfig = GpioConfig(statusLedPin: u8, statusLedActiveHigh: bool, userPins: seq<u8>)

  /** `GpioConfig::default()` and `esp32c3_devkit()`: the LED on GPIO 3, active high, no user pins. */
  const DEFAULT_GPIO := GpioConfig(3, true, [])

  predicate GpioFits(g: GpioConfig) {
    |g.userPins| <= MAX_USER_PINS
  }

  /**
   * `GpioConfig::add_user_pin`: the pin is appended while fewer than eight
   * are configured; a full list is left as it is and the error returned.
   */
  function AddUserPin(g: GpioConfig, pin: u8): (r: (GpioConfig, Result<(), ConfigError>))
    requires GpioFits(g)
    ensures GpioFits(r.0)
    ensures r.1.Ok? <==> |g.userPins| < MAX_USER_PINS
    ensures r.1.Ok? ==> r.0 == g.(userPins := g.userPins + [pin])
    ensures r.1.Err? ==> r.0 == g && r.1.error == TooManyUserPins
  {
    if |g.userPins| < MAX_USER_PINS then (g.(userPins := g.userPins + [pin]), Ok(()))
    else (g, Err(TooManyUserPins))
  }

  predicate GpioInRange(g: GpioConfig) {
    g.statusLedPin <= MAX_GPIO && forall k :: 0 <= k < |g.userPins| ==> g.userPins[k] <= MAX_GPIO
  }

  /** What `GpioConfig::validate` answers: the LED pin first, then any user pin above 21. */
  function GpioValidate(g: GpioConfig): (r: Result<(), ConfigError>)
    ensures r.Ok? <==> GpioInRange(g)
    ensures g.statusLedPin > MAX_GPIO ==> r == Err(InvalidStatusLedPin)
  {
    if g.statusLedPin > MAX_GPIO then Err(InvalidStatusLedPin)
    else if forall k :: 0 <= k < |g.userPins| ==> g.userPins[k] <= MAX_GPIO then Ok(())
    else Err(InvalidUserPin)
  }

  /** `GpioConfig::validate`, with its loop over the user pins. */
  method ValidateGpio(g: GpioConfig) returns (r: Result<(), ConfigError>)
    ensures r == GpioValidate(g)
  {
    if g.statusLedPin > 21 {
      return Err(InvalidStatusLedPin);
    }
    var i := 0;
    while i < |g.userPins|
      invariant 0 <= i <= |g.userPins|
      invariant forall k :: 0 <= k < i ==> g.userPins[k] <= MAX_GPIO
    {
      if g.userPins[i] > 21 {
        return Err(InvalidUserPin);
      }
      i := i + 1;
    }
    return Ok(());
  }

  /** Adding a pin keeps a valid GPIO configuration valid exactly when the pin is a GPIO of the chip. */
  lemma AddUserPinValid(g: GpioConfig, pin: u8)
    requires GpioFits(g) && GpioValidate(g).Ok? && |g.userPins| < MAX_USER_PINS
    ensures GpioValidate(AddUserPin(g, pin).0).Ok? <==> pin <= MAX_GPIO
  {
    var pins := g.userPins + [pin];
    assert pins[|g.userPins|] == pin;
    assert forall k :: 0 <= k < |g.userPins| ==> pins[k] == g.userPins[k];
  }

  // ---------------------------------------------------------------- WiFi

  datatype WiFiPowerMode = Performance | Balanced | PowerSave

  datatype WiFiConfig = WiFiConfig(powerMode: WiFiPowerMode, connectionTimeoutSec: u32, maxRetryAttempts: u8,
                                   retryDelaySec: u32, autoReconnect: bool)

  /** `WiFiConfig::default()`: balanced, 30 s timeout, 5 attempts 5 s apart, reconnecting. */
  const DEFAULT_WIFI := WiFiConfig(Balanced, 30, 5, 5, true)
  /** `WiFiConfig::high_performance()` */
  const HIGH_PERFORMANCE_WIFI := WiFiConfig(Performance, 15, 3, 2, true)
  /** `WiFiConfig::power_save()` */
  const POWER_SAVE_WIFI := WiFiConfig(PowerSave, 60, 10, 10, true)

  predicate WifiInRange(c: WiFiConfig) {
    1 <= c.connectionTimeoutSec <= 300 && 1 <= c.maxRetryAttempts <= 20 && 1 <= c.retryDelaySec <= 60
  }

  /** `WiFiConfig::validate`: the timeout, the retry count and the retry delay, in that order. */
  function WifiValidate(c: WiFiConfig): (r: Result<(), ConfigError>)
    ensures r.Ok? <==> WifiInRange(c)
    ensures !(1 <= c.connectionTimeoutSec <= 300) ==> r == Err(WifiTimeoutRange)
    ensures 1 <= c.connectionTimeoutSec <= 300 && !(1 <= c.maxRetryAttempts <= 20) ==> r == Err(WifiRetryRange)
    ensures r.Err? && r.error == WifiDelayRange <==> 1 <= c.connectionTimeoutSec <= 300 && 1 <= c.maxRetryAttempts <= 20 && !(1 <= c.retryDelaySec <= 60)
  {
    if c.connectionTimeoutSec == 0 || c.connectionTimeoutSec > 300 then Err(WifiTimeoutRange)
    else if c.maxRetryAttempts == 0 || c.maxRetryAttempts > 20 then Err(WifiRetryRange)
    else if c.retryDelaySec == 0 || c.retryDelaySec > 60 then Err(WifiDelayRange)
    else Ok(())
  }

  /** The three WiFi presets pass the WiFi checks. */
  lemma WifiPresetsValid()
    ensures WifiValidate(DEFAULT_WIFI) == Ok(()) && WifiValidate(HIGH_PERFORMANCE_WIFI) == Ok(())
    ensures WifiValidate(POWER_SAVE_WIFI) == Ok(())
  {
  }

  // ---------------------------------------------------------------- System

  datatype SystemConfig = SystemConfig(cpuFrequencyHz: u32, heapSizeBytes: nat, taskStackSizeBytes: nat,
                                       debugLogging: bool, watchdogTimeoutSec: u32)

  /** `SystemConfig::default()` and `esp32c3_default()`: 160 MHz, 32 KiB heap, 4 KiB stacks, debug logging, 60 s watchdog. */
  const DEFAULT_SYSTEM := SystemConfig(160_000_000, 32 * 1024, 4 * 1024, true, 60)
  /** `SystemConfig::low_power()` */
  const LOW_POWER_SYSTEM := SystemConfig(80_000_000, 16 * 1024, 2 * 1024, false, 120)
  /** `SystemConfig::high_performance()` */
  const HIGH_PERFORMANCE_SYSTEM := SystemConfig(160_000_000, 64 * 1024, 8 * 1024, true, 30)

  // ---------------------------------------------------------------- Whole board

  datatype HardwareConfig = HardwareConfig(i2c: I2cConfig, uart: UartConfig, gpio: GpioConfig,
                                           wifi: WiFiConfig, system: SystemConfig)

  /** `HardwareConfig::default()` and `esp32c3_custom()` */
  const DEFAULT_HARDWARE := HardwareConfig(DEFAULT_I2C, DEFAULT_UART, DEFAULT_GPIO, DEFAULT_WIFI, DEFAULT_SYSTEM)

  /** `HardwareConfig::esp32c3_devkit()`: the defaults with the console on USB Serial/JTAG. */
  const DEVKIT_HARDWARE := HardwareConfig(DEFAULT_I2C, UsbSerialUart(), DEFAULT_GPIO, DEFAULT_WIFI, DEFAULT_SYSTEM)

  /** The pins `check_pin_conflicts` records, in the order it inserts them: SDA, SCL, TX, RX, status LED. */
  function CheckedPins(c: HardwareConfig): (r: seq<u8>)
    ensures |r| == 5
  {
    [c.i2c.sdaPin, c.i2c.sclPin, c.uart.txPin, c.uart.rxPin, c.gpio.statusLedPin]
  }

  predicate Distinct(s: seq<u8>) {
    forall i, j :: 0 <= i < j < |s| ==> s[i] != s[j]
  }

  /** The first position whose pin already occurs before it, if any. */
  function FirstRepeat(s: seq<u8>): (r: Option<nat>)
    ensures r.None? <==> Distinct(s)
    ensures r.Some? ==> r.value < |s| && s[r.value] in s[..r.value] && Distinct(s[..r.value])
  {
    if |s| == 0 then None
    else
      var init := s[..|s| - 1];
      match FirstRepeat(init)
      case Some(i) =>
        assert s[..i] == init[..i];
        Some(i)
      case None =>
        if s[|s| - 1] in init then Some(|s| - 1)
        else
          assert forall i :: 0 <= i < |s| - 1 ==> s[i] == init[i];
          None
  }

  /** The conflict error for each position of `CheckedPins`. */
  function ConflictError(i: nat): (r: ConfigError)
    requires i < 5
  {
    [SdaConflict, SclConflict, TxConflict, RxConflict, StatusLedConflict][i]
  }

  /** What `check_pin_conflicts` answers: the conflict of the first pin already in use. */
  function PinConflicts(c: HardwareConfig): (r: Result<(), ConfigError>)
    ensures r.Ok? <==> Distinct(CheckedPins(c))
  {
    match FirstRepeat(CheckedPins(c))
    case None => Ok(())
    case Some(i) => Err(ConflictError(i))
  }

  /**
   * `heapless::FnvIndexSet::insert` on a set of capacity 16: `Ok(false)`
   * when the pin is already there, an error when the set is full, else
   * `Ok(true)` with the pin added.
   */
  function Insert(used: set<u8>, pin: u8): (r: Result<(set<u8>, bool), ConfigError>)
    ensures r.Ok? && r.value.1 ==> pin !in used && r.value.0 == used + {pin}
    ensures r.Ok? && !r.value.1 <==> pin in used
    ensures r.Err? <==> pin !in used && |used| >= PIN_SET_CAPACITY
  {
    if pin in used then Ok((used, false))
    else if |used| >= PIN_SET_CAPACITY then Err(TooManyPins)
    else Ok((used + {pin}, true))
  }

  /**
   * `HardwareConfig::check_pin_conflicts`: each pin is inserted into the
   * set of used pins and the first one already there is reported. The set
   * never fills: it holds at most four pins when the fifth is inserted.
   */
  method CheckPinConflicts(c: HardwareConfig) returns (r: Result<(), ConfigError>)
    ensures r == PinConflicts(c)
  {
    var pins := CheckedPins(c);
    var used: set<u8> := {};
    var i := 0;
    while i < 5
      invariant 0 <= i <= 5
      invariant used == set k | 0 <= k < i :: pins[k]
      invariant |used| <= i
      invariant Distinct(pins[..i])
    {
      SetOfPrefixSize(pins, i);
      var inserted := Insert(used, pins[i]);
      if inserted.Err? {
        return Err(TooManyPins);
      }
      if !inserted.value.1 {
        FirstRepeatAt(pins, i);
        return Err(ConflictError(i));
      }
      DistinctSnoc(pins, i);
      used := inserted.value.0;
      i := i + 1;
    }
    assert pins[..5] == pins;
    return Ok(());
  }

  lemma SetOfPrefixSize(s: seq<u8>, i: nat)
    requires i < |s|
    ensures (set k | 0 <= k < i + 1 :: s[k]) == (set k | 0 <= k < i :: s[k]) + {s[i]}
    ensures s[i] in (set k | 0 <= k < i :: s[k]) <==> s[i] in s[..i]
  {
    if s[i] in s[..i] {
      var k :| 0 <= k < i && s[..i][k] == s[i];
      assert s[k] == s[i];
    }
  }

  lemma DistinctSnoc(s: seq<u8>, i: nat)
    requires i < |s| && Distinct(s[..i]) && s[i] !in s[..i]
    ensures Distinct(s[..i + 1])
  {
    var t := s[..i + 1];
    forall a, b | 0 <= a < b < |t|
      ensures t[a] != t[b]
    {
      if b == i {
        assert t[a] == s[..i][a];
      } else {
        assert t[a] == s[..i][a] && t[b] == s[..i][b];
      }
    }
  }

  /** When the pins before `i` are distinct and pin `i` repeats one of them, `i` is the first repeat. */
  lemma {:induction false} FirstRepeatAt(s: seq<u8>, i: nat)
    requires i < |s| && Distinct(s[..i]) && s[i] in s[..i]
    ensures FirstRepeat(s) == Some(i)
    decreases |s|
  {
    var init := s[..|s| - 1];
    if i < |s| - 1 {
      assert init[..i] == s[..i] && init[i] == s[i];
      FirstRepeatAt(init, i);
    } else {
      assert init == s[..i];
    }
  }

  /**
   * `HardwareConfig::validate`: the I2C, UART, GPIO and WiFi checks and
   * then the pin conflicts, the first error found being the answer.
   */
  function Validate(c: HardwareConfig): (r: Result<(), ConfigError>)
    ensures I2cValidate(c.i2c).Err? ==> r == I2cValidate(c.i2c)
    ensures I2cValidate(c.i2c).Ok? && UartValidate(c.uart).Err? ==> r == UartValidate(c.uart)
  {
    if I2cValidate(c.i2c).Err? then I2cValidate(c.i2c)
    else if UartValidate(c.uart).Err? then UartValidate(c.uart)
    else if GpioValidate(c.gpio).Err? then GpioValidate(c.gpio)
    else if WifiValidate(c.wifi).Err? then WifiValidate(c.wifi)
    else PinConflicts(c)
  }

  /** Every rule the board validator enforces, stated on the settings themselves. */
  predicate Acceptable(c: HardwareConfig) {
    I2cInRange(c.i2c) && (UsbSerial(c.uart) || UartInRange(c.uart)) && GpioInRange(c.gpio)
    && WifiInRange(c.wifi) && Distinct(CheckedPins(c))
  }

  /** The board validator accepts exactly the configurations that keep every rule. */
  lemma ValidateIff(c: HardwareConfig)
    ensures Validate(c).Ok? <==> Acceptable(c)
  {
  }

  /** Two of the five checked pins being equal is always an error, whatever the rest of the settings. */
  lemma RepeatedPinRejected(c: HardwareConfig, i: nat, j: nat)
    requires i < j < 5 && CheckedPins(c)[i] == CheckedPins(c)[j]
    ensures Validate(c).Err?
  {
    ValidateIff(c);
  }

  /** `HardwareConfig::new`: the configuration, when it validates, else the validator's error. */
  function New(i2c: I2cConfig, uart: UartConfig, gpio: GpioConfig, wifi: WiFiConfig, system: SystemConfig)
    : (r: Result<HardwareConfig, ConfigError>)
    ensures r.Ok? <==> Validate(HardwareConfig(i2c, uart, gpio, wifi, system)).Ok?
    ensures r.Ok? ==> r.value == HardwareConfig(i2c, uart, gpio, wifi, system)
    ensures r.Err? ==> r.error == Validate(HardwareConfig(i2c, uart, gpio, wifi, system)).error
  {
    var config := HardwareConfig(i2c, uart, gpio, wifi, system);
    match Validate(config)
    case Err(e) => Err(e)
    case Ok(_) => Ok(config)
  }

  /** The default board validates: its five pins 8, 9, 21, 20 and 3 are distinct. */
  lemma DefaultValid()
    ensures Validate(DEFAULT_HARDWARE) == Ok(())
    ensures New(DEFAULT_I2C, DEFAULT_UART, DEFAULT_GPIO, DEFAULT_WIFI, DEFAULT_SYSTEM) == Ok(DEFAULT_HARDWARE)
  {
    assert Distinct(CheckedPins(DEFAULT_HARDWARE));
  }

  /**
   * The development-board preset does not validate: its UART passes (both
   * pins 255), but the conflict check inserts 255 for TX and then finds
   * it again for RX.
   */
  lemma DevkitRejected()
    ensures Validate(DEVKIT_HARDWARE) == Err(RxConflict)
    ensures Message(Validate(DEVKIT_HARDWARE).error) == "UART RX pin conflict"
  {
    var pins := CheckedPins(DEVKIT_HARDWARE);
    assert pins[..3] == [8, 9, 255];
    assert Distinct(pins[..3]);
    assert pins[3] == pins[..3][2];
    FirstRepeatAt(pins, 3);
  }

  /**
   * The conflict check as evidently intended: a console on USB
   * Serial/JTAG occupies no GPIO, so its pins are left out of the check.
   */
  function UsedPins(c: HardwareConfig): (r: seq<u8>)
    ensures UsbSerial(c.uart) ==> r == [c.i2c.sdaPin, c.i2c.sclPin, c.gpio.statusLedPin]
    ensures !UsbSerial(c.uart) ==> r == CheckedPins(c)
  {
    if UsbSerial(c.uart) then [c.i2c.sdaPin, c.i2c.sclPin, c.gpio.statusLedPin] else CheckedPins(c)
  }

  function PinConflictsFixed(c: HardwareConfig): (r: Result<(), ConfigError>)
    ensures r.Ok? <==> Distinct(UsedPins(c))
  {
    match FirstRepeat(UsedPins(c))
    case None => Ok(())
    case Some(i) => Err(if UsbSerial(c.uart) && i == 2 then StatusLedConflict else ConflictError(i))
  }

  function ValidateFixed(c: HardwareConfig): (r: Result<(), ConfigError>)
    ensures !UsbSerial(c.uart) ==> r == Validate(c)
    ensures r.Ok? <==> I2cInRange(c.i2c) && (UsbSerial(c.uart) || UartInRange(c.uart)) && GpioInRange(c.gpio)
                       && WifiInRange(c.wifi) && Distinct(UsedPins(c))
  {
    if I2cValidate(c.i2c).Err? then I2cValidate(c.i2c)
    else if UartValidate(c.uart).Err? then UartValidate(c.uart)
    else if GpioValidate(c.gpio).Err? then GpioValidate(c.gpio)
    else if WifiValidate(c.wifi).Err? then WifiValidate(c.wifi)
    else PinConflictsFixed(c)
  }

  /** With the corrected check both presets validate. */
  lemma DevkitValidFixed()
    ensures ValidateFixed(DEVKIT_HARDWARE) == Ok(())
    ensures ValidateFixed(DEFAULT_HARDWARE) == Ok(())
  {
    assert Distinct(UsedPins(DEVKIT_HARDWARE));
    assert Distinct(CheckedPins(DEFAULT_HARDWARE));
  }

  /** The corrected check still refuses a USB console board whose I2C or LED pins collide. */
  lemma FixedStillRejectsSharedPins(c: HardwareConfig)
    requires UsbSerial(c.uart) && c.i2c.sdaPin == c.gpio.statusLedPin
    ensures ValidateFixed(c).Err?
  {
    assert UsedPins(c)[0] == UsedPins(c)[2];
  }
}
