/**
 * The mock peripherals of the testing support: an I2C bus that answers
 * from queued expectations, then from simulated register memory, then
 * from BME280-like defaults; a UART with an input buffer read from a
 * moving position and an output buffer of 256 bytes; and an MQTT client
 * that records what it publishes while connected.
 *
 * The simulated delays of the async methods are left out; each method's
 * effect is the state change it makes once it completes.
 */
module TestMocks {
  import opened Wrappers
  import opened Ints
  import IotError

  const MAX_MOCK_EXPECTATIONS := 32
  const MAX_MOCK_MEMORY := 256
  const MULTI_READ_DATA_CAPACITY := 32
  const UART_BUFFER_CAPACITY := 256
  const MQTT_TOPIC_CAPACITY := 64
  const MQTT_PAYLOAD_CAPACITY := 256
  const MQTT_HOST_CAPACITY := 64

  // ---------------------------------------------------------------- vectors

  /** `Vec::swap_remove`: the last element takes the place of the one removed. */
  function SwapRemove<T>(s: seq<T>, i: nat): (r: seq<T>)
    requires i < |s|
    ensures |r| == |s| - 1
    ensures forall k :: 0 <= k < |r| && k != i ==> r[k] == s[k]
    ensures i < |r| ==> r[i] == s[|s| - 1]
  {
    s[i := s[|s| - 1]][..|s| - 1]
  }

  /** Swap-removing takes exactly the one element out of the collection. */
  lemma SwapRemovePermutes<T>(s: seq<T>, i: nat)
    requires i < |s|
    ensures multiset(SwapRemove(s, i)) + multiset{s[i]} == multiset(s)
  {
    var r := SwapRemove(s, i);
    var n := |s| - 1;
    if i == n {
      assert r == s[..n];
      assert s == s[..n] + [s[n]];
    } else {
      assert r == s[..i] + [s[n]] + s[i + 1..n];
      assert s == s[..i] + [s[i]] + s[i + 1..n] + [s[n]];
    }
  }

  /** `Iterator::position`: the first index whose element satisfies `p`. */
  function FirstIndex<T>(s: seq<T>, p: T -> bool): (r: Option<nat>)
    ensures r.Some? ==> r.value < |s| && p(s[r.value]) && forall k :: 0 <= k < r.value ==> !p(s[k])
    ensures r.None? ==> forall k :: 0 <= k < |s| ==> !p(s[k])
  {
    if |s| == 0 then None
    else if p(s[0]) then Some(0)
    else match FirstIndex(s[1..], p)
      case None => None
      case Some(i) => Some(i + 1)
  }

  /** `heapless::String::push_str`: all of `x` is appended when it fits, or nothing. */
  function PushStr(s: string, x: string, capacity: nat): (r: string)
    ensures |s| + |x| <= capacity ==> r == s + x
    ensures |s| + |x| > capacity ==> r == s
  {
    if |s| + |x| <= capacity then s + x else s
  }

  /** `t` occurs in `s` starting at `k`. */
  predicate OccursAt(s: string, t: string, k: int) {
    0 <= k <= |s| - |t| && s[k..k + |t|] == t
  }

  /** `t` occurs in `s`. */
  predicate Contains(s: string, t: string) {
    exists k :: 0 <= k <= |s| - |t| && OccursAt(s, t, k)
  }

  // ---------------------------------------------------------------- register memory

  /** Every set of `u8`s has at most 256 elements. */
  lemma {:induction false} BoundedBelow(s: set<u8>, n: nat)
    requires n <= 0x100
    requires forall x :: x in s ==> x < n
    ensures |s| <= n
  {
    if n == 0 {
      assert s == {};
    } else {
      var x: u8 := n - 1;
      BoundedBelow(s - {x}, n - 1);
      if x in s {
        assert |s - {x}| == |s| - 1;
      } else {
        assert s - {x} == s;
      }
    }
  }

  /**
   * The register memory, 256 entries keyed by `u8`, is full only when
   * it holds every register: inserting never fails.
   */
  lemma MemoryNeverFull(m: map<u8, u8>, register: u8)
    ensures register in m || |m| < MAX_MOCK_MEMORY
  {
    if register !in m {
      BoundedBelow(m.Keys + {register}, 0x100);
      assert |m.Keys + {register}| == |m.Keys| + 1;
    }
  }

  /** A register read falls back on memory, then on 0x60 for the BME280 chip id at 0xD0, then on 0. */
  function RegisterValue(memory: map<u8, u8>, register: u8): (v: u8)
    ensures register in memory ==> v == memory[register]
    ensures register !in memory ==> v == (if register == 0xD0 then 0x60 else 0)
  {
    if register in memory then memory[register]
    else if register == 0xD0 then 0x60
    else if register == 0xF3 then 0x00
    else 0x00
  }

  /** The default byte of a multi-register read: BME280-like calibration patterns, sensor data 0x80, else 0. */
  function DefaultBlockByte(register: u8): u8 {
    if 0x88 <= register <= 0x9F then (register * 123) % 0x100
    else if register == 0xA1 then 75
    else if 0xE1 <= register <= 0xE7 then (register * 67) % 0x100
    else if 0xF7 <= register <= 0xFE then 0x80
    else 0x00
  }

  /** The byte a multi-register read gives at offset `i` without an expectation. */
  function BlockByte(memory: map<u8, u8>, start: u8, i: nat): u8 {
    var register: u8 := (start + i) % 0x100;
    if register in memory then memory[register] else DefaultBlockByte(register)
  }

  // ---------------------------------------------------------------- I2C

  /** An expected single-register operation: device address, register, value. */
  datatype Expectation = Expectation(address: u8, register: u8, value: u8)

  /** An expected multi-register read: device address, first register, the bytes. */
  datatype MultiExpectation = MultiExpectation(address: u8, startRegister: u8, data: seq<u8>)

  datatype MockI2cError = Communication(message: string) | DeviceNotFound | InvalidRegister(register: u8)

  function OutOfMemory(message: string): IotError.IoTError {
    IotError.IoTError(IotError.System(IotError.OutOfMemory(IotError.ErrorMessage(message))), [])
  }

  /** `MockI2c`: the expectations, the device addressed, the register memory, the call count and the error mode. */
  class MockI2c {
    var readExpectations: seq<Expectation>
    var writeExpectations: seq<Expectation>
    var multiReadExpectations: seq<MultiExpectation>
    var deviceAddress: u8
    var memory: map<u8, u8>
    var callCount: nat
    var shouldError: bool
    var errorMessage: string

    predicate Valid()
      reads this
    {
      |readExpectations| <= MAX_MOCK_EXPECTATIONS && |writeExpectations| <= MAX_MOCK_EXPECTATIONS
      && |multiReadExpectations| <= MAX_MOCK_EXPECTATIONS
      && forall k :: 0 <= k < |multiReadExpectations| ==> |multiReadExpectations[k].data| <= MULTI_READ_DATA_CAPACITY
    }

    /** `MockI2c::new`: nothing expected, the BME280 address 0x76, no memory, no error. */
    constructor ()
      ensures Valid()
      ensures readExpectations == [] && writeExpectations == [] && multiReadExpectations == []
      ensures deviceAddress == 0x76 && memory == map[] && callCount == 0
      ensures !shouldError && errorMessage == "Mock I2C error"
    {
      readExpectations, writeExpectations, multiReadExpectations := [], [], [];
      deviceAddress := 0x76;
      memory := map[];
      callCount := 0;
      shouldError := false;
      errorMessage := "Mock I2C error";
    }

    /** `set_address` */
    method SetAddress(address: u8)
      requires Valid()
      modifies this
      ensures Valid() && deviceAddress == address
      ensures readExpectations == old(readExpectations) && writeExpectations == old(writeExpectations)
      ensures multiReadExpectations == old(multiReadExpectations) && memory == old(memory)
      ensures callCount == old(callCount) && shouldError == old(shouldError) && errorMessage == old(errorMessage)
    {
      deviceAddress := address;
    }

    /** `expect_read_register`: queued for the current address, or out of memory when 32 are queued. */
    method ExpectReadRegister(register: u8, value: u8) returns (r: Result<(), IotError.IoTError>)
      requires Valid()
      modifies this
      ensures Valid()
      ensures |old(readExpectations)| < MAX_MOCK_EXPECTATIONS ==>
                r.Ok? && readExpectations == old(readExpectations) + [Expectation(deviceAddress, register, value)]
      ensures |old(readExpectations)| >= MAX_MOCK_EXPECTATIONS ==>
                r == Err(OutOfMemory("Too many I2C read expectations")) && readExpectations == old(readExpectations)
      ensures writeExpectations == old(writeExpectations) && multiReadExpectations == old(multiReadExpectations)
      ensures deviceAddress == old(deviceAddress) && memory == old(memory) && callCount == old(callCount)
      ensures shouldError == old(shouldError) && errorMessage == old(errorMessage)
    {
      if |readExpectations| < MAX_MOCK_EXPECTATIONS {
        readExpectations := readExpectations + [Expectation(deviceAddress, register, value)];
        r := Ok(());
      } else {
        r := Err(OutOfMemory("Too many I2C read expectations"));
      }
    }

    /** `expect_write_register` */
    method ExpectWriteRegister(register: u8, value: u8) returns (r: Result<(), IotError.IoTError>)
      requires Valid()
      modifies this
      ensures Valid()
      ensures |old(writeExpectations)| < MAX_MOCK_EXPECTATIONS ==>
                r.Ok? && writeExpectations == old(writeExpectations) + [Expectation(deviceAddress, register, value)]
      ensures |old(writeExpectations)| >= MAX_MOCK_EXPECTATIONS ==>
                r == Err(OutOfMemory("Too many I2C write expectations")) && writeExpectations == old(writeExpectations)
      ensures readExpectations == old(readExpectations) && multiReadExpectations == old(multiReadExpectations)
      ensures deviceAddress == old(deviceAddress) && memory == old(memory) && callCount == old(callCount)
      ensures shouldError == old(shouldError) && errorMessage == old(errorMessage)
    {
      if |writeExpectations| < MAX_MOCK_EXPECTATIONS {
        writeExpectations := writeExpectations + [Expectation(deviceAddress, register, value)];
        r := Ok(());
      } else {
        r := Err(OutOfMemory("Too many I2C write expectations"));
      }
    }

    /** `expect_read_registers`: more than 32 bytes is refused before anything is queued. */
    method ExpectReadRegisters(startRegister: u8, data: seq<u8>) returns (r: Result<(), IotError.IoTError>)
      requires Valid()
      modifies this
      ensures Valid()
      ensures |data| > MULTI_READ_DATA_CAPACITY ==>
                r == Err(OutOfMemory("Mock data too large")) && multiReadExpectations == old(multiReadExpectations)
      ensures |data| <= MULTI_READ_DATA_CAPACITY && |old(multiReadExpectations)| < MAX_MOCK_EXPECTATIONS ==>
                r.Ok? && multiReadExpectations == old(multiReadExpectations) + [MultiExpectation(deviceAddress, startRegister, data)]
      ensures |data| <= MULTI_READ_DATA_CAPACITY && |old(multiReadExpectations)| >= MAX_MOCK_EXPECTATIONS ==>
                r == Err(OutOfMemory("Too many I2C multi-read expectations"))
                && multiReadExpectations == old(multiReadExpectations)
      ensures readExpectations == old(readExpectations) && writeExpectations == old(writeExpectations)
      ensures deviceAddress == old(deviceAddress) && memory == old(memory) && callCount == old(callCount)
      ensures shouldError == old(shouldError) && errorMessage == old(errorMessage)
    {
      if |data| > MULTI_READ_DATA_CAPACITY {
        r := Err(OutOfMemory("Mock data too large"));
      } else if |multiReadExpectations| < MAX_MOCK_EXPECTATIONS {
        multiReadExpectations := multiReadExpectations + [MultiExpectation(deviceAddress, startRegister, data)];
        r := Ok(());
      } else {
        r := Err(OutOfMemory("Too many I2C multi-read expectations"));
      }
    }

    /** `set_register`: the register memory never fills up, so this always succeeds. */
    method SetRegister(register: u8, value: u8) returns (r: Result<(), IotError.IoTError>)
      requires Valid()
      modifies this
      ensures Valid() && r.Ok? && memory == old(memory)[register := value]
      ensures readExpectations == old(readExpectations) && writeExpectations == old(writeExpectations)
      ensures multiReadExpectations == old(multiReadExpectations) && deviceAddress == old(deviceAddress)
      ensures callCount == old(callCount) && shouldError == old(shouldError) && errorMessage == old(errorMessage)
    {
      MemoryNeverFull(memory, register);
      memory := memory[register := value];
      r := Ok(());
    }

    /** `set_error_mode` */
    method SetErrorMode(shouldError: bool, message: string)
      requires Valid()
      modifies this
      ensures Valid() && this.shouldError == shouldError && errorMessage == message
      ensures readExpectations == old(readExpectations) && writeExpectations == old(writeExpectations)
      ensures multiReadExpectations == old(multiReadExpectations) && deviceAddress == old(deviceAddress)
      ensures memory == old(memory) && callCount == old(callCount)
    {
      this.shouldError := shouldError;
      errorMessage := message;
    }

    /** `verify`: an error exactly when some expectation is still queued. */
    function Verify(): (r: Result<(), IotError.IoTError>)
      reads this
      ensures r.Ok? <==> readExpectations == [] && writeExpectations == [] && multiReadExpectations == []
      ensures r.Err? ==> r.error.kind == IotError.System(IotError.SystemInitializationFailed(
                                                            IotError.ErrorMessage("Unmet I2C expectations")))
    {
      if readExpectations != [] || writeExpectations != [] || multiReadExpectations != [] then
        Err(IotError.IoTError(IotError.System(IotError.SystemInitializationFailed(
                                                IotError.ErrorMessage("Unmet I2C expectations"))), []))
      else Ok(())
    }

    /** The first read expectation for the current address and `register`. */
    function ReadMatch(register: u8): Option<nat>
      reads this
    {
      var address := deviceAddress;
      FirstIndex(readExpectations, (e: Expectation) => e.address == address && e.register == register)
    }

    /**
     * `read_register`: counted; in error mode the error; otherwise the
     * first matching expectation's value, which is removed, or the value
     * memory and the defaults give.
     */
    method ReadRegister(register: u8) returns (r: Result<u8, MockI2cError>)
      requires Valid()
      modifies this
      ensures Valid() && callCount == old(callCount) + 1
      ensures old(shouldError) ==> r == Err(Communication(errorMessage)) && readExpectations == old(readExpectations)
      ensures !old(shouldError) && old(ReadMatch(register)).Some? ==>
                r == Ok(old(readExpectations)[old(ReadMatch(register)).value].value)
                && readExpectations == SwapRemove(old(readExpectations), old(ReadMatch(register)).value)
      ensures !old(shouldError) && old(ReadMatch(register)).None? ==>
                r == Ok(RegisterValue(memory, register)) && readExpectations == old(readExpectations)
      ensures writeExpectations == old(writeExpectations) && multiReadExpectations == old(multiReadExpectations)
      ensures deviceAddress == old(deviceAddress) && memory == old(memory)
      ensures shouldError == old(shouldError) && errorMessage == old(errorMessage)
    {
      callCount := callCount + 1;
      if shouldError {
        return Err(Communication(errorMessage));
      }
      var pos := ReadMatch(register);
      if pos.Some? {
        var value := readExpectations[pos.value].value;
        readExpectations := SwapRemove(readExpectations, pos.value);
        return Ok(value);
      }
      r := Ok(RegisterValue(memory, register));
    }

    /** The first write expectation for the current address, `register` and `value`. */
    function WriteMatch(register: u8, value: u8): Option<nat>
      reads this
    {
      var address := deviceAddress;
      FirstIndex(writeExpectations, (e: Expectation) => e.address == address && e.register == register && e.value == value)
    }

    /**
     * `write_register`: counted; in error mode the error; otherwise the
     * first matching expectation is removed, and without one the value is
     * stored in memory.
     */
    method WriteRegister(register: u8, value: u8) returns (r: Result<(), MockI2cError>)
      requires Valid()
      modifies this
      ensures Valid() && callCount == old(callCount) + 1
      ensures old(shouldError) ==>
                r == Err(Communication(errorMessage)) && writeExpectations == old(writeExpectations) && memory == old(memory)
      ensures !old(shouldError) && old(WriteMatch(register, value)).Some? ==>
                r.Ok? && writeExpectations == SwapRemove(old(writeExpectations), old(WriteMatch(register, value)).value)
                && memory == old(memory)
      ensures !old(shouldError) && old(WriteMatch(register, value)).None? ==>
                r.Ok? && writeExpectations == old(writeExpectations) && memory == old(memory)[register := value]
      ensures readExpectations == old(readExpectations) && multiReadExpectations == old(multiReadExpectations)
      ensures deviceAddress == old(deviceAddress)
      ensures shouldError == old(shouldError) && errorMessage == old(errorMessage)
    {
      callCount := callCount + 1;
      if shouldError {
        return Err(Communication(errorMessage));
      }
      var pos := WriteMatch(register, value);
      if pos.Some? {
        writeExpectations := SwapRemove(writeExpectations, pos.value);
        return Ok(());
      }
      MemoryNeverFull(memory, register);
      memory := memory[register := value];
      r := Ok(());
    }

    /** The first multi-read expectation for the current address and `startRegister`. */
    function MultiReadMatch(startRegister: u8): Option<nat>
      reads this
    {
      var address := deviceAddress;
      FirstIndex(multiReadExpectations, (e: MultiExpectation) => e.address == address && e.startRegister == startRegister)
    }

    /**
     * `read_registers`: counted; in error mode the error; otherwise the
     * first matching expectation is removed and as much of its data as
     * fits is copied, or else each byte is read from the register after
     * `startRegister` at its offset, wrapping past 0xFF.
     */
    method ReadRegisters(startRegister: u8, buffer: array<u8>) returns (r: Result<(), MockI2cError>)
      requires Valid()
      modifies this, buffer
      ensures Valid() && callCount == old(callCount) + 1
      ensures old(shouldError) ==>
                r == Err(Communication(errorMessage)) && buffer[..] == old(buffer[..])
                && multiReadExpectations == old(multiReadExpectations)
      ensures !old(shouldError) && old(MultiReadMatch(startRegister)).Some? ==>
                (var data := old(multiReadExpectations)[old(MultiReadMatch(startRegister)).value].data;
                 var n := if buffer.Length < |data| then buffer.Length else |data|;
                 r.Ok? && buffer[..n] == data[..n] && buffer[n..] == old(buffer[n..])
                 && multiReadExpectations == SwapRemove(old(multiReadExpectations), old(MultiReadMatch(startRegister)).value))
      ensures !old(shouldError) && old(MultiReadMatch(startRegister)).None? ==>
                r.Ok? && multiReadExpectations == old(multiReadExpectations)
                && forall i :: 0 <= i < buffer.Length ==> buffer[i] == BlockByte(memory, startRegister, i)
      ensures readExpectations == old(readExpectations) && writeExpectations == old(writeExpectations)
      ensures deviceAddress == old(deviceAddress) && memory == old(memory)
      ensures shouldError == old(shouldError) && errorMessage == old(errorMessage)
    {
      callCount := callCount + 1;
      if shouldError {
        return Err(Communication(errorMessage));
      }
      var pos := MultiReadMatch(startRegister);
      if pos.Some? {
        var data := multiReadExpectations[pos.value].data;
        var n := if buffer.Length < |data| then buffer.Length else |data|;
        forall k | 0 <= k < n {
          buffer[k] := data[k];
        }
        multiReadExpectations := SwapRemove(multiReadExpectations, pos.value);
        return Ok(());
      }
      var i := 0;
      while i < buffer.Length
        modifies buffer
        invariant 0 <= i <= buffer.Length
        invariant forall k :: 0 <= k < i ==> buffer[k] == BlockByte(memory, startRegister, k)
      {
        buffer[i] := BlockByte(memory, startRegister, i);
        i := i + 1;
      }
      r := Ok(());
    }
  }

  /** An expected read is answered once, after which nothing is left to verify. */
  method ExpectedReadAnswered(register: u8, value: u8)
    returns (answer: Result<u8, MockI2cError>, verified: Result<(), IotError.IoTError>)
    ensures answer == Ok(value) && verified.Ok?
  {
    var mock := new MockI2c();
    var queued := mock.ExpectReadRegister(register, value);
    assert mock.readExpectations == [Expectation(0x76, register, value)];
    assert mock.ReadMatch(register) == Some(0);
    answer := mock.ReadRegister(register);
    verified := mock.Verify();
  }

  /** Without an expectation a register reads what was stored for it; the chip id defaults to 0x60. */
  method StoredRegisterRead(register: u8, value: u8)
    returns (stored: Result<u8, MockI2cError>, chipId: Result<u8, MockI2cError>)
    requires register != 0xD0
    ensures stored == Ok(value) && chipId == Ok(0x60)
  {
    var mock := new MockI2c();
    var stored0 := mock.SetRegister(register, value);
    stored := mock.ReadRegister(register);
    chipId := mock.ReadRegister(0xD0);
  }

  /** A write nobody expected is stored, and a later read of the register answers it. */
  method WrittenRegisterReadBack(register: u8, value: u8)
    returns (written: Result<(), MockI2cError>, read: Result<u8, MockI2cError>, calls: nat)
    ensures written.Ok? && read == Ok(value) && calls == 2
  {
    var mock := new MockI2c();
    written := mock.WriteRegister(register, value);
    read := mock.ReadRegister(register);
    calls := mock.callCount;
  }

  /** The BME280 scenario: chip id 0x60, status 0 and the first calibration word in memory. */
  method Bme280MockI2c() returns (mock: MockI2c)
    ensures fresh(mock) && mock.Valid()
    ensures mock.memory == map[0xD0 := 0x60, 0xF3 := 0x00, 0x88 := 0x6C, 0x89 := 0x6C]
    ensures mock.readExpectations == [] && mock.writeExpectations == [] && mock.multiReadExpectations == []
    ensures mock.deviceAddress == 0x76 && mock.callCount == 0 && !mock.shouldError
  {
    mock := new MockI2c();
    var r0 := mock.SetRegister(0xD0, 0x60);
    var r1 := mock.SetRegister(0xF3, 0x00);
    var r2 := mock.SetRegister(0x88, 0x6C);
    var r3 := mock.SetRegister(0x89, 0x6C);
  }

  // ---------------------------------------------------------------- UART

  datatype MockUartError = UartCommunication(message: string) | BufferOverflow | NoData

  function UartError(message: string): IotError.IoTError {
    IotError.IoTError(IotError.Hardware(IotError.UARTError(IotError.ErrorMessage(message))), [])
  }

  /** `MockUart`: the input waiting to be read from `readPos`, the output written, the error mode. */
  class MockUart {
    var inputBuffer: seq<u8>
    var outputBuffer: seq<u8>
    var readPos: nat
    var shouldError: bool
    var errorMessage: string

    predicate Valid()
      reads this
    {
      |inputBuffer| <= UART_BUFFER_CAPACITY && |outputBuffer| <= UART_BUFFER_CAPACITY && readPos <= |inputBuffer|
    }

    /** `MockUart::new` */
    constructor ()
      ensures Valid() && inputBuffer == [] && outputBuffer == [] && readPos == 0
      ensures !shouldError && errorMessage == "Mock UART error"
    {
      inputBuffer, outputBuffer, readPos := [], [], 0;
      shouldError := false;
      errorMessage := "Mock UART error";
    }

    /**
     * `add_input`: the bytes are appended one by one; when the buffer
     * fills, those that fit stay and the error is returned.
     */
    method AddInput(data: seq<u8>) returns (r: Result<(), IotError.IoTError>)
      requires Valid()
      modifies this
      ensures Valid()
      ensures inputBuffer == old(inputBuffer) + data[..Min(|data|, UART_BUFFER_CAPACITY - |old(inputBuffer)|)]
      ensures r.Err? <==> |old(inputBuffer)| + |data| > UART_BUFFER_CAPACITY
      ensures r.Err? ==> r.error == UartError("Input buffer full")
      ensures outputBuffer == old(outputBuffer) && readPos == old(readPos)
      ensures shouldError == old(shouldError) && errorMessage == old(errorMessage)
    {
      var i := 0;
      while i < |data|
        invariant 0 <= i <= |data| && i <= UART_BUFFER_CAPACITY - |old(inputBuffer)|
        invariant inputBuffer == old(inputBuffer) + data[..i]
        invariant outputBuffer == old(outputBuffer) && readPos == old(readPos)
        invariant shouldError == old(shouldError) && errorMessage == old(errorMessage)
      {
        if |inputBuffer| == UART_BUFFER_CAPACITY {
          return Err(UartError("Input buffer full"));
        }
        inputBuffer := inputBuffer + [data[i]];
        assert data[..i + 1] == data[..i] + [data[i]];
        i := i + 1;
      }
      assert data[..|data|] == data;
      r := Ok(());
    }

    /** `clear_output`: the output is emptied; the input and the read position stay. */
    method ClearOutput()
      requires Valid()
      modifies this
      ensures Valid() && outputBuffer == [] && inputBuffer == old(inputBuffer) && readPos == old(readPos)
      ensures shouldError == old(shouldError) && errorMessage == old(errorMessage)
    {
      outputBuffer := [];
    }

    /** `set_error_mode` */
    method SetErrorMode(shouldError: bool, message: string)
      requires Valid()
      modifies this
      ensures Valid() && this.shouldError == shouldError && errorMessage == message
      ensures inputBuffer == old(inputBuffer) && outputBuffer == old(outputBuffer) && readPos == old(readPos)
    {
      this.shouldError := shouldError;
      errorMessage := message;
    }

    /**
     * `read`: in error mode the error; otherwise as many waiting bytes as
     * the buffer holds are copied into it, the rest of the buffer is left
     * alone, the read position moves past them and their number is
     * returned (0 once the input is drained).
     */
    method Read(buffer: array<u8>) returns (r: Result<nat, MockUartError>)
      requires Valid()
      modifies this, buffer
      ensures Valid()
      ensures old(shouldError) ==>
                r == Err(UartCommunication(errorMessage)) && readPos == old(readPos) && buffer[..] == old(buffer[..])
      ensures !old(shouldError) ==>
                (var n := Min(buffer.Length, |inputBuffer| - old(readPos));
                 r == Ok(n) && buffer[..n] == inputBuffer[old(readPos)..old(readPos) + n]
                 && buffer[n..] == old(buffer[n..]) && readPos == old(readPos) + n)
      ensures inputBuffer == old(inputBuffer) && outputBuffer == old(outputBuffer)
      ensures shouldError == old(shouldError) && errorMessage == old(errorMessage)
    {
      if shouldError {
        return Err(UartCommunication(errorMessage));
      }
      var available := |inputBuffer| - readPos;
      if available == 0 {
        return Ok(0);
      }
      var toRead := Min(buffer.Length, available);
      var start := readPos;
      forall k | 0 <= k < toRead {
        buffer[k] := inputBuffer[start + k];
      }
      readPos := start + toRead;
      r := Ok(toRead);
    }

    /** `write`: bytes are appended until the 256-byte output is full; the number appended is returned. */
    method Write(data: seq<u8>) returns (r: Result<nat, MockUartError>)
      requires Valid()
      modifies this
      ensures Valid()
      ensures old(shouldError) ==> r == Err(UartCommunication(errorMessage)) && outputBuffer == old(outputBuffer)
      ensures !old(shouldError) ==>
                (var n := Min(|data|, UART_BUFFER_CAPACITY - |old(outputBuffer)|);
                 r == Ok(n) && outputBuffer == old(outputBuffer) + data[..n])
      ensures inputBuffer == old(inputBuffer) && readPos == old(readPos)
      ensures shouldError == old(shouldError) && errorMessage == old(errorMessage)
    {
      if shouldError {
        return Err(UartCommunication(errorMessage));
      }
      var written := 0;
      while written < |data|
        invariant 0 <= written <= |data| && written <= UART_BUFFER_CAPACITY - |old(outputBuffer)|
        invariant outputBuffer == old(outputBuffer) + data[..written]
        invariant inputBuffer == old(inputBuffer) && readPos == old(readPos)
        invariant shouldError == old(shouldError) && errorMessage == old(errorMessage)
        invariant written < Min(|data|, UART_BUFFER_CAPACITY - |old(outputBuffer)|) || written == |data|
                  || |outputBuffer| == UART_BUFFER_CAPACITY
      {
        if |outputBuffer| == UART_BUFFER_CAPACITY {
          break;
        }
        outputBuffer := outputBuffer + [data[written]];
        assert data[..written + 1] == data[..written] + [data[written]];
        written := written + 1;
      }
      r := Ok(written);
    }
  }

  /** Input added to a fresh UART is read back whole by one read into a large enough buffer. */
  method UartInputReadBack(data: seq<u8>, size: nat) returns (got: seq<u8>, added: Result<(), IotError.IoTError>)
    requires |data| <= UART_BUFFER_CAPACITY && |data| <= size
    ensures added.Ok? && got == data
  {
    var uart := new MockUart();
    added := uart.AddInput(data);
    assert data[..|data|] == data;
    var buffer := new u8[size];
    var n := uart.Read(buffer);
    got := buffer[..n.value];
  }

  /** Two reads in a row return consecutive stretches of the input. */
  method UartReadsInOrder(data: seq<u8>, a: nat, b: nat) returns (first: seq<u8>, second: seq<u8>)
    requires |data| <= UART_BUFFER_CAPACITY && a + b <= |data|
    ensures first + second == data[..a + b]
  {
    var uart := new MockUart();
    var added := uart.AddInput(data);
    assert data[..|data|] == data;
    var one := new u8[a];
    var n := uart.Read(one);
    first := one[..n.value];
    assert first == data[..a];
    var two := new u8[b];
    var m := uart.Read(two);
    second := two[..m.value];
    assert second == data[a..a + b];
    assert data[..a] + data[a..a + b] == data[..a + b];
  }

  // ---------------------------------------------------------------- MQTT

  datatype MockMqttError =
    | ConnectionFailed(message: string)
    | PublishFailed(message: string)
    | NotConnected
    | BufferFull
    | SerializationError(message: string)

  /** `MockMqttClient`: the connection, the messages published (topic, payload), the failure switches, the broker. */
  class MockMqttClient {
    var isConnected: bool
    var publishedMessages: seq<(string, string)>
    var shouldFailConnection: bool
    var shouldFailPublish: bool
    var brokerHost: string
    var brokerPort: u16

    predicate Valid()
      reads this
    {
      |publishedMessages| <= MAX_MOCK_EXPECTATIONS && |brokerHost| <= MQTT_HOST_CAPACITY
      && forall k :: 0 <= k < |publishedMessages| ==>
           |publishedMessages[k].0| <= MQTT_TOPIC_CAPACITY && |publishedMessages[k].1| <= MQTT_PAYLOAD_CAPACITY
    }

    /** `MockMqttClient::new`: disconnected, nothing published, port 1883. */
    constructor ()
      ensures Valid() && !isConnected && publishedMessages == [] && !shouldFailConnection && !shouldFailPublish
      ensures brokerHost == "" && brokerPort == 1883
    {
      isConnected := false;
      publishedMessages := [];
      shouldFailConnection, shouldFailPublish := false, false;
      brokerHost := "";
      brokerPort := 1883;
    }

    /** `set_connection_behavior` */
    method SetConnectionBehavior(shouldFail: bool)
      requires Valid()
      modifies this
      ensures Valid() && shouldFailConnection == shouldFail && shouldFailPublish == old(shouldFailPublish)
      ensures isConnected == old(isConnected) && publishedMessages == old(publishedMessages)
      ensures brokerHost == old(brokerHost) && brokerPort == old(brokerPort)
    {
      shouldFailConnection := shouldFail;
    }

    /** `set_publish_behavior` */
    method SetPublishBehavior(shouldFail: bool)
      requires Valid()
      modifies this
      ensures Valid() && shouldFailPublish == shouldFail && shouldFailConnection == old(shouldFailConnection)
      ensures isConnected == old(isConnected) && publishedMessages == old(publishedMessages)
      ensures brokerHost == old(brokerHost) && brokerPort == old(brokerPort)
    {
      shouldFailPublish := shouldFail;
    }

    /**
     * `connect`: the simulated failure, or connected to the port with the
     * host appended to the one already recorded when it fits.
     */
    method Connect(host: string, port: u16) returns (r: Result<(), MockMqttError>)
      requires Valid()
      modifies this
      ensures Valid()
      ensures old(shouldFailConnection) ==>
                r == Err(ConnectionFailed("Simulated MQTT connection failure"))
                && isConnected == old(isConnected) && brokerHost == old(brokerHost) && brokerPort == old(brokerPort)
      ensures !old(shouldFailConnection) ==>
                r.Ok? && isConnected && brokerPort == port
                && brokerHost == PushStr(old(brokerHost), host, MQTT_HOST_CAPACITY)
      ensures publishedMessages == old(publishedMessages)
      ensures shouldFailConnection == old(shouldFailConnection) && shouldFailPublish == old(shouldFailPublish)
    {
      if shouldFailConnection {
        return Err(ConnectionFailed("Simulated MQTT connection failure"));
      }
      brokerHost := PushStr(brokerHost, host, MQTT_HOST_CAPACITY);
      brokerPort := port;
      isConnected := true;
      r := Ok(());
    }

    /** `was_published`: some message has exactly this topic and a payload containing the text. */
    predicate WasPublished(topic: string, payloadContains: string)
      reads this
    {
      exists k :: 0 <= k < |publishedMessages| && publishedMessages[k].0 == topic
                  && Contains(publishedMessages[k].1, payloadContains)
    }

    /**
     * `publish`: not connected, the simulated failure, or the message is
     * recorded, a topic over 64 or a payload over 256 bytes recorded
     * empty; 32 messages fill the record.
     */
    method Publish(topic: string, payload: string) returns (r: Result<(), MockMqttError>)
      requires Valid()
      modifies this
      ensures Valid()
      ensures !old(isConnected) ==> r == Err(NotConnected) && publishedMessages == old(publishedMessages)
      ensures old(isConnected) && old(shouldFailPublish) ==>
                r == Err(PublishFailed("Simulated publish failure")) && publishedMessages == old(publishedMessages)
      ensures old(isConnected) && !old(shouldFailPublish) && |old(publishedMessages)| >= MAX_MOCK_EXPECTATIONS ==>
                r == Err(BufferFull) && publishedMessages == old(publishedMessages)
      ensures old(isConnected) && !old(shouldFailPublish) && |old(publishedMessages)| < MAX_MOCK_EXPECTATIONS ==>
                r.Ok? && publishedMessages == old(publishedMessages) + [(PushStr("", topic, MQTT_TOPIC_CAPACITY),
                                                                         PushStr("", payload, MQTT_PAYLOAD_CAPACITY))]
      ensures r.Ok? && |topic| <= MQTT_TOPIC_CAPACITY && |payload| <= MQTT_PAYLOAD_CAPACITY ==>
                WasPublished(topic, payload)
      ensures isConnected == old(isConnected) && brokerHost == old(brokerHost) && brokerPort == old(brokerPort)
      ensures shouldFailConnection == old(shouldFailConnection) && shouldFailPublish == old(shouldFailPublish)
    {
      if !isConnected {
        return Err(NotConnected);
      }
      if shouldFailPublish {
        return Err(PublishFailed("Simulated publish failure"));
      }
      var topicString := PushStr("", topic, MQTT_TOPIC_CAPACITY);
      var payloadString := PushStr("", payload, MQTT_PAYLOAD_CAPACITY);
      if |publishedMessages| >= MAX_MOCK_EXPECTATIONS {
        return Err(BufferFull);
      }
      publishedMessages := publishedMessages + [(topicString, payloadString)];
      if |topic| <= MQTT_TOPIC_CAPACITY && |payload| <= MQTT_PAYLOAD_CAPACITY {
        var k := |publishedMessages| - 1;
        assert OccursAt(publishedMessages[k].1, payload, 0);
      }
      r := Ok(());
    }

    /** `get_connection_info`: the broker while connected. */
    function GetConnectionInfo(): (r: Option<(string, u16)>)
      reads this
      ensures r.Some? <==> isConnected
      ensures r.Some? ==> r.value == (brokerHost, brokerPort)
    {
      if isConnected then Some((brokerHost, brokerPort)) else None
    }

    /** `disconnect`: disconnected, the host and the published messages cleared; the port stays. */
    method Disconnect()
      requires Valid()
      modifies this
      ensures Valid() && !isConnected && brokerHost == "" && publishedMessages == []
      ensures brokerPort == old(brokerPort)
      ensures shouldFailConnection == old(shouldFailConnection) && shouldFailPublish == old(shouldFailPublish)
    {
      isConnected := false;
      brokerHost := "";
      publishedMessages := [];
    }
  }

  /** The successful MQTT scenario: neither connecting nor publishing is set to fail. */
  method SuccessfulMqttMock() returns (mock: MockMqttClient)
    ensures fresh(mock) && mock.Valid() && !mock.isConnected && mock.publishedMessages == []
    ensures !mock.shouldFailConnection && !mock.shouldFailPublish && mock.brokerPort == 1883
  {
    mock := new MockMqttClient();
    mock.SetConnectionBehavior(false);
    mock.SetPublishBehavior(false);
  }

  /** A publish after a disconnect is refused and records nothing; a fresh connection publishes again. */
  method PublishAfterDisconnect(topic: string, payload: string)
    returns (refused: Result<(), MockMqttError>, accepted: Result<(), MockMqttError>, seen: bool)
    requires |topic| <= MQTT_TOPIC_CAPACITY && |payload| <= MQTT_PAYLOAD_CAPACITY
    ensures refused == Err(NotConnected) && accepted.Ok? && seen
  {
    var client := new MockMqttClient();
    var c1 := client.Connect("localhost", 1883);
    client.Disconnect();
    refused := client.Publish(topic, payload);
    var c2 := client.Connect("localhost", 1883);
    accepted := client.Publish(topic, payload);
    seen := client.WasPublished(topic, payload);
  }
}
