# BH1750 ambient-light sensor driver, modelled in Dafny

This project models the `BH1750` driver class. The driver talks to the BH1750 light sensor over an I2C bus. It has two states: not initialised and initialised. Three things are modelled:

- **Initialisation.** `inicializarSensor` sends a fixed sequence. It sets up the bus at 400 kHz and configures both pins. Then it writes power-on (`0x01`), waits 10 ms, writes reset (`0x07`) and writes continuous high-resolution mode (`0x10`). It stops at the first write that does not report exactly one byte. Once initialised, it returns at once.
- **Reading.** `lerIntensidadeLuminosaLux` returns the invalid value when the sensor is not initialised. Otherwise it waits 180 ms, reads two bytes and assembles them big-endian. It converts the result to lux by dividing by 1.2.
- **Protocol constants.** The header defines the opcodes, the default address `0x23`, the bus frequency, the conversion delay and the sentinel `-1`.

Files:

- `bh1750_protocol.dfy` (module `Bh1750Protocol`): the header's constants and the opcode datatype `Command`. It also holds the big-endian assembly of a 16-bit measurement (the shift and the bitwise or written out over the integer ranges `Byte` and `Word`), the outcome of a read (`Reading = Invalid | Ok(raw)`) and the lux value as an exact real.
- `bh1750_spec.dfy` (module `Bh1750Spec`): what one initialisation and one read do, as functions. Each function's inputs are:
  - the configuration;
  - the readiness flag;
  - the byte counts the bus reports.
  
  Each function returns its result and the ordered list of hardware events it emits. `Run` chains any sequence of public calls on one instance. The lemmas about `Run` cover properties that span several calls.
- `bh1750_driver.dfy` (module `Bh1750Driver`): the class `Bh1750`. Its `const` fields are the bus reference, the pins and the address. Its only mutable field is `initialized`, and a ghost `trace` records events. `Initialize`, `ReadRaw` and `ReadIlluminance` are proved against `InitAttempt`, `RawRead` and `ReadAttempt`. `ConfigurePins` and `SendCommand` state their effect on the trace directly. The bus is the class `I2cBus`. It is an oracle: a write or read may report any byte count, and a read may leave any bytes in the buffer. Its ghost `log` is the bus's own record of each transfer: the count it reported and, for a read, the bytes it left in the buffer. Only the bus's methods assign it. `SendCommand`, `Initialize`, `ReadRaw` and `ReadIlluminance` state that the bus's log grows by exactly the transfers (`Transfers`) among the events they append to the trace. So the counts and bytes in the trace are the ones the bus returned.

Hardware calls are recorded as events in the trace:

| Source call | Event |
|---|---|
| `i2c_init` | `Init(400000)` |
| the six `gpio_*` calls | `PinSetup(sda, scl)` |
| `i2c_write_blocking` | `Write(address, byte, count)`, where `count` is what the bus reported (the same event is appended to the bus's log) |
| `sleep_ms` | `Sleep(ms)` |
| `i2c_read_blocking` | `Read(address, 2, count, bytes)`, where `bytes` is what the 2-byte buffer held after the read (the same event is appended to the bus's log) |

The driver's invariant `Valid()` ties the flag to the trace. The flag is set exactly when the trace holds an acknowledged mode-select write. No trace ever holds the power-down opcode, and every transfer goes to the configured address.

## Model

| member | source | states |
|---|---|---|
| `Bh1750Protocol.Opcode` | src/BH1750.h:25-30 | each command's byte decodes back to that command (`CommandOf` is its inverse), so no undefined opcode can be sent |
| `Bh1750Protocol.OpcodeOfCommandOf` | src/BH1750.h:25-30 | a byte that names a command is that command's opcode, and any other byte is no command's opcode |
| `Bh1750Protocol.OpcodesDistinct` | src/BH1750.h:25-30 | power-down 0x00, power-on 0x01, reset 0x07 and mode 0x10 are pairwise distinct |
| `Bh1750Protocol.BitOrDisjoint` | src/BH1750.cpp:123-124 | or-ing a value shifted left by k with a value below 2^k is the same as adding them |
| `Bh1750Protocol.ShiftByte` | src/BH1750.cpp:123 | a byte shifted left by 8 is the byte times 256 and is not changed by the cast to 16 bits |
| `Bh1750Protocol.Assemble` | src/BH1750.cpp:123-124 | the first byte shifted left by 8 (`ShiftLeft`), or-ed with the second byte (`BitOr`) and kept to 16 bits, equals `b0*256 + b1` |
| `Bh1750Protocol.SplitAssemble` | src/BH1750.cpp:123-124 | an assembled measurement divided by 256 gives the first byte read, and its remainder gives the second |
| `Bh1750Protocol.AssembleSplit` | src/BH1750.cpp:123-124 | every 16-bit value is the assembly of its own quotient and remainder by 256, so no measurement is unreachable |
| `Bh1750Protocol.AssembleInjective` | src/BH1750.cpp:123-124 | two byte pairs assemble to the same value only if they are equal |
| `Bh1750Protocol.Lux` | src/BH1750.cpp:65 | the lux value of a raw count is non-negative, and times 1.2 it gives back the count |
| `Bh1750Protocol.LuxValue` | src/BH1750.cpp:53-66 | the returned value is the sentinel -1 exactly for the invalid result, and `raw / 1.2` otherwise |
| `Bh1750Protocol.LuxMonotone` | src/BH1750.cpp:65 | a larger raw count never gives a smaller lux value |
| `Bh1750Protocol.ReadingDistinctFromSentinel` | src/BH1750.h:13 | the sentinel is negative, and no successful reading equals it |
| `Bh1750Protocol.ExampleMeasurement` | src/BH1750.cpp:123-124 | the bytes 0x01 0x90 give 400, which is 1000/3 lux |
| `Bh1750Spec.InitAttempt` | src/BH1750.cpp:18-51 | see the first list after this table |
| `Bh1750Spec.InitAttemptIsSafe` | src/BH1750.cpp:28-50 | see the second list after this table |
| `Bh1750Spec.RawRead` | src/BH1750.cpp:103-127 | without a bus, the result is invalid and there is no event; otherwise `Sleep(180)` then `Read(addr, 2)` recording the two bytes read; the read succeeds exactly when 2 bytes came back, and then the result's high and low bytes are the bytes read |
| `Bh1750Spec.ReadAttempt` | src/BH1750.cpp:53-66 | before initialisation, the result is invalid and there is no event; after it, `Sleep(180)` then one 2-byte read; success exactly when initialised and 2 bytes came back, and the value is their big-endian assembly |
| `Bh1750Spec.ReadAttemptIsSafe` | src/BH1750.cpp:53-66 | a read writes nothing and reads only from the configured address |
| `Bh1750Spec.InitKeepsConsistent` | src/BH1750.cpp:18-51 | an initialisation keeps the flag set exactly when the trace holds an acknowledged mode-select write; it also keeps the trace free of power-down and of other addresses |
| `Bh1750Spec.ReadKeepsConsistent` | src/BH1750.cpp:53-66 | a read keeps the same consistency and leaves the flag alone |
| `Bh1750Spec.InitTransfers` | src/BH1750.cpp:34-46 | the bus sees only an initialisation's command writes: power-on, then reset only if power-on was acknowledged, then mode select only if reset was acknowledged, each with the count the bus reported |
| `Bh1750Spec.RawReadTransfers` | src/BH1750.cpp:111-117 | the bus sees one 2-byte read from the device per raw read, with its count and bytes, and nothing without a bus |
| `Bh1750Spec.StepIsSafe` | src/BH1750.cpp:18-66 | no single public call sends power-down or talks to another address; after a call, the flag is set exactly when it was set before or the call had mode-select acknowledged |
| `Bh1750Spec.RunKeepsReady` | src/BH1750.cpp:20-22 | an initialised instance is still initialised after any sequence of calls |
| `Bh1750Spec.ReadyIsMonotone` | src/BH1750.cpp:48 | if the flag is true after a prefix of a call sequence, it is true after the whole sequence |
| `Bh1750Spec.ReadyIffModeAcknowledged` | src/BH1750.cpp:44-48 | after any calls, the flag is true exactly when it was true before or an emitted mode-select write was acknowledged |
| `Bh1750Spec.RunNeverPowersDown` | src/BH1750.cpp:34-46 | no sequence of calls writes the power-down opcode, and every transfer goes to the configured address |
| `Bh1750Spec.RunWithoutBusIsSilent` | src/BH1750.cpp:24-26 | with a null bus, no sequence of calls emits an event or sets the flag |
| `Bh1750Spec.InitializeTwice` | src/BH1750.cpp:20-22 | with every write acknowledged, two initialisations emit the full sequence only once and set the flag |
| `Bh1750Spec.FailedPowerOnThenRead` | src/BH1750.cpp:34-36 | a power-on write that reports 0 bytes leaves the flag false, and a later read gives the invalid result |
| `Bh1750Driver.Bh1750.constructor` | src/BH1750.cpp:6-16 | stores the bus, pins and address as given (address 0x23 by default); the flag is false and the trace is empty |
| `Bh1750Driver.Bh1750.ConfigurePins` | src/BH1750.cpp:68-84 | fails exactly when there is no bus; otherwise emits the pin set-up |
| `Bh1750Driver.Bh1750.SendCommand` | src/BH1750.cpp:86-101 | without a bus, returns false with no event; otherwise makes one write of the opcode to the address, appended to both the trace and the bus's log with the count `WriteBlocking` returned, and returns true exactly when that count is 1 |
| `Bh1750Driver.Bh1750.Initialize` | src/BH1750.cpp:18-51 | appends exactly the events of `InitAttempt` for the bus replies it saw and returns its verdict; the bus's log grows by exactly the writes among those events, so the replies are the counts the bus returned and the sequence stops at the first one that is not 1; sets the flag only on success; keeps `Valid()` |
| `Bh1750Driver.Bh1750.ReadRaw` | src/BH1750.cpp:103-127 | appends exactly the events of `RawRead` and returns its reading, through a local 2-byte buffer; the bus's log grows by exactly the read event, so its count and bytes are what `ReadBlocking` returned and left in the buffer, and the result is the big-endian assembly of those bytes when 2 bytes came back; cannot change the flag |
| `Bh1750Driver.Bh1750.ReadIlluminance` | src/BH1750.cpp:53-66 | appends exactly the events of `ReadAttempt` and returns its reading, the big-endian assembly of the bytes the bus returned (its log grows by exactly the read); before initialisation, the result is invalid and there is no event; keeps `Valid()` and the flag |
| `Bh1750Driver.ReadBeforeInitialize` | src/BH1750.cpp:55-57 | on a fresh instance, a read gives the sentinel whatever the bus, and the bus records no transfer |
| `Bh1750Driver.InitializeWithoutBus` | src/BH1750.cpp:24-26 | with a null bus, initialisation fails and emits nothing |
| `Bh1750Driver.InitializeAgain` | src/BH1750.cpp:20-22 | after a successful initialisation, a second one succeeds, emits no event and makes no transfer on the bus |

`Bh1750Spec.InitAttempt` states the following:

- It succeeds exactly when the instance was already initialised, or when the bus is present and all three writes report 1 byte.
- When the instance was already initialised, or the bus is null, it emits nothing.
- On success from the uninitialised state it emits exactly: `Init(400000)`, `PinSetup`, `Write(0x01)`, `Sleep(10)`, `Write(0x07)`, `Write(0x10)`.
- Otherwise it emits 3, 5 or 6 events, depending on which write failed first.

`Bh1750Spec.InitAttemptIsSafe` states the following:

- The events follow that sequence step by step, as far as they go.
- A write the bus did not acknowledge is the last event.
- Power-down is never written.
- Every transfer goes to the configured address.
- The call emits an acknowledged mode-select write exactly when it moves the flag from false to true.

The constants `BusFrequencyHz` (400000), `DefaultAddress` (0x23), `ConversionDelayMs` (180), `PowerOnDelayMs` (10), `LuxFactor` (1.2) and `InvalidLux` (-1.0) come from src/BH1750.h:9-13 and src/BH1750.cpp:38. They are the values the specification functions put into the events.

## Left out

- The Pico SDK calls are foreign hardware calls. Each is recorded as a trace event, and the bus's byte counts and read bytes are oracle values. The calls are `i2c_init`, `gpio_init`, `gpio_set_function`, `gpio_pull_up`, `i2c_write_blocking`, `i2c_read_blocking` and `sleep_ms`.
- The six GPIO calls of the pin set-up become a single `PinSetup(sda, scl)` event, because their order does not affect the protocol.
- Integer widths: `uint8_t` and `uint16_t` are the integer ranges `Byte` and `Word`. The two casts to 16 bits in the assembly are written as `% 65536`.
- The `nostop` argument (`false`) of the blocking transfers is not modelled. It is the same constant on every transfer.
- Float arithmetic is not modelled. `lerIntensidadeLuminosaLux` returns `float`. The model's `ReadIlluminance` returns the `Reading`, and the value handed to the host is the ghost real `LuxValue(reading)`. That value is `raw / 1.2` computed exactly, with the float sentinel `-1.0f` as the real -1. Float rounding is out of scope.
- Real elapsed time and blocking are not modelled. Delays are recorded only by their presence, value and position in the trace.
- Concurrency and sharing the bus with other devices are not modelled. The driver has neither.
- The bus's ghost `log` is a public field: the language has no way to keep the driver from assigning it. No driver method does; they only call `WriteBlocking` and `ReadBlocking`, which extend it.
