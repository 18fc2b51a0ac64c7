/**
  The BH1750 driver object. Its bus reference, pins and address never
  change after construction; the readiness flag is its only mutable state.
  The ghost `trace` records, in order, every interaction with the hardware
  and the host's delay service. `Initialize`, `ReadRaw` and
  `ReadIlluminance` are proved against `InitAttempt`, `RawRead` and
  `ReadAttempt` of module Bh1750Spec; `ConfigurePins` and `SendCommand`
  state their effect on the trace directly.
 */
module Bh1750Driver {
  import opened Bh1750Protocol
  import opened Bh1750Spec

  /** The I2C peripheral, seen from the driver: a blocking transfer may
      report any byte count (a negative one on a bus error), and a read
      may leave any bytes in the buffer. The ghost `log` is the bus's own
      record of every transfer, with the count it reported and, for a read,
      the bytes it left behind. */
  class I2cBus {
    ghost var log: seq<Event>

    constructor ()
      ensures log == []
    {
      log := [];
    }

    /** Writes one byte to the device, without keeping the bus. */
    method WriteBlocking(address: Byte, data: Byte) returns (count: int)
      modifies this
      ensures log == old(log) + [Write(address, data, count)]
    {
      count := *;
      log := log + [Write(address, data, count)];
    }

    /** Reads `buffer.Length` bytes from the device into `buffer`. */
    method ReadBlocking(address: Byte, buffer: array<Byte>) returns (count: int)
      modifies this, buffer
      ensures log == old(log) + [Read(address, buffer.Length, count, buffer[..])]
    {
      count := *;
      log := log + [Read(address, buffer.Length, count, buffer[..])];
    }
  }

  class Bh1750 {
    const bus: I2cBus?
    const sda: Byte
    const scl: Byte
    const address: Byte
    var initialized: bool
    ghost var trace: seq<Event>

    /** The configuration the specification functions are stated over. */
    ghost function Cfg(): Config
    {
      Config(bus != null, sda, scl, address)
    }

    /** The flag is set exactly when the trace holds an acknowledged
        mode-select write, which only a complete initialisation emits; the
        power-down opcode was never sent. */
    ghost predicate Valid()
      reads this
    {
      Consistent(address, initialized, trace) && (initialized ==> bus != null)
    }

    /** Stores the configuration as given; no hardware is touched. */
    constructor (bus: I2cBus?, sda: Byte, scl: Byte, address: Byte := DefaultAddress)
      ensures Valid()
      ensures this.bus == bus && this.sda == sda && this.scl == scl && this.address == address
      ensures !initialized && trace == []
    {
      this.bus := bus;
      this.sda := sda;
      this.scl := scl;
      this.address := address;
      initialized := false;
      trace := [];
    }

    /** Puts both pins to the bus function with pull-ups; fails without a bus. */
    method ConfigurePins() returns (ok: bool)
      modifies this`trace
      ensures ok <==> bus != null
      ensures trace == old(trace) + (if ok then [PinSetup(sda, scl)] else [])
    {
      if bus == null {
        return false;
      }
      trace := trace + [PinSetup(sda, scl)];
      ok := true;
    }

    /** Writes one command byte; succeeds only if the bus reports exactly
        one byte written. The ghost `count` is the count the bus reported,
        as its own log shows. */
    method SendCommand(c: Command) returns (ok: bool, ghost count: int)
      modifies this`trace, bus
      ensures bus == null ==> !ok && trace == old(trace)
      ensures bus != null ==>
        trace == old(trace) + [Write(address, Opcode(c), count)] && ok == (count == 1) &&
        bus.log == old(bus.log) + [Write(address, Opcode(c), count)]
    {
      if bus == null {
        return false, 0;
      }
      var n := bus.WriteBlocking(address, Opcode(c));
      count := n;
      trace := trace + [Write(address, Opcode(c), n)];
      ok := n == 1;
    }

    /** Brings the sensor into continuous high-resolution mode, unless it
        is there already. */
    method Initialize() returns (ok: bool)
      requires Valid()
      modifies this`initialized, this`trace, bus
      ensures Valid()
      ensures initialized <==> old(initialized) || ok
      ensures exists r: InitReplies ::
        trace == old(trace) + InitAttempt(Cfg(), old(initialized), r).events &&
        ok == InitAttempt(Cfg(), old(initialized), r).ok &&
        (bus != null ==> bus.log == old(bus.log) + Transfers(InitAttempt(Cfg(), old(initialized), r).events))
      ensures old(initialized) ==> ok && trace == old(trace)
    {
      ghost var cfg, t0 := Cfg(), trace;
      if initialized {
        assert InitAttempt(cfg, true, InitReplies(1, 1, 1)).events == [];
        assert Transfers([]) == [];
        return true;
      }
      if bus == null {
        assert InitAttempt(cfg, false, InitReplies(1, 1, 1)).events == [];
        return false;
      }
      trace := trace + [Init(BusFrequencyHz)];
      var pinsOk := ConfigurePins();
      if !pinsOk {
        return false;
      }
      ghost var setUp := [Init(BusFrequencyHz), PinSetup(sda, scl)];
      assert trace == t0 + setUp;
      ghost var log0 := bus.log;
      assert log0 == old(bus.log);

      // each command is sent only if the one before it was acknowledged
      var sent;
      ghost var n1;
      sent, n1 := SendCommand(PowerOn);
      ghost var r := InitReplies(n1, 1, 1);
      if !sent {
        assert trace == t0 + InitAttempt(cfg, false, r).events;
        InitTransfers(cfg, r);
        assert bus.log == log0 + Transfers(InitAttempt(cfg, false, r).events);
      } else {
        ghost var t1, log1 := trace, bus.log;
        trace := trace + [Sleep(PowerOnDelayMs)];
        ghost var n2;
        sent, n2 := SendCommand(Reset);
        r := InitReplies(1, n2, 1);
        if !sent {
          assert trace == t0 + InitAttempt(cfg, false, r).events;
          InitTransfers(cfg, r);
          assert bus.log == log0 + Transfers(InitAttempt(cfg, false, r).events);
        } else {
          ghost var t2, log2 := trace, bus.log;
          ghost var n3;
          sent, n3 := SendCommand(ContinuousHighRes);
          r := InitReplies(1, 1, n3);
          assert trace == t0 + InitAttempt(cfg, false, r).events;
          InitTransfers(cfg, r);
          assert bus.log == log0 + Transfers(InitAttempt(cfg, false, r).events);
        }
      }
      InitKeepsConsistent(cfg, false, t0, r);
      initialized := sent;
      ok := sent;
    }

    /** The internal raw read: wait for a conversion, then read the two
        measurement bytes, high byte first. Never changes the flag. */
    method ReadRaw() returns (reading: Reading)
      modifies this`trace, bus
      ensures exists r: ReadReply ::
        trace == old(trace) + RawRead(Cfg(), r).events && reading == RawRead(Cfg(), r).reading &&
        (bus != null ==> bus.log == old(bus.log) + Transfers(RawRead(Cfg(), r).events))
    {
      if bus == null {
        assert RawRead(Cfg(), ReadReply(0, 0, 0)).events == [];
        return Invalid;
      }
      trace := trace + [Sleep(ConversionDelayMs)];
      var buffer := new Byte[MeasurementLength](_ => 0);
      var count := bus.ReadBlocking(address, buffer);
      trace := trace + [Read(address, MeasurementLength, count, buffer[..])];
      assert buffer[..] == [buffer[0], buffer[1]];
      ghost var r := ReadReply(count, buffer[0], buffer[1]);
      RawReadTransfers(Cfg(), r);
      if count != 2 {
        assert RawRead(Cfg(), r).reading == Invalid;
        return Invalid;
      }
      reading := Ok(Assemble(buffer[0], buffer[1]));
      assert RawRead(Cfg(), r).reading == reading;
    }

    /** Reads the illuminance; the value returned to the host is
        `LuxValue(reading)`: lux, or the sentinel -1 on any failure. */
    method ReadIlluminance() returns (reading: Reading)
      requires Valid()
      modifies this`trace, bus
      ensures Valid()
      ensures exists r: ReadReply ::
        trace == old(trace) + ReadAttempt(Cfg(), initialized, r).events &&
        reading == ReadAttempt(Cfg(), initialized, r).reading &&
        (bus != null ==> bus.log == old(bus.log) + Transfers(ReadAttempt(Cfg(), initialized, r).events))
      ensures !initialized ==> reading == Invalid && trace == old(trace)
    {
      if !initialized {
        assert ReadAttempt(Cfg(), false, ReadReply(0, 0, 0)).events == [];
        assert Transfers([]) == [];
        return Invalid;
      }
      reading := ReadRaw();
      ghost var r: ReadReply :|
        trace == old(trace) + RawRead(Cfg(), r).events && reading == RawRead(Cfg(), r).reading &&
        (bus != null ==> bus.log == old(bus.log) + Transfers(RawRead(Cfg(), r).events));
      assert ReadAttempt(Cfg(), true, r) == RawRead(Cfg(), r);
      ReadKeepsConsistent(Cfg(), true, old(trace), r);
    }
  }

  /** A read on a fresh instance gives the invalid result, whatever the bus. */
  method ReadBeforeInitialize(bus: I2cBus?, sda: Byte, scl: Byte) returns (reading: Reading)
    modifies bus
    ensures reading == Invalid && LuxValue(reading) == InvalidLux
    ensures bus != null ==> bus.log == old(bus.log)
  {
    var sensor := new Bh1750(bus, sda, scl);
    reading := sensor.ReadIlluminance();
  }

  /** Without a bus, initialisation fails and touches nothing. */
  method InitializeWithoutBus(sda: Byte, scl: Byte, address: Byte) returns (ok: bool, ghost events: seq<Event>)
    ensures !ok && events == []
  {
    var sensor := new Bh1750(null, sda, scl, address);
    ok := sensor.Initialize();
    events := sensor.trace;
  }

  /** A second initialisation after a successful one succeeds at once and
      emits nothing: neither the driver's trace nor the bus's record grows. */
  method InitializeAgain(bus: I2cBus, sda: Byte, scl: Byte)
    returns (first: bool, second: bool, ghost between: seq<Event>, ghost after: seq<Event>,
             ghost logBetween: seq<Event>, ghost logAfter: seq<Event>)
    modifies bus
    ensures first ==> second && after == between && logAfter == logBetween
  {
    var sensor := new Bh1750(bus, sda, scl);
    first := sensor.Initialize();
    between, logBetween := sensor.trace, bus.log;
    second := sensor.Initialize();
    after, logAfter := sensor.trace, bus.log;
  }
}
