/**
  The fixed part of the BH1750 ambient-light sensor protocol: the constants
  of the driver, the one-byte command opcodes, the big-endian assembly of the
  sensor's 2-byte measurement and the conversion of a raw count to lux.
  Bytes are `Byte` and the 16-bit measurement is `Word`, integer ranges
  standing for the driver's `uint8_t` and `uint16_t`.
 */
module Bh1750Protocol {

  datatype Option<T> = None | Some(value: T)

  /** An unsigned 8-bit value (`uint8_t`). */
  type Byte = b: int | 0 <= b < 256

  /** An unsigned 16-bit value (`uint16_t`). */
  type Word = w: int | 0 <= w < 65536

  /** Bus clock handed to the bus initialisation, in Hz (fast-mode I2C). */
  const BusFrequencyHz: nat := 400000
  /** 7-bit bus address of the sensor when none is given. */
  const DefaultAddress: Byte := 0x23
  /** Wait before every measurement read, in milliseconds. */
  const ConversionDelayMs: nat := 180
  /** Settle time after the power-on command, in milliseconds. */
  const PowerOnDelayMs: nat := 10
  /** Number of bytes of one measurement on the wire. */
  const MeasurementLength: nat := 2
  /** Datasheet divisor from raw count to lux. */
  const LuxFactor: real := 1.2
  /** The value the driver returns instead of a reading when it fails. */
  const InvalidLux: real := -1.0

  /** The commands the driver knows; each is sent as a single byte. */
  datatype Command = PowerDown | PowerOn | Reset | ContinuousHighRes

  /** The byte that is put on the bus for a command. */
  function Opcode(c: Command): (b: Byte)
    ensures CommandOf(b) == Some(c)
  {
    match c
    case PowerDown => 0x00
    case PowerOn => 0x01
    case Reset => 0x07
    case ContinuousHighRes => 0x10
  }

  /** The command a byte stands for, if any: the inverse of Opcode. */
  function CommandOf(b: Byte): (c: Option<Command>)
  {
    if b == 0x00 then Some(PowerDown)
    else if b == 0x01 then Some(PowerOn)
    else if b == 0x07 then Some(Reset)
    else if b == 0x10 then Some(ContinuousHighRes)
    else None
  }

  /** Every byte that names a command is that command's opcode. */
  lemma OpcodeOfCommandOf(b: Byte)
    ensures CommandOf(b).Some? ==> Opcode(CommandOf(b).value) == b
    ensures CommandOf(b).None? ==> forall c: Command :: Opcode(c) != b
  {
    if CommandOf(b).None? {
      forall c: Command ensures Opcode(c) != b {
        assert CommandOf(Opcode(c)) == Some(c);
      }
    }
  }

  /** The four opcodes are pairwise distinct. */
  lemma OpcodesDistinct(c1: Command, c2: Command)
    ensures Opcode(c1) == Opcode(c2) <==> c1 == c2
  {
    assert CommandOf(Opcode(c1)) == Some(c1);
    assert CommandOf(Opcode(c2)) == Some(c2);
  }

  /** 2 to the power k. */
  function Pow2(k: nat): nat
  {
    if k == 0 then 1 else 2 * Pow2(k - 1)
  }

  /** `x << k` on unbounded non-negative integers. */
  function ShiftLeft(x: nat, k: nat): nat
  {
    x * Pow2(k)
  }

  /** Bitwise or of two non-negative integers, bit by bit from the lowest. */
  function BitOr(a: nat, b: nat): nat
    decreases a + b
  {
    if a == 0 then b
    else if b == 0 then a
    else 2 * BitOr(a / 2, b / 2) + (if a % 2 == 1 || b % 2 == 1 then 1 else 0)
  }

  /** Or-ing a value shifted left by k with one below 2^k is addition: the
      two have no bit in common. */
  lemma {:induction false} BitOrDisjoint(a: nat, lo: nat, k: nat)
    requires lo < Pow2(k)
    ensures BitOr(ShiftLeft(a, k), lo) == ShiftLeft(a, k) + lo
    decreases k
  {
    var x := ShiftLeft(a, k);
    if k == 0 || a == 0 || lo == 0 {
      assert k == 0 ==> lo == 0;
      assert a == 0 ==> x == 0;
    } else {
      var y := ShiftLeft(a, k - 1);
      assert x == 2 * y by {
        assert Pow2(k) == 2 * Pow2(k - 1);
      }
      assert x > 0;
      assert x / 2 == y && x % 2 == 0;
      BitOrDisjoint(a, lo / 2, k - 1);
      assert BitOr(x, lo) == 2 * BitOr(y, lo / 2) + lo % 2;
    }
  }

  /** The 16-bit measurement from the two bytes read, high byte first:
      the first byte shifted left by eight and truncated to 16 bits, or'ed
      with the second, the result again kept to 16 bits. */
  function Assemble(hi: Byte, lo: Byte): (raw: Word)
    ensures raw == hi * 256 + lo
  {
    ShiftByte(hi);
    BitOrDisjoint(hi, lo, 8);
    BitOr(ShiftLeft(hi, 8) % 65536, lo) % 65536
  }

  /** A byte shifted left by eight is the byte times 256, and still fits in
      16 bits. */
  lemma ShiftByte(b: Byte)
    ensures ShiftLeft(b, 8) == b * 256
    ensures ShiftLeft(b, 8) % 65536 == ShiftLeft(b, 8)
  {
    assert Pow2(8) == 256 by {
      assert Pow2(1) == 2 && Pow2(2) == 4 && Pow2(3) == 8 && Pow2(4) == 16;
      assert Pow2(5) == 32 && Pow2(6) == 64 && Pow2(7) == 128;
    }
    assert b * 256 < 65536;
  }

  /** The byte a measurement is sent with first. */
  function HighByte(raw: Word): Byte
  {
    raw / 256
  }

  /** The byte a measurement is sent with second. */
  function LowByte(raw: Word): Byte
  {
    raw % 256
  }

  /** Splitting an assembled measurement gives back the two bytes read. */
  lemma SplitAssemble(hi: Byte, lo: Byte)
    ensures HighByte(Assemble(hi, lo)) == hi && LowByte(Assemble(hi, lo)) == lo
  {
  }

  /** Every 16-bit value is the assembly of its own two bytes, so the
      decoding misses no measurement. */
  lemma AssembleSplit(raw: Word)
    ensures Assemble(HighByte(raw), LowByte(raw)) == raw
  {
  }

  /** Assembly is injective: two different byte pairs never decode alike. */
  lemma AssembleInjective(hi1: Byte, lo1: Byte, hi2: Byte, lo2: Byte)
    ensures Assemble(hi1, lo1) == Assemble(hi2, lo2) <==> hi1 == hi2 && lo1 == lo2
  {
    SplitAssemble(hi1, lo1);
    SplitAssemble(hi2, lo2);
  }

  /** Outcome of one measurement: failed, or a raw 16-bit count. */
  datatype Reading = Invalid | Ok(raw: Word)

  /** Illuminance of a raw count in lux, with exact real division. */
  ghost function Lux(raw: Word): (lux: real)
    ensures lux >= 0.0
    ensures lux * LuxFactor == raw as real
  {
    raw as real / LuxFactor
  }

  /** The value the public read operation returns for an outcome. */
  ghost function LuxValue(r: Reading): (lux: real)
    ensures r.Invalid? <==> lux == InvalidLux
    ensures r.Ok? ==> lux == Lux(r.raw)
  {
    match r
    case Invalid => InvalidLux
    case Ok(raw) => Lux(raw)
  }

  /** A larger raw count never gives less light. */
  lemma LuxMonotone(a: Word, b: Word)
    requires a <= b
    ensures Lux(a) <= Lux(b)
  {
  }

  /** No successful reading can be mistaken for the sentinel. */
  lemma ReadingDistinctFromSentinel(raw: Word)
    ensures Lux(raw) != InvalidLux && InvalidLux < 0.0
  {
  }

  /** The bytes 0x01 0x90 decode to 400, that is 1000/3 lux. */
  lemma ExampleMeasurement()
    ensures Assemble(0x01, 0x90) == 400
    ensures LuxValue(Ok(Assemble(0x01, 0x90))) == 1000.0 / 3.0
  {
  }
}
