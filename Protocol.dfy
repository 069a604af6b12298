/**
  The bit stream a latched shift register channel emits, as pure functions:
  clamping, the bits taken from one byte and from a buffer, the pulses of a
  transmission or a clear, and the pin writes each pulse becomes.
 */
module ShiftProtocol {
  import opened Arduino

  /** The longest chain a channel drives. */
  const MaximumSerialBits := 1024

  const BitsInByte := 8

  type Byte = bv8

  /** The three pins of the serial interface. */
  datatype SerialCommunicationPins =
    SerialCommunicationPins(serialClockPin: int, serialDataPin: int, latchClockPin: int)

  /**
    `clampValue`: the value is first lowered to the maximum, then raised to the
    minimum, so when the bounds cross the minimum wins.
   */
  function Clamp(value: int, minimumValue: int, maximumValue: int): (r: int)
    ensures minimumValue <= maximumValue ==> minimumValue <= r <= maximumValue
    ensures minimumValue <= value <= maximumValue ==> r == value
    ensures minimumValue <= maximumValue < value ==> r == maximumValue
    ensures value < minimumValue ==> r == minimumValue
    ensures maximumValue < minimumValue ==> r == minimumValue
  {
    var clampedValue := if value > maximumValue then maximumValue else value;
    if clampedValue < minimumValue then minimumValue else clampedValue
  }

  // ---------------------------------------------------------------------------
  // Bits of one byte

  /** Bit `j` of `b`, bit 0 being the least significant. */
  function Bit(b: Byte, j: nat): bool
    requires j < BitsInByte
  {
    (b >> j) & 1 == 1
  }

  /**
    The bits read from `b` by testing `& 1` and shifting right by one,
    `count` times.
   */
  function LowBits(b: Byte, count: nat): (r: seq<bool>)
    ensures |r| == count
  {
    if count == 0 then [] else [b & 1 == 1] + LowBits(b >> 1, count - 1)
  }

  /** One step of the read loop: the low bit, then the byte shifted right by one. */
  lemma LowBitsStep(b: Byte, count: nat)
    requires count > 0
    ensures LowBits(b, count)[0] == ((b & 1) == 1)
    ensures LowBits(b, count)[1..] == LowBits(b >> 1, count - 1)
  {
  }

  lemma ShiftedBit(b: Byte, j: nat)
    requires 0 < j < BitsInByte
    ensures Bit(b >> 1, j - 1) == Bit(b, j)
  {
  }

  /** `& 1` and `>> 1` on a byte are the remainder and quotient of halving it. */
  lemma HalveByte(b: Byte)
    ensures ((b & 1) == 1) == (b as int % 2 == 1)
    ensures (b >> 1) as int == b as int / 2
  {
  }

  /** The `j`-th bit read from a byte is bit `j` of it: least significant bit first. */
  lemma {:induction false} LowBitsAt(b: Byte, count: nat, j: nat)
    requires j < count <= BitsInByte
    ensures LowBits(b, count)[j] == Bit(b, j)
  {
    if j > 0 {
      LowBitsStep(b, count);
      LowBitsAt(b >> 1, count - 1, j - 1);
      ShiftedBit(b, j);
    }
  }

  /** Reading fewer bits reads a prefix: a partial byte sends only its low-order bits. */
  lemma {:induction false} LowBitsPrefix(b: Byte, k: nat, count: nat)
    requires k <= count
    ensures LowBits(b, k) == LowBits(b, count)[..k]
  {
    if k > 0 {
      LowBitsPrefix(b >> 1, k - 1, count - 1);
    }
  }

  function Pow2(k: nat): (r: nat)
    ensures r > 0
  {
    if k == 0 then 1 else 2 * Pow2(k - 1)
  }

  /** The number a bit sequence denotes when its first bit is the least significant. */
  function PackLsb(bits: seq<bool>): (r: nat)
    ensures r < Pow2(|bits|)
  {
    if bits == [] then 0 else (if bits[0] then 1 else 0) + 2 * PackLsb(bits[1..])
  }

  lemma {:induction false} LowBitsValue(b: Byte, count: nat)
    requires count <= BitsInByte && (b as int) < Pow2(count)
    ensures PackLsb(LowBits(b, count)) == b as int
  {
    if count > 0 {
      LowBitsStep(b, count);
      HalveByte(b);
      LowBitsValue(b >> 1, count - 1);
    }
  }

  /** The eight bits sent for a whole byte, read back least significant first, give the byte. */
  lemma ByteRoundTrip(b: Byte)
    ensures PackLsb(LowBits(b, BitsInByte)) == b as int
  {
    assert Pow2(BitsInByte) == 256;
    LowBitsValue(b, BitsInByte);
  }

  // ---------------------------------------------------------------------------
  // Bits of a buffer

  /** The bits of whole bytes, in buffer order, each byte least significant bit first. */
  function BytesBits(s: seq<Byte>): (r: seq<bool>)
    ensures |r| == BitsInByte * |s|
  {
    if s == [] then [] else LowBits(s[0], BitsInByte) + BytesBits(s[1..])
  }

  /** The number of bytes that hold `bits` bits: the bytes a transmission may read. */
  function BytesFor(bits: nat): nat
  {
    (bits + BitsInByte - 1) / BitsInByte
  }

  /**
    `sendBitsOneByteAtATime`: the whole bytes first, then, if the count is not a
    multiple of eight, the low bits of the next byte.
   */
  function BufferBits(buffer: seq<Byte>, bitCount: nat): (r: seq<bool>)
    requires BytesFor(bitCount) <= |buffer|
    ensures |r| == bitCount
  {
    var bytesToSend := bitCount / BitsInByte;
    var bitsLeft := bitCount % BitsInByte;
    BytesBits(buffer[..bytesToSend])
      + (if bitsLeft > 0 then LowBits(buffer[bytesToSend], bitsLeft) else [])
  }

  lemma {:induction false} BytesBitsAppend(s: seq<Byte>, t: seq<Byte>)
    ensures BytesBits(s + t) == BytesBits(s) + BytesBits(t)
  {
    if s != [] {
      assert (s + t)[0] == s[0] && (s + t)[1..] == s[1..] + t;
      BytesBitsAppend(s[1..], t);
    } else {
      assert s + t == t;
    }
  }

  lemma ByteIndex(k: nat, q: nat)
    requires BitsInByte * q <= k < BitsInByte * q + BitsInByte
    ensures k / BitsInByte == q && k % BitsInByte == k - BitsInByte * q
  {
  }

  lemma {:induction false} BytesBitsAt(s: seq<Byte>, k: nat)
    requires k < BitsInByte * |s|
    ensures BytesBits(s)[k] == Bit(s[k / BitsInByte], k % BitsInByte)
  {
    var rest := BytesBits(s[1..]);
    assert BytesBits(s) == LowBits(s[0], BitsInByte) + rest;
    if k < BitsInByte {
      ByteIndex(k, 0);
      LowBitsAt(s[0], BitsInByte, k);
    } else {
      BytesBitsAt(s[1..], k - BitsInByte);
      ByteIndex(k - BitsInByte, (k - BitsInByte) / BitsInByte);
      ByteIndex(k, (k - BitsInByte) / BitsInByte + 1);
    }
  }

  /** Bit `k` of the stream is bit `k % 8` of byte `k / 8`. */
  lemma BufferBitsAt(buffer: seq<Byte>, bitCount: nat, k: nat)
    requires BytesFor(bitCount) <= |buffer| && k < bitCount
    ensures BufferBits(buffer, bitCount)[k] == Bit(buffer[k / BitsInByte], k % BitsInByte)
  {
    var whole := bitCount / BitsInByte;
    var left := bitCount % BitsInByte;
    var bits := BytesBits(buffer[..whole]);
    if k < BitsInByte * whole {
      assert BufferBits(buffer, bitCount)[k] == bits[k];
      BytesBitsAt(buffer[..whole], k);
    } else {
      assert left > 0;
      assert BufferBits(buffer, bitCount) == bits + LowBits(buffer[whole], left);
      ByteIndex(k, whole);
      LowBitsAt(buffer[whole], left, k - BitsInByte * whole);
    }
  }

  /** Bytes at index `BytesFor(bitCount)` and beyond are never read. */
  lemma BufferBitsReadsOnlyNeededBytes(buffer: seq<Byte>, other: seq<Byte>, bitCount: nat)
    requires BytesFor(bitCount) <= |buffer| && BytesFor(bitCount) <= |other|
    requires buffer[..BytesFor(bitCount)] == other[..BytesFor(bitCount)]
    ensures BufferBits(buffer, bitCount) == BufferBits(other, bitCount)
  {
    var whole := bitCount / BitsInByte;
    assert buffer[..whole] == buffer[..BytesFor(bitCount)][..whole];
    assert other[..whole] == other[..BytesFor(bitCount)][..whole];
    if bitCount % BitsInByte > 0 {
      assert buffer[whole] == buffer[..BytesFor(bitCount)][whole];
      assert other[whole] == other[..BytesFor(bitCount)][whole];
    }
  }

  /** Groups a stream into bytes, eight bits each, least significant first. */
  function Unpack(bits: seq<bool>): (r: seq<Byte>)
    ensures |r| == |bits| / BitsInByte
  {
    if |bits| < BitsInByte then []
    else
      assert Pow2(BitsInByte) == 256;
      [PackLsb(bits[..BitsInByte]) as Byte] + Unpack(bits[BitsInByte..])
  }

  lemma {:induction false} UnpackBytesBits(s: seq<Byte>)
    ensures Unpack(BytesBits(s)) == s
  {
    if s != [] {
      var bits := BytesBits(s);
      assert bits[..BitsInByte] == LowBits(s[0], BitsInByte);
      assert bits[BitsInByte..] == BytesBits(s[1..]);
      ByteRoundTrip(s[0]);
      UnpackBytesBits(s[1..]);
    }
  }

  /** Sending `8 * m` bits sends the first `m` bytes, and they can be read back unchanged. */
  lemma BufferBitsRoundTrip(buffer: seq<Byte>, m: nat)
    requires m <= |buffer|
    ensures Unpack(BufferBits(buffer, BitsInByte * m)) == buffer[..m]
  {
    assert BufferBits(buffer, BitsInByte * m) == BytesBits(buffer[..m]);
    UnpackBytesBits(buffer[..m]);
  }

  // ---------------------------------------------------------------------------
  // Pulses

  /** One clocked bit, or one latch pulse. */
  datatype Pulse = Shift(bit: bool) | Latch

  function Shifts(bits: seq<bool>): (r: seq<Pulse>)
    ensures |r| == |bits|
    ensures forall i :: 0 <= i < |bits| ==> r[i] == Shift(bits[i])
  {
    seq(|bits|, i requires 0 <= i < |bits| => Shift(bits[i]))
  }

  /** `count` zero bits; nothing when `count` is not positive. */
  function Padding(count: int): (r: seq<bool>)
    ensures |r| == if count > 0 then count else 0
    ensures forall i :: 0 <= i < |r| ==> !r[i]
  {
    seq(if count > 0 then count else 0, _ => false)
  }

  /**
    `transmit(buffer, transmissionSizeInBits)` on a channel with `active`
    active outputs: the clamped data bits, zero padding up to `active`, a latch.
   */
  function TransmitPulses(buffer: seq<Byte>, transmissionSizeInBits: int, active: nat): seq<Pulse>
    requires BytesFor(Clamp(transmissionSizeInBits, 0, active)) <= |buffer|
  {
    var bitsToSend := Clamp(transmissionSizeInBits, 0, active);
    Shifts(BufferBits(buffer, bitsToSend)) + Shifts(Padding(active - bitsToSend)) + [Latch]
  }

  /** `clearShiftRegister` on a chain of `total` outputs. */
  function ClearPulses(total: nat): seq<Pulse>
  {
    Shifts(Padding(total)) + [Latch]
  }

  /** A transmission shifts exactly `active` bits and then latches exactly once. */
  lemma TransmitShape(buffer: seq<Byte>, transmissionSizeInBits: int, active: nat)
    requires BytesFor(Clamp(transmissionSizeInBits, 0, active)) <= |buffer|
    ensures |TransmitPulses(buffer, transmissionSizeInBits, active)| == active + 1
    ensures forall i :: 0 <= i < active ==> TransmitPulses(buffer, transmissionSizeInBits, active)[i].Shift?
    ensures TransmitPulses(buffer, transmissionSizeInBits, active)[active] == Latch
  {
  }

  /** The first `clamp(n, 0, active)` shifts carry the buffer's bits, bytes in order, LSB first. */
  lemma TransmitDataBits(buffer: seq<Byte>, transmissionSizeInBits: int, active: nat, k: nat)
    requires BytesFor(Clamp(transmissionSizeInBits, 0, active)) <= |buffer|
    requires k < Clamp(transmissionSizeInBits, 0, active)
    ensures TransmitPulses(buffer, transmissionSizeInBits, active)[k]
            == Shift(Bit(buffer[k / BitsInByte], k % BitsInByte))
  {
    BufferBitsAt(buffer, Clamp(transmissionSizeInBits, 0, active), k);
  }

  /** The remaining `active - clamp(n, 0, active)` shifts are zeros. */
  lemma TransmitPaddingBits(buffer: seq<Byte>, transmissionSizeInBits: int, active: nat, k: nat)
    requires BytesFor(Clamp(transmissionSizeInBits, 0, active)) <= |buffer|
    requires Clamp(transmissionSizeInBits, 0, active) <= k < active
    ensures TransmitPulses(buffer, transmissionSizeInBits, active)[k] == Shift(false)
  {
  }

  /** Bytes past those holding the data bits do not influence a transmission. */
  lemma TransmitReadsOnlyNeededBytes(buffer: seq<Byte>, other: seq<Byte>, transmissionSizeInBits: int, active: nat)
    requires BytesFor(Clamp(transmissionSizeInBits, 0, active)) <= |buffer|
    requires BytesFor(Clamp(transmissionSizeInBits, 0, active)) <= |other|
    requires buffer[..BytesFor(Clamp(transmissionSizeInBits, 0, active))]
             == other[..BytesFor(Clamp(transmissionSizeInBits, 0, active))]
    ensures TransmitPulses(buffer, transmissionSizeInBits, active)
            == TransmitPulses(other, transmissionSizeInBits, active)
  {
    BufferBitsReadsOnlyNeededBytes(buffer, other, Clamp(transmissionSizeInBits, 0, active));
  }

  /** With no active outputs a transmission is a lone latch. */
  lemma TransmitNothingActive(buffer: seq<Byte>, transmissionSizeInBits: int)
    ensures TransmitPulses(buffer, transmissionSizeInBits, 0) == [Latch]
  {
  }

  /** A clear is a transmission of no data bits over the whole chain. */
  lemma ClearIsEmptyTransmission(buffer: seq<Byte>, total: nat)
    ensures ClearPulses(total) == TransmitPulses(buffer, 0, total)
  {
  }

  /** Byte 5 sent with a count of 3 gives 1, 0, 1. */
  lemma ByteFiveExample()
    ensures LowBits(5, 3) == [true, false, true]
  {
  }

  /** Twelve bits of `[0xFF, 0x0F]` on twelve outputs: twelve ones, no padding, a latch. */
  lemma TwelveOnesExample()
    ensures TransmitPulses([0xFF, 0x0F], 12, 12) == Shifts(seq(12, _ => true)) + [Latch]
  {
    var bits := BufferBits([0xFF, 0x0F], 12);
    forall k | 0 <= k < 12 ensures bits[k] {
      BufferBitsAt([0xFF, 0x0F], 12, k);
    }
    assert bits == seq(12, _ => true);
  }

  /** Two bits of `[0b11]` on six outputs: 1, 1, four zeros, a latch. */
  lemma TwoOnesPaddedExample()
    ensures TransmitPulses([3], 2, 6) == Shifts([true, true, false, false, false, false]) + [Latch]
  {
    assert BufferBits([3], 2) == [true, true];
  }

  // ---------------------------------------------------------------------------
  // Pin writes

  /**
    `sendASingleBit`: data pin to the bit's level, clock pin high then low.
    `latch`: latch pin high then low.
   */
  function PulseWrites(pins: SerialCommunicationPins, p: Pulse): seq<Event>
  {
    match p
    case Shift(bit) =>
      [Write(pins.serialDataPin, LevelOf(bit)),
       Write(pins.serialClockPin, High),
       Write(pins.serialClockPin, Low)]
    case Latch =>
      [Write(pins.latchClockPin, High), Write(pins.latchClockPin, Low)]
  }

  /** The pin writes a sequence of pulses becomes. */
  function Signals(pins: SerialCommunicationPins, pulses: seq<Pulse>): seq<Event>
  {
    if pulses == [] then [] else PulseWrites(pins, pulses[0]) + Signals(pins, pulses[1..])
  }

  lemma {:induction false} SignalsAppend(pins: SerialCommunicationPins, a: seq<Pulse>, b: seq<Pulse>)
    ensures Signals(pins, a + b) == Signals(pins, a) + Signals(pins, b)
  {
    if a != [] {
      assert (a + b)[0] == a[0] && (a + b)[1..] == a[1..] + b;
      SignalsAppend(pins, a[1..], b);
    } else {
      assert a + b == b;
    }
  }

  lemma SignalsShiftsAppend(pins: SerialCommunicationPins, a: seq<bool>, b: seq<bool>)
    ensures Signals(pins, Shifts(a + b)) == Signals(pins, Shifts(a)) + Signals(pins, Shifts(b))
  {
    assert Shifts(a + b) == Shifts(a) + Shifts(b);
    SignalsAppend(pins, Shifts(a), Shifts(b));
  }

  lemma SignalsShiftsSnoc(prefix: seq<Event>, pins: SerialCommunicationPins, a: seq<bool>, bit: bool)
    ensures prefix + Signals(pins, Shifts(a + [bit])) == prefix + Signals(pins, Shifts(a)) + PulseWrites(pins, Shift(bit))
  {
    SignalsShiftsAppend(pins, a, [bit]);
    assert Shifts([bit]) == [Shift(bit)];
    assert Signals(pins, [Shift(bit)]) == PulseWrites(pins, Shift(bit)) + Signals(pins, []);
  }

  /**
    One pass of the `sendBitsFromOneByte` loop: the bit sent is the low bit of
    the remaining byte, and the rest of the bits come from that byte shifted right.
   */
  lemma ByteLoopStep(prefix: seq<Event>, pins: SerialCommunicationPins, bits: seq<bool>, i: nat, remaining: Byte)
    requires i < |bits| && bits[i..] == LowBits(remaining, |bits| - i)
    ensures bits[i] == ((remaining & 1) == 1)
    ensures bits[i + 1..] == LowBits(remaining >> 1, |bits| - (i + 1))
    ensures prefix + Signals(pins, Shifts(bits[..i + 1]))
            == prefix + Signals(pins, Shifts(bits[..i])) + PulseWrites(pins, Shift(bits[i]))
  {
    LowBitsStep(remaining, |bits| - i);
    assert bits[i] == bits[i..][0];
    assert bits[i + 1..] == bits[i..][1..];
    assert bits[..i + 1] == bits[..i] + [bits[i]];
    SignalsShiftsSnoc(prefix, pins, bits[..i], bits[i]);
  }

  /** `prepareCommunicationPins`: all three pins to OUTPUT, then all three LOW. */
  function PrepareSignals(pins: SerialCommunicationPins): seq<Event>
  {
    [SetMode(pins.serialClockPin, Output),
     SetMode(pins.serialDataPin, Output),
     SetMode(pins.latchClockPin, Output),
     Write(pins.serialClockPin, Low),
     Write(pins.serialDataPin, Low),
     Write(pins.latchClockPin, Low)]
  }

  /** `makeCommunicationPinsHighImpedance`: all three pins to INPUT. */
  function ReleaseSignals(pins: SerialCommunicationPins): seq<Event>
  {
    [SetMode(pins.serialClockPin, Input),
     SetMode(pins.serialDataPin, Input),
     SetMode(pins.latchClockPin, Input)]
  }

  /**
    Reads the pulses back from a trace of pin writes: a HIGH then LOW on the
    latch pin is a latch; a write to the data pin followed by HIGH then LOW on
    the clock pin is a shift of the written level.
   */
  function Recover(pins: SerialCommunicationPins, events: seq<Event>): seq<Pulse>
  {
    if |events| >= 2 && events[0] == Write(pins.latchClockPin, High)
       && events[1] == Write(pins.latchClockPin, Low)
    then [Latch] + Recover(pins, events[2..])
    else if |events| >= 3 && events[0].Write? && events[0].pin == pins.serialDataPin
       && events[1] == Write(pins.serialClockPin, High) && events[2] == Write(pins.serialClockPin, Low)
    then [Shift(events[0].level == High)] + Recover(pins, events[3..])
    else []
  }

  /** When the data pin is not the latch pin, the pin writes determine the pulses. */
  lemma {:induction false} RecoverSignals(pins: SerialCommunicationPins, pulses: seq<Pulse>)
    requires pins.serialDataPin != pins.latchClockPin
    ensures Recover(pins, Signals(pins, pulses)) == pulses
  {
    if pulses != [] {
      var events := Signals(pins, pulses);
      var head := PulseWrites(pins, pulses[0]);
      assert events[..|head|] == head;
      assert events[|head|..] == Signals(pins, pulses[1..]);
      RecoverSignals(pins, pulses[1..]);
    }
  }
}
