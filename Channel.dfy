/**
  `LatchedShiftRegisterChannel`: drives a chain of latched shift registers
  through a serial data pin, a serial clock pin and a latch clock pin.

  The pins are driven through a `Board`, whose trace records every primitive
  call. A C++ `const` member function becomes a method that may modify the
  board and nothing of the channel.
 */
module LatchedShiftRegister {
  import opened Arduino
  import opened ShiftProtocol

  class Channel {
    /** The host board the pin primitives act on. */
    const board: Board

    var communicationPins: SerialCommunicationPins
    var activeOutputs: int
    var totalOutputs: int

    /** False once the channel has been destroyed. */
    ghost var live: bool

    ghost predicate Valid()
      reads this
    {
      live && 0 <= activeOutputs <= totalOutputs <= MaximumSerialBits
    }

    /**
      Clamps the chain length, makes all outputs active, claims the pins as
      outputs driven low and clears the whole chain.
     */
    constructor (board: Board, pins: SerialCommunicationPins, numberOfShiftRegisterBits: int)
      modifies board
      ensures Valid()
      ensures this.board == board && communicationPins == pins
      ensures totalOutputs == Clamp(numberOfShiftRegisterBits, 0, MaximumSerialBits)
      ensures activeOutputs == totalOutputs
      ensures board.trace
              == old(board.trace) + PrepareSignals(pins) + Signals(pins, ClearPulses(totalOutputs))
    {
      this.board := board;
      communicationPins := pins;
      totalOutputs := Clamp(numberOfShiftRegisterBits, 0, MaximumSerialBits);
      activeOutputs := totalOutputs;
      live := true;
      new;
      PrepareCommunicationPins();
      ClearShiftRegister();
    }

    /** The destructor: clears the whole chain, then releases the pins. */
    method Destroy()
      requires Valid()
      modifies this`live, board
      ensures !live
      ensures board.trace
              == old(board.trace) + Signals(communicationPins, ClearPulses(totalOutputs))
                 + ReleaseSignals(communicationPins)
    {
      ClearShiftRegister();
      MakeCommunicationPinsHighImpedance();
      live := false;
    }

    /**
      Sends `clamp(transmissionSizeInBits, 0, activeOutputs)` bits of `buffer`,
      zero padding up to `activeOutputs`, then one latch. The C++ reads the
      buffer without a bounds check; here the caller must supply enough bytes.
     */
    method Transmit(buffer: array<Byte>, transmissionSizeInBits: int)
      requires Valid()
      requires BytesFor(Clamp(transmissionSizeInBits, 0, activeOutputs)) <= buffer.Length
      modifies board
      ensures Valid()
      ensures board.trace
              == old(board.trace)
                 + Signals(communicationPins, TransmitPulses(buffer[..], transmissionSizeInBits, activeOutputs))
    {
      ghost var contents := buffer[..];
      var bitsToSend := Clamp(transmissionSizeInBits, 0, activeOutputs);
      ghost var data := Signals(communicationPins, Shifts(BufferBits(contents, bitsToSend)));
      SendBitsOneByteAtATime(buffer, bitsToSend);
      ghost var afterData := board.trace;
      assert afterData == old(board.trace) + data;
      var paddingBitsToSend := activeOutputs - bitsToSend;
      ghost var padding := Signals(communicationPins, Shifts(Padding(paddingBitsToSend)));
      SendPaddingBits(paddingBitsToSend);
      ghost var afterPadding := board.trace;
      assert afterPadding == afterData + padding;
      Latch();
      assert board.trace == afterPadding + PulseWrites(communicationPins, Pulse.Latch);
      TransmitSignals(old(board.trace), contents, transmissionSizeInBits);
      assert buffer[..] == contents;
    }

    lemma TransmitSignals(prefix: seq<Event>, contents: seq<Byte>, transmissionSizeInBits: int)
      requires 0 <= activeOutputs
      requires BytesFor(Clamp(transmissionSizeInBits, 0, activeOutputs)) <= |contents|
      ensures prefix + Signals(communicationPins, TransmitPulses(contents, transmissionSizeInBits, activeOutputs))
              == prefix + Signals(communicationPins, Shifts(BufferBits(contents, Clamp(transmissionSizeInBits, 0, activeOutputs))))
                 + Signals(communicationPins, Shifts(Padding(activeOutputs - Clamp(transmissionSizeInBits, 0, activeOutputs))))
                 + PulseWrites(communicationPins, Pulse.Latch)
    {
      var bitsToSend := Clamp(transmissionSizeInBits, 0, activeOutputs);
      var data := Shifts(BufferBits(contents, bitsToSend));
      var padding := Shifts(Padding(activeOutputs - bitsToSend));
      var pulses := TransmitPulses(contents, transmissionSizeInBits, activeOutputs);
      assert pulses == data + padding + [Pulse.Latch];
      SignalsAppend(communicationPins, data, padding);
      SignalsAppend(communicationPins, data + padding, [Pulse.Latch]);
      var d, p, l := Signals(communicationPins, data), Signals(communicationPins, padding), Signals(communicationPins, [Pulse.Latch]);
      assert l == PulseWrites(communicationPins, Pulse.Latch);
      assert Signals(communicationPins, pulses) == d + p + l;
      SeqAssoc(prefix, d, p, l);
    }

    /** The only mutator: clamps the new active count to the chain length. */
    method SetNumberOfActiveDigitalOutputs(numberOfActiveShiftRegisterBits: int)
      requires Valid()
      modifies this`activeOutputs
      ensures Valid()
      ensures activeOutputs == Clamp(numberOfActiveShiftRegisterBits, 0, totalOutputs)
      ensures unchanged(board)
    {
      activeOutputs := Clamp(numberOfActiveShiftRegisterBits, 0, totalOutputs);
    }

    method PrepareCommunicationPins()
      modifies board
      ensures board.trace == old(board.trace) + PrepareSignals(communicationPins)
    {
      board.PinMode(communicationPins.serialClockPin, Output);
      board.PinMode(communicationPins.serialDataPin, Output);
      board.PinMode(communicationPins.latchClockPin, Output);
      board.DigitalWrite(communicationPins.serialClockPin, Low);
      board.DigitalWrite(communicationPins.serialDataPin, Low);
      board.DigitalWrite(communicationPins.latchClockPin, Low);
    }

    method MakeCommunicationPinsHighImpedance()
      modifies board
      ensures board.trace == old(board.trace) + ReleaseSignals(communicationPins)
    {
      board.PinMode(communicationPins.serialClockPin, Input);
      board.PinMode(communicationPins.serialDataPin, Input);
      board.PinMode(communicationPins.latchClockPin, Input);
    }

    /** Shifts `totalOutputs` zeros, the whole chain whatever is active, and latches. */
    method ClearShiftRegister()
      requires 0 <= totalOutputs
      modifies board
      ensures board.trace == old(board.trace) + Signals(communicationPins, ClearPulses(totalOutputs))
    {
      var i := 0;
      while i < totalOutputs
        invariant 0 <= i <= totalOutputs
        invariant board.trace == old(board.trace) + Signals(communicationPins, Shifts(Padding(i)))
      {
        SendASingleBit(false);
        assert Padding(i + 1) == Padding(i) + [false];
        SignalsShiftsSnoc(old(board.trace), communicationPins, Padding(i), false);
        i := i + 1;
      }
      Latch();
      SignalsAppend(communicationPins, Shifts(Padding(totalOutputs)), [Pulse.Latch]);
      assert Signals(communicationPins, [Pulse.Latch]) == PulseWrites(communicationPins, Pulse.Latch);
    }

    /** Whole bytes in buffer order, then the low bits of the next byte if any are left. */
    method SendBitsOneByteAtATime(buffer: array<Byte>, numberOfBitsToTransmit: int)
      requires 0 <= numberOfBitsToTransmit && BytesFor(numberOfBitsToTransmit) <= buffer.Length
      modifies board
      ensures board.trace
              == old(board.trace) + Signals(communicationPins, Shifts(BufferBits(buffer[..], numberOfBitsToTransmit)))
    {
      ghost var contents := buffer[..];
      var bytesToSend := numberOfBitsToTransmit / BitsInByte;
      var byteIndex := 0;
      while byteIndex < bytesToSend
        invariant 0 <= byteIndex <= bytesToSend
        invariant board.trace == old(board.trace) + BytesSignals(contents[..byteIndex])
      {
        ghost var before := board.trace;
        SendBitsFromOneByte(buffer[byteIndex], BitsInByte);
        assert board.trace == before + Signals(communicationPins, Shifts(LowBits(contents[byteIndex], BitsInByte)));
        BytesSignalsSnoc(old(board.trace), contents[..byteIndex], contents[byteIndex]);
        assert contents[..byteIndex + 1] == contents[..byteIndex] + [contents[byteIndex]];
        byteIndex := byteIndex + 1;
      }
      var bitsLeft := numberOfBitsToTransmit % BitsInByte;
      ghost var afterBytes := board.trace;
      if bitsLeft > 0 {
        SendBitsFromOneByte(buffer[bytesToSend], bitsLeft);
        assert board.trace == afterBytes + Signals(communicationPins, Shifts(LowBits(contents[bytesToSend], bitsLeft)));
      }
      BufferSignals(old(board.trace), contents, numberOfBitsToTransmit);
      assert buffer[..] == contents;
    }

    /** The pin writes of whole bytes, as the byte loop of `SendBitsOneByteAtATime` emits them. */
    ghost function BytesSignals(s: seq<Byte>): seq<Event>
      reads this
    {
      Signals(communicationPins, Shifts(BytesBits(s)))
    }

    lemma BytesSignalsSnoc(prefix: seq<Event>, s: seq<Byte>, b: Byte)
      ensures prefix + BytesSignals(s + [b])
              == prefix + BytesSignals(s) + Signals(communicationPins, Shifts(LowBits(b, BitsInByte)))
    {
      var bits := LowBits(b, BitsInByte);
      BytesBitsAppend(s, [b]);
      assert BytesBits([b]) == bits + BytesBits([]);
      assert BytesBits(s + [b]) == BytesBits(s) + bits;
      SignalsShiftsAppend(communicationPins, BytesBits(s), bits);
    }

    lemma BufferSignals(prefix: seq<Event>, contents: seq<Byte>, bitCount: nat)
      requires BytesFor(bitCount) <= |contents|
      ensures prefix + Signals(communicationPins, Shifts(BufferBits(contents, bitCount)))
              == prefix + BytesSignals(contents[..bitCount / BitsInByte])
                 + if bitCount % BitsInByte > 0
                   then Signals(communicationPins, Shifts(LowBits(contents[bitCount / BitsInByte], bitCount % BitsInByte)))
                   else []
    {
      var whole := BytesBits(contents[..bitCount / BitsInByte]);
      if bitCount % BitsInByte > 0 {
        SignalsShiftsAppend(communicationPins, whole, LowBits(contents[bitCount / BitsInByte], bitCount % BitsInByte));
      } else {
        assert BufferBits(contents, bitCount) == whole;
      }
    }

    /** Sends the low `clamp(numberOfBitsToTransmit, 0, 8)` bits of a byte, least significant first. */
    method SendBitsFromOneByte(transmissionByte: Byte, numberOfBitsToTransmit: int)
      modifies board
      ensures board.trace
              == old(board.trace)
                 + Signals(communicationPins, Shifts(LowBits(transmissionByte, Clamp(numberOfBitsToTransmit, 0, BitsInByte))))
    {
      var byteToSend := transmissionByte;
      var bitsToSend := Clamp(numberOfBitsToTransmit, 0, BitsInByte);
      ghost var bits := LowBits(transmissionByte, bitsToSend);
      var bitIndex := 0;
      while bitIndex < bitsToSend
        invariant 0 <= bitIndex <= bitsToSend
        invariant bits[bitIndex..] == LowBits(byteToSend, bitsToSend - bitIndex)
        invariant board.trace == old(board.trace) + Signals(communicationPins, Shifts(bits[..bitIndex]))
      {
        ByteLoopStep(old(board.trace), communicationPins, bits, bitIndex, byteToSend);
        ghost var before := board.trace;
        SendASingleBit((byteToSend & 1) == 1);
        assert board.trace == before + PulseWrites(communicationPins, Shift(bits[bitIndex]));
        byteToSend := byteToSend >> 1;
        bitIndex := bitIndex + 1;
      }
      assert bits[..bitIndex] == bits;
    }

    /** Shifts `numberOfBitsToTransmit` zeros; nothing when the count is not positive. */
    method SendPaddingBits(numberOfBitsToTransmit: int)
      modifies board
      ensures board.trace
              == old(board.trace) + Signals(communicationPins, Shifts(Padding(numberOfBitsToTransmit)))
    {
      var i := 0;
      while i < numberOfBitsToTransmit
        invariant 0 <= i <= if numberOfBitsToTransmit > 0 then numberOfBitsToTransmit else 0
        invariant board.trace == old(board.trace) + Signals(communicationPins, Shifts(Padding(i)))
      {
        SendASingleBit(false);
        assert Padding(i + 1) == Padding(i) + [false];
        SignalsShiftsSnoc(old(board.trace), communicationPins, Padding(i), false);
        i := i + 1;
      }
      assert i == if numberOfBitsToTransmit > 0 then numberOfBitsToTransmit else 0;
      assert Padding(i) == Padding(numberOfBitsToTransmit);
    }

    /** Data pin to the bit's level, then one clock pulse. */
    method SendASingleBit(digitalOutputValue: bool)
      modifies board
      ensures board.trace == old(board.trace) + PulseWrites(communicationPins, Shift(digitalOutputValue))
    {
      board.DigitalWrite(communicationPins.serialDataPin, LevelOf(digitalOutputValue));
      board.DigitalWrite(communicationPins.serialClockPin, High);
      board.DigitalWrite(communicationPins.serialClockPin, Low);
    }

    /** One latch pulse. */
    method Latch()
      modifies board
      ensures board.trace == old(board.trace) + PulseWrites(communicationPins, Pulse.Latch)
    {
      board.DigitalWrite(communicationPins.latchClockPin, High);
      board.DigitalWrite(communicationPins.latchClockPin, Low);
    }
  }

  /**
    A channel of six outputs sent two bits of `[0b00000011]`: after the
    start-up sequence come 1, 1, four zero padding bits and one latch.
   */
  method SixOutputScenario(board: Board, pins: SerialCommunicationPins) returns (channel: Channel)
    modifies board
    ensures channel.Valid() && channel.board == board
    ensures board.trace
            == old(board.trace) + PrepareSignals(pins) + Signals(pins, ClearPulses(6))
               + Signals(pins, Shifts([true, true, false, false, false, false]) + [Pulse.Latch])
  {
    channel := new Channel(board, pins, 6);
    var buffer := new Byte[1];
    buffer[0] := 3;
    channel.Transmit(buffer, 2);
    assert buffer[..] == [3];
    TwoOnesPaddedExample();
  }

  lemma SeqAssoc<T>(a: seq<T>, b: seq<T>, c: seq<T>, d: seq<T>)
    ensures a + (b + c + d) == a + b + c + d
  {
  }
}
