# Latched shift register channel, modelled in Dafny

`LatchedShiftRegisterChannel` drives a daisy chain of latched shift registers over
three Arduino pins: serial data, serial clock and latch clock. A caller hands it a
byte buffer and a bit count. The channel clamps the count to the number of active
outputs and clocks the bits out. Bytes go in buffer order, and each byte goes least
significant bit first. It then shifts zeros up to the active output count and
pulses the latch once. On construction and on destruction it shifts zeros through
the whole chain and latches. The constructor first claims the pins as outputs driven
low. The destructor afterwards releases them to high impedance.

The project has three modules:

- `Arduino` (`Arduino.dfy`) models the two pin primitives, `pinMode` and `digitalWrite`.
  Each call appends one `SetMode(pin, mode)` or `Write(pin, level)` event to the
  `trace` of a `Board` object. The electrical effect of a call is not modelled.
- `ShiftProtocol` (`Protocol.dfy`) holds the specification functions and the lemmas
  about them:
  - `Clamp`: the source's `clampValue`.
  - `LowBits`: the bits that repeated `& 1` and `>>= 1` read from a byte.
  - `Bit`: bit `j` of a byte, used as an independent reference for `LowBits`.
  - `BufferBits`: the data bits of a whole buffer.
  - `TransmitPulses` and `ClearPulses`: a transmission or a clear written as
    `Shift(bit)` and `Latch` pulses.
  - `Signals`: the pin writes those pulses become.
  - `Recover`: a decoder that reads the pulses back from the writes.
- `LatchedShiftRegister` (`Channel.dfy`) holds class `Channel`. Its mutable fields are
  `communicationPins`, `activeOutputs` and `totalOutputs`, and it keeps a `const board`.
  - `Valid()` is the object invariant `0 <= activeOutputs <= totalOutputs <= 1024`,
    and it holds while the channel is alive.
  - Each C++ method that is `const` becomes a method that may modify only `board`, so
    the frame rule proves that it changes none of the channel's fields.
  - `SetNumberOfActiveDigitalOutputs` may modify only `activeOutputs`.
  - Every method states in its `ensures` clause exactly which events it appends to
    the trace.

The counting loops of the source stay loops in the model. `ClearShiftRegister`,
`SendBitsOneByteAtATime`, `SendBitsFromOneByte` and `SendPaddingBits` are each
proved against the specification function for their stretch of the trace.

The header `LatchedShiftRegisterChannel.h` contributes three things to the model:

- `MAXIMUM_SERIAL_BITS` (`.h:37`) is `ShiftProtocol.MaximumSerialBits`.
- The pin struct (`.h:39-43`) is `SerialCommunicationPins`.
- The fields (`.h:65-67`) are the fields of `Channel`.

## Model

| member | source | states |
|---|---|---|
| `ShiftProtocol.Clamp` | LatchedShiftRegisterChannel.cpp:37-49 | The result is in `[lo, hi]` when `lo <= hi`. It is the value itself when that is already in range, `hi` above the range and `lo` below it. When `lo > hi` the result is `lo`, because the minimum check runs last. |
| `ShiftProtocol.LowBitsAt` | LatchedShiftRegisterChannel.cpp:124-128 | The `j`-th bit that the `& 1` / `>>= 1` loop reads from a byte is bit `j` of it (`(b >> j) & 1`), so a byte goes out least significant bit first. |
| `ShiftProtocol.LowBitsPrefix` | LatchedShiftRegisterChannel.cpp:123-128 | Reading `k` bits reads the first `k` of the byte's eight bits, so a partial byte sends only its low-order bits. |
| `ShiftProtocol.ByteRoundTrip` | LatchedShiftRegisterChannel.cpp:120-129 | The eight bits sent for a whole byte, read back least significant first, give the byte again. |
| `ShiftProtocol.ByteFiveExample` | LatchedShiftRegisterChannel.cpp:120-129 | Byte 5 sent with a count of 3 gives 1, 0, 1. |
| `ShiftProtocol.BufferBitsAt` | LatchedShiftRegisterChannel.cpp:106-118 | The stream of `n` data bits has length `n`, and its bit `k` is bit `k % 8` of byte `k / 8`: bytes in buffer order, each least significant bit first, with the final partial byte included. |
| `ShiftProtocol.BufferBitsReadsOnlyNeededBytes` | LatchedShiftRegisterChannel.cpp:108-117 | Two buffers that agree on their first `ceil(n / 8)` bytes give the same data bits: no later byte is read. |
| `ShiftProtocol.BufferBitsRoundTrip` | LatchedShiftRegisterChannel.cpp:108-112 | Sending `8 * m` bits sends exactly the first `m` bytes, and grouping the stream back into bytes recovers `buffer[..m]`. |
| `ShiftProtocol.TransmitShape` | LatchedShiftRegisterChannel.cpp:66-73 | For every `n`, negative or oversized included, a transmission is exactly `active` shifts followed by exactly one latch. |
| `ShiftProtocol.TransmitDataBits` | LatchedShiftRegisterChannel.cpp:68-69 | For `b = clamp(n, 0, active)` and `k < b`, shift `k` carries bit `k % 8` of `buffer[k / 8]`. |
| `ShiftProtocol.TransmitPaddingBits` | LatchedShiftRegisterChannel.cpp:70-71 | Shifts `b` up to `active - 1` are zeros. |
| `ShiftProtocol.TransmitReadsOnlyNeededBytes` | LatchedShiftRegisterChannel.cpp:106-118 | A transmission depends only on the first `ceil(clamp(n, 0, active) / 8)` bytes of the buffer. |
| `ShiftProtocol.TransmitNothingActive` | LatchedShiftRegisterChannel.cpp:68-72 | With no active outputs, a transmission is a single latch. |
| `ShiftProtocol.ClearIsEmptyTransmission` | LatchedShiftRegisterChannel.cpp:97-104 | A clear of `total` outputs is the transmission of zero data bits with all `total` outputs active: `total` zero shifts, then one latch. |
| `ShiftProtocol.TwelveOnesExample` | LatchedShiftRegisterChannel.cpp:66-73 | Transmitting 12 bits of `[0xFF, 0x0F]` over 12 active outputs gives twelve ones, no padding and one latch. |
| `ShiftProtocol.TwoOnesPaddedExample` | LatchedShiftRegisterChannel.cpp:66-73 | Transmitting 2 bits of `[0b11]` over 6 active outputs gives 1, 1, four zeros and one latch. |
| `ShiftProtocol.RecoverSignals` | LatchedShiftRegisterChannel.cpp:139-150 | Each pulse has a fixed pin pattern. A bit is a data write followed by clock HIGH and clock LOW. A latch is latch HIGH followed by latch LOW. When the data pin differs from the latch pin, the trace therefore determines the pulse sequence. |
| `LatchedShiftRegister.Channel.constructor` | LatchedShiftRegisterChannel.cpp:57-64 | `totalOutputs == clamp(n, 0, 1024)`, `activeOutputs == totalOutputs`, the pins are stored and `Valid()` holds. The trace gains the three pins set to OUTPUT, then the three driven LOW, then `totalOutputs` zero shifts and one latch. |
| `LatchedShiftRegister.Channel.Destroy` | LatchedShiftRegisterChannel.cpp:51-55 | The trace gains a full clear of `totalOutputs` zeros and one latch, then the three pins set to INPUT. Afterwards the channel can no longer be used. |
| `LatchedShiftRegister.Channel.Transmit` | LatchedShiftRegisterChannel.cpp:66-73 | The trace gains exactly the writes of `TransmitPulses(buffer, n, activeOutputs)`. The channel's fields and the buffer are untouched (`const`), and `Valid()` is preserved. |
| `LatchedShiftRegister.Channel.SetNumberOfActiveDigitalOutputs` | LatchedShiftRegisterChannel.cpp:75-78 | `activeOutputs == clamp(k, 0, totalOutputs)`. Only that field may change, the trace is unchanged and `Valid()` is preserved. |
| `LatchedShiftRegister.Channel.PrepareCommunicationPins` | LatchedShiftRegisterChannel.cpp:80-88 | The trace gains clock, data and latch set to OUTPUT, then the same three driven LOW. |
| `LatchedShiftRegister.Channel.MakeCommunicationPinsHighImpedance` | LatchedShiftRegisterChannel.cpp:90-95 | The trace gains clock, data and latch set to INPUT. |
| `LatchedShiftRegister.Channel.ClearShiftRegister` | LatchedShiftRegisterChannel.cpp:97-104 | The trace gains `totalOutputs` zero shifts, the whole chain whatever is active, then one latch. |
| `LatchedShiftRegister.Channel.SendBitsOneByteAtATime` | LatchedShiftRegisterChannel.cpp:106-118 | The trace gains one shift per bit of `BufferBits(buffer, n)`: whole bytes in order, then the low `n % 8` bits of the next byte. |
| `LatchedShiftRegister.Channel.SendBitsFromOneByte` | LatchedShiftRegisterChannel.cpp:120-129 | The trace gains one shift per bit of `LowBits(byte, clamp(n, 0, 8))`, the low bits least significant first. |
| `LatchedShiftRegister.Channel.SendPaddingBits` | LatchedShiftRegisterChannel.cpp:131-137 | The trace gains `n` zero shifts, and nothing when `n <= 0`. |
| `LatchedShiftRegister.Channel.SendASingleBit` | LatchedShiftRegisterChannel.cpp:139-144 | The trace gains three writes: data pin to the bit's level, clock HIGH, clock LOW. |
| `LatchedShiftRegister.Channel.Latch` | LatchedShiftRegisterChannel.cpp:146-150 | The trace gains two writes: latch HIGH, then latch LOW. |
| `LatchedShiftRegister.SixOutputScenario` | LatchedShiftRegisterChannel.cpp:57-73 | A six-output channel sent two bits of `[0b11]` appends the start-up sequence, then 1, 1, four zeros and one latch. This shows that the contracts compose. |

## Left out

- `pinMode` and `digitalWrite` are Arduino library calls. They are modelled only as
  trace events on a `Board`; their electrical effect is not modelled.
- What the shift-register chips do with the pulses is not modelled: where each bit
  ends up in the chain, and what the inactive high-end outputs keep. The source only
  fixes which pulses it emits, so the model states nothing beyond that.
- Timing and pulse width are not modelled, because the source has no delays.
- Concurrency and pins shared between channels are not modelled, because the source
  does not address them.
- The private default constructor, copy constructor and copy assignment are not
  modelled. A Dafny object cannot be copied, and the model has no operation that
  builds a channel without pins and a width. Dafny references can still be
  aliased, though, and the model does not enforce that one channel exclusively
  owns its pins.
- Channel.Destroy: the C++ destructor runs automatically when the object's lifetime
  ends. Here it is an explicit method that ends the channel's validity (the ghost
  field `live`).
- Channel.Transmit: it requires
  `BytesFor(clamp(transmissionSizeInBits, 0, activeOutputs)) <= buffer.Length`. The
  C++ reads `transmissionBuffer[i]` without a bounds check, so a shorter buffer is
  undefined behaviour there.
- Channel.SendBitsOneByteAtATime: it requires a non-negative bit count. Its only
  caller, `transmit`, always passes a clamped, non-negative count.
- The width of C++ `int` is not modelled. Parameters are unbounded integers. Every
  count is clamped into `[0, 1024]` before any arithmetic, so no width can overflow.
- For the byte-to-bits step, a bit count of 1 to 8 is the documented range. The
  code clamps the count to `[0, 8]`, and the model follows the code.
