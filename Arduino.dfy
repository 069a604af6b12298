/**
  The two Arduino primitives the channel drives its pins with, `pinMode` and
  `digitalWrite`. Their electrical effect is not modelled: each call is
  recorded, in order, as one event of an append-only trace kept by a `Board`.
 */
module Arduino {

  /** The level written to a pin (`LOW` or `HIGH`). A C++ `bool` true is `HIGH`. */
  datatype Level = Low | High

  /** The mode a pin is configured to (`INPUT` is high impedance, `OUTPUT` drives). */
  datatype PinMode = Input | Output

  /** One call of a pin primitive. */
  datatype Event =
    | SetMode(pin: int, mode: PinMode)
    | Write(pin: int, level: Level)

  /** The level a C++ `bool` converts to when passed to `digitalWrite`. */
  function LevelOf(value: bool): Level
  {
    if value then High else Low
  }

  /** The host board: the only state it exposes is the trace of primitive calls. */
  class Board {
    var trace: seq<Event>

    constructor ()
      ensures trace == []
    {
      trace := [];
    }

    /** `pinMode(pin, mode)`. */
    method PinMode(pin: int, mode: PinMode)
      modifies this
      ensures trace == old(trace) + [SetMode(pin, mode)]
    {
      trace := trace + [SetMode(pin, mode)];
    }

    /** `digitalWrite(pin, level)`. */
    method DigitalWrite(pin: int, level: Level)
      modifies this
      ensures trace == old(trace) + [Write(pin, level)]
    {
      trace := trace + [Write(pin, level)];
    }
  }
}
