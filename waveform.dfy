/** The load commanded on each tick. The sine itself (`sin(2*3.14*t/period)`
    in doubles) is an input here: `Phase` is its value, which always lies in
    [-1, 1]. */
module Waveform {
  import opened Bytes

  type Phase = s: real | -1.0 <= s <= 1.0

  datatype Wave = Constant | Sine | Square

  /** The ceilings sent with a varying waveform: the instrument's own maxima,
      30 A and 200 W in milli-units. */
  const InstrumentMaxCurrent: U32 := 30000
  const InstrumentMaxPower: U32 := 200000

  /** Arguments of one `SetLoad` call, before scaling. */
  datatype Command = Command(maxCurrent: U32, maxPower: U32, load: U32)

  /** The share `fraction` (between 0 and 1) of `amount`. */
  function Share(fraction: real, amount: nat): (y: real)
    requires 0.0 <= fraction <= 1.0
    ensures 0.0 <= y <= amount as real
  {
    assert (1.0 - fraction) * amount as real >= 0.0;
    fraction * amount as real
  }

  /** Rounding down a value between 0 and `a` stays between 0 and `a`. */
  lemma FloorWithin(y: real, a: nat)
    requires 0.0 <= y <= a as real
    ensures 0 <= y.Floor <= a
    ensures y.Floor as real <= y < y.Floor as real + 1.0
  {
  }

  /** The sine load `(uint32_t)(((s + 1) / 2) * amplitude)`: the conversion
      truncates, and the value is never negative, so it is the floor. */
  function SineLoad(amplitude: U32, s: Phase): (r: U32)
    ensures r <= amplitude
    ensures r as real <= Share((s + 1.0) / 2.0, amplitude) < r as real + 1.0
  {
    var y := Share((s + 1.0) / 2.0, amplitude);
    FloorWithin(y, amplitude);
    y.Floor
  }

  /** The square load: the full amplitude while the sine is positive, else 0. */
  function SquareLoad(amplitude: U32, s: Phase): (r: U32)
    ensures r == amplitude <==> s > 0.0 || amplitude == 0
    ensures r == 0 || r == amplitude
  {
    if s > 0.0 then amplitude else 0
  }

  /** The waveform dispatch of the sampling loop: a constant waveform passes the
      configured ceilings and the configured load; sine and square pass the
      instrument maxima and a load between 0 and the amplitude. */
  function LoadCommand(wave: Wave, amplitude: U32, maxCurrent: U32, maxPower: U32, s: Phase): (c: Command)
    ensures c.load <= amplitude
    ensures wave == Constant ==> c == Command(maxCurrent, maxPower, amplitude)
    ensures wave != Constant ==> c.maxCurrent == InstrumentMaxCurrent && c.maxPower == InstrumentMaxPower
  {
    match wave
    case Constant => Command(maxCurrent, maxPower, amplitude)
    case Sine => Command(InstrumentMaxCurrent, InstrumentMaxPower, SineLoad(amplitude, s))
    case Square => Command(InstrumentMaxCurrent, InstrumentMaxPower, SquareLoad(amplitude, s))
  }

  /** At sine 0 (the start of a cycle) the sine load is half the amplitude and
      the square load is 0; at sine exactly 1 both are the full amplitude. At a
      quarter period the program's phase is `2*3.14/4 = 1.57`, whose sine is
      0.99999968, so there the sine load can fall one short of the amplitude. */
  lemma WaveformAtSineZeroAndOne(amplitude: U32)
    ensures SineLoad(amplitude, 0.0) == amplitude / 2
    ensures SquareLoad(amplitude, 0.0) == 0
    ensures SineLoad(amplitude, 1.0) == amplitude
    ensures SquareLoad(amplitude, 1.0) == amplitude
  {
    var h := amplitude / 2;
    assert amplitude == 2 * h || amplitude == 2 * h + 1;
    assert (0.0 + 1.0) / 2.0 * amplitude as real == amplitude as real / 2.0;
  }
}
