/** The stop decision taken after each status poll. Thresholds are the
    program's settings: voltage and current limits in volts and amps (below
    zero when unset), total time in seconds (zero or less when unset), and the
    sample count (0xFFFFFFFF when unset). */
module Termination {
  import opened Bytes
  import opened StatusDecoder

  datatype Stop = Aborted | LoadOff | LowVoltage | LowCurrent | TimeLimit | SampleLimit

  const NoSampleLimit: U32 := 0xFFFF_FFFF

  /** Readings are only trusted after this many seconds. */
  const SettleSeconds: real := 3.0

  datatype Limits = Limits(minVolts: real, minAmps: real, totalSeconds: real, sampleCount: U32)

  /** The program's defaults: every limit unset. */
  const Unset := Limits(-1.0, -1.0, -1.0, NoSampleLimit)

  /** Elapsed milliseconds as the seconds the program compares. */
  function Seconds(ms: nat): real { ms as real / 1000.0 }

  /** The checks made after the reading has been decoded and logged, in the
      program's order: low voltage, then low current (both only once the
      readings have settled), then the time limit, then the sample count. */
  function CheckLimits(lim: Limits, st: Status, elapsedMs: nat, count: U32): (r: Option<Stop>)
    ensures r != Some(Aborted) && r != Some(LoadOff)
    ensures r == Some(SampleLimit) ==> count > lim.sampleCount
  {
    var t := Seconds(elapsedMs);
    if t > SettleSeconds && Volts(st) <= lim.minVolts then Some(LowVoltage)
    else if t > SettleSeconds && Amps(st) <= lim.minAmps then Some(LowCurrent)
    else if lim.totalSeconds > 0.0 && t > lim.totalSeconds then Some(TimeLimit)
    else if lim.sampleCount != NoSampleLimit && count > lim.sampleCount then Some(SampleLimit)
    else None
  }

  /** The whole decision for one poll: the load-off flag is looked at before
      anything is decoded. */
  function Evaluate(lim: Limits, s: seq<Byte>, elapsedMs: nat, count: U32): (r: Option<Stop>)
    requires |s| == 26
    ensures r != Some(Aborted)
    ensures r == Some(LoadOff) <==> !LoadOn(s[17])
  {
    if !LoadOn(s[17]) then Some(LoadOff)
    else CheckLimits(lim, DecodeStatus(s), elapsedMs, count)
  }

  /** Each stop condition on its own, regardless of the others. */
  predicate Fires(lim: Limits, stop: Stop, s: seq<Byte>, elapsedMs: nat, count: U32)
    requires |s| == 26
  {
    match stop
    case Aborted => false
    case LoadOff => !LoadOn(s[17])
    case LowVoltage => Seconds(elapsedMs) > SettleSeconds && Volts(DecodeStatus(s)) <= lim.minVolts
    case LowCurrent => Seconds(elapsedMs) > SettleSeconds && Amps(DecodeStatus(s)) <= lim.minAmps
    case TimeLimit => lim.totalSeconds > 0.0 && Seconds(elapsedMs) > lim.totalSeconds
    case SampleLimit => lim.sampleCount != NoSampleLimit && count > lim.sampleCount
  }

  /** Precedence of the conditions: an abort comes first (it is checked before
      the poll), then load off, low voltage, low current, time, sample count. */
  function Rank(stop: Stop): nat
  {
    match stop
    case Aborted => 0
    case LoadOff => 1
    case LowVoltage => 2
    case LowCurrent => 3
    case TimeLimit => 4
    case SampleLimit => 5
  }

  /** The decision is "first condition that fires wins": it names a condition
      exactly when that condition fires and no earlier one does, and it is
      None exactly when none fires. */
  lemma EvaluateIsFirstMatch(lim: Limits, s: seq<Byte>, elapsedMs: nat, count: U32, stop: Stop)
    requires |s| == 26
    ensures Evaluate(lim, s, elapsedMs, count) == Some(stop)
            <==> Fires(lim, stop, s, elapsedMs, count)
                 && forall q: Stop :: Rank(q) < Rank(stop) ==> !Fires(lim, q, s, elapsedMs, count)
    ensures Evaluate(lim, s, elapsedMs, count) == None
            <==> forall q: Stop :: !Fires(lim, q, s, elapsedMs, count)
  {
    var r := Evaluate(lim, s, elapsedMs, count);
    if r == None {
      forall q: Stop ensures !Fires(lim, q, s, elapsedMs, count) {
        match q
        case _ =>
      }
    }
    if r.Some? {
      assert Fires(lim, r.value, s, elapsedMs, count);
      forall q: Stop | Rank(q) < Rank(r.value) ensures !Fires(lim, q, s, elapsedMs, count) {
        match q
        case _ =>
      }
    }
  }

  /** Limits left unset never stop a run, whatever the device reports. */
  lemma UnsetLimitsNeverFire(lim: Limits, s: seq<Byte>, elapsedMs: nat, count: U32)
    requires |s| == 26
    ensures lim.minVolts < 0.0 ==> !Fires(lim, LowVoltage, s, elapsedMs, count)
    ensures lim.minAmps < 0.0 ==> !Fires(lim, LowCurrent, s, elapsedMs, count)
    ensures lim.totalSeconds <= 0.0 ==> !Fires(lim, TimeLimit, s, elapsedMs, count)
    ensures lim.sampleCount == NoSampleLimit ==> !Fires(lim, SampleLimit, s, elapsedMs, count)
  {
    DecodedValuesNonNegative(s);
  }

  /** With every limit at the program's defaults, only the load-off flag can
      end a run. */
  lemma DefaultsStopOnlyOnLoadOff(s: seq<Byte>, elapsedMs: nat, count: U32)
    requires |s| == 26
    ensures Evaluate(Unset, s, elapsedMs, count) == (if LoadOn(s[17]) then None else Some(LoadOff))
  {
    UnsetLimitsNeverFire(Unset, s, elapsedMs, count);
  }

  /** The reversed-polarity, temperature and voltage/power bits only produce
      reports: changing any flag bit other than load-on leaves the decision
      unchanged. */
  lemma AlertBitsNeverStop(lim: Limits, s: seq<Byte>, flags: Byte, elapsedMs: nat, count: U32)
    requires |s| == 26 && LoadOn(flags) == LoadOn(s[17])
    ensures Evaluate(lim, s[17 := flags], elapsedMs, count) == Evaluate(lim, s, elapsedMs, count)
  {
    var t := s[17 := flags];
    assert DecodeStatus(t).milliAmps == DecodeStatus(s).milliAmps;
    assert DecodeStatus(t).milliVolts == DecodeStatus(s).milliVolts;
  }
}
