/** Decoding of the 26-byte status reply: raw current, voltage and power as
    little-endian fields, and the flag byte 17. */
module StatusDecoder {
  import opened Bytes

  /** One status reply in the device's own integer units. */
  datatype Status = Status(milliAmps: nat, milliVolts: nat, deciWatts: nat, flags: Byte)

  /** The status decode of the sampling loop. Current is bytes 3-4, power bytes
      9-10, voltage the 32-bit value whose low half is bytes 5-6 and high half
      bytes 7-8 (`v1 | (v2 << 16)`: the halves do not overlap, so `|` is `+`). */
  function DecodeStatus(s: seq<Byte>): (st: Status)
    requires |s| == 26
    ensures st.milliAmps < 0x1_0000 && st.deciWatts < 0x1_0000
    ensures st.milliVolts < 0x1_0000_0000
    ensures st.milliVolts == s[5] as int + 0x100 * (s[6] as int) + 0x1_0000 * (s[7] as int) + 0x100_0000 * (s[8] as int)
    ensures st.flags == s[17]
  {
    var v1 := U16At(s, 5);
    var v2 := U16At(s, 7);
    Status(U16At(s, 3), v1 + 0x1_0000 * v2, U16At(s, 9), s[17])
  }

  /** Physical values as the program prints and compares them. */
  function Amps(st: Status): real { st.milliAmps as real / 1000.0 }
  function Volts(st: Status): real { st.milliVolts as real / 1000.0 }
  function Watts(st: Status): real { st.deciWatts as real / 10.0 }

  /** Bytes 3..10 of a reply carrying `st`: current, voltage low half, voltage
      high half, power, each 16-bit little-endian. */
  function StatusFields(st: Status): seq<Byte>
  {
    LE16(st.milliAmps) + LE16(st.milliVolts % 0x1_0000) + LE16(st.milliVolts / 0x1_0000) + LE16(st.deciWatts)
  }

  lemma U16AtLE16(s: seq<Byte>, i: nat)
    requires i + 1 < |s|
    ensures LE16(U16At(s, i)) == s[i..i + 2]
  {
  }

  /** Decoding keeps all of bytes 3..10: they can be rebuilt from the result. */
  lemma DecodeKeepsFields(s: seq<Byte>)
    requires |s| == 26
    ensures StatusFields(DecodeStatus(s)) == s[3..11]
  {
    var st := DecodeStatus(s);
    var v1 := U16At(s, 5);
    var v2 := U16At(s, 7);
    assert st.milliVolts % 0x1_0000 == v1 && st.milliVolts / 0x1_0000 == v2;
    U16AtLE16(s, 3);
    U16AtLE16(s, 5);
    U16AtLE16(s, 7);
    U16AtLE16(s, 9);
    assert s[3..11] == s[3..5] + s[5..7] + s[7..9] + s[9..11];
  }

  /** Two bytes holding the little-endian form of a 16-bit value read back
      as that value. */
  lemma U16AtOfBytes(s: seq<Byte>, i: nat, x: nat)
    requires i + 1 < |s| && x < 0x1_0000
    requires s[i] == x % 256 && s[i + 1] == (x / 256) % 256
    ensures U16At(s, i) == x
  {
  }

  /** A reply whose bytes 3..10 and 17 carry a status in range decodes to
      exactly that status. */
  lemma DecodeOfFields(s: seq<Byte>, st: Status)
    requires |s| == 26 && s[3..11] == StatusFields(st) && s[17] == st.flags
    requires st.milliAmps < 0x1_0000 && st.deciWatts < 0x1_0000 && st.milliVolts < 0x1_0000_0000
    ensures DecodeStatus(s) == st
  {
    var lo, hi := st.milliVolts % 0x1_0000, st.milliVolts / 0x1_0000;
    var f := StatusFields(st);
    assert f == LE16(st.milliAmps) + LE16(lo) + LE16(hi) + LE16(st.deciWatts);
    assert s[3] == f[0] && s[4] == f[1] && s[5] == f[2] && s[6] == f[3];
    assert s[7] == f[4] && s[8] == f[5] && s[9] == f[6] && s[10] == f[7];
    U16AtOfBytes(s, 3, st.milliAmps);
    U16AtOfBytes(s, 5, lo);
    U16AtOfBytes(s, 7, hi);
    U16AtOfBytes(s, 9, st.deciWatts);
  }

  /** None of the decoded quantities can be negative, so a threshold below
      zero (the program's "unset" value of -1) is never reached. */
  lemma DecodedValuesNonNegative(s: seq<Byte>)
    requires |s| == 26
    ensures Amps(DecodeStatus(s)) >= 0.0 && Volts(DecodeStatus(s)) >= 0.0 && Watts(DecodeStatus(s)) >= 0.0
  {
  }

  // ---------------------------------------------------------------- flag byte

  /** `(flags & mask) != 0` for a single-bit mask. */
  predicate HasBit(flags: Byte, mask: nat)
    requires mask > 0
  {
    (flags / mask) % 2 == 1
  }

  /** Bit 1 (mask 2): the load is switched on. */
  predicate LoadOn(flags: Byte)
  {
    HasBit(flags, 2)
  }

  /** Conditions the program reports but does not act on. */
  datatype Alert = ReversedPolarity | ExcessiveTemperature | ExcessiveVoltage | ExcessivePower

  /** The reports, in the order the program prints them. Excessive voltage and
      excessive power are both read from mask 16. */
  function Alerts(flags: Byte): seq<Alert>
  {
    (if HasBit(flags, 4) then [ReversedPolarity] else [])
    + (if HasBit(flags, 8) then [ExcessiveTemperature] else [])
    + (if HasBit(flags, 16) then [ExcessiveVoltage] else [])
    + (if HasBit(flags, 16) then [ExcessivePower] else [])
  }

  /** The two reports that share mask 16 always come together, and each report
      appears exactly when its mask is set. */
  lemma AlertsFollowMasks(flags: Byte)
    ensures (ReversedPolarity in Alerts(flags) <==> HasBit(flags, 4))
    ensures (ExcessiveTemperature in Alerts(flags) <==> HasBit(flags, 8))
    ensures (ExcessiveVoltage in Alerts(flags) <==> HasBit(flags, 16))
    ensures (ExcessiveVoltage in Alerts(flags) <==> ExcessivePower in Alerts(flags))
    ensures |Alerts(flags)| <= 4
  {
  }
}
