/** The three commands the program sends to the load, each one frame written
    through `WriteData`: set load (0x90), request status (0x91) and activate
    (0x92). */
module Commands {
  import opened Bytes
  import opened Transport
  import opened FrameCodec

  const Preamble: Byte := 0xAA
  const OpSetLoad: Byte := 0x90
  const OpRequestStatus: Byte := 0x91
  const OpActivateLoad: Byte := 0x92

  /** Load-type codes carried in byte 8 of a set-load frame. */
  const ModeConstantCurrent: U32 := 1
  const ModeConstantPower: U32 := 2
  const ModeConstantResistance: U32 := 3

  // ---------------------------------------------------------------- frames

  /** The status request: preamble, address, opcode 0x91, no payload. */
  function RequestFrame(adr: Byte): seq<Byte>
  {
    Seal([Preamble, adr, OpRequestStatus] + Zeros(22))
  }

  /** The activate state byte: bit 0 switches the load on, bit 1 hands control
      to the serial port. */
  function StateByte(load: bool, pcControl: bool): Byte
  {
    (if load then 1 else 0) + (if pcControl then 2 else 0)
  }

  function ActivateFrame(adr: Byte, load: bool, pcControl: bool): seq<Byte>
  {
    Seal([Preamble, adr, OpActivateLoad, StateByte(load, pcControl)] + Zeros(21))
  }

  /** The load value in the unit the device expects for the given load type:
      0.1 W for constant power, 0.01 ohm for constant resistance, and the
      milliamps it was given otherwise. The input is in milli-units. */
  function ScaledLoad(load: U32, mode: U32): (r: U32)
    ensures mode == ModeConstantPower ==> 100 * r <= load < 100 * r + 100
    ensures mode == ModeConstantResistance ==> 10 * r <= load < 10 * r + 10
    ensures mode != ModeConstantPower && mode != ModeConstantResistance ==> r == load
  {
    if mode == ModeConstantPower then load / 100
    else if mode == ModeConstantResistance then load / 10
    else load
  }

  /** The first 25 bytes of a set-load frame, field by field. */
  function SetLoadBody(adr: Byte, maxCurrent: U32, maxPower: U32, load: U32, mode: U32): seq<Byte>
  {
    [Preamble, adr, OpSetLoad] + LE16(maxCurrent) + LE16(maxPower / 100)
      + [adr, mode % 256] + LE16(ScaledLoad(load, mode)) + Zeros(14)
  }

  function SetLoadFrame(adr: Byte, maxCurrent: U32, maxPower: U32, load: U32, mode: U32): seq<Byte>
  {
    Seal(SetLoadBody(adr, maxCurrent, maxPower, load, mode))
  }

  /** A buffer whose first bytes are `header` and whose bytes up to 24 are
      zero seals to the frame of `header` padded with zeros. */
  lemma PaddedSeal(data: seq<Byte>, header: seq<Byte>)
    requires |data| == 26 && |header| <= 25
    requires data[..|header|] == header
    requires forall k :: |header| <= k < 25 ==> data[k] == 0
    ensures Seal(data) == Seal(header + Zeros(25 - |header|))
  {
    var body := header + Zeros(25 - |header|);
    assert data[..25] == body[..25];
    SealPrefix(data, body);
  }

  /** The set-load fields written out byte by byte, as `SetLoad` lays them. */
  lemma SetLoadBodyBytes(adr: Byte, maxCurrent: U32, maxPower: U32, load: U32, mode: U32, data: seq<Byte>)
    requires |data| == 26
    requires data[..11] == [Preamble, adr, OpSetLoad,
                            maxCurrent % 256, (maxCurrent / 256) % 256,
                            (maxPower / 100) % 256, (maxPower / 100 / 256) % 256,
                            adr, mode % 256,
                            ScaledLoad(load, mode) % 256, (ScaledLoad(load, mode) / 256) % 256]
    requires forall k :: 11 <= k < 25 ==> data[k] == 0
    ensures data[..25] == SetLoadBody(adr, maxCurrent, maxPower, load, mode)
  {
    var body := SetLoadBody(adr, maxCurrent, maxPower, load, mode);
    assert body[..11] == data[..11];
    assert body[11..] == Zeros(14);
  }

  // ---------------------------------------------------------------- methods

  /** `RequestStatus`: writes the request, reads the reply into the caller's
      buffer, and accepts it only when 26 bytes arrived with a matching
      checksum. A short read leaves the tail of the buffer as it was. */
  method RequestStatus(port: Port, adr: Byte, data: array<Byte>) returns (ok: bool)
    requires data.Length == 26
    modifies port, data
    ensures port.sent == old(port.sent) + [RequestFrame(adr)]
    ensures port.writeCounts == Rest(old(port.writeCounts)) && port.replies == Rest(old(port.replies))
    ensures data[..] == Received(old(data[..]), NextReply(old(port.replies)))
    ensures ok <==> |NextReply(old(port.replies))| == 26 && IsValid(data[..])
    ensures ok ==> data[..] == NextReply(old(port.replies))
  {
    var request := new Byte[] [Preamble, adr, OpRequestStatus, 0, 0, 0, 0, 0, 0, 0, 0, 0, 0, 0,
                                0, 0, 0, 0, 0, 0, 0, 0, 0, 0, 0, 0xFF];
    PaddedSeal(request[..], [Preamble, adr, OpRequestStatus]);
    var _ := WriteData(port, request);
    var read := port.Read(data);
    var check := Checksum(data);
    ok := read == 26 && check == data[25];
  }

  /** `ActivateLoad`: builds the state byte from the two switches and writes
      the 0x92 frame. */
  method ActivateLoad(port: Port, adr: Byte, load: bool, pcControl: bool)
    modifies port
    ensures port.sent == old(port.sent) + [ActivateFrame(adr, load, pcControl)]
    ensures port.writeCounts == Rest(old(port.writeCounts)) && port.replies == old(port.replies)
  {
    var state: Byte := 0;
    if load {
      state := state + 1;      // state |= 0x1
    }
    if pcControl {
      state := state + 2;      // state |= 0x2, bit 1 is still clear here
    }
    var data := new Byte[] [Preamble, adr, OpActivateLoad, state, 0, 0, 0, 0, 0, 0, 0, 0, 0, 0,
                             0, 0, 0, 0, 0, 0, 0, 0, 0, 0, 0, 0xFF];
    PaddedSeal(data[..], [Preamble, adr, OpActivateLoad, StateByte(load, pcControl)]);
    var _ := WriteData(port, data);
  }

  /** `SetLoad`: scales the power ceiling and the load value in place, then
      lays out the 0x90 frame byte by byte and writes it. */
  method SetLoad(port: Port, adr: Byte, maxCurrent: U32, maxPower: U32, load: U32, mode: U32)
    modifies port
    ensures port.sent == old(port.sent) + [SetLoadFrame(adr, maxCurrent, maxPower, load, mode)]
    ensures port.writeCounts == Rest(old(port.writeCounts)) && port.replies == old(port.replies)
  {
    var power := maxPower / 100;
    var value := load;
    if mode == ModeConstantPower {
      value := value / 100;
    }
    if mode == ModeConstantResistance {
      value := value / 10;
    }
    var data := new Byte[] [Preamble, adr, OpSetLoad,
                             maxCurrent % 256, (maxCurrent / 256) % 256,
                             power % 256, (power / 256) % 256,
                             adr, mode % 256,
                             value % 256, (value / 256) % 256,
                             0, 0, 0, 0, 0, 0, 0, 0, 0, 0, 0, 0, 0, 0, 0xFF];
    assert value == ScaledLoad(load, mode);
    SetLoadBodyBytes(adr, maxCurrent, maxPower, load, mode, data[..]);
    SealPrefix(data[..], SetLoadBody(adr, maxCurrent, maxPower, load, mode));
    var _ := WriteData(port, data);
  }

  // ---------------------------------------------------------------- properties

  /** Trailing zero bytes add nothing to a sum. */
  lemma {:induction false} SumZeros(s: seq<Byte>, n: nat)
    ensures Sum(s + Zeros(n)) == Sum(s)
  {
    if n > 0 {
      var t := s + Zeros(n);
      assert Zeros(n) == Zeros(n - 1) + [0];
      assert t[..|t| - 1] == s + Zeros(n - 1) && t[|t| - 1] == 0;
      SumZeros(s, n - 1);
    } else {
      assert s + Zeros(0) == s;
    }
  }

  /** The sum of a short frame prefix, written out. */
  lemma SumHeader(a: Byte, b: Byte, c: Byte)
    ensures Sum([a, b, c]) == a + b + c
  {
    assert [a, b, c][..2] == [a, b];
    assert [a, b][..1] == [a];
    assert [a][..0] == [];
    assert Sum([a]) == a;
    assert Sum([a, b]) == a + b;
  }

  /** The status request is fixed apart from the address, and its checksum is
      the low byte of 0xAA + adr + 0x91. */
  lemma RequestFrameLayout(adr: Byte)
    ensures RequestFrame(adr) == [Preamble, adr, OpRequestStatus] + Zeros(22)
                                 + [(Preamble + adr + OpRequestStatus) % 256]
  {
    var body := [Preamble, adr, OpRequestStatus] + Zeros(22);
    SealIsValid(body);
    SumZeros([Preamble, adr, OpRequestStatus], 22);
    SumHeader(Preamble, adr, OpRequestStatus);
    assert body[..25] == body;
  }

  /** An activate frame carries the state byte in byte 3, the state byte is in
      0..3, and both switches can be read back from it. */
  lemma ActivateFrameLayout(adr: Byte, load: bool, pcControl: bool)
    ensures var f := ActivateFrame(adr, load, pcControl);
      && IsValid(f) && f[0] == Preamble && f[1] == adr && f[2] == OpActivateLoad
      && 0 <= f[3] <= 3 && (f[3] % 2 == 1 <==> load) && (f[3] / 2 == 1 <==> pcControl)
      && (forall k :: 4 <= k < 25 ==> f[k] == 0)
      && f[25] == (Preamble + adr + OpActivateLoad + f[3]) % 256
  {
    var state := StateByte(load, pcControl);
    var head := [Preamble, adr, OpActivateLoad, state];
    var body := head + Zeros(21);
    SealIsValid(body);
    SumZeros(head, 21);
    SumHeader(Preamble, adr, OpActivateLoad);
    assert head[..3] == [Preamble, adr, OpActivateLoad];
    assert Sum(head) == Preamble + adr + OpActivateLoad + state;
    assert body[..25] == body;
  }

  /** The set-load frame: header, the current ceiling and the power ceiling
      divided by 100 as 16-bit little-endian fields, the address again, the
      load type, the scaled load as a 16-bit field, zero padding, and a valid
      checksum. Only the low 16 bits of each field reach the device. */
  lemma SetLoadFrameLayout(adr: Byte, maxCurrent: U32, maxPower: U32, load: U32, mode: U32)
    ensures var f := SetLoadFrame(adr, maxCurrent, maxPower, load, mode);
      && IsValid(f) && f[0] == Preamble && f[1] == adr && f[2] == OpSetLoad
      && U16At(f, 3) == maxCurrent % 0x1_0000
      && U16At(f, 5) == (maxPower / 100) % 0x1_0000
      && f[7] == adr && f[8] == mode % 256
      && U16At(f, 9) == ScaledLoad(load, mode) % 0x1_0000
      && (forall k :: 11 <= k < 25 ==> f[k] == 0)
  {
    var body := SetLoadBody(adr, maxCurrent, maxPower, load, mode);
    var f := SetLoadFrame(adr, maxCurrent, maxPower, load, mode);
    SealIsValid(body);
    var h := [Preamble, adr, OpSetLoad];
    var c := LE16(maxCurrent);
    var p := LE16(maxPower / 100);
    var m := [adr, mode % 256];
    var l := LE16(ScaledLoad(load, mode));
    var z := Zeros(14);
    assert body == h + c + (p + m + l + z);
    LE16RoundTrip(maxCurrent, h, p + m + l + z);
    assert body == (h + c) + p + (m + l + z);
    LE16RoundTrip(maxPower / 100, h + c, m + l + z);
    assert body == (h + c + p + m) + l + z;
    LE16RoundTrip(ScaledLoad(load, mode), h + c + p + m, z);
    assert f[..25] == body;
  }

  /** The scaling the device data sheet asks for: 150 W in constant power is
      sent as 1500, 25 ohm in constant resistance as 2500, 1 A in constant
      current as 1000. */
  lemma ScaledLoadExamples()
    ensures ScaledLoad(150000, ModeConstantPower) == 1500
    ensures ScaledLoad(25000, ModeConstantResistance) == 2500
    ensures ScaledLoad(1000, ModeConstantCurrent) == 1000
  {
  }
}
