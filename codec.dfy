/** The 26-byte frame every exchange with the load uses: byte 0 preamble, byte 1
    device address, byte 2 opcode, bytes 3..24 payload, byte 25 checksum. */
module FrameCodec {
  import opened Bytes
  import opened Transport

  /** Sum of all the bytes of `s`, added left to right. */
  function Sum(s: seq<Byte>): (r: nat)
    ensures r <= 255 * |s|
  {
    if s == [] then 0 else Sum(s[..|s| - 1]) + s[|s| - 1]
  }

  /** The checksum of a frame: the low byte of the sum of bytes 0..24. */
  function ChecksumOf(s: seq<Byte>): Byte
    requires |s| >= 25
  {
    Sum(s[..25]) % 256
  }

  /** The receiver's acceptance test: exactly 26 bytes, and byte 25 agrees with
      the checksum of the first 25. */
  predicate IsValid(f: seq<Byte>)
  {
    |f| == 26 && f[25] == ChecksumOf(f)
  }

  /** A frame with the checksum written into byte 25; whatever byte 25 held is
      discarded. */
  function Seal(s: seq<Byte>): seq<Byte>
    requires |s| >= 25
  {
    s[..25] + [ChecksumOf(s)]
  }

  /** A sealed frame keeps bytes 0..24 and passes the acceptance test. */
  lemma SealIsValid(s: seq<Byte>)
    requires |s| >= 25
    ensures |Seal(s)| == 26 && Seal(s)[..25] == s[..25] && IsValid(Seal(s))
  {
    assert Seal(s)[..25] == s[..25];
  }

  /** Sealing looks only at the first 25 bytes. */
  lemma SealPrefix(s: seq<Byte>, t: seq<Byte>)
    requires |s| >= 25 && |t| >= 25 && s[..25] == t[..25]
    ensures Seal(s) == Seal(t)
  {
  }

  /** `Checksum`: accumulates bytes 0..24 in a 32-bit unsigned `check` and
      returns its low byte. The accumulator never exceeds 25 * 255, so it
      cannot wrap. */
  method Checksum(data: array<Byte>) returns (c: Byte)
    requires data.Length >= 25
    ensures c == ChecksumOf(data[..])
  {
    var check: U32 := 0;
    for i := 0 to 25
      invariant check == Sum(data[..i])
    {
      assert data[..i + 1][..i] == data[..i];
      check := check + data[i];
    }
    assert data[..25] == data[..][..25];
    c := check % 256;
  }

  /** `WriteData`: stamps the checksum into byte 25 in place, hands the 26
      bytes to the transport, and reports whether all 26 were written. */
  method WriteData(port: Port, data: array<Byte>) returns (ok: bool)
    requires data.Length == 26
    modifies port, data
    ensures data[..] == Seal(old(data[..])) && IsValid(data[..])
    ensures port.sent == old(port.sent) + [data[..]]
    ensures ok == (WriteCount(old(port.writeCounts)) == 26)
    ensures port.writeCounts == Rest(old(port.writeCounts)) && port.replies == old(port.replies)
  {
    var c := Checksum(data);
    data[25] := c;
    assert data[..] == Seal(old(data[..]));
    SealIsValid(old(data[..]));
    var written := port.Write(data);
    ok := written == 26;
  }

  /** Replacing one byte changes the sum by exactly the difference. */
  lemma {:induction false} SumUpdate(s: seq<Byte>, i: nat, v: Byte)
    requires i < |s|
    ensures Sum(s[i := v]) == Sum(s) - s[i] + v
  {
    var n := |s| - 1;
    if i == n {
      assert s[i := v][..n] == s[..n];
    } else {
      assert s[i := v][..n] == s[..n][i := v];
      SumUpdate(s[..n], i, v);
    }
  }

  /** Replacing a byte among 0..24 shifts the checksum by the difference,
      modulo 256. */
  lemma ChecksumUpdate(s: seq<Byte>, i: nat, v: Byte)
    requires |s| >= 25 && i < 25
    ensures ChecksumOf(s[i := v]) == (ChecksumOf(s) + v - s[i]) % 256
  {
    assert s[i := v][..25] == s[..25][i := v];
    SumUpdate(s[..25], i, v);
    var total := Sum(s[..25]);
    assert total == 256 * (total / 256) + ChecksumOf(s);
  }

  /** Byte 25 never contributes to the checksum. */
  lemma ChecksumIgnoresLastByte(s: seq<Byte>, v: Byte)
    requires |s| == 26
    ensures ChecksumOf(s[25 := v]) == ChecksumOf(s)
  {
    assert s[25 := v][..25] == s[..25];
  }

  /** Any single corrupted byte, payload or checksum, makes a valid frame fail
      the acceptance test. */
  lemma SingleByteCorruptionDetected(f: seq<Byte>, i: nat, v: Byte)
    requires IsValid(f) && i < 26 && v != f[i]
    ensures !IsValid(f[i := v])
  {
    if i == 25 {
      ChecksumIgnoresLastByte(f, v);
    } else {
      ChecksumUpdate(f, i, v);
      assert f[i := v][25] == f[25];
    }
  }
}
