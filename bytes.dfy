/** Machine-level value types shared by every component: bytes, the source's
    `uint32_t` arguments, little-endian fields and the small sequence helpers
    used to consume a scripted transport. */
module Bytes {

  /** One byte on the wire (`uint8_t`). */
  type Byte = x: int | 0 <= x < 256

  /** An unsigned 32-bit integer (`uint32_t`). */
  type U32 = x: int | 0 <= x < 0x1_0000_0000

  /** `x + 1` in 32-bit unsigned arithmetic: the largest value wraps to 0. */
  function Inc32(x: U32): (r: U32)
    ensures r == (x + 1) % 0x1_0000_0000
  {
    if x == 0xFFFF_FFFF then 0 else x + 1
  }

  datatype Option<T> = None | Some(value: T)

  /** `n` zero bytes. */
  function Zeros(n: nat): (z: seq<Byte>)
    ensures |z| == n && forall k :: 0 <= k < n ==> z[k] == 0
  {
    if n == 0 then [] else Zeros(n - 1) + [0]
  }

  /** The low 16 bits of `x` as two bytes, least significant first
      (`x & 0xff, (x >> 8) & 0xff`). */
  function LE16(x: nat): seq<Byte>
  {
    [x % 256, (x / 256) % 256]
  }

  /** The little-endian 16-bit value held in `s[i]`, `s[i + 1]`. */
  function U16At(s: seq<Byte>, i: nat): (v: nat)
    requires i + 1 < |s|
    ensures v < 0x1_0000
  {
    s[i] as int + 256 * (s[i + 1] as int)
  }

  /** Reading back a 16-bit little-endian field gives the low 16 bits of the
      value that was written. */
  lemma LE16RoundTrip(x: nat, pre: seq<Byte>, post: seq<Byte>)
    ensures U16At(pre + LE16(x) + post, |pre|) == x % 0x1_0000
  {
    var s := pre + LE16(x) + post;
    assert s[|pre|] == x % 256 && s[|pre| + 1] == (x / 256) % 256;
    var q := x / 256;
    assert x == 256 * q + x % 256;
    assert q == 256 * (q / 256) + q % 256;
    assert x == 0x1_0000 * (q / 256) + (256 * (q % 256) + x % 256);
  }

  /** Everything after the first element of a script (nothing when it is empty). */
  function Rest<T>(s: seq<T>): (r: seq<T>)
    ensures |r| == if |s| == 0 then 0 else |s| - 1
  {
    if s == [] then [] else s[1..]
  }

  /** The script after `n` elements have been consumed, one at a time. */
  function Drop<T>(s: seq<T>, n: nat): seq<T>
  {
    if n == 0 then s else Rest(Drop(s, n - 1))
  }

  /** The first few consumptions written out. */
  lemma DropFew<T>(s: seq<T>)
    ensures Drop(s, 0) == s && Drop(s, 1) == Rest(s)
    ensures Drop(s, 2) == Rest(Rest(s)) && Drop(s, 3) == Rest(Rest(Rest(s)))
  {
  }

  /** Consuming `a` elements and then `b` more consumes `a + b`. */
  lemma {:induction false} DropDrop<T>(s: seq<T>, a: nat, b: nat)
    ensures Drop(Drop(s, a), b) == Drop(s, a + b)
  {
    if b > 0 {
      DropDrop(s, a, b - 1);
    }
  }
}
