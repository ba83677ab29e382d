/** The serial channel as the program sees it: `WriteFile` of a 26-byte buffer
    and `ReadFile` of up to 26 bytes. Opening and configuring the COM port is
    not part of this model; the device's behaviour is a script of write counts
    and replies, and everything the program writes is kept as a trace. */
module Transport {
  import opened Bytes

  /** Bytes reported written by the next `WriteFile`: the next scripted count,
      or the whole 26-byte buffer once the script is used up. */
  function WriteCount(counts: seq<nat>): nat
  {
    if counts == [] then 26 else counts[0]
  }

  /** What one `ReadFile` of 26 bytes can deliver. */
  type Reply = s: seq<Byte> | |s| <= 26

  /** Bytes delivered by the next `ReadFile`: the next scripted reply, or
      nothing once the script is used up. */
  function NextReply(replies: seq<Reply>): Reply
  {
    if replies == [] then [] else replies[0]
  }

  /** A buffer after a read of `reply` into it: the bytes read come first, the
      rest of the buffer keeps what it held before. A reply longer
      than the buffer is cut to its length. */
  function Received(buffer: seq<Byte>, reply: seq<Byte>): (r: seq<Byte>)
    ensures |r| == |buffer|
    ensures |reply| <= |buffer| ==> r[..|reply|] == reply && r[|reply|..] == buffer[|reply|..]
  {
    if |reply| <= |buffer| then reply + buffer[|reply|..] else reply[..|buffer|]
  }

  class Port {
    /** Every buffer passed to `WriteFile`, oldest first. */
    var sent: seq<seq<Byte>>
    /** Counts the device will report for the coming writes. */
    var writeCounts: seq<nat>
    /** Replies the device will give to the coming reads. */
    var replies: seq<Reply>

    constructor (writeCounts: seq<nat>, replies: seq<Reply>)
      ensures sent == [] && this.writeCounts == writeCounts && this.replies == replies
    {
      sent := [];
      this.writeCounts := writeCounts;
      this.replies := replies;
    }

    /** `WriteFile(comm, data, 26, &written, 0)`. */
    method Write(data: array<Byte>) returns (written: nat)
      requires data.Length == 26
      modifies this
      ensures sent == old(sent) + [data[..]]
      ensures written == WriteCount(old(writeCounts))
      ensures writeCounts == Rest(old(writeCounts)) && replies == old(replies)
    {
      written := WriteCount(writeCounts);
      sent := sent + [data[..]];
      writeCounts := Rest(writeCounts);
    }

    /** `ReadFile(comm, data, 26, &read, 0)`. */
    method Read(data: array<Byte>) returns (read: nat)
      requires data.Length == 26
      modifies this, data
      ensures read == |NextReply(old(replies))|
      ensures data[..] == Received(old(data[..]), NextReply(old(replies)))
      ensures replies == Rest(old(replies))
      ensures sent == old(sent) && writeCounts == old(writeCounts)
    {
      var reply := NextReply(replies);
      read := |reply|;
      var i := 0;
      while i < read
        modifies data
        invariant 0 <= i <= read
        invariant forall k :: 0 <= k < i ==> data[k] == reply[k]
        invariant forall k :: i <= k < 26 ==> data[k] == old(data[k])
      {
        data[i] := reply[i];
        i := i + 1;
      }
      replies := Rest(replies);
    }
  }
}
