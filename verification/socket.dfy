/** The client connection as the daemon sees it: `read(2)` and `write(2)` on
 *  the accepted Unix-domain socket.  The peer is an oracle: a script of what
 *  successive reads deliver.
 */
module Socket {

  /** One byte of the stream. */
  type byte = x: int | 0 <= x < 256

  /** What the next read(2) finds: bytes the peer has sent, end of stream, or
   *  a failure (an I/O error, or the receive timeout expiring). */
  datatype ReadEvent = Chunk(data: seq<byte>) | EndOfStream | Failure

  /** The reply to one read(2) asking for `want` bytes. */
  datatype ReadReply = ReadReply(count: int, data: seq<byte>, rest: seq<ReadEvent>)

  /** read(2): at most `want` bytes of the pending chunk (the remainder
   *  stays pending), 0 at end of stream, -1 on failure. */
  function ReadStep(events: seq<ReadEvent>, want: nat): (r: ReadReply)
    ensures r.count == |r.data| || (r.count == -1 && r.data == [])
    ensures |r.data| <= want
  {
    if events == [] || want == 0 then ReadReply(0, [], events)
    else match events[0]
      case EndOfStream => ReadReply(0, [], events)
      case Failure => ReadReply(-1, [], events[1..])
      case Chunk(d) =>
        if |d| <= want then ReadReply(|d|, d, events[1..])
        else ReadReply(want, d[..want], [Chunk(d[want..])] + events[1..])
  }

  /** `s` with `d` written over it from `offset` on. */
  function Spliced(s: seq<byte>, offset: nat, d: seq<byte>): (t: seq<byte>)
    requires offset + |d| <= |s|
    ensures |t| == |s|
  {
    s[..offset] + d + s[offset + |d|..]
  }

  /** Writing nothing changes nothing. */
  lemma SplicedNothing(s: seq<byte>, offset: nat)
    requires offset <= |s|
    ensures Spliced(s, offset, []) == s
  {
  }

  /** The accepted connection. */
  class Client {
    /** What the peer will deliver to the next reads. */
    var pending: seq<ReadEvent>
    /** The byte counts the daemon has asked read(2) for, in order. */
    var requested: seq<nat>
    /** The texts the daemon has written, one per write(2). */
    var sent: seq<string>

    constructor (script: seq<ReadEvent>)
      ensures pending == script && requested == [] && sent == []
    {
      pending, requested, sent := script, [], [];
    }

    /** read(fd, buffer + offset, want): stores what arrives at `offset`
     *  and leaves the rest of the buffer as it was. */
    method Read(buffer: array<byte>, offset: nat, want: nat) returns (count: int)
      requires offset + want <= buffer.Length
      modifies this, buffer
      ensures var r := ReadStep(old(pending), want);
              count == r.count && pending == r.rest
              && buffer[..] == Spliced(old(buffer[..]), offset, r.data)
      ensures requested == old(requested) + [want] && sent == old(sent)
    {
      var r := ReadStep(pending, want);
      forall k | 0 <= k < |r.data| {
        buffer[offset + k] := r.data[k];
      }
      assert buffer[..] == old(buffer[..offset]) + r.data + old(buffer[offset + |r.data|..]);
      assert buffer[..] == Spliced(old(buffer[..]), offset, r.data);
      count, pending := r.count, r.rest;
      requested := requested + [want];
    }

    method Write(text: string)
      modifies this
      ensures sent == old(sent) + [text]
      ensures pending == old(pending) && requested == old(requested)
    {
      sent := sent + [text];
    }
  }
}
