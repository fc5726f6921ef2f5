/**
 Length-prefixed packets out of a byte stream (`tcp_alloc_cb2`, `tcp_recv_cb2`). The
 specification parses a whole stream at once; the implementation reads a header, asks
 the length getter, then reads the rest, in whatever fragments the stream comes.
 */
module Framing {
  import opened Streams

  /** What `bind` fixes: header length, longest packet, and the length getter. */
  datatype Format = Format(header: nat, max: nat, lener: bytes -> nat) {
    ghost predicate Valid() { 0 < header <= max }
  }

  datatype Status = Reading | TooShort | TooLong

  /** The packets of a stream, what is left of it, and whether a bad length ended it. */
  datatype Parsed = Parsed(packets: seq<bytes>, rest: bytes, status: Status)

  function Parse(f: Format, stream: bytes): Parsed
    requires f.Valid()
    decreases |stream|
  {
    if |stream| < f.header then Parsed([], stream, Reading)
    else
      var n := f.lener(stream[..f.header]);
      if n < f.header then Parsed([], stream, TooShort)
      else if n > f.max then Parsed([], stream, TooLong)
      else if |stream| < n then Parsed([], stream, Reading)
      else
        var more := Parse(f, stream[n..]);
        Parsed([stream[..n]] + more.packets, more.rest, more.status)
  }

  /** A parsed stream begins with its first packet, and goes on as the rest of it is parsed. */
  lemma ParseStep(f: Format, stream: bytes)
    requires f.Valid() && Parse(f, stream).packets != []
    ensures var p, r := Parse(f, stream).packets[0], Parse(f, stream);
      && p <= stream && f.header <= |p| <= f.max && |p| == f.lener(p[..f.header])
      && r.packets == [p] + Parse(f, stream[|p|..]).packets
      && r.rest == Parse(f, stream[|p|..]).rest && r.status == Parse(f, stream[|p|..]).status
  {
    var p := Parse(f, stream).packets[0];
    assert p[..f.header] == stream[..f.header];
  }

  /** Packets and rest are the stream; nothing is lost or reordered. */
  lemma {:induction false} ParseConserves(f: Format, stream: bytes)
    requires f.Valid()
    ensures Flatten(Parse(f, stream).packets) + Parse(f, stream).rest == stream
    ensures forall p | p in Parse(f, stream).packets :: f.header <= |p| <= f.max && |p| == f.lener(p[..f.header])
    decreases |stream|
  {
    var r := Parse(f, stream);
    if r.packets == [] {
      assert r.rest == stream;
    } else {
      var p := r.packets[0];
      ParseStep(f, stream);
      var tail := Parse(f, stream[|p|..]);
      ParseConserves(f, stream[|p|..]);
      assert r.packets[1..] == tail.packets;
      Regroup(p, Flatten(tail.packets), tail.rest);
      assert p + stream[|p|..] == stream;
    }
  }

  /** A stream that begins with a packet. */
  lemma ParsePacket(f: Format, p: bytes, more: bytes)
    requires f.Valid() && f.header <= |p| <= f.max && f.lener(p[..f.header]) == |p|
    ensures var r := Parse(f, more);
      Parse(f, p + more) == Parsed([p] + r.packets, r.rest, r.status)
  {
    assert (p + more)[..f.header] == p[..f.header];
    assert (p + more)[..|p|] == p && (p + more)[|p|..] == more;
  }

  /** Parsing goes on from the rest when more bytes come. */
  lemma {:induction false} ParseMore(f: Format, stream: bytes, more: bytes)
    requires f.Valid() && Parse(f, stream).status == Reading
    ensures var r, s := Parse(f, stream), Parse(f, Parse(f, stream).rest + more);
      Parse(f, stream + more) == Parsed(r.packets + s.packets, s.rest, s.status)
    decreases |stream|
  {
    var r := Parse(f, stream);
    if r.packets == [] {
      assert r.rest == stream;
      assert [] + Parse(f, stream + more).packets == Parse(f, stream + more).packets;
    } else {
      var p := r.packets[0];
      var tail := stream[|p|..];
      ParseStep(f, stream);
      ParseMore(f, tail, more);
      assert stream + more == p + (tail + more);
      ParsePacket(f, p, tail + more);
      Regroup([p], Parse(f, tail).packets, Parse(f, r.rest + more).packets);
    }
  }

  /** What a header announces, when it is there. */
  function Announced(f: Format, s: bytes): Option<nat>
    requires f.Valid()
  {
    if |s| < f.header then None else Some(f.lener(s[..f.header]))
  }

  /**
   Why parsing stopped where it did: the next header is not complete, or announces more bytes
   than there are; or its length is less than the header's, or more than the buffer takes.
   */
  lemma {:induction false} StatusMeans(f: Format, stream: bytes)
    requires f.Valid()
    ensures var r := Parse(f, stream);
      var n := Announced(f, r.rest);
      && (r.status == TooShort <==> n.Some? && n.value < f.header)
      && (r.status == TooLong <==> n.Some? && n.value > f.max)
      && (r.status == Reading <==> n.None? || (f.header <= n.value <= f.max && |r.rest| < n.value))
    decreases |stream|
  {
    var r := Parse(f, stream);
    if r.packets != [] {
      ParseStep(f, stream);
      StatusMeans(f, stream[|r.packets[0]|..]);
    }
  }

  /** A bad length is final. */
  lemma {:induction false} ParseBroken(f: Format, stream: bytes, more: bytes)
    requires f.Valid() && Parse(f, stream).status != Reading
    ensures Parse(f, stream + more).packets == Parse(f, stream).packets
    ensures Parse(f, stream + more).status == Parse(f, stream).status
    decreases |stream|
  {
    var r := Parse(f, stream);
    assert |stream| >= f.header;
    assert (stream + more)[..f.header] == stream[..f.header];
    if r.packets != [] {
      var n := |r.packets[0]|;
      ParseBroken(f, stream[n..], more);
      assert (stream + more)[..n] == stream[..n] && (stream + more)[n..] == stream[n..] + more;
    }
  }

  /** The buffer of `tcp::connected` after `bind`. */
  class Framer {
    const format: Format
    const buf2: array<byte>
    var len2: nat
    var packetLen: nat
    var status: Status
    ghost var received: bytes
    ghost var packets: seq<bytes>

    /**
     Packets and buffer are the parse of everything received. The packet length is known
     as soon as the header is complete, and the buffer never holds a whole packet.
     */
    ghost predicate Valid()
      reads this, buf2
    {
      && format.Valid() && buf2.Length == format.max && len2 <= buf2.Length
      && Parse(format, received) == Parsed(packets, buf2[..len2], status)
      && (status == Reading ==>
            packetLen == (if len2 < format.header then 0 else format.lener(buf2[..format.header])))
      && (status == Reading && len2 >= format.header ==> len2 < packetLen <= buf2.Length)
    }

    /** `bind_inner`. */
    constructor (format: Format)
      requires format.Valid()
      ensures Valid() && received == [] && packets == [] && status == Reading && this.format == format
    {
      this.format := format;
      buf2 := new byte[format.max];
      len2, packetLen, status := 0, 0, Reading;
      received, packets := [], [];
    }

    /** `tcp_alloc_cb2`: the room offered behind `len2`; always some, never past the buffer. */
    method Alloc() returns (room: nat)
      requires Valid() && status == Reading
      ensures 0 < room <= buf2.Length - len2
      ensures len2 + room == if len2 < format.header then format.header else packetLen
    {
      room := if len2 < format.header then format.header - len2 else packetLen - len2;
    }

    /** The read into the offered room. */
    method Store(chunk: bytes)
      requires len2 + |chunk| <= buf2.Length
      modifies buf2, this`len2
      ensures len2 == old(len2) + |chunk| && buf2[..len2] == old(buf2[..len2]) + chunk
    {
      ghost var before := buf2[..len2];
      forall k | 0 <= k < |chunk| {
        buf2[len2 + k] := chunk[k];
      }
      len2 := len2 + |chunk|;
      assert buf2[..len2] == before + chunk;
    }

    /**
     `tcp_recv_cb2` up to the routing: a complete packet is handed out, a bad length
     ends the connection with its code.
     */
    method Receive(chunk: bytes) returns (packet: Option<bytes>)
      requires Valid() && status == Reading
      requires 0 < |chunk| <= (if len2 < format.header then format.header else packetLen) - len2
      modifies this, buf2
      ensures Valid() && received == old(received) + chunk
      ensures packets == old(packets) + if packet.Some? then [packet.value] else []
    {
      ghost var stream, rest := received, buf2[..len2];
      ParseMore(format, stream, chunk);
      Store(chunk);
      received := stream + chunk;
      ghost var now := rest + chunk;
      packet := None;
      assert len2 >= format.header ==> buf2[..format.header] == now[..format.header];
      assert |rest| >= format.header ==> now[..format.header] == rest[..format.header] == old(buf2[..format.header]);
      if packetLen == 0 && len2 == format.header {
        packetLen := format.lener(buf2[..len2]);
        assert now[..format.header] == now;
        if packetLen < format.header {
          status := TooShort;
          assert packets + [] == packets;
          return;
        }
        if packetLen > buf2.Length {
          status := TooLong;
          assert packets + [] == packets;
          return;
        }
      }
      if packetLen != 0 && len2 == packetLen {
        packet := Some(buf2[..len2]);
        OnePacket(format, now);
        packets := packets + [buf2[..len2]];
        len2, packetLen := 0, 0;
      } else {
        assert packets + [] == packets;
      }
    }
  }

  /** A buffer that holds exactly one packet. */
  lemma OnePacket(f: Format, s: bytes)
    requires f.Valid() && f.header <= |s| <= f.max && f.lener(s[..f.header]) == |s|
    ensures Parse(f, s) == Parsed([s], [], Reading)
  {
    assert s + [] == s;
    ParsePacket(f, s, []);
  }
}
