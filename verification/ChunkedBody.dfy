/**
 The body of an HTTP response (`http_chunk_parse` and the body half of `__client::__recv`),
 read through one `recv_till` after the other. `Peer` stands for the connection: what a
 `recv_till` gets from it is `Cut`, which `RecvTillRuns` proves of every fragmentation.
 */
module ChunkedBody {
  import opened Streams
  import opened Matching
  import opened Scanning

  const SIZE_MAX: nat := 0xFFFF_FFFF_FFFF_FFFF

  /** A `size_t`. */
  type size = n: nat | n <= SIZE_MAX

  /** The length of a buffer that is not empty. */
  type capacity = n: size | n > 0 witness 1

  const LINE := Request(4096, CRLF)

  /* ---------- chunk sizes ---------- */

  predicate IsHex(c: byte) { '0' <= c <= '9' || 'a' <= c <= 'f' || 'A' <= c <= 'F' }

  lemma HexMeans(c: byte)
    ensures IsHex(c) <==> IsDigit(c) || c in "abcdef" || c in "ABCDEF"
  {
  }

  predicate AllHex(s: bytes) { forall i :: 0 <= i < |s| ==> IsHex(s[i]) }

  function Digit(c: byte): nat
    requires IsHex(c)
  {
    if c <= '9' then c as int - '0' as int
    else if c <= 'F' then c as int - 'A' as int + 10
    else c as int - 'a' as int + 10
  }

  function HexValue(s: bytes): nat
    requires AllHex(s)
  {
    if s == [] then 0 else 16 * HexValue(s[..|s| - 1]) + Digit(s[|s| - 1])
  }

  /** `sscanf` does not go beyond the type. */
  function Saturate(n: nat): size { if n <= SIZE_MAX then n else SIZE_MAX }

  /**
   The size a chunk line announces: a run of hex digits, then a semicolon that is not
   the last character, or CRLF.
   */
  function LineSize(line: bytes): Option<size> {
    var n := Run(line, IsHex);
    RunMeans(line, IsHex);
    if 0 < n && n + 1 < |line| && (line[n] == ';' || (line[n] == '\r' && line[n + 1] == '\n'))
    then Some(Saturate(HexValue(line[..n]))) else None
  }

  /** `http_chunk_parse`. */
  method ChunkParse(s: bytes) returns (chunkLen: Option<size>)
    ensures chunkLen == LineSize(s)
  {
    var i := 0;
    while i + 1 < |s| && !((s[i] == '\r' && s[i + 1] == '\n') || s[i] == ';')
      invariant i <= |s| && (i + 1 <= |s| || i == 0)
      invariant AllHex(s[..i])
    {
      assert forall j | 0 <= j < i :: s[..i][j] == s[j];
      if !IsHex(s[i]) {
        RunIs(s, IsHex, i);
        return None;
      }
      i := i + 1;
    }
    if i == 0 || i + 1 >= |s| {
      return None;
    }
    assert forall j | 0 <= j < i :: s[..i][j] == s[j];
    RunIs(s, IsHex, i);
    return Some(Saturate(HexValue(s[..i])));
  }

  /* ---------- the decoder, one `recv_till` at a time ---------- */

  datatype Result =
    | Done(body: bytes)
    | TooLong(body: bytes)
    | RecvFailed
    | Illegal
    /** A `recv_till` with an empty buffer: the constructor's CHECK aborts the program. */
    | Refused
    /** The sum of sizes wrapped and the next receive would not fit into the buffer. */
    | Overrun

  /** Where the loop is: which of its three receives comes next, and what the buffer holds. */
  datatype Decoder =
    | AtLine(got: bytes)
    | AtData(got: bytes, size: size, take: nat)
    | AtEnd(got: bytes)
    | Over(result: Result)

  /** The receives fit into the buffer. */
  predicate Fits(d: Decoder, cap: capacity) {
    match d
    case AtLine(got) => |got| <= cap
    case AtData(got, size, take) => 0 < take <= size && |got| + take <= cap && (take < size ==> |got| + take == cap)
    case AtEnd(got) => |got| <= cap
    case Over(_) => true
  }

  /** The next receive. */
  function Ask(d: Decoder, cap: capacity): (r: Option<Request>)
    requires Fits(d, cap)
    ensures r.None? <==> d.Over?
  {
    match d
    case AtLine(_) => Some(LINE)
    case AtData(_, _, take) => Some(Request(take, []))
    case AtEnd(_) => Some(Request(2, []))
    case Over(_) => None
  }

  /** What the loop does with the size of a chunk; the sum is that of a `size_t`. */
  function Plan(got: bytes, size: size, cap: capacity): (d: Decoder)
    requires |got| <= cap
    ensures Fits(d, cap)
  {
    if size == 0 then Over(Done(got))
    else
      var sum := (|got| + size) % (SIZE_MAX + 1);
      var take := if sum > cap then cap - |got| else size;
      if take == 0 then Over(Refused)
      else if |got| + take > cap then Over(Overrun)
      else AtData(got, size, take)
  }

  /** What the loop does with the bytes it received. */
  function Feed(d: Decoder, data: bytes, cap: capacity): (d': Decoder)
    requires Fits(d, cap) && (d.AtData? ==> |data| == d.take)
    ensures Fits(d', cap)
  {
    match d
    case AtLine(got) => (match LineSize(data) case None => Over(Illegal) case Some(size) => Plan(got, size, cap))
    case AtData(got, size, take) => if take < size then Over(TooLong(got + data)) else AtEnd(got + data)
    case AtEnd(got) => if data == CRLF then AtLine(got) else Over(Illegal)
    case Over(_) => d
  }

  /** The result on a stream that ends, and what is left of the stream. */
  function Decode(d: Decoder, stream: bytes, cap: capacity): (Result, bytes)
    requires Fits(d, cap)
    decreases |stream|
  {
    if d.Over? then (d.result, stream)
    else match Cut(stream, Ask(d, cap).value)
      case None => (RecvFailed, stream)
      case Some(k) => Decode(Feed(d, stream[..k], cap), stream[k..], cap)
  }

  /** The connection as the client sees it: bytes to come, then its end. */
  class Peer {
    var rest: bytes

    /** `await(recv_till)`; `None` is any result but success. */
    method RecvTill(r: Request) returns (data: Option<bytes>)
      modifies this
      ensures match Cut(old(rest), r)
              case None => data == None && rest == old(rest)
              case Some(k) => data == Some(old(rest)[..k]) && rest == old(rest)[k..]
    {
      match Cut(rest, r) {
        case None => data := None;
        case Some(k) => data, rest := Some(rest[..k]), rest[k..];
      }
    }
  }

  /** `recv_till` without a pattern writes to `buf[at..]`. */
  method FillAt(buf: array<byte>, at: nat, data: bytes)
    requires at + |data| <= buf.Length
    modifies buf
    ensures buf[..at + |data|] == old(buf[..at]) + data
  {
    for i := 0 to |data|
      invariant buf[..at] == old(buf[..at])
      invariant buf[at..at + i] == data[..i]
    {
      buf[at + i] := data[i];
    }
    assert buf[..at + |data|] == buf[..at] + buf[at..at + |data|];
  }

  function Body(r: Result): bytes {
    match r
    case Done(body) => body
    case TooLong(body) => body
    case _ => []
  }

  /**
   Receive chunk data and the CRLF after it; `None` when the loop goes on. `got` and `got'`
   are what the buffer holds before and after.
   */
  method RecvData(sock: Peer, buf: array<byte>, recved: nat, chunkLen: size, recvLen: nat, ghost got: bytes)
    returns (ret: Option<Result>, ghost got': bytes)
    requires 0 < buf.Length <= SIZE_MAX && recved <= buf.Length && buf[..recved] == got
    requires Fits(AtData(got, chunkLen, recvLen), buf.Length)
    modifies sock, buf
    ensures buf[..recved + recvLen] == got' || ret == Some(RecvFailed)
    ensures var all := Decode(AtData(got, chunkLen, recvLen), old(sock.rest), buf.Length);
      match ret
      case Some(r) => (r, sock.rest) == all && (if r.TooLong? then r.body == got' else r == RecvFailed || r == Illegal)
      case None => Decode(AtLine(got'), sock.rest, buf.Length) == all && |sock.rest| < |old(sock.rest)|
  {
    got' := got;
    var data := sock.RecvTill(Request(recvLen, []));
    if data.None? {
      return Some(RecvFailed), got';
    }
    FillAt(buf, recved, data.value);
    got' := got + data.value;
    if recvLen < chunkLen {
      return Some(TooLong(buf[..recved + recvLen])), got';
    }
    ret := RecvEnd(sock, got', buf.Length);
  }

  /** Receive the CRLF after the data of a chunk. */
  method RecvEnd(sock: Peer, ghost got: bytes, ghost cap: capacity) returns (ret: Option<Result>)
    requires |got| <= cap
    modifies sock
    ensures match ret
            case Some(r) =>
              && (r, sock.rest) == Decode(AtEnd(got), old(sock.rest), cap)
              && (r == RecvFailed || r == Illegal)
            case None =>
              && Decode(AtLine(got), sock.rest, cap) == Decode(AtEnd(got), old(sock.rest), cap)
              && |sock.rest| < |old(sock.rest)|
  {
    var end := sock.RecvTill(Request(2, []));
    if end.None? {
      return Some(RecvFailed);
    }
    if end.value != CRLF {
      return Some(Illegal);
    }
    return None;
  }

  /** Receive a chunk line and plan for its data; `None` when there is data to receive. */
  method RecvLine(sock: Peer, got: bytes, cap: capacity) returns (ret: Option<Result>, chunkLen: size, recvLen: size)
    requires |got| <= cap
    modifies sock
    ensures var all := Decode(AtLine(got), old(sock.rest), cap);
      match ret
      case Some(r) => (r, sock.rest) == all && Body(r) == (if r.Done? then got else [])
      case None =>
        && Fits(AtData(got, chunkLen, recvLen), cap)
        && Decode(AtData(got, chunkLen, recvLen), sock.rest, cap) == all
        && |sock.rest| < |old(sock.rest)|
  {
    var recved := |got|;
    chunkLen, recvLen := 0, 0;
    var line := sock.RecvTill(LINE);
    if line.None? {
      return Some(RecvFailed), 0, 0;
    }
    var parsed := ChunkParse(line.value);
    if parsed.None? {
      return Some(Illegal), 0, 0;
    }
    chunkLen := parsed.value;
    if chunkLen == 0 {
      return Some(Done(got)), 0, 0;
    }
    recvLen := if (recved + chunkLen) % (SIZE_MAX + 1) > cap then cap - recved else chunkLen;
    if recvLen == 0 {
      return Some(Refused), 0, 0;
    }
    ret := if recved + recvLen > cap then Some(Overrun) else None;
  }

  /** One chunk: `None` when the loop goes on behind it. */
  method RecvChunk(sock: Peer, buf: array<byte>, recved: nat, ghost got: bytes)
    returns (ret: Option<Result>, recved': nat, ghost got': bytes)
    requires recved <= buf.Length && 0 < buf.Length <= SIZE_MAX && buf[..recved] == got
    modifies sock, buf
    ensures recved' <= buf.Length
    ensures match ret
            case Some(r) =>
              && (r, sock.rest) == Decode(AtLine(got), old(sock.rest), buf.Length)
              && |Body(r)| <= buf.Length && buf[..|Body(r)|] == Body(r)
            case None =>
              && buf[..recved'] == got'
              && Decode(AtLine(got'), sock.rest, buf.Length) == Decode(AtLine(got), old(sock.rest), buf.Length)
              && |sock.rest| < |old(sock.rest)|
  {
    got' := got;
    var stop, chunkLen, recvLen := RecvLine(sock, buf[..recved], buf.Length);
    if stop.Some? {
      return stop, recved, got';
    }
    recved' := recved + recvLen;
    ret, got' := RecvData(sock, buf, recved, chunkLen, recvLen, got);
  }

  /** The chunked half of `__recv`: on return `buf[..len]` is the body. */
  method RecvChunked(sock: Peer, buf: array<byte>) returns (ret: Result, len: nat)
    requires 0 < buf.Length <= SIZE_MAX
    modifies sock, buf
    ensures (ret, sock.rest) == Decode(AtLine([]), old(sock.rest), buf.Length)
    ensures len <= buf.Length && buf[..len] == Body(ret)
  {
    ghost var got := [];
    var recved: nat := 0;
    while true
      invariant recved <= buf.Length && buf[..recved] == got
      invariant Decode(AtLine(got), sock.rest, buf.Length) == Decode(AtLine([]), old(sock.rest), buf.Length)
      decreases |sock.rest|
    {
      var stop, recved', got' := RecvChunk(sock, buf, recved, got);
      if stop.Some? {
        return stop.value, |Body(stop.value)|;
      }
      recved, got := recved', got';
    }
  }

  /* ---------- Content-Length ---------- */

  /** The Content-Length half of `__recv`. */
  method RecvSized(sock: Peer, buf: array<byte>, digits: bytes) returns (ret: Result, len: nat)
    requires 0 < buf.Length <= SIZE_MAX && AllDecimal(digits)
    modifies sock, buf
    ensures len <= buf.Length && buf[..len] == Body(ret)
    ensures var total := Saturate(DecimalValue(digits));
      var n := Min(buf.Length, total);
      if |old(sock.rest)| < n then ret == RecvFailed && sock.rest == old(sock.rest)
      else
        && ret == (if buf.Length < total then TooLong(old(sock.rest)[..n]) else Done(old(sock.rest)[..n]))
        && sock.rest == old(sock.rest)[n..]
  {
    var bodyLen := Saturate(DecimalValue(digits));
    if bodyLen == 0 {
      return Done([]), 0;
    }
    len := if buf.Length > bodyLen then bodyLen else buf.Length;
    var data := sock.RecvTill(Request(len, []));
    if data.None? {
      return RecvFailed, 0;
    }
    FillAt(buf, 0, data.value);
    ret := if len < bodyLen then TooLong(data.value) else Done(data.value);
  }
}
