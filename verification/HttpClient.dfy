/**
 The client that receives a whole response (`__client::__recv`): the head up to an empty
 line, then a body that is chunked, of an announced length, or ignored.
 */
module HttpClient {
  import opened Streams
  import opened Matching
  import opened Scanning
  import opened ChunkedBody
  import opened ResponseHead
  import Printed = ResponseHeadProof

  datatype Reply =
    | NoHead
    | BadHead(why: Outcome<Head>)
    /** The head parser never ends. */
    | Loops
    /** Neither of the two needed fields. */
    | NoLength
    | Answered(head: Head, body: Result)

  /** Where the client is: which receive comes next, and what it has learned. */
  datatype Session =
    | AtHead
    | InChunks(head: Head, decoder: Decoder)
    | InBody(head: Head, total: size)
    | Ended(reply: Reply)

  predicate Apt(s: Session, cap: size) {
    match s
    case AtHead => true
    case InChunks(_, d) => cap > 0 && Fits(d, cap) && !d.Over?
    case InBody(_, total) => cap > 0 && total > 0
    case Ended(_) => true
  }

  /** The next receive. */
  function Next(s: Session, cap: size): (r: Option<Request>)
    requires Apt(s, cap)
    ensures r.None? <==> s.Ended?
  {
    match s
    case AtHead => Some(HEAD)
    case InChunks(_, d) => Ask(d, cap)
    case InBody(_, total) => Some(Request(Min(cap, total), []))
    case Ended(_) => None
  }

  /** A head that was parsed holds acceptable values only. */
  ghost predicate Sound(values: Values) { forall f | f in values :: Acceptable(f, values[f]) }

  lemma ParsedSound(s: bytes)
    requires Parse(s).Ok?
    ensures Sound(Parse(s).value.values)
  {
    var status, reason, ls := Printed.ParsedWasPrinted(s);
    var put := Printed.PutAll(map[], ls);
    Printed.CompleteIsOk(status, reason, put);
    Printed.PutAllMeaning(map[], ls);
    FineSound(put.value, ls);
  }

  lemma FineSound(m: Values, ls: seq<Printed.FieldLine>)
    requires Printed.AllFine(map[], ls) && Printed.Holds(m, map[], ls)
    ensures Sound(m)
  {
    forall f | f in m ensures Acceptable(f, m[f]) {
      var l :| l in ls && Printed.Names(l, f);
      assert Printed.Fine(map[], l);
    }
  }

  /** The length that an acceptable value announces; `sscanf` does not go beyond the type. */
  function Length(digits: bytes): size
    requires Acceptable(ContentLength, digits)
  {
    RunMeans(digits, IsDigit);
    Saturate(DecimalValue(digits))
  }

  function Chunked(head: Head, d: Decoder): Session {
    if d.Over? then Ended(Answered(head, d.result)) else InChunks(head, d)
  }

  function Sized(head: Head, total: size): Session {
    if total == 0 then Ended(Answered(head, Done([]))) else InBody(head, total)
  }

  /** What follows a head. */
  function Begin(head: Head, cap: size): (s: Session)
    requires Sound(head.values)
    ensures Apt(s, cap)
  {
    if cap == 0 then Ended(Answered(head, Done([])))
    else if TransferEncoding in head.values then InChunks(head, AtLine([]))
    else if ContentLength in head.values then Sized(head, Length(head.values[ContentLength]))
    else Ended(NoLength)
  }

  function Headed(data: bytes, cap: size): (s: Session)
    ensures Apt(s, cap)
  {
    match Parse(data)
    case Ok(head) => ParsedSound(data); Begin(head, cap)
    case Hang => Ended(Loops)
    case err => Ended(BadHead(err))
  }

  /** The bytes are those that the session asked for. */
  predicate Suits(s: Session, data: bytes, cap: size) {
    && (s.InChunks? && s.decoder.AtData? ==> |data| == s.decoder.take)
    && (s.InBody? ==> |data| == Min(cap, s.total))
  }

  /** What the client does with the bytes it received. */
  function Given(s: Session, data: bytes, cap: size): (s': Session)
    requires Apt(s, cap) && Suits(s, data, cap)
    ensures Apt(s', cap)
  {
    match s
    case AtHead => Headed(data, cap)
    case InChunks(head, d) => Chunked(head, Feed(d, data, cap))
    case InBody(head, total) => Ended(Answered(head, if cap < total then TooLong(data) else Done(data)))
    case Ended(_) => s
  }

  /** The reply when the next receive fails. */
  function Lost(s: Session): Reply {
    match s
    case AtHead => NoHead
    case InChunks(head, _) => Answered(head, RecvFailed)
    case InBody(head, _) => Answered(head, RecvFailed)
    case Ended(reply) => reply
  }

  /** The reply on a stream that ends, and what is left of the stream. */
  function Play(s: Session, stream: bytes, cap: size): (Reply, bytes)
    requires Apt(s, cap)
    decreases |stream|
  {
    if s.Ended? then (s.reply, stream)
    else match Cut(stream, Next(s, cap).value)
      case None => (Lost(s), stream)
      case Some(k) => Play(Given(s, stream[..k], cap), stream[k..], cap)
  }

  lemma PlayStep(s: Session, stream: bytes, cap: size)
    requires Apt(s, cap) && !s.Ended?
    ensures match Cut(stream, Next(s, cap).value)
            case None => Play(s, stream, cap) == (Lost(s), stream)
            case Some(k) =>
              && Suits(s, stream[..k], cap)
              && Play(s, stream, cap) == Play(Given(s, stream[..k], cap), stream[k..], cap)
  {
  }

  /** A chunked body is played by its decoder. */
  lemma {:induction false} PlayChunks(head: Head, d: Decoder, stream: bytes, cap: capacity)
    requires Fits(d, cap)
    ensures var (r, rest) := Decode(d, stream, cap); Play(Chunked(head, d), stream, cap) == (Answered(head, r), rest)
    decreases |stream|
  {
    if !d.Over? && Cut(stream, Ask(d, cap).value).Some? {
      var k := Cut(stream, Ask(d, cap).value).value;
      PlayStep(InChunks(head, d), stream, cap);
      PlayChunks(head, Feed(d, stream[..k], cap), stream[k..], cap);
    }
  }

  /** A body of announced length is one receive. */
  lemma PlaySized(head: Head, total: size, stream: bytes, cap: capacity)
    ensures var n := Min(cap, total);
      Play(Sized(head, total), stream, cap) ==
        if |stream| < n then (Answered(head, RecvFailed), stream)
        else (Answered(head, if cap < total then TooLong(stream[..n]) else Done(stream[..n])), stream[n..])
  {
    if total == 0 {
      assert stream[..0] == [] && stream[0..] == stream;
    } else {
      PlayStep(InBody(head, total), stream, cap);
    }
  }

  /** The bytes in the caller's buffer. */
  function BodyOf(reply: Reply): bytes { if reply.Answered? then Body(reply.body) else [] }

  /** The body, behind a head that was parsed. */
  method RecvBody(sock: Peer, buf: array<byte>, head: Head) returns (reply: Reply, len: nat)
    requires buf.Length <= SIZE_MAX && Sound(head.values)
    modifies sock, buf
    ensures (reply, sock.rest) == Play(Begin(head, buf.Length), old(sock.rest), buf.Length)
    ensures len <= buf.Length && buf[..len] == BodyOf(reply)
  {
    if buf.Length == 0 {
      return Answered(head, Done([])), 0;
    }
    var body;
    if TransferEncoding in head.values {
      PlayChunks(head, AtLine([]), sock.rest, buf.Length);
      body, len := RecvChunked(sock, buf);
    } else if ContentLength in head.values {
      var digits := head.values[ContentLength];
      RunMeans(digits, IsDigit);
      PlaySized(head, Length(digits), sock.rest, buf.Length);
      body, len := RecvSized(sock, buf, digits);
    } else {
      return NoLength, 0;
    }
    reply := Answered(head, body);
  }

  /** `__recv`: on return `buf[..len]` is the body. */
  method Recv(sock: Peer, buf: array<byte>) returns (reply: Reply, len: nat)
    requires buf.Length <= SIZE_MAX
    modifies sock, buf
    ensures (reply, sock.rest) == Play(AtHead, old(sock.rest), buf.Length)
    ensures len <= buf.Length && buf[..len] == BodyOf(reply)
  {
    PlayStep(AtHead, sock.rest, buf.Length);
    var data := sock.RecvTill(HEAD);
    if data.None? {
      return NoHead, 0;
    }
    var parsed := ParseResponse(data.value);
    match parsed {
      case Ok(head) =>
        ParsedSound(data.value);
        reply, len := RecvBody(sock, buf, head);
      case Hang => return Loops, 0;
      case err => return BadHead(err), 0;
    }
  }
}
