/** The client on the connection of `recv_till`: whole responses, whatever the fragments. */
module HttpClientRuns {
  import opened Streams
  import opened Matching
  import opened ChunkedBody
  import opened ResponseHead
  import opened RecvTillSpec
  import opened RecvTillRuns
  import opened SequentialRuns
  import opened HttpClient
  import opened HttpClientProof
  import Printed = ResponseHeadProof
  import Bodies = ChunkedBodyProof

  /** The requests are those the client makes when it is given the parts. */
  ghost predicate Follows(s: Session, parts: seq<bytes>, reqs: seq<Request>, cap: size)
    requires Apt(s, cap)
    decreases |parts|
  {
    if parts == [] then reqs == (if s.Ended? then [] else [Next(s, cap).value])
    else
      && !s.Ended? && reqs != [] && reqs[0] == Next(s, cap).value && Suits(s, parts[0], cap)
      && Follows(Given(s, parts[0], cap), parts[1..], reqs[1..], cap)
  }

  /** Where the parts bring the client. */
  function After(s: Session, parts: seq<bytes>, cap: size): (s': Session)
    requires Apt(s, cap)
    ensures Apt(s', cap)
    decreases |parts|
  {
    if parts == [] || !Suits(s, parts[0], cap) then s
    else After(Given(s, parts[0], cap), parts[1..], cap)
  }

  lemma {:induction false} DialoguePlays(s: Session, stream: bytes, reqs: seq<Request>, cap: size)
    requires Apt(s, cap) && Follows(s, Serve(stream, reqs).parts, reqs, cap)
    ensures var service := Serve(stream, reqs);
      Play(s, stream, cap) == (Lost(After(s, service.parts, cap)), service.rest)
    decreases |reqs|
  {
    var parts := Serve(stream, reqs).parts;
    if parts != [] {
      ServeFirst(stream, reqs);
      var k := Cut(stream, reqs[0]).value;
      assert parts[1..] == Serve(stream[k..], reqs[1..]).parts;
      PlayStep(s, stream, cap);
      DialoguePlays(Given(s, stream[..k], cap), stream[k..], reqs[1..], cap);
    } else if !s.Ended? {
      PlayStep(s, stream, cap);
    }
  }

  /** The connection between two events, when nobody but the client has used it. */
  ghost predicate Uses(s: Conn, cap: size) {
    !s.fallback && Follows(AtHead, Parts(s.done), Live(s), cap)
  }

  /**
   MAIN RESULT. On any run and for any fragmentation the client is at any moment where it
   is on the bytes that have arrived: head and body, and the rest is untouched.
   */
  lemma SessionThroughRecvTill(es: seq<Event>, client: Client, cap: size)
    requires Legal(INITIAL, es, client) && Clean(INITIAL, es, client)
    requires Exec(INITIAL, es, client).Some? && Uses(Exec(INITIAL, es, client).value, cap)
    ensures var s := Exec(INITIAL, es, client).value;
      Play(AtHead, Chunks(es), cap) == (Lost(After(AtHead, Parts(s.done), cap)), Pending(s))
  {
    RunRefinesServe(es, client);
    DialoguePlays(AtHead, Chunks(es), Live(Exec(INITIAL, es, client).value), cap);
  }

  /* ---------- the run of the client ---------- */

  /** The receives that the client makes on a stream. */
  function Script(s: Session, stream: bytes, cap: size): seq<Request>
    requires Apt(s, cap)
    decreases |stream|
  {
    if s.Ended? then []
    else
      [Next(s, cap).value]
      + match Cut(stream, Next(s, cap).value)
        case None => []
        case Some(k) => Script(Given(s, stream[..k], cap), stream[k..], cap)
  }

  lemma SplitSeen(seen: bytes, future: bytes, k: nat)
    requires k <= |seen|
    ensures (seen + future)[..k] == seen[..k] && (seen + future)[k..] == seen[k..] + future
  {
  }

  lemma ScriptStep(s: Session, seen: bytes, future: bytes, cap: size)
    requires Apt(s, cap) && !s.Ended? && Cut(seen, Next(s, cap).value).Some?
    ensures var r := Next(s, cap).value;
      var k := Cut(seen, r).value;
      && Suits(s, seen[..k], cap)
      && Script(s, seen + future, cap) == [r] + Script(Given(s, seen[..k], cap), seen[k..] + future, cap)
  {
    var r := Next(s, cap).value;
    var k := Cut(seen, r).value;
    CutStable(seen, future, r);
    SplitSeen(seen, future, k);
  }

  lemma ScriptFirst(s: Session, stream: bytes, cap: size)
    requires Apt(s, cap) && !s.Ended?
    ensures Script(s, stream, cap) != [] && Script(s, stream, cap)[0] == Next(s, cap).value
  {
  }

  /** What a script says as soon as `n` of its receives have been served. */
  function Asked(script: seq<Request>, n: nat): seq<Request> { script[..Min(n + 1, |script|)] }

  lemma AskedMore(r: Request, script: seq<Request>, n: nat)
    ensures Asked([r] + script, n + 1)[0] == r && Asked([r] + script, n + 1)[1..] == Asked(script, n)
    ensures Asked([r] + script, 0) == [r]
  {
  }

  lemma ScriptServed(s: Session, seen: bytes, future: bytes, cap: size)
    requires Apt(s, cap) && !s.Ended?
    ensures var r := Next(s, cap).value;
      var parts := Serve(seen, Script(s, seen + future, cap)).parts;
      match Cut(seen, r)
      case None => parts == [] && Asked(Script(s, seen + future, cap), 0) == [r]
      case Some(k) =>
        && Suits(s, seen[..k], cap)
        && parts == [seen[..k]] + Serve(seen[k..], Script(Given(s, seen[..k], cap), seen[k..] + future, cap)).parts
  {
    ScriptFirst(s, seen + future, cap);
    if Cut(seen, Next(s, cap).value).Some? {
      ScriptStep(s, seen, future, cap);
    }
  }

  lemma FollowsMore(s: Session, part: bytes, parts: seq<bytes>, script: seq<Request>, cap: size)
    requires Apt(s, cap) && !s.Ended? && Suits(s, part, cap)
    requires Follows(Given(s, part, cap), parts, Asked(script, |parts|), cap)
    ensures Follows(s, [part] + parts, Asked([Next(s, cap).value] + script, |parts| + 1), cap)
  {
    AskedMore(Next(s, cap).value, script, |parts|);
    assert ([part] + parts)[1..] == parts;
  }

  /** A client by the script follows the session, whatever is still to come. */
  lemma {:induction false} ScriptFollows(s: Session, seen: bytes, future: bytes, cap: size)
    requires Apt(s, cap)
    ensures var script := Script(s, seen + future, cap);
      var parts := Serve(seen, script).parts;
      Follows(s, parts, Asked(script, |parts|), cap)
    decreases |seen|
  {
    if !s.Ended? {
      ScriptServed(s, seen, future, cap);
      match Cut(seen, Next(s, cap).value) {
        case None =>
        case Some(k) =>
          var s' := Given(s, seen[..k], cap);
          var script := Script(s', seen[k..] + future, cap);
          ScriptStep(s, seen, future, cap);
          ScriptFollows(s', seen[k..], future, cap);
          FollowsMore(s, seen[..k], Serve(seen[k..], script).parts, script, cap);
      }
    }
  }

  /** The run of the client on a connection that reads the fragments, with `future` still to come. */
  ghost predicate ClientRun(fragments: seq<bytes>, future: bytes, cap: size, es: seq<Event>, client: Client) {
    var script := Script(AtHead, Flatten(fragments) + future, cap);
    es == Run(script, fragments) && client == Sequential(script, fragments) && Legal(INITIAL, es, client)
  }

  /**
   MAIN RESULT. For every stream and every fragmentation there is the run of the client,
   which makes the receives that the session asks for, as the parts come. No CHECK of the
   connection fails, and at any moment the client is where the session is on the bytes that
   have arrived.
   */
  lemma ClientOverAnyFragments(fragments: seq<bytes>, future: bytes, cap: size, es: seq<Event>, client: Client)
    requires ClientRun(fragments, future, cap, es, client)
    ensures Clean(INITIAL, es, client) && Exec(INITIAL, es, client).Some?
    ensures var s := Exec(INITIAL, es, client).value;
      && Uses(s, cap)
      && Play(AtHead, Flatten(fragments), cap) == (Lost(After(AtHead, Parts(s.done), cap)), Pending(s))
  {
    var stream := Flatten(fragments) + future;
    SequentialWaits(Script(AtHead, stream, cap), fragments);
    ScriptFollows(AtHead, Flatten(fragments), future, cap);
    WaitingUses(Exec(INITIAL, es, client).value, Flatten(fragments), Script(AtHead, stream, cap), cap);
    SessionThroughRecvTill(es, client, cap);
  }

  lemma WaitingUses(s: Conn, seen: bytes, script: seq<Request>, cap: size)
    requires Waits(s, script) && Parts(s.done) == Serve(seen, script).parts
    requires Follows(AtHead, Parts(s.done), Asked(script, |Parts(s.done)|), cap)
    ensures Uses(s, cap)
  {
  }

  /** The client of the run has returned with this reply, and the connection holds those bytes. */
  ghost predicate Returned(es: seq<Event>, client: Client, cap: size, reply: Reply, rest: bytes) {
    match Exec(INITIAL, es, client)
    case None => false
    case Some(s) => Uses(s, cap) && After(AtHead, Parts(s.done), cap) == Ended(reply) && Pending(s) == rest
  }

  /** A reply that is not that of a failed receive is not given before its time. */
  lemma ReplyReturned(fragments: seq<bytes>, future: bytes, cap: size, es: seq<Event>, client: Client)
    requires ClientRun(fragments, future, cap, es, client)
    requires var r := Play(AtHead, Flatten(fragments), cap).0; r.Answered? && r.body != RecvFailed
    ensures var (r, rest) := Play(AtHead, Flatten(fragments), cap); Returned(es, client, cap, r, rest)
  {
    ClientOverAnyFragments(fragments, future, cap, es, client);
  }

  /**
   MAIN RESULT. A response with a chunked body that fits, in whatever fragments it arrives:
   as soon as its last byte has arrived the client has returned with status, phrase, fields
   and body, and what follows is left on the connection.
   */
  lemma ChunkedReceived(fragments: seq<bytes>, future: bytes, cap: capacity, es: seq<Event>, client: Client,
                        status: nat, reason: bytes, ls: seq<Printed.FieldLine>,
                        cs: seq<Bodies.Chunk>, last: Bodies.Head, tail: bytes)
    returns (head: Head)
    requires ClientRun(fragments, future, cap, es, client)
    requires Sendable(status, reason, ls) && HasField(ls, TransferEncoding)
    requires Bodies.Good(cs, last) && |Bodies.Whole(cs)| <= cap
    requires Flatten(fragments) == Printed.Print(status, reason, ls) + (Bodies.Encode(cs, last) + tail)
    ensures HeadIs(head, status, reason, ls)
    ensures Returned(es, client, cap, Answered(head, Done(Bodies.Whole(cs))), tail)
  {
    ChunkedArrives(status, reason, ls, cs, last, tail, cap);
    ReplyReturned(fragments, future, cap, es, client);
    head := Play(AtHead, Flatten(fragments), cap).0.head;
  }

  /** MAIN RESULT. The same of a body of announced length, which is cut if it does not fit. */
  lemma SizedReceived(fragments: seq<bytes>, future: bytes, cap: capacity, es: seq<Event>, client: Client,
                      status: nat, reason: bytes, ls: seq<Printed.FieldLine>, l: Printed.FieldLine,
                      body: bytes, tail: bytes)
    returns (head: Head)
    requires ClientRun(fragments, future, cap, es, client)
    requires Sendable(status, reason, ls) && !HasField(ls, TransferEncoding)
    requires l in ls && Announces(l, |body|) && |body| <= SIZE_MAX
    requires Flatten(fragments) == Printed.Print(status, reason, ls) + (body + tail)
    ensures HeadIs(head, status, reason, ls)
    ensures Returned(es, client, cap,
                     Answered(head, if |body| <= cap then Done(body) else TooLong(body[..cap])),
                     if |body| <= cap then tail else body[cap..] + tail)
  {
    SizedArrives(status, reason, ls, l, body, tail, cap);
    ReplyReturned(fragments, future, cap, es, client);
    head := Play(AtHead, Flatten(fragments), cap).0.head;
  }

  /* ---------- there is such a run ---------- */

  lemma {:induction false} ScriptShort(s: Session, stream: bytes, cap: size)
    requires Apt(s, cap)
    ensures forall r | r in Script(s, stream, cap) :: |r.pattern| <= FIRST_SIZE1
    decreases |stream|
  {
    if !s.Ended? && Cut(stream, Next(s, cap).value).Some? {
      var k := Cut(stream, Next(s, cap).value).value;
      ScriptShort(Given(s, stream[..k], cap), stream[k..], cap);
    }
  }

  /** The part that the next receive takes leaves the same to be taken. */
  lemma PlayPast(s: Session, seen: bytes, future: bytes, cap: size)
    requires Apt(s, cap) && !s.Ended? && Cut(seen, Next(s, cap).value).Some?
    ensures var k := Cut(seen, Next(s, cap).value).value;
      && Suits(s, seen[..k], cap)
      && Play(s, seen + future, cap) == Play(Given(s, seen[..k], cap), seen[k..] + future, cap)
  {
    var k := Cut(seen, Next(s, cap).value).value;
    CutStable(seen, future, Next(s, cap).value);
    SplitSeen(seen, future, k);
    PlayStep(s, seen + future, cap);
  }

  lemma CountFirst(s: Session, seen: bytes, future: bytes, cap: size)
    requires Apt(s, cap) && !s.Ended?
    ensures var r := Next(s, cap).value;
      var script := Script(s, seen + future, cap);
      match Cut(seen, r)
      case None => Count(seen, script) == 0 && script != []
      case Some(k) =>
        && Suits(s, seen[..k], cap)
        && var more := Script(Given(s, seen[..k], cap), seen[k..] + future, cap);
           Count(seen, script) == 1 + Count(seen[k..], more) && |script| == 1 + |more|
  {
    ScriptServed(s, seen, future, cap);
    ScriptFirst(s, seen + future, cap);
    if Cut(seen, Next(s, cap).value).Some? {
      ScriptStep(s, seen, future, cap);
    }
  }

  /** A client that takes the whole stream has not returned before. */
  lemma {:induction false} ScriptWaits(s: Session, seen: bytes, future: bytes, cap: size)
    requires Apt(s, cap) && future != [] && Play(s, seen + future, cap).1 == []
    ensures Count(seen, Script(s, seen + future, cap)) < |Script(s, seen + future, cap)|
    decreases |seen|
  {
    assert !s.Ended?;
    CountFirst(s, seen, future, cap);
    match Cut(seen, Next(s, cap).value) {
      case None =>
      case Some(k) =>
        PlayPast(s, seen, future, cap);
        ScriptWaits(Given(s, seen[..k], cap), seen[k..], future, cap);
    }
  }

  /** Any stream that the client takes whole can arrive byte by byte. */
  lemma ArrivesByteByByte(stream: bytes, cap: size) returns (es: seq<Event>, client: Client)
    requires Play(AtHead, stream, cap).1 == []
    ensures Flatten(Singles(stream)) == stream && ClientRun(Singles(stream), [], cap, es, client)
  {
    var script := Script(AtHead, stream, cap);
    ScriptShort(AtHead, stream, cap);
    forall i | 0 <= i < |stream| ensures Count(stream[..i], script) < |script| {
      assert stream == stream[..i] + stream[i..];
      ScriptWaits(AtHead, stream[..i], stream[i..], cap);
    }
    SinglesLegal(script, stream);
    SinglesWhole(stream);
    assert stream + [] == stream;
    es, client := Run(script, Singles(stream)), Sequential(script, Singles(stream));
  }
}
