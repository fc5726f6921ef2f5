/** The main results on whole responses: the client gets what was sent, and nothing else. */
module HttpClientProof {
  import opened Streams
  import opened Matching
  import opened Scanning
  import opened ChunkedBody
  import opened ResponseHead
  import opened HttpClient
  import Printed = ResponseHeadProof
  import Hanging = ResponseHeadHang
  import Bodies = ChunkedBodyProof

  /** The literals of the client. */
  lemma Literals()
    ensures HEAD == Request(4096, "\r\n\r\n") && LINE == Request(4096, "\r\n")
    ensures VERSION == "HTTP/1.1 " && CHUNKED == "chunked" && CRLF == "\r\n"
    ensures SIZE_MAX + 1 == 0x1_0000_0000 * 0x1_0000_0000
  {
  }

  /* ---------- the head is just what the first receive takes ---------- */

  /** The first empty line begins at `e`. */
  ghost predicate EndsAt(s: bytes, e: nat) { MatchAt(s, HEAD_END, e) && NoMatchIn(s, HEAD_END, 0, e) }

  ghost predicate NoReturn(s: bytes) { forall i :: 0 <= i < |s| ==> s[i] != '\r' }

  lemma EndMeans(s: bytes, i: nat)
    ensures MatchAt(s, HEAD_END, i) <==> MatchAt(s, CRLF, i) && MatchAt(s, CRLF, i + 2)
    ensures MatchAt(s, CRLF, i) <==> i + 2 <= |s| && s[i] == '\r' && s[i + 1] == '\n'
  {
    if i + 2 <= |s| {
      assert s[i..i + 2] == [s[i], s[i + 1]];
    }
    if i + 4 <= |s| {
      assert s[i..i + 4] == s[i..i + 2] + s[i + 2..i + 4];
    }
  }

  lemma EndsLater(p: bytes, u: bytes, e: nat)
    requires EndsAt(u, e) && forall i: nat | i < |p| :: !MatchAt(p + u, HEAD_END, i)
    ensures EndsAt(p + u, |p| + e)
  {
    var s := p + u;
    forall i: nat | |p| <= i <= |s| ensures MatchAt(s, HEAD_END, i) <==> MatchAt(u, HEAD_END, i - |p|) {
      if i + 4 <= |s| {
        assert s[i..i + 4] == u[i - |p|..i - |p| + 4];
      }
    }
  }

  lemma NoEndWithin(q: bytes, u: bytes, i: nat)
    requires NoReturn(q) && i < |q|
    ensures !MatchAt(q + u, HEAD_END, i)
  {
    EndMeans(q + u, i);
    assert (q + u)[i] == q[i];
  }

  lemma NoEndInValue(q: bytes, value: bytes, u: bytes, i: nat)
    requires Printed.GoodValue(value) && |q| <= i < |q| + |value|
    ensures !MatchAt(q + (value + (CRLF + u)), HEAD_END, i)
  {
    var s, v := q + (value + (CRLF + u)), value + CRLF;
    EndMeans(s, i);
    EndMeans(v, i - |q|);
    assert s == (q + v) + u;
    assert s[i] == v[i - |q|] && s[i + 1] == v[i - |q| + 1];
  }

  lemma NoEndAtStart(q: bytes, u: bytes, i: nat)
    requires q != [] && q[0] != '\r' && i < 2
    ensures !MatchAt(CRLF + (q + u), HEAD_END, i)
  {
    EndMeans(CRLF + (q + u), i);
    assert (CRLF + (q + u))[2] == q[0];
  }

  lemma Shift(p: bytes, u: bytes, i: nat)
    requires |p| <= i
    ensures MatchAt(p + u, HEAD_END, i) <==> MatchAt(u, HEAD_END, i - |p|)
  {
    if i + 4 <= |p + u| {
      assert (p + u)[i..i + 4] == u[i - |p|..i - |p| + 4];
    }
  }

  /** No empty line begins before the end of a line whose name and padding are `q`. */
  lemma NoEndInLine(q: bytes, value: bytes, u: bytes, i: nat)
    requires q != [] && NoReturn(q) && Printed.GoodValue(value) && i < 2 + |q| + |value|
    ensures !MatchAt(CRLF + (q + (value + (CRLF + u))), HEAD_END, i)
  {
    var w := value + (CRLF + u);
    if i < 2 {
      NoEndAtStart(q, w, i);
    } else {
      Shift(CRLF, q + w, i);
      if i - 2 < |q| {
        NoEndWithin(q, w, i - 2);
      } else {
        NoEndInValue(q, value, u, i - 2);
      }
    }
  }

  function Label(l: Printed.FieldLine): bytes { l.name + ([':'] + Printed.Spaces(l.pad)) }

  lemma LabelPlain(l: Printed.FieldLine)
    requires Printed.GoodName(l.name)
    ensures NoReturn(Label(l)) && Label(l) != []
  {
    var q, n := Label(l), |l.name|;
    forall i | 0 <= i < |q| ensures q[i] != '\r' {
      assert i < n ==> q[i] == l.name[i] && IsToken(l.name[i]);
      assert i == n ==> q[i] == ':';
      assert i > n ==> q[i] == ' ';
    }
  }

  lemma JoinLabel(l: Printed.FieldLine, tail: bytes)
    ensures Printed.PrintLine(l) + tail == Label(l) + (l.value + (CRLF + tail))
  {
  }

  lemma JoinAll(q: bytes, value: bytes, u: bytes)
    ensures CRLF + (q + (value + u)) == (CRLF + (q + value)) + u
  {
  }

  lemma LineEndsLater(q: bytes, value: bytes, u: bytes, e: nat)
    requires q != [] && NoReturn(q) && Printed.GoodValue(value) && EndsAt(CRLF + u, e) && e + 2 == |u|
    ensures EndsAt(CRLF + (q + (value + (CRLF + u))), |q + (value + (CRLF + u))| - 2)
  {
    var p := CRLF + (q + value);
    JoinAll(q, value, CRLF + u);
    forall i: nat | i < |p| ensures !MatchAt(p + (CRLF + u), HEAD_END, i) {
      NoEndInLine(q, value, u, i);
    }
    EndsLater(p, CRLF + u, e);
  }

  lemma OneLineMore(l: Printed.FieldLine, u: bytes)
    requires Printed.GoodName(l.name) && Printed.GoodValue(l.value) && EndsOnce(u)
    ensures EndsOnce(Printed.PrintLine(l) + u)
  {
    LabelPlain(l);
    JoinLabel(l, u);
    LineEndsLater(Label(l), l.value, u, |u| - 2);
  }

  lemma GoodFirst(ls: seq<Printed.FieldLine>)
    requires Printed.Good(ls) && ls != []
    ensures Printed.GoodName(ls[0].name) && Printed.GoodValue(ls[0].value) && Printed.Good(ls[1..])
    ensures Printed.PrintLines(ls) == Printed.PrintLine(ls[0]) + Printed.PrintLines(ls[1..])
  {
    assert ls[0] in ls;
  }

  lemma NoLinesEnd()
    ensures EndsOnce(CRLF)
  {
  }

  /** The first empty line of `CRLF + t` is at its end. */
  ghost predicate EndsOnce(t: bytes) { |t| >= 2 && EndsAt(CRLF + t, |t| - 2) }

  lemma {:induction false} LinesEnd(ls: seq<Printed.FieldLine>)
    requires Printed.Good(ls)
    ensures EndsOnce(Printed.PrintLines(ls))
  {
    if ls == [] {
      NoLinesEnd();
    } else {
      GoodFirst(ls);
      LinesEnd(ls[1..]);
      OneLineMore(ls[0], Printed.PrintLines(ls[1..]));
    }
  }

  function StatusOf(status: nat, reason: bytes): bytes
    requires status < 1000
  {
    VERSION + (Printed.Digits(status) + ([' '] + reason))
  }

  lemma StatusPlain(status: nat, reason: bytes)
    requires status < 1000 && Printed.GoodReason(reason)
    ensures NoReturn(StatusOf(status, reason))
  {
    var q, d := StatusOf(status, reason), Printed.Digits(status);
    Printed.DigitsBack(status);
    forall i | 0 <= i < |q| ensures q[i] != '\r' {
      assert i < 9 ==> q[i] == VERSION[i];
      assert 9 <= i < 12 ==> q[i] == d[i - 9] && IsDigit(d[i - 9]);
      assert i > 12 ==> q[i] == reason[i - 13] && IsReason(reason[i - 13]);
    }
  }

  lemma JoinStatus(status: nat, reason: bytes, ls: seq<Printed.FieldLine>)
    requires status < 1000
    ensures Printed.Print(status, reason, ls) == StatusOf(status, reason) + FieldsOf(ls)
  {
  }

  /** The head ends in the first empty line. */
  ghost predicate EndsInEnd(s: bytes) { |s| >= 4 && EndsAt(s, |s| - 4) }

  lemma EndsBehind(q: bytes, u: bytes)
    requires NoReturn(q) && EndsInEnd(u)
    ensures EndsInEnd(q + u)
  {
    forall i: nat | i < |q| ensures !MatchAt(q + u, HEAD_END, i) {
      NoEndWithin(q, u, i);
    }
    EndsLater(q, u, |u| - 4);
  }

  /** The fields, with the end of the status line before them. */
  function FieldsOf(ls: seq<Printed.FieldLine>): bytes { CRLF + Printed.PrintLines(ls) }

  lemma FieldsEnd(ls: seq<Printed.FieldLine>)
    requires Printed.Good(ls)
    ensures EndsInEnd(FieldsOf(ls))
  {
    LinesEnd(ls);
  }

  lemma StatusEnds(status: nat, reason: bytes, ls: seq<Printed.FieldLine>)
    requires status < 1000 && Printed.GoodReason(reason) && Printed.Good(ls)
    ensures EndsInEnd(StatusOf(status, reason) + FieldsOf(ls))
  {
    StatusPlain(status, reason);
    FieldsEnd(ls);
    EndsBehind(StatusOf(status, reason), FieldsOf(ls));
  }

  lemma PrintEnds(status: nat, reason: bytes, ls: seq<Printed.FieldLine>)
    requires status < 1000 && Printed.GoodReason(reason) && Printed.Good(ls)
    ensures EndsInEnd(Printed.Print(status, reason, ls))
  {
    JoinStatus(status, reason, ls);
    StatusEnds(status, reason, ls);
  }

  lemma CutAtEnd(s: bytes, tail: bytes)
    requires |s| <= HEAD.cap && EndsInEnd(s)
    ensures Cut(s + tail, HEAD) == Some(|s|)
  {
    FindIs(s, HEAD_END, |s| - 4);
    CutStable(s, tail, HEAD);
  }

  /** A printed head that fits the client's buffer is just what `recv_till` takes. */
  lemma HeadCut(status: nat, reason: bytes, ls: seq<Printed.FieldLine>, tail: bytes)
    requires status < 1000 && Printed.GoodReason(reason) && Printed.Good(ls)
    requires |Printed.Print(status, reason, ls)| <= 4096
    ensures var s := Printed.Print(status, reason, ls); Cut(s + tail, HEAD) == Some(|s|)
  {
    PrintEnds(status, reason, ls);
    CutAtEnd(Printed.Print(status, reason, ls), tail);
  }

  /* ---------- the client gets what was sent ---------- */

  /** A head that a server may send to this client. */
  ghost predicate Sendable(status: nat, reason: bytes, ls: seq<Printed.FieldLine>) {
    && status < 1000 && Printed.GoodReason(reason) && Printed.Good(ls) && Printed.AllFine(map[], ls)
    && |Printed.Print(status, reason, ls)| <= 4096
  }

  ghost predicate HeadIs(head: Head, status: nat, reason: bytes, ls: seq<Printed.FieldLine>) {
    head.status == status && head.reason == reason && Printed.Holds(head.values, map[], ls)
  }

  lemma HeadReceived(status: nat, reason: bytes, ls: seq<Printed.FieldLine>, rest: bytes, cap: size)
    returns (head: Head)
    requires Sendable(status, reason, ls)
    ensures HeadIs(head, status, reason, ls) && Sound(head.values)
    ensures Play(AtHead, Printed.Print(status, reason, ls) + rest, cap) == Play(Begin(head, cap), rest, cap)
  {
    var s, put := Printed.Print(status, reason, ls), Printed.PutAll(map[], ls);
    Printed.PutAllMeaning(map[], ls);
    Printed.ParseInvertsPrint(status, reason, ls);
    head := Head(status, reason, put.value);
    assert Parse(s) == Outcome.Ok(head);
    ParsedSound(s);
    HeadCut(status, reason, ls, rest);
    PlayHead(s, rest, cap);
  }

  lemma PlayHead(s: bytes, rest: bytes, cap: size)
    requires Cut(s + rest, HEAD) == Some(|s|)
    ensures Play(AtHead, s + rest, cap) == Play(Headed(s, cap), rest, cap)
  {
    CutBody(s, rest, 0);
    PlayStep(AtHead, s + rest, cap);
  }

  ghost predicate HasField(ls: seq<Printed.FieldLine>, f: Field) { exists l :: l in ls && Printed.Names(l, f) }

  /**
   MAIN RESULT. A response with a chunked body: the client gets status, phrase, the needed
   fields and the whole body, and takes no byte of what follows; a body that does not fit
   is dealt with by its first chunk that does not.
   */
  lemma ChunkedArrives(status: nat, reason: bytes, ls: seq<Printed.FieldLine>,
                       cs: seq<Bodies.Chunk>, last: Bodies.Head, tail: bytes, cap: capacity)
    requires Sendable(status, reason, ls) && HasField(ls, TransferEncoding) && Bodies.Good(cs, last)
    ensures var (r, rest) := Play(AtHead, Printed.Print(status, reason, ls) + (Bodies.Encode(cs, last) + tail), cap);
      && r.Answered? && HeadIs(r.head, status, reason, ls)
      && r.body == Bodies.Verdict(cs, [], cap)
      && (|Bodies.Whole(cs)| <= cap ==> r.body == Done(Bodies.Whole(cs)) && rest == tail)
  {
    var body := Bodies.Encode(cs, last) + tail;
    var head := HeadReceived(status, reason, ls, body, cap);
    PlayChunks(head, AtLine([]), body, cap);
    Bodies.EncodedDecodes(cs, last, [], tail, cap);
    if |Bodies.Whole(cs)| <= cap {
      Bodies.VerdictFits(cs, [], cap);
      assert [] + Bodies.Whole(cs) == Bodies.Whole(cs);
    }
  }

  /** `l` announces a body of `n` bytes. */
  ghost predicate Announces(l: Printed.FieldLine, n: nat) {
    Printed.Names(l, ContentLength) && AllDecimal(l.value) && DecimalValue(l.value) == n
  }

  /**
   MAIN RESULT. A response with a body of announced length, in whatever spelling: the client
   gets status, phrase, the needed fields and the body, cut at the capacity and reported as
   too long exactly when it is longer.
   */
  lemma SizedArrives(status: nat, reason: bytes, ls: seq<Printed.FieldLine>, l: Printed.FieldLine,
                     body: bytes, tail: bytes, cap: capacity)
    requires Sendable(status, reason, ls) && !HasField(ls, TransferEncoding)
    requires l in ls && Announces(l, |body|) && |body| <= SIZE_MAX
    ensures var (r, rest) := Play(AtHead, Printed.Print(status, reason, ls) + (body + tail), cap);
      && r.Answered? && HeadIs(r.head, status, reason, ls)
      && r.body == (if |body| <= cap then Done(body) else TooLong(body[..cap]))
      && rest == (if |body| <= cap then tail else body[cap..] + tail)
  {
    var head := HeadReceived(status, reason, ls, body + tail, cap);
    SizedBegins(head, ls, l, |body|, cap);
    PlaySized(head, |body|, body + tail, cap);
    CutBody(body, tail, cap);
  }

  lemma SizedBegins(head: Head, ls: seq<Printed.FieldLine>, l: Printed.FieldLine, n: size, cap: capacity)
    requires Sound(head.values) && Printed.Holds(head.values, map[], ls) && !HasField(ls, TransferEncoding)
    requires l in ls && Announces(l, n)
    ensures Begin(head, cap) == Sized(head, n)
  {
    assert head.values[ContentLength] == l.value;
  }

  lemma CutBody(body: bytes, tail: bytes, cap: nat)
    ensures (body + tail)[..|body|] == body && (body + tail)[|body|..] == tail
    ensures cap < |body| ==> (body + tail)[..cap] == body[..cap] && (body + tail)[cap..] == body[cap..] + tail
  {
  }

  /** Without a buffer the body is ignored, and not received. */
  lemma IgnoredArrives(status: nat, reason: bytes, ls: seq<Printed.FieldLine>, tail: bytes)
    requires Sendable(status, reason, ls)
    ensures var (r, rest) := Play(AtHead, Printed.Print(status, reason, ls) + tail, 0);
      r.Answered? && HeadIs(r.head, status, reason, ls) && r.body == Done([]) && rest == tail
  {
    var head := HeadReceived(status, reason, ls, tail, 0);
  }

  /* ---------- and nothing else ---------- */

  /** What the stream behind the head was when the client reports success. */
  ghost predicate BodyWasSent(head: Head, stream: bytes, body: bytes, rest: bytes) {
    if TransferEncoding in head.values then exists fs, last :: Bodies.Accepted([], stream, body, rest, fs, last)
    else
      && ContentLength in head.values && Acceptable(ContentLength, head.values[ContentLength])
      && stream == body + rest && |body| == Length(head.values[ContentLength])
  }

  lemma BodySent(head: Head, stream: bytes, cap: capacity)
    requires Sound(head.values)
    requires var r := Play(Begin(head, cap), stream, cap).0; r.Answered? && r.body.Done?
    ensures var (r, rest) := Play(Begin(head, cap), stream, cap); BodyWasSent(head, stream, r.body.body, rest)
  {
    if TransferEncoding in head.values {
      PlayChunks(head, AtLine([]), stream, cap);
      var fs, last := Bodies.DoneWasEncoded(stream, [], cap);
    } else if ContentLength in head.values {
      PlaySized(head, Length(head.values[ContentLength]), stream, cap);
    }
  }

  lemma HeadSplits(stream: bytes, cap: size) returns (data: bytes, rest: bytes)
    requires Cut(stream, HEAD).Some?
    ensures stream == data + rest && Cut(stream, HEAD) == Some(|data|) && stream[..|data|] == data
    ensures Play(AtHead, stream, cap) == Play(Headed(data, cap), rest, cap)
  {
    data, rest := Bodies.CutSplits(stream, HEAD);
    PlayHead(data, rest, cap);
  }

  /**
   MAIN RESULT. Nothing else is accepted: when the client reports success, the stream is a
   printed head with that status and phrase and those fields, and a body as they announce
   it, down to the last byte that was taken.
   */
  lemma SuccessWasSent(stream: bytes, cap: capacity)
    returns (status: nat, reason: bytes, ls: seq<Printed.FieldLine>, sent: bytes)
    requires var r := Play(AtHead, stream, cap).0; r.Answered? && r.body.Done?
    ensures var (r, rest) := Play(AtHead, stream, cap);
      && Sendable(status, reason, ls) && HeadIs(r.head, status, reason, ls)
      && stream == Printed.Print(status, reason, ls) + sent
      && BodyWasSent(r.head, sent, r.body.body, rest)
  {
    var data;
    data, sent := HeadSplits(stream, cap);
    ParsedSound(data);
    var head := Parse(data).value;
    BegunMeans(head, sent, cap);
    BodySent(head, sent, cap);
    status, reason, ls := Printed.ParsedWasPrinted(data);
    Printed.CompleteIsOk(status, reason, Printed.PutAll(map[], ls));
    Printed.PutAllMeaning(map[], ls);
  }

  /* ---------- when there is no answer ---------- */

  /** The exact conditions of the replies without an answer, but for the one that never comes. */
  lemma RepliesMean(stream: bytes, cap: size)
    ensures var r := Play(AtHead, stream, cap).0;
      match Cut(stream, HEAD)
      case None => r == NoHead
      case Some(k) =>
        var parsed := Parse(stream[..k]);
        && r != NoHead
        && (r.BadHead? <==> !parsed.Ok? && parsed != Hang) && (r.BadHead? ==> r.why == parsed)
        && (r.NoLength? <==>
              parsed.Ok? && cap > 0 && TransferEncoding !in parsed.value.values
              && ContentLength !in parsed.value.values)
        && (r.Answered? ==> parsed == Outcome.Ok(r.head))
  {
    match Cut(stream, HEAD) {
      case None => PlayStep(AtHead, stream, cap);
      case Some(k) =>
        var data, rest := HeadSplits(stream, cap);
        if Parse(data).Ok? {
          ParsedSound(data);
          BegunMeans(Parse(data).value, rest, cap);
        }
    }
  }

  lemma BegunMeans(head: Head, stream: bytes, cap: size)
    requires Sound(head.values)
    ensures var r := Play(Begin(head, cap), stream, cap).0;
      if cap > 0 && TransferEncoding !in head.values && ContentLength !in head.values then r == NoLength
      else r.Answered? && r.head == head
  {
    if cap > 0 {
      if TransferEncoding in head.values {
        PlayChunks(head, AtLine([]), stream, cap);
      } else if ContentLength in head.values {
        PlaySized(head, Length(head.values[ContentLength]), stream, cap);
      }
    }
  }

  /* ---------- when the client never returns ---------- */

  /** The first receive takes a head on which the parser never ends. */
  ghost predicate HangsOn(stream: bytes, k: nat, status: nat, reason: bytes, ls: seq<Printed.FieldLine>, t: bytes) {
    Cut(stream, HEAD) == Some(k) && Hanging.HeadHangs(stream[..k], status, reason, ls, t)
  }

  /** The exact condition, for all bytes that arrive. */
  lemma LoopsExactly(stream: bytes, cap: size)
    ensures Play(AtHead, stream, cap).0 == Loops <==> exists k, status, reason, ls, t ::
      HangsOn(stream, k, status, reason, ls, t)
  {
    match Cut(stream, HEAD) {
      case None => PlayStep(AtHead, stream, cap);
      case Some(k) =>
        var data, rest := HeadSplits(stream, cap);
        Hanging.HangsExactly(data);
        HeadedLoops(data, rest, cap);
        if Parse(data) == Hang {
          var status, reason, ls, t :| Hanging.HeadHangs(data, status, reason, ls, t);
          assert HangsOn(stream, k, status, reason, ls, t);
        }
    }
  }

  lemma HeadedLoops(data: bytes, rest: bytes, cap: size)
    ensures Play(Headed(data, cap), rest, cap).0 == Loops <==> Parse(data) == Hang
  {
    if Parse(data).Ok? {
      ParsedSound(data);
      BegunMeans(Parse(data).value, rest, cap);
    }
  }
}
