/** The main results on chunked bodies: decoding inverts encoding, whatever the fragments. */
module ChunkedBodyProof {
  import opened Streams
  import opened Matching
  import opened Scanning
  import opened ChunkedBody
  import opened RecvTillSpec
  import opened RecvTillRuns

  /* ---------- encoding ---------- */

  /** A chunk-size with its chunk-extension. */
  datatype Head = Head(digits: bytes, extension: bytes)

  datatype Chunk = Chunk(head: Head, data: bytes)

  /** Section 3.6.1 of RFC 2616; the length limit is that of the client's line buffer. */
  ghost predicate GoodHead(h: Head) {
    && h.digits != [] && AllHex(h.digits) && HexValue(h.digits) <= SIZE_MAX
    && (h.extension != [] ==> h.extension[0] == ';')
    && NoMatchIn(h.extension + CRLF, CRLF, 0, |h.extension|)
    && |Line(h)| <= 4096
  }

  ghost predicate GoodChunk(c: Chunk) {
    GoodHead(c.head) && c.data != [] && HexValue(c.head.digits) == |c.data|
  }

  ghost predicate Good(cs: seq<Chunk>, last: Head) {
    && (forall i :: 0 <= i < |cs| ==> GoodChunk(cs[i]))
    && GoodHead(last) && HexValue(last.digits) == 0
  }

  function Line(h: Head): bytes { h.digits + (h.extension + CRLF) }

  /** The chunked body up to the last-chunk line; the trailer follows. */
  function Encode(cs: seq<Chunk>, last: Head): bytes {
    if cs == [] then Line(last)
    else Line(cs[0].head) + (cs[0].data + (CRLF + Encode(cs[1..], last)))
  }

  /** The body that the chunks carry. */
  function Whole(cs: seq<Chunk>): bytes {
    if cs == [] then [] else cs[0].data + Whole(cs[1..])
  }

  lemma LineShift(h: Head, i: nat)
    requires GoodHead(h) && i < |h.digits| + |h.extension|
    ensures !MatchAt(Line(h), CRLF, i)
  {
    var line, n := Line(h), |h.digits|;
    if i < n {
      assert line[i] == h.digits[i] && IsHex(h.digits[i]);
      assert line[i..i + 2][0] == line[i];
    } else {
      assert line[i..i + 2] == (h.extension + CRLF)[i - n..i - n + 2];
      assert !MatchAt(h.extension + CRLF, CRLF, i - n);
    }
  }

  /** The line is just what `recv_till` takes. */
  lemma LineCut(h: Head, tail: bytes)
    requires GoodHead(h)
    ensures Cut(Line(h) + tail, LINE) == Some(|Line(h)|)
    ensures (Line(h) + tail)[..|Line(h)|] == Line(h) && (Line(h) + tail)[|Line(h)|..] == tail
  {
    var line, end := Line(h), |h.digits| + |h.extension|;
    forall i: nat | 0 <= i < end ensures !MatchAt(line, CRLF, i) {
      LineShift(h, i);
    }
    assert line[end..end + 2] == CRLF;
    FindIs(line, CRLF, end);
    CutStable(line, tail, LINE);
  }

  lemma LineParses(h: Head)
    requires GoodHead(h)
    ensures LineSize(Line(h)) == Some(HexValue(h.digits))
  {
    LineSaturates(h);
  }

  /** A line of any length: a size beyond the type is the largest there is. */
  lemma LineSaturates(h: Head)
    requires h.digits != [] && AllHex(h.digits) && (h.extension != [] ==> h.extension[0] == ';')
    ensures LineSize(Line(h)) ==
      Some(if HexValue(h.digits) < 0x1_0000_0000_0000_0000 then HexValue(h.digits) else 0xFFFF_FFFF_FFFF_FFFF)
  {
    var line, n := Line(h), |h.digits|;
    assert line[..n] == h.digits;
    if h.extension == [] {
      assert line[n] == '\r' && line[n + 1] == '\n';
    } else {
      assert line[n] == h.extension[0];
    }
    assert forall i | 0 <= i < n :: line[i] == h.digits[i];
    RunIs(line, IsHex, n);
  }

  /** One step of the decoder. */
  lemma DecodeStep(d: Decoder, data: bytes, tail: bytes, cap: capacity)
    requires Fits(d, cap) && !d.Over? && Cut(data + tail, Ask(d, cap).value) == Some(|data|)
    ensures Decode(d, data + tail, cap) == Decode(Feed(d, data, cap), tail, cap)
  {
    assert (data + tail)[..|data|] == data && (data + tail)[|data|..] == tail;
  }

  lemma LineDecodes(h: Head, got: bytes, tail: bytes, cap: capacity)
    requires GoodHead(h) && |got| <= cap
    ensures Decode(AtLine(got), Line(h) + tail, cap) == Decode(Plan(got, HexValue(h.digits), cap), tail, cap)
  {
    LineCut(h, tail);
    LineParses(h);
    DecodeStep(AtLine(got), Line(h), tail, cap);
  }

  lemma EndDecodes(got: bytes, tail: bytes, cap: capacity)
    requires |got| <= cap
    ensures Decode(AtEnd(got), CRLF + tail, cap) == Decode(AtLine(got), tail, cap)
  {
    DecodeStep(AtEnd(got), CRLF, tail, cap);
  }

  /** What becomes of a chunk with `data`. */
  function Fate(got: bytes, data: bytes, cap: capacity): Option<Result> {
    if |got| + |data| <= cap then None
    else if |got| + |data| > SIZE_MAX then Some(Overrun)
    else if |got| == cap then Some(Refused)
    else Some(TooLong((got + data)[..cap]))
  }

  lemma DataDecodes(got: bytes, data: bytes, tail: bytes, cap: capacity)
    requires |got| <= cap && 0 < |data| <= SIZE_MAX
    ensures var r := Decode(Plan(got, |data|, cap), data + (CRLF + tail), cap);
      match Fate(got, data, cap)
      case None => r == Decode(AtLine(got + data), tail, cap)
      case Some(f) => r.0 == f
  {
    if |got| + |data| <= cap {
      DecodeStep(AtData(got, |data|, |data|), data, CRLF + tail, cap);
      EndDecodes(got + data, tail, cap);
    } else if |got| + |data| <= SIZE_MAX && |got| < cap {
      var take := cap - |got|;
      assert data + (CRLF + tail) == data[..take] + (data[take..] + (CRLF + tail));
      DecodeStep(AtData(got, |data|, take), data[..take], data[take..] + (CRLF + tail), cap);
      assert got + data[..take] == (got + data)[..cap];
    }
  }

  /** The first chunk that does not fit decides; otherwise the whole body is received. */
  function Verdict(cs: seq<Chunk>, got: bytes, cap: capacity): Result {
    if cs == [] then Done(got)
    else match Fate(got, cs[0].data, cap)
      case Some(f) => f
      case None => Verdict(cs[1..], got + cs[0].data, cap)
  }

  lemma {:induction false} EncodedDecodes(cs: seq<Chunk>, last: Head, got: bytes, tail: bytes, cap: capacity)
    requires Good(cs, last) && |got| <= cap
    ensures var (r, rest) := Decode(AtLine(got), Encode(cs, last) + tail, cap);
      r == Verdict(cs, got, cap) && (r.Done? ==> rest == tail)
  {
    if cs == [] {
      LineDecodes(last, got, tail, cap);
    } else {
      var c, more := cs[0], Encode(cs[1..], last) + tail;
      assert Encode(cs, last) + tail == Line(c.head) + (c.data + (CRLF + more));
      LineDecodes(c.head, got, c.data + (CRLF + more), cap);
      DataDecodes(got, c.data, more, cap);
      if Fate(got, c.data, cap).None? {
        EncodedDecodes(cs[1..], last, got + c.data, tail, cap);
      }
    }
  }

  /** The bytes of the first `i` chunks. */
  function Total(cs: seq<Chunk>, i: nat): nat
    requires i <= |cs|
  {
    |Whole(cs[..i])|
  }

  lemma TotalStep(cs: seq<Chunk>, i: nat)
    requires 0 < i <= |cs|
    ensures Total(cs, i) == |cs[0].data| + Total(cs[1..], i - 1)
  {
    assert cs[..i][1..] == cs[1..][..i - 1];
  }

  /** Chunk `i` is the first that does not fit behind `n` bytes. */
  ghost predicate Crosses(cs: seq<Chunk>, n: nat, cap: capacity, i: nat) {
    i < |cs| && n + Total(cs, i) <= cap < n + Total(cs, i + 1)
  }

  lemma {:induction false} VerdictFits(cs: seq<Chunk>, got: bytes, cap: capacity)
    requires |got| + |Whole(cs)| <= cap
    ensures Verdict(cs, got, cap) == Done(got + Whole(cs))
  {
    if cs == [] {
      assert got + [] == got;
    } else {
      VerdictFits(cs[1..], got + cs[0].data, cap);
      assert got + Whole(cs) == (got + cs[0].data) + Whole(cs[1..]);
    }
  }

  lemma {:induction false} VerdictCrosses(cs: seq<Chunk>, got: bytes, cap: capacity, i: nat)
    requires Crosses(cs, |got|, cap, i) && |got| <= cap
    ensures cap <= |got + Whole(cs)|
    ensures Verdict(cs, got, cap) ==
      if |got| + Total(cs, i + 1) > SIZE_MAX then Overrun
      else if |got| + Total(cs, i) == cap then Refused
      else TooLong((got + Whole(cs))[..cap])
  {
    var c := cs[0];
    assert got + Whole(cs) == (got + c.data) + Whole(cs[1..]);
    TotalStep(cs, i + 1);
    if i == 0 {
      assert cs[..0] == [] && cs[1..][..0] == [];
      assert (got + Whole(cs))[..cap] == (got + c.data)[..cap];
    } else {
      TotalStep(cs, i);
      VerdictCrosses(cs[1..], got + c.data, cap, i - 1);
    }
  }

  /** A body that is too long has a first chunk that does not fit. */
  lemma {:induction false} SomeCrosses(cs: seq<Chunk>, n: nat, cap: capacity) returns (i: nat)
    requires n <= cap < n + |Whole(cs)|
    ensures Crosses(cs, n, cap, i)
  {
    assert cs[..0] == [];
    TotalStep(cs, 1);
    assert cs[1..][..0] == [];
    if n + |cs[0].data| > cap {
      i := 0;
    } else {
      i := SomeCrosses(cs[1..], n + |cs[0].data|, cap);
      TotalStep(cs, i + 1);
      TotalStep(cs, i + 2);
      i := i + 1;
    }
  }

  /**
   MAIN RESULT. Decoding inverts encoding, for every list of chunks, extensions and
   spelling of the sizes, and whatever follows. A body that fits is received whole and
   just the encoding is consumed. One that does not fit is cut at the capacity and
   reported as too long, if and only if the first chunk that crosses the capacity begins
   before it; one that begins right at a full buffer makes the client ask for an empty
   receive, and sizes that do not add up in a `size_t` defeat the bound.
   */
  lemma DecodeInvertsEncode(cs: seq<Chunk>, last: Head, tail: bytes, cap: capacity)
    requires Good(cs, last)
    ensures var (r, rest) := Decode(AtLine([]), Encode(cs, last) + tail, cap);
      && (|Whole(cs)| <= cap ==> r == Done(Whole(cs)) && rest == tail)
      && (|Whole(cs)| > cap ==>
            exists i: nat | Crosses(cs, 0, cap, i) ::
              r == if Total(cs, i + 1) > SIZE_MAX then Overrun
                   else if Total(cs, i) == cap then Refused
                   else TooLong(Whole(cs)[..cap]))
  {
    EncodedDecodes(cs, last, [], tail, cap);
    assert [] + Whole(cs) == Whole(cs);
    if |Whole(cs)| <= cap {
      VerdictFits(cs, [], cap);
    } else {
      var i := SomeCrosses(cs, 0, cap);
      VerdictCrosses(cs, [], cap, i);
    }
  }

  /* ---------- spelling a size ---------- */

  function HexChar(d: nat): (c: byte)
    requires d < 16
    ensures IsHex(c) && Digit(c) == d
  {
    if d < 10 then ('0' as int + d) as char else ('a' as int + d - 10) as char
  }

  function Hex(n: nat): bytes {
    (if n < 16 then [] else Hex(n / 16)) + [HexChar(n % 16)]
  }

  lemma {:induction false} HexInverse(n: nat)
    ensures AllHex(Hex(n)) && HexValue(Hex(n)) == n
  {
    var s := Hex(n);
    if n >= 16 {
      HexInverse(n / 16);
      assert s[..|s| - 1] == Hex(n / 16);
    }
  }

  lemma DigitSpelling(c: byte, d: byte)
    requires IsHex(c) && SameLetter(c, d)
    ensures IsHex(d) && Digit(d) == Digit(c)
  {
  }

  /** A size in any spelling, with capitals or without. */
  lemma {:induction false} HexSpelling(s: bytes, t: bytes)
    requires AllHex(s) && SameWord(s, t)
    ensures AllHex(t) && HexValue(t) == HexValue(s)
  {
    forall i | 0 <= i < |t| ensures IsHex(t[i]) {
      DigitSpelling(s[i], t[i]);
    }
    if s != [] {
      var n := |s| - 1;
      HexSpelling(s[..n], t[..n]);
      DigitSpelling(s[n], t[n]);
    }
  }

  /** Every spelling of a printed size is the size. */
  lemma AnySpelling(n: nat, t: bytes)
    requires SameWord(Hex(n), t)
    ensures AllHex(t) && HexValue(t) == n
  {
    HexInverse(n);
    HexSpelling(Hex(n), t);
  }

  function Pow16(k: nat): nat { if k == 0 then 1 else 16 * Pow16(k - 1) }

  lemma {:induction false} HexShort(n: nat, k: nat)
    requires 0 < k && n < Pow16(k)
    ensures |Hex(n)| <= k
  {
    if n >= 16 {
      HexShort(n / 16, k - 1);
    }
  }

  lemma SizePower()
    ensures Pow16(16) == SIZE_MAX + 1
  {
    assert Pow16(4) == 0x1_0000;
    assert Pow16(6) == 0x100 * Pow16(4);
    assert Pow16(8) == 0x100 * Pow16(6);
    assert Pow16(10) == 0x100 * Pow16(8);
    assert Pow16(12) == 0x100 * Pow16(10);
    assert Pow16(14) == 0x100 * Pow16(12);
    assert Pow16(16) == 0x100 * Pow16(14);
  }

  /** Any size printed without extension is a good head, so any non-empty data is a good chunk. */
  lemma PrintedIsGood(n: size)
    ensures GoodHead(Head(Hex(n), [])) && HexValue(Hex(n)) == n
  {
    HexInverse(n);
    SizePower();
    HexShort(n, 16);
  }

  /* ---------- what is accepted ---------- */

  /** A chunk as it was received: any line that parses, and its data. */
  datatype Frame = Frame(line: bytes, data: bytes)

  function Frames(fs: seq<Frame>, last: bytes): bytes {
    if fs == [] then last else fs[0].line + (fs[0].data + (CRLF + Frames(fs[1..], last)))
  }

  function Carried(fs: seq<Frame>): bytes {
    if fs == [] then [] else fs[0].data + Carried(fs[1..])
  }

  ghost predicate GoodFrames(fs: seq<Frame>, last: bytes) {
    && (forall i :: 0 <= i < |fs| ==> fs[i].data != [] && LineSize(fs[i].line) == Some(|fs[i].data|))
    && LineSize(last) == Some(0)
  }

  ghost predicate Accepted(got: bytes, stream: bytes, body: bytes, rest: bytes, fs: seq<Frame>, last: bytes) {
    GoodFrames(fs, last) && body == got + Carried(fs) && stream == Frames(fs, last) + rest
  }

  lemma CutSplits(stream: bytes, r: Request) returns (data: bytes, rest: bytes)
    requires Cut(stream, r).Some?
    ensures stream == data + rest && Cut(stream, r) == Some(|data|)
    ensures stream[..|data|] == data && stream[|data|..] == rest
  {
    var k := Cut(stream, r).value;
    data, rest := stream[..k], stream[k..];
  }

  lemma AcceptedMore(got: bytes, f: Frame, more: bytes, body: bytes, rest: bytes, fs: seq<Frame>, last: bytes)
    requires Accepted(got + f.data, more, body, rest, fs, last)
    requires f.data != [] && LineSize(f.line) == Some(|f.data|)
    ensures Accepted(got, f.line + (f.data + (CRLF + more)), body, rest, [f] + fs, last)
  {
    assert ([f] + fs)[1..] == fs;
    assert body == got + (f.data + Carried(fs));
    assert f.line + (f.data + (CRLF + more)) == (f.line + (f.data + (CRLF + Frames(fs, last)))) + rest;
  }

  /** The results that only a chunk line can bring about. */
  predicate ByLine(r: Result) { r.Done? || r.Overrun? || r.Refused? }

  lemma EndWasReceived(stream: bytes, got: bytes, cap: capacity) returns (more: bytes)
    requires |got| <= cap && ByLine(Decode(AtEnd(got), stream, cap).0)
    ensures stream == CRLF + more && Decode(AtLine(got), more, cap) == Decode(AtEnd(got), stream, cap)
  {
    var end, rest := CutSplits(stream, Request(2, []));
    assert Decode(Feed(AtEnd(got), end, cap), rest, cap) == Decode(AtEnd(got), stream, cap);
    assert end == CRLF;
    more := rest;
  }

  lemma DataWasReceived(stream: bytes, got: bytes, size: size, cap: capacity) returns (data: bytes, more: bytes)
    requires |got| <= cap && !Plan(got, size, cap).Over? && ByLine(Decode(Plan(got, size, cap), stream, cap).0)
    ensures stream == data + (CRLF + more) && |data| == size && |got + data| <= cap
    ensures Decode(AtLine(got + data), more, cap) == Decode(Plan(got, size, cap), stream, cap)
  {
    var d := Plan(got, size, cap);
    var part, rest := CutSplits(stream, Ask(d, cap).value);
    assert Decode(Feed(d, part, cap), rest, cap) == Decode(d, stream, cap);
    assert d == AtData(got, size, size);
    more := EndWasReceived(rest, got + part, cap);
    data := part;
  }

  lemma FrameFirst(stream: bytes, f: Frame, more: bytes)
    requires stream == f.line + (f.data + (CRLF + more))
    ensures f.line + (f.data + CRLF) <= stream && Behind(stream, f) == more
  {
    assert stream == (f.line + (f.data + CRLF)) + more;
  }

  /** The first chunk of a stream whose result a later line brings about. */
  lemma FirstFrame(stream: bytes, got: bytes, cap: capacity) returns (f: Frame, more: bytes)
    requires |got| <= cap && ByLine(Decode(AtLine(got), stream, cap).0)
    requires var line := stream[..Cut(stream, LINE).value];
      LineSize(line).Some? && !Plan(got, LineSize(line).value, cap).Over?
    ensures stream == f.line + (f.data + (CRLF + more))
    ensures Takes(got, stream, cap, f) && more == Behind(stream, f) && |got + f.data| <= cap
    ensures Decode(AtLine(got + f.data), more, cap) == Decode(AtLine(got), stream, cap)
  {
    var line, rest := CutSplits(stream, LINE);
    assert Decode(Plan(got, LineSize(line).value, cap), rest, cap) == Decode(AtLine(got), stream, cap);
    var data, tail := DataWasReceived(rest, got, LineSize(line).value, cap);
    f, more := Frame(line, data), tail;
    FrameFirst(stream, f, more);
  }

  /**
   MAIN RESULT. Nothing else is accepted: a stream that is decoded successfully is a list
   of chunks with matching sizes, each ended by CRLF, then a chunk of size zero, and the
   body is what the chunks carry.
   */
  lemma {:induction false} DoneWasEncoded(stream: bytes, got: bytes, cap: capacity)
    returns (fs: seq<Frame>, last: bytes)
    requires |got| <= cap && Decode(AtLine(got), stream, cap).0.Done?
    ensures var (r, rest) := Decode(AtLine(got), stream, cap); Accepted(got, stream, r.body, rest, fs, last)
    decreases |stream|
  {
    var line, rest := CutSplits(stream, LINE);
    if LineSize(line) == Some(0) {
      fs, last := [], line;
      assert got + [] == got;
    } else {
      var f, more := FirstFrame(stream, got, cap);
      fs, last := DoneWasEncoded(more, got + f.data, cap);
      var (r, rest) := Decode(AtLine(got), stream, cap);
      AcceptedMore(got, f, more, r.body, rest, fs, last);
      fs := [f] + fs;
    }
  }

  /* ---------- when the two failures occur, on any stream ---------- */

  /** The size sum wraps, and that is just when the next receive would not fit. */
  lemma OverrunExactly(got: bytes, size: size, cap: capacity)
    requires |got| <= cap
    ensures Plan(got, size, cap) == Over(Overrun) <==> |got| + size > SIZE_MAX
    ensures Plan(got, size, cap) == Over(Refused) <==> |got| == cap && 0 < size <= SIZE_MAX - cap
  {
  }

  /** The stream begins with the chunk `f`, which fits behind `got`. */
  ghost predicate Takes(got: bytes, stream: bytes, cap: capacity, f: Frame) {
    && f.data != [] && LineSize(f.line) == Some(|f.data|) && |got| + |f.data| <= cap
    && Cut(stream, LINE) == Some(|f.line|)
    && f.line + (f.data + CRLF) <= stream
  }

  function Behind(stream: bytes, f: Frame): bytes
    requires f.line + (f.data + CRLF) <= stream
  {
    stream[|f.line| + |f.data| + 2..]
  }

  /**
   On the stream the decoder receives the chunks `fs`, all of which fit behind `got`, and
   then the line `line`.
   */
  ghost predicate Reaches(got: bytes, stream: bytes, cap: capacity, fs: seq<Frame>, line: bytes, rest: bytes)
    decreases |fs|
  {
    if fs == [] then stream == line + rest && Cut(stream, LINE) == Some(|line|)
    else Takes(got, stream, cap, fs[0]) && Reaches(got + fs[0].data, Behind(stream, fs[0]), cap, fs[1..], line, rest)
  }

  lemma FrameDecodes(got: bytes, stream: bytes, cap: capacity, f: Frame)
    requires Takes(got, stream, cap, f)
    ensures Decode(AtLine(got), stream, cap) == Decode(AtLine(got + f.data), Behind(stream, f), cap)
  {
    var more := Behind(stream, f);
    assert stream == f.line + (f.data + (CRLF + more));
    DecodeStep(AtLine(got), f.line, f.data + (CRLF + more), cap);
    DataDecodes(got, f.data, more, cap);
  }

  /** From there on the line decides. */
  lemma {:induction false} ReachedDecodes(
      got: bytes, stream: bytes, cap: capacity, fs: seq<Frame>, line: bytes, rest: bytes)
    requires |got| <= cap && Reaches(got, stream, cap, fs, line, rest)
    ensures |got + Carried(fs)| <= cap
    ensures Decode(AtLine(got), stream, cap) == Decode(Feed(AtLine(got + Carried(fs)), line, cap), rest, cap)
    decreases |fs|
  {
    if fs == [] {
      assert got + [] == got;
      DecodeStep(AtLine(got), line, rest, cap);
    } else {
      var f := fs[0];
      FrameDecodes(got, stream, cap, f);
      ReachedDecodes(got + f.data, Behind(stream, f), cap, fs[1..], line, rest);
      Regroup(got, f.data, Carried(fs[1..]));
    }
  }

  /** Where the size of the next chunk does not fit into the buffer. */
  ghost predicate Fails(r: Result) { r == Overrun || r == Refused }

  /** A decoding that fails so has reached the line that makes it fail. */
  lemma {:induction false} FailureReached(stream: bytes, got: bytes, cap: capacity)
    returns (fs: seq<Frame>, line: bytes, rest: bytes)
    requires |got| <= cap && Fails(Decode(AtLine(got), stream, cap).0)
    ensures Reaches(got, stream, cap, fs, line, rest) && |got + Carried(fs)| <= cap
    ensures LineSize(line).Some?
    ensures Plan(got + Carried(fs), LineSize(line).value, cap) == Over(Decode(AtLine(got), stream, cap).0)
    decreases |stream|
  {
    line, rest := CutSplits(stream, LINE);
    var all := Decode(AtLine(got), stream, cap);
    assert Decode(Feed(AtLine(got), line, cap), rest, cap) == all;
    if Plan(got, LineSize(line).value, cap).Over? {
      fs := [];
      assert got + [] == got;
    } else {
      var f, more := FirstFrame(stream, got, cap);
      var tail;
      tail, line, rest := FailureReached(more, got + f.data, cap);
      fs := [f] + tail;
      assert fs[1..] == tail;
      Regroup(got, f.data, Carried(tail));
    }
  }

  /** The chunks `fs` have been received whole, and the next line announces more than the code can bear. */
  ghost predicate WrapsAt(stream: bytes, cap: capacity, fs: seq<Frame>, line: bytes, rest: bytes) {
    Reaches([], stream, cap, fs, line, rest) && LineSize(line).Some? && |Carried(fs)| + LineSize(line).value > SIZE_MAX
  }

  /** They fill the buffer exactly, and the next line announces a further chunk. */
  ghost predicate FullAt(stream: bytes, cap: capacity, fs: seq<Frame>, line: bytes, rest: bytes) {
    Reaches([], stream, cap, fs, line, rest) && LineSize(line).Some?
    && |Carried(fs)| == cap && 0 < LineSize(line).value <= SIZE_MAX - cap
  }

  /**
   MAIN RESULT. The exact conditions, for every stream: the bound of the buffer is defeated
   if and only if chunks that fit are followed by a line whose size and the bytes received
   do not add up in a `size_t`; an empty receive is asked for if and only if such chunks
   fill the buffer exactly and a further chunk is announced.
   */
  lemma FailsExactly(stream: bytes, cap: capacity)
    ensures Decode(AtLine([]), stream, cap).0 == Overrun <==> exists fs, line, rest ::
      WrapsAt(stream, cap, fs, line, rest)
    ensures Decode(AtLine([]), stream, cap).0 == Refused <==> exists fs, line, rest ::
      FullAt(stream, cap, fs, line, rest)
  {
    var r := Decode(AtLine([]), stream, cap).0;
    if Fails(r) {
      var fs, line, rest := FailureReached(stream, [], cap);
      assert [] + Carried(fs) == Carried(fs);
      OverrunExactly(Carried(fs), LineSize(line).value, cap);
      assert WrapsAt(stream, cap, fs, line, rest) || FullAt(stream, cap, fs, line, rest);
    }
    forall fs, line, rest | WrapsAt(stream, cap, fs, line, rest) || FullAt(stream, cap, fs, line, rest)
      ensures r == if WrapsAt(stream, cap, fs, line, rest) then Overrun else Refused
    {
      ReachedDecodes([], stream, cap, fs, line, rest);
      assert [] + Carried(fs) == Carried(fs);
      OverrunExactly(Carried(fs), LineSize(line).value, cap);
    }
  }

  const ONE_X: bytes := ['1', '\r', '\n', 'x', '\r', '\n']
  const ALL_F: bytes := Fs(16)

  function Fs(k: nat): bytes { seq(k, _ => 'f') }

  lemma HexF(n: nat)
    requires n > 0
    ensures Hex(16 * n + 15) == Hex(n) + ['f']
  {
  }

  lemma {:induction false} FsPrinted(k: nat)
    requires k > 0
    ensures Pow16(k) > 1 && Hex(Pow16(k) - 1) == Fs(k)
  {
    if k == 1 {
      assert Pow16(1) == 16;
      assert Hex(15) == ['f'];
    } else {
      FsPrinted(k - 1);
      HexF(Pow16(k - 1) - 1);
      assert Fs(k) == Fs(k - 1) + ['f'];
    }
  }

  lemma AllFPrinted()
    ensures Hex(SIZE_MAX) == ALL_F
  {
    SizePower();
    FsPrinted(16);
  }

  lemma AfterOne(h: Head, tail: bytes, cap: capacity)
    requires GoodHead(h)
    ensures Decode(AtLine([]), ONE_X + (Line(h) + tail), cap) == Decode(Plan(['x'], HexValue(h.digits), cap), tail, cap)
  {
    var one := Head(['1'], []);
    var more := Line(h) + tail;
    OneIsGood();
    assert ONE_X + more == Line(one) + (['x'] + (CRLF + more));
    LineDecodes(one, [], ['x'] + (CRLF + more), cap);
    DataDecodes([], ['x'], more, cap);
    assert [] + ['x'] == ['x'];
    LineDecodes(h, ['x'], tail, cap);
  }

  lemma OneIsGood()
    ensures GoodHead(Head(['1'], [])) && HexValue(['1']) == 1 && Line(Head(['1'], [])) == ['1', '\r', '\n']
  {
    HexOne();
    PrintedIsGood(1);
    OneLine();
  }

  lemma HexOne()
    ensures Hex(1) == ['1']
  {
  }

  lemma OneLine()
    ensures Line(Head(['1'], [])) == ['1', '\r', '\n']
  {
  }

  /** A short witness: one byte of data, then a line with the largest size. */
  lemma OverrunWitness(cap: capacity, tail: bytes)
    ensures Decode(AtLine([]), ONE_X + (Line(Head(ALL_F, [])) + tail), cap).0 == Overrun
  {
    PrintedIsGood(SIZE_MAX);
    AllFPrinted();
    AfterOne(Head(ALL_F, []), tail, cap);
    OverrunExactly(['x'], SIZE_MAX, cap);
  }

  /** A short witness: a buffer of one byte, and two chunks of one byte. */
  lemma RefusedWitness(tail: bytes)
    ensures Decode(AtLine([]), ONE_X + (Line(Head(['1'], [])) + tail), 1).0 == Refused
  {
    OneIsGood();
    AfterOne(Head(['1'], []), tail, 1);
  }

  /* ---------- through recv_till ---------- */

  /** The requests are those the decoder makes when it is given the parts. */
  ghost predicate Follows(d: Decoder, parts: seq<bytes>, reqs: seq<Request>, cap: capacity)
    requires Fits(d, cap)
    decreases |parts|
  {
    if parts == [] then reqs == (if d.Over? then [] else [Ask(d, cap).value])
    else
      && !d.Over? && reqs != [] && reqs[0] == Ask(d, cap).value
      && (d.AtData? ==> |parts[0]| == d.take)
      && Follows(Feed(d, parts[0], cap), parts[1..], reqs[1..], cap)
  }

  /** Where the parts bring the decoder. */
  function After(d: Decoder, parts: seq<bytes>, cap: capacity): (d': Decoder)
    requires Fits(d, cap)
    ensures Fits(d', cap)
    decreases |parts|
  {
    if parts == [] || (d.AtData? && |parts[0]| != d.take) then d
    else After(Feed(d, parts[0], cap), parts[1..], cap)
  }

  lemma {:induction false} DialogueDecodes(d: Decoder, stream: bytes, reqs: seq<Request>, cap: capacity)
    requires Fits(d, cap)
    requires Follows(d, Serve(stream, reqs).parts, reqs, cap)
    ensures var s := Serve(stream, reqs);
      Decode(d, stream, cap)
        == (match After(d, s.parts, cap) case Over(r) => (r, s.rest) case _ => (RecvFailed, s.rest))
    decreases |reqs|
  {
    var s := Serve(stream, reqs);
    if s.parts != [] {
      var k := Cut(stream, reqs[0]).value;
      var more := Serve(stream[k..], reqs[1..]);
      assert s.parts == [stream[..k]] + more.parts;
      assert s.parts[1..] == more.parts;
      DialogueDecodes(Feed(d, stream[..k], cap), stream[k..], reqs[1..], cap);
    }
  }

  /**
   MAIN RESULT. A client that receives the body through `recv_till`, behind the first `n`
   receives, on any run and for any fragmentation, is at any moment where the decoder is on
   the bytes that have arrived behind what those took, and has left the rest untouched.
   */
  lemma BodyThroughRecvTill(es: seq<Event>, client: Client, cap: capacity, n: nat)
    requires Legal(INITIAL, es, client) && Clean(INITIAL, es, client)
    requires Exec(INITIAL, es, client).Some? && !Exec(INITIAL, es, client).value.fallback
    requires var s := Exec(INITIAL, es, client).value;
      n <= |s.done| && Follows(AtLine([]), Parts(s.done)[n..], Live(s)[n..], cap)
    ensures var s := Exec(INITIAL, es, client).value;
      var before := |Flatten(Parts(s.done)[..n])|;
      && before <= |Chunks(es)|
      && Decode(AtLine([]), Chunks(es)[before..], cap)
         == (match After(AtLine([]), Parts(s.done)[n..], cap)
             case Over(r) => (r, Pending(s))
             case _ => (RecvFailed, Pending(s)))
  {
    RunRefinesServe(es, client);
    var s := Exec(INITIAL, es, client).value;
    ServeFrom(Chunks(es), Live(s), n);
    DialogueDecodes(AtLine([]), Chunks(es)[|Flatten(Parts(s.done)[..n])|..], Live(s)[n..], cap);
  }
}
