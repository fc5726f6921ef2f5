/**
 The head of an HTTP response (`http_rsp_parse`, sections 6.1 and 4.2 of RFC 2616): a
 status line, then header fields, then an empty line that must end the buffer. The client
 needs two of the fields.
 */
module ResponseHead {
  import opened Streams
  import opened Matching
  import opened HeaderFields
  import opened Scanning

  const VERSION: bytes := ['H', 'T', 'T', 'P', '/', '1', '.', '1', ' ']
  const CHUNKED: bytes := ['c', 'h', 'u', 'n', 'k', 'e', 'd']

  /** What the client receives before it parses: up to an empty line, or as much as its buffer takes. */
  const HEAD_END: bytes := CRLF + CRLF
  const HEAD := Request(4096, HEAD_END)

  datatype Field = ContentLength | TransferEncoding

  /** The negative results of the parser, and the loop over a value's last spaces, which never ends. */
  datatype Outcome<T> =
    | Ok(value: T)
    | BadVersion
    | BadStatus
    | BadReason
    | BadEnd
    | BadName
    | BadValue
    | Duplicate
    | Hang

  type Values = map<Field, bytes>

  datatype Head = Head(status: nat, reason: bytes, values: Values)

  /* ---------- characters ---------- */

  predicate IsToken(c: byte) { IsDigit(c) || IsLetter(c) || c == '-' }
  predicate IsReason(c: byte) { IsLetter(c) || c == ' ' || c == '-' }
  predicate IsSpace(c: byte) { c == ' ' }

  /** The classes, one character after the other. */
  lemma CharactersMean(c: byte)
    ensures IsToken(c) <==> c in DIGITS || c in LETTERS || c in CAPITALS || c == '-'
    ensures IsReason(c) <==> c in LETTERS || c in CAPITALS || c == ' ' || c == '-'
  {
    ClassesMean(c);
  }

  /* ---------- the specification ---------- */

  function DigitValue(c: byte): nat
    requires IsDigit(c)
  {
    c as int - '0' as int
  }

  function Code(a: byte, b: byte, c: byte): nat
    requires IsDigit(a) && IsDigit(b) && IsDigit(c)
  {
    100 * DigitValue(a) + 10 * DigitValue(b) + DigitValue(c)
  }

  /** Which of the needed fields the position of a name in the table is. */
  function Needed(position: Option<nat>): Option<Field> {
    if position == Some(CONTENT_LENGTH) then Some(ContentLength)
    else if position == Some(TRANSFER_ENCODING) then Some(TransferEncoding)
    else None
  }

  /** The needed field of a name, whatever its letters' case. */
  function FieldOf(name: bytes): Option<Field> { Needed(Recognised(name)) }

  /** What that means, in letters. */
  lemma FieldOfMeans(name: bytes)
    ensures FieldOf(name) == Some(ContentLength) <==> SameWord(name, "content-length")
    ensures FieldOf(name) == Some(TransferEncoding) <==> SameWord(name, "transfer-encoding")
  {
    RecognisedMeans(name, CONTENT_LENGTH);
    RecognisedMeans(name, TRANSFER_ENCODING);
  }

  /** Whether the value of a needed field is acceptable. */
  predicate Acceptable(f: Field, value: bytes) {
    match f
    case ContentLength => value != [] && Run(value, IsDigit) == |value|
    case TransferEncoding => value == CHUNKED
  }

  /** A length is one decimal digit or more, a transfer coding is this word, letter for letter. */
  lemma AcceptableMeans(value: bytes)
    ensures Acceptable(ContentLength, value) <==> value != [] && AllDecimal(value)
    ensures Acceptable(TransferEncoding, value) <==> value == "chunked"
  {
    RunMeans(value, IsDigit);
    if AllDecimal(value) {
      RunIs(value, IsDigit, |value|);
    }
  }

  /** What becomes of the values with one more field. */
  function Put(acc: Values, name: bytes, value: bytes): Outcome<Values> { PutField(acc, FieldOf(name), value) }

  function PutField(acc: Values, field: Option<Field>, value: bytes): Outcome<Values> {
    match field
    case None => Ok(acc)
    case Some(f) =>
      if !Acceptable(f, value) then BadValue
      else if f in acc then Duplicate
      else Ok(acc[f := value])
  }

  /** The two errors of a field: a bad value comes first, then a second field of the same kind. */
  lemma PutErrors(acc: Values, name: bytes, value: bytes, f: Field)
    ensures Put(acc, name, value) == BadValue <==> exists f :: FieldOf(name) == Some(f) && !Acceptable(f, value)
    ensures Put(acc, name, value) == Duplicate <==>
      exists f :: FieldOf(name) == Some(f) && Acceptable(f, value) && f in acc
    ensures FieldOf(name) == Some(f) && Acceptable(f, value) && f !in acc ==>
      Put(acc, name, value) == Ok(acc[f := value])
    ensures FieldOf(name) == None ==> Put(acc, name, value) == Ok(acc)
  {
  }

  /** A field's value and what follows its line; without CRLF the last character is left aside. */
  datatype ValueSplit = ValueSplit(value: bytes, rest: Option<bytes>)

  /** Where the line ends. */
  function LineEnd(u: bytes): (e: Option<nat>)
    ensures e.Some? ==> e.value + 2 <= |u|
  {
    if |u| < 2 then None
    else if u[0] == '\r' && u[1] == '\n' then Some(0)
    else match LineEnd(u[1..])
      case None => None
      case Some(e) => Some(e + 1)
  }

  lemma MatchShift(u: bytes, i: nat)
    requires 0 < i && u != []
    ensures MatchAt(u, CRLF, i) <==> MatchAt(u[1..], CRLF, i - 1)
  {
    if i + 2 <= |u| {
      assert u[i..i + 2] == u[1..][i - 1..i + 1];
    }
  }

  lemma {:induction false} LineEndIsFirst(u: bytes)
    ensures LineEnd(u) == FindFrom(u, CRLF, 0)
  {
    if |u| >= 2 {
      assert u[0..2] == [u[0], u[1]];
      if u[0] == '\r' && u[1] == '\n' {
        FindIs(u, CRLF, 0);
      } else {
        LineEndIsFirst(u[1..]);
        forall i: nat | 0 < i <= |u| ensures MatchAt(u, CRLF, i) <==> MatchAt(u[1..], CRLF, i - 1) {
          MatchShift(u, i);
        }
        if LineEnd(u).Some? {
          FindIs(u, CRLF, LineEnd(u).value);
        }
      }
    }
  }

  function SplitValue(t: bytes): (v: ValueSplit)
    ensures v.rest.Some? ==> |v.rest.value| < |t|
  {
    var u := t[Run(t, IsSpace)..];
    match LineEnd(u)
    case Some(e) => ValueSplit(u[..e], Some(u[e + 2..]))
    case None => ValueSplit(if u == [] then [] else u[..|u| - 1], None)
  }

  function EndsInSpace(s: bytes): bool { s != [] && s[|s| - 1] == ' ' }

  /** The name of a field line and its length. */
  function NameEnd(s: bytes): (r: Option<nat>)
    ensures r.Some? ==> 0 < r.value <= |s|
  {
    var k := Run(s, IsToken);
    if k == 0 || (k < |s| && s[k] != ':') then None else Some(k)
  }

  /** What follows the colon at position `k`. */
  function Behind(s: bytes, k: nat): bytes { if k < |s| then s[k + 1..] else [] }

  /** The value of a field line whose name has length `k`. */
  function ValueOf(s: bytes, k: nat): (v: ValueSplit)
    ensures v.rest.Some? ==> |v.rest.value| < |s|
  {
    SplitValue(Behind(s, k))
  }

  /** The values with those of one more field line. */
  function Line(s: bytes, acc: Values): Outcome<Values> {
    match NameEnd(s)
    case None => BadName
    case Some(k) =>
      var v := ValueOf(s, k).value;
      if EndsInSpace(v) then Hang else Put(acc, s[..k], v)
  }

  /** The header fields from the start of a line on. */
  function Fields(s: bytes, acc: Values): Outcome<Values>
    decreases |s|
  {
    if |s| < 2 then BadEnd
    else if s[0] == '\r' && s[1] == '\n' then (if |s| == 2 then Ok(acc) else BadEnd)
    else
      match Line(s, acc)
      case Ok(values) =>
        (match ValueOf(s, NameEnd(s).value).rest
         case None => BadEnd
         case Some(rest) => Fields(rest, values))
      case err => err
  }

  /** Status code, reason phrase, and what follows the status line. */
  function StatusLine(s: bytes): Outcome<(nat, bytes, bytes)> {
    if |s| < 9 || s[..9] != VERSION then BadVersion
    else if Run(s[9..], IsDigit) != 3 || |s| < 13 || s[12] != ' ' then BadStatus
    else
      RunMeans(s[9..], IsDigit);
      assert s[9..][0] == s[9] && s[9..][1] == s[10] && s[9..][2] == s[11];
      assert IsDigit(s[9]) && IsDigit(s[10]) && IsDigit(s[11]);
      match Reason(s[13..])
      case None => BadReason
      case Some(reason) => Ok((Code(s[9], s[10], s[11]), reason, s[13..][|reason| + 2..]))
  }

  /** The reason phrase at the start of `t`. */
  function Reason(t: bytes): (r: Option<bytes>)
    ensures r.Some? ==> |r.value| + 2 <= |t|
  {
    var n := Run(t, IsReason);
    if n == 0 || n + 1 >= |t| || t[n] != '\r' || t[n + 1] != '\n' then None else Some(t[..n])
  }

  function Complete(code: nat, reason: bytes, fields: Outcome<Values>): Outcome<Head> {
    match fields
    case Ok(values) => Ok(Head(code, reason, values))
    case BadEnd => BadEnd
    case BadName => BadName
    case BadValue => BadValue
    case Duplicate => Duplicate
    case _ => Hang
  }

  function Parse(s: bytes): Outcome<Head> {
    match StatusLine(s)
    case Ok((code, reason, rest)) => Complete(code, reason, Fields(rest, map[]))
    case BadVersion => BadVersion
    case BadStatus => BadStatus
    case _ => BadReason
  }

  /* ---------- the parser ---------- */

  /** The loop that looks for CRLF; without one it stops before the last character. */
  method ScanLine(s: bytes, from: nat) returns (i: nat)
    requires from <= |s|
    ensures match LineEnd(s[from..])
            case Some(e) => i == from + e
            case None => i == (if from == |s| then from else |s| - 1)
  {
    i := from;
    ghost var t := s[from..];
    LineEndIsFirst(t);
    while i + 1 < |s| && !(s[i] == '\r' && s[i + 1] == '\n')
      invariant from <= i <= |s| && (i < |s| || i == from)
      invariant NoMatchIn(t, CRLF, 0, i - from)
    {
      assert t[i - from..i - from + 2][0] == s[i] && t[i - from..i - from + 2][1] == s[i + 1];
      i := i + 1;
    }
    if i + 1 < |s| {
      assert t[i - from..i - from + 2] == CRLF;
      FindIs(t, CRLF, i - from);
    } else {
      assert NoMatchIn(t, CRLF, 0, |t| + 1);
    }
  }

  /** What follows from index `i` on, if that is not beyond the end. */
  function From(s: bytes, i: nat): Option<bytes> { if i <= |s| then Some(s[i..]) else None }

  /** The value from index `from` on, and where the next line begins, beyond the end if there is no CRLF. */
  method ParseValue(s: bytes, from: nat) returns (value: bytes, next: nat)
    requires from <= |s|
    ensures value == SplitValue(s[from..]).value && from + 2 <= next
    ensures SplitValue(s[from..]).rest == From(s, next)
  {
    ghost var u := s[from..];
    var bgn := Scan(s, from, IsSpace);
    assert s[bgn..] == u[Run(u, IsSpace)..];
    var end := ScanLine(s, bgn);
    value := s[bgn..end];
    next := end + 2;
  }

  /** The name from index `from` on. */
  method ParseName(s: bytes, from: nat) returns (k: Option<nat>)
    requires from <= |s|
    ensures k == NameEnd(s[from..])
  {
    var i := Scan(s, from, IsToken);
    if (i < |s| && s[i] != ':') || i == from {
      return None;
    }
    return Some(i - from);
  }

  lemma NoValue()
    ensures SplitValue([]) == ValueSplit([], None)
  {
  }

  /** The value behind the colon at `colon`, and where the next line begins. */
  method ParseBehind(s: bytes, colon: nat) returns (value: bytes, next: nat)
    requires colon <= |s|
    ensures colon < next
    ensures SplitValue(Behind(s, colon)) == ValueSplit(value, From(s, next))
  {
    if colon == |s| {
      NoValue();
      return [], colon + 3;
    }
    value, next := ParseValue(s, colon + 1);
  }

  lemma BehindAt(s: bytes, from: nat, k: nat, value: bytes, next: nat)
    requires from + k <= |s|
    requires SplitValue(Behind(s, from + k)) == ValueSplit(value, From(s, next))
    ensures ValueOf(s[from..], k) == ValueSplit(value, From(s, next))
  {
    assert Behind(s[from..], k) == Behind(s, from + k);
  }

  /** The value of the line from index `from` on whose name has length `k`. */
  method ParseRest(s: bytes, from: nat, k: nat) returns (value: bytes, next: nat)
    requires from + k <= |s|
    ensures from < next && ValueOf(s[from..], k) == ValueSplit(value, From(s, next))
  {
    value, next := ParseBehind(s, from + k);
    BehindAt(s, from, k, value, next);
  }

  lemma LineIs(t: bytes, name: bytes, value: bytes, acc: Values)
    requires NameEnd(t) == Some(|name|) && t[..|name|] == name && ValueOf(t, |name|).value == value
    ensures Line(t, acc) == if EndsInSpace(value) then Hang else Put(acc, name, value)
  {
  }

  /** One field line from index `from` on: its name, its value, and where the next line begins. */
  method ParseField(s: bytes, from: nat) returns (k: Option<nat>, value: bytes, next: nat)
    requires from <= |s|
    ensures k == NameEnd(s[from..])
    ensures k.Some? ==>
      from < next && ValueOf(s[from..], k.value) == ValueSplit(value, From(s, next))
  {
    k := ParseName(s, from);
    if k.None? {
      return k, [], from;
    }
    value, next := ParseRest(s, from, k.value);
  }

  /** One field line and its place among the values. */
  method TakeField(s: bytes, from: nat, acc: Values) returns (r: Outcome<Values>, next: nat)
    requires from <= |s|
    ensures r == Line(s[from..], acc)
    ensures r.Ok? ==> from < next && ValueOf(s[from..], NameEnd(s[from..]).value).rest == From(s, next)
  {
    var k, value, after := ParseField(s, from);
    next := after;
    if k.None? {
      return BadName, next;
    }
    var name := s[from..from + k.value];
    assert name == s[from..][..k.value];
    LineIs(s[from..], name, value, acc);
    if EndsInSpace(value) {
      return Hang, next;
    }
    var field := Recognise(name);
    r := PutField(acc, Needed(field), value);
  }

  method ParseFields(s: bytes, from: nat) returns (r: Outcome<Values>)
    requires from <= |s|
    ensures r == Fields(s[from..], map[])
  {
    var i, acc := from, map[];
    while i + 1 < |s| && !(s[i] == '\r' && s[i + 1] == '\n')
      invariant from <= i
      invariant Fields(s[from..], map[]) == if i <= |s| then Fields(s[i..], acc) else BadEnd
      decreases |s| - i
    {
      var put, next := TakeField(s, i, acc);
      if !put.Ok? {
        return put;
      }
      i, acc := next, put.value;
    }
    if i + 2 != |s| {
      return BadEnd;
    }
    return Ok(acc);
  }

  /** The status line, and the index behind it. */
  method ParseStatus(s: bytes) returns (r: Outcome<(nat, bytes)>, next: nat)
    ensures r.Ok? ==> next <= |s|
    ensures StatusLine(s) == match r
                             case Ok((code, reason)) => Ok((code, reason, s[next..]))
                             case BadVersion => BadVersion
                             case BadStatus => BadStatus
                             case _ => BadReason
  {
    if |s| < 9 || s[..9] != VERSION {
      return BadVersion, 0;
    }
    var i := Scan(s, 9, IsDigit);
    if i != 12 || i == |s| || s[i] != ' ' {
      return BadStatus, 0;
    }
    RunMeans(s[9..], IsDigit);
    assert s[9..][0] == s[9] && s[9..][1] == s[10] && s[9..][2] == s[11];
    var code := Code(s[9], s[10], s[11]);
    var reason := ParseReason(s, 13);
    if reason.None? {
      return BadReason, 0;
    }
    assert s[13..][|reason.value| + 2..] == s[15 + |reason.value|..];
    return Ok((code, reason.value)), 15 + |reason.value|;
  }

  method ParseReason(s: bytes, from: nat) returns (reason: Option<bytes>)
    requires from <= |s|
    ensures reason == Reason(s[from..])
  {
    var i := Scan(s, from, IsReason);
    ghost var t := s[from..];
    if i == from || i + 1 >= |s| || s[i] != '\r' || s[i + 1] != '\n' {
      return None;
    }
    assert t[i - from] == s[i] && t[i - from + 1] == s[i + 1] && t[..i - from] == s[from..i];
    return Some(s[from..i]);
  }

  /** `http_rsp_parse`. */
  method ParseResponse(s: bytes) returns (r: Outcome<Head>)
    ensures r == Parse(s)
  {
    var status, next := ParseStatus(s);
    match status {
      case Ok((code, reason)) =>
        var fields := ParseFields(s, next);
        r := Complete(code, reason, fields);
      case BadVersion => r := BadVersion;
      case BadStatus => r := BadStatus;
      case _ => r := BadReason;
    }
  }
}
