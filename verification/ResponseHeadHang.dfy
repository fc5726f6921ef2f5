/**
 When the head parser never ends: its loop over the last spaces of a value has no body, so
 it is caught by a line whose value ends in a space, also by a line that is cut off.
 */
module ResponseHeadHang {
  import opened Streams
  import opened Matching
  import opened Scanning
  import opened ResponseHead
  import opened ResponseHeadProof

  /** Lines without the empty one at the end. */
  function Lines(ls: seq<FieldLine>): bytes {
    if ls == [] then [] else PrintLine(ls[0]) + Lines(ls[1..])
  }

  /** The bytes begin with a field line, complete or not, and what is taken for its value ends in a space. */
  predicate LineHangs(t: bytes) {
    && |t| >= 2 && !(t[0] == '\r' && t[1] == '\n')
    && NameEnd(t).Some? && EndsInSpace(ValueOf(t, NameEnd(t).value).value)
  }

  /** `s` is lines that are taken, and then one that is not left again. */
  ghost predicate HangsAfter(acc: Values, s: bytes, ls: seq<FieldLine>, t: bytes) {
    Good(ls) && AllFine(acc, ls) && s == Lines(ls) + t && LineHangs(t)
  }

  lemma FineIsTaken(acc: Values, l: FieldLine)
    requires Fine(acc, l)
    ensures Put(acc, l.name, l.value).Ok? && !EndsInSpace(l.value)
  {
    var field := FieldOf(l.name);
    if field.Some? {
      assert Names(l, field.value);
    }
  }

  lemma PutEnds(acc: Values, name: bytes, value: bytes)
    ensures !Put(acc, name, value).Hang?
  {
  }

  lemma LineHangIs(t: bytes, acc: Values)
    requires |t| >= 2 && !(t[0] == '\r' && t[1] == '\n')
    ensures Line(t, acc) == Hang <==> LineHangs(t)
  {
    if NameEnd(t).Some? {
      PutEnds(acc, t[..NameEnd(t).value], ValueOf(t, NameEnd(t).value).value);
    }
  }

  lemma HangAtLine(t: bytes, acc: Values)
    requires LineHangs(t)
    ensures Fields(t, acc) == Hang
  {
    LineHangIs(t, acc);
  }

  lemma {:induction false} HangFollows(acc: Values, ls: seq<FieldLine>, t: bytes)
    requires Good(ls) && AllFine(acc, ls) && LineHangs(t)
    ensures Fields(Lines(ls) + t, acc) == Hang
    decreases |ls|
  {
    if ls == [] {
      assert Lines(ls) + t == t;
      HangAtLine(t, acc);
    } else {
      var l, rest := ls[0], Lines(ls[1..]) + t;
      assert l in ls;
      FineIsTaken(acc, l);
      var put := Put(acc, l.name, l.value);
      AllFineRest(acc, ls, put.value);
      HangFollows(put.value, ls[1..], t);
      Regroup(PrintLine(l), Lines(ls[1..]), t);
      PrintedStep(l, rest, acc, put);
    }
  }

  /** What the first line is when the parser does not end. */
  lemma FirstLine(s: bytes, acc: Values)
    requires Fields(s, acc) == Hang
    ensures LineHangs(s) ||
      (Line(s, acc).Ok? && ValueOf(s, NameEnd(s).value).rest.Some?
       && Fields(ValueOf(s, NameEnd(s).value).rest.value, Line(s, acc).value) == Hang)
  {
    LineHangIs(s, acc);
  }

  lemma MoreLines(acc: Values, s: bytes, l: FieldLine, next: Values, rest: bytes, ls: seq<FieldLine>, t: bytes)
    requires GoodName(l.name) && GoodValue(l.value) && s == PrintLine(l) + rest
    requires Put(acc, l.name, l.value) == Ok(next) && !EndsInSpace(l.value) && HangsAfter(next, rest, ls, t)
    ensures HangsAfter(acc, s, [l] + ls, t)
  {
    var all := [l] + ls;
    assert all[1..] == ls;
    AllFineRest(acc, all, next);
    Regroup(PrintLine(l), Lines(ls), t);
  }

  lemma NoLines(acc: Values, s: bytes)
    requires LineHangs(s)
    ensures HangsAfter(acc, s, [], s)
  {
    assert Lines([]) + s == s;
  }

  lemma {:induction false} HangWasReached(s: bytes, acc: Values) returns (ls: seq<FieldLine>, t: bytes)
    requires Fields(s, acc) == Hang
    ensures HangsAfter(acc, s, ls, t)
    decreases |s|
  {
    FirstLine(s, acc);
    if LineHangs(s) {
      ls, t := [], s;
      NoLines(acc, s);
    } else {
      var l := LineWasPrinted(s, acc);
      var rest := ValueOf(s, NameEnd(s).value).rest.value;
      var more;
      more, t := HangWasReached(rest, Line(s, acc).value);
      MoreLines(acc, s, l, Line(s, acc).value, rest, more, t);
      ls := [l] + more;
    }
  }

  /**
   The exact condition, for all bytes: the loop over the fields never ends if and only if
   they are lines that are taken, and then one, complete or cut off, what is taken for whose
   value ends in a space.
   */
  lemma FieldsHangExactly(s: bytes, acc: Values)
    ensures Fields(s, acc) == Hang <==> exists ls, t :: HangsAfter(acc, s, ls, t)
  {
    if Fields(s, acc) == Hang {
      var ls, t := HangWasReached(s, acc);
    }
    if ls, t :| HangsAfter(acc, s, ls, t) {
      HangFollows(acc, ls, t);
    }
  }

  /* ---------- the whole head ---------- */

  /** A status line, and what follows it. */
  function Headed(status: nat, reason: bytes, rest: bytes): bytes
    requires status < 1000
  {
    VERSION + (Digits(status) + ([' '] + (reason + (CRLF + rest))))
  }

  lemma HeadedParses(status: nat, reason: bytes, rest: bytes)
    requires status < 1000 && GoodReason(reason)
    ensures Parse(Headed(status, reason, rest)) == Complete(status, reason, Fields(rest, map[]))
  {
    DigitsBack(status);
    PrintedLineOf(Digits(status), reason, rest);
    ParseIs(Headed(status, reason, rest), status, reason, rest);
  }

  lemma CompleteHangs(status: nat, reason: bytes, fields: Outcome<Values>)
    requires OfFields(fields)
    ensures Complete(status, reason, fields) == Hang <==> fields == Hang
  {
  }

  /** The errors of the fields are not those of the status line. */
  predicate OfFields(f: Outcome<Values>) { !f.BadVersion? && !f.BadStatus? && !f.BadReason? }

  lemma PutOutcome(acc: Values, name: bytes, value: bytes)
    ensures OfFields(Put(acc, name, value))
  {
  }

  lemma LineOutcome(s: bytes, acc: Values)
    ensures OfFields(Line(s, acc))
  {
    if NameEnd(s).Some? {
      PutOutcome(acc, s[..NameEnd(s).value], ValueOf(s, NameEnd(s).value).value);
    }
  }

  lemma FieldsCases(s: bytes, acc: Values)
    requires |s| >= 2 && !(s[0] == '\r' && s[1] == '\n')
    ensures !Line(s, acc).Ok? ==> Fields(s, acc) == Line(s, acc)
    ensures Line(s, acc).Ok? ==>
      Fields(s, acc) == match ValueOf(s, NameEnd(s).value).rest
                        case None => BadEnd
                        case Some(rest) => Fields(rest, Line(s, acc).value)
  {
  }

  lemma {:induction false} FieldsOutcome(s: bytes, acc: Values)
    ensures OfFields(Fields(s, acc))
    decreases |s|
  {
    if |s| >= 2 && !(s[0] == '\r' && s[1] == '\n') {
      FieldsCases(s, acc);
      LineOutcome(s, acc);
      if Line(s, acc).Ok? {
        match ValueOf(s, NameEnd(s).value).rest {
          case None =>
          case Some(rest) => FieldsOutcome(rest, Line(s, acc).value);
        }
      }
    }
  }

  ghost predicate HeadHangs(s: bytes, status: nat, reason: bytes, ls: seq<FieldLine>, t: bytes) {
    && status < 1000 && GoodReason(reason)
    && s == Headed(status, reason, Lines(ls) + t)
    && Good(ls) && AllFine(map[], ls) && LineHangs(t)
  }

  lemma HeadHangReached(s: bytes) returns (status: nat, reason: bytes, ls: seq<FieldLine>, t: bytes)
    requires Parse(s) == Hang
    ensures HeadHangs(s, status, reason, ls, t)
  {
    var rest;
    ParseReachesFields(s);
    status, reason, rest := StatusWasPrinted(s);
    ParseIs(s, status, reason, rest);
    FieldsOutcome(rest, map[]);
    CompleteHangs(status, reason, Fields(rest, map[]));
    ls, t := HangWasReached(rest, map[]);
  }

  lemma ParseReachesFields(s: bytes)
    requires Parse(s) == Hang
    ensures StatusLine(s).Ok?
  {
  }

  /** A status line, and fields on which the parser does not end. */
  lemma HeadedHangs(status: nat, reason: bytes, rest: bytes)
    requires status < 1000 && GoodReason(reason) && Fields(rest, map[]) == Hang
    ensures Parse(Headed(status, reason, rest)) == Hang
  {
    HeadedParses(status, reason, rest);
  }

  lemma HeadHangFollows(s: bytes, status: nat, reason: bytes, ls: seq<FieldLine>, t: bytes)
    requires HeadHangs(s, status, reason, ls, t)
    ensures Parse(s) == Hang
  {
    var rest := Lines(ls) + t;
    HangFollows(map[], ls, t);
    HeadedHangs(status, reason, rest);
  }

  /**
   MAIN RESULT. The exact condition, for all bytes that the parser can get: it never ends if
   and only if they are a status line, lines that are taken, and then a line, complete or
   cut off, what is taken for whose value ends in a space.
   */
  lemma HangsExactly(s: bytes)
    ensures Parse(s) == Hang <==> exists status, reason, ls, t :: HeadHangs(s, status, reason, ls, t)
  {
    if Parse(s) == Hang {
      var status, reason, ls, t := HeadHangReached(s);
    }
    if status, reason, ls, t :| HeadHangs(s, status, reason, ls, t) {
      HeadHangFollows(s, status, reason, ls, t);
    }
  }

  /* ---------- inputs ---------- */

  const TRAILING := FieldLine(['A'], 0, ['b', ' '])

  lemma TrailingIsGood()
    ensures Good([TRAILING]) && EndsInSpace(TRAILING.value)
  {
    var v := TRAILING.value + CRLF;
    assert v == ['b', ' ', '\r', '\n'];
    assert v[0..2][0] == 'b' && v[1..3][0] == ' ';
  }

  /** A head with one field, whose value ends in a space. */
  lemma OneFieldHangs(status: nat, reason: bytes, l: FieldLine)
    requires status < 1000 && GoodReason(reason) && Good([l]) && EndsInSpace(l.value)
    ensures Parse(Print(status, reason, [l])) == Hang
  {
    assert HangsAt(map[], [l], 0);
    PrintedHangs(map[], [l]);
    ParseInvertsPrint(status, reason, [l]);
  }

  /** Such a head. */
  lemma HeadThatHangs()
    ensures Parse(Print(200, ['O', 'K'], [TRAILING])) == Hang
  {
    TrailingIsGood();
    OneFieldHangs(200, ['O', 'K'], TRAILING);
  }

  /** A name, a value, and one character more that is left aside because no CRLF follows. */
  function CutLine(b: bytes): bytes { ['A', ':'] + (b + [' ', 'x']) }

  lemma CutLineHangs(b: bytes)
    requires b != [] && forall i :: 0 <= i < |b| ==> b[i] == 'b'
    ensures LineHangs(CutLine(b))
  {
    var t, u := CutLine(b), b + [' ', 'x'];
    assert t[0] == 'A' && t[1] == ':' && t[2..] == u;
    RunIs(t, IsToken, 1);
    RunIs(u, IsSpace, 0);
    assert u[0..] == u;
    assert forall i | 0 <= i < |u| :: u[i] != '\r';
    NoLineEnd(u);
    assert SplitValue(u) == ValueSplit(u[..|u| - 1], None);
    assert ValueOf(t, 1) == SplitValue(u);
  }

  lemma {:induction false} NoLineEnd(u: bytes)
    requires forall i :: 0 <= i < |u| ==> u[i] != '\r'
    ensures LineEnd(u) == None
  {
    if |u| >= 2 {
      assert forall i | 0 <= i < |u[1..]| :: u[1..][i] == u[i + 1];
      NoLineEnd(u[1..]);
    }
  }

  const PHRASE: bytes := ['O', 'K']

  /** A line that is not left again, right behind the status line. */
  lemma FirstLineHangs(status: nat, reason: bytes, t: bytes)
    requires status < 1000 && GoodReason(reason) && LineHangs(t)
    ensures Parse(Headed(status, reason, t)) == Hang
  {
    NoLines(map[], t);
    assert Lines([]) + t == t;
    HeadHangFollows(Headed(status, reason, t), status, reason, [], t);
  }

  /** A head that is cut off inside its only field: the parser loops although no value ends in a space. */
  lemma CutOffHeadHangs(b: bytes)
    requires b != [] && forall i :: 0 <= i < |b| ==> b[i] == 'b'
    ensures Parse(Headed(200, PHRASE, CutLine(b))) == Hang
  {
    CutLineHangs(b);
    FirstLineHangs(200, PHRASE, CutLine(b));
  }

  /** Only the status line ends in CRLF. */
  lemma OneReturn(b: bytes, tail: bytes)
    requires forall i :: 0 <= i < |b| ==> b[i] == 'b'
    requires forall i :: 0 <= i < |tail| ==> tail[i] == 'x'
    ensures var s := Headed(200, PHRASE, CutLine(b)) + tail; forall i | 0 <= i < |s| && s[i] == '\r' :: i == 15
  {
    var head, rest := VERSION + (Digits(200) + ([' '] + PHRASE)), CutLine(b) + tail;
    assert Headed(200, PHRASE, CutLine(b)) + tail == head + (CRLF + rest);
    assert Digits(200) == ['2', '0', '0'];
    assert head == ['H', 'T', 'T', 'P', '/', '1', '.', '1', ' ', '2', '0', '0', ' ', 'O', 'K'];
    assert forall j | 0 <= j < |rest| :: rest[j] != '\r';
  }

  function CutOffHead(b: bytes): bytes { Headed(200, PHRASE, CutLine(b)) }

  lemma CutOffLength(b: bytes)
    ensures |CutOffHead(b)| == 21 + |b|
  {
  }

  lemma NoHeadEnd(b: bytes, tail: bytes, i: nat)
    requires forall i :: 0 <= i < |b| ==> b[i] == 'b'
    requires forall i :: 0 <= i < |tail| ==> tail[i] == 'x'
    ensures !MatchAt(CutOffHead(b) + tail, HEAD_END, i)
  {
    var t := CutOffHead(b) + tail;
    if MatchAt(t, HEAD_END, i) {
      assert t[i] == t[i..i + 4][0] == '\r' && t[i + 2] == t[i..i + 4][2] == '\r';
      OneReturn(b, tail);
      assert false;
    }
  }

  lemma CutWithout(s: bytes, tail: bytes, r: Request)
    requires r.pattern != [] && r.cap == |s| && |tail| + 1 >= |r.pattern|
    requires forall i: nat :: !MatchAt(s + tail, r.pattern, i)
    ensures Cut(s + tail, r) == Some(|s|)
  {
    assert FindFrom(s + tail, r.pattern, 0) == None;
  }

  /**
   Such a head reaches the parser: a field that fills the client's buffer before the end of
   the head is received as a success.
   */
  lemma LongFieldHangs(b: bytes, tail: bytes)
    requires |b| == 4075 && forall i :: 0 <= i < |b| ==> b[i] == 'b'
    requires |tail| == 3 && forall i :: 0 <= i < |tail| ==> tail[i] == 'x'
    ensures Cut(CutOffHead(b) + tail, HEAD) == Some(|CutOffHead(b)|) && Parse(CutOffHead(b)) == Hang
  {
    CutOffLength(b);
    CutOffHeadHangs(b);
    forall i: nat ensures !MatchAt(CutOffHead(b) + tail, HEAD_END, i) {
      NoHeadEnd(b, tail, i);
    }
    CutWithout(CutOffHead(b), tail, HEAD);
  }
}
