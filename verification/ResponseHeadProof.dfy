/** The main results on response heads: parsing inverts printing, and accepts nothing else. */
module ResponseHeadProof {
  import opened Streams
  import opened Matching
  import opened HeaderFields
  import opened Scanning
  import opened ResponseHead

  /** A header field as it is sent: a name, spaces, a value. */
  datatype FieldLine = FieldLine(name: bytes, pad: nat, value: bytes)

  ghost predicate GoodName(name: bytes) { name != [] && forall i :: 0 <= i < |name| ==> IsToken(name[i]) }

  /** A value is trimmed on its left and holds no end of line. */
  ghost predicate GoodValue(value: bytes) {
    && (value != [] ==> value[0] != ' ')
    && NoMatchIn(value + CRLF, CRLF, 0, |value|)
  }

  ghost predicate Good(ls: seq<FieldLine>) { forall l | l in ls :: GoodName(l.name) && GoodValue(l.value) }

  function Spaces(n: nat): bytes { seq(n, _ => ' ') }

  function PrintLine(l: FieldLine): bytes { l.name + ([':'] + (Spaces(l.pad) + (l.value + CRLF))) }

  function PrintLines(ls: seq<FieldLine>): bytes {
    if ls == [] then CRLF else PrintLine(ls[0]) + PrintLines(ls[1..])
  }

  /** What the fields amount to, one after the other. */
  function PutAll(acc: Values, ls: seq<FieldLine>): Outcome<Values>
    decreases |ls|
  {
    if ls == [] then Ok(acc)
    else if EndsInSpace(ls[0].value) then Hang
    else match Put(acc, ls[0].name, ls[0].value)
      case Ok(next) => PutAll(next, ls[1..])
      case err => err
  }

  /* ---------- parsing inverts printing ---------- */

  lemma PrintedValue(pad: nat, value: bytes, tail: bytes)
    requires GoodValue(value)
    ensures SplitValue(Spaces(pad) + (value + CRLF) + tail) == ValueSplit(value, Some(tail))
  {
    var t := Spaces(pad) + (value + CRLF) + tail;
    var u := (value + CRLF) + tail;
    assert t[pad] == u[0];
    RunIs(t, IsSpace, pad);
    assert t[pad..] == u;
    assert (value + CRLF)[|value|..|value| + 2] == CRLF;
    FindIs(value + CRLF, CRLF, |value|);
    MatchExtends(value + CRLF, tail, CRLF, |value|);
    NoMatchExtends(value + CRLF, tail, CRLF, |value|);
    FindIs(u, CRLF, |value|);
    LineEndIsFirst(u);
    assert u[..|value|] == value && u[|value| + 2..] == tail;
  }

  lemma PrintedLine(l: FieldLine, tail: bytes)
    requires GoodName(l.name) && GoodValue(l.value)
    ensures NameEnd(PrintLine(l) + tail) == Some(|l.name|) && (PrintLine(l) + tail)[..|l.name|] == l.name
    ensures ValueOf(PrintLine(l) + tail, |l.name|) == ValueSplit(l.value, Some(tail))
  {
    var s, t := PrintLine(l) + tail, Spaces(l.pad) + (l.value + CRLF) + tail;
    JoinLine(l, tail);
    PrintedName(s, l.name, t);
    PrintedValue(l.pad, l.value, tail);
  }

  lemma PrintedName(s: bytes, name: bytes, t: bytes)
    requires GoodName(name) && s == name + ([':'] + t)
    ensures NameEnd(s) == Some(|name|) && s[..|name|] == name && Behind(s, |name|) == t
  {
    var k := |name|;
    assert s[k] == ':' && s[..k] == name && s[k + 1..] == t;
    assert forall i | 0 <= i < k :: s[i] == name[i];
    RunIs(s, IsToken, k);
  }

  lemma FieldsStep(s: bytes, acc: Values, k: nat, rest: bytes)
    requires |s| >= 2 && s[0] != '\r' && NameEnd(s) == Some(k) && ValueOf(s, k).rest == Some(rest) && |rest| < |s|
    ensures Fields(s, acc) == if Line(s, acc).Ok? then Fields(rest, Line(s, acc).value) else Line(s, acc)
  {
  }

  lemma PutAllStep(acc: Values, ls: seq<FieldLine>, put: Outcome<Values>)
    requires ls != [] && put == Put(acc, ls[0].name, ls[0].value)
    ensures PutAll(acc, ls) ==
      if EndsInSpace(ls[0].value) then Hang else if put.Ok? then PutAll(put.value, ls[1..]) else put
  {
  }

  /** One printed line before the others. */
  lemma PrintedStep(l: FieldLine, tail: bytes, acc: Values, put: Outcome<Values>)
    requires GoodName(l.name) && GoodValue(l.value) && put == Put(acc, l.name, l.value)
    ensures Fields(PrintLine(l) + tail, acc) ==
      if EndsInSpace(l.value) then Hang else if put.Ok? then Fields(tail, put.value) else put
  {
    var s := PrintLine(l) + tail;
    PrintedLine(l, tail);
    assert s[0] == l.name[0];
    LineIs(s, l.name, l.value, acc);
    FieldsStep(s, acc, |l.name|, tail);
  }

  lemma {:induction false} PrintedFields(ls: seq<FieldLine>, acc: Values)
    requires Good(ls)
    ensures Fields(PrintLines(ls), acc) == PutAll(acc, ls)
    decreases |ls|
  {
    if ls != [] {
      var l := ls[0];
      assert l in ls;
      var put := Put(acc, l.name, l.value);
      PrintedStep(l, PrintLines(ls[1..]), acc, put);
      PutAllStep(acc, ls, put);
      if !EndsInSpace(l.value) && put.Ok? {
        PrintedFields(ls[1..], put.value);
      }
    }
  }

  function Digits(status: nat): bytes
    requires status < 1000
  {
    [('0' as int + status / 100) as char, ('0' as int + status / 10 % 10) as char, ('0' as int + status % 10) as char]
  }

  function Print(status: nat, reason: bytes, ls: seq<FieldLine>): bytes
    requires status < 1000
  {
    VERSION + (Digits(status) + ([' '] + (reason + (CRLF + PrintLines(ls)))))
  }

  ghost predicate GoodReason(reason: bytes) { reason != [] && forall i :: 0 <= i < |reason| ==> IsReason(reason[i]) }

  lemma PrintedReason(reason: bytes, tail: bytes)
    requires GoodReason(reason)
    ensures Reason(reason + (CRLF + tail)) == Some(reason) && (reason + (CRLF + tail))[|reason| + 2..] == tail
  {
    var t, n := reason + (CRLF + tail), |reason|;
    assert t[n] == '\r' && t[n + 1] == '\n' && t[..n] == reason;
    assert forall i | 0 <= i < n :: t[i] == reason[i];
    RunIs(t, IsReason, n);
  }

  lemma DigitsBack(status: nat)
    requires status < 1000
    ensures var d := Digits(status);
      IsDigit(d[0]) && IsDigit(d[1]) && IsDigit(d[2]) && Code(d[0], d[1], d[2]) == status
  {
    assert status / 10 % 10 == status / 10 - 10 * (status / 100);
  }

  lemma PrintedCode(s: bytes, d: bytes, t: bytes)
    requires |d| == 3 && IsDigit(d[0]) && IsDigit(d[1]) && IsDigit(d[2]) && s == VERSION + (d + ([' '] + t))
    ensures |s| >= 13 && s[..9] == VERSION && Run(s[9..], IsDigit) == 3 && s[12] == ' ' && s[13..] == t
    ensures s[9] == d[0] && s[10] == d[1] && s[11] == d[2]
  {
    var u := s[9..];
    assert u == d + ([' '] + t);
    assert u[3] == ' ' && u[0] == d[0] && u[1] == d[1] && u[2] == d[2];
    RunIs(u, IsDigit, 3);
    assert s[9] == u[0] && s[10] == u[1] && s[11] == u[2] && s[12] == u[3];
  }

  lemma StatusLineIs(s: bytes, reason: bytes)
    requires |s| >= 13 && s[..9] == VERSION && Run(s[9..], IsDigit) == 3 && s[12] == ' '
      && Reason(s[13..]) == Some(reason)
    ensures IsDigit(s[9]) && IsDigit(s[10]) && IsDigit(s[11])
    ensures StatusLine(s) == Ok((Code(s[9], s[10], s[11]), reason, s[13..][|reason| + 2..]))
  {
    RunMeans(s[9..], IsDigit);
    assert s[9..][0] == s[9] && s[9..][1] == s[10] && s[9..][2] == s[11];
  }

  lemma PrintedLineOf(d: bytes, reason: bytes, tail: bytes)
    requires |d| == 3 && IsDigit(d[0]) && IsDigit(d[1]) && IsDigit(d[2]) && GoodReason(reason)
    ensures StatusLine(VERSION + (d + ([' '] + (reason + (CRLF + tail))))) == Ok((Code(d[0], d[1], d[2]), reason, tail))
  {
    var s := VERSION + (d + ([' '] + (reason + (CRLF + tail))));
    PrintedCode(s, d, reason + (CRLF + tail));
    PrintedReason(reason, tail);
    StatusLineIs(s, reason);
  }

  lemma PrintedStatus(status: nat, reason: bytes, ls: seq<FieldLine>)
    requires status < 1000 && GoodReason(reason)
    ensures StatusLine(Print(status, reason, ls)) == Ok((status, reason, PrintLines(ls)))
  {
    DigitsBack(status);
    PrintedLineOf(Digits(status), reason, PrintLines(ls));
  }

  /**
   MAIN RESULT. Parsing inverts printing, for every status, reason phrase, and list of
   fields with any spelling and padding: the status and the phrase come back, and the
   values are those of `PutAll`, or its error.
   */
  lemma ParseInvertsPrint(status: nat, reason: bytes, ls: seq<FieldLine>)
    requires status < 1000 && GoodReason(reason) && Good(ls)
    ensures Parse(Print(status, reason, ls)) == Complete(status, reason, PutAll(map[], ls))
  {
    PrintedStatus(status, reason, ls);
    PrintedFields(ls, map[]);
  }

  /* ---------- what the fields amount to ---------- */

  ghost predicate Names(l: FieldLine, f: Field) { FieldOf(l.name) == Some(f) }

  /** No value ends in a space, and a needed field has an acceptable value, not seen before. */
  ghost predicate Fine(acc: Values, l: FieldLine) {
    !EndsInSpace(l.value) && forall f | Names(l, f) :: Acceptable(f, l.value) && f !in acc
  }

  ghost predicate AllFine(acc: Values, ls: seq<FieldLine>) {
    && (forall l | l in ls :: Fine(acc, l))
    && (forall i, j, f | 0 <= i < j < |ls| && Names(ls[i], f) :: !Names(ls[j], f))
  }

  /** The values are those of `acc` and of the needed fields among `ls`. */
  ghost predicate Holds(m: Values, acc: Values, ls: seq<FieldLine>) {
    && (forall f :: f in m <==> f in acc || exists l :: l in ls && Names(l, f))
    && (forall f | f in acc :: f in m && m[f] == acc[f])
    && (forall l, f | l in ls && Names(l, f) :: f in m && m[f] == l.value)
  }

  lemma AllFineRest(acc: Values, ls: seq<FieldLine>, next: Values)
    requires ls != [] && !EndsInSpace(ls[0].value) && Put(acc, ls[0].name, ls[0].value) == Ok(next)
    ensures AllFine(acc, ls) <==> AllFine(next, ls[1..])
  {
    var rest := ls[1..];
    assert ls == [ls[0]] + rest;
    if AllFine(acc, ls) {
      forall l | l in rest ensures Fine(next, l) {
        var j :| 0 <= j < |rest| && rest[j] == l;
        assert ls[j + 1] == l && Fine(acc, l);
        forall f | Names(l, f) ensures Acceptable(f, l.value) && f !in next {
          assert !Names(ls[0], f);
        }
      }
      forall i, j, f | 0 <= i < j < |rest| && Names(rest[i], f) ensures !Names(rest[j], f) {
        assert ls[i + 1] == rest[i] && ls[j + 1] == rest[j];
      }
    }
    if AllFine(next, rest) {
      forall i, j, f | 0 <= i < j < |ls| && Names(ls[i], f) ensures !Names(ls[j], f) {
        assert ls[j] == rest[j - 1];
        if i > 0 {
          assert ls[i] == rest[i - 1];
        } else {
          assert Fine(next, ls[j]);
        }
      }
    }
  }

  lemma PutHolds(acc: Values, l: FieldLine, next: Values)
    requires Put(acc, l.name, l.value) == Ok(next)
    ensures match FieldOf(l.name)
            case None => next == acc
            case Some(f) => f !in acc && next == acc[f := l.value]
  {
  }

  lemma HoldsMore(m: Values, acc: Values, ls: seq<FieldLine>, next: Values, named: Option<Field>)
    requires ls != [] && Holds(m, next, ls[1..]) && forall f :: Names(ls[0], f) <==> named == Some(f)
    requires match named
             case None => next == acc
             case Some(f) => f !in acc && next == acc[f := ls[0].value]
    ensures Holds(m, acc, ls)
  {
    var rest := ls[1..];
    assert ls == [ls[0]] + rest;
    assert ls[0] in ls;
    forall f ensures f in m <==> f in acc || exists l :: l in ls && Names(l, f) {
      if exists l :: l in ls && Names(l, f) {
        var l :| l in ls && Names(l, f);
        assert l == ls[0] || l in rest;
      }
    }
  }

  /**
   MAIN RESULT. The fields are taken if and only if no value ends in a space, each needed
   field is acceptable, and none occurs twice; then they are just the needed ones.
   */
  lemma {:induction false} PutAllMeaning(acc: Values, ls: seq<FieldLine>)
    ensures PutAll(acc, ls).Ok? <==> AllFine(acc, ls)
    ensures PutAll(acc, ls).Ok? ==> Holds(PutAll(acc, ls).value, acc, ls)
    decreases |ls|
  {
    if ls != [] {
      assert ls[0] in ls;
      var put := Put(acc, ls[0].name, ls[0].value);
      if !EndsInSpace(ls[0].value) && put.Ok? {
        PutAllMeaning(put.value, ls[1..]);
        AllFineRest(acc, ls, put.value);
        if PutAll(acc, ls).Ok? {
          PutHolds(acc, ls[0], put.value);
          HoldsMore(PutAll(acc, ls).value, acc, ls, put.value, FieldOf(ls[0].name));
        }
      } else {
        assert !Fine(acc, ls[0]);
      }
    }
  }

  /* ---------- when the parser does not end ---------- */

  /** Field `i` ends in a space, and the fields before it are taken. */
  ghost predicate HangsAt(acc: Values, ls: seq<FieldLine>, i: nat) {
    i < |ls| && EndsInSpace(ls[i].value) && AllFine(acc, ls[..i])
  }

  lemma HangsLater(acc: Values, ls: seq<FieldLine>, next: Values, i: nat)
    requires ls != [] && i < |ls| - 1
    requires !EndsInSpace(ls[0].value) && Put(acc, ls[0].name, ls[0].value) == Ok(next)
    ensures HangsAt(next, ls[1..], i) <==> HangsAt(acc, ls, i + 1)
  {
    AllFineRest(acc, ls[..i + 1], next);
    assert ls[..i + 1][1..] == ls[1..][..i];
  }

  /** Printed fields make the parser loop for ever just when one ends in a space and those before it are taken. */
  lemma {:induction false} PrintedHangs(acc: Values, ls: seq<FieldLine>)
    ensures PutAll(acc, ls) == Hang <==> exists i: nat :: HangsAt(acc, ls, i)
    decreases |ls|
  {
    if ls != [] {
      assert ls[..0] == [];
      assert HangsAt(acc, ls, 0) <==> EndsInSpace(ls[0].value);
      var put := Put(acc, ls[0].name, ls[0].value);
      if !EndsInSpace(ls[0].value) {
        if put.Ok? {
          PrintedHangs(put.value, ls[1..]);
          forall i: nat | i < |ls| - 1 ensures HangsAt(put.value, ls[1..], i) <==> HangsAt(acc, ls, i + 1) {
            HangsLater(acc, ls, put.value, i);
          }
          SomeShifts(acc, ls, put.value);
        } else {
          forall i: nat ensures !HangsAt(acc, ls, i) {
            if 0 < i < |ls| {
              assert ls[..i][0] == ls[0] && ls[0] in ls[..i];
              assert !Fine(acc, ls[0]);
            }
          }
        }
      }
    }
  }

  lemma SomeShifts(acc: Values, ls: seq<FieldLine>, next: Values)
    requires ls != [] && !HangsAt(acc, ls, 0)
    requires forall i: nat | i < |ls| - 1 :: HangsAt(next, ls[1..], i) <==> HangsAt(acc, ls, i + 1)
    ensures (exists i: nat :: HangsAt(acc, ls, i)) <==> exists i: nat :: HangsAt(next, ls[1..], i)
  {
    if i: nat :| HangsAt(acc, ls, i) {
      assert HangsAt(next, ls[1..], i - 1);
    }
    if i: nat :| HangsAt(next, ls[1..], i) {
      assert HangsAt(acc, ls, i + 1);
    }
  }

  /* ---------- nothing else is accepted ---------- */

  lemma FoundSplits(u: bytes, e: nat)
    requires LineEnd(u) == Some(e)
    ensures u == (u[..e] + CRLF) + u[e + 2..] && NoMatchIn(u[..e] + CRLF, CRLF, 0, e)
  {
    var line := u[..e + 2];
    LineEndIsFirst(u);
    assert u[e..e + 2] == CRLF;
    assert u[..e] + CRLF == line && u == line + u[e + 2..];
    forall i: nat | i < e ensures !MatchAt(line, CRLF, i) {
      MatchExtends(line, u[e + 2..], CRLF, i);
    }
  }

  lemma SpacesSplit(t: bytes)
    ensures t == Spaces(Run(t, IsSpace)) + t[Run(t, IsSpace)..]
  {
    RunMeans(t, IsSpace);
  }

  lemma SplitWasPrinted(t: bytes) returns (pad: nat)
    requires SplitValue(t).rest.Some?
    ensures GoodValue(SplitValue(t).value)
    ensures t == Spaces(pad) + (SplitValue(t).value + CRLF) + SplitValue(t).rest.value
  {
    pad := Run(t, IsSpace);
    var u := t[pad..];
    SpacesSplit(t);
    var e := LineEnd(u).value;
    FoundSplits(u, e);
    assert e > 0 ==> u[..e][0] == t[pad];
  }

  lemma SplitColon(s: bytes, k: nat)
    requires k < |s| && s[k] == ':'
    ensures s == s[..k] + ([':'] + s[k + 1..])
  {
  }

  lemma JoinLine(l: FieldLine, rest: bytes)
    ensures PrintLine(l) + rest == l.name + ([':'] + (Spaces(l.pad) + (l.value + CRLF) + rest))
  {
  }

  lemma LineParts(s: bytes, acc: Values, k: nat)
    requires Line(s, acc).Ok? && NameEnd(s) == Some(k) && ValueOf(s, k).rest.Some?
    ensures k < |s| && s[k] == ':' && GoodName(s[..k]) && ValueOf(s, k) == SplitValue(s[k + 1..])
    ensures Line(s, acc) == Put(acc, s[..k], ValueOf(s, k).value) && !EndsInSpace(ValueOf(s, k).value)
  {
    RunMeans(s, IsToken);
    if k == |s| {
      NoValue();
    }
  }

  lemma LineWasPrinted(s: bytes, acc: Values) returns (l: FieldLine)
    requires Line(s, acc).Ok? && ValueOf(s, NameEnd(s).value).rest.Some?
    ensures GoodName(l.name) && GoodValue(l.value)
    ensures s == PrintLine(l) + ValueOf(s, NameEnd(s).value).rest.value
    ensures Line(s, acc) == Put(acc, l.name, l.value) && !EndsInSpace(l.value)
  {
    var k := NameEnd(s).value;
    LineParts(s, acc, k);
    var v := SplitValue(s[k + 1..]);
    var pad := SplitWasPrinted(s[k + 1..]);
    l := FieldLine(s[..k], pad, v.value);
    SplitColon(s, k);
    JoinLine(l, v.rest.value);
  }

  lemma {:induction false} FieldsWerePrinted(s: bytes, acc: Values) returns (ls: seq<FieldLine>)
    requires Fields(s, acc).Ok?
    ensures Good(ls) && s == PrintLines(ls) && Fields(s, acc) == PutAll(acc, ls)
    decreases |s|
  {
    if s[0] == '\r' && s[1] == '\n' {
      ls := [];
      assert s == CRLF;
    } else {
      var l := LineWasPrinted(s, acc);
      var rest := ValueOf(s, NameEnd(s).value).rest.value;
      var more := FieldsWerePrinted(rest, Line(s, acc).value);
      ls := [l] + more;
      assert ls[1..] == more;
    }
  }

  lemma DigitsForth(a: byte, b: byte, c: byte)
    requires IsDigit(a) && IsDigit(b) && IsDigit(c)
    ensures Code(a, b, c) < 1000 && Digits(Code(a, b, c)) == [a, b, c]
  {
    var code := Code(a, b, c);
    assert code / 100 == DigitValue(a) && code / 10 == 10 * DigitValue(a) + DigitValue(b);
    assert code / 10 % 10 == DigitValue(b) && code % 10 == DigitValue(c);
  }

  lemma SplitStatus(s: bytes)
    requires |s| >= 13 && Run(s[9..], IsDigit) == 3
    ensures s == s[..9] + ([s[9], s[10], s[11]] + ([s[12]] + s[13..]))
    ensures IsDigit(s[9]) && IsDigit(s[10]) && IsDigit(s[11])
  {
    var u := s[9..];
    RunMeans(u, IsDigit);
    assert u[0] == s[9] && u[1] == s[10] && u[2] == s[11];
  }

  lemma ReasonWasPrinted(t: bytes)
    requires Reason(t).Some?
    ensures var reason := Reason(t).value;
      GoodReason(reason) && t == reason + (CRLF + t[|reason| + 2..])
  {
    RunMeans(t, IsReason);
  }

  lemma StatusWasPrinted(s: bytes) returns (status: nat, reason: bytes, rest: bytes)
    requires StatusLine(s).Ok?
    ensures StatusLine(s) == Ok((status, reason, rest)) && status < 1000 && GoodReason(reason)
    ensures s == VERSION + (Digits(status) + ([' '] + (reason + (CRLF + rest))))
  {
    SplitStatus(s);
    DigitsForth(s[9], s[10], s[11]);
    reason := Reason(s[13..]).value;
    ReasonWasPrinted(s[13..]);
    StatusLineIs(s, reason);
    var (code, _, t) := StatusLine(s).value;
    status, rest := code, t;
  }

  /**
   MAIN RESULT. Whatever is parsed successfully was printed, down to the last byte, and
   holds just the fields of `PutAll`: an acceptable value for each needed field that
   occurs.
   */
  lemma ParsedWasPrinted(s: bytes) returns (status: nat, reason: bytes, ls: seq<FieldLine>)
    requires Parse(s).Ok?
    ensures status < 1000 && GoodReason(reason) && Good(ls)
    ensures s == Print(status, reason, ls)
    ensures Parse(s) == Complete(status, reason, PutAll(map[], ls))
  {
    var rest;
    ParseHasStatus(s);
    status, reason, rest := StatusWasPrinted(s);
    ParseIs(s, status, reason, rest);
    ls := FieldsWerePrinted(rest, map[]);
  }

  lemma ParseHasStatus(s: bytes)
    requires Parse(s).Ok?
    ensures StatusLine(s).Ok? && Fields(StatusLine(s).value.2, map[]).Ok?
  {
    var line := StatusLine(s);
    if line.Ok? {
      var (status, reason, rest) := line.value;
      ParseIs(s, status, reason, rest);
      CompleteIsOk(status, reason, Fields(rest, map[]));
    }
  }

  lemma CompleteIsOk(status: nat, reason: bytes, fields: Outcome<Values>)
    requires Complete(status, reason, fields).Ok?
    ensures fields.Ok?
  {
  }

  lemma ParseIs(s: bytes, status: nat, reason: bytes, rest: bytes)
    requires StatusLine(s) == Ok((status, reason, rest))
    ensures Parse(s) == Complete(status, reason, Fields(rest, map[]))
  {
  }

  /* ---------- the errors of the status line ---------- */

  /** The version, three digits that say `status`, a space, and then `t`. */
  ghost predicate HasStatus(s: bytes, status: nat, t: bytes) {
    status < 1000 && s == VERSION + (Digits(status) + ([' '] + t))
  }

  /** Behind them a phrase up to CRLF. */
  ghost predicate HasReason(t: bytes, reason: bytes, rest: bytes) { GoodReason(reason) && t == reason + (CRLF + rest) }

  lemma StatusBegins(s: bytes, status: nat, t: bytes)
    requires HasStatus(s, status, t)
    ensures !StatusLine(s).BadVersion? && !StatusLine(s).BadStatus? && s[13..] == t
    ensures StatusLine(s).BadReason? <==> Reason(t).None?
  {
    DigitsBack(status);
    PrintedCode(s, Digits(status), t);
  }

  lemma BadStatusMeans(s: bytes)
    requires VERSION <= s
    ensures StatusLine(s).BadStatus? <==> !exists status, t :: HasStatus(s, status, t)
  {
    assert s[..9] == VERSION;
    if !StatusLine(s).BadStatus? {
      SplitStatus(s);
      DigitsForth(s[9], s[10], s[11]);
      assert HasStatus(s, Code(s[9], s[10], s[11]), s[13..]);
    }
    if status, t :| HasStatus(s, status, t) {
      StatusBegins(s, status, t);
    }
  }

  lemma ReasonMeans(t: bytes)
    ensures Reason(t).Some? <==> exists reason, rest :: HasReason(t, reason, rest)
  {
    if Reason(t).Some? {
      ReasonWasPrinted(t);
      assert HasReason(t, Reason(t).value, t[|Reason(t).value| + 2..]);
    }
    if reason, rest :| HasReason(t, reason, rest) {
      PrintedReason(reason, rest);
    }
  }

  predicate OfStatus(error: Outcome<Head>) { error.BadVersion? || error.BadStatus? || error.BadReason? }

  lemma CompleteShows(status: nat, reason: bytes, fields: Outcome<Values>)
    ensures !OfStatus(Complete(status, reason, fields))
  {
  }

  lemma RefusedShows(s: bytes)
    requires !StatusLine(s).Ok?
    ensures Parse(s) ==
      if StatusLine(s).BadVersion? then BadVersion else if StatusLine(s).BadStatus? then BadStatus else BadReason
  {
  }

  lemma ErrorsShow(s: bytes)
    ensures Parse(s) == BadVersion <==> StatusLine(s) == BadVersion
    ensures Parse(s) == BadStatus <==> StatusLine(s) == BadStatus
    ensures Parse(s) == BadReason <==> !StatusLine(s).Ok? && !StatusLine(s).BadVersion? && !StatusLine(s).BadStatus?
  {
    if StatusLine(s).Ok? {
      var (status, reason, rest) := StatusLine(s).value;
      ParseIs(s, status, reason, rest);
      CompleteShows(status, reason, Fields(rest, map[]));
    } else {
      RefusedShows(s);
    }
  }

  /** The exact conditions of the three errors of the status line, for all bytes. */
  lemma StatusErrors(s: bytes)
    ensures Parse(s) == BadVersion <==> !(VERSION <= s)
    ensures Parse(s) == BadStatus <==> VERSION <= s && !exists status, t :: HasStatus(s, status, t)
    ensures Parse(s) == BadReason <==>
      exists status, t :: HasStatus(s, status, t) && !exists reason, rest :: HasReason(t, reason, rest)
  {
    ErrorsShow(s);
    VersionErrors(s);
    if VERSION <= s {
      BadStatusMeans(s);
    }
    forall status, t | HasStatus(s, status, t) ensures StatusLine(s).BadReason? <==> Reason(t).None? {
      StatusBegins(s, status, t);
    }
    forall t: bytes ensures Reason(t).Some? <==> exists reason, rest :: HasReason(t, reason, rest) {
      ReasonMeans(t);
    }
  }

  lemma VersionErrors(s: bytes)
    ensures StatusLine(s) == BadVersion <==> !(VERSION <= s)
  {
    assert VERSION <= s <==> |s| >= 9 && s[..9] == VERSION;
  }
}
