/**
 Recognising a header field by its name (`check_field` and the name buffer of
 `http_rsp_parse`): a binary search in a sorted table of lower-case names. A field is its
 position in the table.
 */
module HeaderFields {
  import opened Streams
  import opened Scanning

  const NAME_MAX: nat := 19

  const FIELDS: nat := 47
  const CONTENT_LENGTH: nat := 12
  const TRANSFER_ENCODING: nat := 40

  /** The names of the table, in its order. */
  function Name(i: nat): string {
    match i
    case 0 => "accept"
    case 1 => "accept-charset"
    case 2 => "accept-encoding"
    case 3 => "accept-language"
    case 4 => "accept-ranges"
    case 5 => "age"
    case 6 => "allow"
    case 7 => "authorization"
    case 8 => "cache-control"
    case 9 => "connection"
    case 10 => "content-encoding"
    case 11 => "content-language"
    case 12 => "content-length"
    case 13 => "content-location"
    case 14 => "content-md5"
    case 15 => "content-range"
    case 16 => "content-type"
    case 17 => "date"
    case 18 => "etag"
    case 19 => "expect"
    case 20 => "expires"
    case 21 => "from"
    case 22 => "host"
    case 23 => "if-match"
    case 24 => "if-modified-since"
    case 25 => "if-none-match"
    case 26 => "if-range"
    case 27 => "if-unmodified-since"
    case 28 => "last-modified"
    case 29 => "location"
    case 30 => "max-forwards"
    case 31 => "pragma"
    case 32 => "proxy-authenticate"
    case 33 => "proxy-authorization"
    case 34 => "range"
    case 35 => "referer"
    case 36 => "retry-after"
    case 37 => "server"
    case 38 => "te"
    case 39 => "trailer"
    case 40 => "transfer-encoding"
    case 41 => "upgrade"
    case 42 => "user-agent"
    case 43 => "vary"
    case 44 => "via"
    case 45 => "warning"
    case 46 => "www-authenticate"
    case _ => ""
  }

  function Table(): (t: seq<string>)
    ensures |t| == FIELDS && forall i | 0 <= i < FIELDS :: t[i] == Name(i)
  {
    seq(FIELDS, i requires 0 <= i < FIELDS => Name(i))
  }

  /** `strcmp(a, b) < 0`, from position `k` on. */
  predicate LessFrom(a: string, b: string, k: nat)
    decreases |b| - k
  {
    k < |b| && (k >= |a| || a[k] < b[k] || (a[k] == b[k] && LessFrom(a, b, k + 1)))
  }

  predicate Less(a: string, b: string) { LessFrom(a, b, 0) }

  lemma {:induction false} LessIrreflexive(a: string, k: nat)
    ensures !LessFrom(a, a, k)
    decreases |a| - k
  {
    if k < |a| {
      LessIrreflexive(a, k + 1);
    }
  }

  lemma {:induction false} LessTransitive(a: string, b: string, c: string, k: nat)
    requires LessFrom(a, b, k) && LessFrom(b, c, k)
    ensures LessFrom(a, c, k)
    decreases |b| - k
  {
    if k < |a| && a[k] == b[k] == c[k] {
      LessTransitive(a, b, c, k + 1);
    }
  }

  ghost predicate Sorted(t: seq<string>) {
    forall i, j | 0 <= i < j < |t| :: Less(t[i], t[j])
  }

  lemma {:induction false} StepsSort(t: seq<string>)
    requires forall i | 0 <= i < |t| - 1 :: Less(t[i], t[i + 1])
    ensures Sorted(t)
  {
    if |t| > 1 {
      var last := |t| - 1;
      var fore := t[..last];
      StepsSort(fore);
      forall i | 0 <= i < last ensures Less(t[i], t[last]) {
        assert fore[last - 1] == t[last - 1] && Less(t[last - 1], t[last - 1 + 1]);
        if i < last - 1 {
          assert fore[i] == t[i];
          LessTransitive(t[i], t[last - 1], t[last], 0);
        }
      }
      forall i, j | 0 <= i < j < |t| ensures Less(t[i], t[j]) {
        if j < last {
          assert fore[i] == t[i] && fore[j] == t[j];
        }
      }
    }
  }

  /* Each name is less than the next one. */

  lemma NamesAscend0(i: nat)
    requires 0 <= i < 8
    ensures Less(Name(i), Name(i + 1))
  {
    if i == 0 { assert Less(Name(0), Name(1)); }
    if i == 1 { assert Less(Name(1), Name(2)); }
    if i == 2 { assert Less(Name(2), Name(3)); }
    if i == 3 { assert Less(Name(3), Name(4)); }
    if i == 4 { assert Less(Name(4), Name(5)); }
    if i == 5 { assert Less(Name(5), Name(6)); }
    if i == 6 { assert Less(Name(6), Name(7)); }
    if i == 7 { assert Less(Name(7), Name(8)); }
  }

  lemma NamesAscend8(i: nat)
    requires 8 <= i < 16
    ensures Less(Name(i), Name(i + 1))
  {
    if i == 8 { assert Less(Name(8), Name(9)); }
    if i == 9 { assert Less(Name(9), Name(10)); }
    if i == 10 { assert Less(Name(10), Name(11)); }
    if i == 11 { assert Less(Name(11), Name(12)); }
    if i == 12 { assert Less(Name(12), Name(13)); }
    if i == 13 { assert Less(Name(13), Name(14)); }
    if i == 14 { assert Less(Name(14), Name(15)); }
    if i == 15 { assert Less(Name(15), Name(16)); }
  }

  lemma NamesAscend16(i: nat)
    requires 16 <= i < 24
    ensures Less(Name(i), Name(i + 1))
  {
    if i == 16 { assert Less(Name(16), Name(17)); }
    if i == 17 { assert Less(Name(17), Name(18)); }
    if i == 18 { assert Less(Name(18), Name(19)); }
    if i == 19 { assert Less(Name(19), Name(20)); }
    if i == 20 { assert Less(Name(20), Name(21)); }
    if i == 21 { assert Less(Name(21), Name(22)); }
    if i == 22 { assert Less(Name(22), Name(23)); }
    if i == 23 { assert Less(Name(23), Name(24)); }
  }

  lemma NamesAscend24(i: nat)
    requires 24 <= i < 32
    ensures Less(Name(i), Name(i + 1))
  {
    if i == 24 { assert Less(Name(24), Name(25)); }
    if i == 25 { assert Less(Name(25), Name(26)); }
    if i == 26 { assert Less(Name(26), Name(27)); }
    if i == 27 { assert Less(Name(27), Name(28)); }
    if i == 28 { assert Less(Name(28), Name(29)); }
    if i == 29 { assert Less(Name(29), Name(30)); }
    if i == 30 { assert Less(Name(30), Name(31)); }
    if i == 31 { assert Less(Name(31), Name(32)); }
  }

  lemma NamesAscend32(i: nat)
    requires 32 <= i < 40
    ensures Less(Name(i), Name(i + 1))
  {
    if i == 32 { assert Less(Name(32), Name(33)); }
    if i == 33 { assert Less(Name(33), Name(34)); }
    if i == 34 { assert Less(Name(34), Name(35)); }
    if i == 35 { assert Less(Name(35), Name(36)); }
    if i == 36 { assert Less(Name(36), Name(37)); }
    if i == 37 { assert Less(Name(37), Name(38)); }
    if i == 38 { assert Less(Name(38), Name(39)); }
    if i == 39 { assert Less(Name(39), Name(40)); }
  }

  lemma NamesAscend40(i: nat)
    requires 40 <= i < 46
    ensures Less(Name(i), Name(i + 1))
  {
    if i == 40 { assert Less(Name(40), Name(41)); }
    if i == 41 { assert Less(Name(41), Name(42)); }
    if i == 42 { assert Less(Name(42), Name(43)); }
    if i == 43 { assert Less(Name(43), Name(44)); }
    if i == 44 { assert Less(Name(44), Name(45)); }
    if i == 45 { assert Less(Name(45), Name(46)); }
  }

  lemma NameAscends(i: nat)
    requires i < FIELDS - 1
    ensures Less(Name(i), Name(i + 1))
  {
    if
    case i < 8 => NamesAscend0(i);
    case 8 <= i < 16 => NamesAscend8(i);
    case 16 <= i < 24 => NamesAscend16(i);
    case 24 <= i < 32 => NamesAscend24(i);
    case 32 <= i < 40 => NamesAscend32(i);
    case 40 <= i => NamesAscend40(i);
  }

  /** The table is sorted, as the binary search needs it. */
  lemma TableSorted()
    ensures Sorted(Table())
  {
    var t := Table();
    forall i | 0 <= i < FIELDS - 1 ensures Less(t[i], t[i + 1]) {
      NameAscends(i);
    }
    StepsSort(t);
  }

  /** No name is longer than the name buffer. */
  lemma NamesFit(i: nat)
    ensures |Name(i)| <= NAME_MAX
  {
  }

  /** The first entry that is not less than `name`, as `std::lower_bound` finds it. */
  method LowerBound(table: seq<string>, name: string) returns (at: nat)
    requires Sorted(table)
    ensures at <= |table|
    ensures forall i | 0 <= i < at :: Less(table[i], name)
    ensures forall i | at <= i < |table| :: !Less(table[i], name)
  {
    var end := |table|;
    at := 0;
    while at < end
      invariant at <= end <= |table|
      invariant forall i | 0 <= i < at :: Less(table[i], name)
      invariant forall i | end <= i < |table| :: !Less(table[i], name)
    {
      var mid := (at + end) / 2;
      forall i | 0 <= i < |table| ensures i < mid && Less(table[mid], name) ==> Less(table[i], name) {
        if i < mid && Less(table[mid], name) { LessTransitive(table[i], table[mid], name, 0); }
      }
      forall i | 0 <= i < |table| ensures mid < i && Less(table[i], name) ==> Less(table[mid], name) {
        if mid < i && Less(table[i], name) { LessTransitive(table[mid], table[i], name, 0); }
      }
      if Less(table[mid], name) {
        at := mid + 1;
      } else {
        end := mid;
      }
    }
  }

  /** The position of a name, by looking at one entry after the other. */
  function IndexOf(table: seq<string>, name: string): Option<nat> {
    if table == [] then None
    else if table[0] == name then Some(0)
    else match IndexOf(table[1..], name)
      case None => None
      case Some(i) => Some(i + 1)
  }

  lemma {:induction false} IndexMeans(table: seq<string>, name: string)
    ensures match IndexOf(table, name)
            case Some(i) => i < |table| && table[i] == name
            case None => name !in table
  {
    if table != [] && table[0] != name {
      IndexMeans(table[1..], name);
      assert table == [table[0]] + table[1..];
    }
  }

  /** A sorted table has no name twice. */
  lemma IndexIs(table: seq<string>, i: nat)
    requires Sorted(table) && i < |table|
    ensures IndexOf(table, table[i]) == Some(i)
  {
    LessIrreflexive(table[i], 0);
    IndexMeans(table, table[i]);
    assert forall k | 0 <= k < i :: Less(table[k], table[i]);
    assert forall k | i < k < |table| :: Less(table[i], table[k]);
  }

  /** `check_field`. */
  method CheckField(name: string) returns (field: Option<nat>)
    ensures field == IndexOf(Table(), name)
  {
    var table := Table();
    TableSorted();
    var at := LowerBound(table, name);
    LessIrreflexive(name, 0);
    if at < |table| && table[at] == name {
      IndexIs(table, at);
      return Some(at);
    }
    assert forall i | at < i < |table| :: Less(table[at], table[i]);
    assert forall i | 0 <= i < |table| :: table[i] != name;
    IndexMeans(table, name);
    return None;
  }

  /** The field of a name, whatever its letters' case, by looking at one entry after the other. */
  function Recognised(name: bytes): Option<nat> { IndexOf(Table(), Lower(name)) }

  /** The name buffer and the lookup: longer names are not looked up at all. */
  method Recognise(name: bytes) returns (field: Option<nat>)
    ensures field == Recognised(name)
  {
    if |name| > NAME_MAX {
      LongIsUnknown(name);
      return None;
    }
    field := CheckField(Lower(name));
  }

  /** As no name is longer than the buffer, leaving long names out never changes the lookup. */
  lemma LongIsUnknown(name: bytes)
    requires |name| > NAME_MAX
    ensures Recognised(name) == None
  {
    IndexMeans(Table(), Lower(name));
    if Recognised(name).Some? {
      NamesFit(Recognised(name).value);
    }
  }

  /** No capital letter from position `k` on. */
  predicate LowFrom(s: string, k: nat)
    decreases |s| - k
  {
    k >= |s| || (!('A' <= s[k] <= 'Z') && LowFrom(s, k + 1))
  }

  lemma {:induction false} LowMeans(s: string, k: nat)
    requires LowFrom(s, k)
    ensures forall i | k <= i < |s| :: !('A' <= s[i] <= 'Z')
    decreases |s| - k
  {
    if k < |s| {
      LowMeans(s, k + 1);
    }
  }

  lemma NamesLow0(i: nat)
    requires 0 <= i < 5
    ensures LowFrom(Name(i), 0)
  {
    if i == 0 {
      assert LowFrom(Name(0), 4);
      assert LowFrom(Name(0), 0);
    }
    if i == 1 {
      assert LowFrom(Name(1), 12);
      assert LowFrom(Name(1), 8);
      assert LowFrom(Name(1), 4);
      assert LowFrom(Name(1), 0);
    }
    if i == 2 {
      assert LowFrom(Name(2), 12);
      assert LowFrom(Name(2), 8);
      assert LowFrom(Name(2), 4);
      assert LowFrom(Name(2), 0);
    }
    if i == 3 {
      assert LowFrom(Name(3), 12);
      assert LowFrom(Name(3), 8);
      assert LowFrom(Name(3), 4);
      assert LowFrom(Name(3), 0);
    }
    if i == 4 {
      assert LowFrom(Name(4), 12);
      assert LowFrom(Name(4), 8);
      assert LowFrom(Name(4), 4);
      assert LowFrom(Name(4), 0);
    }
  }

  lemma NamesLow5(i: nat)
    requires 5 <= i < 10
    ensures LowFrom(Name(i), 0)
  {
    if i == 5 {
      assert LowFrom(Name(5), 0);
    }
    if i == 6 {
      assert LowFrom(Name(6), 4);
      assert LowFrom(Name(6), 0);
    }
    if i == 7 {
      assert LowFrom(Name(7), 12);
      assert LowFrom(Name(7), 8);
      assert LowFrom(Name(7), 4);
      assert LowFrom(Name(7), 0);
    }
    if i == 8 {
      assert LowFrom(Name(8), 12);
      assert LowFrom(Name(8), 8);
      assert LowFrom(Name(8), 4);
      assert LowFrom(Name(8), 0);
    }
    if i == 9 {
      assert LowFrom(Name(9), 8);
      assert LowFrom(Name(9), 4);
      assert LowFrom(Name(9), 0);
    }
  }

  lemma NamesLow10(i: nat)
    requires 10 <= i < 15
    ensures LowFrom(Name(i), 0)
  {
    if i == 10 {
      assert LowFrom(Name(10), 12);
      assert LowFrom(Name(10), 8);
      assert LowFrom(Name(10), 4);
      assert LowFrom(Name(10), 0);
    }
    if i == 11 {
      assert LowFrom(Name(11), 12);
      assert LowFrom(Name(11), 8);
      assert LowFrom(Name(11), 4);
      assert LowFrom(Name(11), 0);
    }
    if i == 12 {
      assert LowFrom(Name(12), 12);
      assert LowFrom(Name(12), 8);
      assert LowFrom(Name(12), 4);
      assert LowFrom(Name(12), 0);
    }
    if i == 13 {
      assert LowFrom(Name(13), 12);
      assert LowFrom(Name(13), 8);
      assert LowFrom(Name(13), 4);
      assert LowFrom(Name(13), 0);
    }
    if i == 14 {
      assert LowFrom(Name(14), 8);
      assert LowFrom(Name(14), 4);
      assert LowFrom(Name(14), 0);
    }
  }

  lemma NamesLow15(i: nat)
    requires 15 <= i < 20
    ensures LowFrom(Name(i), 0)
  {
    if i == 15 {
      assert LowFrom(Name(15), 12);
      assert LowFrom(Name(15), 8);
      assert LowFrom(Name(15), 4);
      assert LowFrom(Name(15), 0);
    }
    if i == 16 {
      assert LowFrom(Name(16), 8);
      assert LowFrom(Name(16), 4);
      assert LowFrom(Name(16), 0);
    }
    if i == 17 {
      assert LowFrom(Name(17), 0);
    }
    if i == 18 {
      assert LowFrom(Name(18), 0);
    }
    if i == 19 {
      assert LowFrom(Name(19), 4);
      assert LowFrom(Name(19), 0);
    }
  }

  lemma NamesLow20(i: nat)
    requires 20 <= i < 25
    ensures LowFrom(Name(i), 0)
  {
    if i == 20 {
      assert LowFrom(Name(20), 4);
      assert LowFrom(Name(20), 0);
    }
    if i == 21 {
      assert LowFrom(Name(21), 0);
    }
    if i == 22 {
      assert LowFrom(Name(22), 0);
    }
    if i == 23 {
      assert LowFrom(Name(23), 4);
      assert LowFrom(Name(23), 0);
    }
    if i == 24 {
      assert LowFrom(Name(24), 16);
      assert LowFrom(Name(24), 12);
      assert LowFrom(Name(24), 8);
      assert LowFrom(Name(24), 4);
      assert LowFrom(Name(24), 0);
    }
  }

  lemma NamesLow25(i: nat)
    requires 25 <= i < 30
    ensures LowFrom(Name(i), 0)
  {
    if i == 25 {
      assert LowFrom(Name(25), 12);
      assert LowFrom(Name(25), 8);
      assert LowFrom(Name(25), 4);
      assert LowFrom(Name(25), 0);
    }
    if i == 26 {
      assert LowFrom(Name(26), 4);
      assert LowFrom(Name(26), 0);
    }
    if i == 27 {
      assert LowFrom(Name(27), 16);
      assert LowFrom(Name(27), 12);
      assert LowFrom(Name(27), 8);
      assert LowFrom(Name(27), 4);
      assert LowFrom(Name(27), 0);
    }
    if i == 28 {
      assert LowFrom(Name(28), 12);
      assert LowFrom(Name(28), 8);
      assert LowFrom(Name(28), 4);
      assert LowFrom(Name(28), 0);
    }
    if i == 29 {
      assert LowFrom(Name(29), 4);
      assert LowFrom(Name(29), 0);
    }
  }

  lemma NamesLow30(i: nat)
    requires 30 <= i < 35
    ensures LowFrom(Name(i), 0)
  {
    if i == 30 {
      assert LowFrom(Name(30), 8);
      assert LowFrom(Name(30), 4);
      assert LowFrom(Name(30), 0);
    }
    if i == 31 {
      assert LowFrom(Name(31), 4);
      assert LowFrom(Name(31), 0);
    }
    if i == 32 {
      assert LowFrom(Name(32), 16);
      assert LowFrom(Name(32), 12);
      assert LowFrom(Name(32), 8);
      assert LowFrom(Name(32), 4);
      assert LowFrom(Name(32), 0);
    }
    if i == 33 {
      assert LowFrom(Name(33), 16);
      assert LowFrom(Name(33), 12);
      assert LowFrom(Name(33), 8);
      assert LowFrom(Name(33), 4);
      assert LowFrom(Name(33), 0);
    }
    if i == 34 {
      assert LowFrom(Name(34), 4);
      assert LowFrom(Name(34), 0);
    }
  }

  lemma NamesLow35(i: nat)
    requires 35 <= i < 40
    ensures LowFrom(Name(i), 0)
  {
    if i == 35 {
      assert LowFrom(Name(35), 4);
      assert LowFrom(Name(35), 0);
    }
    if i == 36 {
      assert LowFrom(Name(36), 8);
      assert LowFrom(Name(36), 4);
      assert LowFrom(Name(36), 0);
    }
    if i == 37 {
      assert LowFrom(Name(37), 4);
      assert LowFrom(Name(37), 0);
    }
    if i == 38 {
      assert LowFrom(Name(38), 0);
    }
    if i == 39 {
      assert LowFrom(Name(39), 4);
      assert LowFrom(Name(39), 0);
    }
  }

  lemma NamesLow40(i: nat)
    requires 40 <= i < 45
    ensures LowFrom(Name(i), 0)
  {
    if i == 40 {
      assert LowFrom(Name(40), 16);
      assert LowFrom(Name(40), 12);
      assert LowFrom(Name(40), 8);
      assert LowFrom(Name(40), 4);
      assert LowFrom(Name(40), 0);
    }
    if i == 41 {
      assert LowFrom(Name(41), 4);
      assert LowFrom(Name(41), 0);
    }
    if i == 42 {
      assert LowFrom(Name(42), 8);
      assert LowFrom(Name(42), 4);
      assert LowFrom(Name(42), 0);
    }
    if i == 43 {
      assert LowFrom(Name(43), 0);
    }
    if i == 44 {
      assert LowFrom(Name(44), 0);
    }
  }

  lemma NamesLow45(i: nat)
    requires 45 <= i < 47
    ensures LowFrom(Name(i), 0)
  {
    if i == 45 {
      assert LowFrom(Name(45), 4);
      assert LowFrom(Name(45), 0);
    }
    if i == 46 {
      assert LowFrom(Name(46), 12);
      assert LowFrom(Name(46), 8);
      assert LowFrom(Name(46), 4);
      assert LowFrom(Name(46), 0);
    }
  }

  lemma NameIsLow(i: nat)
    requires i < FIELDS
    ensures LowFrom(Name(i), 0)
  {
    if
    case 0 <= i < 5 => NamesLow0(i);
    case 5 <= i < 10 => NamesLow5(i);
    case 10 <= i < 15 => NamesLow10(i);
    case 15 <= i < 20 => NamesLow15(i);
    case 20 <= i < 25 => NamesLow20(i);
    case 25 <= i < 30 => NamesLow25(i);
    case 30 <= i < 35 => NamesLow30(i);
    case 35 <= i < 40 => NamesLow35(i);
    case 40 <= i < 45 => NamesLow40(i);
    case 45 <= i < 47 => NamesLow45(i);
  }

  lemma LowWord(s: string)
    requires LowFrom(s, 0)
    ensures NoCapital(s)
  {
    LowMeans(s, 0);
  }

  /** No name of the table has a capital letter. */
  lemma NamesAreLower(i: nat)
    requires i < FIELDS
    ensures NoCapital(Name(i))
  {
    NameIsLow(i);
    LowWord(Name(i));
  }

  /**
   A name is recognised as field `i` just when it is that field's name in some spelling: the
   same letters at the same places, each in either case.
   */
  lemma RecognisedMeans(name: bytes, i: nat)
    requires i < FIELDS
    ensures Recognised(name) == Some(i) <==> SameWord(name, Name(i))
  {
    TableSorted();
    IndexIs(Table(), i);
    IndexMeans(Table(), Lower(name));
    NamesAreLower(i);
    LowerIs(name, Name(i));
  }

  predicate SameFrom(s: string, t: string, k: nat)
    decreases |s| - k
  {
    |s| == |t| && (k >= |s| || (SameLetter(s[k], t[k]) && SameFrom(s, t, k + 1)))
  }

  lemma {:induction false} SameMeans(s: string, t: string, k: nat)
    requires SameFrom(s, t, k)
    ensures |s| == |t| && forall i | k <= i < |s| :: SameLetter(s[i], t[i])
    decreases |s| - k
  {
    if k < |s| {
      SameMeans(s, t, k + 1);
    }
  }

  /** The usual spelling. */
  lemma UsualSpelling(name: bytes)
    requires name == "Content-Length"
    ensures Recognised(name) == Some(CONTENT_LENGTH)
  {
    assert SameFrom("Content-Length", "content-length", 7);
    assert SameFrom("Content-Length", "content-length", 0);
    SameMeans(name, Name(CONTENT_LENGTH), 0);
    RecognisedMeans(name, CONTENT_LENGTH);
  }

  /** An unusual one. */
  lemma UnusualSpelling(name: bytes)
    requires name == "TRANSFER-encoding"
    ensures Recognised(name) == Some(TRANSFER_ENCODING)
  {
    assert SameFrom("TRANSFER-encoding", "transfer-encoding", 9);
    assert SameFrom("TRANSFER-encoding", "transfer-encoding", 0);
    SameMeans(name, Name(TRANSFER_ENCODING), 0);
    RecognisedMeans(name, TRANSFER_ENCODING);
  }
}
