/**
 Taking a URL apart (`url_parse`): protocol, user and password, host and port, path, query
 and comment. The scan of the part before the path keeps a pointer to each end it has
 seen; the specification splits that part at its separators.
 */
module UrlParse {
  import opened Streams
  import opened Scanning

  /** What comes out; port 0 stands for none. */
  datatype Url = Url(
    protocol: bytes, user: bytes, password: bytes, host: bytes, port: nat,
    path: bytes, query: bytes, comment: bytes)

  datatype Outcome<T> = Ok(value: T) | Err(code: int)

  /** The pieces before the path as they are written. */
  datatype Authority = Authority(user: bytes, password: bytes, host: bytes, port: bytes)

  predicate IsScheme(c: byte) { IsLetter(c) || IsDigit(c) || c == '.' || c == '+' || c == '-' }
  predicate IsHost(c: byte) { IsLetter(c) || IsDigit(c) || c == '.' || c == '_' || c == '-' }
  predicate InAuthority(c: byte) { c != '/' && c != '?' && c != '#' }
  predicate InPath(c: byte) { c != '?' && c != '#' }
  predicate InQuery(c: byte) { c != '#' }
  predicate IsPlain(c: byte) { c != ':' && c != '@' }

  /** The classes, one character after the other. */
  lemma CharactersMean(c: byte)
    ensures IsScheme(c) <==> c in DIGITS || c in LETTERS || c in CAPITALS || c in ".+-"
    ensures IsHost(c) <==> c in DIGITS || c in LETTERS || c in CAPITALS || c in "._-"
    ensures IsPlain(c) <==> c !in ":@"
    ensures InAuthority(c) <==> c !in "/?#"
    ensures InPath(c) <==> c !in "?#"
    ensures InQuery(c) <==> c !in "#"
  {
    ClassesMean(c);
  }

  const SLASHES: bytes := ['/', '/']
  const ROOT: bytes := ['/']

  /* ---------- the specification ---------- */

  /** The port `b`, behind the host. */
  function PortPart(b: bytes, host: bytes, user: bytes, password: bytes): Outcome<Authority> {
    var m := Run(b, IsPlain);
    if m == |b| then Ok(Authority(user, password, host, b))
    else if b[m] == ':' then Err(-5)
    else Err(-6)
  }

  /** Host and port, behind the user. */
  function HostPort(h: bytes, user: bytes, password: bytes): Outcome<Authority> {
    var n := Run(h, IsPlain);
    if n == |h| then Ok(Authority(user, password, h, []))
    else if h[n] == '@' then Err(-6)
    else PortPart(h[n + 1..], h[..n], user, password)
  }

  /** `host`, `host:port`, `user@...` or `user:password@...`. */
  function SplitAuthority(a: bytes): Outcome<Authority> {
    var n := Run(a, IsPlain);
    if n == |a| then Ok(Authority([], [], a, []))
    else
      var b := a[n + 1..];
      if a[n] == '@' then HostPort(b, a[..n], []) else Behind(a[..n], b)
  }

  /** What is behind the first colon is a port, or a password and more. */
  function Behind(first: bytes, b: bytes): Outcome<Authority> {
    var m := Run(b, IsPlain);
    if m == |b| then Ok(Authority([], [], first, b))
    else if b[m] == ':' then Err(-4)
    else HostPort(b[m + 1..], first, b[..m])
  }

  const WORD: nat := 0x1_0000_0000
  const LONG_MAX: nat := 0x7FFF_FFFF_FFFF_FFFF

  /** `atoi` with a `long` of 64 bits: the number saturates as a `long` and is cut down to an `int`. */
  function Atoi(n: nat): int {
    var low := Min(n, LONG_MAX) % WORD;
    if low < WORD / 2 then low else low - WORD
  }

  /** The port as a number. */
  function PortOf(s: bytes): Outcome<nat> {
    if s == [] then Ok(0)
    else if Run(s, IsDigit) != |s| then Err(-8)
    else
      RunMeans(s, IsDigit);
      var n := Atoi(DecimalValue(s));
      if n <= 0 || n > 65535 then Err(-9) else Ok(n)
  }

  /**
   What the range check does not see: digits are accepted if and only if the number is a
   port, or its low half is one and it still is a `long`.
   */
  lemma PortExactly(s: bytes)
    requires s != [] && AllDecimal(s)
    ensures var n := DecimalValue(s);
      && (PortOf(s).Ok? <==> 0 < n % 0x1_0000_0000 <= 65535 && n < 0x8000_0000_0000_0000)
      && (PortOf(s).Ok? ==> PortOf(s).value == n % 0x1_0000_0000)
      && (n < 0x1_0000_0000 ==> PortOf(s) == if 0 < n <= 65535 then Ok(n) else Err(-9))
  {
    RunIs(s, IsDigit, |s|);
    AtoiMeans(DecimalValue(s));
  }

  lemma AtoiMeans(n: nat)
    ensures 0 < Atoi(n) <= 65535 <==> 0 < n % WORD <= 65535 && n <= LONG_MAX
    ensures 0 < Atoi(n) <= 65535 ==> Atoi(n) == n % WORD
    ensures n < WORD ==> (0 < Atoi(n) <= 65535 <==> 0 < n <= 65535) && n % WORD == n
  {
    assert LONG_MAX % WORD == WORD - 1;
  }

  function DropOne(s: bytes): bytes { if s == [] then [] else s[1..] }

  /** Query and comment. */
  function SplitQuery(u: bytes): (bytes, bytes) {
    if u != [] && u[0] == '?' then
      var m := Run(u[1..], InQuery);
      (u[1..][..m], DropOne(u[1..][m..]))
    else ([], DropOne(u))
  }

  /** Path, query and comment. */
  function SplitTail(t: bytes): (bytes, bytes, bytes) {
    var k := Run(t, InPath);
    (if k == 0 then ROOT else t[..k], SplitQuery(t[k..]).0, SplitQuery(t[k..]).1)
  }

  /** The pieces together, once the protocol is known. */
  function Assemble(protocol: bytes, a: Authority, t: bytes): Outcome<Url> {
    if Run(a.host, IsHost) != |a.host| then Err(-7)
    else match PortOf(a.port)
      case Err(code) => Err(code)
      case Ok(port) =>
        var (path, query, comment) := SplitTail(t);
        Ok(Url(Lower(protocol), a.user, a.password, Lower(a.host), port, path, query, comment))
  }

  /** What is behind the slashes. */
  function Rest(protocol: bytes, rest: bytes): Outcome<Url> {
    var m := Run(rest, InAuthority);
    match SplitAuthority(rest[..m])
    case Err(code) => Err(code)
    case Ok(a) => Assemble(protocol, a, rest[m..])
  }

  /** `url_parse` on the characters before the terminating zero. */
  function Parse(url: bytes): Outcome<Url> {
    var n := Run(url, IsScheme);
    if n < |url| && url[n] != ':' then Err(-1)
    else if n == |url| || n == 0 then Err(-2)
    else if !(SLASHES <= url[n + 1..]) then Err(-3)
    else Rest(url[..n], url[n + 3..])
  }

  /* ---------- the scan ---------- */

  /** All characters of `a[i..j]` are plain. */
  ghost predicate PlainTo(a: bytes, i: nat, j: nat) { forall k | i <= k < j <= |a| :: IsPlain(a[k]) }

  /** The pointers of the scan; the one to the beginning of the user is the beginning of `a`. */
  datatype Marks = Marks(
    userEnd: Option<nat>, passBgn: Option<nat>, passEnd: Option<nat>,
    hostBgn: Option<nat>, hostEnd: Option<nat>, portBgn: Option<nat>)

  const NO_MARKS := Marks(None, None, None, None, None, None)

  /** The user, and the password if there is one, have been passed: the host begins at `h`. */
  ghost predicate PastUser(a: bytes, m: Marks, h: nat) {
    && m.userEnd.Some? && m.hostBgn == Some(h) && h <= |a|
    && var c := m.userEnd.value;
       && c < h && PlainTo(a, 0, c)
       && match m.passBgn
          case None => a[c] == '@' && h == c + 1 && m.passEnd == None
          case Some(b) =>
            a[c] == ':' && b == c + 1 <= h - 1 && m.passEnd == Some(h - 1) && a[h - 1] == '@' && PlainTo(a, b, h - 1)
  }

  /** What the pointers say after `a[..p]`. */
  ghost predicate Scanned(a: bytes, p: nat, m: Marks) {
    p <= |a| &&
    match m.userEnd
    case None => m == NO_MARKS && PlainTo(a, 0, p)
    case Some(c) =>
      match m.hostBgn
      case None => m == Marks(Some(c), Some(c + 1), None, None, None, None)
        && c < p && a[c] == ':' && PlainTo(a, 0, c) && PlainTo(a, c + 1, p)
      case Some(h) => PastUser(a, m, h) && h <= p && InHost(a, p, m, h)
  }

  /** The host and the port so far. */
  ghost predicate InHost(a: bytes, p: nat, m: Marks, h: nat)
    requires p <= |a|
  {
    match m.hostEnd
    case None => m.portBgn == None && PlainTo(a, h, p)
    case Some(e) => m.portBgn == Some(e + 1) && h <= e < p && a[e] == ':' && PlainTo(a, h, e) && PlainTo(a, e + 1, p)
  }

  lemma RunOf(a: bytes, i: nat, j: nat)
    requires i <= j <= |a| && PlainTo(a, i, j) && (j < |a| ==> !IsPlain(a[j]))
    ensures Run(a[i..], IsPlain) == j - i && a[i..][..j - i] == a[i..j]
    ensures j < |a| ==> a[i..][j - i] == a[j] && a[i..][j - i + 1..] == a[j + 1..]
  {
    RunIs(a[i..], IsPlain, j - i);
  }

  /* The cases of the two splits. */

  lemma SplitAt(a: bytes, n: nat)
    requires Run(a, IsPlain) == n < |a| && a[n] == '@'
    ensures SplitAuthority(a) == HostPort(a[n + 1..], a[..n], [])
  {
  }

  lemma SplitColon(a: bytes, n: nat, b: bytes, m: nat)
    requires Run(a, IsPlain) == n < |a| && a[n] == ':' && b == a[n + 1..] && Run(b, IsPlain) == m
    ensures SplitAuthority(a) ==
      if m == |b| then Ok(Authority([], [], a[..n], b))
      else if b[m] == ':' then Err(-4)
      else HostPort(b[m + 1..], a[..n], b[..m])
  {
    SplitBehind(a, n);
  }

  lemma SplitBehind(a: bytes, n: nat)
    requires Run(a, IsPlain) == n < |a| && a[n] == ':'
    ensures SplitAuthority(a) == Behind(a[..n], a[n + 1..])
  {
  }

  lemma HostPlain(h: bytes, user: bytes, password: bytes)
    requires Run(h, IsPlain) == |h|
    ensures HostPort(h, user, password) == Ok(Authority(user, password, h, []))
  {
  }

  lemma HostColon(h: bytes, n: nat, user: bytes, password: bytes)
    requires Run(h, IsPlain) == n < |h| && h[n] == ':'
    ensures HostPort(h, user, password) == PortPart(h[n + 1..], h[..n], user, password)
  {
  }

  lemma PortIs(b: bytes, m: nat, host: bytes, user: bytes, password: bytes)
    requires Run(b, IsPlain) == m
    ensures PortPart(b, host, user, password) ==
      if m == |b| then Ok(Authority(user, password, host, b)) else if b[m] == ':' then Err(-5) else Err(-6)
  {
  }

  lemma HostAt(h: bytes, n: nat, user: bytes, password: bytes)
    requires Run(h, IsPlain) == n < |h| && h[n] == '@'
    ensures HostPort(h, user, password) == Err(-6)
  {
  }

  lemma BehindName(a: bytes, c: nat)
    requires c < |a| && PlainTo(a, 0, c) && a[c] == '@'
    ensures SplitAuthority(a) == HostPort(a[c + 1..], a[..c], [])
  {
    assert a[0..] == a && a[0..c] == a[..c];
    RunOf(a, 0, c);
    SplitAt(a, c);
  }

  lemma BehindPassword(a: bytes, c: nat, h: nat)
    requires c + 1 < h <= |a| && PlainTo(a, 0, c) && a[c] == ':' && PlainTo(a, c + 1, h - 1) && a[h - 1] == '@'
    ensures SplitAuthority(a) == HostPort(a[h..], a[..c], a[c + 1..h - 1])
  {
    var b, m := a[c + 1..], h - 2 - c;
    assert a[0..] == a && a[0..c] == a[..c];
    RunOf(a, 0, c);
    RunOf(a, c + 1, h - 1);
    assert b[m] == '@' && b[..m] == a[c + 1..h - 1] && b[m + 1..] == a[h..];
    SplitColon(a, c, b, m);
  }

  /** What is behind the user is host and port. */
  lemma BehindUser(a: bytes, m: Marks, h: nat)
    requires PastUser(a, m, h)
    ensures SplitAuthority(a) ==
      HostPort(a[h..], a[..m.userEnd.value], if m.passBgn.Some? then a[m.passBgn.value..h - 1] else [])
  {
    if m.passBgn.Some? {
      BehindPassword(a, m.userEnd.value, h);
    } else {
      BehindName(a, m.userEnd.value);
    }
  }

  /** The pieces the pointers mark at the end of `a`. */
  function Marked(a: bytes, m: Marks): Authority
    requires m.userEnd.Some? ==> m.userEnd.value <= |a|
    requires m.passBgn.Some? ==> m.passBgn.value <= |a|
    requires m.passEnd.Some? ==> m.passBgn.Some? && m.passBgn.value <= m.passEnd.value <= |a|
    requires m.hostBgn.Some? ==> m.hostBgn.value <= |a|
    requires m.hostEnd.Some? ==> m.hostBgn.Some? && m.hostBgn.value <= m.hostEnd.value <= |a|
    requires m.portBgn.Some? ==> m.portBgn.value <= |a|
    requires m.hostBgn.Some? ==> m.userEnd.Some? && (m.passBgn.Some? <==> m.passEnd.Some?)
    requires m.hostEnd.Some? <==> m.portBgn.Some?
  {
    if m.userEnd.None? then Authority([], [], a, [])
    else if m.hostBgn.None? then
      Authority([], [], a[..m.userEnd.value], if m.passBgn.Some? then a[m.passBgn.value..] else [])
    else
      var user := a[..m.userEnd.value];
      var password := if m.passBgn.Some? then a[m.passBgn.value..m.passEnd.value] else [];
      if m.hostEnd.None? then Authority(user, password, a[m.hostBgn.value..], [])
      else Authority(user, password, a[m.hostBgn.value..m.hostEnd.value], a[m.portBgn.value..])
  }

  lemma ScannedAll(a: bytes, m: Marks)
    requires Scanned(a, |a|, m)
    ensures SplitAuthority(a) == Ok(Marked(a, m))
  {
    if m.userEnd.None? {
      NoSeparator(a);
    } else if m.hostBgn.None? {
      OnlyHost(a, m);
    } else {
      WithUser(a, m, m.hostBgn.value);
    }
  }

  lemma NoSeparator(a: bytes)
    requires PlainTo(a, 0, |a|)
    ensures SplitAuthority(a) == Ok(Authority([], [], a, []))
  {
    assert a[0..] == a;
    RunOf(a, 0, |a|);
  }

  lemma WithUser(a: bytes, m: Marks, h: nat)
    requires Scanned(a, |a|, m) && m.userEnd.Some? && m.hostBgn == Some(h)
    ensures SplitAuthority(a) == Ok(Marked(a, m))
  {
    var user := a[..m.userEnd.value];
    var password := if m.passBgn.Some? then a[m.passBgn.value..h - 1] else [];
    assert Marked(a, m) ==
           if m.hostEnd.None? then Authority(user, password, a[h..], [])
           else Authority(user, password, a[h..m.hostEnd.value], a[m.portBgn.value..]);
    BehindUser(a, m, h);
    HostEnds(a, m, h, user, password);
  }

  /** One colon only: what seemed user and password was host and port. */
  lemma OnlyHost(a: bytes, m: Marks)
    requires Scanned(a, |a|, m) && m.userEnd.Some? && m.hostBgn.None?
    ensures SplitAuthority(a) == Ok(Authority([], [], a[..m.userEnd.value], a[m.userEnd.value + 1..]))
  {
    var c := m.userEnd.value;
    assert a[0..] == a && a[0..c] == a[..c];
    RunOf(a, 0, c);
    RunOf(a, c + 1, |a|);
    SplitColon(a, c, a[c + 1..], |a| - c - 1);
  }

  lemma HostColonAt(a: bytes, h: nat, e: nat, user: bytes, password: bytes)
    requires h <= e < |a| && PlainTo(a, h, e) && a[e] == ':'
    ensures HostPort(a[h..], user, password) == PortPart(a[e + 1..], a[h..e], user, password)
  {
    RunOf(a, h, e);
    HostColon(a[h..], e - h, user, password);
  }

  lemma HostEnds(a: bytes, m: Marks, h: nat, user: bytes, password: bytes)
    requires h <= |a| && InHost(a, |a|, m, h)
    ensures HostPort(a[h..], user, password) ==
      Ok(if m.hostEnd.None? then Authority(user, password, a[h..], [])
         else Authority(user, password, a[h..m.hostEnd.value], a[m.portBgn.value..]))
  {
    if m.hostEnd.None? {
      RunOf(a, h, |a|);
      HostPlain(a[h..], user, password);
    } else {
      PortEnds(a, m.hostEnd.value, h, user, password);
    }
  }

  lemma PortEnds(a: bytes, e: nat, h: nat, user: bytes, password: bytes)
    requires h <= e < |a| && a[e] == ':' && PlainTo(a, h, e) && PlainTo(a, e + 1, |a|)
    ensures HostPort(a[h..], user, password) == Ok(Authority(user, password, a[h..e], a[e + 1..]))
  {
    HostColonAt(a, h, e, user, password);
    RunOf(a, e + 1, |a|);
    PortIs(a[e + 1..], |a| - e - 1, a[h..e], user, password);
  }

  lemma HostRefused(a: bytes, p: nat, m: Marks, h: nat, user: bytes, password: bytes)
    requires h <= p < |a| && InHost(a, p, m, h) && !IsPlain(a[p]) && (a[p] == ':' ==> m.hostEnd.Some?)
    ensures HostPort(a[h..], user, password) == Err(if a[p] == ':' then -5 else -6)
  {
    if m.hostEnd.None? {
      RunOf(a, h, p);
      HostAt(a[h..], p - h, user, password);
    } else {
      PortRefused(a, p, m.hostEnd.value, h, user, password);
    }
  }

  lemma PortRefused(a: bytes, p: nat, e: nat, h: nat, user: bytes, password: bytes)
    requires h <= e < p < |a| && a[e] == ':' && PlainTo(a, h, e) && PlainTo(a, e + 1, p) && !IsPlain(a[p])
    ensures HostPort(a[h..], user, password) == Err(if a[p] == ':' then -5 else -6)
  {
    HostColonAt(a, h, e, user, password);
    RunOf(a, e + 1, p);
    PortIs(a[e + 1..], p - e - 1, a[h..e], user, password);
  }

  /** The character that the scan refuses, and the code it gives. */
  lemma Refused(a: bytes, p: nat, m: Marks)
    requires Scanned(a, p, m) && p < |a| && !IsPlain(a[p]) && m.userEnd.Some?
    requires if a[p] == ':' then m.hostBgn.None? || m.hostEnd.Some? else m.hostBgn.Some?
    ensures SplitAuthority(a) == Err(if a[p] == '@' then -6 else if m.hostBgn.None? then -4 else -5)
  {
    assert a[0..] == a;
    if m.hostBgn.None? {
      var c := m.userEnd.value;
      RunOf(a, 0, c);
      RunOf(a, c + 1, p);
      SplitColon(a, c, a[c + 1..], p - c - 1);
    } else {
      var h := m.hostBgn.value;
      BehindUser(a, m, h);
      HostRefused(a, p, m, h, a[..m.userEnd.value], if m.passBgn.Some? then a[m.passBgn.value..h - 1] else []);
    }
  }

  /** The loop over `user:password@host:port`. */
  method ScanAuthority(a: bytes) returns (r: Outcome<Authority>)
    ensures r == SplitAuthority(a)
  {
    var m, p: nat := NO_MARKS, 0;
    while p < |a|
      invariant Scanned(a, p, m)
    {
      if a[p] == ':' {
        if m.hostBgn.None? {
          if m.userEnd.Some? {
            Refused(a, p, m);
            return Err(-4);
          }
          m := m.(userEnd := Some(p), passBgn := Some(p + 1));
        } else {
          if m.hostEnd.Some? {
            Refused(a, p, m);
            return Err(-5);
          }
          m := m.(hostEnd := Some(p), portBgn := Some(p + 1));
        }
      } else if a[p] == '@' {
        if m.userEnd.None? {
          m := m.(userEnd := Some(p));
        } else if m.passBgn.Some? && m.passEnd.None? {
          m := m.(passEnd := Some(p));
        } else {
          Refused(a, p, m);
          return Err(-6);
        }
        m := m.(hostBgn := Some(p + 1));
      }
      p := p + 1;
    }
    ScannedAll(a, m);
    return Ok(Marked(a, m));
  }

  lemma QueryIs(u: bytes, v: bytes, m: nat)
    requires u == ['?'] + v && Run(v, InQuery) == m
    ensures SplitQuery(u) == (v[..m], DropOne(v[m..]))
  {
    assert u[1..] == v;
  }

  lemma QueryAt(t: bytes, from: nat, p: nat)
    requires from < p <= |t| && t[from] == '?' && p == from + 1 + Run(t[from + 1..], InQuery)
    ensures SplitQuery(t[from..]) == (t[from + 1..p], DropOne(t[p..]))
  {
    var v, m := t[from + 1..], p - from - 1;
    assert t[from..] == ['?'] + v;
    assert t[from + 1..p] == v[..m];
    assert t[p..] == v[m..];
    QueryIs(t[from..], v, m);
  }

  lemma NoQuery(u: bytes)
    requires u == [] || u[0] != '?'
    ensures SplitQuery(u) == ([], DropOne(u))
  {
  }

  /** The loop over the query behind the question mark at `from`, and the comment. */
  method ScanMarked(t: bytes, from: nat) returns (query: bytes, comment: bytes)
    requires from < |t| && t[from] == '?'
    ensures (query, comment) == SplitQuery(t[from..])
  {
    var p := Scan(t, from + 1, InQuery);
    QueryAt(t, from, p);
    query := t[from + 1..p];
    comment := DropOne(t[p..]);
  }

  /** The loops over query and comment, from index `from` on. */
  method ScanQuery(t: bytes, from: nat) returns (query: bytes, comment: bytes)
    requires from <= |t|
    ensures (query, comment) == SplitQuery(t[from..])
  {
    if from < |t| && t[from] == '?' {
      query, comment := ScanMarked(t, from);
    } else {
      NoQuery(t[from..]);
      query, comment := [], DropOne(t[from..]);
    }
  }

  /** The loops over path, query and comment. */
  method ScanTail(t: bytes) returns (path: bytes, query: bytes, comment: bytes)
    ensures (path, query, comment) == SplitTail(t)
  {
    var p := Scan(t, 0, InPath);
    assert t[0..] == t;
    path := if p == 0 then ROOT else t[..p];
    query, comment := ScanQuery(t, p);
  }

  lemma BadScheme(url: bytes, n: nat)
    requires Run(url, IsScheme) == n && (n < |url| ==> url[n] != ':' || n == 0)
    ensures Parse(url) == Err(if n < |url| && url[n] != ':' then -1 else -2)
  {
  }

  lemma GoodScheme(url: bytes, n: nat)
    requires Run(url, IsScheme) == n && 0 < n < |url| && url[n] == ':'
    ensures Parse(url) == if SLASHES <= url[n + 1..] then Rest(url[..n], url[n + 3..]) else Err(-3)
  {
  }

  /** `url_parse`. */
  method ParseUrl(url: bytes) returns (r: Outcome<Url>)
    ensures r == Parse(url)
  {
    assert url[0..] == url;
    var n := Scan(url, 0, IsScheme);
    if n < |url| && url[n] != ':' {
      BadScheme(url, n);
      return Err(-1);
    }
    if n == |url| || n == 0 {
      BadScheme(url, n);
      return Err(-2);
    }
    GoodScheme(url, n);
    if !(SLASHES <= url[n + 1..]) {
      return Err(-3);
    }
    r := ParseRest(url[..n], url[n + 3..]);
  }

  lemma RestIs(protocol: bytes, rest: bytes, a: bytes, t: bytes)
    requires a == rest[..Run(rest, InAuthority)] && t == rest[Run(rest, InAuthority)..]
    ensures SplitAuthority(a).Err? ==> Rest(protocol, rest) == Err(SplitAuthority(a).code)
    ensures SplitAuthority(a).Ok? ==> Rest(protocol, rest) == Assemble(protocol, SplitAuthority(a).value, t)
  {
  }

  /** What is behind the slashes. */
  method ParseRest(protocol: bytes, rest: bytes) returns (r: Outcome<Url>)
    ensures r == Rest(protocol, rest)
  {
    assert rest[0..] == rest;
    var p := Scan(rest, 0, InAuthority);
    RestIs(protocol, rest, rest[..p], rest[p..]);
    var authority := ScanAuthority(rest[..p]);
    match authority {
      case Err(code) => return Err(code);
      case Ok(a) => r := Finish(protocol, a, rest[p..]);
    }
  }

  /** The checks of host and port, and the rest. */
  method Finish(protocol: bytes, a: Authority, t: bytes) returns (r: Outcome<Url>)
    ensures r == Assemble(protocol, a, t)
  {
    var end := Scan(a.host, 0, IsHost);
    assert a.host[0..] == a.host;
    if end != |a.host| {
      return Err(-7);
    }
    var port := PortOf(a.port);
    match port {
      case Err(code) => return Err(code);
      case Ok(number) =>
        var path, query, comment := ScanTail(t);
        return Ok(Url(Lower(protocol), a.user, a.password, Lower(a.host), number, path, query, comment));
    }
  }
}
