/** The main results on URLs: parsing inverts printing, and what was parsed prints and parses back. */
module UrlParseProof {
  import opened Streams
  import opened Scanning
  import opened UrlParse

  ghost predicate All(s: bytes, p: byte -> bool) { forall i :: 0 <= i < |s| ==> p(s[i]) }

  /** Components that can be written down: each keeps clear of the separators behind it. */
  ghost predicate WellFormed(u: Url) {
    && u.protocol != [] && All(u.protocol, IsScheme)
    && All(u.user, IsPlain) && All(u.user, InAuthority)
    && All(u.password, IsPlain) && All(u.password, InAuthority)
    && All(u.host, IsHost) && u.port <= 65535
    && (u.path != [] ==> u.path[0] == '/') && All(u.path, InPath)
    && All(u.query, InQuery)
  }

  /** What parsing makes of them: lower case where case does not matter, and the root for no path. */
  function Normal(u: Url): Url {
    u.(protocol := Lower(u.protocol), host := Lower(u.host), path := if u.path == [] then ROOT else u.path)
  }

  /* ---------- printing ---------- */

  function DigitChar(d: nat): (c: byte)
    requires d < 10
    ensures IsDigit(c) && c as int - '0' as int == d
  {
    ('0' as int + d) as char
  }

  function Decimal(n: nat): bytes {
    (if n < 10 then [] else Decimal(n / 10)) + [DigitChar(n % 10)]
  }

  lemma {:induction false} DecimalInverse(n: nat)
    ensures AllDecimal(Decimal(n)) && DecimalValue(Decimal(n)) == n && All(Decimal(n), IsDigit)
  {
    var s := Decimal(n);
    if n >= 10 {
      DecimalInverse(n / 10);
      assert s[..|s| - 1] == Decimal(n / 10);
    }
  }

  function Optional(mark: byte, s: bytes): bytes { if s == [] then [] else [mark] + s }

  function PortText(port: nat): bytes { if port == 0 then [] else Decimal(port) }

  function PrintHost(host: bytes, port: bytes): bytes { host + Optional(':', port) }

  function PrintAuthority(a: Authority): bytes {
    (if a.password != [] then a.user + ([':'] + (a.password + ['@']))
     else if a.user != [] then a.user + ['@']
     else []) + PrintHost(a.host, a.port)
  }

  function PrintTail(path: bytes, query: bytes, comment: bytes): bytes {
    path + (Optional('?', query) + Optional('#', comment))
  }

  function Pieces(u: Url): Authority { Authority(u.user, u.password, u.host, PortText(u.port)) }

  function Print(u: Url): bytes {
    u.protocol + ([':'] + (SLASHES + (PrintAuthority(Pieces(u)) + PrintTail(u.path, u.query, u.comment))))
  }

  /* ---------- parsing inverts printing ---------- */

  lemma RunThen(x: bytes, y: bytes, p: byte -> bool)
    requires All(x, p) && (y == [] || !p(y[0]))
    ensures Run(x + y, p) == |x| && (x + y)[..|x|] == x && (x + y)[|x|..] == y
  {
    var s := x + y;
    assert forall i | 0 <= i < |x| :: s[i] == x[i];
    if y != [] {
      assert s[|x|] == y[0];
    }
    RunIs(s, p, |x|);
  }

  lemma RunAll(x: bytes, p: byte -> bool)
    requires All(x, p)
    ensures Run(x, p) == |x|
  {
    RunIs(x, p, |x|);
  }

  ghost predicate GoodPieces(a: Authority) {
    && All(a.user, IsPlain) && All(a.user, InAuthority)
    && All(a.password, IsPlain) && All(a.password, InAuthority)
    && All(a.host, IsHost) && All(a.port, IsDigit)
  }

  lemma HostIsPlain(s: bytes)
    requires All(s, IsHost) || All(s, IsDigit)
    ensures All(s, IsPlain) && All(s, InAuthority)
  {
  }

  lemma PrintedHost(host: bytes, port: bytes, user: bytes, password: bytes)
    requires All(host, IsHost) && All(port, IsDigit)
    ensures HostPort(PrintHost(host, port), user, password) == Ok(Authority(user, password, host, port))
  {
    HostIsPlain(host);
    HostIsPlain(port);
    if port == [] {
      assert PrintHost(host, port) == host;
      RunAll(host, IsPlain);
      HostPlain(host, user, password);
    } else {
      RunThen(host, [':'] + port, IsPlain);
      RunAll(port, IsPlain);
      Past(host, ':', port);
      HostColon(PrintHost(host, port), |host|, user, password);
      PortIs(port, |port|, host, user, password);
    }
  }

  lemma Past(x: bytes, c: byte, y: bytes)
    ensures (x + ([c] + y))[|x|] == c && (x + ([c] + y))[|x| + 1..] == y && (x + ([c] + y))[..|x|] == x
  {
  }

  lemma PrintedAuthority(a: Authority)
    requires GoodPieces(a)
    ensures SplitAuthority(PrintAuthority(a)) == Ok(a)
  {
    var h := PrintHost(a.host, a.port);
    PrintedHost(a.host, a.port, a.user, a.password);
    if a.password != [] {
      PasswordText(a);
      PrintedPassword(a.user, a.password, h);
    } else if a.user != [] {
      UserText(a);
      PrintedUser(a.user, h);
    } else {
      PrintedBare(a);
    }
  }

  lemma PasswordText(a: Authority)
    requires a.password != []
    ensures PrintAuthority(a) == a.user + ([':'] + (a.password + (['@'] + PrintHost(a.host, a.port))))
  {
    JoinPassword(a.user, a.password, PrintHost(a.host, a.port));
  }

  lemma UserText(a: Authority)
    requires a.password == [] && a.user != []
    ensures PrintAuthority(a) == a.user + (['@'] + PrintHost(a.host, a.port))
  {
    Regroup(a.user, ['@'], PrintHost(a.host, a.port));
  }

  lemma PrintedUser(user: bytes, h: bytes)
    requires All(user, IsPlain)
    ensures SplitAuthority(user + (['@'] + h)) == HostPort(h, user, [])
  {
    RunThen(user, ['@'] + h, IsPlain);
    Past(user, '@', h);
    SplitAt(user + (['@'] + h), |user|);
  }

  lemma JoinPassword(user: bytes, password: bytes, h: bytes)
    ensures (user + ([':'] + (password + ['@']))) + h == user + ([':'] + (password + (['@'] + h)))
  {
  }

  lemma PrintedPassword(user: bytes, password: bytes, h: bytes)
    requires All(user, IsPlain) && All(password, IsPlain)
    ensures SplitAuthority(user + ([':'] + (password + (['@'] + h)))) == HostPort(h, user, password)
  {
    var b := password + (['@'] + h);
    RunThen(user, [':'] + b, IsPlain);
    Past(user, ':', b);
    RunThen(password, ['@'] + h, IsPlain);
    Past(password, '@', h);
    SplitColon(user + ([':'] + b), |user|, b, |password|);
  }

  lemma PrintedBare(a: Authority)
    requires GoodPieces(a) && a.user == [] && a.password == []
    ensures SplitAuthority(PrintAuthority(a)) == Ok(a)
  {
    assert PrintAuthority(a) == PrintHost(a.host, a.port);
    if a.port == [] {
      assert PrintHost(a.host, a.port) == a.host;
      HostIsPlain(a.host);
      RunAll(a.host, IsPlain);
    } else {
      BareWithPort(a.host, a.port);
    }
  }

  lemma BareWithPort(host: bytes, port: bytes)
    requires All(host, IsHost) && All(port, IsDigit) && port != []
    ensures SplitAuthority(PrintHost(host, port)) == Ok(Authority([], [], host, port))
  {
    HostIsPlain(host);
    HostIsPlain(port);
    RunThen(host, [':'] + port, IsPlain);
    RunAll(port, IsPlain);
    Past(host, ':', port);
    SplitColon(PrintHost(host, port), |host|, port, |port|);
  }

  lemma AllAppend(x: bytes, y: bytes, p: byte -> bool)
    requires All(x, p) && All(y, p)
    ensures All(x + y, p)
  {
  }

  /** The part before the path holds none of the characters that end it. */
  lemma PrintedInside(a: Authority)
    requires GoodPieces(a)
    ensures All(PrintAuthority(a), InAuthority)
  {
    HostIsPlain(a.host);
    HostIsPlain(a.port);
    AllAppend(a.host, Optional(':', a.port), InAuthority);
    AllAppend(a.password, ['@'], InAuthority);
    AllAppend([':'], a.password + ['@'], InAuthority);
    AllAppend(a.user, [':'] + (a.password + ['@']), InAuthority);
    AllAppend(a.user, ['@'], InAuthority);
  }

  lemma PrintedComment(comment: bytes)
    ensures DropOne(Optional('#', comment)) == comment
  {
  }

  lemma PrintedQuery(query: bytes, comment: bytes)
    requires All(query, InQuery)
    ensures SplitQuery(Optional('?', query) + Optional('#', comment)) == (query, comment)
  {
    var u, c := Optional('?', query) + Optional('#', comment), Optional('#', comment);
    PrintedComment(comment);
    if query == [] {
      assert u == c;
    } else {
      RunThen(query, c, InQuery);
      Regroup(['?'], query, c);
      QueryIs(u, query + c, |query|);
    }
  }

  lemma TailIs(t: bytes, path: bytes, u: bytes)
    requires Run(t, InPath) == |path| && t[..|path|] == path && t[|path|..] == u
    ensures SplitTail(t) == (if path == [] then ROOT else path, SplitQuery(u).0, SplitQuery(u).1)
  {
  }

  lemma PrintedTail(path: bytes, query: bytes, comment: bytes)
    requires All(path, InPath) && All(query, InQuery)
    ensures SplitTail(PrintTail(path, query, comment)) == (if path == [] then ROOT else path, query, comment)
  {
    var u := Optional('?', query) + Optional('#', comment);
    RunThen(path, u, InPath);
    PrintedQuery(query, comment);
    TailIs(PrintTail(path, query, comment), path, u);
  }

  lemma PrintedPort(port: nat)
    requires port <= 65535
    ensures PortOf(PortText(port)) == Ok(port) && All(PortText(port), IsDigit)
  {
    if port != 0 {
      DecimalInverse(port);
      RunAll(Decimal(port), IsDigit);
      PortExactly(Decimal(port));
    }
  }

  /** A number that is no port is taken for one. */
  lemma PortWitness()
    ensures PortOf(Decimal(4294967376)) == Ok(80)
  {
    DecimalInverse(4294967376);
    PortExactly(Decimal(4294967376));
  }

  lemma ParseIs(url: bytes, n: nat, rest: bytes, m: nat, a: Authority)
    requires Run(url, IsScheme) == n && 0 < n < |url| && url[n] == ':' && SLASHES <= url[n + 1..]
    requires rest == url[n + 3..] && Run(rest, InAuthority) == m && SplitAuthority(rest[..m]) == Ok(a)
    ensures Parse(url) == Assemble(url[..n], a, rest[m..])
  {
  }

  lemma AssembleIs(protocol: bytes, a: Authority, t: bytes, port: nat)
    requires Run(a.host, IsHost) == |a.host| && PortOf(a.port) == Ok(port)
    ensures Assemble(protocol, a, t) ==
      Ok(Url(Lower(protocol), a.user, a.password, Lower(a.host), port, SplitTail(t).0, SplitTail(t).1, SplitTail(t).2))
  {
  }

  /** The protocol and the slashes come off. */
  lemma PrintedProtocol(protocol: bytes, rest: bytes)
    requires protocol != [] && All(protocol, IsScheme)
    ensures var url := protocol + ([':'] + (SLASHES + rest));
      && Run(url, IsScheme) == |protocol| < |url| && url[|protocol|] == ':' && url[..|protocol|] == protocol
      && SLASHES <= url[|protocol| + 1..] && url[|protocol| + 3..] == rest
  {
    RunThen(protocol, [':'] + (SLASHES + rest), IsScheme);
    Past(protocol, ':', SLASHES + rest);
    assert (SLASHES + rest)[2..] == rest;
    var url := protocol + ([':'] + (SLASHES + rest));
    assert url[|protocol| + 3..] == url[|protocol| + 1..][2..];
  }

  lemma PrintedPieces(u: Url)
    requires WellFormed(u)
    ensures All(PrintAuthority(Pieces(u)), InAuthority) && SplitAuthority(PrintAuthority(Pieces(u))) == Ok(Pieces(u))
  {
    PrintedPort(u.port);
    PrintedInside(Pieces(u));
    PrintedAuthority(Pieces(u));
  }

  lemma PrintedBehind(u: Url, authority: bytes)
    requires WellFormed(u) && All(authority, InAuthority)
    ensures var t := PrintTail(u.path, u.query, u.comment);
      && Run(authority + t, InAuthority) == |authority|
      && (authority + t)[..|authority|] == authority && (authority + t)[|authority|..] == t
  {
    TailBegins(u);
    RunThen(authority, PrintTail(u.path, u.query, u.comment), InAuthority);
  }

  lemma PrintedParts(protocol: bytes, authority: bytes, a: Authority, t: bytes)
    requires protocol != [] && All(protocol, IsScheme) && SplitAuthority(authority) == Ok(a)
    requires Run(authority + t, InAuthority) == |authority|
    requires (authority + t)[..|authority|] == authority && (authority + t)[|authority|..] == t
    ensures Parse(protocol + ([':'] + (SLASHES + (authority + t)))) == Assemble(protocol, a, t)
  {
    PrintedProtocol(protocol, authority + t);
    ParseIs(protocol + ([':'] + (SLASHES + (authority + t))), |protocol|, authority + t, |authority|, a);
  }

  /** A printed URL splits where its parts were put together. */
  lemma PrintedSplits(u: Url)
    requires WellFormed(u)
    ensures Parse(Print(u)) == Assemble(u.protocol, Pieces(u), PrintTail(u.path, u.query, u.comment))
  {
    var authority := PrintAuthority(Pieces(u));
    PrintedPieces(u);
    PrintedBehind(u, authority);
    PrintedParts(u.protocol, authority, Pieces(u), PrintTail(u.path, u.query, u.comment));
  }

  /**
   MAIN RESULT. Parsing inverts printing, for every tuple of components that can be written
   down: they come back, in lower case where case does not matter.
   */
  lemma ParseInvertsPrint(u: Url)
    requires WellFormed(u)
    ensures Parse(Print(u)) == Ok(Normal(u))
  {
    PrintedSplits(u);
    PrintedPort(u.port);
    RunAll(u.host, IsHost);
    AssembleIs(u.protocol, Pieces(u), PrintTail(u.path, u.query, u.comment), u.port);
    PrintedTail(u.path, u.query, u.comment);
  }

  lemma TailBegins(u: Url)
    requires WellFormed(u)
    ensures var t := PrintTail(u.path, u.query, u.comment); t == [] || !InAuthority(t[0])
  {
  }

  /* ---------- what is parsed ---------- */

  lemma LowerKeeps(s: bytes)
    ensures Lower(Lower(s)) == Lower(s)
    ensures All(s, IsScheme) ==> All(Lower(s), IsScheme)
    ensures All(s, IsHost) ==> All(Lower(s), IsHost)
  {
  }

  lemma PrefixRun(s: bytes, p: byte -> bool)
    ensures All(s[..Run(s, p)], p)
  {
    RunMeans(s, p);
  }

  lemma SliceAll(s: bytes, i: nat, j: nat, p: byte -> bool)
    requires All(s, p) && i <= j <= |s|
    ensures All(s[i..j], p) && All(s[i..], p) && All(s[..j], p)
  {
  }

  lemma HostPieces(h: bytes, user: bytes, password: bytes)
    requires HostPort(h, user, password).Ok?
    ensures HostPort(h, user, password).value.user == user && HostPort(h, user, password).value.password == password
  {
  }

  /** User and password are free of separators. */
  lemma SplitPieces(a: bytes)
    requires All(a, InAuthority) && SplitAuthority(a).Ok?
    ensures var p := SplitAuthority(a).value;
      All(p.user, IsPlain) && All(p.user, InAuthority) && All(p.password, IsPlain) && All(p.password, InAuthority)
  {
    var n := Run(a, IsPlain);
    PrefixRun(a, IsPlain);
    SliceAll(a, 0, n, InAuthority);
    if n < |a| {
      var b := a[n + 1..];
      SliceAll(a, n + 1, |a|, InAuthority);
      if a[n] == '@' {
        SplitAt(a, n);
        HostPieces(b, a[..n], []);
      } else {
        var m := Run(b, IsPlain);
        PrefixRun(b, IsPlain);
        SliceAll(b, 0, m, InAuthority);
        SplitColon(a, n, b, m);
        if m < |b| {
          HostPieces(b[m + 1..], a[..n], b[..m]);
        }
      }
    }
  }

  lemma TailPieces(t: bytes)
    requires t == [] || !InAuthority(t[0])
    ensures var (path, query, _) := SplitTail(t);
      path != [] && path[0] == '/' && All(path, InPath) && All(query, InQuery)
  {
    PrefixRun(t, InPath);
    QueryPieces(t[Run(t, InPath)..]);
  }

  lemma QueryPieces(u: bytes)
    ensures All(SplitQuery(u).0, InQuery)
  {
    if u != [] {
      PrefixRun(u[1..], InQuery);
    }
  }

  lemma AssembleParts(protocol: bytes, a: Authority, t: bytes)
    requires Assemble(protocol, a, t).Ok?
    ensures Run(a.host, IsHost) == |a.host| && PortOf(a.port).Ok?
    ensures PortOf(a.port).value <= 65535
  {
  }

  /** What is assembled is well formed and normal. */
  lemma AssembledIsNormal(protocol: bytes, a: Authority, t: bytes)
    requires protocol != [] && All(protocol, IsScheme)
    requires All(a.user, IsPlain) && All(a.user, InAuthority)
    requires All(a.password, IsPlain) && All(a.password, InAuthority)
    requires (t == [] || !InAuthority(t[0])) && Assemble(protocol, a, t).Ok?
    ensures var u := Assemble(protocol, a, t).value; WellFormed(u) && Normal(u) == u
  {
    AssembleParts(protocol, a, t);
    AssembleIs(protocol, a, t, PortOf(a.port).value);
    PrefixRun(a.host, IsHost);
    assert a.host[..|a.host|] == a.host;
    LowerKeeps(protocol);
    LowerKeeps(a.host);
    TailPieces(t);
  }

  /**
   MAIN RESULT. Whatever is parsed successfully is well formed and in normal form, and
   printing it and parsing it again gives it back.
   */
  lemma ParsedPrintsBack(url: bytes)
    requires Parse(url).Ok?
    ensures var u := Parse(url).value;
      WellFormed(u) && Normal(u) == u && Parse(Print(u)) == Ok(u)
  {
    var n := Run(url, IsScheme);
    PrefixRun(url, IsScheme);
    var rest := url[n + 3..];
    var m := Run(rest, InAuthority);
    PrefixRun(rest, InAuthority);
    var a := SplitAuthority(rest[..m]).value;
    ParseIs(url, n, rest, m, a);
    SplitPieces(rest[..m]);
    assert rest[m..] == [] || rest[m..][0] == rest[m];
    AssembledIsNormal(url[..n], a, rest[m..]);
    ParseInvertsPrint(Parse(url).value);
  }

  /* ---------- letters ---------- */

  /** The host is a piece of the authority. */
  lemma HostOfPort(h: bytes, user: bytes, password: bytes)
    requires HostPort(h, user, password).Ok?
    ensures HostPort(h, user, password).value.host == h[..Run(h, IsPlain)]
  {
  }

  lemma PieceBehind(a: bytes, i: nat, h: bytes, user: bytes, password: bytes) returns (j: nat)
    requires i <= |a| && h == a[i..] && HostPort(h, user, password).Ok?
    ensures i <= j <= |a| && HostPort(h, user, password).value.host == a[i..j]
  {
    HostOfPort(h, user, password);
    j := i + Run(h, IsPlain);
  }

  lemma PasswordPiece(a: bytes, n: nat, b: bytes, m: nat) returns (i: nat, j: nat)
    requires n < |a| && b == a[n + 1..] && m == Run(b, IsPlain) < |b|
    requires HostPort(b[m + 1..], a[..n], b[..m]).Ok?
    ensures i <= j <= |a| && HostPort(b[m + 1..], a[..n], b[..m]).value.host == a[i..j]
  {
    i := n + 1 + (m + 1);
    j := PieceBehind(a, i, b[m + 1..], a[..n], b[..m]);
  }

  lemma ColonPiece(a: bytes, n: nat) returns (i: nat, j: nat)
    requires Run(a, IsPlain) == n < |a| && a[n] == ':' && SplitAuthority(a).Ok?
    ensures i <= j <= |a| && SplitAuthority(a).value.host == a[i..j]
  {
    var b := a[n + 1..];
    var m := Run(b, IsPlain);
    SplitColon(a, n, b, m);
    if m == |b| {
      i, j := 0, n;
    } else {
      i, j := PasswordPiece(a, n, b, m);
    }
  }

  lemma HostPiece(a: bytes) returns (i: nat, j: nat)
    requires SplitAuthority(a).Ok?
    ensures i <= j <= |a| && SplitAuthority(a).value.host == a[i..j]
  {
    var n := Run(a, IsPlain);
    if n == |a| {
      RunMeans(a, IsPlain);
      NoSeparator(a);
      i, j := 0, n;
    } else if a[n] == '@' {
      SplitAt(a, n);
      i := n + 1;
      j := PieceBehind(a, i, a[n + 1..], a[..n], []);
    } else {
      i, j := ColonPiece(a, n);
    }
  }

  lemma Inner(url: bytes, n: nat, m: nat, i: nat, j: nat)
    requires n <= |url| && m <= |url| - n && i <= j <= m
    ensures url[n..][..m][i..j] == url[n + i..n + j]
  {
  }

  lemma ParsedRest(url: bytes, n: nat)
    requires Parse(url).Ok? && n == Run(url, IsScheme)
    ensures n + 3 <= |url| && Parse(url) == Rest(url[..n], url[n + 3..])
  {
  }

  lemma AuthorityOf(protocol: bytes, rest: bytes) returns (authority: bytes, a: Authority, t: bytes)
    requires Rest(protocol, rest).Ok?
    ensures |authority| <= |rest| && authority == rest[..|authority|]
    ensures SplitAuthority(authority) == Ok(a) && Rest(protocol, rest) == Assemble(protocol, a, t)
  {
    authority, t := rest[..Run(rest, InAuthority)], rest[Run(rest, InAuthority)..];
    RestIs(protocol, rest, authority, t);
    a := SplitAuthority(authority).value;
  }

  /** How a URL that is parsed splits up. */
  lemma ParsedShape(url: bytes) returns (n: nat, authority: bytes, a: Authority, t: bytes)
    requires Parse(url).Ok?
    ensures n + 3 + |authority| <= |url| && authority == url[n + 3..][..|authority|]
    ensures SplitAuthority(authority) == Ok(a)
    ensures Parse(url) == Assemble(url[..n], a, t)
  {
    n := Run(url, IsScheme);
    ParsedRest(url, n);
    authority, a, t := AuthorityOf(url[..n], url[n + 3..]);
  }

  lemma AssembledWords(protocol: bytes, a: Authority, t: bytes)
    requires Assemble(protocol, a, t).Ok?
    ensures var u := Assemble(protocol, a, t).value;
      && NoCapital(u.protocol) && SameWord(protocol, u.protocol)
      && NoCapital(u.host) && SameWord(a.host, u.host)
  {
    AssembleParts(protocol, a, t);
    AssembleIs(protocol, a, t, PortOf(a.port).value);
    LowerIs(protocol, Lower(protocol));
    LowerIs(a.host, Lower(a.host));
  }

  /**
   Whatever is parsed: protocol and host are what the URL says, without capitals and letter
   for letter the same otherwise.
   */
  lemma ParsedSpelling(url: bytes) returns (i: nat, j: nat)
    requires Parse(url).Ok?
    ensures var u := Parse(url).value;
      && |u.protocol| + 3 <= i <= j <= |url|
      && NoCapital(u.protocol) && SameWord(url[..|u.protocol|], u.protocol)
      && NoCapital(u.host) && SameWord(url[i..j], u.host)
  {
    var n, authority, a, t := ParsedShape(url);
    AssembledWords(url[..n], a, t);
    i, j := HostPiece(authority);
    Inner(url, n + 3, |authority|, i, j);
    i, j := n + 3 + i, n + 3 + j;
  }

  /** The same of printed components: every spelling of protocol and host comes back without capitals. */
  lemma AnySpelling(u: Url)
    requires WellFormed(u)
    ensures Parse(Print(u)).Ok?
    ensures var v := Parse(Print(u)).value;
      && NoCapital(v.protocol) && SameWord(u.protocol, v.protocol)
      && NoCapital(v.host) && SameWord(u.host, v.host)
      && v.user == u.user && v.password == u.password && v.port == u.port
      && v.path == (if u.path == [] then "/" else u.path) && v.query == u.query && v.comment == u.comment
  {
    ParseInvertsPrint(u);
    LowerIs(u.protocol, Lower(u.protocol));
    LowerIs(u.host, Lower(u.host));
  }

  /* ---------- refusals ---------- */

  /** The separators of the part before the path, in their order. */
  function Separators(a: bytes): bytes {
    if a == [] then [] else (if IsPlain(a[0]) then [] else [a[0]]) + Separators(a[1..])
  }

  lemma {:induction false} NoSeparators(a: bytes)
    requires Run(a, IsPlain) == |a|
    ensures Separators(a) == []
  {
    if a != [] {
      NoSeparators(a[1..]);
    }
  }

  lemma {:induction false} FirstSeparator(a: bytes, n: nat)
    requires Run(a, IsPlain) == n < |a|
    ensures Separators(a) == [a[n]] + Separators(a[n + 1..]) && (a[n] == ':' || a[n] == '@')
  {
    if n > 0 {
      FirstSeparator(a[1..], n - 1);
      assert a[1..][n..] == a[n + 1..];
    }
  }

  /** The `i`-th separator is `c`. */
  predicate At(s: bytes, i: nat, c: byte) { i < |s| && s[i] == c }

  lemma AtShift(c: byte, s: bytes)
    ensures |[c] + s| == 1 + |s| && forall i: nat, x :: At([c] + s, i + 1, x) <==> At(s, i, x)
    ensures forall x :: At([c] + s, 0, x) <==> c == x
  {
  }

  lemma PortRefusals(b: bytes, host: bytes, user: bytes, password: bytes)
    ensures var s, r := Separators(b), PortPart(b, host, user, password);
      && (r.Ok? <==> s == [])
      && (r == Err(-5) <==> At(s, 0, ':'))
      && (r == Err(-6) <==> At(s, 0, '@'))
  {
    var m := Run(b, IsPlain);
    PortIs(b, m, host, user, password);
    if m == |b| {
      NoSeparators(b);
    } else {
      FirstSeparator(b, m);
    }
  }

  /** The separators of host and port. */
  lemma HostRefusals(h: bytes, user: bytes, password: bytes)
    ensures var s, r := Separators(h), HostPort(h, user, password);
      && (r.Ok? <==> s == [] || (|s| == 1 && At(s, 0, ':')))
      && (r == Err(-5) <==> At(s, 0, ':') && At(s, 1, ':'))
      && (r == Err(-6) <==> At(s, 0, '@') || (At(s, 0, ':') && At(s, 1, '@')))
  {
    var n := Run(h, IsPlain);
    if n == |h| {
      NoSeparators(h);
      HostPlain(h, user, password);
    } else {
      FirstSeparator(h, n);
      AtShift(h[n], Separators(h[n + 1..]));
      if h[n] == '@' {
        HostAt(h, n, user, password);
      } else {
        HostColon(h, n, user, password);
        PortRefusals(h[n + 1..], h[..n], user, password);
      }
    }
  }

  /** Behind the first colon there is a port, or a password and the rest. */
  lemma BehindRefusals(first: bytes, b: bytes)
    ensures var s, r := Separators(b), Behind(first, b);
      && (r.Ok? <==> s == [] || (At(s, 0, '@') && (|s| == 1 || (|s| == 2 && At(s, 1, ':')))))
      && (r == Err(-4) <==> At(s, 0, ':'))
      && (r == Err(-5) <==> At(s, 0, '@') && At(s, 1, ':') && At(s, 2, ':'))
      && (r == Err(-6) <==> At(s, 0, '@') && (At(s, 1, '@') || (At(s, 1, ':') && At(s, 2, '@'))))
  {
    var m := Run(b, IsPlain);
    if m == |b| {
      NoSeparators(b);
    } else {
      FirstSeparator(b, m);
      AtShift(b[m], Separators(b[m + 1..]));
      HostRefusals(b[m + 1..], first, b[..m]);
    }
  }

  /**
   The exact conditions, by the separators alone: at most one colon, then at most one at-sign,
   then at most one colon are taken. A second colon is refused with -4 before the at-sign and
   with -5 behind it, a second at-sign with -6.
   */
  lemma AuthorityRefusals(a: bytes)
    ensures var s, r := Separators(a), SplitAuthority(a);
      && (r == Err(-4) <==> At(s, 0, ':') && At(s, 1, ':'))
      && (r == Err(-5) <==>
            || (At(s, 0, '@') && At(s, 1, ':') && At(s, 2, ':'))
            || (At(s, 0, ':') && At(s, 1, '@') && At(s, 2, ':') && At(s, 3, ':')))
      && (r == Err(-6) <==>
            || (At(s, 0, '@') && (At(s, 1, '@') || (At(s, 1, ':') && At(s, 2, '@'))))
            || (At(s, 0, ':') && At(s, 1, '@') && (At(s, 2, '@') || (At(s, 2, ':') && At(s, 3, '@')))))
      && (r.Ok? <==> r != Err(-4) && r != Err(-5) && r != Err(-6))
  {
    var n := Run(a, IsPlain);
    if n == |a| {
      NoSeparators(a);
    } else {
      var b := a[n + 1..];
      FirstSeparator(a, n);
      AtShift(a[n], Separators(b));
      SeparatorsOnly(b);
      if a[n] == '@' {
        SplitAt(a, n);
        HostRefusals(b, a[..n], []);
      } else {
        SplitBehind(a, n);
        BehindRefusals(a[..n], b);
      }
    }
  }

  lemma {:induction false} SeparatorsOnly(a: bytes)
    ensures forall i | 0 <= i < |Separators(a)| :: Separators(a)[i] == ':' || Separators(a)[i] == '@'
  {
    if a != [] {
      SeparatorsOnly(a[1..]);
    }
  }

  /** The codes of host and port, behind an authority that splits. */
  lemma AssembleRefusals(protocol: bytes, a: Authority, t: bytes)
    ensures var r := Assemble(protocol, a, t);
      && (r == Err(-7) <==> !All(a.host, IsHost))
      && (r == Err(-8) <==> All(a.host, IsHost) && !All(a.port, IsDigit))
      && (r == Err(-9) <==> All(a.host, IsHost) && a.port != [] && All(a.port, IsDigit) && PortOf(a.port).Err?)
      && (r.Ok? <==> r != Err(-7) && r != Err(-8) && r != Err(-9))
  {
    ClassIs(a.host, IsHost);
    ClassIs(a.port, IsDigit);
    PortCodes(a.port);
  }

  lemma PortCodes(s: bytes)
    ensures PortOf(s) == Err(-8) <==> Run(s, IsDigit) != |s|
    ensures PortOf(s) == Err(-9) <==> s != [] && Run(s, IsDigit) == |s| && PortOf(s).Err?
    ensures PortOf(s).Err? ==> PortOf(s) == Err(-8) || PortOf(s) == Err(-9)
  {
  }

  lemma ClassIs(s: bytes, p: byte -> bool)
    ensures Run(s, p) == |s| <==> All(s, p)
  {
    RunMeans(s, p);
    if All(s, p) {
      RunAll(s, p);
    }
  }

  /** The first character that no protocol can have. */
  ghost predicate SchemeEnds(url: bytes, i: nat) {
    i < |url| && All(url[..i], IsScheme) && !IsScheme(url[i])
  }

  lemma SchemeEndIs(url: bytes, i: nat)
    ensures SchemeEnds(url, i) <==> i < |url| && Run(url, IsScheme) == i
  {
    PrefixRun(url, IsScheme);
    if SchemeEnds(url, i) {
      assert forall j | 0 <= j < i :: url[j] == url[..i][j];
      RunIs(url, IsScheme, i);
    }
  }

  lemma RestCodes(protocol: bytes, rest: bytes)
    ensures var r := Rest(protocol, rest); r.Err? ==> -9 <= r.code <= -4
  {
    var m := Run(rest, InAuthority);
    var a, t := rest[..m], rest[m..];
    RestIs(protocol, rest, a, t);
    AuthorityRefusals(a);
    if SplitAuthority(a).Ok? {
      AssembleRefusals(protocol, SplitAuthority(a).value, t);
    }
  }

  lemma ProtocolCodes(url: bytes, n: nat)
    requires n == Run(url, IsScheme)
    ensures var r := Parse(url);
      && (r == Err(-1) <==> n < |url| && url[n] != ':')
      && (r == Err(-2) <==> n == |url| || (n == 0 && url[0] == ':'))
      && (r == Err(-3) <==> 0 < n < |url| && url[n] == ':' && !(SLASHES <= url[n + 1..]))
  {
    if 0 < n < |url| && url[n] == ':' {
      GoodScheme(url, n);
      if SLASHES <= url[n + 1..] {
        RestCodes(url[..n], url[n + 3..]);
      }
    }
  }

  /** The exact conditions of the refusals before the authority, for every URL. */
  lemma ProtocolRefusals(url: bytes)
    ensures var r := Parse(url);
      && (r == Err(-1) <==> exists i: nat :: SchemeEnds(url, i) && url[i] != ':')
      && (r == Err(-2) <==> All(url, IsScheme) || (url != [] && url[0] == ':'))
      && (r == Err(-3) <==> exists i: nat :: SchemeEnds(url, i) && i > 0 && url[i] == ':' && !("//" <= url[i + 1..]))
  {
    var n := Run(url, IsScheme);
    ProtocolCodes(url, n);
    ClassIs(url, IsScheme);
    forall i: nat ensures SchemeEnds(url, i) <==> i < |url| && n == i {
      SchemeEndIs(url, i);
    }
    if n < |url| {
      assert SchemeEnds(url, n);
    }
  }
}
