/** A single task that makes one `recv_till` after the other: what it does in a run, and what it gets. */
module SequentialRuns {
  import opened Streams
  import opened Matching
  import opened RecvTillSpec
  import opened RecvTillProof
  import opened RecvTillRuns

  function Starts(reqs: seq<Request>): seq<Action> {
    if reqs == [] then [] else [Start(reqs[0])] + Starts(reqs[1..])
  }

  /** How many requests of the script the bytes seen so far serve. */
  function Count(seen: bytes, script: seq<Request>): (m: nat)
    ensures m <= |script|
  {
    CountBound(seen, script);
    |Serve(seen, script).parts|
  }

  lemma {:induction false} CountBound(seen: bytes, script: seq<Request>)
    ensures |Serve(seen, script).parts| <= |script|
    decreases |script|
  {
    if Serve(seen, script).parts != [] {
      ServeFirst(seen, script);
      CountBound(seen[Cut(seen, script[0]).value..], script[1..]);
    }
  }

  /** What the task does between its `n`-th result and its next yield, when `m` results are there. */
  function Burst(script: seq<Request>, n: nat, m: nat): seq<Action>
    requires n <= m <= |script|
  {
    Starts(script[n..Min(m + 1, |script|)])
  }

  /** How many results are there after the read that brings the `n`-th one. */
  function Reached(script: seq<Request>, n: nat, seen: bytes, fragments: seq<bytes>): (m: nat)
    requires n <= |script|
    ensures n <= m <= |script|
    decreases |fragments|
  {
    if fragments == [] then n
    else if n <= Count(seen + fragments[0], script) then Count(seen + fragments[0], script)
    else Reached(script, n, seen + fragments[0], fragments[1..])
  }

  /** The task that makes the receives of `script`, while the connection reads `fragments`. */
  function Sequential(script: seq<Request>, fragments: seq<bytes>): Client {
    (n: nat) => if n <= |script| then Burst(script, n, Reached(script, n, [], fragments)) else []
  }

  function Reads(fragments: seq<bytes>): seq<Event> {
    if fragments == [] then [] else [Read(fragments[0])] + Reads(fragments[1..])
  }

  /** The run: the task makes its first receive, then there are only reads. */
  function Run(script: seq<Request>, fragments: seq<bytes>): seq<Event> {
    [Tasks(Burst(script, 0, 0))] + Reads(fragments)
  }

  /** Between two events the task waits for the first result that is not there yet. */
  ghost predicate Waits(s: Conn, script: seq<Request>) {
    && Good(s) && !s.fallback && !s.scrambled
    && |s.done| <= |script| && Live(s) == script[..Min(|s.done| + 1, |script|)]
  }

  /* ---------- bursts ---------- */

  /** Inside a callback, when the task has just had its `|s.done|`-th result. */
  ghost predicate Runs(s: Conn, script: seq<Request>) {
    && Inv(s) && !s.fallback && !s.scrambled && s.queue == []
    && |s.done| <= |script| && Live(s) == script[..|s.done|]
  }

  /** When it has yielded; the connection has not looked whether it is idle yet. */
  ghost predicate Yields(s: Conn, script: seq<Request>) {
    && Inv(s) && !s.fallback && !s.scrambled
    && (s.queue != [] ==> Blocked(s.queue[0], s.carry))
    && |s.done| <= |script| && Live(s) == script[..Min(|s.done| + 1, |script|)]
  }

  /** Tasks neither receive bytes nor make room. */
  predicate Same(s: Conn, t: Conn) { t.received == s.received && t.size1 == s.size1 }

  predicate AfterRead(s: Conn, t: Conn, chunk: bytes) {
    t.received == s.received + chunk && (t.size1 == s.size1 || t.size1 == FIRST_SIZE1)
  }

  lemma LiveIs(s: Conn, script: seq<Request>)
    requires s.queue == [] && |s.done| <= |script| && Live(s) == script[..|s.done|]
    ensures Requests(s.done) == script[..|s.done|]
  {
    assert Waiting(s.queue) == [];
  }

  lemma NotServed(script: seq<Request>, r: Request, n: nat)
    requires n < |script| && script[n] == r
    ensures script[..n] + [r] == script[..n + 1]
  {
  }

  lemma StartServed(s: Conn, script: seq<Request>)
    requires Runs(s, script) && |s.done| < |script| && Cut(s.carry, script[|s.done|]).Some?
    ensures var t, k := StartTask(s, script[|s.done|]), Cut(s.carry, script[|s.done|]).value;
      Runs(t, script) && t.carry == s.carry[k..] && |t.done| == |s.done| + 1 && Same(s, t)
  {
    var r, n := script[|s.done|], |s.done|;
    var t, w := StartTask(s, r), Waiter(r, []);
    StartKeeps(s, r);
    LiveIs(s, script);
    assert w.got + s.carry == s.carry;
    RemainingCuts(w, s.carry);
    var p := Remaining(w, s.carry);
    assert p.carry == s.carry[|p.waiter.got|..];
    assert Requests(t.done) == Requests(s.done) + [r];
    NotServed(script, r, n);
    assert Waiting(t.queue) == [];
  }

  lemma StartWaits(s: Conn, script: seq<Request>)
    requires Runs(s, script) && |s.done| < |script| && Cut(s.carry, script[|s.done|]).None?
    ensures var t := StartTask(s, script[|s.done|]);
      Yields(t, script) && t.done == s.done && Same(s, t)
  {
    var r, n := script[|s.done|], |s.done|;
    var t, w := StartTask(s, r), Waiter(r, []);
    StartKeeps(s, r);
    LiveIs(s, script);
    assert w.got + s.carry == s.carry;
    if s.carry != [] {
      RemainingCuts(w, s.carry);
    }
    NotServed(script, r, n);
    assert Waiting(t.queue) == [r];
  }

  lemma StartsFirst(script: seq<Request>, n: nat, m: nat)
    requires n <= m <= |script| && n < |script|
    ensures Burst(script, n, m) == [Start(script[n])] + (if n < m then Burst(script, n + 1, m) else [])
  {
    var reqs := script[n..Min(m + 1, |script|)];
    assert reqs[0] == script[n];
    if n < m {
      assert reqs[1..] == script[n + 1..Min(m + 1, |script|)];
    } else {
      assert reqs[1..] == [] && Starts(reqs[1..]) == [];
      assert Burst(script, n, m) == Starts(reqs) == [Start(reqs[0])] + Starts(reqs[1..]);
    }
  }

  lemma ServeScript(carry: bytes, script: seq<Request>, n: nat)
    requires n < |script|
    ensures match Cut(carry, script[n])
            case None => Count(carry, script[n..]) == 0
            case Some(k) => Count(carry, script[n..]) == 1 + Count(carry[k..], script[n + 1..])
  {
    assert script[n..][1..] == script[n + 1..];
  }

  lemma ActFirst(s: Conn, a: Action, more: seq<Action>)
    requires Wf(s)
    ensures ActAll(s, [a] + more) == ActAll(Act(s, a), more)
  {
    assert ([a] + more)[1..] == more;
  }

  /** The burst up to the `m`-th result ends so. */
  ghost predicate BurstEnds(s: Conn, script: seq<Request>, m: nat)
    requires Wf(s) && |s.done| <= m <= |script|
  {
    var t := ActAll(s, Burst(script, |s.done|, m));
    Yields(t, script) && |t.done| == m && Same(s, t)
  }

  lemma BurstServed(s: Conn, script: seq<Request>, m: nat)
    requires Runs(s, script) && |s.done| < |script| && Cut(s.carry, script[|s.done|]).Some?
    requires m == |s.done| + Count(s.carry, script[|s.done|..])
    ensures var t := StartTask(s, script[|s.done|]);
      && Runs(t, script) && |t.done| == |s.done| + 1 && Same(s, t)
      && m == |t.done| + Count(t.carry, script[|t.done|..]) && m <= |script|
      && ActAll(s, Burst(script, |s.done|, m)) == ActAll(t, Burst(script, |t.done|, m))
  {
    var n := |s.done|;
    ServeScript(s.carry, script, n);
    StartsFirst(script, n, m);
    StartServed(s, script);
    ActFirst(s, Start(script[n]), Burst(script, n + 1, m));
  }

  lemma BurstStops(s: Conn, script: seq<Request>, m: nat)
    requires Runs(s, script) && |s.done| < |script| && Cut(s.carry, script[|s.done|]).None?
    requires m == |s.done| + Count(s.carry, script[|s.done|..])
    ensures m == |s.done| && BurstEnds(s, script, m)
  {
    var n := |s.done|;
    ServeScript(s.carry, script, n);
    StartsFirst(script, n, n);
    StartWaits(s, script);
    ActFirst(s, Start(script[n]), []);
  }

  lemma NothingLeft(s: Conn, script: seq<Request>, m: nat)
    requires Runs(s, script) && |s.done| == |script| && m == |s.done| + Count(s.carry, script[|s.done|..])
    ensures m == |script| && BurstEnds(s, script, m)
  {
    assert script[|script|..] == [];
    assert Burst(script, |script|, |script|) == [];
  }

  lemma BurstGoesOn(s: Conn, script: seq<Request>, m: nat)
    requires Runs(s, script) && |s.done| < |script| && Cut(s.carry, script[|s.done|]).Some?
    requires m == |s.done| + Count(s.carry, script[|s.done|..])
    requires var t := StartTask(s, script[|s.done|]); |t.done| <= m <= |script| && BurstEnds(t, script, m)
    ensures BurstEnds(s, script, m)
  {
    BurstServed(s, script, m);
  }

  /** A burst gets what the carry serves, and then waits. */
  lemma {:induction false} BurstYields(s: Conn, script: seq<Request>, m: nat)
    requires Runs(s, script) && m == |s.done| + Count(s.carry, script[|s.done|..])
    ensures m <= |script| && BurstEnds(s, script, m)
    decreases |script| - |s.done|
  {
    var n := |s.done|;
    if n == |script| {
      NothingLeft(s, script, m);
    } else if Cut(s.carry, script[n]).Some? {
      BurstServed(s, script, m);
      BurstYields(StartTask(s, script[n]), script, m);
      BurstGoesOn(s, script, m);
    } else {
      BurstStops(s, script, m);
    }
  }

  /** The end of a callback finds nothing more to serve. */
  lemma CheckWaits(s: Conn, script: seq<Request>, client: Client)
    requires Yields(s, script)
    ensures var t := CheckRemaining(s, client); Waits(t, script) && t.done == s.done && Same(s, t)
  {
    if s.queue != [] {
      var w := s.queue[0];
      BlockedUndecided(w, s.carry);
      if s.carry != [] {
        RemainingCuts(w, s.carry);
        var p := Remaining(w, s.carry);
        assert Waiting(s.queue[0 := p.waiter]) == Waiting(s.queue);
      }
    }
    CheckRemainingKeeps(s, client);
  }

  /* ---------- a read ---------- */

  lemma CountAfter(s: Conn, script: seq<Request>, n: nat)
    requires Served(s.received, s.done, Pending(s)) && |s.done| == n <= |script| && Requests(s.done) == script[..n]
    ensures Count(s.received, script) == n + Count(Pending(s), script[n..])
  {
    Splits(script, n);
    ServeAfter(s.received, s.done, Pending(s), script[n..]);
  }

  lemma Splits(script: seq<Request>, n: nat)
    requires n <= |script|
    ensures script[..n] + script[n..] == script
  {
  }

  /** Between events just the results of the specification are there. */
  lemma WaitsCount(s: Conn, script: seq<Request>)
    requires Waits(s, script)
    ensures Count(s.received, script) == |s.done|
    ensures s.queue != [] ==> |s.queue| == 1 && |s.done| < |script| && s.queue[0].req == script[|s.done|]
    ensures Requests(s.done) == script[..|s.done|]
  {
    var n := |s.done|;
    assert |Live(s)| == n + |s.queue|;
    assert Requests(s.done) == Live(s)[..n];
    if s.queue != [] {
      assert Waiting(s.queue)[0] == Live(s)[n];
      BlockedUndecided(s.queue[0], s.carry);
      ServeScript(Pending(s), script, n);
    }
    CountAfter(s, script, n);
  }

  lemma DoneMore(done: seq<Delivery>, d: Delivery)
    ensures Requests(done + [d]) == Requests(done) + [d.req]
  {
  }

  lemma PopRuns(s: Conn, script: seq<Request>, data: bytes, carry: bytes)
    requires Wf(s) && |s.queue| == 1 && s.reading && |carry| <= s.size1 && !s.fallback && !s.scrambled
    requires Served(s.received, s.done, data + carry) && Cut(data + carry, s.queue[0].req) == Some(|data|)
    requires |s.done| < |script| && Requests(s.done) == script[..|s.done|] && s.queue[0].req == script[|s.done|]
    ensures var t := Pop(s, data, carry);
      && Runs(t, script) && |t.done| == |s.done| + 1 && t.carry == carry && Same(s, t)
      && Count(t.received, script) == |t.done| + Count(carry, script[|t.done|..])
  {
    var t, n := Pop(s, data, carry), |s.done|;
    PopKeeps(s, data, carry);
    DoneMore(s.done, Delivery(script[n], data));
    NotServed(script, script[n], n);
    assert t.queue == [] && Waiting(t.queue) == [];
    assert Pending(t) == carry;
    CountAfter(t, script, n + 1);
  }

  /** The one who waits gets its result, goes on, and waits again. */
  lemma CompleteWaits(s: Conn, script: seq<Request>, data: bytes, carry: bytes, client: Client)
    requires Wf(s) && |s.queue| == 1 && s.reading && |carry| <= s.size1 && !s.fallback && !s.scrambled
    requires Served(s.received, s.done, data + carry) && Cut(data + carry, s.queue[0].req) == Some(|data|)
    requires |s.done| < |script| && Requests(s.done) == script[..|s.done|] && s.queue[0].req == script[|s.done|]
    requires |s.done| + 1 <= Count(s.received, script) ==>
      client(|s.done| + 1) == Burst(script, |s.done| + 1, Count(s.received, script))
    ensures var t := CheckRemaining(Complete(s, data, carry, client), client);
      Waits(t, script) && Same(s, t)
  {
    PopRuns(s, script, data, carry);
    BurstYields(Pop(s, data, carry), script, Count(s.received, script));
    CheckWaits(Complete(s, data, carry, client), script, client);
  }

  lemma ReadWaits(s: Conn, chunk: bytes, script: seq<Request>, client: Client)
    requires Waits(s, script) && ReadOk(s, chunk)
    requires |s.done| + 1 <= Count(s.received + chunk, script) ==>
      client(|s.done| + 1) == Burst(script, |s.done| + 1, Count(s.received + chunk, script))
    ensures var t := ReadChunk(s, chunk, client); Waits(t, script) && AfterRead(s, t, chunk)
  {
    WaitsCount(s, script);
    if s.queue[0].req.pattern == [] {
      ReadFillWaits(s, chunk, script, client);
    } else {
      ReadPatternWaits(s, chunk, script, client);
    }
  }

  lemma FillIs(s: Conn, chunk: bytes, client: Client)
    requires Wf(s) && ReadOk(s, chunk) && s.queue[0].req.pattern == []
    ensures var w, t := s.queue[0], s.(received := s.received + chunk);
      ReadChunk(s, chunk, client) ==
        if |chunk| == w.Left() then CheckRemaining(Complete(t, w.got + chunk, [], client), client)
        else CheckRemaining(t.(queue := t.queue[0 := w.(got := w.got + chunk)]), client)
  {
  }

  lemma FillFinished(s: Conn, chunk: bytes)
    requires Good(s) && !s.fallback && ReadOk(s, chunk) && s.queue[0].req.pattern == []
    requires |chunk| == s.queue[0].Left()
    ensures var w := s.queue[0];
      && Served(s.received + chunk, s.done, (w.got + chunk) + [])
      && Cut((w.got + chunk) + [], w.req) == Some(|w.got + chunk|)
  {
    FillPending(s, chunk);
  }

  lemma ReadFillWaits(s: Conn, chunk: bytes, script: seq<Request>, client: Client)
    requires Waits(s, script) && ReadOk(s, chunk) && s.queue[0].req.pattern == []
    requires |s.done| + 1 <= Count(s.received + chunk, script) ==>
      client(|s.done| + 1) == Burst(script, |s.done| + 1, Count(s.received + chunk, script))
    ensures var t := ReadChunk(s, chunk, client); Waits(t, script) && AfterRead(s, t, chunk)
  {
    var w := s.queue[0];
    WaitsCount(s, script);
    FillIs(s, chunk, client);
    if |chunk| == w.Left() {
      FillFinished(s, chunk);
      CompleteWaits(s.(received := s.received + chunk), script, w.got + chunk, [], client);
    } else {
      FillYields(s, chunk, script);
      CheckWaits(Filled(s, chunk), script, client);
    }
  }

  /** A fill-mode read that does not finish the one who waits. */
  function Filled(s: Conn, chunk: bytes): Conn
    requires s.queue != []
  {
    s.(received := s.received + chunk, queue := s.queue[0 := s.queue[0].(got := s.queue[0].got + chunk)])
  }

  lemma FillYields(s: Conn, chunk: bytes, script: seq<Request>)
    requires Waits(s, script) && ReadOk(s, chunk) && s.queue[0].req.pattern == [] && |chunk| < s.queue[0].Left()
    ensures Yields(Filled(s, chunk), script)
  {
    FillProgress(s, chunk);
    assert Waiting(Filled(s, chunk).queue) == Waiting(s.queue);
  }

  lemma PatternIs(s: Conn, chunk: bytes, client: Client)
    requires Wf(s) && ReadOk(s, chunk) && s.queue[0].req.pattern != []
    ensures var u := Grown(s, chunk);
      var p := Remaining(s.queue[0], u.carry);
      ReadChunk(s, chunk, client) ==
        if p.finished then CheckRemaining(Complete(u, p.waiter.got, p.carry, client), client)
        else CheckRemaining(u.(queue := u.queue[0 := p.waiter], carry := p.carry), client)
  {
  }

  lemma PatternFinished(s: Conn, chunk: bytes)
    requires Good(s) && !s.fallback && ReadOk(s, chunk) && s.queue[0].req.pattern != []
    requires Remaining(s.queue[0], Grown(s, chunk).carry).finished
    ensures var u := Grown(s, chunk);
      var p := Remaining(s.queue[0], u.carry);
      && Wf(u) && |p.carry| <= u.size1
      && Served(u.received, u.done, p.waiter.got + p.carry)
      && Cut(p.waiter.got + p.carry, s.queue[0].req) == Some(|p.waiter.got|)
  {
    GrownInv(s, chunk);
    RemainingCuts(s.queue[0], Grown(s, chunk).carry);
  }

  lemma PatternYields(s: Conn, chunk: bytes, script: seq<Request>)
    requires Waits(s, script) && ReadOk(s, chunk) && s.queue[0].req.pattern != []
    requires !Remaining(s.queue[0], Grown(s, chunk).carry).finished
    ensures var u := Grown(s, chunk);
      var p := Remaining(s.queue[0], u.carry);
      Yields(u.(queue := u.queue[0 := p.waiter], carry := p.carry), script)
  {
    var u := Grown(s, chunk);
    var p := Remaining(s.queue[0], u.carry);
    GrownInv(s, chunk);
    RemainingCuts(s.queue[0], u.carry);
    TriedInv(u);
    assert Waiting(u.queue[0 := p.waiter]) == Waiting(s.queue);
  }

  lemma ReadPatternWaits(s: Conn, chunk: bytes, script: seq<Request>, client: Client)
    requires Waits(s, script) && ReadOk(s, chunk) && s.queue[0].req.pattern != []
    requires |s.done| + 1 <= Count(s.received + chunk, script) ==>
      client(|s.done| + 1) == Burst(script, |s.done| + 1, Count(s.received + chunk, script))
    ensures var t := ReadChunk(s, chunk, client); Waits(t, script) && AfterRead(s, t, chunk)
  {
    var u := Grown(s, chunk);
    var p := Remaining(s.queue[0], u.carry);
    WaitsCount(s, script);
    PatternIs(s, chunk, client);
    if p.finished {
      PatternFinished(s, chunk);
      CompleteWaits(u, script, p.waiter.got, p.carry, client);
    } else {
      PatternYields(s, chunk, script);
      CheckWaits(u.(queue := u.queue[0 := p.waiter], carry := p.carry), script, client);
    }
  }

  /* ---------- whole runs ---------- */

  lemma {:induction false} CountGrows(seen: bytes, more: bytes, script: seq<Request>)
    ensures Count(seen, script) <= Count(seen + more, script)
    decreases |script|
  {
    if script != [] && Cut(seen, script[0]).Some? {
      var k := Cut(seen, script[0]).value;
      CutStable(seen, more, script[0]);
      assert (seen + more)[k..] == seen[k..] + more;
      CountGrows(seen[k..], more, script[1..]);
    }
  }

  /** The client does from here on what the script says. */
  ghost predicate Keeps(client: Client, script: seq<Request>, from: nat, seen: bytes, fragments: seq<bytes>) {
    forall n: nat | from < n <= |script| :: client(n) == Burst(script, n, Reached(script, n, seen, fragments))
  }

  /** A read, and what the client then still has to do. */
  lemma ReadKeepsTo(s: Conn, script: seq<Request>, chunk: bytes, fragments: seq<bytes>, client: Client)
    requires Waits(s, script) && ReadOk(s, chunk)
    requires Keeps(client, script, |s.done|, s.received, [chunk] + fragments)
    ensures var t := ReadChunk(s, chunk, client);
      && Waits(t, script) && AfterRead(s, t, chunk)
      && Keeps(client, script, |t.done|, t.received, fragments)
  {
    WaitsCount(s, script);
    assert ([chunk] + fragments)[1..] == fragments;
    ReadWaits(s, chunk, script, client);
    WaitsCount(ReadChunk(s, chunk, client), script);
    CountGrows(s.received, chunk, script);
  }

  lemma {:induction false} ReadsWait(s: Conn, script: seq<Request>, fragments: seq<bytes>, client: Client)
    requires Waits(s, script) && Legal(s, Reads(fragments), client)
    requires Keeps(client, script, |s.done|, s.received, fragments)
    ensures Clean(s, Reads(fragments), client)
    ensures var r := Exec(s, Reads(fragments), client); r.Some? && Waits(r.value, script)
    decreases |fragments|
  {
    if fragments != [] {
      var chunk := fragments[0];
      assert Reads(fragments)[0] == Read(chunk) && Reads(fragments)[1..] == Reads(fragments[1..]);
      ChecksHold(s, chunk);
      assert fragments == [chunk] + fragments[1..];
      ReadKeepsTo(s, script, chunk, fragments[1..], client);
      ReadsWait(ReadChunk(s, chunk, client), script, fragments[1..], client);
    }
  }

  lemma {:induction false} ReadsBring(fragments: seq<bytes>)
    ensures Chunks(Reads(fragments)) == Flatten(fragments)
  {
    if fragments != [] {
      assert Reads(fragments)[0] == Read(fragments[0]) && Reads(fragments)[1..] == Reads(fragments[1..]);
      ReadsBring(fragments[1..]);
    }
  }

  lemma OpeningWaits(script: seq<Request>)
    ensures Count([], script) == 0 && Waits(ActAll(INITIAL, Burst(script, 0, 0)), script)
    ensures var s := ActAll(INITIAL, Burst(script, 0, 0)); s.done == [] && s.received == [] && s.size1 == 0
  {
    assert Served([], [], []);
    assert script[0..] == script;
    if script != [] {
      assert Cut([], script[0]).None?;
    }
    BurstYields(INITIAL, script, 0);
    assert script[..0] == [];
  }

  /**
   MAIN RESULT. For every script and every fragmentation there is the run of the task that
   makes one receive after the other: no byte is lost or reordered, no CHECK fails, and at
   its end the task has had just the results of the specification and waits for the next.
   */
  lemma SequentialWaits(script: seq<Request>, fragments: seq<bytes>)
    requires Legal(INITIAL, Run(script, fragments), Sequential(script, fragments))
    ensures Clean(INITIAL, Run(script, fragments), Sequential(script, fragments))
    ensures Chunks(Run(script, fragments)) == Flatten(fragments)
    ensures var r := Exec(INITIAL, Run(script, fragments), Sequential(script, fragments));
      && r.Some? && Waits(r.value, script)
      && Parts(r.value.done) == Serve(Flatten(fragments), script).parts
      && Pending(r.value) == Serve(Flatten(fragments), script).rest
  {
    var client, es := Sequential(script, fragments), Run(script, fragments);
    var s := ActAll(INITIAL, Burst(script, 0, 0));
    OpeningWaits(script);
    assert es[1..] == Reads(fragments);
    ReadsWait(s, script, fragments, client);
    ReadsBring(fragments);
    RunRefinesServe(es, client);
    var t := Exec(INITIAL, es, client).value;
    WaitsServe(t, script);
  }

  lemma WaitsServe(s: Conn, script: seq<Request>)
    requires Waits(s, script)
    ensures Serve(s.received, script) == Service(Parts(s.done), Pending(s))
  {
    var n := |s.done|;
    WaitsCount(s, script);
    Splits(script, n);
    ServeAfter(s.received, s.done, Pending(s), script[n..]);
    if s.queue != [] {
      BlockedUndecided(s.queue[0], s.carry);
    }
    assert Parts(s.done) + [] == Parts(s.done);
  }

  /* ---------- there are such runs ---------- */

  /** The bytes one by one. */
  function Singles(stream: bytes): seq<bytes> {
    if stream == [] then [] else [[stream[0]]] + Singles(stream[1..])
  }

  lemma {:induction false} SinglesWhole(stream: bytes)
    ensures Flatten(Singles(stream)) == stream
  {
    if stream != [] {
      assert Singles(stream)[1..] == Singles(stream[1..]);
      SinglesWhole(stream[1..]);
    }
  }

  /** The task still waits when the bytes seen so far are followed by those to come. */
  ghost predicate StillWaits(script: seq<Request>, seen: bytes, more: bytes) {
    forall i | 0 <= i < |more| :: Count(seen + more[..i], script) < |script|
  }

  lemma WaitsOn(script: seq<Request>, seen: bytes, more: bytes)
    requires StillWaits(script, seen, more) && more != []
    ensures Count(seen, script) < |script| && StillWaits(script, seen + [more[0]], more[1..])
  {
    assert seen + more[..0] == seen;
    forall i | 0 <= i < |more[1..]| ensures Count(seen + [more[0]] + more[1..][..i], script) < |script| {
      assert seen + [more[0]] + more[1..][..i] == seen + more[..i + 1];
    }
  }

  ghost predicate Short(script: seq<Request>) { forall r | r in script :: |r.pattern| <= FIRST_SIZE1 }

  lemma ByteEnabled(s: Conn, script: seq<Request>, b: byte)
    requires Waits(s, script) && Short(script) && Count(s.received, script) < |script|
    requires s.size1 == 0 || s.size1 == FIRST_SIZE1
    ensures Enabled(s, Read([b])) && ReadOk(s, [b])
  {
    WaitsCount(s, script);
    assert |Live(s)| == |s.done| + |s.queue|;
    WindowPositive(s);
  }

  lemma {:induction false} SinglesLegalFrom(s: Conn, script: seq<Request>, more: bytes, client: Client)
    requires Waits(s, script) && Short(script) && StillWaits(script, s.received, more)
    requires s.size1 == 0 || s.size1 == FIRST_SIZE1
    requires Keeps(client, script, |s.done|, s.received, Singles(more))
    ensures Legal(s, Reads(Singles(more)), client)
    decreases |more|
  {
    if more != [] {
      var chunk, rest := [more[0]], Singles(more[1..]);
      assert Singles(more)[0] == chunk && Singles(more)[1..] == rest;
      assert Reads(Singles(more))[0] == Read(chunk) && Reads(Singles(more))[1..] == Reads(rest);
      WaitsOn(script, s.received, more);
      ByteEnabled(s, script, more[0]);
      ReadKeepsTo(s, script, chunk, rest, client);
      SinglesLegalFrom(ReadChunk(s, chunk, client), script, more[1..], client);
    }
  }

  lemma AllStillWaits(script: seq<Request>, stream: bytes)
    requires forall i | 0 <= i < |stream| :: Count(stream[..i], script) < |script|
    ensures StillWaits(script, [], stream)
  {
    forall i | 0 <= i < |stream| ensures Count([] + stream[..i], script) < |script| {
      assert [] + stream[..i] == stream[..i];
    }
  }

  lemma TasksFirst(s: Conn, actions: seq<Action>, more: seq<Event>, client: Client)
    requires Wf(s) && Legal(ActAll(s, actions), more, client)
    ensures Legal(s, [Tasks(actions)] + more, client)
  {
    var es := [Tasks(actions)] + more;
    assert es[0] == Tasks(actions) && es[1..] == more;
  }

  lemma SequentialKeeps(script: seq<Request>, fragments: seq<bytes>)
    ensures Keeps(Sequential(script, fragments), script, 0, [], fragments)
  {
  }

  /** A stream can arrive byte by byte as long as the task waits for it. */
  lemma SinglesLegal(script: seq<Request>, stream: bytes)
    requires Short(script) && forall i | 0 <= i < |stream| :: Count(stream[..i], script) < |script|
    ensures Legal(INITIAL, Run(script, Singles(stream)), Sequential(script, Singles(stream)))
  {
    var fragments := Singles(stream);
    var client, s := Sequential(script, fragments), ActAll(INITIAL, Burst(script, 0, 0));
    OpeningWaits(script);
    AllStillWaits(script, stream);
    SequentialKeeps(script, fragments);
    SinglesLegalFrom(s, script, stream, client);
    TasksFirst(INITIAL, Burst(script, 0, 0), Reads(fragments), client);
  }
}
