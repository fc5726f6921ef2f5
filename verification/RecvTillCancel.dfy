/** When cancelling a `recv_till` is transparent, and when it is not. */
module RecvTillCancel {
  import opened Streams
  import opened Matching
  import opened RecvTillSpec
  import opened RecvTillProof
  import opened RecvTillRuns

  /**
   The environments for which cancelling is safe: either nothing is ever cancelled,
   or every receive is in fill mode or looks for a single byte.
   */
  ghost predicate SafeActions(actions: seq<Action>, cancels: bool) {
    forall a | a in actions :: if cancels then a.Start? ==> |a.req.pattern| <= 1 else !a.Cancel?
  }

  ghost predicate SafeRun(es: seq<Event>, client: Client, cancels: bool) {
    && (forall e | e in es && e.Tasks? :: SafeActions(e.actions, cancels))
    && (forall n: nat :: SafeActions(client(n), cancels))
  }

  /** A waiter that has made progress is blocked whenever tasks may run. */
  ghost predicate Calm(s: Conn, cancels: bool) {
    && Inv(s) && !s.scrambled
    && (s.queue != [] && s.queue[0].got != [] ==> Blocked(s.queue[0], s.carry))
    && (cancels ==> forall w | w in s.queue :: |w.req.pattern| <= 1)
  }

  lemma ActCalm(s: Conn, a: Action, cancels: bool)
    requires Calm(s, cancels) && SafeActions([a], cancels)
    ensures Calm(Act(s, a), cancels)
  {
    assert a in [a];
    var t := Act(s, a);
    match a {
      case Start(r) =>
        StartKeeps(s, r);
        if s.carry != [] && s.queue == [] {
          RemainingCuts(Waiter(r, []), s.carry);
        }
      case Cancel(i) =>
        if i < |s.queue| {
          assert s.queue[i] in s.queue;
          CancelKeeps(s, i);
        }
    }
  }

  lemma {:induction false} ActAllCalm(s: Conn, actions: seq<Action>, cancels: bool)
    requires Calm(s, cancels) && SafeActions(actions, cancels)
    ensures Calm(ActAll(s, actions), cancels)
    decreases |actions|
  {
    if actions != [] {
      ActCalm(s, actions[0], cancels);
      ActAllCalm(Act(s, actions[0]), actions[1..], cancels);
    }
  }

  lemma {:induction false} CheckRemainingCalm(s: Conn, client: Client, cancels: bool)
    requires Inv(s) && !s.scrambled
    requires cancels ==> forall w | w in s.queue :: |w.req.pattern| <= 1
    requires forall n: nat :: SafeActions(client(n), cancels)
    ensures Calm(CheckRemaining(s, client), cancels)
    decreases |Pending(s)|
  {
    if s.carry != [] && s.queue != [] {
      var w := s.queue[0];
      var p := Remaining(w, s.carry);
      RemainingCuts(w, s.carry);
      if p.finished {
        CompleteCalm(s, p.waiter.got, p.carry, client, cancels);
        CheckRemainingCalm(Complete(s, p.waiter.got, p.carry, client), client, cancels);
      } else {
        assert s.queue[0] in s.queue;
      }
    }
    if !CheckRemaining(s, client).scrambled {
      CheckRemainingKeeps(s, client);
    }
  }

  lemma CompleteCalm(s: Conn, data: bytes, carry: bytes, client: Client, cancels: bool)
    requires Wf(s) && s.queue != [] && s.reading && |carry| <= s.size1 && !s.scrambled
    requires Served(s.received, s.done, data + carry)
    requires Cut(data + carry, s.queue[0].req) == Some(|data|)
    requires cancels ==> forall w | w in s.queue :: |w.req.pattern| <= 1
    requires forall n: nat :: SafeActions(client(n), cancels)
    ensures Calm(Complete(s, data, carry, client), cancels)
  {
    PopKeeps(s, data, carry);
    var s1 := Pop(s, data, carry);
    ActAllCalm(s1, client(|s1.done|), cancels);
  }

  ghost predicate GoodCalm(s: Conn, cancels: bool) {
    Good(s) && Calm(s, cancels)
  }

  lemma ReadCalm(s: Conn, chunk: bytes, client: Client, cancels: bool)
    requires GoodCalm(s, cancels) && !s.fallback && ReadOk(s, chunk)
    requires forall n: nat :: SafeActions(client(n), cancels)
    ensures Calm(ReadChunk(s, chunk, client), cancels)
  {
    if s.queue[0].req.pattern == [] {
      ReadFillCalm(s, chunk, client, cancels);
    } else {
      ReadPatternCalm(s, chunk, client, cancels);
    }
  }

  lemma ReadFillCalm(s: Conn, chunk: bytes, client: Client, cancels: bool)
    requires GoodCalm(s, cancels) && !s.fallback && ReadOk(s, chunk) && s.queue[0].req.pattern == []
    requires forall n: nat :: SafeActions(client(n), cancels)
    ensures Calm(ReadChunk(s, chunk, client), cancels)
  {
    var w, t := s.queue[0], s.(received := s.received + chunk);
    var data := w.got + chunk;
    FillPending(s, chunk);
    if |chunk| == w.Left() {
      CompleteCalm(t, data, [], client, cancels);
      CheckRemainingCalm(Complete(t, data, [], client), client, cancels);
    } else {
      FillProgress(s, chunk);
      CheckRemainingCalm(t.(queue := t.queue[0 := w.(got := data)]), client, cancels);
    }
  }

  lemma ReadPatternCalm(s: Conn, chunk: bytes, client: Client, cancels: bool)
    requires GoodCalm(s, cancels) && !s.fallback && ReadOk(s, chunk) && s.queue[0].req.pattern != []
    requires forall n: nat :: SafeActions(client(n), cancels)
    ensures Calm(ReadChunk(s, chunk, client), cancels)
  {
    var u := Grown(s, chunk);
    GrownInv(s, chunk);
    var p := Remaining(u.queue[0], u.carry);
    if p.finished {
      CheckRemainingCalm(u, client, cancels);
      assert CheckRemaining(u, client) == CheckRemaining(Complete(u, p.waiter.got, p.carry, client), client);
    } else {
      TriedInv(u);
      assert u.queue[0] in u.queue;
      CheckRemainingCalm(u.(queue := u.queue[0 := p.waiter], carry := p.carry), client, cancels);
    }
  }

  lemma StepCalm(s: Conn, e: Event, client: Client, cancels: bool)
    requires GoodCalm(s, cancels) && Enabled(s, e) && SafeRun([e], client, cancels)
    ensures Step(s, e, client).Some? && GoodCalm(Step(s, e, client).value, cancels)
  {
    assert e in [e];
    StepGood(s, e, client);
    match e {
      case Read(chunk) => ReadCalm(s, chunk, client, cancels);
      case Tasks(actions) => ActAllCalm(s, actions, cancels);
      case Fallback => CheckRemainingCalm(s.(fallback := false), client, cancels);
    }
  }

  lemma {:induction false} SafeRunIsClean(s: Conn, es: seq<Event>, client: Client, cancels: bool)
    requires GoodCalm(s, cancels) && Legal(s, es, client) && SafeRun(es, client, cancels)
    ensures Clean(s, es, client)
    decreases |es|
  {
    if es != [] {
      StepCalm(s, es[0], client, cancels);
      SafeRunIsClean(Step(s, es[0], client).value, es[1..], client, cancels);
    }
  }

  /**
   MAIN RESULT. Without cancels, or with fill-mode and single-byte receives only, a run
   never loses the order of the stream: everything proved of clean runs holds of it.
   */
  lemma SafeRunsRefineServe(es: seq<Event>, client: Client, cancels: bool)
    requires Legal(INITIAL, es, client) && SafeRun(es, client, cancels)
    ensures Clean(INITIAL, es, client)
    ensures var r := Exec(INITIAL, es, client);
      && r.Some?
      && (!r.value.fallback ==>
            Serve(Chunks(es), Live(r.value)) == Service(Parts(r.value.done), Pending(r.value)))
  {
    assert Served([], [], []);
    SafeRunIsClean(INITIAL, es, client, cancels);
    RunRefinesServe(es, client);
  }

  /* ---------- what a cancelled task leaves behind ---------- */

  function Without(reqs: seq<Request>, i: nat): seq<Request>
    requires i < |reqs|
  {
    reqs[..i] + reqs[i + 1..]
  }

  lemma CancelRemovesOne(s: Conn, i: nat)
    requires Wf(s) && i < |s.queue|
    ensures Live(CancelTask(s, i)) == Without(Live(s), |s.done| + i)
  {
  }

  /** A buffer that grows for a cancelled task has as much room again as it had in all. */
  lemma CancelGrows(s: Conn, i: nat)
    requires Wf(s) && i < |s.queue|
    ensures var t := CancelTask(s, i);
      if |s.queue[i].got| <= s.size1 - |s.carry| then t.size1 == s.size1 else t.size1 - |t.carry| == s.size1
  {
  }

  /** Tasks that do nothing when resumed. */
  function Idle(n: nat): seq<Action> { [] }

  lemma PopKeepsLive(s: Conn, data: bytes, carry: bytes)
    requires s.queue != []
    ensures Live(Pop(s, data, carry)) == Live(s)
  {
    assert Requests(Pop(s, data, carry).done) == Requests(s.done) + [s.queue[0].req];
    assert Waiting(s.queue) == [s.queue[0].req] + Waiting(s.queue[1..]);
    Regroup(Requests(s.done), [s.queue[0].req], Waiting(s.queue[1..]));
  }

  lemma {:induction false} IdleKeepsLive(s: Conn)
    requires Wf(s)
    ensures Live(CheckRemaining(s, Idle)) == Live(s)
    decreases |Pending(s)|
  {
    if s.carry != [] && s.queue != [] {
      var p := Remaining(s.queue[0], s.carry);
      if p.finished {
        var t := Complete(s, p.waiter.got, p.carry, Idle);
        assert t == Pop(s, p.waiter.got, p.carry);
        IdleKeepsLive(t);
        PopKeepsLive(s, p.waiter.got, p.carry);
      } else {
        assert Waiting(s.queue[0 := p.waiter]) == Waiting(s.queue);
      }
    }
  }

  /**
   MAIN RESULT. Cancelling task `i` and handling the fallback leaves the connection as if
   the task had never been there: the deliveries and the bytes held are `Serve` of the
   same bytes for all other requests.
   */
  lemma CancelTransparent(s: Conn, i: nat)
    requires Good(s) && !s.fallback && !s.scrambled && i < |s.queue|
    requires s.queue[i].got == [] || s.carry == []
    ensures var t := CheckRemaining(CancelTask(s, i).(fallback := false), Idle);
      Serve(s.received, Without(Live(s), |s.done| + i)) == Service(Parts(t.done), Pending(t))
    ensures |CancelTask(s, i).carry| <= CancelTask(s, i).size1
  {
    CancelKeeps(s, i);
    CancelRemovesOne(s, i);
    var u := CancelTask(s, i).(fallback := false);
    assert Live(u) == Live(CancelTask(s, i));
    IdleKeepsLive(u);
    IdleUnscrambled(u);
    CheckRemainingKeeps(u, Idle);
    SettledServes(CheckRemaining(u, Idle));
  }

  lemma {:induction false} IdleUnscrambled(s: Conn)
    requires Wf(s)
    ensures CheckRemaining(s, Idle).scrambled == s.scrambled
    decreases |Pending(s)|
  {
    if s.carry != [] && s.queue != [] {
      var p := Remaining(s.queue[0], s.carry);
      if p.finished {
        IdleUnscrambled(Complete(s, p.waiter.got, p.carry, Idle));
      }
    }
  }

  ghost predicate OnlyFor(p: bytes, es: seq<Event>) {
    forall e, a | e in es && e.Tasks? && a in e.actions && a.Start? :: a.req.pattern == p
  }

  /** A run of receives for `p` alone after which the bytes held are not the bytes received. */
  ghost predicate Reorders(p: bytes, es: seq<Event>) {
    && OnlyFor(p, es)
    && Legal(INITIAL, es, Idle)
    && Exec(INITIAL, es, Idle).Some?
    && var s := Exec(INITIAL, es, Idle).value;
       s.done == [] && s.queue == [] && Pending(s) != Chunks(es)
  }

  /**
   A pattern of two or more bytes breaks it. For each one there is a legal run, of one
   receive, one read and one cancel, that reorders the stream.
   */
  lemma LongPatternScrambles(p: bytes)
    requires 2 <= |p| <= FIRST_SIZE1
    ensures exists es :: Reorders(p, es)
  {
    var x: byte := if p[0] == 'a' then 'b' else 'a';
    var e0, e1, e2 := Tasks([Start(Request(2, p))]), Read([x] + p[..|p| - 1]), Tasks([Cancel(0)]);
    var es := [e0] + ([e1] + ([e2] + []));
    ScramblingRun(p, x);
    assert es == [e0, e1, e2];
    assert OnlyFor(p, [e0, e1, e2]);
    assert Reorders(p, es);
  }

  ghost predicate StartsOnly(p: bytes, actions: seq<Action>) {
    forall a | a in actions && a.Start? :: a.req.pattern == p
  }

  /** All receives of the run, also those of resumed tasks, are for the pattern `p`. */
  ghost predicate RunFor(p: bytes, es: seq<Event>, client: Client) {
    && (forall e | e in es && e.Tasks? :: StartsOnly(p, e.actions))
    && (forall n: nat :: StartsOnly(p, client(n)))
  }

  ghost predicate OrderKept(es: seq<Event>, client: Client) {
    var r := Exec(INITIAL, es, client);
    r.Some? && Chunks(es) == Flatten(Parts(r.value.done)) + Pending(r.value)
  }

  /** Whatever is cancelled and when, receives for `p` leave the stream in order. */
  ghost predicate SafeToCancel(p: bytes) {
    forall es, client :: Legal(INITIAL, es, client) && RunFor(p, es, client) ==> OrderKept(es, client)
  }

  lemma ShortIsSafe(p: bytes, es: seq<Event>, client: Client)
    requires |p| <= 1 && Legal(INITIAL, es, client) && RunFor(p, es, client)
    ensures OrderKept(es, client)
  {
    forall e | e in es && e.Tasks? ensures SafeActions(e.actions, true) {
      assert StartsOnly(p, e.actions);
    }
    forall n: nat ensures SafeActions(client(n), true) {
      assert StartsOnly(p, client(n));
    }
    SafeRunsRefineServe(es, client, true);
    Conservation(es, client);
  }

  /** Receives for a pattern that does not fit the carry buffer never take a byte. */
  ghost predicate Starved(s: Conn, p: bytes) {
    && Wf(s) && !s.scrambled
    && |s.carry| <= s.size1 && (s.size1 == 0 || s.size1 == FIRST_SIZE1)
    && forall w | w in s.queue :: w.req.pattern == p && w.got == []
  }

  lemma {:induction false} ActAllStarved(s: Conn, actions: seq<Action>, p: bytes)
    requires Starved(s, p) && |p| > FIRST_SIZE1 && StartsOnly(p, actions)
    ensures Starved(ActAll(s, actions), p)
    decreases |actions|
  {
    if actions != [] {
      assert actions[0] in actions;
      ActAllStarved(Act(s, actions[0]), actions[1..], p);
    }
  }

  lemma CheckStarved(s: Conn, client: Client, p: bytes)
    requires Starved(s, p) && |p| > FIRST_SIZE1
    ensures Starved(CheckRemaining(s, client), p)
  {
    if s.carry != [] && s.queue != [] {
      assert s.queue[0] in s.queue;
      assert Remaining(s.queue[0], s.carry) == Progress(false, s.queue[0], s.carry);
    }
  }

  lemma StepStarved(s: Conn, e: Event, client: Client, p: bytes)
    requires Starved(s, p) && |p| > FIRST_SIZE1 && Enabled(s, e)
    requires e.Tasks? ==> StartsOnly(p, e.actions)
    ensures Step(s, e, client).Some? ==> Starved(Step(s, e, client).value, p)
  {
    match e {
      case Read(chunk) =>
        if ReadOk(s, chunk) {
          var w := s.queue[0];
          assert w in s.queue;
          var u := s.(received := s.received + chunk, carry := s.carry + chunk, size1 := FIRST_SIZE1);
          assert Remaining(w, u.carry) == Progress(false, w, u.carry);
          assert s.queue[0 := w] == s.queue;
          CheckStarved(u, client, p);
        }
      case Tasks(actions) => ActAllStarved(s, actions, p);
      case Fallback => CheckStarved(s.(fallback := false), client, p);
    }
  }

  lemma {:induction false} StarvedIsClean(s: Conn, es: seq<Event>, client: Client, p: bytes)
    requires Starved(s, p) && |p| > FIRST_SIZE1 && Legal(s, es, client)
    requires forall e | e in es && e.Tasks? :: StartsOnly(p, e.actions)
    ensures Clean(s, es, client)
    decreases |es|
  {
    if es != [] {
      assert es[0] in es;
      StepStarved(s, es[0], client, p);
      if Step(s, es[0], client).Some? {
        StarvedIsClean(Step(s, es[0], client).value, es[1..], client, p);
      }
    }
  }

  lemma SafeOtherwise(p: bytes)
    requires |p| <= 1 || |p| > FIRST_SIZE1
    ensures SafeToCancel(p)
  {
    forall es, client | Legal(INITIAL, es, client) && RunFor(p, es, client) ensures OrderKept(es, client) {
      if |p| <= 1 {
        ShortIsSafe(p, es, client);
      } else {
        StarvedIsClean(INITIAL, es, client, p);
        Conservation(es, client);
      }
    }
  }

  lemma LongIsUnsafe(p: bytes)
    requires 1 < |p| <= FIRST_SIZE1
    ensures !SafeToCancel(p)
  {
    LongPatternScrambles(p);
    var es :| Reorders(p, es);
    ReorderedIsLost(p, es);
  }

  lemma ReorderedIsLost(p: bytes, es: seq<Event>)
    requires Reorders(p, es)
    ensures Legal(INITIAL, es, Idle) && RunFor(p, es, Idle) && !OrderKept(es, Idle)
  {
    NothingDone(Exec(INITIAL, es, Idle).value);
    forall e | e in es && e.Tasks? ensures StartsOnly(p, e.actions) {
    }
  }

  lemma NothingDone(s: Conn)
    requires s.done == []
    ensures Flatten(Parts(s.done)) + Pending(s) == Pending(s)
  {
    assert Parts(s.done) == [] && [] + Pending(s) == Pending(s);
  }

  /**
   MAIN RESULT. The exact condition: receives for a pattern are safe to cancel if and only
   if it is the fill mode's empty one or a single byte, or if it can never be found because
   it is longer than the carry buffer.
   */
  lemma SafeExactlyWhenShort(p: bytes)
    ensures SafeToCancel(p) <==> |p| <= 1 || |p| > FIRST_SIZE1
  {
    if |p| <= 1 || |p| > FIRST_SIZE1 {
      SafeOtherwise(p);
    } else {
      LongIsUnsafe(p);
    }
  }

  lemma ScramblingRun(p: bytes, x: byte)
    requires 2 <= |p| <= FIRST_SIZE1 && x != p[0]
    ensures var r: Request := Request(2, p);
      var es := [Tasks([Start(r)])] + ([Read([x] + p[..|p| - 1])] + ([Tasks([Cancel(0)])] + []));
      && Legal(INITIAL, es, Idle)
      && Exec(INITIAL, es, Idle).Some?
      && var s := Exec(INITIAL, es, Idle).value;
         s.done == [] && s.queue == [] && Pending(s) != Chunks(es)
  {
    var head, r: Request := p[..|p| - 1], Request(2, p);
    var e0, e1, e2 := Tasks([Start(r)]), Read([x] + head), Tasks([Cancel(0)]);
    var s1 := INITIAL.(queue := [Waiter(r, [])], reading := true);
    var s2 := s1.(queue := [Waiter(r, [x])], carry := head, size1 := FIRST_SIZE1, received := [x] + head);
    var s3 := CancelTask(s2, 0);
    FirstStep(r);
    ReadSplits(p, x);
    OneAction(s2, Cancel(0));
    RunOfThree(e0, e1, e2, s1, s2, s3);
    assert Pending(s3)[0] == p[0] != x;
  }

  lemma RunOfThree(e0: Event, e1: Event, e2: Event, s1: Conn, s2: Conn, s3: Conn)
    requires Wf(s1) && Wf(s2) && Wf(s3)
    requires Enabled(INITIAL, e0) && Step(INITIAL, e0, Idle) == Some(s1)
    requires Enabled(s1, e1) && Step(s1, e1, Idle) == Some(s2)
    requires Enabled(s2, e2) && Step(s2, e2, Idle) == Some(s3)
    ensures var es := [e0] + ([e1] + ([e2] + []));
      && Legal(INITIAL, es, Idle)
      && Exec(INITIAL, es, Idle) == Some(s3)
      && Chunks(es) == Chunk(e0) + (Chunk(e1) + (Chunk(e2) + []))
  {
    Prepend(s2, e2, s3, [], s3);
    Prepend(s1, e1, s2, [e2] + [], s3);
    Prepend(INITIAL, e0, s1, [e1] + ([e2] + []), s3);
  }

  lemma FirstStep(r: Request)
    ensures Step(INITIAL, Tasks([Start(r)]), Idle) == Some(INITIAL.(queue := [Waiter(r, [])], reading := true))
  {
    assert INITIAL.queue + [Waiter(r, [])] == [Waiter(r, [])];
    OneAction(INITIAL, Start(r));
  }

  /** Of `x` and all but the last byte of `p`, the waiter takes `x`; the rest may begin a match. */
  lemma ReadSplits(p: bytes, x: byte)
    requires 2 <= |p| <= FIRST_SIZE1 && x != p[0]
    ensures var head, r: Request := p[..|p| - 1], Request(2, p);
      var s := INITIAL.(queue := [Waiter(r, [])], reading := true);
      && Wf(s) && Enabled(s, Read([x] + head))
      && Step(s, Read([x] + head), Idle) ==
         Some(s.(queue := [Waiter(r, [x])], carry := head, size1 := FIRST_SIZE1, received := [x] + head))
  {
    var head, r: Request := p[..|p| - 1], Request(2, p);
    var chunk, w := [x] + head, Waiter(r, [x]);
    var s := INITIAL.(queue := [Waiter(r, [])], reading := true);
    var t := s.(queue := [w], carry := head, size1 := FIRST_SIZE1, received := chunk);
    NoPatternIn(p, x);
    assert [] + chunk == chunk && chunk[..1] == [x] && chunk[1..] == head;
    assert Remaining(Waiter(r, []), chunk) == Progress(false, w, head) by {
      assert [] + [x] == [x];
    }
    assert s.queue[0 := w] == [w];
    assert t.queue[0 := w] == [w];
    assert Remaining(w, head) == Progress(false, w, head);
    assert CheckRemaining(t, Idle) == t;
  }

  lemma OneAction(s: Conn, a: Action)
    requires Wf(s)
    ensures ActAll(s, [a]) == Act(s, a)
  {
    assert ActAll(Act(s, a), []) == Act(s, a);
  }

  lemma NoPatternIn(p: bytes, x: byte)
    requires p != [] && x != p[0]
    ensures FindFrom([x] + p[..|p| - 1], p, 0).None?
  {
    var s := [x] + p[..|p| - 1];
    assert s[0..|p|][0] == x;
    assert !MatchAt(s, p, 0);
  }

  lemma Prepend(s: Conn, e: Event, t: Conn, es: seq<Event>, r: Conn)
    requires Wf(s) && Wf(t) && Enabled(s, e) && Step(s, e, Idle) == Some(t)
    requires Legal(t, es, Idle) && Exec(t, es, Idle) == Some(r)
    ensures Legal(s, [e] + es, Idle) && Exec(s, [e] + es, Idle) == Some(r)
    ensures Chunks([e] + es) == Chunk(e) + Chunks(es)
  {
    assert ([e] + es)[1..] == es;
  }

  /* ---------- a success that does not find the pattern ---------- */

  /** A run of one receive for `p` that succeeds with data that do not end with `p`. */
  ghost predicate SucceedsWithout(p: bytes, es: seq<Event>) {
    && Legal(INITIAL, es, Idle)
    && Exec(INITIAL, es, Idle).Some?
    && var done := Exec(INITIAL, es, Idle).value.done;
       |done| == 1 && done[0].req.pattern == p && !Found(done[0])
  }

  /** For every pattern there is one: the buffer fills first. */
  lemma FillsWithoutPattern(p: bytes)
    requires 0 < |p| <= FIRST_SIZE1
    ensures exists es :: SucceedsWithout(p, es)
  {
    var x: byte := if p[0] == 'a' then 'b' else 'a';
    FillingRun(p, x);
    var es := [Tasks([Start(Request(1, p))])] + ([Read([x] + p[..|p| - 1])] + []);
    assert SucceedsWithout(p, es);
  }

  lemma FillingRun(p: bytes, x: byte)
    requires 0 < |p| <= FIRST_SIZE1 && x != p[0]
    ensures var r: Request := Request(1, p);
      var es := [Tasks([Start(r)])] + ([Read([x] + p[..|p| - 1])] + []);
      && Legal(INITIAL, es, Idle)
      && Exec(INITIAL, es, Idle).Some?
      && Exec(INITIAL, es, Idle).value.done == [Delivery(r, [x])]
  {
    var r: Request := Request(1, p);
    var e0, e1 := Tasks([Start(r)]), Read([x] + p[..|p| - 1]);
    var s1 := INITIAL.(queue := [Waiter(r, [])], reading := true);
    FirstStep(r);
    ReadFills(p, x);
    var s2 := Step(s1, e1, Idle).value;
    Prepend(s1, e1, s2, [], s2);
    Prepend(INITIAL, e0, s1, [e1] + [], s2);
  }

  lemma ReadFills(p: bytes, x: byte)
    requires 0 < |p| <= FIRST_SIZE1 && x != p[0]
    ensures var r: Request := Request(1, p);
      var s := INITIAL.(queue := [Waiter(r, [])], reading := true);
      var e := Read([x] + p[..|p| - 1]);
      && Wf(s) && Enabled(s, e) && Step(s, e, Idle).Some?
      && Step(s, e, Idle).value.done == [Delivery(r, [x])]
  {
    var r: Request := Request(1, p);
    var rest, chunk := p[..|p| - 1], [x] + p[..|p| - 1];
    var s := INITIAL.(queue := [Waiter(r, [])], reading := true);
    var t := s.(received := chunk, carry := chunk, size1 := FIRST_SIZE1);
    NoPatternIn(p, x);
    assert [] + chunk == chunk && chunk[..1] == [x] && chunk[1..] == rest;
    assert Remaining(Waiter(r, []), chunk) == Progress(true, Waiter(r, [x]), rest) by {
      assert [] + [x] == [x];
    }
    assert Step(s, Read(chunk), Idle) == Some(CheckRemaining(Complete(t, [x], rest, Idle), Idle));
    var u := Complete(t, [x], rest, Idle);
    assert u.queue == [] && u.done == [Delivery(r, [x])];
  }
}
