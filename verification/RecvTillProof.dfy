/** The `recv_till` machine refines `Serve`, whatever the fragments and the tasks do. */
module RecvTillProof {
  import opened Streams
  import opened Matching
  import opened RecvTillSpec

  /** `done` is what `Serve` delivers first from `stream`, and leaves `rest`. */
  ghost predicate Served(stream: bytes, done: seq<Delivery>, rest: bytes) {
    if done == [] then stream == rest
    else
      && Cut(stream, done[0].req) == Some(|done[0].data|)
      && done[0].data == stream[..|done[0].data|]
      && Served(stream[|done[0].data|..], done[1..], rest)
  }

  /** The progress of a waiter over a carry: no occurrence begins in what it took. */
  ghost predicate WaiterOk(w: Waiter, carry: bytes) {
    && |w.got| < w.req.cap
    && (w.req.pattern == [] ==> w.got == [] || carry == [])
    && (w.req.pattern != [] ==>
          && NoMatchIn(w.got + carry, w.req.pattern, 0, |w.got|)
          && (w.got == [] || |w.req.pattern| - 1 <= |carry|))
  }

  /** A second `remaining()` would change nothing. */
  ghost predicate Blocked(w: Waiter, carry: bytes) {
    if w.req.pattern == [] then carry == [] else |carry| < |w.req.pattern|
  }

  /** Holds in every state, also inside a callback. */
  ghost predicate Inv(s: Conn) {
    && Wf(s)
    && |s.carry| <= s.size1
    && Served(s.received, s.done, Pending(s))
    && (s.queue != [] ==> s.reading && WaiterOk(s.queue[0], s.carry))
    && (s.fallback ==> s.reading)
  }

  /** Holds between events, unless a cancel still waits for its fallback. */
  ghost predicate Settled(s: Conn) {
    && (s.queue != [] ==> Blocked(s.queue[0], s.carry))
    && (s.reading ==> s.queue != [])
  }

  /* ---------- Serve and Served ---------- */

  lemma {:induction false} ServedAppend(stream: bytes, done: seq<Delivery>, rest: bytes, r: Request, k: nat)
    requires Served(stream, done, rest) && Cut(rest, r) == Some(k)
    ensures Served(stream, done + [Delivery(r, rest[..k])], rest[k..])
  {
    var d := Delivery(r, rest[..k]);
    if done == [] {
      assert (done + [d])[1..] == [];
      assert Served(rest[k..], [], rest[k..]);
    } else {
      var n := |done[0].data|;
      ServedAppend(stream[n..], done[1..], rest, r, k);
      assert (done + [d])[1..] == done[1..] + [d];
    }
  }

  lemma {:induction false} ServedExtend(stream: bytes, done: seq<Delivery>, rest: bytes, more: bytes)
    requires Served(stream, done, rest)
    ensures Served(stream + more, done, rest + more)
  {
    if done != [] {
      var n := |done[0].data|;
      CutStable(stream, more, done[0].req);
      ServedExtend(stream[n..], done[1..], rest, more);
      assert (stream + more)[n..] == stream[n..] + more;
      assert (stream + more)[..n] == stream[..n];
    }
  }

  lemma ServeStep(stream: bytes, r: Request, reqs: seq<Request>, k: nat)
    requires Cut(stream, r) == Some(k)
    ensures var more := Serve(stream[k..], reqs);
      Serve(stream, [r] + reqs) == Service([stream[..k]] + more.parts, more.rest)
  {
    assert ([r] + reqs)[1..] == reqs;
  }

  lemma HeadFirst(done: seq<Delivery>)
    requires done != []
    ensures Requests(done) == [done[0].req] + Requests(done[1..])
    ensures Parts(done) == [done[0].data] + Parts(done[1..])
  {
  }

  /** `Serve` first delivers what has been served, then goes on with the rest. */
  lemma {:induction false} ServeAfter(stream: bytes, done: seq<Delivery>, rest: bytes, reqs: seq<Request>)
    requires Served(stream, done, rest)
    ensures Serve(stream, Requests(done) + reqs).parts == Parts(done) + Serve(rest, reqs).parts
    ensures Serve(stream, Requests(done) + reqs).rest == Serve(rest, reqs).rest
  {
    if done == [] {
      assert Requests(done) + reqs == reqs;
    } else {
      var d, tail := done[0], done[1..];
      ServeAfter(stream[|d.data|..], tail, rest, reqs);
      ServeStep(stream, d.req, Requests(tail) + reqs, |d.data|);
      HeadFirst(done);
      Regroup([d.req], Requests(tail), reqs);
      Regroup([d.data], Parts(tail), Serve(rest, reqs).parts);
    }
  }

  /** No byte is lost, duplicated or reordered. */
  lemma {:induction false} ServedConserves(stream: bytes, done: seq<Delivery>, rest: bytes)
    requires Served(stream, done, rest)
    ensures stream == Flatten(Parts(done)) + rest
  {
    if done == [] {
      assert Parts(done) == [];
    } else {
      var n := |done[0].data|;
      ServedConserves(stream[n..], done[1..], rest);
      HeadFirst(done);
      assert Parts(done)[1..] == Parts(done[1..]);
      Regroup(done[0].data, Flatten(Parts(done[1..])), rest);
      assert stream == stream[..n] + stream[n..];
    }
  }

  /* ---------- one call of remaining() ---------- */

  lemma NoMatchShift(got: bytes, carry: bytes, p: bytes, hi: nat)
    requires NoMatchIn(got + carry, p, 0, |got|) && NoMatchIn(carry, p, 0, hi)
    ensures NoMatchIn(got + carry, p, 0, |got| + hi)
  {
    forall i: nat | i < |got| + hi ensures !MatchAt(got + carry, p, i) {
      if i >= |got| && i + |p| <= |got| + |carry| {
        assert (got + carry)[i..i + |p|] == carry[i - |got|..i - |got| + |p|];
        assert !MatchAt(carry, p, i - |got|);
      }
    }
  }

  lemma FindShift(got: bytes, carry: bytes, p: bytes)
    requires p != [] && NoMatchIn(got + carry, p, 0, |got|)
    ensures FindFrom(got + carry, p, 0) ==
      match FindFrom(carry, p, 0) case Some(i) => Some(|got| + i) case None => None
  {
    match FindFrom(carry, p, 0) {
      case Some(i) =>
        NoMatchShift(got, carry, p, i);
        assert (got + carry)[|got| + i..|got| + i + |p|] == carry[i..i + |p|];
        FindIs(got + carry, p, |got| + i);
      case None =>
        NoMatchShift(got, carry, p, |carry| + 1);
    }
  }

  /** Copying moves the boundary between `got` and the carry, nothing else. */
  lemma TakeKeepsBytes(w: Waiter, carry: bytes, n: nat, finished: bool)
    requires n <= |carry|
    ensures var p := Take(w, carry, n, finished);
      p.waiter.got + p.carry == w.got + carry && p.waiter.req == w.req && |p.carry| <= |carry|
  {
    assert (w.got + carry[..n]) + carry[n..] == w.got + (carry[..n] + carry[n..]);
    assert carry[..n] + carry[n..] == carry;
  }

  lemma RemainingKeepsBytes(w: Waiter, carry: bytes)
    requires |w.got| < w.req.cap && carry != []
    ensures var p := Remaining(w, carry);
      p.waiter.got + p.carry == w.got + carry && p.waiter.req == w.req && |p.carry| <= |carry|
  {
    forall n: nat, f | n <= |carry| ensures
      var p := Take(w, carry, n, f);
      p.waiter.got + p.carry == w.got + carry && p.waiter.req == w.req && |p.carry| <= |carry|
    {
      TakeKeepsBytes(w, carry, n, f);
    }
  }

  lemma RemainingDecides(w: Waiter, carry: bytes)
    requires WaiterOk(w, carry) && carry != []
    ensures var p := Remaining(w, carry);
      Cut(w.got + carry, w.req) == if p.finished then Some(|p.waiter.got|) else None
  {
    var pat := w.req.pattern;
    if pat != [] {
      FindShift(w.got, carry, pat);
      if |carry| < |pat| {
        assert FindFrom(carry, pat, 0).None?;
      }
    }
  }

  lemma RemainingBlocks(w: Waiter, carry: bytes)
    requires WaiterOk(w, carry) && carry != [] && !Remaining(w, carry).finished
    ensures var p := Remaining(w, carry);
      WaiterOk(p.waiter, p.carry) && Blocked(p.waiter, p.carry)
  {
    var pat, p := w.req.pattern, Remaining(w, carry);
    RemainingKeepsBytes(w, carry);
    if pat != [] && |carry| >= |pat| {
      var copy := |carry| - |pat| + 1;
      assert p.waiter.got + p.carry == w.got + carry && |p.waiter.got| == |w.got| + copy;
      NoMatchShift(w.got, carry, pat, copy);
    }
  }

  /**
   `remaining()` finishes exactly when the cut of the stream at the waiter is decided,
   delivers exactly that prefix, and otherwise keeps every byte in order.
   */
  lemma RemainingCuts(w: Waiter, carry: bytes)
    requires WaiterOk(w, carry) && carry != []
    ensures var p := Remaining(w, carry);
      && p.waiter.req == w.req
      && p.waiter.got + p.carry == w.got + carry
      && |p.carry| <= |carry|
      && Cut(w.got + carry, w.req) == (if p.finished then Some(|p.waiter.got|) else None)
      && (!p.finished ==> WaiterOk(p.waiter, p.carry) && Blocked(p.waiter, p.carry))
  {
    RemainingKeepsBytes(w, carry);
    RemainingDecides(w, carry);
    if !Remaining(w, carry).finished {
      RemainingBlocks(w, carry);
    }
  }

  /* ---------- steps keep the invariant ---------- */

  lemma StartKeeps(s: Conn, r: Request)
    requires Inv(s)
    ensures Inv(StartTask(s, r))
  {
    var t := StartTask(s, r);
    var w := Waiter(r, []);
    if s.carry != [] && s.queue == [] {
      assert w.got + s.carry == s.carry == Pending(s);
      RemainingCuts(w, s.carry);
      var p := Remaining(w, s.carry);
      if p.finished {
        assert p.waiter.got == s.carry[..|p.waiter.got|] by { assert p.waiter.got <= p.waiter.got + p.carry; }
        assert p.carry == s.carry[|p.waiter.got|..];
        ServedAppend(s.received, s.done, s.carry, r, |p.waiter.got|);
        assert Pending(t) == p.carry;
      }
    } else {
      assert Pending(t) == Pending(s);
    }
  }

  lemma CancelHeadKeeps(s: Conn)
    requires Inv(s) && s.queue != [] && !CancelTask(s, 0).scrambled
    ensures Inv(CancelTask(s, 0))
  {
    var t := CancelTask(s, 0);
    assert t.queue == s.queue[1..];
    assert Pending(t) == Pending(s);
  }

  lemma CancelKeeps(s: Conn, i: nat)
    requires Inv(s) && !CancelTask(s, i).scrambled
    ensures Inv(CancelTask(s, i))
  {
    if i == 0 && s.queue != [] {
      CancelHeadKeeps(s);
    } else if i < |s.queue| {
      var t := CancelTask(s, i);
      assert t.queue[0] == s.queue[0] && t.carry == s.carry + [] == s.carry;
      assert Pending(t) == Pending(s);
    }
  }

  lemma {:induction false} ActAllKeeps(s: Conn, actions: seq<Action>)
    requires Inv(s) && !ActAll(s, actions).scrambled
    ensures Inv(ActAll(s, actions)) && !s.scrambled
    decreases |actions|
  {
    if actions != [] {
      var t := Act(s, actions[0]);
      match actions[0] {
        case Start(r) => StartKeeps(s, r);
        case Cancel(i) => CancelKeeps(s, i);
      }
      ActAllKeeps(t, actions[1..]);
    }
  }

  function Pop(s: Conn, data: bytes, carry: bytes): Conn
    requires s.queue != []
  {
    s.(queue := s.queue[1..], carry := carry, done := s.done + [Delivery(s.queue[0].req, data)])
  }

  /** The first waiter completes with what the cut says. */
  lemma PopKeeps(s: Conn, data: bytes, carry: bytes)
    requires Wf(s) && s.queue != [] && s.reading && |carry| <= s.size1
    requires Served(s.received, s.done, data + carry)
    requires Cut(data + carry, s.queue[0].req) == Some(|data|)
    ensures Inv(Pop(s, data, carry))
  {
    var s1 := Pop(s, data, carry);
    ServedAppend(s.received, s.done, data + carry, s.queue[0].req, |data|);
    assert (data + carry)[..|data|] == data && (data + carry)[|data|..] == carry;
    assert Pending(s1) == carry by {
      if s1.queue != [] {
        assert s1.queue[0].got == [];
      }
    }
  }

  lemma CompleteKeeps(s: Conn, data: bytes, carry: bytes, client: nat -> seq<Action>)
    requires Wf(s) && s.queue != [] && s.reading && |carry| <= s.size1
    requires Served(s.received, s.done, data + carry)
    requires Cut(data + carry, s.queue[0].req) == Some(|data|)
    requires !Complete(s, data, carry, client).scrambled
    ensures Inv(Complete(s, data, carry, client)) && !s.scrambled
    ensures Complete(s, data, carry, client).received == s.received
  {
    var s1 := Pop(s, data, carry);
    PopKeeps(s, data, carry);
    ActAllKeeps(s1, client(|s1.done|));
  }

  lemma {:induction false} CheckRemainingKeeps(s: Conn, client: nat -> seq<Action>)
    requires Inv(s) && !CheckRemaining(s, client).scrambled
    ensures Inv(CheckRemaining(s, client)) && Settled(CheckRemaining(s, client))
    decreases |Pending(s)|
  {
    if s.carry != [] && s.queue != [] {
      var w := s.queue[0];
      var p := Remaining(w, s.carry);
      RemainingCuts(w, s.carry);
      if p.finished {
        var t := Complete(s, p.waiter.got, p.carry, client);
        CompleteKeeps(s, p.waiter.got, p.carry, client);
        CheckRemainingKeeps(t, client);
      }
    }
  }

  /* ---------- a read ---------- */

  ghost predicate Good(s: Conn) {
    Inv(s) && (!s.fallback ==> Settled(s))
  }

  /** The CHECKs of the read callbacks. */
  predicate ReadOk(s: Conn, chunk: bytes) {
    && s.queue != []
    && 0 < |chunk| <= Window(s)
    && (s.queue[0].req.pattern == [] ==> s.carry == [])
  }

  /** In a good state the CHECKs hold of every read the event loop can make. */
  lemma ChecksHold(s: Conn, chunk: bytes)
    requires Good(s) && Enabled(s, Read(chunk))
    ensures ReadOk(s, chunk)
  {
  }

  /** A waiting task is always offered room, provided its pattern fits the carry buffer. */
  lemma WindowPositive(s: Conn)
    requires Good(s) && !s.fallback && s.queue != []
    requires |s.queue[0].req.pattern| <= if s.size1 == 0 then FIRST_SIZE1 else s.size1
    ensures Window(s) > 0
  {
  }

  lemma ReadKeeps(s: Conn, chunk: bytes, client: nat -> seq<Action>)
    requires Good(s) && !s.fallback && ReadOk(s, chunk)
    requires !ReadChunk(s, chunk, client).scrambled
    ensures Inv(ReadChunk(s, chunk, client)) && Settled(ReadChunk(s, chunk, client)) && !s.scrambled
  {
    if s.queue[0].req.pattern == [] {
      ReadFillKeeps(s, chunk, client);
    } else {
      ReadPatternKeeps(s, chunk, client);
    }
  }

  /** A fill-mode task reads into its own buffer; the bytes pending are exactly its own. */
  lemma FillPending(s: Conn, chunk: bytes)
    requires Good(s) && !s.fallback && ReadOk(s, chunk) && s.queue[0].req.pattern == []
    ensures var data := s.queue[0].got + chunk;
      Pending(s) + chunk == data && data + [] == data && Served(s.received + chunk, s.done, data)
  {
    ServedExtend(s.received, s.done, Pending(s), chunk);
    assert Pending(s) == s.queue[0].got;
  }

  lemma ReadFillKeeps(s: Conn, chunk: bytes, client: nat -> seq<Action>)
    requires Good(s) && !s.fallback && ReadOk(s, chunk) && s.queue[0].req.pattern == []
    requires !ReadChunk(s, chunk, client).scrambled
    ensures Inv(ReadChunk(s, chunk, client)) && Settled(ReadChunk(s, chunk, client)) && !s.scrambled
  {
    var w, t := s.queue[0], s.(received := s.received + chunk);
    var data := w.got + chunk;
    FillPending(s, chunk);
    if |chunk| == w.Left() {
      CompleteKeeps(t, data, [], client);
      CheckRemainingKeeps(Complete(t, data, [], client), client);
    } else {
      var u := t.(queue := t.queue[0 := w.(got := data)]);
      FillProgress(s, chunk);
      CheckRemainingKeeps(u, client);
    }
  }

  lemma FillProgress(s: Conn, chunk: bytes)
    requires Good(s) && !s.fallback && ReadOk(s, chunk) && s.queue[0].req.pattern == []
    requires |chunk| < s.queue[0].Left()
    ensures var w := s.queue[0];
      Inv(s.(received := s.received + chunk, queue := s.queue[0 := w.(got := w.got + chunk)]))
  {
    FillPending(s, chunk);
    var w := s.queue[0];
    var u := s.(received := s.received + chunk, queue := s.queue[0 := w.(got := w.got + chunk)]);
    assert Pending(u) == w.got + chunk;
  }

  /** The state of a pattern-mode read before the first waiter is tried. */
  function Grown(s: Conn, chunk: bytes): Conn {
    s.(received := s.received + chunk, carry := s.carry + chunk,
       size1 := if s.size1 == 0 then FIRST_SIZE1 else s.size1)
  }

  lemma GrownInv(s: Conn, chunk: bytes)
    requires Good(s) && !s.fallback && ReadOk(s, chunk) && s.queue[0].req.pattern != []
    ensures Inv(Grown(s, chunk))
  {
    var w := s.queue[0];
    ServedExtend(s.received, s.done, Pending(s), chunk);
    Regroup(w.got, s.carry, chunk);
    NoMatchExtends(Pending(s), chunk, w.req.pattern, |w.got|);
  }

  lemma ReadPatternKeeps(s: Conn, chunk: bytes, client: nat -> seq<Action>)
    requires Good(s) && !s.fallback && ReadOk(s, chunk) && s.queue[0].req.pattern != []
    requires !ReadChunk(s, chunk, client).scrambled
    ensures Inv(ReadChunk(s, chunk, client)) && Settled(ReadChunk(s, chunk, client)) && !s.scrambled
  {
    GrownInv(s, chunk);
    AfterRemaining(Grown(s, chunk), client);
  }

  /** A first waiter that could not finish keeps the invariant. */
  lemma TriedInv(u: Conn)
    requires Inv(u) && u.queue != [] && u.carry != [] && !Remaining(u.queue[0], u.carry).finished
    ensures var p := Remaining(u.queue[0], u.carry);
      Inv(u.(queue := u.queue[0 := p.waiter], carry := p.carry))
  {
    var p := Remaining(u.queue[0], u.carry);
    var t := u.(queue := u.queue[0 := p.waiter], carry := p.carry);
    RemainingCuts(u.queue[0], u.carry);
    assert Pending(t) == Pending(u);
  }

  /** After the carry has grown, trying the first waiter is the first round of `check_remaining`. */
  lemma AfterRemaining(u: Conn, client: nat -> seq<Action>)
    requires Inv(u) && u.queue != [] && u.carry != []
    ensures var p := Remaining(u.queue[0], u.carry);
      var t := if p.finished then Complete(u, p.waiter.got, p.carry, client)
               else u.(queue := u.queue[0 := p.waiter], carry := p.carry);
      Wf(t) && var r := CheckRemaining(t, client);
      (u.scrambled ==> r.scrambled) && (!r.scrambled ==> Inv(r) && Settled(r))
  {
    var p := Remaining(u.queue[0], u.carry);
    if p.finished {
      assert CheckRemaining(u, client) == CheckRemaining(Complete(u, p.waiter.got, p.carry, client), client);
      if !CheckRemaining(u, client).scrambled {
        CheckRemainingKeeps(u, client);
      }
    } else {
      var t := u.(queue := u.queue[0 := p.waiter], carry := p.carry);
      TriedInv(u);
      if !CheckRemaining(t, client).scrambled {
        CheckRemainingKeeps(t, client);
      }
    }
  }
}
