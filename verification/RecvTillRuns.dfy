/** The main results on `recv_till`: statements over every run of events and tasks. */
module RecvTillRuns {
  import opened Streams
  import opened Matching
  import opened RecvTillSpec
  import opened RecvTillProof

  type Client = nat -> seq<Action>

  /** One event; `None` stands for a CHECK that aborts the program. */
  function Step(s: Conn, e: Event, client: Client): (r: Option<Conn>)
    requires Wf(s)
    ensures r.Some? ==> Wf(r.value)
  {
    match e
    case Read(chunk) => if ReadOk(s, chunk) then Some(ReadChunk(s, chunk, client)) else None
    case Tasks(actions) => Some(ActAll(s, actions))
    case Fallback => Some(CheckRemaining(s.(fallback := false), client))
  }

  function Exec(s: Conn, es: seq<Event>, client: Client): (r: Option<Conn>)
    requires Wf(s)
    ensures r.Some? ==> Wf(r.value)
    decreases |es|
  {
    if es == [] then Some(s)
    else match Step(s, es[0], client)
      case None => None
      case Some(t) => Exec(t, es[1..], client)
  }

  /** Every event of the run can happen when it does. */
  ghost predicate Legal(s: Conn, es: seq<Event>, client: Client)
    requires Wf(s)
    decreases |es|
  {
    es == [] ||
    (Enabled(s, es[0]) && match Step(s, es[0], client)
                          case None => true
                          case Some(t) => Legal(t, es[1..], client))
  }

  /** No cancel of the run put bytes back behind later ones. */
  ghost predicate Clean(s: Conn, es: seq<Event>, client: Client)
    requires Wf(s)
    decreases |es|
  {
    !s.scrambled &&
    (es == [] || match Step(s, es[0], client)
                 case None => true
                 case Some(t) => Clean(t, es[1..], client))
  }

  /** The bytes that the reads of a run bring in. */
  function Chunks(es: seq<Event>): bytes {
    if es == [] then []
    else Chunk(es[0]) + Chunks(es[1..])
  }

  function Chunk(e: Event): bytes { if e.Read? then e.chunk else [] }

  lemma StepGood(s: Conn, e: Event, client: Client)
    requires Good(s) && Enabled(s, e) && !s.scrambled
    ensures var r := Step(s, e, client);
      && r.Some?
      && (!r.value.scrambled ==> Good(r.value))
      && r.value.received == s.received + Chunk(e)
  {
    match e {
      case Read(chunk) =>
        ChecksHold(s, chunk);
        if !ReadChunk(s, chunk, client).scrambled {
          ReadKeeps(s, chunk, client);
        }
      case Tasks(actions) =>
        if !ActAll(s, actions).scrambled {
          ActAllGood(s, actions);
        }
      case Fallback =>
        var t := s.(fallback := false);
        if !CheckRemaining(t, client).scrambled {
          CheckRemainingKeeps(t, client);
        }
    }
  }

  lemma ActGood(s: Conn, a: Action)
    requires Good(s) && !Act(s, a).scrambled
    ensures Good(Act(s, a))
  {
    match a {
      case Start(r) =>
        StartKeeps(s, r);
        if s.carry != [] && s.queue == [] {
          RemainingCuts(Waiter(r, []), s.carry);
        }
      case Cancel(i) =>
        CancelKeeps(s, i);
    }
  }

  /** Between events tasks may start receives freely; a cancel defers settling to the fallback. */
  lemma {:induction false} ActAllGood(s: Conn, actions: seq<Action>)
    requires Good(s) && !ActAll(s, actions).scrambled
    ensures Good(ActAll(s, actions))
    decreases |actions|
  {
    if actions != [] {
      ActGood(s, actions[0]);
      ActAllGood(Act(s, actions[0]), actions[1..]);
    }
  }

  /**
   MAIN RESULT. In every run that starts fresh and keeps the fallback before the next
   read, no CHECK fails, and whenever no fallback is outstanding the deliveries and the
   bytes still held are exactly `Serve` of all bytes received for all requests made and
   not cancelled, in the order they were made. The fragments, the interleaving and the
   behaviour of resumed tasks leave no other trace.
   */
  lemma RunRefinesServe(es: seq<Event>, client: Client)
    requires Legal(INITIAL, es, client) && Clean(INITIAL, es, client)
    ensures var r := Exec(INITIAL, es, client);
      && r.Some? && Good(r.value)
      && r.value.received == Chunks(es)
      && (!r.value.fallback ==>
            Serve(Chunks(es), Live(r.value)) == Service(Parts(r.value.done), Pending(r.value)))
  {
    assert Served([], [], []);
    RunGood(INITIAL, es, client);
    var s := Exec(INITIAL, es, client).value;
    assert [] + Chunks(es) == Chunks(es);
    if !s.fallback {
      SettledServes(s);
    }
  }

  lemma {:induction false} RunGood(s: Conn, es: seq<Event>, client: Client)
    requires Good(s) && Legal(s, es, client) && Clean(s, es, client)
    ensures var r := Exec(s, es, client);
      r.Some? && Good(r.value) && r.value.received == s.received + Chunks(es)
    decreases |es|
  {
    if es == [] {
      assert s.received + [] == s.received;
    } else {
      StepGood(s, es[0], client);
      var t := Step(s, es[0], client).value;
      RunGood(t, es[1..], client);
      Regroup(s.received, Chunk(es[0]), Chunks(es[1..]));
    }
  }

  lemma ServeFirst(stream: bytes, reqs: seq<Request>)
    requires Serve(stream, reqs).parts != []
    ensures reqs != [] && Cut(stream, reqs[0]).Some?
    ensures var k := Cut(stream, reqs[0]).value;
      var more := Serve(stream[k..], reqs[1..]);
      Serve(stream, reqs) == Service([stream[..k]] + more.parts, more.rest)
  {
  }

  /** The specification of what is behind the first `n` receives. */
  ghost predicate ServesFrom(stream: bytes, reqs: seq<Request>, s: Service, n: nat) {
    && n <= |s.parts| && n <= |reqs|
    && var before := |Flatten(s.parts[..n])|;
       before <= |stream| && Serve(stream[before..], reqs[n..]) == Service(s.parts[n..], s.rest)
  }

  lemma OneMoreBefore(stream: bytes, reqs: seq<Request>, k: nat, more: Service, n: nat)
    requires reqs != [] && k <= |stream| && ServesFrom(stream[k..], reqs[1..], more, n)
    ensures ServesFrom(stream, reqs, Service([stream[..k]] + more.parts, more.rest), n + 1)
  {
    PartsShift(stream[..k], more.parts, n + 1);
    DropDrop(stream, k, |Flatten(more.parts[..n])|);
    assert reqs[1..][n..] == reqs[n + 1..];
  }

  /** The specification without its first `n` receives is that of the stream behind what they took. */
  lemma {:induction false} ServeFrom(stream: bytes, reqs: seq<Request>, n: nat)
    requires n <= |Serve(stream, reqs).parts|
    ensures ServesFrom(stream, reqs, Serve(stream, reqs), n)
    decreases n
  {
    if n == 0 {
      NoneBefore(stream, reqs, Serve(stream, reqs).parts);
    } else {
      ServeFirst(stream, reqs);
      var k := Cut(stream, reqs[0]).value;
      ServeFrom(stream[k..], reqs[1..], n - 1);
      OneMoreBefore(stream, reqs, k, Serve(stream[k..], reqs[1..]), n - 1);
    }
  }

  lemma NoneBefore(stream: bytes, reqs: seq<Request>, parts: seq<bytes>)
    ensures Flatten(parts[..0]) == [] && stream[0..] == stream && reqs[0..] == reqs && parts[0..] == parts
  {
  }

  lemma PartsShift(part: bytes, parts: seq<bytes>, n: nat)
    requires 0 < n <= 1 + |parts|
    ensures Flatten(([part] + parts)[..n]) == part + Flatten(parts[..n - 1])
    ensures ([part] + parts)[n..] == parts[n - 1..]
  {
    assert ([part] + parts)[..n] == [part] + parts[..n - 1];
  }

  /** In a settled state nothing more can be served. */
  lemma SettledServes(s: Conn)
    requires Inv(s) && Settled(s)
    ensures Serve(s.received, Live(s)) == Service(Parts(s.done), Pending(s))
  {
    ServeAfter(s.received, s.done, Pending(s), Waiting(s.queue));
    if s.queue != [] {
      var w := s.queue[0];
      BlockedUndecided(w, s.carry);
      assert Waiting(s.queue)[0] == w.req;
    }
    assert Serve(Pending(s), Waiting(s.queue)) == Service([], Pending(s));
    assert Parts(s.done) + [] == Parts(s.done);
  }

  lemma BlockedUndecided(w: Waiter, carry: bytes)
    requires WaiterOk(w, carry) && Blocked(w, carry)
    ensures Cut(w.got + carry, w.req).None?
  {
    var p := w.req.pattern;
    if p == [] {
    } else {
      FindShift(w.got, carry, p);
      assert FindFrom(carry, p, 0).None?;
    }
  }

  /**
   Fragmentation does not show: two runs that received the same bytes and were asked
   for the same receives have delivered the same, and hold the same bytes back.
   */
  lemma FragmentationInvisible(es: seq<Event>, client: Client, es': seq<Event>, client': Client)
    requires Legal(INITIAL, es, client) && Clean(INITIAL, es, client)
    requires Legal(INITIAL, es', client') && Clean(INITIAL, es', client')
    requires Chunks(es) == Chunks(es')
    ensures Exec(INITIAL, es, client).Some? && Exec(INITIAL, es', client').Some?
    ensures var s, s' := Exec(INITIAL, es, client).value, Exec(INITIAL, es', client').value;
      !s.fallback && !s'.fallback && Live(s) == Live(s') ==>
        Parts(s.done) == Parts(s'.done) && Pending(s) == Pending(s')
  {
    RunRefinesServe(es, client);
    RunRefinesServe(es', client');
  }

  /** Conservation: deliveries, then the head's partial bytes, then the carry, are all bytes received. */
  lemma Conservation(es: seq<Event>, client: Client)
    requires Legal(INITIAL, es, client) && Clean(INITIAL, es, client)
    ensures var r := Exec(INITIAL, es, client);
      r.Some? && Chunks(es) == Flatten(Parts(r.value.done)) + Pending(r.value)
  {
    RunRefinesServe(es, client);
    var s := Exec(INITIAL, es, client).value;
    ServedConserves(s.received, s.done, Pending(s));
  }

  /**
   What one delivery is, on the whole stream with whatever arrives later: from where
   the task took over, the bytes up to the end of the first occurrence of its pattern,
   or as many as its buffer takes, whichever is less.
   */
  ghost predicate DeliveredFrom(stream: bytes, d: Delivery) {
    && d.data <= stream
    && (d.req.pattern == [] ==> |d.data| == d.req.cap)
    && (d.req.pattern != [] ==>
          match FindFrom(stream, d.req.pattern, 0)
          case Some(e) => |d.data| == Min(e + |d.req.pattern|, d.req.cap)
          case None => |d.data| == d.req.cap)
  }

  lemma EachDelivery(es: seq<Event>, client: Client, future: bytes, i: nat)
    requires Legal(INITIAL, es, client) && Clean(INITIAL, es, client)
    requires Exec(INITIAL, es, client).Some? && i < |Exec(INITIAL, es, client).value.done|
    ensures var done := Exec(INITIAL, es, client).value.done;
      var before := |Flatten(Parts(done)[..i])|;
      before <= |Chunks(es) + future| && DeliveredFrom((Chunks(es) + future)[before..], done[i])
  {
    RunRefinesServe(es, client);
    var s := Exec(INITIAL, es, client).value;
    ServedDelivers(s.received, s.done, Pending(s), future, i);
  }

  /** The data of a delivery end with its pattern; the code reports success either way. */
  ghost predicate Found(d: Delivery) { EndsWith(d.data, d.req.pattern) }

  lemma FoundWhenFits(stream: bytes, d: Delivery)
    requires DeliveredFrom(stream, d) && d.req.pattern != []
    ensures Found(d) <==> FirstFits(stream, d.req)
  {
    var p, k := d.req.pattern, |d.data|;
    assert d.data == stream[..k];
    if |p| <= k {
      assert d.data[k - |p|..] == stream[k - |p|..k];
      assert Found(d) <==> MatchAt(stream, p, k - |p|);
    }
  }

  /**
   MAIN RESULT. When a success means that the pattern was found: the i-th delivery ends with
   its pattern if and only if the first occurrence from where the task took over ends
   within its buffer.
   */
  lemma FoundExactlyWhenFits(es: seq<Event>, client: Client, future: bytes, i: nat)
    requires Legal(INITIAL, es, client) && Clean(INITIAL, es, client)
    requires Exec(INITIAL, es, client).Some? && i < |Exec(INITIAL, es, client).value.done|
    requires Exec(INITIAL, es, client).value.done[i].req.pattern != []
    ensures var done := Exec(INITIAL, es, client).value.done;
      var before := |Flatten(Parts(done)[..i])|;
      before <= |Chunks(es) + future| && (Found(done[i]) <==> FirstFits((Chunks(es) + future)[before..], done[i].req))
  {
    EachDelivery(es, client, future, i);
    var done := Exec(INITIAL, es, client).value.done;
    FoundWhenFits((Chunks(es) + future)[|Flatten(Parts(done)[..i])|..], done[i]);
  }

  lemma DropDrop(s: bytes, a: nat, b: nat)
    requires a + b <= |s|
    ensures s[a..][b..] == s[a + b..]
  {
  }

  lemma DropAppend(s: bytes, t: bytes, n: nat)
    requires n <= |s|
    ensures (s + t)[n..] == s[n..] + t
  {
  }

  lemma BeforeStep(done: seq<Delivery>, i: nat)
    requires 0 < i < |done|
    ensures |Flatten(Parts(done)[..i])| == |done[0].data| + |Flatten(Parts(done[1..])[..i - 1])|
  {
    assert Parts(done)[..i][1..] == Parts(done[1..])[..i - 1];
  }

  lemma FirstDelivered(stream: bytes, d: Delivery, future: bytes)
    requires Cut(stream, d.req) == Some(|d.data|) && d.data == stream[..|d.data|]
    ensures DeliveredFrom(stream + future, d)
  {
    CutMeaning(stream, future, d.req);
  }

  lemma {:induction false} ServedDelivers(stream: bytes, done: seq<Delivery>, rest: bytes, future: bytes, i: nat)
    requires Served(stream, done, rest) && i < |done|
    ensures var before := |Flatten(Parts(done)[..i])|;
      before <= |stream + future| && DeliveredFrom((stream + future)[before..], done[i])
  {
    if i == 0 {
      FirstDelivered(stream, done[0], future);
      assert Parts(done)[..0] == [] && Flatten([]) == [];
      DropDrop(stream + future, 0, 0);
      assert (stream + future)[0..] == stream + future;
    } else {
      var n := |done[0].data|;
      var b := |Flatten(Parts(done[1..])[..i - 1])|;
      ServedDelivers(stream[n..], done[1..], rest, future, i - 1);
      BeforeStep(done, i);
      assert n + b <= |stream + future| && (stream[n..] + future)[b..] == (stream + future)[n + b..] by {
        DropAppend(stream, future, n);
        DropDrop(stream + future, n, b);
      }
    }
  }
}
