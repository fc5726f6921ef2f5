/**
 `recv_till` as a state machine over events: reads of arbitrary fragments, tasks that
 start or cancel receives (also from inside a callback), and the asynchronous
 fallback after a cancel. The specification it is proved to refine is `Serve`:
 the stream is cut once, request after request.
 */
module RecvTillSpec {
  import opened Streams
  import opened Matching

  /** A suspended `recv_till`: `got` is what lies between `buf` and `cur`. */
  datatype Waiter = Waiter(req: Request, got: bytes) {
    function Left(): int { req.cap - |got| }
  }

  datatype Delivery = Delivery(req: Request, data: bytes)

  /** What a running task does to the connection before it yields again. */
  datatype Action = Start(req: Request) | Cancel(index: nat)

  datatype Event =
    | Read(chunk: bytes)
    | Tasks(actions: seq<Action>)
    | Fallback

  /**
   `queue`, `carry` (`buf1[..len1]`), `size1` and `reading` are the connection's fields;
   `fallback` says that the cancel notification is under way. `received`, `done` and
   `scrambled` are history: `scrambled` records a cancel that had to put bytes back
   behind bytes that came later.
   */
  datatype Conn = Conn(
    queue: seq<Waiter>,
    carry: bytes,
    size1: nat,
    reading: bool,
    fallback: bool,
    done: seq<Delivery>,
    received: bytes,
    scrambled: bool)

  const INITIAL := Conn([], [], 0, false, false, [], [], false)
  const FIRST_SIZE1: nat := 1024

  /** The result of `remaining()` on a waiter and the carry buffer. */
  datatype Progress = Progress(finished: bool, waiter: Waiter, carry: bytes)

  function Take(w: Waiter, carry: bytes, n: nat, finished: bool): Progress
    requires n <= |carry|
  {
    Progress(finished, w.(got := w.got + carry[..n]), carry[n..])
  }

  function Remaining(w: Waiter, carry: bytes): Progress
    requires |w.got| < w.req.cap
  {
    var p, left := w.req.pattern, w.Left();
    if p == [] then
      if |carry| >= left then Take(w, carry, left, true) else Take(w, carry, |carry|, false)
    else if |carry| < |p| then
      Progress(false, w, carry)
    else
      match FindFrom(carry, p, 0)
      case Some(i) => Take(w, carry, Min(i + |p|, left), true)
      case None =>
        var copy := |carry| - |p| + 1;
        if copy >= left then Take(w, carry, left, true) else Take(w, carry, copy, false)
  }

  /* ---------- the specification ---------- */

  datatype Service = Service(parts: seq<bytes>, rest: bytes)

  /** Cut `stream` for one request after the other, as far as it goes. */
  function Serve(stream: bytes, reqs: seq<Request>): Service {
    if reqs == [] then Service([], stream)
    else match Cut(stream, reqs[0])
      case None => Service([], stream)
      case Some(k) =>
        var more := Serve(stream[k..], reqs[1..]);
        Service([stream[..k]] + more.parts, more.rest)
  }

  function Requests(ds: seq<Delivery>): seq<Request> { seq(|ds|, i requires 0 <= i < |ds| => ds[i].req) }
  function Parts(ds: seq<Delivery>): seq<bytes> { seq(|ds|, i requires 0 <= i < |ds| => ds[i].data) }
  function Waiting(ws: seq<Waiter>): seq<Request> { seq(|ws|, i requires 0 <= i < |ws| => ws[i].req) }

  /** Every request that was not cancelled, in the order in which it was made. */
  function Live(s: Conn): seq<Request> { Requests(s.done) + Waiting(s.queue) }

  /** The bytes received and not yet delivered, in stream order. */
  function Pending(s: Conn): bytes { (if s.queue == [] then [] else s.queue[0].got) + s.carry }

  /* ---------- the machine ---------- */

  /** Every waiter still has room, and only the first one has made progress. */
  ghost predicate Wf(s: Conn) {
    && (forall i :: 0 <= i < |s.queue| ==> |s.queue[i].got| < s.queue[i].req.cap)
    && (forall i :: 0 < i < |s.queue| ==> s.queue[i].got == [])
  }

  /** Tasks do not receive bytes, and never undo a misplaced cancel. */
  ghost predicate Keeps(s: Conn, s': Conn) {
    s'.received == s.received && (s.scrambled ==> s'.scrambled)
  }

  /** `recv_till::run`. */
  function StartTask(s: Conn, r: Request): (s': Conn)
    requires Wf(s)
    ensures Wf(s') && |Pending(s')| <= |Pending(s)| && Keeps(s, s')
  {
    if s.carry != [] && s.queue == [] then
      var p := Remaining(Waiter(r, []), s.carry);
      if p.finished then s.(carry := p.carry, done := s.done + [Delivery(r, p.waiter.got)])
      else s.(queue := [p.waiter], carry := p.carry, reading := true)
    else
      s.(queue := s.queue + [Waiter(r, [])], reading := true)
  }

  /** `recv_till::cancel` on the task at position `i`. */
  function CancelTask(s: Conn, i: nat): (s': Conn)
    requires Wf(s)
    ensures Wf(s') && |Pending(s')| <= |Pending(s)| && Keeps(s, s')
  {
    if i >= |s.queue| then s
    else
      var got := s.queue[i].got;
      s.(queue := s.queue[..i] + s.queue[i + 1..],
         carry := s.carry + got,
         size1 := if |got| > s.size1 - |s.carry| then s.size1 + |s.carry| + |got| else s.size1,
         fallback := true,
         scrambled := s.scrambled || (got != [] && s.carry != []))
  }

  function Act(s: Conn, a: Action): (s': Conn)
    requires Wf(s)
    ensures Wf(s') && |Pending(s')| <= |Pending(s)| && Keeps(s, s')
  {
    match a
    case Start(r) => StartTask(s, r)
    case Cancel(i) => CancelTask(s, i)
  }

  function ActAll(s: Conn, actions: seq<Action>): (s': Conn)
    requires Wf(s)
    ensures Wf(s') && |Pending(s')| <= |Pending(s)| && Keeps(s, s')
    decreases |actions|
  {
    if actions == [] then s else ActAll(Act(s, actions[0]), actions[1..])
  }

  /**
   The first waiter completes with `data` and its task runs on. `client` is the
   environment: what the resumed task does, by the number of completed receives.
   */
  function Complete(s: Conn, data: bytes, carry: bytes, client: nat -> seq<Action>): (s': Conn)
    requires Wf(s) && s.queue != []
    ensures Wf(s') && |Pending(s')| <= |carry| && Keeps(s, s')
  {
    var s1 := s.(queue := s.queue[1..], carry := carry, done := s.done + [Delivery(s.queue[0].req, data)]);
    ActAll(s1, client(|s1.done|))
  }

  /** `check_remaining`. */
  function CheckRemaining(s: Conn, client: nat -> seq<Action>): (s': Conn)
    requires Wf(s)
    ensures Wf(s') && Keeps(s, s')
    decreases |Pending(s)|
  {
    if s.carry != [] && s.queue != [] then
      var p := Remaining(s.queue[0], s.carry);
      if p.finished then CheckRemaining(Complete(s, p.waiter.got, p.carry, client), client)
      else StopIfIdle(s.(queue := s.queue[0 := p.waiter], carry := p.carry))
    else StopIfIdle(s)
  }

  /** The end of `check_remaining`: no receiver, no reading, no notification handle. */
  function StopIfIdle(s: Conn): Conn {
    if s.queue == [] then s.(reading := false, fallback := false) else s
  }

  /** The room `tcp_alloc_cb1` offers to the next read. */
  function Window(s: Conn): int
    requires s.queue != []
  {
    var w := s.queue[0];
    if w.req.pattern == [] then w.Left()
    else (if s.size1 == 0 then FIRST_SIZE1 else s.size1) - |s.carry|
  }

  /**
   When an event can happen: the loop reads only while reading is on, delivers at
   least one byte and no more than was offered, and handles the fallback first.
   */
  ghost predicate Enabled(s: Conn, e: Event) {
    match e
    case Read(chunk) =>
      s.reading && !s.fallback && (s.queue != [] ==> 0 < |chunk| <= Window(s))
    case Tasks(_) => true
    case Fallback => s.fallback
  }

  /**
   `tcp_alloc_cb1` and `tcp_recv_cb1`, with their CHECKs as preconditions: some task is
   waiting, and a fill-mode task is offered its own buffer only over an empty carry.
   */
  function ReadChunk(s: Conn, chunk: bytes, client: nat -> seq<Action>): (s': Conn)
    requires Wf(s) && s.queue != [] && 0 < |chunk| <= Window(s)
    requires s.queue[0].req.pattern == [] ==> s.carry == []
    ensures Wf(s') && Keeps(s.(received := s.received + chunk), s')
  {
    var w, t := s.queue[0], s.(received := s.received + chunk);
    if w.req.pattern == [] then
      if |chunk| == w.Left() then CheckRemaining(Complete(t, w.got + chunk, [], client), client)
      else CheckRemaining(t.(queue := t.queue[0 := w.(got := w.got + chunk)]), client)
    else
      var u := t.(carry := s.carry + chunk, size1 := if s.size1 == 0 then FIRST_SIZE1 else s.size1);
      var p := Remaining(w, u.carry);
      if p.finished then CheckRemaining(Complete(u, p.waiter.got, p.carry, client), client)
      else CheckRemaining(u.(queue := u.queue[0 := p.waiter], carry := p.carry), client)
  }
}
