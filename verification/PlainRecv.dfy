/**
 Plain `recv` of TCP and UDP (`tcp_alloc_cb0`, `tcp_recv_cb0`, `recv::run`, `recv::cancel`
 and their UDP twins): a queue of receivers, and reading that is switched on and off
 with it, also by what the task just woken does.
 */
module PlainRecv {
  import opened Streams

  /** A waiting task with the length of its buffer; without one it reads from the shared `routing_buf`. */
  datatype Receiver = Receiver(id: nat, room: Option<nat>)

  const ROUTING_SIZE: nat := 65536

  /** What is offered to the read. */
  function Offered(r: Receiver): nat { if r.room.None? || r.room.value == 0 then ROUTING_SIZE else r.room.value }

  /** What a task got: the bytes of one read. */
  datatype Delivery = Delivery(id: nat, data: bytes)

  datatype Action = Start(receiver: Receiver) | Cancel(index: nat)

  /** `Read([])` is a read callback without data. */
  datatype Event = Read(data: bytes) | Tasks(actions: seq<Action>)

  /** What a woken task does before it yields again, by the number of deliveries so far. */
  type Client = nat -> seq<Action>

  /** `on` says that the loop reads; `receiving` is the socket's own idea of it. */
  datatype State = State(queue: seq<Receiver>, receiving: bool, on: bool, log: seq<Delivery>)

  const INITIAL := State([], false, false, [])

  /** The socket's idea is right, and it reads just when somebody waits. */
  ghost predicate Settled(s: State) { s.on == s.receiving == (s.queue != []) }

  /** Inside a callback reading may still be on for a receiver that has been served. */
  ghost predicate Coherent(s: State) { s.on == s.receiving && (s.queue != [] ==> s.on) }

  /** `None` is a CHECK that fails: reading is switched on while it is on. */
  function Begin(s: State, r: Receiver): Option<State> {
    if s.receiving then Some(s.(queue := s.queue + [r]))
    else if s.on then None
    else Some(s.(queue := s.queue + [r], receiving := true, on := true))
  }

  function CancelAt(s: State, i: nat): State {
    if i >= |s.queue| then s
    else
      var rest := s.queue[..i] + s.queue[i + 1..];
      if s.receiving && rest == [] then s.(queue := rest, receiving := false, on := false)
      else s.(queue := rest)
  }

  function Act(s: State, a: Action): Option<State> {
    match a
    case Start(r) => Begin(s, r)
    case Cancel(i) => Some(CancelAt(s, i))
  }

  function ActAll(s: State, actions: seq<Action>): Option<State>
    decreases |actions|
  {
    if actions == [] then Some(s)
    else match Act(s, actions[0])
      case None => None
      case Some(t) => ActAll(t, actions[1..])
  }

  /** The two callbacks of one read: `None` when the allocation finds nobody. */
  function ReadStep(s: State, data: bytes, client: Client): Option<State> {
    if s.queue == [] then None
    else if data == [] then Some(s)
    else
      var t := s.(queue := s.queue[1..], log := s.log + [Delivery(s.queue[0].id, data)]);
      match ActAll(t, client(|t.log|))
      case None => None
      case Some(u) => if u.queue == [] then Some(u.(receiving := false, on := false)) else Some(u)
  }

  function Step(s: State, e: Event, client: Client): Option<State> {
    match e
    case Read(data) => ReadStep(s, data, client)
    case Tasks(actions) => ActAll(s, actions)
  }

  /** The loop reads only while reading is on, and no more than it was offered. */
  predicate Enabled(s: State, e: Event) {
    e.Read? ==> s.on && (s.queue != [] ==> |e.data| <= Offered(s.queue[0]))
  }

  function Exec(s: State, es: seq<Event>, client: Client): Option<State>
    decreases |es|
  {
    if es == [] then Some(s)
    else match Step(s, es[0], client)
      case None => None
      case Some(t) => Exec(t, es[1..], client)
  }

  ghost predicate Legal(s: State, es: seq<Event>, client: Client)
    decreases |es|
  {
    es == [] || (Enabled(s, es[0]) && match Step(s, es[0], client)
                                      case None => true
                                      case Some(t) => Legal(t, es[1..], client))
  }

  lemma {:induction false} ActAllCoherent(s: State, actions: seq<Action>)
    requires Coherent(s)
    ensures ActAll(s, actions).Some? && Coherent(ActAll(s, actions).value) && ActAll(s, actions).value.log == s.log
    ensures Settled(s) ==> Settled(ActAll(s, actions).value)
    decreases |actions|
  {
    if actions != [] {
      ActAllCoherent(Act(s, actions[0]).value, actions[1..]);
    }
  }

  /**
   MAIN RESULT. In every run, whatever woken tasks start and cancel inside the callback: no
   CHECK fails, and between events reading is on if and only if somebody waits.
   */
  lemma {:induction false} ReadingWhenNeeded(s: State, es: seq<Event>, client: Client)
    requires Settled(s) && Legal(s, es, client)
    ensures Exec(s, es, client).Some? && Settled(Exec(s, es, client).value)
    decreases |es|
  {
    if es != [] {
      match es[0] {
        case Tasks(actions) => ActAllCoherent(s, actions);
        case Read(data) =>
          var t := s.(queue := s.queue[1..], log := s.log + [Delivery(s.queue[0].id, data)]);
          ActAllCoherent(t, client(|t.log|));
      }
      ReadingWhenNeeded(Step(s, es[0], client).value, es[1..], client);
    }
  }

  /** The bytes of a run's reads, one entry for each read that brings any. */
  function Reads(es: seq<Event>): seq<bytes> {
    if es == [] then []
    else (if es[0].Read? && es[0].data != [] then [es[0].data] else []) + Reads(es[1..])
  }

  function Data(log: seq<Delivery>): seq<bytes> { seq(|log|, i requires 0 <= i < |log| => log[i].data) }

  /** MAIN RESULT. Every read that brings bytes is delivered, whole, once, and in order. */
  lemma {:induction false} EveryReadDelivered(s: State, es: seq<Event>, client: Client)
    requires Settled(s) && Legal(s, es, client)
    ensures Exec(s, es, client).Some?
    ensures Data(Exec(s, es, client).value.log) == Data(s.log) + Reads(es)
    decreases |es|
  {
    if es != [] {
      var e := es[0];
      ReadingWhenNeeded(s, [e], client);
      var t := Step(s, e, client).value;
      EveryReadDelivered(t, es[1..], client);
      match e {
        case Tasks(actions) => ActAllCoherent(s, actions);
        case Read(data) =>
          var u := s.(queue := s.queue[1..], log := s.log + [Delivery(s.queue[0].id, data)]);
          ActAllCoherent(u, client(|u.log|));
          assert data != [] ==> Data(t.log) == Data(s.log) + [data];
      }
    }
  }

  /* ---------- who is served ---------- */

  /** The receivers that a list of actions starts. */
  function Started(actions: seq<Action>): seq<nat> {
    if actions == [] then [] else (if actions[0].Start? then [actions[0].receiver.id] else []) + Started(actions[1..])
  }

  function Ids(rs: seq<Receiver>): seq<nat> { seq(|rs|, i requires 0 <= i < |rs| => rs[i].id) }

  function Served(log: seq<Delivery>): seq<nat> { seq(|log|, i requires 0 <= i < |log| => log[i].id) }

  /** Everybody who began to wait, in that order: those served, then those who wait. */
  function Line(s: State): seq<nat> { Served(s.log) + Ids(s.queue) }

  ghost predicate NoCancel(actions: seq<Action>) { forall a | a in actions :: a.Start? }

  lemma StartLine(s: State, r: Receiver)
    requires Coherent(s)
    ensures Line(Begin(s, r).value) == Line(s) + [r.id]
  {
    assert Ids(s.queue + [r]) == Ids(s.queue) + [r.id];
  }

  lemma {:induction false} ActAllLine(s: State, actions: seq<Action>)
    requires Coherent(s) && NoCancel(actions)
    ensures ActAll(s, actions).Some? && Line(ActAll(s, actions).value) == Line(s) + Started(actions)
    decreases |actions|
  {
    if actions != [] {
      var a := actions[0];
      assert a in actions && NoCancel(actions[1..]);
      StartLine(s, a.receiver);
      ActAllLine(Act(s, a).value, actions[1..]);
      Regroup(Line(s), [a.receiver.id], Started(actions[1..]));
    }
  }

  /** Everybody that one event starts, with what the task it wakes starts in turn. */
  function StartedBy(s: State, e: Event, client: Client): seq<nat> {
    match e
    case Tasks(actions) => Started(actions)
    case Read(data) => if data == [] then [] else Started(client(|s.log| + 1))
  }

  function AllStarted(s: State, es: seq<Event>, client: Client): seq<nat>
    decreases |es|
  {
    if es == [] then []
    else StartedBy(s, es[0], client) + match Step(s, es[0], client)
                                       case None => []
                                       case Some(t) => AllStarted(t, es[1..], client)
  }

  lemma StepLine(s: State, e: Event, client: Client)
    requires Settled(s) && Enabled(s, e)
    requires (e.Tasks? ==> NoCancel(e.actions)) && NoCancel(client(|s.log| + 1))
    ensures Step(s, e, client).Some? && Settled(Step(s, e, client).value)
    ensures Line(Step(s, e, client).value) == Line(s) + StartedBy(s, e, client)
  {
    match e {
      case Tasks(actions) =>
        ActAllLine(s, actions);
        ActAllCoherent(s, actions);
      case Read(data) =>
        if data != [] {
          var u := s.(queue := s.queue[1..], log := s.log + [Delivery(s.queue[0].id, data)]);
          PoppedLine(s, data);
          ActAllLine(u, client(|s.log| + 1));
          ActAllCoherent(u, client(|s.log| + 1));
        }
    }
  }

  /** MAIN RESULT. Without cancels receivers are served strictly in the order in which they began to wait. */
  lemma {:induction false} ServedInOrder(s: State, es: seq<Event>, client: Client)
    requires Settled(s) && Legal(s, es, client)
    requires forall e | e in es && e.Tasks? :: NoCancel(e.actions)
    requires forall n :: NoCancel(client(n))
    ensures Exec(s, es, client).Some?
    ensures Line(Exec(s, es, client).value) == Line(s) + AllStarted(s, es, client)
    decreases |es|
  {
    if es != [] {
      assert es[0] in es;
      StepLine(s, es[0], client);
      var t := Step(s, es[0], client).value;
      ServedInOrder(t, es[1..], client);
      Regroup(Line(s), StartedBy(s, es[0], client), AllStarted(t, es[1..], client));
    }
  }

  /* ---------- one list ---------- */

  /**
   The whole socket as one list of everybody who began to wait and was not cancelled: the
   first `served` of them have got their reads.
   */
  datatype Order = Order(line: seq<nat>, served: nat)

  function OrderOf(s: State): Order { Order(Line(s), |s.log|) }

  /** A start joins the end; a cancel of the `i`-th who waits takes out just that one. */
  function Acted(o: Order, a: Action): Order {
    match a
    case Start(r) => o.(line := o.line + [r.id])
    case Cancel(i) =>
      var at := o.served + i;
      if at < |o.line| then o.(line := o.line[..at] + o.line[at + 1..]) else o
  }

  function ActedAll(o: Order, actions: seq<Action>): Order
    decreases |actions|
  {
    if actions == [] then o else ActedAll(Acted(o, actions[0]), actions[1..])
  }

  /** A read that brings bytes serves the next one, whatever is in the queue. */
  function Ordered(o: Order, es: seq<Event>, client: Client): Order
    decreases |es|
  {
    if es == [] then o
    else
      match es[0]
      case Tasks(actions) => Ordered(ActedAll(o, actions), es[1..], client)
      case Read(data) =>
        if data == [] then Ordered(o, es[1..], client)
        else Ordered(ActedAll(o.(served := o.served + 1), client(o.served + 1)), es[1..], client)
  }

  lemma ActOrder(s: State, a: Action)
    requires Coherent(s)
    ensures Act(s, a).Some? && Coherent(Act(s, a).value) && OrderOf(Act(s, a).value) == Acted(OrderOf(s), a)
  {
    match a {
      case Start(r) => StartLine(s, r);
      case Cancel(i) =>
        var ids := Ids(s.queue);
        if i < |s.queue| {
          assert Ids(s.queue[..i] + s.queue[i + 1..]) == ids[..i] + ids[i + 1..];
          TakeOut(Served(s.log), ids, i);
        }
    }
  }

  lemma TakeOut(a: seq<nat>, b: seq<nat>, i: nat)
    requires i < |b|
    ensures a + (b[..i] + b[i + 1..]) == (a + b)[..|a| + i] + (a + b)[|a| + i + 1..]
  {
  }

  lemma {:induction false} ActAllOrder(s: State, actions: seq<Action>)
    requires Coherent(s)
    ensures ActAll(s, actions).Some? && OrderOf(ActAll(s, actions).value) == ActedAll(OrderOf(s), actions)
    decreases |actions|
  {
    if actions != [] {
      ActOrder(s, actions[0]);
      ActAllOrder(Act(s, actions[0]).value, actions[1..]);
    }
  }

  lemma StepOrder(s: State, e: Event, client: Client)
    requires Settled(s) && Enabled(s, e)
    ensures Step(s, e, client).Some? && Settled(Step(s, e, client).value)
    ensures OrderOf(Step(s, e, client).value) == Ordered(OrderOf(s), [e], client)
  {
    match e {
      case Tasks(actions) =>
        ActAllOrder(s, actions);
        ActAllCoherent(s, actions);
      case Read(data) =>
        if data != [] {
          var u := s.(queue := s.queue[1..], log := s.log + [Delivery(s.queue[0].id, data)]);
          PoppedLine(s, data);
          ActAllOrder(u, client(|s.log| + 1));
          ActAllCoherent(u, client(|s.log| + 1));
        }
    }
  }

  lemma OrderedStep(o: Order, e: Event, es: seq<Event>, client: Client)
    ensures Ordered(o, [e] + es, client) == Ordered(Ordered(o, [e], client), es, client)
  {
    assert ([e] + es)[1..] == es && [e][1..] == [];
  }

  /**
   MAIN RESULT. With cancels and whatever woken tasks do: who has been served, in order, and
   who waits are one list, into which starts go at the end and out of which a cancel takes
   just the receiver it names. Reads only move the border.
   */
  lemma {:induction false} OneList(s: State, es: seq<Event>, client: Client)
    requires Settled(s) && Legal(s, es, client)
    ensures Exec(s, es, client).Some?
    ensures OrderOf(Exec(s, es, client).value) == Ordered(OrderOf(s), es, client)
    decreases |es|
  {
    if es != [] {
      StepOrder(s, es[0], client);
      assert es == [es[0]] + es[1..];
      OrderedStep(OrderOf(s), es[0], es[1..], client);
      OneList(Step(s, es[0], client).value, es[1..], client);
    }
  }

  lemma PoppedLine(s: State, data: bytes)
    requires s.queue != []
    ensures Line(s.(queue := s.queue[1..], log := s.log + [Delivery(s.queue[0].id, data)])) == Line(s)
  {
    var d := Delivery(s.queue[0].id, data);
    assert Served(s.log + [d]) == Served(s.log) + [d.id];
    assert Ids(s.queue) == [d.id] + Ids(s.queue[1..]);
  }

  /* ---------- the socket ---------- */

  /** The receiving half of a connection or a bound UDP socket, with the loop's switch. */
  class Socket {
    var queue: seq<Receiver>
    var curAlloc: Option<Receiver>
    var receiving: bool
    var on: bool
    var log: seq<Delivery>

    ghost function Model(): State
      reads this
    {
      State(queue, receiving, on, log)
    }

    /** What holds whenever a task runs. */
    ghost predicate Valid()
      reads this
    {
      Coherent(Model()) && curAlloc.None?
    }

    constructor ()
      ensures Valid() && Model() == INITIAL
    {
      queue, curAlloc, receiving, on, log := [], None, false, false, [];
    }

    /** `recv::run`. */
    method Run(r: Receiver)
      requires Valid()
      modifies this
      ensures Valid() && Some(Model()) == Begin(old(Model()), r)
    {
      if !receiving {
        receiving := true;
        on := true;
      }
      queue := queue + [r];
    }

    /** `recv::cancel`. */
    method Cancel(i: nat)
      requires Valid()
      modifies this
      ensures Valid() && Model() == CancelAt(old(Model()), i)
    {
      if i < |queue| {
        queue := queue[..i] + queue[i + 1..];
        if receiving && queue == [] {
          on := false;
          receiving := false;
        }
      }
    }

    /** A task runs until it yields. */
    method Perform(actions: seq<Action>)
      requires Valid()
      modifies this
      ensures Valid() && Some(Model()) == ActAll(old(Model()), actions)
    {
      var rest := actions;
      while rest != []
        invariant Valid() && ActAll(Model(), rest) == ActAll(old(Model()), actions)
        decreases |rest|
      {
        match rest[0] {
          case Start(r) => Run(r);
          case Cancel(i) => Cancel(i);
        }
        rest := rest[1..];
      }
    }

    /**
     `alloc_cb0`: the first receiver lends its buffer, all of it, and the loop may read just as
     much; without one it is the buffer that UDP sockets share.
     */
    method Alloc() returns (room: nat)
      requires Settled(Model()) && on && curAlloc.None?
      modifies this
      ensures old(queue) != [] && curAlloc == Some(old(queue)[0]) && queue == old(queue)[1..]
      ensures room == match old(queue)[0].room
                      case None => 65536
                      case Some(n) => if n == 0 then 65536 else n
      ensures forall data: bytes :: Enabled(old(Model()), Event.Read(data)) <==> |data| <= room
      ensures receiving == old(receiving) && on == old(on) && log == old(log)
    {
      curAlloc := Some(queue[0]);
      room := Offered(queue[0]);
      queue := queue[1..];
    }

    /** `alloc_cb0` and `recv_cb0` with `data`. */
    method Read(data: bytes, client: Client)
      requires Settled(Model()) && on && curAlloc.None?
      modifies this
      ensures Settled(Model()) && curAlloc.None? && Some(Model()) == ReadStep(old(Model()), data, client)
    {
      ghost var before := Model();
      var room := Alloc();
      var target := curAlloc.value;
      curAlloc := None;
      if data == [] {
        queue := [target] + queue;
        assert queue == before.queue;
        return;
      }
      log := log + [Delivery(target.id, data)];
      ghost var woken := Model();
      Perform(client(|log|));
      ActAllCoherent(woken, client(|woken.log|));
      if queue == [] {
        on := false;
        receiving := false;
      }
    }
  }
}
