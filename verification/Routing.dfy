/**
 Where a packet goes (`tcp_recv_cb2`, `udp_recv_cb1` and `seqer_wrapper`, which route
 alike): to the task that waits for its sequence number, else to the oldest plain
 receiver, else to one of the two counters.
 */
module Routing {
  import opened Streams

  /** A sequence number; the template takes any ordered type. */
  type Key = nat

  /** A waiting task; `room` is the caller's buffer length, or `None` for the internal buffer. */
  datatype Waiter = Waiter(id: nat, room: Option<nat>)

  /** A waiter for one sequence number. */
  datatype Entry = Entry(key: Key, waiter: Waiter)

  /** What became of one packet. */
  datatype Outcome =
    | BySeq(id: nat, data: bytes, len: nat)
    | Plain(id: nat, data: bytes, len: nat)
    | Unrecv
    | Failed

  /** What the task sees: as much of the packet as its buffer takes, or the length alone. */
  function Seen(w: Waiter, packet: bytes): (bytes, nat) {
    match w.room
    case None => ([], |packet|)
    case Some(n) => (packet[..Min(n, |packet|)], Min(n, |packet|))
  }

  /**
   `data` and `len` are what a task with this buffer sees of the packet: its first bytes, all of
   them or as many as the buffer takes; without a buffer only how long it is.
   */
  predicate Shows(w: Waiter, packet: bytes, data: bytes, len: nat) {
    match w.room
    case None => data == [] && len == |packet|
    case Some(n) => data <= packet && |data| == len && len <= n && (len == n || len == |packet|)
  }

  lemma SeenShows(w: Waiter, packet: bytes, data: bytes, len: nat)
    ensures (data, len) == Seen(w, packet) <==> Shows(w, packet, data, len)
  {
    if Shows(w, packet, data, len) && w.room.Some? {
      assert data == packet[..len];
    }
  }

  /** The sequence mapping: waiters with equal keys in the order they came. */
  class Seqer {
    const getter: bytes -> Option<Key>
    var mapping: seq<Entry>

    constructor (getter: bytes -> Option<Key>)
      ensures mapping == [] && this.getter == getter
    {
      this.getter, mapping := getter, [];
    }

    /** `insert`. */
    method Insert(e: Entry)
      modifies this
      ensures mapping == old(mapping) + [e]
    {
      mapping := mapping + [e];
    }

    /** `find`: the first entry with the key. */
    method Find(key: Key) returns (at: Option<nat>)
      ensures at == FirstWith(mapping, key)
    {
      var i := 0;
      while i < |mapping|
        invariant i <= |mapping|
        invariant FirstWith(mapping, key) == Shift(FirstWith(mapping[i..], key), i)
      {
        if mapping[i].key == key {
          return Some(i);
        }
        assert mapping[i..][1..] == mapping[i + 1..];
        i := i + 1;
      }
      return None;
    }

    /** `erase`: every entry with the key goes. */
    method Erase(key: Key)
      modifies this
      ensures mapping == Without(old(mapping), key)
    {
      var i, kept := 0, [];
      while i < |mapping|
        invariant i <= |mapping| && mapping == old(mapping)
        invariant kept + Without(mapping[i..], key) == Without(mapping, key)
      {
        assert mapping[i..][1..] == mapping[i + 1..];
        if mapping[i].key != key {
          kept := kept + [mapping[i]];
        }
        i := i + 1;
      }
      assert kept + [] == kept;
      mapping := kept;
    }

    /** `unwrap`: the key of a packet, and the waiter it wakes, which leaves the mapping. */
    method Unwrap(packet: bytes) returns (key: Option<Key>, found: Option<Waiter>)
      modifies this
      ensures key == getter(packet)
      ensures match Match(old(mapping), key)
              case None => found == None && mapping == old(mapping)
              case Some(i) => found == Some(old(mapping)[i].waiter) && mapping == Removed(old(mapping), i)
    {
      key := getter(packet);
      if key.Some? {
        var at := Find(key.value);
        if at.Some? {
          found := Some(mapping[at.value].waiter);
          mapping := mapping[..at.value] + mapping[at.value + 1..];
          return;
        }
      }
      found := None;
    }
  }

  function Shift(i: Option<nat>, n: nat): Option<nat> { if i.Some? then Some(i.value + n) else None }

  function FirstWith(m: seq<Entry>, key: Key): (r: Option<nat>)
    ensures r.Some? ==> r.value < |m| && m[r.value].key == key && forall i | 0 <= i < r.value :: m[i].key != key
    ensures r.None? ==> forall i | 0 <= i < |m| :: m[i].key != key
  {
    if m == [] then None
    else if m[0].key == key then Some(0)
    else Shift(FirstWith(m[1..], key), 1)
  }

  function Without(m: seq<Entry>, key: Key): seq<Entry> {
    if m == [] then [] else (if m[0].key == key then [] else [m[0]]) + Without(m[1..], key)
  }

  function Match(m: seq<Entry>, key: Option<Key>): (r: Option<nat>)
    ensures r.Some? ==> r.value < |m|
  {
    if key.Some? then FirstWith(m, key.value) else None
  }

  function Removed<T>(s: seq<T>, i: nat): seq<T>
    requires i < |s|
  {
    s[..i] + s[i + 1..]
  }

  /* ---------- the specification ---------- */

  datatype State = State(mapping: seq<Entry>, plain: seq<Waiter>, unrecv: nat, failed: nat)

  /** One packet with key `key`, by the documented priority. */
  function Route(s: State, key: Option<Key>, packet: bytes): (State, Outcome) {
    match Match(s.mapping, key)
    case Some(i) =>
      var w := s.mapping[i].waiter;
      (s.(mapping := Removed(s.mapping, i)), BySeq(w.id, Seen(w, packet).0, Seen(w, packet).1))
    case None =>
      if s.plain != [] then
        var w := s.plain[0];
        (s.(plain := s.plain[1..]), Plain(w.id, Seen(w, packet).0, Seen(w, packet).1))
      else if key.Some? then (s.(unrecv := s.unrecv + 1), Unrecv)
      else (s.(failed := s.failed + 1), Failed)
  }

  /** The receiving side of a bound socket. */
  class Router {
    const seqer: Seqer
    var queue: seq<Waiter>
    var countUnrecv: nat
    var countFailed: nat

    ghost function Model(): State
      reads this, seqer
    {
      State(seqer.mapping, queue, countUnrecv, countFailed)
    }

    constructor (seqer: Seqer)
      ensures Model() == State(seqer.mapping, [], 0, 0) && this.seqer == seqer
    {
      this.seqer := seqer;
      queue, countUnrecv, countFailed := [], 0, 0;
    }

    /** `recv_by_seq::run` and `cancel`, `recv::run` and `cancel`, as far as the queues go. */
    method WaitSeq(e: Entry)
      modifies this, seqer
      ensures Model() == old(Model()).(mapping := old(Model()).mapping + [e])
      ensures forall log :: Step(Run(old(Model()), log), Event.WaitSeq(e), seqer.getter) == Run(Model(), log)
    {
      seqer.Insert(e);
    }

    method CancelSeq(key: Key)
      modifies this, seqer
      ensures Model() == old(Model()).(mapping := Without(old(Model()).mapping, key))
      ensures forall log :: Step(Run(old(Model()), log), Event.CancelSeq(key), seqer.getter) == Run(Model(), log)
    {
      seqer.Erase(key);
    }

    method WaitPlain(w: Waiter)
      modifies this
      ensures Model() == old(Model()).(plain := old(Model()).plain + [w])
      ensures forall log :: Step(Run(old(Model()), log), Event.WaitPlain(w), seqer.getter) == Run(Model(), log)
    {
      queue := queue + [w];
    }

    method CancelPlain(i: nat)
      requires i < |queue|
      modifies this
      ensures Model() == old(Model()).(plain := Removed(old(Model()).plain, i))
      ensures forall log :: Step(Run(old(Model()), log), Event.CancelPlain(i), seqer.getter) == Run(Model(), log)
    {
      queue := Removed(queue, i);
    }

    /** The routing half of `tcp_recv_cb2` and `udp_recv_cb1`. */
    method Deliver(packet: bytes) returns (outcome: Outcome)
      modifies this, seqer
      ensures (Model(), outcome) == Route(old(Model()), seqer.getter(packet), packet)
      ensures forall log ::
        Step(Run(old(Model()), log), Packet(packet), seqer.getter) == Run(Model(), log + [outcome])
    {
      var key, found := seqer.Unwrap(packet);
      if found.Some? {
        var w := found.value;
        return BySeq(w.id, Seen(w, packet).0, Seen(w, packet).1);
      }
      if queue == [] {
        if key.Some? {
          countUnrecv := countUnrecv + 1;
          return Unrecv;
        }
        countFailed := countFailed + 1;
        return Failed;
      }
      var r := queue[0];
      queue := queue[1..];
      return Plain(r.id, Seen(r, packet).0, Seen(r, packet).1);
    }
  }

  /* ---------- runs ---------- */

  /** Packets come in, and tasks wait or stop waiting, in any order. */
  datatype Event =
    | Packet(data: bytes)
    | WaitSeq(entry: Entry)
    | WaitPlain(waiter: Waiter)
    | CancelSeq(key: Key)
    | CancelPlain(index: nat)

  datatype Run = Run(state: State, log: seq<Outcome>)

  const INITIAL := Run(State([], [], 0, 0), [])

  function Step(r: Run, e: Event, getter: bytes -> Option<Key>): Run {
    var s := r.state;
    match e
    case Packet(data) => Received(r, getter(data), data)
    case WaitSeq(entry) => r.(state := s.(mapping := s.mapping + [entry]))
    case WaitPlain(w) => r.(state := s.(plain := s.plain + [w]))
    case CancelSeq(key) => r.(state := s.(mapping := Without(s.mapping, key)))
    case CancelPlain(i) => if i < |s.plain| then r.(state := s.(plain := Removed(s.plain, i))) else r
  }

  function Received(r: Run, key: Option<Key>, packet: bytes): Run {
    var (t, o) := Route(r.state, key, packet);
    Run(t, r.log + [o])
  }

  /** The run after the events `es`. */
  function Exec(es: seq<Event>, getter: bytes -> Option<Key>): Run {
    if es == [] then INITIAL else Step(Exec(Front(es), getter), Last(es), getter)
  }

  function Front(es: seq<Event>): seq<Event>
    requires es != []
  {
    es[..|es| - 1]
  }

  function Last(es: seq<Event>): Event
    requires es != []
  {
    es[|es| - 1]
  }

  /** The packets of a run, in order. */
  function Packets(es: seq<Event>): seq<bytes> {
    if es == [] then [] else Packets(Front(es)) + (if Last(es).Packet? then [Last(es).data] else [])
  }

  /** The tasks that began to wait for any packet, in order. */
  function PlainWaits(es: seq<Event>): seq<nat> {
    if es == [] then [] else PlainWaits(Front(es)) + (if Last(es).WaitPlain? then [Last(es).waiter.id] else [])
  }

  /** The tasks that ever began to wait, with multiplicity. */
  function Waits(es: seq<Event>): multiset<nat> {
    if es == [] then multiset{} else Waits(Front(es)) + WaitOf(Last(es))
  }

  function WaitOf(e: Event): multiset<nat> {
    match e
    case WaitSeq(e) => multiset{e.waiter.id}
    case WaitPlain(w) => multiset{w.id}
    case _ => multiset{}
  }

  function WokenBy(o: Outcome): multiset<nat> {
    match o
    case BySeq(id, _, _) => multiset{id}
    case Plain(id, _, _) => multiset{id}
    case _ => multiset{}
  }

  /** The tasks a log has woken. */
  function Woken(log: seq<Outcome>): multiset<nat> {
    if log == [] then multiset{} else Woken(log[..|log| - 1]) + WokenBy(log[|log| - 1])
  }

  /** The plain receivers a log has woken, in order. */
  function PlainWoken(log: seq<Outcome>): seq<nat> {
    if log == [] then []
    else PlainWoken(log[..|log| - 1]) + (if log[|log| - 1].Plain? then [log[|log| - 1].id] else [])
  }

  /** How often the outcome `o` occurs. */
  function Count(log: seq<Outcome>, o: Outcome): nat {
    if log == [] then 0 else Count(log[..|log| - 1], o) + (if log[|log| - 1] == o then 1 else 0)
  }

  lemma LogAppend(log: seq<Outcome>, o: Outcome)
    ensures Woken(log + [o]) == Woken(log) + WokenBy(o)
    ensures PlainWoken(log + [o]) == PlainWoken(log) + (if o.Plain? then [o.id] else [])
    ensures forall p :: Count(log + [o], p) == Count(log, p) + if p == o then 1 else 0
  {
    assert (log + [o])[..|log|] == log;
  }

  /** The tasks that wait. */
  function Waiting(s: State): multiset<nat> { EntryIds(s.mapping) + multiset(Ids(s.plain)) }

  function Ids(ws: seq<Waiter>): seq<nat> { seq(|ws|, i requires 0 <= i < |ws| => ws[i].id) }

  function Waiters(m: seq<Entry>): seq<Waiter> { seq(|m|, i requires 0 <= i < |m| => m[i].waiter) }

  function EntryIds(m: seq<Entry>): multiset<nat> { multiset(Ids(Waiters(m))) }

  lemma IdsAppend(ws: seq<Waiter>, w: Waiter)
    ensures Ids(ws + [w]) == Ids(ws) + [w.id]
  {
  }

  lemma IdsRemoved(ws: seq<Waiter>, i: nat)
    requires i < |ws|
    ensures multiset(Ids(ws)) == multiset(Ids(Removed(ws, i))) + multiset{ws[i].id}
  {
    var ids := Ids(ws);
    assert Ids(Removed(ws, i)) == ids[..i] + ids[i + 1..];
    assert ids == ids[..i] + [ids[i]] + ids[i + 1..];
  }

  lemma EntryIdsAppend(m: seq<Entry>, e: Entry)
    ensures EntryIds(m + [e]) == EntryIds(m) + multiset{e.waiter.id}
  {
    assert Waiters(m + [e]) == Waiters(m) + [e.waiter];
    IdsAppend(Waiters(m), e.waiter);
  }

  lemma EntryIdsRemoved(m: seq<Entry>, i: nat)
    requires i < |m|
    ensures EntryIds(m) == EntryIds(Removed(m, i)) + multiset{m[i].waiter.id}
  {
    IdsRemoved(Waiters(m), i);
    assert Waiters(Removed(m, i)) == Removed(Waiters(m), i);
  }

  lemma {:induction false} EntryIdsWithout(m: seq<Entry>, key: Key)
    ensures EntryIds(Without(m, key)) <= EntryIds(m)
    ensures forall e :: e in Without(m, key) <==> e in m && e.key != key
  {
    if m != [] {
      var rest := Without(m[1..], key);
      EntryIdsWithout(m[1..], key);
      assert m == [m[0]] + m[1..];
      EntryIdsRemoved(m, 0);
      assert Removed(m, 0) == m[1..];
      if m[0].key == key {
        assert Without(m, key) == rest;
      } else {
        EntryIdsRemoved(Without(m, key), 0);
        assert Removed(Without(m, key), 0) == rest;
      }
    }
  }

  /* ---------- what a cancel by sequence number takes away ---------- */

  lemma {:induction false} WithoutSplits(a: seq<Entry>, b: seq<Entry>, key: Key)
    ensures Without(a + b, key) == Without(a, key) + Without(b, key)
  {
    if a == [] {
      assert a + b == b;
    } else {
      assert (a + b)[1..] == a[1..] + b;
      WithoutSplits(a[1..], b, key);
    }
  }

  lemma {:induction false} WithoutNothing(m: seq<Entry>, key: Key)
    ensures |Without(m, key)| <= |m|
    ensures |Without(m, key)| == |m| <==> forall e | e in m :: e.key != key
    ensures |Without(m, key)| == |m| ==> Without(m, key) == m
  {
    if m != [] {
      WithoutNothing(m[1..], key);
      assert m == [m[0]] + m[1..];
    }
  }

  /** Entry `i` is the only one with its key. */
  ghost predicate Alone(m: seq<Entry>, i: nat)
    requires i < |m|
  {
    forall j | 0 <= j < |m| && j != i :: m[j].key != m[i].key
  }

  lemma WithoutAround(fore: seq<Entry>, e: Entry, rest: seq<Entry>)
    ensures Without(fore + ([e] + rest), e.key) == Without(fore, e.key) + Without(rest, e.key)
  {
    WithoutSplits(fore, [e] + rest, e.key);
    assert ([e] + rest)[1..] == rest;
  }

  lemma SplitAt<T>(s: seq<T>, i: nat)
    requires i < |s|
    ensures s == s[..i] + ([s[i]] + s[i + 1..])
  {
  }

  /**
   The exact condition: the cancel of one waiter leaves everybody else waiting if and only
   if no other one waits for the same sequence number.
   */
  lemma CancelSparesExactly(m: seq<Entry>, i: nat)
    requires i < |m|
    ensures Without(m, m[i].key) == Removed(m, i) <==> Alone(m, i)
  {
    var fore, rest := m[..i], m[i + 1..];
    SplitAt(m, i);
    WithoutAround(fore, m[i], rest);
    WithoutNothing(fore, m[i].key);
    WithoutNothing(rest, m[i].key);
    AloneSplits(m, i);
  }

  lemma AloneSplits(m: seq<Entry>, i: nat)
    requires i < |m|
    ensures Alone(m, i) <==>
      (forall e | e in m[..i] :: e.key != m[i].key) && forall e | e in m[i + 1..] :: e.key != m[i].key
  {
    assert forall j | i < j < |m| :: m[j] == m[i + 1..][j - i - 1];
    assert forall j | 0 <= j < i :: m[j] == m[..i][j];
  }

  /** The priority of the documentation, in terms of who waits. */
  lemma Priority(s: State, key: Option<Key>, packet: bytes)
    ensures var o := Route(s, key, packet).1;
      && (o.BySeq? <==> key.Some? && exists e :: e in s.mapping && e.key == key.value)
      && (o.Plain? <==> !o.BySeq? && s.plain != [])
      && (o.Plain? ==> o.id == s.plain[0].id)
      && (o == Unrecv <==> !o.BySeq? && s.plain == [] && key.Some?)
      && (o == Failed <==> s.plain == [] && key.None?)
  {
    if key.Some? && FirstWith(s.mapping, key.value).Some? {
      assert s.mapping[FirstWith(s.mapping, key.value).value] in s.mapping;
    }
  }

  /** One packet wakes the task it names, which stops waiting, or moves one counter. */
  lemma RouteOnce(s: State, key: Option<Key>, packet: bytes)
    ensures var (t, o) := Route(s, key, packet);
      && Waiting(s) == Waiting(t) + WokenBy(o)
      && t.unrecv == s.unrecv + (if o == Unrecv then 1 else 0)
      && t.failed == s.failed + (if o == Failed then 1 else 0)
  {
    match Match(s.mapping, key) {
      case Some(i) => WaitingWithout(s, i);
      case None => if s.plain != [] { WaitingRest(s); }
    }
  }

  lemma WaitingWithout(s: State, i: nat)
    requires i < |s.mapping|
    ensures Waiting(s) == Waiting(s.(mapping := Removed(s.mapping, i))) + multiset{s.mapping[i].waiter.id}
  {
    EntryIdsRemoved(s.mapping, i);
  }

  lemma WaitingRest(s: State)
    requires s.plain != []
    ensures Waiting(s) == Waiting(s.(plain := s.plain[1..])) + multiset{s.plain[0].id}
  {
    IdsRemoved(s.plain, 0);
    assert Removed(s.plain, 0) == s.plain[1..];
  }

  /* ---------- counting ---------- */

  /** Every packet of `n` has one outcome, and the counters count the undelivered ones. */
  ghost predicate Counted(r: Run, n: nat) {
    && |r.log| == n
    && r.state.unrecv == Count(r.log, Unrecv) && r.state.failed == Count(r.log, Failed)
    && |Woken(r.log)| + r.state.unrecv + r.state.failed == n
  }

  lemma PacketCounted(r: Run, key: Option<Key>, packet: bytes)
    requires Counted(r, |r.log|)
    ensures Counted(Received(r, key, packet), |r.log| + 1)
  {
    RouteOnce(r.state, key, packet);
    LogAppend(r.log, Route(r.state, key, packet).1);
  }

  lemma {:induction false} AlwaysCounted(es: seq<Event>, getter: bytes -> Option<Key>)
    ensures Counted(Exec(es, getter), |Packets(es)|)
  {
    if es != [] {
      AlwaysCounted(Front(es), getter);
      var r := Exec(Front(es), getter);
      match Last(es) {
        case Packet(data) => PacketCounted(r, getter(data), data);
        case _ =>
      }
    }
  }

  /* ---------- waking ---------- */

  /** The entries with the key. */
  function WithKey(m: seq<Entry>, key: Key): seq<Entry> {
    if m == [] then [] else (if m[0].key == key then [m[0]] else []) + WithKey(m[1..], key)
  }

  lemma {:induction false} WithKeyMeans(m: seq<Entry>, key: Key)
    ensures forall e :: e in WithKey(m, key) <==> e in m && e.key == key
  {
    if m != [] {
      WithKeyMeans(m[1..], key);
      assert m == [m[0]] + m[1..];
    }
  }

  lemma OneEntryMore(e: Entry, m: seq<Entry>)
    ensures EntryIds([e] + m) == multiset{e.waiter.id} + EntryIds(m)
  {
    EntryIdsRemoved([e] + m, 0);
    assert Removed([e] + m, 0) == m;
  }

  lemma Sums(x: multiset<nat>, a: multiset<nat>, b: multiset<nat>)
    ensures x + (a + b) == (x + a) + b == a + (x + b)
  {
  }

  lemma SplitFirst(e: Entry, m: seq<Entry>, key: Key)
    ensures Without([e] + m, key) == (if e.key == key then Without(m, key) else [e] + Without(m, key))
    ensures WithKey([e] + m, key) == (if e.key == key then [e] + WithKey(m, key) else WithKey(m, key))
  {
    assert ([e] + m)[1..] == m;
  }

  lemma {:induction false} EntryIdsSplit(m: seq<Entry>, key: Key)
    ensures EntryIds(m) == EntryIds(Without(m, key)) + EntryIds(WithKey(m, key))
  {
    if m != [] {
      var e, rest := m[0], m[1..];
      EntryIdsSplit(rest, key);
      assert m == [e] + rest;
      SplitFirst(e, rest, key);
      OneEntryMore(e, rest);
      OneEntryMore(e, Without(rest, key));
      OneEntryMore(e, WithKey(rest, key));
      Sums(multiset{e.waiter.id}, EntryIds(Without(rest, key)), EntryIds(WithKey(rest, key)));
    }
  }

  /** The tasks that an event makes stop waiting, unserved. */
  function DroppedBy(s: State, e: Event): multiset<nat> {
    match e
    case CancelSeq(key) => EntryIds(WithKey(s.mapping, key))
    case CancelPlain(i) => if i < |s.plain| then multiset{s.plain[i].id} else multiset{}
    case _ => multiset{}
  }

  /** The tasks that were cancelled while they waited, with multiplicity. */
  function Dropped(es: seq<Event>, getter: bytes -> Option<Key>): multiset<nat> {
    if es == [] then multiset{}
    else Dropped(Front(es), getter) + DroppedBy(Exec(Front(es), getter).state, Last(es))
  }

  ghost predicate Claimed(r: Run, dropped: multiset<nat>, all: multiset<nat>) {
    Woken(r.log) + Waiting(r.state) + dropped == all
  }

  lemma PacketClaimed(r: Run, key: Option<Key>, packet: bytes, dropped: multiset<nat>, all: multiset<nat>)
    requires Claimed(r, dropped, all)
    ensures Claimed(Received(r, key, packet), dropped, all)
  {
    RouteOnce(r.state, key, packet);
    LogAppend(r.log, Route(r.state, key, packet).1);
  }

  lemma SeqJoins(s: State, e: Entry)
    ensures Waiting(s.(mapping := s.mapping + [e])) == Waiting(s) + multiset{e.waiter.id}
  {
    EntryIdsAppend(s.mapping, e);
  }

  lemma PlainJoins(s: State, w: Waiter)
    ensures Waiting(s.(plain := s.plain + [w])) == Waiting(s) + multiset{w.id}
  {
    IdsAppend(s.plain, w);
  }

  lemma SeqLeaves(s: State, key: Key)
    ensures Waiting(s.(mapping := Without(s.mapping, key))) + EntryIds(WithKey(s.mapping, key)) == Waiting(s)
  {
    EntryIdsSplit(s.mapping, key);
    Sums(EntryIds(WithKey(s.mapping, key)), EntryIds(Without(s.mapping, key)), multiset(Ids(s.plain)));
  }

  lemma PlainLeaves(s: State, i: nat)
    requires i < |s.plain|
    ensures Waiting(s.(plain := Removed(s.plain, i))) + multiset{s.plain[i].id} == Waiting(s)
  {
    IdsRemoved(s.plain, i);
  }

  /** Who waits after an event that brings no packet. */
  lemma WaitMoves(r: Run, e: Event, getter: bytes -> Option<Key>)
    requires !e.Packet?
    ensures Waiting(Step(r, e, getter).state) + DroppedBy(r.state, e) == Waiting(r.state) + WaitOf(e)
    ensures Step(r, e, getter).log == r.log
  {
    var s := r.state;
    match e {
      case WaitSeq(entry) => SeqJoins(s, entry);
      case WaitPlain(w) => PlainJoins(s, w);
      case CancelSeq(key) => SeqLeaves(s, key);
      case CancelPlain(i) => if i < |s.plain| { PlainLeaves(s, i); }
    }
  }

  lemma Balance(a: multiset<nat>, b: multiset<nat>, b': multiset<nat>, c: multiset<nat>, d: multiset<nat>,
                w: multiset<nat>)
    requires b' + d == b + w
    ensures a + b' + (c + d) == (a + b + c) + w
  {
    assert a + b' + (c + d) == (b' + d) + (a + c);
  }

  lemma WaitClaimed(r: Run, e: Event, getter: bytes -> Option<Key>, dropped: multiset<nat>, all: multiset<nat>)
    requires Claimed(r, dropped, all) && !e.Packet?
    ensures Claimed(Step(r, e, getter), dropped + DroppedBy(r.state, e), all + WaitOf(e))
  {
    WaitMoves(r, e, getter);
    var t := Step(r, e, getter).state;
    Balance(Woken(r.log), Waiting(r.state), Waiting(t), dropped, DroppedBy(r.state, e), WaitOf(e));
  }

  lemma {:induction false} AlwaysClaimed(es: seq<Event>, getter: bytes -> Option<Key>)
    ensures Claimed(Exec(es, getter), Dropped(es, getter), Waits(es))
  {
    if es != [] {
      AlwaysClaimed(Front(es), getter);
      var r, dropped := Exec(Front(es), getter), Dropped(Front(es), getter);
      match Last(es) {
        case Packet(data) => PacketClaimed(r, getter(data), data, dropped, Waits(Front(es)));
        case e => WaitClaimed(r, e, getter, dropped, Waits(Front(es)));
      }
    }
  }

  /**
   MAIN RESULT. Over any run every packet has exactly one outcome, the counters are the
   numbers of undelivered packets, and deliveries and counters together are all packets.
   Every wait that was begun has been answered once, or was cancelled, or still goes on.
   */
  lemma ExactlyOnce(es: seq<Event>, getter: bytes -> Option<Key>)
    ensures var r := Exec(es, getter);
      && |r.log| == |Packets(es)|
      && r.state.unrecv == Count(r.log, Unrecv) && r.state.failed == Count(r.log, Failed)
      && |Woken(r.log)| + r.state.unrecv + r.state.failed == |Packets(es)|
      && Woken(r.log) + Waiting(r.state) + Dropped(es, getter) == Waits(es)
  {
    AlwaysCounted(es, getter);
    AlwaysClaimed(es, getter);
  }

  lemma {:induction false} DroppedGrows(es: seq<Event>, n: nat, getter: bytes -> Option<Key>)
    requires n <= |es|
    ensures Dropped(es[..n], getter) <= Dropped(es, getter)
    decreases |es|
  {
    if n < |es| {
      assert Front(es)[..n] == es[..n];
      DroppedGrows(Front(es), n, getter);
    } else {
      assert es[..n] == es;
    }
  }

  /** A task that waited once and was cancelled while it did is never woken, and waits no more. */
  lemma CancelledNotWoken(es: seq<Event>, n: nat, id: nat, getter: bytes -> Option<Key>)
    requires n < |es| && Waits(es)[id] == 1 && id in DroppedBy(Exec(es[..n], getter).state, es[n])
    ensures id !in Woken(Exec(es, getter).log) && id !in Waiting(Exec(es, getter).state)
  {
    var fore := es[..n + 1];
    assert Front(fore) == es[..n] && Last(fore) == es[n];
    DroppedGrows(es, n + 1, getter);
    ExactlyOnce(es, getter);
    InPart(Dropped(es[..n], getter), DroppedBy(Exec(es[..n], getter).state, es[n]), Dropped(es, getter), id);
    var r := Exec(es, getter);
    OnlyOnce(Woken(r.log), Waiting(r.state), Dropped(es, getter), Waits(es), id);
  }

  lemma InPart(a: multiset<nat>, b: multiset<nat>, c: multiset<nat>, id: nat)
    requires a + b <= c && id in b
    ensures c[id] > 0
  {
    assert (a + b)[id] == a[id] + b[id] <= c[id];
  }

  lemma OnlyOnce(a: multiset<nat>, b: multiset<nat>, c: multiset<nat>, all: multiset<nat>, id: nat)
    requires a + b + c == all && all[id] == 1 && c[id] > 0
    ensures id !in a && id !in b
  {
    assert all[id] == a[id] + b[id] + c[id];
  }

  /* ---------- who gets what ---------- */

  /** The outcome `o` of `packet` answers a wait among `es` for just that packet. */
  ghost predicate Answers(es: seq<Event>, o: Outcome, key: Option<Key>, packet: bytes) {
    match o
    case BySeq(id, data, len) =>
      exists e: Entry :: WaitSeq(e) in es && key == Some(e.key) && id == e.waiter.id
        && Shows(e.waiter, packet, data, len)
    case Plain(id, data, len) =>
      exists w: Waiter :: WaitPlain(w) in es && id == w.id && Shows(w, packet, data, len)
    case Unrecv => key.Some?
    case Failed => key.None?
  }

  /** Whoever waits has asked to. */
  ghost predicate Asked(es: seq<Event>, s: State) {
    && (forall e :: e in s.mapping ==> WaitSeq(e) in es)
    && (forall w :: w in s.plain ==> WaitPlain(w) in es)
  }

  lemma StepAsked(r: Run, es: seq<Event>, getter: bytes -> Option<Key>)
    requires es != [] && Asked(Front(es), r.state)
    ensures Asked(es, Step(r, Last(es), getter).state)
  {
    assert es == Front(es) + [Last(es)];
    match Last(es) {
      case CancelSeq(key) => EntryIdsWithout(r.state.mapping, key);
      case _ =>
    }
  }

  lemma RouteAnswers(es: seq<Event>, s: State, key: Option<Key>, packet: bytes)
    requires Asked(es, s)
    ensures Answers(es, Route(s, key, packet).1, key, packet)
  {
    match Match(s.mapping, key) {
      case Some(i) =>
        assert WaitSeq(s.mapping[i]) in es;
        ShowsSeen(s.mapping[i].waiter, packet);
      case None =>
        if s.plain != [] {
          assert WaitPlain(s.plain[0]) in es;
          ShowsSeen(s.plain[0], packet);
        }
    }
  }

  lemma ShowsSeen(w: Waiter, packet: bytes)
    ensures Shows(w, packet, Seen(w, packet).0, Seen(w, packet).1)
  {
    SeenShows(w, packet, Seen(w, packet).0, Seen(w, packet).1);
  }

  lemma AnswersMore(es: seq<Event>, o: Outcome, key: Option<Key>, packet: bytes)
    requires es != [] && Answers(Front(es), o, key, packet)
    ensures Answers(es, o, key, packet)
  {
    assert es == Front(es) + [Last(es)];
  }

  /**
   MAIN RESULT. The i-th outcome of a run is that of its i-th packet: whoever is woken
   by sequence number had asked for the number of that very packet, sees just as much
   of it as its buffer takes, and a counter moves only for the reason it names.
   */
  lemma {:induction false} RightAnswers(es: seq<Event>, getter: bytes -> Option<Key>)
    ensures Asked(es, Exec(es, getter).state)
    ensures |Exec(es, getter).log| == |Packets(es)|
    ensures forall i | 0 <= i < |Packets(es)| ::
      Answers(es, Exec(es, getter).log[i], getter(Packets(es)[i]), Packets(es)[i])
  {
    if es != [] {
      var fore, r := Front(es), Exec(Front(es), getter);
      RightAnswers(fore, getter);
      StepAsked(r, es, getter);
      forall i | 0 <= i < |Packets(es)|
        ensures Answers(es, Exec(es, getter).log[i], getter(Packets(es)[i]), Packets(es)[i])
      {
        var p := Packets(es)[i];
        if i == |Packets(fore)| {
          RouteAnswers(fore, r.state, getter(p), p);
        }
        AnswersMore(es, Exec(es, getter).log[i], getter(p), p);
      }
    }
  }

  /** Who was woken and who waits, among the plain receivers, in order. */
  function Line(r: Run): seq<nat> { PlainWoken(r.log) + Ids(r.state.plain) }

  lemma RouteKeepsLine(s: State, key: Option<Key>, packet: bytes)
    ensures var (t, o) := Route(s, key, packet);
      Ids(s.plain) == (if o.Plain? then [o.id] else []) + Ids(t.plain)
  {
  }

  lemma PacketKeepsLine(r: Run, key: Option<Key>, packet: bytes)
    ensures Line(Received(r, key, packet)) == Line(r)
  {
    RouteKeepsLine(r.state, key, packet);
    var (t, o) := Route(r.state, key, packet);
    LogAppend(r.log, o);
    Regroup(PlainWoken(r.log), if o.Plain? then [o.id] else [], Ids(t.plain));
  }

  /** MAIN RESULT. Unless some are cancelled, plain receivers are served in the order they came. */
  lemma {:induction false} FirstComeFirstServed(es: seq<Event>, getter: bytes -> Option<Key>)
    requires forall e :: e in es ==> !e.CancelPlain?
    ensures Line(Exec(es, getter)) == PlainWaits(es)
  {
    if es != [] {
      var r, e := Exec(Front(es), getter), Last(es);
      FirstComeFirstServed(Front(es), getter);
      assert e in es;
      match e {
        case Packet(data) => PacketKeepsLine(r, getter(data), data);
        case WaitPlain(w) => IdsAppend(r.state.plain, w);
        case _ =>
      }
    }
  }
}
