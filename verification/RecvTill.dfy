/**
 `recv_till` over its real buffers: the carry buffer `buf1` and the callers' buffers are
 arrays, filled and shifted in place. Each method is proved against the state machine.
 Resumed tasks are idle here; `RecvTillSpec` has them start and cancel receives.
 */
module RecvTill {
  import opened Streams
  import opened Matching
  import opened RecvTillSpec
  import opened RecvTillProof
  import opened RecvTillCancel

  const SUCCESS := 0
  const UNFINISHED := -1

  /** A caller's `recv_till` object; `cur` counts from the start of `buf`. */
  class Task {
    const buf: array<byte>
    const pattern: bytes
    ghost const req: Request
    var len: nat
    var cur: nat
    var left: nat
    var ret: int

    ghost predicate Valid()
      reads this
    {
      req.pattern == pattern && req.cap <= buf.Length && cur + left == req.cap && len == req.cap && left > 0
    }

    ghost function Model(): Waiter
      requires Valid()
      reads this, buf
    {
      Waiter(req, buf[..cur])
    }

    constructor (buf: array<byte>, len: nat, pattern: bytes)
      requires 0 < len <= buf.Length
      ensures Valid() && Model() == Waiter(Request(len, pattern), []) && ret == UNFINISHED
      ensures this.buf == buf && this.len == len && this.pattern == pattern
    {
      this.buf, this.pattern, this.req := buf, pattern, Request(len, pattern);
      this.len, this.cur, this.left, this.ret := len, 0, len, UNFINISHED;
    }
  }

  /** `memcpy` between two different buffers. */
  method MemCpy(dst: array<byte>, at: nat, src: array<byte>, n: nat)
    requires dst != src && at + n <= dst.Length && n <= src.Length
    modifies dst
    ensures dst[..at + n] == old(dst[..at]) + src[..n]
    ensures dst[at + n..] == old(dst[at + n..])
  {
    forall k | 0 <= k < n {
      dst[at + k] := src[k];
    }
  }

  /** `memmove` of the bytes `[from, len)` to the front of the same buffer. */
  method MoveDown(buf: array<byte>, from: nat, len: nat)
    requires from <= len <= buf.Length
    modifies buf
    ensures buf[..len - from] == old(buf[from..len])
  {
    forall k | 0 <= k < len - from {
      buf[k] := buf[from + k];
    }
  }

  /** A completed task: its result code, and `data` in its buffer. */
  ghost predicate Received(t: Task, data: bytes)
    reads t, t.buf
  {
    t.ret == SUCCESS && t.len <= t.buf.Length && t.buf[..t.len] == data
  }

  /** Two tasks with nothing in common. */
  ghost predicate Differ(t: Task, u: Task) {
    t != u && t.buf != u.buf
  }

  /** Nothing that a waiting task writes to is `buf1` or belongs to another task. */
  ghost predicate Apart(held: seq<Task>, queue: seq<Task>, buf1: array<byte>) {
    && (forall i | 0 <= i < |held| :: held[i].buf != buf1)
    && (forall j | 0 <= j < |queue| :: queue[j].buf != buf1)
    && (forall i, j | 0 <= i < |held| && 0 <= j < |queue| :: Differ(held[i], queue[j]))
    && (forall i, j | 0 <= i < j < |queue| :: Differ(queue[i], queue[j]))
  }

  ghost predicate NewTo(t: Task, held: seq<Task>, queue: seq<Task>, buf1: array<byte>) {
    && t.buf != buf1
    && (forall i | 0 <= i < |held| :: Differ(held[i], t))
    && (forall j | 0 <= j < |queue| :: Differ(queue[j], t))
  }

  /** The receiving half of `tcp::connected`; an unallocated `buf1` has length 0. */
  class Connected {
    var buf1: array<byte>
    var len1: nat
    var queue: seq<Task>
    var reading: bool
    var fallback: bool
    ghost var state: Conn
    /** The completed tasks whose buffers the callers have not taken back with `Collect`. */
    ghost var held: seq<Task>

    ghost predicate CarryValid()
      reads this, buf1
    {
      len1 <= buf1.Length && buf1.Length == state.size1 && buf1[..len1] == state.carry
    }

    ghost predicate Shape()
      reads this
    {
      && |held| <= |state.done| && |queue| == |state.queue|
      && Apart(held, queue, buf1)
      && reading == state.reading && fallback == state.fallback
      && Wf(state)
    }

    /** Completed tasks have their part of the stream in their own buffers. */
    ghost predicate HeldValid()
      requires Shape()
      reads this, held, set t | t in held :: t.buf
    {
      forall i | 0 <= i < |held| :: Received(held[i], state.done[|state.done| - |held| + i].data)
    }

    ghost predicate WaitingValid(from: nat)
      requires Shape()
      reads this, queue, set t | t in queue :: t.buf
    {
      forall i | from <= i < |queue| :: queue[i].Valid() && queue[i].Model() == state.queue[i]
    }

    /** The fields represent the ghost state of the machine. */
    ghost predicate Valid()
      reads this, buf1, held, queue, set t | t in held + queue :: t.buf
    {
      Shape() && CarryValid() && HeldValid() && WaitingValid(0)
    }

    constructor ()
      ensures Valid() && state == INITIAL && held == [] && fresh(buf1)
    {
      buf1, len1, queue, reading, fallback := new byte[0], 0, [], false, false;
      state, held := INITIAL, [];
    }

    /**
     For callers: they have taken their data, and may use the buffers for new tasks. Until
     then nothing is written to them.
     */
    ghost method Collect()
      requires Valid()
      modifies this`held
      ensures Valid() && held == [] && state == old(state)
    {
      held := [];
    }

    /** `____remaining_fill` and the other copies: `n` bytes of the carry go to the task. */
    method CopyOut(t: Task, n: nat)
      requires CarryValid() && t.Valid() && t.buf != buf1
      requires n <= len1 && n <= t.left
      modifies this`len1, buf1, t.buf
      ensures len1 <= buf1.Length && t.Valid()
      ensures var p := Take(old(t.Model()), old(state.carry), n, true);
        buf1[..len1] == p.carry && t.buf[..t.cur + n] == p.waiter.got
    {
      MemCpy(t.buf, t.cur, buf1, n);
      MoveDown(buf1, n, len1);
      len1 := len1 - n;
      assert old(state.carry)[n..] == old(buf1[n..len1]);
      assert old(state.carry)[..n] == old(buf1[..n]);
    }

    /** The fill mode of `recv_till::remaining`. */
    method TryFill(t: Task) returns (finished: bool)
      requires CarryValid() && t.Valid() && t.buf != buf1 && t.pattern == []
      modifies this`len1, buf1, t`len, t`cur, t`left, t.buf
      ensures len1 <= buf1.Length
      ensures Outcome(t, finished, Remaining(old(t.Model()), old(state.carry)))
    {
      if len1 >= t.left {
        CopyOut(t, t.left);
        return true;
      }
      var n := len1;
      CopyOut(t, n);
      t.left, t.cur := t.left - n, t.cur + n;
      return false;
    }

    /** What `remaining()` leaves in the task and in `buf1`, against the model's progress. */
    ghost predicate Outcome(t: Task, finished: bool, p: Progress)
      requires len1 <= buf1.Length
      reads this, buf1, t, t.buf
    {
      && finished == p.finished
      && buf1[..len1] == p.carry
      && (finished ==> t.len <= t.buf.Length && t.buf[..t.len] == p.waiter.got)
      && (!finished ==> t.Valid() && t.Model() == p.waiter)
    }

    /** How far the pattern lets the carry go: to the end of its first match, or short of a possible one. */
    method FindCopy(t: Task) returns (found: bool, copy: nat)
      requires CarryValid() && t.Valid() && t.pattern != [] && len1 >= |t.pattern|
      ensures match FindFrom(state.carry, t.pattern, 0)
        case Some(i) => found && copy == i + |t.pattern|
        case None => !found && copy == len1 - |t.pattern| + 1
    {
      var end := BufBuf(buf1, len1, t.pattern);
      found := end.Some?;
      copy := if found then end.value else len1 - |t.pattern| + 1;
    }

    /** The pattern mode of `recv_till::remaining`. */
    method TryPattern(t: Task) returns (finished: bool)
      requires CarryValid() && t.Valid() && t.buf != buf1 && t.pattern != []
      modifies this`len1, buf1, t`len, t`cur, t`left, t.buf
      ensures len1 <= buf1.Length
      ensures Outcome(t, finished, Remaining(old(t.Model()), old(state.carry)))
    {
      if len1 < |t.pattern| {
        return false;
      }
      var found, copy := FindCopy(t);
      PatternTake(t.Model(), state.carry, found, copy);
      if copy >= t.left {
        CopyOut(t, t.left);
        return true;
      }
      CopyOut(t, copy);
      if found {
        t.len := t.cur + copy;
        return true;
      }
      t.left, t.cur := t.left - copy, t.cur + copy;
      return false;
    }

    /** `recv_till::remaining`. */
    method TryRemaining(t: Task) returns (finished: bool)
      requires CarryValid() && t.Valid() && t.buf != buf1 && len1 > 0
      modifies this`len1, buf1, t`len, t`cur, t`left, t.buf
      ensures len1 <= buf1.Length
      ensures Outcome(t, finished, Remaining(old(t.Model()), old(state.carry)))
    {
      if t.pattern == [] {
        finished := TryFill(t);
      } else {
        finished := TryPattern(t);
      }
    }

    /** The first waiter has been tried with outcome `p`; everything else still stands. */
    ghost predicate HeadTried(p: Progress)
      reads this, buf1, held, queue, set t | t in held + queue :: t.buf
    {
      && Shape() && HeldValid() && WaitingValid(1) && queue != []
      && len1 <= buf1.Length && buf1.Length == state.size1
      && Outcome(queue[0], p.finished, p)
    }

    /** Try the first waiter. */
    method TryHead(t: Task) returns (finished: bool)
      requires Valid() && queue != [] && t == queue[0] && len1 > 0
      modifies this`len1, buf1, t`len, t`cur, t`left, t.buf
      ensures HeadTried(Remaining(state.queue[0], state.carry))
      ensures finished == Remaining(state.queue[0], state.carry).finished
    {
      finished := TryRemaining(t);
    }

    /** A finished task leaves the queue, with its data in place. */
    method PopHead(t: Task, ghost p: Progress)
      requires HeadTried(p) && p.finished && t == queue[0]
      modifies this`queue, this`held, this`state, t`ret
      ensures Valid() && state == Pop(old(state), p.waiter.got, p.carry)
      ensures queue == old(queue)[1..] && held + queue == old(held + queue)
    {
      t.ret := SUCCESS;
      queue, held := queue[1..], held + [t];
      state := Pop(state, p.waiter.got, p.carry);
    }

    /** An unfinished task stays first, with its progress recorded. */
    ghost method KeepHead(p: Progress)
      requires HeadTried(p) && !p.finished
      modifies this`state
      ensures Valid() && state == Kept(old(state), p)
    {
      state := Kept(state, p);
    }

    /** One round of `check_remaining`. */
    method Round() returns (finished: bool)
      requires Valid() && queue != [] && len1 > 0
      modifies this`len1, this`queue, this`held, this`state, buf1, queue[0], queue[0].buf
      ensures Valid()
      ensures var p := Remaining(old(state.queue[0]), old(state.carry));
        && finished == p.finished
        && state == (if finished then Pop(old(state), p.waiter.got, p.carry) else Kept(old(state), p))
        && queue == (if finished then old(queue)[1..] else old(queue))
      ensures held + queue == old(held + queue)
    {
      ghost var p := Remaining(state.queue[0], state.carry);
      var t := queue[0];
      finished := TryHead(t);
      if finished {
        PopHead(t, p);
      } else {
        KeepHead(p);
      }
    }

    /** The rounds of `check_remaining` so far, from the state `s0` and the queue `q0`. */
    ghost predicate Checking(s0: Conn, q0: seq<Task>, all: seq<Task>, going: bool)
      requires Wf(s0)
      reads this, buf1, held, queue, set t | t in held + queue :: t.buf
    {
      && Valid() && held + queue == all
      && CheckRemaining(s0, Idle) == (if going then CheckRemaining(state, Idle) else StopIfIdle(state))
      && |queue| <= |q0| && queue == q0[|q0| - |queue|..]
    }

    method Advance(ghost s0: Conn, ghost q0: seq<Task>, ghost all: seq<Task>) returns (finished: bool)
      requires Wf(s0) && Checking(s0, q0, all, true) && queue != [] && len1 > 0
      modifies this`len1, this`queue, this`held, this`state
      modifies buf1, q0, set t | t in q0 :: t.buf
      ensures Checking(s0, q0, all, finished)
      ensures finished ==> |queue| < |old(queue)|
    {
      RoundIsCheck(state);
      HeadOfSuffix(q0, queue);
      SuffixStep(q0, |queue|);
      finished := Round();
    }

    /** The loop of `check_remaining`. */
    method Rounds(ghost s0: Conn, ghost q0: seq<Task>, ghost all: seq<Task>)
      requires Wf(s0) && Checking(s0, q0, all, true)
      modifies this`len1, this`queue, this`held, this`state
      modifies buf1, q0, set t | t in q0 :: t.buf
      ensures Checking(s0, q0, all, false)
    {
      var going := true;
      while going && len1 > 0 && queue != []
        invariant Checking(s0, q0, all, going)
        decreases going, |queue|
      {
        going := Advance(s0, q0, all);
      }
    }

    /** `check_remaining`. */
    method Check()
      requires Valid()
      modifies this`len1, this`queue, this`held, this`state, this`reading, this`fallback
      modifies buf1, queue, set t | t in queue :: t.buf
      ensures Valid() && state == CheckRemaining(old(state), Idle)
      ensures held + queue == old(held + queue)
    {
      Rounds(state, queue, held + queue);
      Stop();
    }

    /** With nobody waiting, reading stops and the notification handle is closed. */
    method Stop()
      requires Valid()
      modifies this`reading, this`fallback, this`state
      ensures Valid() && state == StopIfIdle(old(state))
    {
      if queue == [] {
        reading, fallback := false, false;
      }
      state := StopIfIdle(state);
    }

    /** A task joins the end of the queue. */
    method Enqueue(t: Task)
      requires Valid() && t.Valid() && NewTo(t, held, queue, buf1)
      requires t.cur == 0 || queue == []
      modifies this`queue, this`reading, this`state
      ensures Valid() && queue == old(queue) + [t]
      ensures state == old(state).(queue := old(state.queue) + [t.Model()], reading := true)
    {
      if !reading {
        reading := true;
        state := state.(reading := true);
      }
      Append(t);
    }

    method Append(t: Task)
      requires Valid() && t.Valid() && NewTo(t, held, queue, buf1)
      requires t.cur == 0 || queue == []
      modifies this`queue, this`state
      ensures Valid() && queue == old(queue) + [t]
      ensures state == old(state).(queue := old(state.queue) + [t.Model()])
    {
      ApartAppend(t, held, queue, buf1);
      WfAppend(state, t.Model());
      ghost var n := |queue|;
      queue := queue + [t];
      state := state.(queue := state.queue + [t.Model()]);
      assert queue[n] == t && state.queue[n] == t.Model();
      assert forall i | 0 <= i < n :: queue[i] == old(queue)[i] && state.queue[i] == old(state.queue)[i];
    }

    /** A task that the carry serves at once never waits. */
    ghost method Served(t: Task, got: bytes)
      requires Valid() && queue == [] && Received(t, got) && t.buf != buf1
      modifies this`held, this`state
      ensures Valid() && held == old(held) + [t]
      ensures state == old(state).(done := old(state.done) + [Delivery(t.req, got)])
    {
      held := held + [t];
      state := state.(done := state.done + [Delivery(t.req, got)]);
    }

    /** Try a new task on the carry; the rest of the connection still stands. */
    method TryNew(t: Task) returns (finished: bool)
      requires Valid() && queue == [] && len1 > 0 && t.Valid() && NewTo(t, held, queue, buf1)
      modifies this`len1, this`state, buf1, t`len, t`cur, t`left, t.buf
      ensures Valid()
      ensures var p := Remaining(old(t.Model()), old(state.carry));
        && state == old(state).(carry := p.carry)
        && finished == p.finished
        && (finished ==> t.len <= t.buf.Length && t.buf[..t.len] == p.waiter.got)
        && (!finished ==> t.Valid() && t.Model() == p.waiter)
    {
      ghost var p := Remaining(t.Model(), state.carry);
      finished := TryRemaining(t);
      state := state.(carry := p.carry);
    }

    /** `recv_till::run` when the carry may serve the task at once. */
    method RunNow(t: Task)
      requires Valid() && t.Valid() && t.cur == 0 && NewTo(t, held, queue, buf1)
      requires len1 > 0 && queue == []
      modifies this`len1, this`queue, this`held, this`reading, this`state, buf1, t, t.buf
      ensures Valid() && state == StartTask(old(state), t.req)
      ensures held + queue == old(held) + [t]
    {
      ghost var p := Remaining(t.Model(), state.carry);
      assert t.Model() == Waiter(t.req, []);
      var finished := TryNew(t);
      if finished {
        t.ret := SUCCESS;
        Served(t, p.waiter.got);
      } else {
        assert state.queue + [p.waiter] == [p.waiter];
        Enqueue(t);
      }
    }

    /** `recv_till::run`: served at once from the carry, or queued. */
    method Run(t: Task)
      requires Valid() && t.Valid() && t.cur == 0 && NewTo(t, held, queue, buf1)
      modifies this`len1, this`queue, this`held, this`reading, this`state, buf1, t, t.buf
      ensures Valid() && state == StartTask(old(state), t.req)
      ensures held + queue == old(held + queue) + [t]
    {
      if len1 > 0 && queue == [] {
        RunNow(t);
      } else {
        assert t.Model() == Waiter(t.req, []);
        Enqueue(t);
      }
    }

    /** Room for `n` more bytes behind the carry, in a larger buffer if need be. */
    method Reserve(n: nat)
      requires Valid() && n > 0
      modifies this`buf1, this`state
      ensures Valid() && len1 + n <= buf1.Length
      ensures buf1 == old(buf1) || fresh(buf1)
      ensures state == old(state).(size1 := if n > old(state.size1) - |old(state.carry)|
                then old(state.size1) + |old(state.carry)| + n else old(state.size1))
    {
      if n > buf1.Length - len1 {
        var grown := new byte[buf1.Length + len1 + n];
        MemCpy(grown, 0, buf1, len1);
        assert grown[..len1] == state.carry;
        state := state.(size1 := grown.Length);
        buf1 := grown;
        assert Shape();
        assert HeldValid();
      }
    }

    /** The bytes of a cancelled task go back behind the carry. */
    method GiveBack(t: Task)
      requires Valid() && t.Valid() && t.buf != buf1 && t.cur > 0 && len1 + t.cur <= buf1.Length
      modifies this`len1, this`state, buf1
      ensures Valid() && state == old(state).(carry := old(state.carry) + t.Model().got)
    {
      MemCpy(buf1, len1, t.buf, t.cur);
      len1 := len1 + t.cur;
      state := state.(carry := state.carry + t.buf[..t.cur]);
    }

    /** Erase the `i`-th waiting task. */
    method Erase(i: nat)
      requires Valid() && i < |queue|
      modifies this`queue, this`state
      ensures Valid() && queue == old(queue)[..i] + old(queue)[i + 1..]
      ensures state == old(state).(queue := old(state.queue)[..i] + old(state.queue)[i + 1..])
    {
      ApartErase(held, queue, buf1, i);
      ErasedAt(queue, i);
      ErasedAt(state.queue, i);
      queue := queue[..i] + queue[i + 1..];
      state := state.(queue := state.queue[..i] + state.queue[i + 1..]);
    }

    /** What an erased task had taken goes back, if it had taken anything. */
    method Return(t: Task)
      requires Valid() && t.Valid() && t.buf != buf1
      modifies this`buf1, this`len1, this`state, buf1
      ensures Valid() && state == Returned(old(state), old(t.Model().got))
    {
      if t.cur > 0 {
        Reserve(t.cur);
        GiveBack(t);
      } else {
        assert state.carry + t.Model().got == state.carry;
      }
    }

    /** `recv_till::cancel` on the `i`-th waiting task. */
    method Cancel(i: nat)
      requires Valid() && i < |queue|
      modifies this`buf1, this`len1, this`queue, this`fallback, this`state, buf1
      ensures Valid() && state == CancelTask(old(state), i)
      ensures queue == old(queue)[..i] + old(queue)[i + 1..]
    {
      ghost var s0 := state;
      var t := queue[i];
      Erase(i);
      Return(t);
      Notify(CancelTask(s0, i).scrambled);
    }

    /** The fallback notification is sent. */
    method Notify(ghost scrambled: bool)
      requires Valid()
      modifies this`fallback, this`state
      ensures Valid() && state == old(state).(fallback := true, scrambled := scrambled)
    {
      fallback := true;
      state := state.(fallback := true, scrambled := scrambled);
    }

    /** `tcp_fallback_cb1`. */
    method FallbackReceived()
      requires Valid()
      modifies this`len1, this`queue, this`held, this`state, this`reading, this`fallback
      modifies buf1, queue, set t | t in queue :: t.buf
      ensures Valid() && state == CheckRemaining(old(state).(fallback := false), Idle)
      ensures held + queue == old(held + queue)
    {
      fallback := false;
      state := state.(fallback := false);
      Check();
    }

    /** `tcp_alloc_cb1` when a pattern is awaited: the first read allocates `buf1`. */
    method Allocate()
      requires Valid()
      modifies this`buf1, this`state
      ensures Valid() && state == old(state).(size1 := if old(state.size1) == 0 then FIRST_SIZE1 else old(state.size1))
      ensures if old(buf1.Length) == 0 then fresh(buf1) && buf1.Length == FIRST_SIZE1 else buf1 == old(buf1)
    {
      if buf1.Length == 0 {
        buf1 := new byte[FIRST_SIZE1];
        state := state.(size1 := FIRST_SIZE1);
      }
    }

    /**
     `tcp_alloc_cb1`: the place and the room that the next read is offered. A task without a
     pattern lends all that is left of its own buffer; for a pattern it is all of `buf1` that
     is free, which the first such read allocates.
     */
    method Alloc() returns (place: array<byte>, at: nat, room: nat)
      requires Valid() && queue != [] && (queue[0].pattern == [] ==> len1 == 0)
      modifies this`buf1, this`state
      ensures Valid() && queue[0] == old(queue)[0] && at + room <= place.Length
      ensures queue[0].pattern == [] ==>
        && place == queue[0].buf && at == queue[0].cur && room == queue[0].left
        && buf1 == old(buf1) && state == old(state)
      ensures queue[0].pattern != [] ==>
        && place == buf1 && at == len1 && at + room == buf1.Length
        && (if old(buf1.Length) == 0 then buf1.Length == 1024 else buf1 == old(buf1))
        && state == old(state).(size1 := buf1.Length)
      ensures forall chunk: bytes :: ReadOk(old(state), chunk) <==> 0 < |chunk| <= room
    {
      var t := queue[0];
      if t.pattern == [] {
        return t.buf, t.cur, t.left;
      }
      Allocate();
      return buf1, len1, buf1.Length - len1;
    }

    /** The read itself, behind the carry. */
    method WriteCarry(chunk: bytes)
      requires Valid() && len1 + |chunk| <= buf1.Length
      modifies this`len1, this`state, buf1
      ensures Valid() && len1 == old(len1) + |chunk|
      ensures state == old(state).(carry := old(state.carry) + chunk, received := old(state.received) + chunk)
    {
      ghost var carry := state.carry;
      assert buf1[..len1] == carry;
      forall k | 0 <= k < |chunk| {
        buf1[len1 + k] := chunk[k];
      }
      len1 := len1 + |chunk|;
      assert buf1[..len1] == carry + chunk;
      state := state.(carry := carry + chunk, received := state.received + chunk);
    }

    /** The read itself in fill mode: straight into the task's own buffer. */
    method WriteOwn(t: Task, chunk: bytes) returns (full: bool)
      requires t.Valid() && 0 < |chunk| <= t.left
      modifies t`cur, t`left, t.buf
      ensures full == (|chunk| == old(t.left))
      ensures full ==> t.len <= t.buf.Length && t.buf[..t.len] == old(t.Model().got) + chunk
      ensures !full ==> t.Valid() && t.Model().got == old(t.Model().got) + chunk
    {
      ghost var got := t.buf[..t.cur];
      forall k | 0 <= k < |chunk| {
        t.buf[t.cur + k] := chunk[k];
      }
      assert t.buf[..t.cur + |chunk|] == got + chunk;
      full := |chunk| == t.left;
      if !full {
        t.cur, t.left := t.cur + |chunk|, t.left - |chunk|;
      }
    }

    /** A fill-mode task is offered its own buffer. */
    method FillHead(t: Task, chunk: bytes) returns (full: bool)
      requires Valid() && queue != [] && t == queue[0] && state.carry == []
      requires 0 < |chunk| <= t.left
      modifies this`state, t`cur, t`left, t.buf
      ensures full == (|chunk| == old(t.left))
      ensures state == old(state).(received := old(state.received) + chunk)
      ensures var w := old(t.Model()); HeadTried(Progress(full, w.(got := w.got + chunk), []))
    {
      full := WriteOwn(t, chunk);
      state := state.(received := state.received + chunk);
    }

    /** The connection's state after a read in fill mode. */
    method ReadOwn(chunk: bytes)
      requires Valid() && queue != [] && state.carry == []
      requires 0 < |chunk| <= state.queue[0].Left()
      modifies this`queue, this`held, this`state, queue[0], queue[0].buf
      ensures Valid() && state == OwnRead(old(state), chunk)
      ensures queue == old(queue) || queue == old(queue)[1..]
      ensures held + queue == old(held + queue)
    {
      var t := queue[0];
      ghost var p := Progress(|chunk| == t.left, t.Model().(got := t.Model().got + chunk), []);
      var full := FillHead(t, chunk);
      if full {
        PopHead(t, p);
      } else {
        KeepHead(p);
      }
    }

    /** The connection's state after a read in pattern mode and one try. */
    method ReadShared(chunk: bytes)
      requires Valid() && queue != [] && queue[0].pattern != []
      requires 0 < |chunk| <= Window(state)
      modifies this`buf1, this`len1, this`queue, this`held, this`state, buf1, queue[0], queue[0].buf
      ensures Valid() && state == SharedRead(old(state), chunk)
      ensures queue == old(queue) || queue == old(queue)[1..]
      ensures held + queue == old(held + queue)
      ensures buf1 == old(buf1) || fresh(buf1)
    {
      ghost var s := state;
      Allocate();
      WriteCarry(chunk);
      assert state == Grown(s, chunk);
      var finished := Round();
    }

    /** `tcp_recv_cb1` in fill mode. */
    method ReceiveOwn(chunk: bytes)
      requires Valid() && queue != [] && queue[0].pattern == [] && ReadOk(state, chunk)
      modifies this`len1, this`queue, this`held, this`state, this`reading, this`fallback
      modifies buf1, queue, set t | t in queue :: t.buf
      ensures Valid() && state == CheckRemaining(OwnRead(old(state), chunk), Idle)
      ensures held + queue == old(held + queue)
    {
      ReadOwn(chunk);
      Check();
    }

    /** `tcp_recv_cb1` in pattern mode. */
    method ReceiveShared(chunk: bytes)
      requires Valid() && queue != [] && queue[0].pattern != [] && ReadOk(state, chunk)
      modifies this`buf1, this`len1, this`queue, this`held, this`state, this`reading, this`fallback
      modifies buf1, queue, set t | t in queue :: t.buf
      ensures Valid() && state == CheckRemaining(SharedRead(old(state), chunk), Idle)
      ensures held + queue == old(held + queue)
    {
      ReadShared(chunk);
      Check();
    }

    /** `tcp_alloc_cb1` and `tcp_recv_cb1` on a read of `chunk`. */
    method Receive(chunk: bytes)
      requires Valid() && ReadOk(state, chunk)
      modifies this`buf1, this`len1, this`queue, this`held, this`state, this`reading, this`fallback
      modifies buf1, queue, set t | t in queue :: t.buf
      ensures Valid() && state == ReadChunk(old(state), chunk, Idle)
      ensures held + queue == old(held + queue)
    {
      ReadIsCheck(state, chunk);
      if queue[0].pattern == [] {
        ReceiveOwn(chunk);
      } else {
        ReceiveShared(chunk);
      }
    }
  }

  /** The free space of the place where the next read goes, in the terms of the fields. */
  ghost function Free(c: Connected): int
    requires c.queue != []
    reads c, c.buf1, c.queue[0]
  {
    if c.queue[0].pattern == [] then c.queue[0].left
    else (if c.buf1.Length == 0 then 1024 else c.buf1.Length) - c.len1
  }

  /**
   The loop may deliver any fragment that fits the free space, and no other: in a settled
   state with reading on, the size of a read is bounded by the buffers alone.
   */
  lemma EveryFragmentEnabled(c: Connected, chunk: bytes)
    requires c.Valid() && Good(c.state) && !c.fallback && c.queue != []
    ensures c.reading
    ensures Enabled(c.state, Read(chunk)) <==> 0 < |chunk| <= Free(c)
    ensures ReadOk(c.state, chunk) <==> 0 < |chunk| <= Free(c)
  {
    assert c.queue[0].Valid() && c.queue[0].Model() == c.state.queue[0];
  }

  /** Tasks may act at any time, and the notification comes just when one is under way. */
  lemma OthersEnabled(c: Connected, actions: seq<Action>)
    requires c.Valid()
    ensures Enabled(c.state, Tasks(actions))
    ensures Enabled(c.state, Fallback) <==> c.fallback
  {
  }

  ghost function OwnRead(s: Conn, chunk: bytes): Conn
    requires s.queue != []
  {
    var w, t := s.queue[0], s.(received := s.received + chunk);
    if |chunk| == w.Left() then Pop(t, w.got + chunk, [])
    else t.(queue := t.queue[0 := w.(got := w.got + chunk)], carry := [])
  }

  ghost function SharedRead(s: Conn, chunk: bytes): (s': Conn)
    requires Wf(s) && s.queue != []
    ensures Wf(s')
  {
    var u := Grown(s, chunk);
    var p := Remaining(u.queue[0], u.carry);
    if p.finished then Pop(u, p.waiter.got, p.carry) else Kept(u, p)
  }

  lemma PatternTake(w: Waiter, carry: bytes, found: bool, copy: nat)
    requires |w.got| < w.req.cap && 0 < |w.req.pattern| <= |carry|
    requires match FindFrom(carry, w.req.pattern, 0)
      case Some(i) => found && copy == i + |w.req.pattern|
      case None => !found && copy == |carry| - |w.req.pattern| + 1
    ensures w.Left() <= |carry| || copy < w.Left()
    ensures copy <= |carry|
    ensures Remaining(w, carry) ==
            if copy >= w.Left() then Take(w, carry, w.Left(), true) else Take(w, carry, copy, found)
  {
    var p, left := w.req.pattern, w.Left();
    var r := FindFrom(carry, p, 0);
    assert copy <= |carry|;
    match r {
      case Some(i) =>
        assert Remaining(w, carry) == Take(w, carry, Min(copy, left), true);
      case None =>
        assert Remaining(w, carry) == if copy >= left then Take(w, carry, left, true) else Take(w, carry, copy, false);
    }
  }

  lemma ErasedAt<T>(q: seq<T>, i: nat)
    requires i < |q|
    ensures var r := q[..i] + q[i + 1..];
      |r| == |q| - 1 && forall j | 0 <= j < |r| :: r[j] == q[if j < i then j else j + 1]
  {
  }

  lemma ApartErase(held: seq<Task>, queue: seq<Task>, buf1: array<byte>, i: nat)
    requires Apart(held, queue, buf1) && i < |queue|
    ensures Apart(held, queue[..i] + queue[i + 1..], buf1)
  {
    ErasedAt(queue, i);
  }

  lemma ApartAppend(t: Task, held: seq<Task>, queue: seq<Task>, buf1: array<byte>)
    requires Apart(held, queue, buf1) && NewTo(t, held, queue, buf1)
    ensures Apart(held, queue + [t], buf1)
  {
  }

  lemma WfAppend(s: Conn, w: Waiter)
    requires Wf(s) && |w.got| < w.req.cap && (w.got == [] || s.queue == [])
    ensures Wf(s.(queue := s.queue + [w], reading := true))
  {
  }

  /** A read is a change of the first waiter, followed by `check_remaining`. */
  lemma ReadIsCheck(s: Conn, chunk: bytes)
    requires Wf(s) && ReadOk(s, chunk)
    ensures ReadChunk(s, chunk, Idle) ==
            CheckRemaining(if s.queue[0].req.pattern == [] then OwnRead(s, chunk) else SharedRead(s, chunk), Idle)
  {
    var w, t := s.queue[0], s.(received := s.received + chunk);
    if w.req.pattern != [] {
      RoundIsCheck(Grown(s, chunk));
    } else if |chunk| == w.Left() {
      assert Complete(t, w.got + chunk, [], Idle) == Pop(t, w.got + chunk, []);
    }
  }

  /** `got` appended to the carry, and the capacity that takes. */
  ghost function Returned(s: Conn, got: bytes): Conn {
    s.(carry := s.carry + got,
       size1 := if |got| > s.size1 - |s.carry| then s.size1 + |s.carry| + |got| else s.size1)
  }

  lemma HeadOfSuffix(q0: seq<Task>, q: seq<Task>)
    requires 0 < |q| <= |q0| && q == q0[|q0| - |q|..]
    ensures q[0] in q0
  {
    assert q0[|q0| - |q|] == q[0];
  }

  lemma SuffixStep<T>(q: seq<T>, n: nat)
    requires 0 < n <= |q|
    ensures q[|q| - n..][1..] == q[|q| - (n - 1)..]
  {
  }

  lemma RoundIsCheck(s: Conn)
    requires Wf(s) && s.queue != [] && s.carry != []
    ensures var p := Remaining(s.queue[0], s.carry);
      CheckRemaining(s, Idle) ==
        if p.finished then CheckRemaining(Pop(s, p.waiter.got, p.carry), Idle) else StopIfIdle(Kept(s, p))
  {
    var p := Remaining(s.queue[0], s.carry);
    if p.finished {
      assert Complete(s, p.waiter.got, p.carry, Idle) == Pop(s, p.waiter.got, p.carry);
    }
  }

  /** The state after a first waiter that could not finish. */
  ghost function Kept(s: Conn, p: Progress): Conn
    requires s.queue != []
  {
    s.(queue := s.queue[0 := p.waiter], carry := p.carry)
  }
}
