/**
 The control flow over whole runs. That a cancel always finds its child parked needs one
 thing more than the invariant of single states: a child is younger than its combinator,
 and so is every coroutine than those below it on the stack.
 */
module CoroutineRuns {
  import opened Coroutines
  import opened CoroutineSafety

  /** The unfinished children of the combinator that is innermost in `c`. */
  function Kids(m: Machine, c: Id): set<Id> {
    if IsRunning(m, c) && m.cos[c].Top().kind.Combinator? then m.cos[c].Top().kind.children else {}
  }

  /** When each coroutine got its task; `now` is later than all of them. */
  type Births = map<Id, nat>

  ghost predicate Known(m: Machine, born: Births, now: nat) {
    forall c | c in m.cos :: c in born && born[c] < now
  }

  /** Children are younger: the family has no cycles. */
  ghost predicate YoungerKids(m: Machine, born: Births) {
    forall c, d | d in Kids(m, c) :: c in born && d in born && born[c] < born[d]
  }

  /** So is the stack, from its bottom to its top. */
  ghost predicate YoungerUp(stack: seq<Id>, born: Births) {
    && (forall i | 0 <= i < |stack| :: stack[i] in born)
    && (forall i, j | 0 <= i < j < |stack| :: born[stack[i]] < born[stack[j]])
  }

  ghost predicate Aged(m: Machine, born: Births, now: nat) {
    Known(m, born, now) && YoungerKids(m, born) && YoungerUp(m.stack, born)
  }

  /** The births after an operation. */
  function NextBirths(born: Births, now: nat, op: Op): Births {
    match op
    case Boot(d, _) => born[d := now]
    case StartChild(d, _) => born[d := now]
    case StartTask(d, _) => born[d := now]
    case _ => born
  }

  /** A running child of the running combinator is parked: it cannot be below it on the stack. */
  lemma ChildIsParked(m: Machine, born: Births, now: nat, d: Id)
    requires Inv(m) && Aged(m, born, now) && Enabled(m, CancelChild(d))
    ensures Parked(m, d)
  {
    SelfInStack(m);
    var c := m.current.id;
    assert d in Kids(m, c);
    forall i | 0 <= i < |m.stack| ensures m.stack[i] != d {
      assert born[m.stack[i]] <= born[c] < born[d];
    }
    assert OutOfStack(m.cos[d]);
  }

  /** The coroutine that gets a new task is nobody's child yet. */
  lemma FreeIsNoKid(m: Machine, d: Id)
    requires Family(m) && IsFree(m, d)
    ensures Kids(m, d) == {} && forall c :: d !in Kids(m, c)
  {
  }

  /** No operation but the start of a child makes anybody a child. */
  ghost predicate NoNewKids(m: Machine, m': Machine) {
    m'.cos.Keys == m.cos.Keys && forall c :: Kids(m', c) <= Kids(m, c)
  }

  lemma KidsBoot(m: Machine, d: Id, k: Kind)
    requires Inv(m) && Enabled(m, Boot(d, k))
    ensures NoNewKids(m, Step(m, Boot(d, k)))
  {
  }

  lemma KidsWake(m: Machine, d: Id)
    requires Inv(m) && Enabled(m, Wake(d))
    ensures NoNewKids(m, Step(m, Wake(d)))
  {
  }

  lemma KidsAwait(m: Machine, k: Kind)
    requires Inv(m) && Enabled(m, Await(k))
    ensures NoNewKids(m, Step(m, Await(k)))
  {
  }

  lemma KidsReturn(m: Machine)
    requires Inv(m) && Enabled(m, Op.Return)
    ensures NoNewKids(m, Step(m, Op.Return))
  {
    var c := Self(m);
    assert c.chain[|c.chain| - 2] == Frame(User, Loop);
  }

  /** The children of one coroutine in another state. */
  function KidsOf(c: Coroutine): set<Id> {
    if c.Active() && c.Top().kind.Combinator? then c.Top().kind.children else {}
  }

  lemma KidsSet(m: Machine, m0: Machine, c: Id, k: Coroutine)
    requires NoNewKids(m, m0) && c in m.cos && KidsOf(k) <= Kids(m, c)
    ensures NoNewKids(m, Set(m0, c, k))
  {
  }

  lemma KidsSwitch(m: Machine, m0: Machine, t: Target, stack: seq<Id>)
    requires NoNewKids(m, m0)
    ensures NoNewKids(m, SwitchTo(m0, t).(stack := stack))
  {
    if t.Co? && t.id in m0.cos {
      assert KidsOf(m0.cos[t.id].(place := Live)) == Kids(m0, t.id);
    }
  }

  lemma KidsYield(m: Machine)
    requires Inv(m) && Enabled(m, Yield)
    ensures NoNewKids(m, Step(m, Yield))
  {
    var c := Self(m);
    var k := c.WithTop(c.Top().(blockTo := Loop)).(place := AtYield, blocked := true);
    KidsSet(m, m, m.current.id, k);
    KidsSwitch(m, Set(m, m.current.id, k), c.Top().blockTo, Step(m, Yield).stack);
  }

  lemma KidsStartTask(m: Machine, d: Id, k: Kind)
    requires Inv(m) && Enabled(m, StartTask(d, k))
    ensures NoNewKids(m, Step(m, StartTask(d, k)))
  {
    var id := m.current.id;
    var c, f := Self(m).(place := AtSwap(d)), FREE.(chain := [Frame(k, Co(id))], starter := Co(id));
    KidsSet(m, m, id, c);
    KidsSet(m, Set(m, id, c), d, f);
    KidsSwitch(m, Set(Set(m, id, c), d, f), Co(d), m.stack + [d]);
  }

  lemma KidsFinish(m: Machine)
    requires Inv(m) && Enabled(m, Finish)
    ensures NoNewKids(m, Step(m, Finish))
  {
    var id, c := m.current.id, Self(m);
    var t := Next(c);
    KidsSet(m, m, id, FREE);
    var m1 := Set(m, id, FREE);
    if t.Co? && t.id in m1.cos && c.finishTo == t {
      assert KidsOf(CountOff(m1.cos[t.id], id)) <= Kids(m1, t.id);
      KidsSet(m, m1, t.id, CountOff(m1.cos[t.id], id));
      KidsSwitch(m, Set(m1, t.id, CountOff(m1.cos[t.id], id)), t, Step(m, Finish).stack);
    } else {
      KidsSwitch(m, m1, t, Step(m, Finish).stack);
    }
  }

  lemma KidsCancelChild(m: Machine, d: Id)
    requires Inv(m) && Enabled(m, CancelChild(d))
    ensures NoNewKids(m, Step(m, CancelChild(d)))
  {
    var c, f := Self(m).(place := AtSwap(d)), m.cos[d].(unwinding := true);
    KidsSet(m, m, m.current.id, c);
    KidsSet(m, Set(m, m.current.id, c), d, f);
    KidsSwitch(m, Set(Set(m, m.current.id, c), d, f), Co(d), m.stack + [d]);
  }

  lemma OldKids(m: Machine, op: Op)
    requires Inv(m) && Enabled(m, op) && !op.StartChild?
    ensures NoNewKids(m, Step(m, op))
  {
    match op {
      case Boot(d, k) => KidsBoot(m, d, k);
      case Wake(d) => KidsWake(m, d);
      case Await(k) => KidsAwait(m, k);
      case Return => KidsReturn(m);
      case Yield => KidsYield(m);
      case StartTask(d, k) => KidsStartTask(m, d, k);
      case Finish => KidsFinish(m);
      case CancelChild(d) => KidsCancelChild(m, d);
    }
  }

  lemma NewKid(m: Machine, d: Id, k: Kind)
    requires Inv(m) && Enabled(m, StartChild(d, k))
    ensures var m' := Step(m, StartChild(d, k));
      && m'.cos.Keys == m.cos.Keys
      && forall c :: Kids(m', c) <= (if c == m.current.id then Kids(m, c) + {d} else Kids(m, c))
  {
  }

  /** The stack afterwards: the same, its lower part, one on top, or a single coroutine. */
  lemma StackAfter(m: Machine, op: Op)
    requires Inv(m) && Enabled(m, op)
    ensures var s := Step(m, op).stack;
      || s <= m.stack
      || (op.StartChild? && s == m.stack + [op.id])
      || (op.StartTask? && s == m.stack + [op.id])
      || (op.CancelChild? && s == m.stack + [op.id])
      || (|s| == 1 && s[0] in m.cos)
  {
    match op {
      case Yield => YieldOk(m);
      case Finish => FinishOk(m);
      case _ =>
    }
  }

  lemma TopsCurrent(m: Machine)
    requires Inv(m) && CanRun(m)
    ensures m.stack != [] && m.stack[|m.stack| - 1] == m.current.id && m.current.id in m.cos
  {
    SelfInStack(m);
  }

  lemma YoungerPush(stack: seq<Id>, born: Births, d: Id)
    requires YoungerUp(stack, born) && d in born
    requires stack != [] ==> born[stack[|stack| - 1]] < born[d]
    ensures YoungerUp(stack + [d], born)
  {
  }

  lemma YoungerSame(stack: seq<Id>, s: seq<Id>, m: Machine, born: Births, now: nat)
    requires YoungerUp(stack, born) && Known(m, born, now)
    requires s <= stack || (|s| == 1 && s[0] in m.cos)
    ensures YoungerUp(s, born)
  {
  }

  lemma YoungerStack(m: Machine, op: Op, born: Births, now: nat)
    requires Inv(m) && Enabled(m, op) && Aged(m, born, now)
    ensures YoungerUp(Step(m, op).stack, NextBirths(born, now, op))
  {
    match op {
      case StartChild(d, _) => StartedOnTop(m, d, born, now);
      case StartTask(d, _) => StartedOnTop(m, d, born, now);
      case CancelChild(d) =>
        TopsCurrent(m);
        assert d in Kids(m, m.current.id);
        YoungerPush(m.stack, born, d);
      case Boot(d, _) => assert YoungerUp([d], born[d := now]);
      case _ =>
        StackAfter(m, op);
        YoungerSame(m.stack, Step(m, op).stack, m, born, now);
    }
  }

  lemma StartedOnTop(m: Machine, d: Id, born: Births, now: nat)
    requires Inv(m) && CanRun(m) && Aged(m, born, now) && IsFree(m, d)
    ensures YoungerUp(m.stack + [d], born[d := now])
  {
    TopsCurrent(m);
    OnStack(m, d);
    forall i | 0 <= i < |m.stack| ensures m.stack[i] in m.cos && m.stack[i] != d {
      assert InStack(m, i);
    }
    YoungerPush(m.stack, born[d := now], d);
  }

  lemma KidsAged(m: Machine, m': Machine, born: Births, now: nat)
    requires Known(m, born, now) && YoungerKids(m, born) && NoNewKids(m, m')
    ensures Known(m', born, now + 1) && YoungerKids(m', born)
  {
  }

  /** A coroutine that gets a new task is younger than everybody. */
  lemma StartAged(m: Machine, m': Machine, d: Id, born: Births, now: nat)
    requires Known(m, born, now) && YoungerKids(m, born) && d in m.cos && m'.cos.Keys == m.cos.Keys
    requires Kids(m, d) == {} && forall c :: d !in Kids(m, c)
    requires m.current.Co? ==> m.current.id in m.cos && m.current.id != d
    requires forall c :: Kids(m', c) <= if m.current == Co(c) then Kids(m, c) + {d} else Kids(m, c)
    ensures Known(m', born[d := now], now + 1) && YoungerKids(m', born[d := now])
  {
    forall c, e | e in Kids(m', c) ensures c in m.cos && c != d && born[d := now][c] < if e == d then now else born[e] {
      if e != d {
        assert e in Kids(m, c);
        assert c in m.cos;
      }
    }
  }

  lemma StepAged(m: Machine, op: Op, born: Births, now: nat)
    requires Inv(m) && Enabled(m, op) && Aged(m, born, now)
    ensures Aged(Step(m, op), NextBirths(born, now, op), now + 1)
  {
    YoungerStack(m, op, born, now);
    match op {
      case StartChild(d, k) =>
        NewKid(m, d, k);
        FreeIsNoKid(m, d);
        TopsCurrent(m);
        StartAged(m, Step(m, op), d, born, now);
      case Boot(d, _) =>
        OldKids(m, op);
        FreeIsNoKid(m, d);
        StartAged(m, Step(m, op), d, born, now);
      case StartTask(d, _) =>
        OldKids(m, op);
        FreeIsNoKid(m, d);
        TopsCurrent(m);
        StartAged(m, Step(m, op), d, born, now);
      case _ =>
        OldKids(m, op);
        KidsAged(m, Step(m, op), born, now);
    }
  }

  lemma StepKeeps(m: Machine, op: Op, born: Births, now: nat)
    requires Inv(m) && Aged(m, born, now) && Enabled(m, op)
    ensures Inv(Step(m, op)) && Aged(Step(m, op), NextBirths(born, now, op), now + 1)
  {
    StepAged(m, op, born, now);
    match op {
      case Boot(d, k) => BootKeeps(m, d, k);
      case Wake(d) => WakeKeeps(m, d);
      case Await(k) => AwaitKeeps(m, k);
      case Return => ReturnKeeps(m);
      case Yield => if Self(m).Top().blockTo == Loop { YieldToLoop(m); } else { YieldUp(m); }
      case StartChild(d, k) => StartChildKeeps(m, d, k);
      case StartTask(d, k) => StartTaskKeeps(m, d, k);
      case CancelChild(d) =>
        ChildIsParked(m, born, now, d);
        CancelChildKeeps(m, d);
      case Finish =>
        if Next(Self(m)) == Loop { FinishToLoop(m); }
        else if Self(m).finishTo == Loop { FinishToStarter(m); }
        else { FinishToParent(m); }
    }
  }

  ghost predicate Legal(m: Machine, ops: seq<Op>)
    decreases |ops|
  {
    ops == [] || (Enabled(m, ops[0]) && Legal(Step(m, ops[0]), ops[1..]))
  }

  ghost function Exec(m: Machine, ops: seq<Op>): Machine
    requires Legal(m, ops)
    decreases |ops|
  {
    if ops == [] then m else Exec(Step(m, ops[0]), ops[1..])
  }

  /** The machine before `cocoflow()`: every coroutine at the head of its loop. */
  function Initial(ids: set<Id>): Machine { Machine(map d | d in ids :: FREE, Loop, 0, []) }

  lemma {:induction false} RunKeeps(m: Machine, ops: seq<Op>, born: Births, now: nat) returns (born': Births, now': nat)
    requires Inv(m) && Aged(m, born, now) && Legal(m, ops)
    ensures Inv(Exec(m, ops)) && Aged(Exec(m, ops), born', now')
    decreases |ops|
  {
    if ops == [] {
      born', now' := born, now;
    } else {
      StepKeeps(m, ops[0], born, now);
      born', now' := RunKeeps(Step(m, ops[0]), ops[1..], NextBirths(born, now, ops[0]), now + 1);
    }
  }

  /** Before the first task nobody has a child, and the stack is empty. */
  lemma FromStart(ids: set<Id>, ops: seq<Op>) returns (born: Births, now: nat)
    requires Legal(Initial(ids), ops)
    ensures Inv(Exec(Initial(ids), ops)) && Aged(Exec(Initial(ids), ops), born, now)
  {
    born, now := RunKeeps(Initial(ids), ops, map d | d in ids :: 0, 1);
  }

  /**
   MAIN RESULT. In every run, every yield and every end of a base task switches to a
   context that is parked waiting for exactly that, every cancel of a running child
   switches to a coroutine that is parked in a yield, and an await is made by the innermost
   task of its chain.
   */
  lemma SwitchesLand(ids: set<Id>, ops: seq<Op>, op: Op)
    requires Legal(Initial(ids), ops) && Enabled(Exec(Initial(ids), ops), op)
    ensures var m := Exec(Initial(ids), ops);
      && (op == Yield ==> SwitchOk(m, Self(m).Top().blockTo, false))
      && (op == Finish ==> SwitchOk(m, Next(Self(m)), true))
      && (op.CancelChild? ==> Parked(m, op.id))
      && (op.Await? ==> m.task == |Self(m).chain| - 1)
  {
    var born, now := FromStart(ids, ops);
    var m := Exec(Initial(ids), ops);
    match op {
      case Yield => YieldOk(m);
      case Finish => FinishOk(m);
      case CancelChild(d) => ChildIsParked(m, born, now, d);
      case _ =>
    }
  }

  /**
   MAIN RESULT. The block token is spent once: in every reachable state a coroutine that
   runs a task gives control to its starter at its first yield, to the event loop at
   every later one, and no task of its chain but the innermost holds anything.
   */
  lemma TokenSpentOnce(ids: set<Id>, ops: seq<Op>, c: Id)
    requires Legal(Initial(ids), ops) && c in Exec(Initial(ids), ops).cos
    ensures var k := Exec(Initial(ids), ops).cos[c];
      k.Active() ==>
        && k.Top().blockTo == (if k.blocked then Loop else k.starter)
        && forall i | 0 <= i < |k.chain| - 1 :: k.chain[i].blockTo == Loop
  {
    var _, _ := FromStart(ids, ops);
    assert Tokens(Exec(Initial(ids), ops).cos[c]);
  }

  /* ---------- start() in an awaited task ---------- */

  /** A task started by the running one, that ends without blocking. */
  function StartAndEnd(m: Machine, d: Id): Machine
    requires CanRun(m) && IsFree(m, d)
  {
    Step(DoStart(m, d, User), Finish)
  }

  /** A task started by the running one, that awaits a leaf, which yields to the starter. */
  function StartAndYield(m: Machine, d: Id): Machine
    requires CanRun(m) && IsFree(m, d) && d != m.current.id
  {
    Step(Step(DoStart(m, d, User), Await(Leaf)), Yield)
  }

  /** Control is back in the coroutine of `m`, with its chain as it was. */
  ghost predicate BackIn(m: Machine, m': Machine)
    requires CanRun(m)
  {
    CanRun(m') && m'.current == m.current && Self(m').chain == Self(m).chain
  }

  /**
   `swap_running` restores the base task, not the innermost one, as the current task. So
   `start` may only be called by a base task: it leaves the current task right exactly
   then, whether the started task ends at once or yields. Whatever the chain was, the next
   `await` leaves only the base and its target.
   */
  lemma StartOnlyAtBase(m: Machine, d: Id, k: Kind)
    requires Inv(m) && CanRun(m) && Self(m).Top().kind == User && !Self(m).unwinding && IsFree(m, d)
    ensures forall m' | m' == StartAndEnd(m, d) || m' == StartAndYield(m, d) ::
      && BackIn(m, m')
      && (CurrentTask(m') <==> |Self(m).chain| == 1)
      && |Self(DoAwait(m', k)).chain| == 2
  {
    SelfInStack(m);
    OnStack(m, d);
    YieldsBack(m, d);
    EndsBack(m, d);
    BackAtBase(m, StartAndEnd(m, d), k);
    BackAtBase(m, StartAndYield(m, d), k);
  }

  /** Back in a chain with its base task current. */
  lemma BackAtBase(m: Machine, m': Machine, k: Kind)
    requires CanRun(m) && Self(m).Top().kind == User && !Self(m).unwinding
    requires BackIn(m, m') && m'.task == 0 && !Self(m').unwinding
    ensures CurrentTask(m') <==> |Self(m).chain| == 1
    ensures |Self(DoAwait(m', k)).chain| == 2
  {
  }

  lemma EndsBack(m: Machine, d: Id)
    requires CanRun(m) && IsFree(m, d) && d != m.current.id
    ensures var m' := StartAndEnd(m, d); BackIn(m, m') && m'.task == 0 && Self(m').unwinding == Self(m).unwinding
  {
    var m1 := DoStart(m, d, User);
    assert Self(m1).chain == [Frame(User, Co(m.current.id))] && Next(Self(m1)) == m.current;
  }

  lemma YieldsBack(m: Machine, d: Id)
    requires CanRun(m) && IsFree(m, d) && d != m.current.id
    ensures var m' := StartAndYield(m, d); BackIn(m, m') && m'.task == 0 && Self(m').unwinding == Self(m).unwinding
  {
    var m1 := DoStart(m, d, User);
    assert Self(m1).chain == [Frame(User, Co(m.current.id))];
    var m2 := Step(m1, Await(Leaf));
    assert Self(m2).chain == [Frame(User, Loop), Frame(Leaf, Co(m.current.id))];
    assert Self(m2).Top().blockTo == m.current;
  }
}
