/** What each operation does to the coroutines, and that somebody can always go on. */
module CoroutineSteps {
  import opened Coroutines
  import opened CoroutineSafety
  import opened CoroutineRuns

  /** The tasks of a chain, without their tokens. */
  function Kinds(c: Coroutine): seq<Kind> { seq(|c.chain|, i requires 0 <= i < |c.chain| => c.chain[i].kind) }

  /** Nobody else is touched. */
  ghost predicate OthersSame(m: Machine, m': Machine, a: Target, b: Target) {
    m'.cos.Keys == m.cos.Keys && forall d | d in m.cos && Co(d) != a && Co(d) != b :: m'.cos[d] == m.cos[d]
  }

  /** A fresh task of this kind runs alone on its coroutine. */
  ghost predicate Fresh(m: Machine, d: Id, k: Kind, finishTo: Target, starter: Target) {
    && m.current == Co(d) && d in m.cos && m.task == 0
    && Kinds(m.cos[d]) == [k] && m.cos[d].finishTo == finishTo && m.cos[d].starter == starter
    && !m.cos[d].unwinding
  }

  /** Where an ended base task goes: to its combinator, to the loop once it has yielded, else to its starter. */
  function EndsAt(c: Coroutine): Target {
    if c.finishTo != Loop then c.finishTo else if c.blocked then Loop else c.starter
  }

  lemma NewTasks(m: Machine, op: Op)
    requires Inv(m) && Enabled(m, op)
    ensures match op
            case Boot(d, k) => Fresh(Step(m, op), d, k, Loop, Loop)
            case StartChild(d, k) => Fresh(Step(m, op), d, k, m.current, m.current)
            case StartTask(d, k) => Fresh(Step(m, op), d, k, Loop, m.current)
            case _ => true
    ensures op.StartChild? ==>
      var c := Step(m, op).cos[m.current.id];
      && c.chain[..|c.chain| - 1] == Self(m).chain[..|c.chain| - 1] && |c.chain| == |Self(m).chain|
      && c.Top().kind == Combinator(Self(m).Top().kind.children + {op.id})
    ensures op.StartTask? ==> Step(m, op).cos[m.current.id].chain == Self(m).chain
  {
  }

  lemma OwnChain(m: Machine, op: Op)
    requires Inv(m) && Enabled(m, op)
    ensures op.Await? ==>
      var m' := Step(m, op);
      && CanRun(m') && m'.current == m.current && Kinds(Self(m')) == Kinds(Self(m)) + [op.kind]
      && m'.task == |Self(m).chain|
    ensures op.Return? ==>
      var m', n := Step(m, op), |Self(m).chain|;
      && CanRun(m') && m'.current == m.current && Kinds(Self(m')) == Kinds(Self(m))[..n - 1] && m'.task == n - 2
  {
    if op.Await? {
      SelfInStack(m);
      assert m.task == |Self(m).chain| - 1;
    }
  }

  /** Where control goes when a coroutine gives it up, and what stays behind. */
  lemma GivesUp(m: Machine, op: Op)
    requires Inv(m) && Enabled(m, op)
    ensures op.Yield? ==>
      var m', c := Step(m, op), m.current.id;
      && m'.current == (if Self(m).blocked then Loop else Self(m).starter)
      && Parked(m', c) && Kinds(m'.cos[c]) == Kinds(Self(m)) && m'.cos[c].finishTo == Self(m).finishTo
    ensures op.Finish? ==>
      var m', c := Step(m, op), m.current.id;
      m'.current == EndsAt(Self(m)) && m'.cos[c] == FREE
  {
    SelfActive(m, op);
    if op.Yield? {
      YieldOk(m);
      SelfInStack(m);
    }
    if op.Finish? {
      FinishOk(m);
      SelfInStack(m);
    }
  }

  lemma SelfActive(m: Machine, op: Op)
    requires Inv(m) && Enabled(m, op)
    ensures op.Yield? || op.Finish? ==> CanRun(m) && Tokens(Self(m))
  {
  }

  /** An ended child is counted off by its combinator, whose other children stay. */
  lemma EndsChild(m: Machine)
    requires Inv(m) && Enabled(m, Finish) && Self(m).finishTo.Co?
    ensures var m', c, p := Step(m, Finish), m.current.id, Self(m).finishTo.id;
      && p in m.cos && p in m'.cos && m'.current == Co(p)
      && KidsOf(m'.cos[p]) == KidsOf(m.cos[p]) - {c} && c in KidsOf(m.cos[p])
  {
    FinishOk(m);
  }

  /** The loop or a combinator resumes a coroutine as it was. */
  lemma Resumes(m: Machine, op: Op, born: Births, now: nat)
    requires Inv(m) && Aged(m, born, now) && Enabled(m, op)
    ensures op.Wake? ==>
      var m' := Step(m, op);
      m'.current == Co(op.id) && m'.cos[op.id] == m.cos[op.id].(place := Live)
    ensures op.CancelChild? ==>
      var m' := Step(m, op);
      && m'.current == Co(op.id) && m'.cos[op.id] == m.cos[op.id].(place := Live, unwinding := true)
      && m'.cos[m.current.id] == Self(m).(place := AtSwap(op.id))
  {
    if op.CancelChild? {
      ChildIsParked(m, born, now, op.id);
      SelfInStack(m);
    }
  }

  lemma SetOthers(m: Machine, m0: Machine, a: Target, b: Target, c: Id, k: Coroutine)
    requires OthersSame(m, m0, a, b) && c in m.cos && (a == Co(c) || b == Co(c))
    ensures OthersSame(m, Set(m0, c, k), a, b)
  {
  }

  lemma SwitchOthers(m: Machine, m0: Machine, a: Target, b: Target, stack: seq<Id>)
    requires OthersSame(m, m0, a, b)
    ensures OthersSame(m, SwitchTo(m0, b).(stack := stack), a, b)
  {
  }

  lemma YieldsAlone(m: Machine)
    requires Inv(m) && Enabled(m, Yield)
    ensures OthersSame(m, Step(m, Yield), m.current, Step(m, Yield).current)
  {
    var c := Self(m);
    var k, t := c.WithTop(c.Top().(blockTo := Loop)).(place := AtYield, blocked := true), c.Top().blockTo;
    SetOthers(m, m, m.current, t, m.current.id, k);
    SwitchOthers(m, Set(m, m.current.id, k), m.current, t, Step(m, Yield).stack);
  }

  lemma EndsAlone(m: Machine)
    requires Inv(m) && Enabled(m, Finish)
    ensures OthersSame(m, Step(m, Finish), m.current, Step(m, Finish).current)
  {
    var id, c := m.current.id, Self(m);
    var t, m1 := Next(c), Set(m, id, FREE);
    SetOthers(m, m, m.current, t, id, FREE);
    if t.Co? && t.id in m1.cos && c.finishTo == t {
      SetOthers(m, m1, m.current, t, t.id, CountOff(m1.cos[t.id], id));
      SwitchOthers(m, Set(m1, t.id, CountOff(m1.cos[t.id], id)), m.current, t, Step(m, Finish).stack);
    } else {
      SwitchOthers(m, m1, m.current, t, Step(m, Finish).stack);
    }
  }

  lemma ChildAlone(m: Machine, d: Id, k: Kind)
    requires Inv(m) && Enabled(m, StartChild(d, k))
    ensures OthersSame(m, Step(m, StartChild(d, k)), m.current, Co(d)) && Step(m, StartChild(d, k)).current == Co(d)
  {
  }

  lemma StartedAlone(m: Machine, d: Id, k: Kind)
    requires Inv(m) && Enabled(m, StartTask(d, k))
    ensures OthersSame(m, Step(m, StartTask(d, k)), m.current, Co(d)) && Step(m, StartTask(d, k)).current == Co(d)
  {
  }

  lemma CancelAlone(m: Machine, d: Id)
    requires Inv(m) && Enabled(m, CancelChild(d))
    ensures OthersSame(m, Step(m, CancelChild(d)), m.current, Co(d)) && Step(m, CancelChild(d)).current == Co(d)
  {
  }

  lemma OnlyThese(m: Machine, op: Op)
    requires Inv(m) && Enabled(m, op)
    ensures OthersSame(m, Step(m, op), m.current, Step(m, op).current)
  {
    match op {
      case Yield => YieldsAlone(m);
      case Finish => EndsAlone(m);
      case StartChild(d, k) => ChildAlone(m, d, k);
      case StartTask(d, k) => StartedAlone(m, d, k);
      case CancelChild(d) => CancelAlone(m, d);
      case _ =>
    }
  }

  /* ---------- somebody can go on ---------- */

  /** Whoever has control can do what its task may do next. */
  ghost predicate CanGoOn(m: Machine) {
    CanRun(m) &&
    var c := Self(m);
    && (Through(c.Top().kind) ==> if |c.chain| == 1 then Enabled(m, Finish) else Enabled(m, Return))
    && (c.Top().kind == Leaf && !c.unwinding ==> Enabled(m, Yield))
    && (c.Top().kind == User && !c.unwinding ==> forall k | NewKind(k) :: Enabled(m, Await(k)))
    && (c.Top().kind == User && !c.unwinding && |c.chain| == 1 ==>
          forall d, k | IsFree(m, d) && NewKind(k) :: Enabled(m, StartTask(d, k)))
    && (c.Top().kind.Combinator? ==>
          && (forall d | d in c.Top().kind.children :: Enabled(m, CancelChild(d)))
          && (!c.unwinding && c.Top().kind.children != {} ==> Enabled(m, Yield))
          && (!c.unwinding ==> forall d, k | IsFree(m, d) && NewKind(k) :: Enabled(m, StartChild(d, k))))
  }

  /** The loop can wake every task that waits for an event, and begin with any. */
  ghost predicate CanWake(m: Machine) {
    && (forall d | IsRunning(m, d) && m.cos[d].Top().kind == Leaf :: Enabled(m, Wake(d)))
    && (forall d, k | IsFree(m, d) && NewKind(k) :: Enabled(m, Boot(d, k)))
  }

  /**
   MAIN RESULT. Nobody gets stuck: in every reachable state whoever has control can make every
   step of its task: yield, await, start, return or end, or cancel any child that has not
   ended; and when the loop has control it can wake every running task whose innermost one
   waits for an event.
   */
  lemma AlwaysGoesOn(ids: set<Id>, ops: seq<Op>)
    requires Legal(Initial(ids), ops)
    ensures var m := Exec(Initial(ids), ops); if m.current == Loop then CanWake(m) else CanGoOn(m)
  {
    var _, _ := FromStart(ids, ops);
    var m := Exec(Initial(ids), ops);
    if m.current == Loop {
      assert m.stack == [];
    } else {
      assert InStack(m, |m.stack| - 1);
      GoesOn(m);
    }
  }

  lemma GoesOn(m: Machine)
    requires Inv(m) && CanRun(m)
    ensures CanGoOn(m)
  {
    var c := Self(m);
    if c.Top().kind.Combinator? {
      forall d | d in c.Top().kind.children ensures Enabled(m, CancelChild(d)) {
        assert m.cos[d].Active();
      }
    }
  }

  /** MAIN RESULT. In every run each operation does what it should, and touches nobody else. */
  lemma StepsDoWhatTheySay(ids: set<Id>, ops: seq<Op>, op: Op)
    requires Legal(Initial(ids), ops) && Enabled(Exec(Initial(ids), ops), op)
    ensures var m := Exec(Initial(ids), ops);
      var m' := Step(m, op);
      && OthersSame(m, m', m.current, m'.current)
      && match op
         case Boot(d, k) => Fresh(m', d, k, Loop, Loop)
         case StartChild(d, k) => Fresh(m', d, k, m.current, m.current)
         case StartTask(d, k) => Fresh(m', d, k, Loop, m.current)
         case Await(k) => m'.current == m.current && Kinds(Self(m')) == Kinds(Self(m)) + [k]
         case Return => m'.current == m.current && Kinds(Self(m')) == Kinds(Self(m))[..|Self(m).chain| - 1]
         case Yield => m'.current == (if Self(m).blocked then Loop else Self(m).starter)
         case Finish => m'.current == EndsAt(Self(m)) && m'.cos[m.current.id] == FREE
         case Wake(d) => m'.current == Co(d) && m'.cos[d].chain == m.cos[d].chain
         case CancelChild(d) => m'.current == Co(d) && m'.cos[d].chain == m.cos[d].chain && m'.cos[d].unwinding
  {
    var born, now := FromStart(ids, ops);
    var m := Exec(Initial(ids), ops);
    OnlyThese(m, op);
    NewTasks(m, op);
    OwnChain(m, op);
    GivesUp(m, op);
    Resumes(m, op, born, now);
  }
}
