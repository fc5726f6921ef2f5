/** Every switch lands on a context that was waiting for it; the block token is spent once. */
module CoroutineSafety {
  import opened Coroutines

  /**
   The token discipline of one coroutine: only the innermost task holds a `block_to`,
   it is the starter until the first yield and the event loop ever after; combinators
   do not await.
   */
  ghost predicate Tokens(c: Coroutine) {
    if !c.Active() then c == FREE
    else
      && c.Top().blockTo == (if c.blocked then Loop else c.starter)
      && (forall i | 0 <= i < |c.chain| - 1 :: c.chain[i] == Frame(User, Loop))
  }

  /** The place of the coroutine at position `i` of the stack. */
  ghost predicate InStack(m: Machine, i: nat)
    requires i < |m.stack|
  {
    var d := m.stack[i];
    d in m.cos &&
    var c := m.cos[d];
    && c.Active()
    && (if i == |m.stack| - 1 then c.place == Live
        else
          && c.place == AtSwap(m.stack[i + 1])
          && (c.Top().kind.Combinator? || (c.Top().kind == User && |c.chain| == 1)))
    && (if i == 0 then c.blocked && !c.unwinding
        else if c.unwinding then c.blocked && c.finishTo == Co(m.stack[i - 1])
        else !c.blocked && c.starter == Co(m.stack[i - 1]) && (c.finishTo == Loop || c.finishTo == c.starter))
  }

  ghost predicate OutOfStack(c: Coroutine) {
    c.Active() ==> c.place == AtYield && c.blocked && !c.unwinding && Blocks(c.Top().kind)
  }

  /** Children and combinators agree on who belongs to whom. */
  ghost predicate Family(m: Machine) {
    && (forall d | d in m.cos && m.cos[d].Active() && m.cos[d].finishTo.Co? ::
          var p := m.cos[d].finishTo.id;
          p in m.cos && m.cos[p].Active() && m.cos[p].Top().kind.Combinator? && d in m.cos[p].Top().kind.children)
    && (forall p, d | p in m.cos && m.cos[p].Active() && m.cos[p].Top().kind.Combinator?
      && d in m.cos[p].Top().kind.children ::
          d in m.cos && m.cos[d].Active() && m.cos[d].finishTo == Co(p))
  }

  /** A user task that runs is the global current task, so that it awaits for itself. */
  ghost predicate CurrentTask(m: Machine) {
    m.current.Co? && m.current.id in m.cos ==>
      var c := m.cos[m.current.id];
      c.Active() && c.Top().kind == User && !c.unwinding ==> m.task == |c.chain| - 1
  }

  ghost predicate Stack(m: Machine) {
    && m.current == (if m.stack == [] then Loop else Co(m.stack[|m.stack| - 1]))
    && (forall i, j | 0 <= i < j < |m.stack| :: m.stack[i] != m.stack[j])
    && (forall i | 0 <= i < |m.stack| :: InStack(m, i))
  }

  ghost predicate Inv(m: Machine) {
    && (forall d | d in m.cos :: Tokens(m.cos[d]))
    && (forall d | d in m.cos && d !in m.stack :: OutOfStack(m.cos[d]))
    && Stack(m) && Family(m) && CurrentTask(m)
  }

  /**
   Where control may go: to the event loop only from the coroutine it woke; to a
   coroutine only if that one is inside the swap to the running one, or has yielded in
   a combinator that the running one is a child of and finishes for.
   */
  ghost predicate SwitchOk(m: Machine, t: Target, finishing: bool)
    requires CanRun(m)
  {
    var self := m.current.id;
    match t
    case Loop => m.stack == [self]
    case Co(p) =>
      p in m.cos && m.cos[p].Active() &&
      (m.cos[p].place == AtSwap(self) ||
       (finishing && m.stack == [self] && m.cos[p].place == AtYield &&
        m.cos[p].Top().kind.Combinator? && self in m.cos[p].Top().kind.children))
  }

  lemma YieldOk(m: Machine)
    requires Inv(m) && Enabled(m, Yield)
    ensures SwitchOk(m, Self(m).Top().blockTo, false)
  {
    var n := |m.stack|;
    assert InStack(m, n - 1);
    if n > 1 {
      assert InStack(m, n - 2);
    } else {
      assert m.stack == [m.current.id];
    }
  }

  lemma FinishOk(m: Machine)
    requires Inv(m) && Enabled(m, Finish)
    ensures SwitchOk(m, Next(Self(m)), true)
  {
    var n := |m.stack|;
    assert InStack(m, n - 1);
    if n > 1 {
      assert InStack(m, n - 2);
    } else {
      assert m.stack == [m.current.id];
    }
  }

  /* ---------- every operation keeps the invariant ---------- */

  lemma BootKeeps(m: Machine, d: Id, k: Kind)
    requires Inv(m) && Enabled(m, Boot(d, k))
    ensures Inv(Step(m, Boot(d, k)))
  {
    assert m.stack == [];
    var f := FREE.(chain := [Frame(k, Loop)], blocked := true, place := Live);
    var m' := Step(m, Boot(d, k));
    assert m'.cos == m.cos[d := f];
    BootFamily(m, m', d, f);
    assert InStack(m', 0);
  }

  lemma BootFamily(m: Machine, m': Machine, d: Id, f: Coroutine)
    requires Family(m) && IsFree(m, d) && m'.cos == m.cos[d := f]
    requires f.Active() && f.finishTo == Loop && (f.Top().kind.Combinator? ==> f.Top().kind.children == {})
    ensures Family(m')
  {
  }

  lemma WakeKeeps(m: Machine, d: Id)
    requires Inv(m) && Enabled(m, Wake(d))
    ensures Inv(Step(m, Wake(d)))
  {
    assert m.stack == [];
    var m' := Step(m, Wake(d));
    assert m'.cos == m.cos[d := m.cos[d].(place := Live)];
    KinFamily(m, m');
    assert OutOfStack(m.cos[d]);
    assert InStack(m', 0);
  }

  /** What happens within the chain of the running coroutine concerns nobody else. */
  lemma OwnChainKeeps(m: Machine, c': Coroutine, task: nat)
    requires Inv(m) && CanRun(m)
    requires c'.Active() && Tokens(c') && c' == Self(m).(chain := c'.chain)
    requires c'.Top().kind == User && !c'.unwinding ==> task == |c'.chain| - 1
    requires c'.Top().kind.Combinator? ==> c'.Top().kind.children == {}
    requires Through(Self(m).Top().kind)
    ensures Inv(Set(m, m.current.id, c').(task := task))
  {
    var id := m.current.id;
    var m' := Set(m, id, c').(task := task);
    OwnStack(m, m', c');
    OwnFamily(m, m', c');
  }

  lemma OwnStack(m: Machine, m': Machine, c': Coroutine)
    requires Stack(m) && CanRun(m) && Through(Self(m).Top().kind)
    requires c'.Active() && c' == Self(m).(chain := c'.chain)
    requires m' == m.(cos := m.cos[m.current.id := c'], task := m'.task)
    ensures Stack(m')
  {
    var n := |m.stack|;
    assert InStack(m, n - 1);
    forall i | 0 <= i < n ensures InStack(m', i) {
      assert InStack(m, i);
    }
  }

  lemma OwnFamily(m: Machine, m': Machine, c': Coroutine)
    requires Family(m) && CanRun(m) && Through(Self(m).Top().kind)
    requires c'.Active() && c' == Self(m).(chain := c'.chain)
      && (c'.Top().kind.Combinator? ==> c'.Top().kind.children == {})
    requires m'.cos == m.cos[m.current.id := c']
    ensures Family(m')
  {
  }

  lemma AwaitKeeps(m: Machine, k: Kind)
    requires Inv(m) && Enabled(m, Await(k))
    ensures Inv(Step(m, Await(k)))
  {
    var c, m' := Self(m), Step(m, Await(k));
    OwnChainKeeps(m, m'.cos[m.current.id], m'.task);
  }

  lemma ReturnKeeps(m: Machine)
    requires Inv(m) && Enabled(m, Return)
    ensures Inv(Step(m, Return))
  {
    var c, m' := Self(m), Step(m, Return);
    var n := |c.chain|;
    assert c.chain[n - 2] == Frame(User, Loop);
    OwnChainKeeps(m, m'.cos[m.current.id], m'.task);
  }

  /* A switch changes the running coroutine and the one it switches to. */

  /** The machine after `self` became `c` and control went to `e`, which became `f`. */
  ghost function Moved(m: Machine, c: Coroutine, e: Id, f: Coroutine, stack: seq<Id>): Machine
    requires m.current.Co?
  {
    Machine(m.cos[m.current.id := c][e := f], Co(e), 0, stack)
  }

  /** The families of `m` are those of `m'`. */
  ghost predicate SameKin(c: Coroutine, c': Coroutine) {
    && c.Active() == c'.Active() && c.finishTo == c'.finishTo
    && (c.Active() ==> c.Top().kind == c'.Top().kind)
  }

  lemma KinFamily(m: Machine, m': Machine)
    requires Family(m) && m'.cos.Keys == m.cos.Keys
    requires forall d | d in m.cos :: SameKin(m.cos[d], m'.cos[d])
    ensures Family(m')
  {
  }

  lemma MovedFamily(m: Machine, c: Coroutine, e: Id, f: Coroutine, stack: seq<Id>)
    requires Family(m) && m.current.Co? && m.current.id in m.cos && e in m.cos && e != m.current.id
    requires SameKin(m.cos[m.current.id], c) && SameKin(m.cos[e], f)
    ensures Family(Moved(m, c, e, f, stack))
  {
    KinFamily(m, Moved(m, c, e, f, stack));
  }

  lemma MovedTokens(m: Machine, c: Coroutine, e: Id, f: Coroutine, stack: seq<Id>)
    requires Inv(m) && CanRun(m) && Tokens(c) && Tokens(f)
    ensures forall d | d in Moved(m, c, e, f, stack).cos :: Tokens(Moved(m, c, e, f, stack).cos[d])
  {
  }

  /** Control goes down: the running coroutine starts or cancels `e`. */
  lemma PushStack(m: Machine, c: Coroutine, e: Id, f: Coroutine)
    requires Inv(m) && CanRun(m) && e in m.cos && e !in m.stack
    requires c.Active() && c.place == AtSwap(e)
    requires c.Top().kind.Combinator? || (c.Top().kind == User && |c.chain| == 1)
    requires c.blocked == Self(m).blocked && c.unwinding == Self(m).unwinding
    requires c.finishTo == Self(m).finishTo && c.starter == Self(m).starter
    requires f.Active() && f.place == Live
    requires if f.unwinding then f.blocked && f.finishTo == m.current
             else !f.blocked && f.starter == m.current && (f.finishTo == Loop || f.finishTo == f.starter)
    ensures var m' := Moved(m, c, e, f, m.stack + [e]);
      Stack(m') && forall d | d in m'.cos && d !in m'.stack :: OutOfStack(m'.cos[d])
  {
    var n := |m.stack|;
    var m' := Moved(m, c, e, f, m.stack + [e]);
    assert InStack(m, n - 1);
    forall i | 0 <= i < |m'.stack| ensures InStack(m', i) {
      if i < n {
        assert InStack(m, i);
      }
    }
    forall d | d in m'.cos && d !in m'.stack ensures OutOfStack(m'.cos[d]) {
      assert d != e && d !in m.stack;
    }
  }

  lemma PopMember(s: seq<Id>, d: Id)
    requires s != [] && d !in s[..|s| - 1]
    ensures d in s ==> d == s[|s| - 1]
  {
    assert s == s[..|s| - 1] + [s[|s| - 1]];
  }

  /** Control goes back up: the running coroutine yields or ends, and the one below it goes on. */
  lemma PopStack(m: Machine, c: Coroutine, e: Id, f: Coroutine)
    requires Inv(m) && CanRun(m) && |m.stack| >= 2 && e == m.stack[|m.stack| - 2]
    requires OutOfStack(c)
    requires e in m.cos && f == m.cos[e].(place := Live, chain := f.chain) && f.Active()
    ensures e != m.current.id
    ensures var m' := Moved(m, c, e, f, m.stack[..|m.stack| - 1]);
      Stack(m') && forall d | d in m'.cos && d !in m'.stack :: OutOfStack(m'.cos[d])
  {
    var n := |m.stack|;
    assert InStack(m, n - 1) && InStack(m, n - 2);
    var m' := Moved(m, c, e, f, m.stack[..n - 1]);
    forall i | 0 <= i < |m'.stack| ensures InStack(m', i) {
      assert InStack(m, i);
    }
    forall d | d in m'.cos && d !in m'.stack ensures OutOfStack(m'.cos[d]) {
      PopMember(m.stack, d);
    }
  }

  /** The coroutine the loop woke hands over to a parked one: a child ended. */
  lemma ReplaceStack(m: Machine, c: Coroutine, e: Id, f: Coroutine)
    requires Inv(m) && CanRun(m) && m.stack == [m.current.id] && e in m.cos && e != m.current.id
    requires OutOfStack(c) && m.cos[e].Active()
    requires f == m.cos[e].(place := Live, chain := f.chain) && f.Active()
    ensures var m' := Moved(m, c, e, f, [e]);
      Stack(m') && forall d | d in m'.cos && d !in m'.stack :: OutOfStack(m'.cos[d])
  {
    var m' := Moved(m, c, e, f, [e]);
    assert OutOfStack(m.cos[e]);
    assert InStack(m', 0);
  }

  /** Control goes back to the event loop. */
  lemma LoopStack(m: Machine, c: Coroutine)
    requires Inv(m) && CanRun(m) && m.stack == [m.current.id] && OutOfStack(c)
    ensures var m' := Machine(m.cos[m.current.id := c], Loop, 0, []);
      Stack(m') && forall d | d in m'.cos && d !in m'.stack :: OutOfStack(m'.cos[d])
  {
  }

  /** The coroutine that a yield or an end resumes was inside its swap. */
  lemma Resumable(m: Machine)
    requires Inv(m) && CanRun(m) && |m.stack| >= 2
    ensures var e := m.stack[|m.stack| - 2];
      && e in m.cos && m.cos[e].Active() && m.cos[e].place == AtSwap(m.current.id) && e != m.current.id
      && (m.cos[e].Top().kind.Combinator? || |m.cos[e].chain| == 1)
  {
    var n := |m.stack|;
    assert InStack(m, n - 1) && InStack(m, n - 2);
  }

  /** A running coroutine that has yielded since its start was woken by the loop or is unwinding. */
  lemma SelfInStack(m: Machine)
    requires Inv(m) && CanRun(m)
    ensures m.stack != [] && m.stack[|m.stack| - 1] == m.current.id && Self(m).place == Live
    ensures |m.stack| == 1 ==> m.stack == [m.current.id] && Self(m).blocked && !Self(m).unwinding
    ensures |m.stack| >= 2 && !Self(m).unwinding ==>
      Self(m).starter == Co(m.stack[|m.stack| - 2]) && !Self(m).blocked &&
      (Self(m).finishTo == Loop || Self(m).finishTo == Self(m).starter)
    ensures |m.stack| >= 2 && Self(m).unwinding ==> Self(m).finishTo == Co(m.stack[|m.stack| - 2])
  {
    assert InStack(m, |m.stack| - 1);
  }

  /** The parts of the invariant after a switch to `e`. */
  lemma MovedInv(m: Machine, c: Coroutine, e: Id, f: Coroutine, stack: seq<Id>)
    requires Inv(m) && CanRun(m) && Tokens(c) && Tokens(f)
    requires f.Active() && (f.Top().kind == User ==> f.unwinding || |f.chain| == 1)
    requires var m' := Moved(m, c, e, f, stack);
      Stack(m') && Family(m') && forall d | d in m'.cos && d !in m'.stack :: OutOfStack(m'.cos[d])
    ensures Inv(Moved(m, c, e, f, stack))
  {
    MovedTokens(m, c, e, f, stack);
  }

  function Yielded(c: Coroutine): Coroutine
    requires c.Active()
  {
    c.WithTop(c.Top().(blockTo := Loop)).(place := AtYield, blocked := true)
  }

  lemma YieldToLoop(m: Machine)
    requires Inv(m) && Enabled(m, Yield) && Self(m).Top().blockTo == Loop
    ensures Inv(Step(m, Yield))
  {
    YieldOk(m);
    LoopStack(m, Yielded(Self(m)));
    KinFamily(m, Step(m, Yield));
  }

  lemma YieldUp(m: Machine)
    requires Inv(m) && Enabled(m, Yield) && Self(m).Top().blockTo != Loop
    ensures Inv(Step(m, Yield))
  {
    var e, n := Self(m).Top().blockTo.id, |m.stack|;
    YieldOk(m);
    SelfInStack(m);
    Resumable(m);
    YieldMoved(m, e);
    assert Step(m, Yield) == Moved(m, Yielded(Self(m)), e, m.cos[e].(place := Live), m.stack[..n - 1]);
  }

  lemma YieldMoved(m: Machine, e: Id)
    requires Inv(m) && CanRun(m) && !Self(m).unwinding && Blocks(Self(m).Top().kind)
    requires |m.stack| >= 2 && e == m.stack[|m.stack| - 2]
    ensures e in m.cos && e != m.current.id
    ensures Inv(Moved(m, Yielded(Self(m)), e, m.cos[e].(place := Live), m.stack[..|m.stack| - 1]))
  {
    var c, n := Yielded(Self(m)), |m.stack|;
    Resumable(m);
    var f := m.cos[e].(place := Live);
    PopStack(m, c, e, f);
    MovedFamily(m, c, e, f, m.stack[..n - 1]);
    MovedInv(m, c, e, f, m.stack[..n - 1]);
  }

  lemma StartFamily(m: Machine, c: Coroutine, d: Id, f: Coroutine)
    requires Family(m) && CanRun(m) && m.cos[m.current.id].Top().kind.Combinator? && IsFree(m, d)
    requires c == m.cos[m.current.id].(place := c.place, chain := c.chain) && c.Active()
    requires c.Top().kind == Combinator(m.cos[m.current.id].Top().kind.children + {d})
    requires f.Active() && f.finishTo == m.current && (f.Top().kind.Combinator? ==> f.Top().kind.children == {})
    ensures Family(Moved(m, c, d, f, m.stack + [d]))
  {
  }

  lemma StartChildIs(m: Machine, d: Id, k: Kind, up: Coroutine, f: Coroutine)
    requires Enabled(m, StartChild(d, k))
    requires up == Self(m).WithTop(Self(m).Top().(kind := Combinator(Self(m).Top().kind.children
      + {d}))).(place := AtSwap(d))
    requires f == FREE.(chain := [Frame(k, m.current)], finishTo := m.current, starter := m.current, place := Live)
    ensures Step(m, StartChild(d, k)) == Moved(m, up, d, f, m.stack + [d])
  {
  }

  lemma StartChildKeeps(m: Machine, d: Id, k: Kind)
    requires Inv(m) && Enabled(m, StartChild(d, k))
    ensures Inv(Step(m, StartChild(d, k)))
  {
    var self, c := m.current.id, Self(m);
    var up := c.WithTop(c.Top().(kind := Combinator(c.Top().kind.children + {d}))).(place := AtSwap(d));
    var f := FREE.(chain := [Frame(k, Co(self))], finishTo := Co(self), starter := Co(self), place := Live);
    SelfInStack(m);
    OnStack(m, d);
    PushStack(m, up, d, f);
    StartFamily(m, up, d, f);
    StartChildIs(m, d, k, up, f);
    MovedInv(m, up, d, f, m.stack + [d]);
  }

  /** A coroutine on the stack runs or is inside a swap. */
  lemma OnStack(m: Machine, d: Id)
    requires Inv(m)
    ensures d in m.stack ==> d in m.cos && m.cos[d].Active() && m.cos[d].place != AtYield
  {
    if d in m.stack {
      var i :| 0 <= i < |m.stack| && m.stack[i] == d;
      assert InStack(m, i);
    }
  }

  lemma StartTaskKeeps(m: Machine, d: Id, k: Kind)
    requires Inv(m) && Enabled(m, StartTask(d, k))
    ensures Inv(Step(m, StartTask(d, k)))
  {
    var self, c := m.current.id, Self(m);
    var f := FREE.(chain := [Frame(k, Co(self))], starter := Co(self), place := Live);
    SelfInStack(m);
    OnStack(m, d);
    PushStack(m, c.(place := AtSwap(d)), d, f);
    LoneFamily(m, c.(place := AtSwap(d)), d, f);
    assert Step(m, StartTask(d, k)) == Moved(m, c.(place := AtSwap(d)), d, f, m.stack + [d]);
    MovedInv(m, c.(place := AtSwap(d)), d, f, m.stack + [d]);
  }

  /** A started task belongs to no family. */
  lemma LoneFamily(m: Machine, c: Coroutine, d: Id, f: Coroutine)
    requires Family(m) && CanRun(m) && IsFree(m, d) && c == Self(m).(place := c.place)
    requires f.Active() && f.finishTo == Loop && (f.Top().kind.Combinator? ==> f.Top().kind.children == {})
    ensures Family(Moved(m, c, d, f, m.stack + [d]))
  {
  }

  lemma CancelChildKeeps(m: Machine, d: Id)
    requires Inv(m) && Enabled(m, CancelChild(d)) && Parked(m, d)
    ensures Inv(Step(m, CancelChild(d)))
  {
    SelfInStack(m);
    OnStack(m, d);
    CancelMoved(m, d);
    CancelIs(m, d);
  }

  lemma CancelIs(m: Machine, d: Id)
    requires Enabled(m, CancelChild(d)) && d != m.current.id
    ensures Step(m, CancelChild(d)) ==
      Moved(m, Self(m).(place := AtSwap(d)), d, m.cos[d].(unwinding := true, place := Live), m.stack + [d])
  {
  }

  lemma CancelMoved(m: Machine, d: Id)
    requires Inv(m) && CanRun(m) && Parked(m, d) && d !in m.stack && d != m.current.id
    requires Self(m).Top().kind.Combinator? && m.cos[d].finishTo == m.current
    ensures Inv(Moved(m, Self(m).(place := AtSwap(d)), d, m.cos[d].(unwinding := true, place := Live), m.stack + [d]))
  {
    var c, f := Self(m).(place := AtSwap(d)), m.cos[d].(unwinding := true, place := Live);
    assert OutOfStack(m.cos[d]);
    PushStack(m, c, d, f);
    MovedFamily(m, c, d, f, m.stack + [d]);
    MovedInv(m, c, d, f, m.stack + [d]);
  }

  /* ---------- the end of a base task ---------- */

  /** A child that ends leaves its family. */
  lemma LeaveFamily(m: Machine, e: Id, stack: seq<Id>)
    requires Inv(m) && Enabled(m, Finish) && Self(m).finishTo == Co(e) && e != m.current.id
    ensures e in m.cos && m.cos[e].Active() && m.cos[e].Top().kind.Combinator?
    ensures Family(Moved(m, FREE, e, CountOff(m.cos[e], m.current.id).(place := Live), stack))
  {
    var self, f := m.current.id, CountOff(m.cos[e], m.current.id).(place := Live);
    var m' := Moved(m, FREE, e, f, stack);
    CountedOff(m.cos[e], self);
    assert Left(m, m', self, e);
    LeftFamily(m, m', self, e);
  }

  lemma LeftFamily(m: Machine, m': Machine, self: Id, e: Id)
    requires Family(m) && Left(m, m', self, e)
    ensures Family(m')
  {
    LeaveParents(m, m', self, e);
    LeaveChildren(m, m', self, e);
  }

  lemma CountedOff(c: Coroutine, d: Id)
    requires c.Active() && c.Top().kind.Combinator?
    ensures var f := CountOff(c, d).(place := Live);
      f.Active() && f.finishTo == c.finishTo && f.Top().kind == Combinator(c.Top().kind.children - {d})
  {
  }

  /** The child `self` is gone, and counted off by its combinator `e`. */
  ghost predicate Left(m: Machine, m': Machine, self: Id, e: Id) {
    && self in m.cos && e in m.cos && e != self
    && m.cos[self].Active() && m.cos[self].finishTo == Co(e) && Through(m.cos[self].Top().kind)
    && m.cos[e].Active() && m.cos[e].Top().kind.Combinator?
    && m'.cos.Keys == m.cos.Keys && m'.cos[self] == FREE
    && m'.cos[e].Active() && m'.cos[e].finishTo == m.cos[e].finishTo
    && m'.cos[e].Top().kind == Combinator(m.cos[e].Top().kind.children - {self})
    && forall d | d in m.cos && d != self && d != e :: m'.cos[d] == m.cos[d]
  }

  lemma LeaveParents(m: Machine, m': Machine, self: Id, e: Id)
    requires Family(m) && Left(m, m', self, e)
    ensures forall d | d in m'.cos && m'.cos[d].Active() && m'.cos[d].finishTo.Co? ::
      var p := m'.cos[d].finishTo.id;
      p in m'.cos && m'.cos[p].Active() && m'.cos[p].Top().kind.Combinator? && d in m'.cos[p].Top().kind.children
  {
    forall d | d in m'.cos && m'.cos[d].Active() && m'.cos[d].finishTo.Co?
      ensures var p := m'.cos[d].finishTo.id;
        p in m'.cos && m'.cos[p].Active() && m'.cos[p].Top().kind.Combinator? && d in m'.cos[p].Top().kind.children
    {
      assert d != self && m'.cos[d].finishTo == m.cos[d].finishTo;
      assert m.cos[d].finishTo != Co(self);
    }
  }

  lemma LeaveChildren(m: Machine, m': Machine, self: Id, e: Id)
    requires Family(m) && Left(m, m', self, e)
    ensures forall p, d | p in m'.cos && m'.cos[p].Active() && m'.cos[p].Top().kind.Combinator?
      && d in m'.cos[p].Top().kind.children ::
      d in m'.cos && m'.cos[d].Active() && m'.cos[d].finishTo == Co(p)
  {
    forall p, d | p in m'.cos && m'.cos[p].Active() && m'.cos[p].Top().kind.Combinator?
      && d in m'.cos[p].Top().kind.children
      ensures d in m'.cos && m'.cos[d].Active() && m'.cos[d].finishTo == Co(p)
    {
      assert p != self && d in m.cos[p].Top().kind.children;
    }
  }

  /** A task without a family that ends. */
  lemma LeaveAlone(m: Machine, m': Machine)
    requires Inv(m) && Enabled(m, Finish) && Self(m).finishTo == Loop
    requires m'.cos.Keys == m.cos.Keys && m'.cos[m.current.id] == FREE
    requires forall d | d in m.cos && d != m.current.id :: SameKin(m.cos[d], m'.cos[d])
    ensures Family(m')
  {
    var self := m.current.id;
    forall d | d in m'.cos && m'.cos[d].Active() && m'.cos[d].finishTo.Co?
      ensures var p := m'.cos[d].finishTo.id;
        p in m'.cos && m'.cos[p].Active() && m'.cos[p].Top().kind.Combinator? && d in m'.cos[p].Top().kind.children
    {
      assert SameKin(m.cos[d], m'.cos[d]);
      var p := m'.cos[d].finishTo.id;
      assert p != self && SameKin(m.cos[p], m'.cos[p]);
    }
    forall p, d | p in m'.cos && m'.cos[p].Active() && m'.cos[p].Top().kind.Combinator?
      && d in m'.cos[p].Top().kind.children
      ensures d in m'.cos && m'.cos[d].Active() && m'.cos[d].finishTo == Co(p)
    {
      assert SameKin(m.cos[p], m'.cos[p]);
      assert d != self && SameKin(m.cos[d], m'.cos[d]);
    }
  }

  /** The base task of a chain has no child of its own left when it ends. */
  lemma NotOwnChild(m: Machine)
    requires Inv(m) && Enabled(m, Finish)
    ensures Self(m).finishTo != m.current
  {
  }

  lemma FinishToLoop(m: Machine)
    requires Inv(m) && Enabled(m, Finish) && Next(Self(m)) == Loop
    ensures Inv(Step(m, Finish))
  {
    FinishOk(m);
    LoopStack(m, FREE);
    LeaveAlone(m, Step(m, Finish));
  }

  /** A started task that never blocked ends: its starter goes on. */
  lemma FinishToStarter(m: Machine)
    requires Inv(m) && Enabled(m, Finish) && Self(m).finishTo == Loop && Next(Self(m)) != Loop
    ensures Inv(Step(m, Finish))
  {
    var n, e := |m.stack|, Next(Self(m)).id;
    FinishOk(m);
    SelfInStack(m);
    Resumable(m);
    StarterMoved(m, e);
    assert Step(m, Finish) == Moved(m, FREE, e, m.cos[e].(place := Live), m.stack[..n - 1]);
  }

  lemma StarterMoved(m: Machine, e: Id)
    requires Inv(m) && Enabled(m, Finish) && Self(m).finishTo == Loop
    requires |m.stack| >= 2 && e == m.stack[|m.stack| - 2]
    ensures e in m.cos && Inv(Moved(m, FREE, e, m.cos[e].(place := Live), m.stack[..|m.stack| - 1]))
  {
    var n := |m.stack|;
    Resumable(m);
    var f := m.cos[e].(place := Live);
    PopStack(m, FREE, e, f);
    LeaveAlone(m, Moved(m, FREE, e, f, m.stack[..n - 1]));
    MovedInv(m, FREE, e, f, m.stack[..n - 1]);
  }

  /** A child ends: its combinator counts it off and goes on, from its swap or from its yield. */
  lemma FinishToParent(m: Machine)
    requires Inv(m) && Enabled(m, Finish) && Self(m).finishTo != Loop
    ensures Inv(Step(m, Finish))
  {
    var n, e := |m.stack|, Self(m).finishTo.id;
    NotOwnChild(m);
    SelfInStack(m);
    var stack := if n == 1 then [e] else m.stack[..n - 1];
    ParentMoved(m, e, stack);
    FinishIs(m, e, stack);
  }

  lemma FinishIs(m: Machine, e: Id, stack: seq<Id>)
    requires Enabled(m, Finish) && Self(m).finishTo == Co(e) && e != m.current.id && e in m.cos
    requires stack == Resumed(Popped(m), Co(e))
    ensures Step(m, Finish) == Moved(m, FREE, e, CountOff(m.cos[e], m.current.id).(place := Live), stack)
  {
  }

  lemma ParentMoved(m: Machine, e: Id, stack: seq<Id>)
    requires Inv(m) && Enabled(m, Finish) && Self(m).finishTo == Co(e) && e != m.current.id
    requires stack == if |m.stack| == 1 then [e] else m.stack[..|m.stack| - 1]
    requires |m.stack| == 1 ==> m.stack == [m.current.id]
    requires |m.stack| != 1 ==> |m.stack| >= 2 && e == m.stack[|m.stack| - 2]
    ensures e in m.cos && Inv(Moved(m, FREE, e, CountOff(m.cos[e], m.current.id).(place := Live), stack))
  {
    LeaveFamily(m, e, stack);
    var f := CountOff(m.cos[e], m.current.id).(place := Live);
    if |m.stack| == 1 {
      ReplaceStack(m, FREE, e, f);
    } else {
      PopStack(m, FREE, e, f);
    }
    MovedInv(m, FREE, e, f, stack);
  }
}
