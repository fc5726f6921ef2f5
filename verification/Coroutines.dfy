/**
 The control flow between coroutines: `await` chains, `block_to` and `finish_to`, and the
 switches that yields, ends and cancels make. A context is resumed by whoever switches
 to it; nothing in the code checks that it was waiting for that.
 */
module Coroutines {

  type Id = nat

  /** The event loop (`EVENT_LOOP_ID`) or a coroutine. */
  datatype Target = Loop | Co(id: Id)

  /** What the innermost task of a chain is; a combinator knows its unfinished children. */
  datatype Kind = User | Leaf | Combinator(children: set<Id>)

  datatype Frame = Frame(kind: Kind, blockTo: Target)

  /** Where a coroutine stands: at the head of its loop, inside `swap_running`, inside a yield, or running. */
  datatype Place = Head | AtSwap(other: Id) | AtYield | Live

  /**
   `chain` is the base task and what it awaits (`reuse`), innermost last; empty when no
   task runs. `starter`, `blocked` and `unwinding` are history: who started the task,
   whether the coroutine has yielded since, and whether it was resumed to be cancelled.
   */
  datatype Coroutine = Coroutine(
    place: Place, chain: seq<Frame>, finishTo: Target,
    starter: Target, blocked: bool, unwinding: bool)
  {
    predicate Active() { chain != [] }

    function Top(): Frame
      requires Active()
    {
      chain[|chain| - 1]
    }

    function WithTop(f: Frame): Coroutine
      requires Active()
    {
      this.(chain := chain[..|chain| - 1] + [f])
    }
  }

  const FREE := Coroutine(Head, [], Loop, Loop, false, false)

  /**
   `current` is the running context and `task` the position of `global_current_task` in
   its chain. `stack` is history: the coroutines that run or wait inside a swap, each
   for the next one; the event loop waits for the first.
   */
  datatype Machine = Machine(cos: map<Id, Coroutine>, current: Target, task: nat, stack: seq<Id>)

  datatype Op =
    | Boot(id: Id, kind: Kind)         // __cocoflow
    | Await(kind: Kind)                // __await, up to target->run()
    | Return                           // __await, after target->run()
    | Yield                            // __task_yield
    | StartChild(id: Id, kind: Kind)   // __task_start_child
    | StartTask(id: Id, kind: Kind)    // __start
    | Finish                           // the end of __task_runtime's loop body
    | Wake(id: Id)                     // __task_stand
    | CancelChild(id: Id)              // __task_cancel_children

  /** A combinator begins without children; a leaf or a user task has none. */
  predicate NewKind(k: Kind) { k.Combinator? ==> k.children == {} }

  /** A task that can return: a combinator only when it waits for nobody. */
  predicate Through(k: Kind) { k.Combinator? ==> k.children == {} }

  /** The coroutine that runs, if any. */
  predicate Runs(m: Machine, c: Id) {
    m.current == Co(c) && c in m.cos && m.cos[c].Active()
  }

  predicate CanRun(m: Machine) {
    m.current.Co? && Runs(m, m.current.id)
  }

  /** The coroutine that runs. */
  function Self(m: Machine): Coroutine
    requires CanRun(m)
  {
    m.cos[m.current.id]
  }

  predicate IsFree(m: Machine, d: Id) { d in m.cos && m.cos[d] == FREE }

  /** The task started on `d` has not ended: its status is `running`. */
  predicate IsRunning(m: Machine, d: Id) { d in m.cos && m.cos[d].Active() }

  predicate Parked(m: Machine, d: Id) { d in m.cos && m.cos[d].Active() && m.cos[d].place == AtYield }

  /** Which operations the tasks and the event loop can make; an unwinding coroutine only cancels and returns. */
  predicate Enabled(m: Machine, op: Op) {
    match op
    case Boot(d, k) => m.current == Loop && IsFree(m, d) && NewKind(k)
    case Wake(d) => m.current == Loop && Parked(m, d) && m.cos[d].Top().kind == Leaf
    case Await(k) => CanRun(m) && Self(m).Top().kind == User && !Self(m).unwinding && NewKind(k)
      && m.task < |Self(m).chain|
    case Return => CanRun(m) && |Self(m).chain| >= 2 && Through(Self(m).Top().kind)
    case Yield => CanRun(m) && !Self(m).unwinding && Blocks(Self(m).Top().kind)
    case StartChild(d, k) => CanRun(m) && Self(m).Top().kind.Combinator? && !Self(m).unwinding && IsFree(m, d)
      && NewKind(k)
    case StartTask(d, k) =>
      CanRun(m) && Self(m).Top().kind == User && !Self(m).unwinding && |Self(m).chain| == 1 && IsFree(m, d)
        && NewKind(k)
    case Finish => CanRun(m) && |Self(m).chain| == 1 && Through(Self(m).Top().kind)
    case CancelChild(d) =>
      CanRun(m) && Self(m).Top().kind.Combinator? && d in Self(m).Top().kind.children && IsRunning(m, d)
  }

  /** A task that yields: an event task, or a combinator with children to wait for. */
  predicate Blocks(k: Kind) { k == Leaf || (k.Combinator? && k.children != {}) }

  function Set(m: Machine, c: Id, k: Coroutine): Machine { m.(cos := m.cos[c := k]) }

  /**
   The target side of `swap_running`: it runs from where it stood, and its current task
   becomes the base task of its chain.
   */
  function SwitchTo(m: Machine, t: Target): Machine {
    match t
    case Loop => m.(current := Loop, task := 0)
    case Co(d) => (if d in m.cos then Set(m, d, m.cos[d].(place := Live)) else m).(current := t, task := 0)
  }

  /** The history stack when the running coroutine gives up control. */
  function Popped(m: Machine): seq<Id> {
    if m.stack == [] then [] else m.stack[..|m.stack| - 1]
  }

  /** The history stack when `t` gets control from a coroutine that left it. */
  function Resumed(stack: seq<Id>, t: Target): seq<Id> {
    if t.Co? && stack == [] then [t.id] else stack
  }

  /** Where `__task_runtime` goes after the base task. */
  function Next(c: Coroutine): Target
    requires c.Active()
  {
    if c.finishTo != Loop || c.chain[0].blockTo == Loop then c.finishTo else c.chain[0].blockTo
  }

  /** A child that ends is counted off by the combinator it belongs to. */
  function CountOff(c: Coroutine, child: Id): Coroutine {
    if c.Active() && c.Top().kind.Combinator?
    then c.WithTop(c.Top().(kind := Combinator(c.Top().kind.children - {child})))
    else c
  }

  /** `__await`: the parent is the global current task, and becomes the one before the target. */
  function DoAwait(m: Machine, k: Kind): Machine
    requires CanRun(m) && m.task < |Self(m).chain|
  {
    var c := Self(m);
    var parent := c.chain[m.task];
    var chain := c.chain[..m.task] + [parent.(blockTo := Loop), Frame(k, parent.blockTo)];
    Set(m, m.current.id, c.(chain := chain)).(task := m.task + 1)
  }

  /** `__start`. */
  function DoStart(m: Machine, d: Id, k: Kind): Machine
    requires CanRun(m) && IsFree(m, d)
  {
    var id := m.current.id;
    var child := FREE.(chain := [Frame(k, Co(id))], starter := Co(id));
    SwitchTo(Set(Set(m, id, Self(m).(place := AtSwap(d))), d, child), Co(d)).(stack := m.stack + [d])
  }

  function Step(m: Machine, op: Op): Machine
    requires Enabled(m, op)
  {
    match op
    case Boot(d, k) =>
      SwitchTo(Set(m, d, FREE.(chain := [Frame(k, Loop)], blocked := true)), Co(d)).(stack := [d])
    case Wake(d) =>
      SwitchTo(m, Co(d)).(stack := [d])
    case Await(k) => DoAwait(m, k)
    case Return =>
      var id, c := m.current.id, m.cos[m.current.id];
      var n := |c.chain|;
      var parent := c.chain[n - 2];
      var back := if c.Top().blockTo != Loop then parent.(blockTo := c.Top().blockTo) else parent;
      Set(m, id, c.(chain := c.chain[..n - 2] + [back])).(task := n - 2)
    case Yield =>
      var id, c := m.current.id, m.cos[m.current.id];
      var t := c.Top().blockTo;
      var m' := Set(m, id, c.WithTop(c.Top().(blockTo := Loop)).(place := AtYield, blocked := true));
      SwitchTo(m', t).(stack := Resumed(Popped(m), t))
    case StartChild(d, k) =>
      var id, c := m.current.id, m.cos[m.current.id];
      var up := c.WithTop(c.Top().(kind := Combinator(c.Top().kind.children + {d}))).(place := AtSwap(d));
      var child := FREE.(chain := [Frame(k, Co(id))], finishTo := Co(id), starter := Co(id));
      SwitchTo(Set(Set(m, id, up), d, child), Co(d)).(stack := m.stack + [d])
    case StartTask(d, k) => DoStart(m, d, k)
    case Finish =>
      var id, c := m.current.id, m.cos[m.current.id];
      var t := Next(c);
      var m' := Set(m, id, FREE);
      var m'' := if t.Co? && t.id in m'.cos && c.finishTo == t then Set(m', t.id, CountOff(m'.cos[t.id], id)) else m';
      SwitchTo(m'', t).(stack := Resumed(Popped(m), t))
    case CancelChild(d) =>
      var id, c := m.current.id, m.cos[m.current.id];
      var m' := Set(Set(m, id, c.(place := AtSwap(d))), d, m.cos[d].(unwinding := true));
      SwitchTo(m', Co(d)).(stack := m.stack + [d])
  }
}
