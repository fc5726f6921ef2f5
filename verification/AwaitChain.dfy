/**
 The await chain of one coroutine as it is in memory: task objects linked by `reuse`, and
 the pointer to the current one (`__await`, `__task_yield`, `swap_running`). Each method is
 tied to what `Coroutines` says of the chain as a list of frames.
 */
module AwaitChain {
  import opened Coroutines
  import opened CoroutineRuns

  /** The fields of `event_task` that the switches use. */
  class EventTask {
    const kind: Kind
    var blockTo: Target
    var finishTo: Target
    var reuse: EventTask?

    constructor (kind: Kind, blockTo: Target, finishTo: Target)
      ensures this.kind == kind && this.blockTo == blockTo && this.finishTo == finishTo && reuse == null
    {
      this.kind, this.blockTo, this.finishTo, reuse := kind, blockTo, finishTo, null;
    }
  }

  /** A coroutine with its base task in `global_task_manager`, while it runs. */
  class Context {
    const id: Id
    const base: EventTask
    /** `global_current_task`. */
    var current: EventTask
    /** The chain, innermost last, and the position of `current`. */
    ghost var tasks: seq<EventTask>
    ghost var at: nat

    ghost predicate Valid()
      reads this, tasks
    {
      && tasks != [] && tasks[0] == base
      && at < |tasks| && tasks[at] == current
      && (forall i, j | 0 <= i < j < |tasks| :: tasks[i] != tasks[j])
      && (forall i | 0 <= i < |tasks| - 1 :: tasks[i].reuse == tasks[i + 1])
      && tasks[|tasks| - 1].reuse == null
    }

    ghost function Frames(): seq<Frame>
      reads this, tasks
    {
      seq(|tasks|, i requires 0 <= i < |tasks| reads this, tasks => Frame(tasks[i].kind, tasks[i].blockTo))
    }

    /** The machine `m` runs this coroutine and sees its chain. */
    ghost predicate Shown(m: Machine)
      reads this, tasks
    {
      Valid() && m.current == Co(id) && id in m.cos && m.cos[id].chain == Frames() && m.task == at
    }

    constructor (id: Id, base: EventTask)
      requires base.reuse == null
      ensures this.id == id && this.base == base && Valid() && tasks == [base] && at == 0
    {
      this.id, this.base, current, tasks, at := id, base, base, [base], 0;
    }

    /** `__await` up to the run of the target, made by the current task. */
    method Await(target: EventTask, ghost m: Machine)
      requires Shown(m) && target !in tasks && target.reuse == null && CanRun(m)
      modifies this`current, this`tasks, this`at, current, target
      ensures Shown(DoAwait(m, target.kind)) && target.finishTo == Co(id)
      ensures current == target && tasks == old(tasks[..at + 1]) + [target]
    {
      var parent := current;
      target.blockTo := parent.blockTo;
      parent.blockTo := Loop;
      target.finishTo := Co(id);
      current := target;
      parent.reuse := target;
      ghost var place := at;
      tasks := tasks[..at + 1] + [target];
      at := at + 1;
      ghost var c := m.cos[id];
      ghost var frame := c.chain[place];
      assert Frames() == c.chain[..place] + [frame.(blockTo := Loop), Frame(target.kind, frame.blockTo)];
    }

    /** The end of `__await` in `parent`, after the run of its target. */
    method Return(parent: EventTask, target: EventTask, ghost m: Machine)
      requires Shown(m) && Enabled(m, Op.Return)
      requires tasks[|tasks| - 1] == target && tasks[|tasks| - 2] == parent
      modifies this`current, this`tasks, this`at, parent, target`blockTo
      ensures Shown(Step(m, Op.Return)) && current == parent && tasks == old(tasks[..|tasks| - 1])
    {
      ghost var n := |tasks|;
      current := parent;
      parent.reuse := null;
      if target.blockTo != Loop {
        parent.blockTo := target.blockTo;
        target.blockTo := Loop;
      }
      tasks := tasks[..n - 1];
      at := n - 2;
      ghost var c := m.cos[id];
      ghost var parentFrame := c.chain[n - 2];
      ghost var back := if c.Top().blockTo != Loop then parentFrame.(blockTo := c.Top().blockTo) else parentFrame;
      assert Frames() == c.chain[..n - 2] + [back];
    }

    /** The first half of `__task_yield`: the innermost task spends its token. */
    method SpendToken(cur: EventTask, ghost m: Machine) returns (next: Target)
      requires Shown(m) && Enabled(m, Yield) && tasks[|tasks| - 1] == cur
      modifies cur`blockTo
      ensures Valid() && next == Self(m).Top().blockTo
      ensures Frames() == Self(m).WithTop(Self(m).Top().(blockTo := Loop)).chain
    {
      next := cur.blockTo;
      cur.blockTo := Loop;
    }

    /**
     The second half of `swap_running`, when control is back after a `start`: whatever ran in
     between, the base task becomes current, and the context is that of the machine.
     */
    method SwitchedBack(ghost m: Machine, ghost m': Machine)
      requires Shown(m) && CanRun(m) && BackIn(m, m') && m'.task == 0
      modifies this`current, this`at
      ensures Shown(m') && current == base && tasks == old(tasks)
    {
      current := base;
      at := 0;
    }

    /** The walk along `reuse` to the innermost task. */
    method Innermost() returns (final: EventTask)
      requires Valid()
      ensures final == tasks[|tasks| - 1]
    {
      final := base;
      ghost var i := 0;
      while final.reuse != null
        invariant i < |tasks| && final == tasks[i]
        invariant final.reuse == if i < |tasks| - 1 then tasks[i + 1] else null
        decreases |tasks| - i
      {
        final := final.reuse;
        i := i + 1;
      }
    }
  }
}
