/**
 How the cancel signal travels (`__task_cancel_children`, `__task_yield`, the handlers of
 `__await` and `__task_runtime`): task records are updated in place, and `log` records
 every call of a task's `cancel()`. A switch to a child is a call here that comes back
 when the child's coroutine finishes, as `CoroutineSafety` shows it does.
 */
module Interruption {
  import opened Streams
  import opened TaskStatus
  import opened CancelTree

  class Scheduler {
    var records: Records
    var signal: bool
    var log: seq<nat>

    constructor (records: Records)
      ensures this.records == records && log == [] && !signal
    {
      this.records, log, signal := records, [], false;
    }

    method SetStatus(id: nat, s: Status)
      requires id in records
      modifies this`records
      ensures records == old(records)[id := old(records)[id].(status := s)]
    {
      records := records[id := records[id].(status := s)];
    }

    method Unlink(id: nat)
      requires id in records
      modifies this`records
      ensures records == old(records)[id := old(records)[id].(reuse := None)]
    {
      records := records[id := records[id].(reuse := None)];
    }

    /** The body of the loop over the children. */
    method CancelChild(child: nat, ghost kid: Tree)
      requires Shows(records, kid) && kid.id == child && !signal && Separate(kid)
      modifies this
      ensures records == Stopped(old(records), Log(kid)) && log == old(log) + Log(kid) && !signal
      decreases kid, 6
    {
      if records[child].status == Running {
        signal := true;
        ghost var n := records;
        SetStatus(child, Canceled);
        Switch(child, kid, n);
      } else {
        assert Stopped(records, []) == records;
      }
    }

    /** `__task_cancel_children` of the task `cur`, none of whose tasks is uninterruptable. */
    method CancelChildren(cur: nat, ghost t: Tree)
      requires cur in records && records[cur].children == Ids(t.kids) && !signal
      requires records[cur].status != Running
      requires forall k | k in t.kids :: Shows(records, k)
      requires SeparateAll(t.kids)
      modifies this
      ensures records == Stopped(old(records), LogAll(t.kids)) && log == old(log) + LogAll(t.kids) && !signal
      decreases t, 0
    {
      var children := records[cur].children;
      ghost var m, kids := records, t.kids;
      assert Stopped(m, []) == m && kids[..0] == [];
      for i := 0 to |children|
        invariant !signal
        invariant records == Stopped(m, LogAll(kids[..i]))
        invariant log == old(log) + LogAll(kids[..i])
      {
        NextKid(m, kids, i);
        CancelChild(children[i], kids[i]);
        StoppedMore(m, LogAll(kids[..i]), Log(kids[i]));
        Regroup(old(log), LogAll(kids[..i]), Log(kids[i]));
      }
      assert kids[..|children|] == kids;
    }

    /** The virtual `cancel()` of a task, called once it is canceled. */
    method CancelTask(id: nat, ghost t: Tree)
      requires id in records && records[id].children == Ids(t.kids) && !signal
      requires records[id].status != Running
      requires forall k | k in t.kids :: Shows(records, k)
      requires SeparateAll(t.kids)
      modifies this
      ensures records == Stopped(old(records), LogAll(t.kids)) && log == old(log) + [id] + LogAll(t.kids) && !signal
      decreases t, 1
    {
      log := log + [id];
      CancelChildren(id, t);
    }

    /** A pending `__await` of the task `id` when the signal wakes its coroutine, up to the call of `cancel()`. */
    method Interrupt(id: nat, ghost t: Tree)
      requires Shows(records, t) && t.live && t.id == id && signal
      requires Separate(t)
      modifies this
      ensures records == Stopped(old(records), Fore(t) + [id]) && log == old(log) + Fore(t) && !signal
      decreases t, 2
    {
      Parts(t);
      match records[id].reuse {
        case Some(target) =>
          LiveRuns(records, t);
          Await(target, t.inner.value);
          Unlink(id);
        case None =>
          signal := false;
      }
      SetStatus(id, Canceled);
    }

    /** The same up to its end; it always throws. */
    method Await(id: nat, ghost t: Tree)
      requires Shows(records, t) && t.live && t.id == id && signal
      requires Separate(t)
      modifies this
      ensures records == Stopped(old(records), Log(t)) && log == old(log) + Log(t) && !signal
      decreases t, 3
    {
      ghost var m := records;
      Parts(t);
      Interrupt(id, t);
      BeforeKids(m, t);
      CancelTask(id, t);
      StoppedMore(m, Fore(t) + [id], LogAll(t.kids));
      assert log == old(log) + (Fore(t) + [id] + LogAll(t.kids));
    }

    /** The run of a child that was marked canceled, up to its own `cancel()`. */
    method Unwind(id: nat, ghost t: Tree, ghost m: Records)
      requires Shows(m, t) && t.live && t.id == id && signal
      requires records == m[id := m[id].(status := Canceled)]
      requires Separate(t)
      modifies this
      ensures records == Stopped(m, Fore(t) + [id]) && log == old(log) + Fore(t) && !signal
      decreases t, 4
    {
      Parts(t);
      match records[id].reuse {
        case Some(target) =>
          LiveRuns(m, t);
          OthersShow(m, records, t);
          Await(target, t.inner.value);
          Unlink(id);
          SetStatus(id, Canceled);
        case None =>
          signal := false;
      }
    }

    /**
     The switch to the coroutine of a child that was just marked canceled, until it ends:
     the innermost task returns from its yield, and `__task_runtime` catches what is thrown.
     */
    method Switch(id: nat, ghost t: Tree, ghost m: Records)
      requires Shows(m, t) && t.live && t.id == id && signal
      requires records == m[id := m[id].(status := Canceled)]
      requires Separate(t)
      modifies this
      ensures records == Stopped(m, Log(t)) && log == old(log) + Log(t) && !signal
      decreases t, 5
    {
      Parts(t);
      Unwind(id, t, m);
      BeforeKids(m, t);
      CancelTask(id, t);
      StoppedMore(m, Fore(t) + [id], LogAll(t.kids));
      assert log == old(log) + (Fore(t) + [id] + LogAll(t.kids));
    }
  }
}
