/**
 The ids of one kind of task (constructor, destructor and `await` of `task`, `__start`,
 the end of `__task_runtime`): a free list that is an array with a moving front, and
 the coroutines the ids stand for.
 */
module IdPool {
  import opened Streams

  /** A coroutine: never entered, parked at the head of its loop, or in the middle of a task. */
  datatype Stack = Fresh | Parked | Busy(task: nat)

  /**
   A task object and its `_unique_id`. `Awaited` runs on the coroutine of its parent and has
   the parent's id; `Spent` is over and has no id any more; `Adrift` runs, but its id was
   given away.
   */
  datatype Phase =
    | Ready(id: nat)
    | Limited
    | Awaited(id: nat)
    | Started(id: nat)
    | Ended(id: nat)
    | Spent
    | Adrift
  {
    /** The id is the task's own, from the free list. */
    predicate Owns() { Ready? || Started? || Ended? }
    predicate Holds() { Owns() || Awaited? }
    predicate Runs() { Started? || Awaited? || Adrift? }

    /** The status is `ready` or `limited`. */
    predicate Waits() { Ready? || Limited? }
  }

  /**
   The ids from `base` on: `free` is the list from its front, `stacks` the coroutine of
   each id, `manager` is `global_task_manager`.
   */
  datatype Pool = Pool(base: nat, free: seq<nat>, manager: map<nat, nat>, stacks: seq<Stack>, tasks: map<nat, Phase>) {
    predicate Has(id: nat) { base <= id < base + |stacks| }

    function StackOf(id: nat): Stack
      requires Has(id)
    {
      stacks[id - base]
    }

    function SetStack(id: nat, s: Stack): Pool
      requires Has(id)
    {
      this.(stacks := stacks[id - base := s])
    }
  }

  datatype Op =
    | Construct(task: nat)
    | Await(task: nat, on: nat)
    | Return(task: nat)
    | Start(task: nat)
    | Finish(task: nat, started: bool)
    | Destroy(task: nat)

  function Initial(base: nat, size: nat): Pool {
    Pool(base, seq(size, i requires 0 <= i < size => base + i), map[], seq(size, _ => Fresh), map[])
  }

  /** What can happen at all: objects are constructed once, and only a task that runs ends. */
  predicate Possible(p: Pool, op: Op) {
    match op
    case Construct(t) => t !in p.tasks
    case Await(t, _) => t in p.tasks
    case Return(t) => t in p.tasks && p.tasks[t].Awaited?
    case Start(t) => t in p.tasks && (p.tasks[t].Ready? ==> p.Has(p.tasks[t].id))
    case Finish(t, _) => t in p.tasks && p.tasks[t].Started? && p.Has(p.tasks[t].id)
    case Destroy(t) => t in p.tasks
  }

  /** What the library asks of its users: only tasks that do not run are awaited, started or destroyed. */
  predicate Legal(p: Pool, op: Op) {
    Possible(p, op) && (op.Await? || op.Start? || op.Destroy? ==> !p.tasks[op.task].Runs())
  }

  /** Back to the front of the list. */
  function Released(p: Pool, t: nat): Pool
    requires t in p.tasks
  {
    if p.tasks[t].Holds() then p.(free := [p.tasks[t].id] + p.free) else p
  }

  function Gone(p: Pool, t: nat): Pool
    requires t in p.tasks
  {
    Released(p, t).(tasks := p.tasks - {t})
  }

  /** The task that runs when the loop switches to the coroutine of `id`. */
  function Entered(p: Pool, id: nat): Option<nat>
    requires p.Has(id)
  {
    match p.StackOf(id)
    case Busy(t) => Some(t)
    case _ => if id in p.manager then Some(p.manager[id]) else None
  }

  /** `await` and `start` look at the status only after the id went back, and refuse a running task with -1. */
  function Apply(p: Pool, op: Op): Pool
    requires Possible(p, op)
  {
    match op
    case Construct(t) =>
      if p.free == [] then p.(tasks := p.tasks[t := Limited])
      else
        var id := p.free[0];
        p.(free := p.free[1..], manager := p.manager[id := t], tasks := p.tasks[t := Ready(id)])
    case Await(t, on) => Released(p, t).(tasks := p.tasks[t := AfterAwait(p.tasks[t], on)])
    case Return(t) => p.(tasks := p.tasks[t := Spent])
    case Start(t) =>
      if !p.tasks[t].Ready? then Gone(p, t)
      else
        var id := p.tasks[t].id;
        p.SetStack(id, Busy(t)).(tasks := p.tasks[t := Started(id)])
    case Finish(t, started) =>
      var id := p.tasks[t].id;
      var q := p.SetStack(id, Parked).(tasks := p.tasks[t := Ended(id)]);
      if started then Gone(q.(manager := q.manager - {id}), t) else q
    case Destroy(t) => Gone(p, t)
  }

  function AfterAwait(f: Phase, on: nat): Phase {
    if f.Waits() then Awaited(on) else if f.Runs() then Adrift else Spent
  }

  /* ---------- the invariant ---------- */

  ghost predicate Owner(p: Pool, t: nat, id: nat) { t in p.tasks && p.tasks[t].Owns() && p.tasks[t].id == id }

  ghost predicate Owned(p: Pool, id: nat) { exists t :: Owner(p, t, id) }

  /** The free list holds each id of the range that no task owns, once; the others have one owner. */
  ghost predicate Conserved(p: Pool) {
    && Distinct(p.free)
    && (forall id :: id in p.free <==> p.Has(id) && !Owned(p, id))
    && (forall t, id :: Owner(p, t, id) ==> p.Has(id))
    && (forall t, u, id :: Owner(p, t, id) && Owner(p, u, id) ==> t == u)
  }

  /** A coroutine is in the middle of a task just when that task was started on it. */
  ghost predicate Coherent(p: Pool) {
    && (forall t, id :: Owner(p, t, id) && !p.tasks[t].Ended? ==> id in p.manager && p.manager[id] == t)
    && (forall id, t :: p.Has(id) && p.StackOf(id) == Busy(t) ==> Owner(p, t, id) && p.tasks[t].Started?)
    && (forall t, id :: Owner(p, t, id) && p.Has(id) && p.tasks[t].Started? ==> p.StackOf(id) == Busy(t))
    && (forall t | t in p.tasks :: !p.tasks[t].Adrift?)
  }

  ghost predicate Inv(p: Pool) { Conserved(p) && Coherent(p) }

  lemma InitialInv(base: nat, size: nat)
    ensures Inv(Initial(base, size))
  {
    var p := Initial(base, size);
    forall id: nat ensures id in p.free <==> p.Has(id) {
      if p.Has(id) { assert p.free[id - base] == id; }
    }
  }

  /* ---------- every operation keeps it ---------- */

  /** The first free id gets an owner. */
  lemma TakeConserves(p: Pool, t: nat, q: Pool)
    requires Conserved(p) && p.free != [] && q.free == p.free[1..] && q.base == p.base && q.stacks == p.stacks
    requires forall u, id :: Owner(q, u, id) <==> Owner(p, u, id) || (u == t && id == p.free[0])
    requires forall id :: !Owner(p, t, id)
    ensures Conserved(q)
  {
    var id0 := p.free[0];
    assert id0 in p.free;
    assert Owner(q, t, id0);
    assert p.free == [id0] + q.free;
    forall id ensures id in q.free <==> q.Has(id) && !Owned(q, id) {
      assert Owned(q, id) <==> Owned(p, id) || id == id0;
    }
  }

  lemma TakeCoheres(p: Pool, t: nat)
    requires Inv(p) && t !in p.tasks && p.free != []
    ensures Coherent(Apply(p, Construct(t)))
  {
    var q, id0 := Apply(p, Construct(t)), p.free[0];
    assert id0 in p.free;
    assert forall u, id :: Owner(q, u, id) <==> Owner(p, u, id) || (u == t && id == id0);
    forall u, id | Owner(q, u, id) && !q.tasks[u].Ended? ensures id in q.manager && q.manager[id] == u {
      if u != t {
        assert Owner(p, u, id) && Owned(p, id);
      }
    }
    forall id, u | q.Has(id) && q.StackOf(id) == Busy(u) ensures Owner(q, u, id) && q.tasks[u].Started? {
      assert p.Has(id) && p.StackOf(id) == Busy(u);
      assert Owner(p, u, id);
    }
  }

  lemma ConstructKeeps(p: Pool, t: nat)
    requires Inv(p) && Legal(p, Construct(t))
    ensures Inv(Apply(p, Construct(t)))
  {
    var q := Apply(p, Construct(t));
    if p.free == [] {
      assert forall u, id :: Owner(q, u, id) <==> Owner(p, u, id);
      SameOwners(p, q);
    } else {
      TakeConserves(p, t, q);
      TakeCoheres(p, t);
    }
  }

  lemma SameOwners(p: Pool, q: Pool)
    requires Conserved(p) && q.free == p.free && q.base == p.base && |q.stacks| == |p.stacks|
    requires forall u, id :: Owner(q, u, id) <==> Owner(p, u, id)
    ensures Conserved(q)
  {
    assert forall id :: Owned(q, id) <==> Owned(p, id);
  }

  /** An owned id loses its owner and is put back. */
  lemma PutConserves(p: Pool, t: nat, id0: nat, q: Pool)
    requires Conserved(p) && Owner(p, t, id0) && q.free == [id0] + p.free && q.base == p.base && q.stacks == p.stacks
    requires forall u, id :: Owner(q, u, id) <==> Owner(p, u, id) && u != t
    ensures Conserved(q)
  {
    assert Owned(p, id0);
    forall id ensures id in q.free <==> q.Has(id) && !Owned(q, id) {
      if Owned(p, id) && id != id0 {
        var u :| Owner(p, u, id);
        assert Owner(q, u, id);
      }
      assert id in q.free <==> id == id0 || id in p.free;
    }
  }

  lemma ReleaseCoheres(p: Pool, t: nat, q: Pool)
    requires Coherent(p) && t in p.tasks && !p.tasks[t].Runs()
    requires q == p.(free := q.free, tasks := q.tasks)
    requires forall u :: u != t ==> (u in q.tasks <==> u in p.tasks)
    requires forall u :: u != t && u in p.tasks ==> q.tasks[u] == p.tasks[u]
    requires t in q.tasks ==> !q.tasks[t].Owns() && !q.tasks[t].Adrift?
    ensures Coherent(q)
  {
    assert forall u, id :: Owner(q, u, id) <==> Owner(p, u, id) && u != t;
    forall id, u | q.Has(id) && q.StackOf(id) == Busy(u) ensures Owner(q, u, id) && q.tasks[u].Started? {
      assert p.Has(id) && p.StackOf(id) == Busy(u);
      assert Owner(p, u, id);
    }
  }

  /** Taking the id from its owner and putting it back to the list. */
  lemma ReleaseKeeps(p: Pool, t: nat, q: Pool)
    requires Inv(p) && t in p.tasks && !p.tasks[t].Runs()
    requires q == Released(p, t).(tasks := q.tasks)
    requires forall u :: u != t ==> (u in q.tasks <==> u in p.tasks)
    requires forall u :: u != t && u in p.tasks ==> q.tasks[u] == p.tasks[u]
    requires t in q.tasks ==> !q.tasks[t].Owns() && !q.tasks[t].Adrift?
    ensures Inv(q)
  {
    assert forall u, id :: Owner(q, u, id) <==> Owner(p, u, id) && u != t;
    if p.tasks[t].Owns() {
      PutConserves(p, t, p.tasks[t].id, q);
    } else {
      SameOwners(p, q);
    }
    ReleaseCoheres(p, t, q);
  }

  /** Moving a task to another phase with the same id, and its coroutine with it. */
  lemma MoveKeeps(p: Pool, t: nat, to: Phase, s: Stack)
    requires Inv(p) && t in p.tasks && p.tasks[t].Owns() && p.Has(p.tasks[t].id)
    requires (p.tasks[t].Ready? && to == Started(p.tasks[t].id) && s == Busy(t)) || (p.tasks[t].Started?
      && to == Ended(p.tasks[t].id) && s == Parked)
    ensures Inv(p.SetStack(p.tasks[t].id, s).(tasks := p.tasks[t := to]))
  {
    var id0 := p.tasks[t].id;
    var q := p.SetStack(id0, s).(tasks := p.tasks[t := to]);
    assert Owner(p, t, id0);
    assert forall u, id :: Owner(q, u, id) <==> Owner(p, u, id);
    assert forall id :: Owned(q, id) <==> Owned(p, id);
    assert forall id :: p.Has(id) ==> q.StackOf(id) == if id == id0 then s else p.StackOf(id);
  }

  lemma ForgetKeeps(p: Pool, t: nat)
    requires Inv(p) && t in p.tasks && p.tasks[t].Ended?
    ensures Inv(p.(manager := p.manager - {p.tasks[t].id}))
  {
    var q := p.(manager := p.manager - {p.tasks[t].id});
    assert Owner(p, t, p.tasks[t].id);
    assert forall u, id :: Owner(q, u, id) <==> Owner(p, u, id);
    assert forall id :: Owned(q, id) <==> Owned(p, id);
  }

  lemma SpendKeeps(p: Pool, t: nat)
    requires Inv(p) && t in p.tasks && p.tasks[t].Awaited?
    ensures Inv(p.(tasks := p.tasks[t := Spent]))
  {
    var q := p.(tasks := p.tasks[t := Spent]);
    assert forall u, id :: Owner(q, u, id) <==> Owner(p, u, id);
    assert forall id :: Owned(q, id) <==> Owned(p, id);
  }

  lemma ApplyKeeps(p: Pool, op: Op)
    requires Inv(p) && Legal(p, op)
    ensures Inv(Apply(p, op))
  {
    match op {
      case Construct(t) => ConstructKeeps(p, t);
      case Await(t, _) => ReleaseKeeps(p, t, Apply(p, op));
      case Return(t) => SpendKeeps(p, t);
      case Start(t) =>
        if p.tasks[t].Ready? {
          MoveKeeps(p, t, Started(p.tasks[t].id), Busy(t));
        } else {
          ReleaseKeeps(p, t, Apply(p, op));
        }
      case Finish(t, started) =>
        var id := p.tasks[t].id;
        MoveKeeps(p, t, Ended(id), Parked);
        if started {
          var q := p.SetStack(id, Parked).(tasks := p.tasks[t := Ended(id)]);
          ForgetKeeps(q, t);
          ReleaseKeeps(q.(manager := q.manager - {id}), t, Apply(p, op));
        }
      case Destroy(t) => ReleaseKeeps(p, t, Apply(p, op));
    }
  }

  /* ---------- runs ---------- */

  ghost predicate LegalRun(p: Pool, ops: seq<Op>)
    decreases |ops|
  {
    ops == [] || (Legal(p, ops[0]) && LegalRun(Apply(p, ops[0]), ops[1..]))
  }

  function Run(p: Pool, ops: seq<Op>): Pool
    requires LegalRun(p, ops)
    decreases |ops|
  {
    if ops == [] then p else Run(Apply(p, ops[0]), ops[1..])
  }

  lemma {:induction false} RunKeeps(p: Pool, ops: seq<Op>)
    requires Inv(p) && LegalRun(p, ops)
    ensures Inv(Run(p, ops))
    ensures Run(p, ops).base == p.base && |Run(p, ops).stacks| == |p.stacks|
    decreases |ops|
  {
    if ops != [] {
      ApplyKeeps(p, ops[0]);
      RunKeeps(Apply(p, ops[0]), ops[1..]);
    }
  }

  /** A list without repetition inside a range leaves room for what it lacks. */
  lemma {:induction false} Room(s: seq<nat>, base: nat, size: nat, missing: nat)
    requires Distinct(s) && (forall x | x in s :: base <= x < base + size)
    requires base <= missing < base + size && missing !in s
    ensures |s| < size
  {
    var all := RangeSet(base, size);
    var elems := set x | x in s;
    CountDistinct(s, elems);
    assert elems + {missing} <= all;
    SubsetSize(elems + {missing}, all);
  }

  function RangeSet(base: nat, size: nat): (r: set<nat>)
    ensures |r| == size && forall x :: x in r <==> base <= x < base + size
  {
    if size == 0 then {} else RangeSet(base, size - 1) + {base + size - 1}
  }

  lemma {:induction false} SubsetSize(a: set<nat>, b: set<nat>)
    requires a <= b
    ensures |a| <= |b|
  {
    if a != {} {
      var x :| x in a;
      SubsetSize(a - {x}, b - {x});
    }
  }

  lemma FirstIsNew(s: seq<nat>)
    requires Distinct(s) && s != []
    ensures s[0] !in s[1..] && Distinct(s[1..])
    ensures forall x :: x in s <==> x == s[0] || x in s[1..]
  {
    assert s == [s[0]] + s[1..];
    forall i | 0 <= i < |s[1..]| ensures s[1..][i] != s[0] {
      assert s[1..][i] == s[i + 1];
    }
  }

  lemma {:induction false} CountDistinct(s: seq<nat>, elems: set<nat>)
    requires Distinct(s) && elems == set x | x in s
    ensures |elems| == |s|
  {
    if s != [] {
      var rest := set x | x in s[1..];
      FirstIsNew(s);
      CountDistinct(s[1..], rest);
      assert elems == rest + {s[0]};
    }
  }

  /**
   MAIN RESULT. Over every legal run: the free ids and the owned ids make up the range,
   each once; no free id stands for a coroutine in the middle of a task; and a release
   always finds room before the front of the list.
   */
  lemma IdsConserved(base: nat, size: nat, ops: seq<Op>)
    requires LegalRun(Initial(base, size), ops)
    ensures var p := Run(Initial(base, size), ops);
      && Conserved(p) && p.base == base && |p.stacks| == size
      && (forall id | id in p.free :: p.Has(id) && !p.StackOf(id).Busy?)
      && (forall t | t in p.tasks && p.tasks[t].Owns() :: |p.free| < size)
  {
    InitialInv(base, size);
    RunKeeps(Initial(base, size), ops);
    var p := Run(Initial(base, size), ops);
    forall t | t in p.tasks && p.tasks[t].Owns() ensures |p.free| < size {
      assert Owner(p, t, p.tasks[t].id);
      Room(p.free, base, size, p.tasks[t].id);
    }
  }

  /* ---------- every id comes back ---------- */

  /** The operations after which a task needs no id any more. */
  predicate GivesBack(op: Op, t: nat) {
    op == Destroy(t) || op == Finish(t, true) || (op.Await? && op.task == t)
  }

  /** From operation `i` on the task `t` is there, and is not done with. */
  ghost predicate Outstanding(ops: seq<Op>, i: nat, t: nat) {
    i < |ops| && ops[i] == Construct(t) && forall j | i < j < |ops| :: !GivesBack(ops[j], t)
  }

  ghost predicate Owns(p: Pool, t: nat) { t in p.tasks && p.tasks[t].Owns() }

  lemma StepOwns(p: Pool, op: Op, t: nat)
    requires Legal(p, op) && Owns(Apply(p, op), t)
    ensures op == Construct(t) || (Owns(p, t) && !GivesBack(op, t))
  {
  }

  /** Who owns an id after a run did so before it or was constructed in it, and has not given it back since. */
  lemma {:induction false} OwnersOutstanding(p: Pool, ops: seq<Op>, t: nat)
    requires LegalRun(p, ops) && Owns(Run(p, ops), t)
    ensures (Owns(p, t) && forall j | 0 <= j < |ops| :: !GivesBack(ops[j], t))
      || exists i: nat :: Outstanding(ops, i, t)
    decreases |ops|
  {
    if ops != [] {
      var q, more := Apply(p, ops[0]), ops[1..];
      OwnersOutstanding(q, more, t);
      if i: nat :| Outstanding(more, i, t) {
        assert forall j | i + 1 < j < |ops| :: ops[j] == more[j - 1];
        assert Outstanding(ops, i + 1, t);
      } else {
        StepOwns(p, ops[0], t);
        assert forall j | 1 <= j < |ops| :: ops[j] == more[j - 1];
        assert ops[0] == Construct(t) ==> Outstanding(ops, 0, t);
      }
    }
  }

  /**
   MAIN RESULT. Nothing leaks: after a legal run in which every task that was constructed has
   been awaited, destroyed, or started and ended, the free list holds the whole range again.
   */
  lemma AllComeBack(base: nat, size: nat, ops: seq<Op>)
    requires LegalRun(Initial(base, size), ops)
    requires forall i: nat, t :: !Outstanding(ops, i, t)
    ensures var p := Run(Initial(base, size), ops);
      |p.free| == size && Distinct(p.free) && forall id :: id in p.free <==> base <= id < base + size
  {
    var p := Run(Initial(base, size), ops);
    InitialInv(base, size);
    RunKeeps(Initial(base, size), ops);
    forall t, id ensures !Owner(p, t, id) {
      if Owns(p, t) {
        OwnersOutstanding(Initial(base, size), ops, t);
      }
    }
    assert forall id: nat :: p.Has(id) <==> base <= id < base + size;
    WholeRange(p.free, base, size);
  }

  lemma WholeRange(s: seq<nat>, base: nat, size: nat)
    requires Distinct(s) && forall id :: id in s <==> base <= id < base + size
    ensures |s| == size
  {
    var elems := set x | x in s;
    CountDistinct(s, elems);
    assert elems == RangeSet(base, size);
  }

  /** MAIN RESULT. Over every legal run, a start enters the task it names and never resumes an older one. */
  lemma StartEntersTask(base: nat, size: nat, ops: seq<Op>, t: nat)
    requires LegalRun(Initial(base, size), ops)
    requires var p := Run(Initial(base, size), ops); t in p.tasks && p.tasks[t].Ready?
    ensures var p := Run(Initial(base, size), ops);
      p.Has(p.tasks[t].id) && !p.StackOf(p.tasks[t].id).Busy? && Entered(p, p.tasks[t].id) == Some(t)
  {
    InitialInv(base, size);
    RunKeeps(Initial(base, size), ops);
    var p := Run(Initial(base, size), ops);
    assert Owner(p, t, p.tasks[t].id);
  }

  /** MAIN RESULT. A wake-up of a task that was started and has not ended resumes just that task. */
  lemma WakeResumesTask(base: nat, size: nat, ops: seq<Op>, t: nat)
    requires LegalRun(Initial(base, size), ops)
    requires var p := Run(Initial(base, size), ops); t in p.tasks && p.tasks[t].Started?
    ensures var p := Run(Initial(base, size), ops); p.Has(p.tasks[t].id) && Entered(p, p.tasks[t].id) == Some(t)
  {
    InitialInv(base, size);
    RunKeeps(Initial(base, size), ops);
    var p := Run(Initial(base, size), ops);
    assert Owner(p, t, p.tasks[t].id);
  }

  /* ---------- tasks that run ---------- */

  /**
   What a construction and a start rely on: a free id is in the range, listed once, and stands
   for an idle coroutine that nobody owns.
   */
  ghost predicate Sound(p: Pool) {
    Distinct(p.free) && forall id | id in p.free :: p.Has(id) && !Owned(p, id) && !p.StackOf(id).Busy?
  }

  lemma InvIsSound(p: Pool)
    requires Inv(p)
    ensures Sound(p)
  {
  }

  /** A running task's id, its own or its parent's, back on the free list. */
  lemma ReleaseBreaks(p: Pool, t: nat, q: Pool)
    requires Inv(p) && t in p.tasks && p.tasks[t].Runs()
    requires q == Released(p, t).(tasks := q.tasks)
    requires forall u :: u != t && u in p.tasks ==> u in q.tasks && q.tasks[u] == p.tasks[u]
    ensures !Sound(q)
  {
    var id := p.tasks[t].id;
    assert q.free == [id] + p.free && id in q.free;
    if p.tasks[t].Started? {
      assert Owner(p, t, id);
    } else if p.Has(id) {
      if id in p.free {
        var i :| 0 <= i < |p.free| && p.free[i] == id;
        assert q.free[0] == q.free[i + 1];
      } else {
        assert Owned(p, id);
        var u :| Owner(p, u, id);
        assert Owner(q, u, id);
      }
    }
  }

  /**
   MAIN RESULT. The exact condition: an `await` keeps the pool intact if and only if its
   target does not run. Else the id goes back, the task's own or its parent's, before the
   status is looked at, and the list holds an id that is not free.
   */
  lemma AwaitKeepsExactly(p: Pool, t: nat, on: nat)
    requires Inv(p) && t in p.tasks
    ensures var q := Apply(p, Await(t, on));
      && (Inv(q) <==> !p.tasks[t].Runs())
      && (Sound(q) <==> !p.tasks[t].Runs())
  {
    var q := Apply(p, Await(t, on));
    if p.tasks[t].Runs() {
      ReleaseBreaks(p, t, q);
    } else {
      ReleaseKeeps(p, t, q);
    }
    if Inv(q) {
      InvIsSound(q);
    }
  }

  /** MAIN RESULT. The same of a `start`, which deletes a target that is not ready. */
  lemma StartKeepsExactly(p: Pool, t: nat)
    requires Inv(p) && t in p.tasks
    ensures Possible(p, Start(t))
    ensures var q := Apply(p, Start(t));
      && (Inv(q) <==> !p.tasks[t].Runs())
      && (Sound(q) <==> !p.tasks[t].Runs())
  {
    if p.tasks[t].Ready? {
      assert Owner(p, t, p.tasks[t].id);
    }
    var q := Apply(p, Start(t));
    if p.tasks[t].Runs() {
      ReleaseBreaks(p, t, q);
    } else {
      ApplyKeeps(p, Start(t));
    }
    if Inv(q) {
      InvIsSound(q);
    }
  }

  /**
   The exact condition for all operations: those that can happen keep the pool intact if and
   only if they are legal, that is, unless a running task is awaited, started or destroyed.
   */
  lemma LegalExactly(p: Pool, op: Op)
    requires Inv(p) && Possible(p, op)
    ensures Inv(Apply(p, op)) <==> Legal(p, op)
    ensures Legal(p, op) <==>
      !((op.Await? || op.Start? || op.Destroy?) && op.task in p.tasks && p.tasks[op.task].Runs())
  {
    if Legal(p, op) {
      ApplyKeeps(p, op);
    } else {
      ReleaseBreaks(p, op.task, Apply(p, op));
      if Inv(Apply(p, op)) {
        InvIsSound(Apply(p, op));
      }
    }
  }

  /** What can happen to a task in an intact pool. */
  lemma PossibleExactly(p: Pool, t: nat, on: nat, started: bool)
    requires Inv(p)
    ensures Possible(p, Construct(t)) <==> t !in p.tasks
    ensures Possible(p, Await(t, on)) <==> t in p.tasks
    ensures Possible(p, Start(t)) <==> t in p.tasks
    ensures Possible(p, Destroy(t)) <==> t in p.tasks
    ensures Possible(p, Op.Return(t)) <==> t in p.tasks && p.tasks[t].Awaited?
    ensures Possible(p, Finish(t, started)) <==> t in p.tasks && p.tasks[t].Started?
  {
    if t in p.tasks && p.tasks[t].Owns() {
      assert Owner(p, t, p.tasks[t].id);
    }
  }

  /**
   What follows from an `await` of a task that was started and runs: the next task that
   is constructed gets its id, and a switch to the new task resumes the old one.
   */
  lemma AwaitOfRunningBreaks(p: Pool, t: nat, u: nat, on: nat)
    requires Inv(p) && t in p.tasks && p.tasks[t].Started? && u !in p.tasks
    ensures var q := Apply(p, Await(t, on));
      && Possible(q, Construct(u))
      && var r := Apply(q, Construct(u));
         r.tasks[u] == Ready(p.tasks[t].id) && r.Has(p.tasks[t].id) && Entered(r, p.tasks[t].id) == Some(t)
  {
    assert Owner(p, t, p.tasks[t].id);
  }

  /* ---------- the list in its array ---------- */

  /** `list[front..]` are the free ids. */
  class TaskPool {
    const base: nat
    const list: array<nat>
    var front: nat
    var manager: map<nat, nat>
    var stacks: seq<Stack>
    var tasks: map<nat, Phase>

    ghost predicate Shape()
      reads this
    {
      front <= list.Length == |stacks|
    }

    ghost predicate Valid()
      reads this, list
    {
      Shape() && Inv(Model())
    }

    ghost function Model(): Pool
      reads this, list
      requires front <= list.Length
    {
      Pool(base, list[front..], manager, stacks, tasks)
    }

    /** The list as `__init_setting` fills it. */
    constructor (base: nat, size: nat)
      ensures Valid() && Model() == Initial(base, size)
    {
      var ids := new nat[size];
      for i := 0 to size
        invariant forall j :: 0 <= j < i ==> ids[j] == base + j
      {
        ids[i] := base + i;
      }
      this.base, list, front := base, ids, 0;
      manager, stacks, tasks := map[], seq(size, _ => Fresh), map[];
      new;
      assert list[front..] == Initial(base, size).free;
      InitialInv(base, size);
    }

    /** An id that the task held has been written right before the old front, and nothing else has changed. */
    ghost predicate GaveBack(front0: nat, list0: seq<nat>, was: Phase)
      reads this, list
    {
      if was.Holds() then
        && front0 > 0 && front == front0 - 1 && front0 <= |list0|
        && list[..] == list0[front := was.id]
      else front == front0 && list[..] == list0
    }

    /** `*(--free_list_front) = id`. */
    method PutBack(t: nat)
      requires Valid() && t in tasks && (tasks[t].Awaited? ==> front > 0)
      modifies this`front, list
      ensures Shape() && Model() == Released(old(Model()), t)
      ensures GaveBack(old(front), old(list[..]), old(tasks[t]))
    {
      if tasks[t].Holds() {
        if tasks[t].Owns() {
          assert Owner(Model(), t, tasks[t].id);
          Room(list[front..], base, list.Length, tasks[t].id);
        }
        front := front - 1;
        list[front] := tasks[t].id;
      }
    }

    /** The constructor of `task`. */
    method Construct(t: nat)
      requires Valid() && Legal(Model(), Op.Construct(t))
      modifies this
      ensures Valid() && Model() == Apply(old(Model()), Op.Construct(t))
      ensures list[..] == old(list[..]) && t in tasks
      ensures if old(front) == list.Length then tasks[t] == Limited && front == old(front)
              else tasks[t] == Ready(old(list[front])) && front == old(front) + 1
    {
      ApplyKeeps(Model(), Op.Construct(t));
      if front != list.Length {
        var id := list[front];
        front := front + 1;
        tasks := tasks[t := Ready(id)];
        manager := manager[id := t];
      } else {
        tasks := tasks[t := Limited];
      }
    }

    /**
     The template `await`, and `__await` up to the run of the target, made on the coroutine
     `on`; -1 when the status is wrong. The id of a task that is awaited already is written
     before the array when every id of the pool is free.
     */
    method Await(t: nat, on: nat) returns (ret: int)
      requires Valid() && t in tasks && (tasks[t].Awaited? ==> front > 0)
      modifies this, list
      ensures Shape() && Model() == Apply(old(Model()), Op.Await(t, on))
      ensures ret == if old(tasks[t].Waits()) then 0 else -1
      ensures Valid() <==> !old(tasks[t].Runs())
      ensures GaveBack(old(front), old(list[..]), old(tasks[t]))
      ensures tasks == old(tasks)[t := if ret == 0 then Awaited(on) else if old(tasks[t].Runs()) then Adrift else Spent]
    {
      AwaitKeepsExactly(Model(), t, on);
      PutBack(t);
      if tasks[t].Waits() {
        tasks := tasks[t := Awaited(on)];
        return 0;
      }
      tasks := tasks[t := if tasks[t].Runs() then Adrift else Spent];
      return -1;
    }

    /** The end of an awaited task in `__await`. */
    method Return(t: nat)
      requires Valid() && Legal(Model(), Op.Return(t))
      modifies this`tasks
      ensures Valid() && Model() == Apply(old(Model()), Op.Return(t))
    {
      ApplyKeeps(Model(), Op.Return(t));
      tasks := tasks[t := Spent];
    }

    /** `__start`; -1 when the status is wrong. */
    method Start(t: nat) returns (ret: int)
      requires Valid() && t in tasks && (tasks[t].Awaited? ==> front > 0)
      modifies this, list
      ensures Shape() && Possible(old(Model()), Op.Start(t)) && Model() == Apply(old(Model()), Op.Start(t))
      ensures ret == if old(tasks[t].Ready?) then 0 else -1
      ensures Valid() <==> !old(tasks[t].Runs())
      ensures if ret == 0 then front == old(front) && list[..] == old(list[..]) && t in tasks && tasks[t].Started?
              else t !in tasks && GaveBack(old(front), old(list[..]), old(tasks[t]))
    {
      StartKeepsExactly(Model(), t);
      if !tasks[t].Ready? {
        PutBack(t);
        tasks := tasks - {t};
        return -1;
      }
      var id := tasks[t].id;
      stacks := stacks[id - base := Busy(t)];
      tasks := tasks[t := Started(id)];
      return 0;
    }

    /** The task is over, and its coroutine goes back to the head of its loop. */
    method End(t: nat)
      requires Valid() && Legal(Model(), Op.Finish(t, false))
      modifies this`stacks, this`tasks
      ensures Valid() && Model() == Apply(old(Model()), Op.Finish(t, false))
      ensures tasks == old(tasks)[t := Ended(old(tasks[t].id))]
      ensures Model().Has(old(tasks[t].id)) && Model().StackOf(old(tasks[t].id)) == Parked
    {
      ApplyKeeps(Model(), Op.Finish(t, false));
      var id := tasks[t].id;
      stacks := stacks[id - base := Parked];
      tasks := tasks[t := Ended(id)];
    }

    /** The end of `__task_runtime`, with the delete of a task that was started on its own. */
    method Finish(t: nat, started: bool)
      requires Valid() && Legal(Model(), Op.Finish(t, started))
      modifies this, list
      ensures Valid() && Model() == Apply(old(Model()), Op.Finish(t, started))
      ensures started ==>
        && t !in tasks && front == old(front) - 1 && list[front] == old(tasks[t].id)
        && old(tasks[t].id) !in manager
      ensures !started ==>
        && front == old(front) && list[..] == old(list[..]) && manager == old(manager)
        && t in tasks && tasks[t] == Ended(old(tasks[t].id))
      ensures Model().Has(old(tasks[t].id)) && Model().StackOf(old(tasks[t].id)) == Parked
    {
      var id := tasks[t].id;
      End(t);
      if started {
        ForgetKeeps(Model(), t);
        manager := manager - {id};
        Destroy(t);
      }
    }

    /** The destructor of `task`. */
    method Destroy(t: nat)
      requires Valid() && Legal(Model(), Op.Destroy(t))
      modifies this, list
      ensures Valid() && Model() == Apply(old(Model()), Op.Destroy(t))
      ensures t !in tasks && tasks == old(tasks) - {t} && manager == old(manager)
      ensures GaveBack(old(front), old(list[..]), old(tasks[t]))
    {
      ApplyKeeps(Model(), Op.Destroy(t));
      PutBack(t);
      tasks := tasks - {t};
    }
  }
}
