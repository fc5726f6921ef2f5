/**
 Tasks as trees: `sleep`, user tasks that await one task after another, `all_of` and
 `any_of`. Starting, waking and cancelling follow the primitives; time is the event
 loop's clock, which stands still while tasks run.
 */
module Tasks {

  /** What a task does. The combinators insist on at least one child. */
  datatype Program =
    | Sleep(timeout: nat)
    | User(body: seq<Program>)
    | AllOf(parts: seq<Program>)
    | AnyOf(parts: seq<Program>)
  {
    ghost predicate Valid() {
      match this
      case Sleep(_) => true
      case User(body) => forall p | p in body :: p.Valid()
      case AllOf(ps) => ps != [] && forall p | p in ps :: p.Valid()
      case AnyOf(ps) => ps != [] && forall p | p in ps :: p.Valid()
    }
  }

  /** A task object. `Idle` is constructed and not started; the children stay visible after the end. */
  datatype Task =
    | Idle(program: Program)
    | Sleeping(due: nat)
    | Awaiting(target: Task, rest: seq<Program>)
    | WaitingAll(children: seq<Task>, count: nat)
    | WaitingAny(children: seq<Task>)
    | Completed
    | CompletedAll(children: seq<Task>)
    | CompletedAny(children: seq<Task>, who: nat)
    | Canceled(children: seq<Task>)
  {
    predicate Running() { Sleeping? || Awaiting? || WaitingAll? || WaitingAny? }
    predicate Finished() { Completed? || CompletedAll? || CompletedAny? }
  }

  /* ---------- running ---------- */

  /** `run()` of a task up to its first yield, or to its end. */
  function Start(p: Program, now: nat): Task
    decreases p, 0, 0
  {
    match p
    case Sleep(timeout) => Sleeping(now + timeout)
    case User(body) => StartUser(body, now)
    case AllOf(ps) =>
      var cs := StartAll(ps, now);
      Settle(cs, CountRunning(cs))
    case AnyOf(ps) =>
      var cs := StartAny(ps, now);
      if |cs| > 0 && cs[|cs| - 1].Finished() then CompletedAny(CancelAll(cs) + IdleAll(ps[|cs|..]), |cs| - 1)
      else WaitingAny(cs)
  }

  /** The awaits of a user task from the next one on; the clock does not move. */
  function StartUser(body: seq<Program>, now: nat): Task
    decreases body, 1, |body|
  {
    if body == [] then Completed
    else
      var t := Start(body[0], now);
      if t.Finished() then StartUser(body[1..], now) else Awaiting(t, body[1..])
  }

  /** The starting loop of `all_of::run`. */
  function StartAll(ps: seq<Program>, now: nat): (cs: seq<Task>)
    ensures |cs| == |ps|
    decreases ps, 1, |ps|
  {
    if ps == [] then [] else [Start(ps[0], now)] + StartAll(ps[1..], now)
  }

  /** The starting loop of `any_of::run`, which stops after a child that completes at once. */
  function StartAny(ps: seq<Program>, now: nat): (cs: seq<Task>)
    ensures |cs| <= |ps| && (ps != [] ==> cs != [])
    decreases ps, 1, |ps|
  {
    if ps == [] then []
    else
      var t := Start(ps[0], now);
      if t.Finished() then [t] else [t] + StartAny(ps[1..], now)
  }

  function IdleAll(ps: seq<Program>): seq<Task> { seq(|ps|, i requires 0 <= i < |ps| => Idle(ps[i])) }

  /** The waiting loop of `all_of::run`. */
  function Settle(cs: seq<Task>, count: nat): Task {
    if count == 0 then CompletedAll(cs) else WaitingAll(cs, count)
  }

  function CountRunning(cs: seq<Task>): nat {
    if cs == [] then 0 else (if cs[0].Running() then 1 else 0) + CountRunning(cs[1..])
  }

  /** Cancelling reaches every running descendant. */
  function Cancel(t: Task): Task {
    match t
    case Sleeping(_) => Canceled([])
    case Awaiting(target, _) => Canceled([Cancel(target)])
    case WaitingAll(cs, _) => Canceled(CancelAll(cs))
    case WaitingAny(cs) => Canceled(CancelAll(cs))
    case _ => t
  }

  function CancelAll(cs: seq<Task>): (ds: seq<Task>)
    ensures |ds| == |cs|
  {
    if cs == [] then [] else [Cancel(cs[0])] + CancelAll(cs[1..])
  }

  /** The scan of `any_of::run` after it was woken. */
  function FirstFinished(cs: seq<Task>): nat {
    if cs == [] || cs[0].Finished() then 0 else 1 + FirstFinished(cs[1..])
  }

  /* ---------- timers ---------- */

  /** `path` leads from `t` to a sleeping task. */
  predicate IsTimer(t: Task, path: seq<nat>) {
    match t
    case Sleeping(_) => path == []
    case Awaiting(target, _) => IsTimer(target, path)
    case WaitingAll(cs, _) => path != [] && path[0] < |cs| && IsTimer(cs[path[0]], path[1..])
    case WaitingAny(cs) => path != [] && path[0] < |cs| && IsTimer(cs[path[0]], path[1..])
    case _ => false
  }

  function Due(t: Task, path: seq<nat>): nat
    requires IsTimer(t, path)
  {
    match t
    case Sleeping(due) => due
    case Awaiting(target, _) => Due(target, path)
    case WaitingAll(cs, _) => Due(cs[path[0]], path[1..])
    case WaitingAny(cs) => Due(cs[path[0]], path[1..])
  }

  /** The timer at `path` fires: the sleeper completes, and whatever that wakes runs on. */
  function Fire(t: Task, path: seq<nat>, now: nat): Task
    requires IsTimer(t, path)
  {
    match t
    case Sleeping(_) => Completed
    case Awaiting(target, rest) =>
      var u := Fire(target, path, now);
      if u.Finished() then StartUser(rest, now) else Awaiting(u, rest)
    case WaitingAll(cs, count) =>
      var u := Fire(cs[path[0]], path[1..], now);
      var ds := cs[path[0] := u];
      if u.Finished() && count > 0 then Settle(ds, count - 1) else WaitingAll(ds, count)
    case WaitingAny(cs) =>
      var u := Fire(cs[path[0]], path[1..], now);
      var ds := cs[path[0] := u];
      if u.Finished() then CompletedAny(CancelAll(ds), FirstFinished(ds)) else WaitingAny(ds)
  }
}
