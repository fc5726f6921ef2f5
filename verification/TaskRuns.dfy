/** Statements over every run of a tree of tasks, for every choice among due timers. */
module TaskRuns {
  import opened Tasks
  import opened TaskTiming

  /** The timers fired so far, each one due first when it was picked. */
  ghost predicate Legal(t: Task, choices: seq<seq<nat>>)
    decreases |choices|
  {
    choices == [] ||
    (Next(t, choices[0]) && Legal(Fire(t, choices[0], Due(t, choices[0])), choices[1..]))
  }

  /** `path` is one of the timers of a running task that the loop may fire next. */
  ghost predicate Next(t: Task, path: seq<nat>) {
    t.Running() && IsTimer(t, path) && NotBefore(t, Due(t, path))
  }

  ghost function After(t: Task, choices: seq<seq<nat>>): Task
    requires Legal(t, choices)
    decreases |choices|
  {
    if choices == [] then t else After(Fire(t, choices[0], Due(t, choices[0])), choices[1..])
  }

  /** The clock after a run: it stands where the last timer was due. */
  ghost function Clock(t: Task, now: nat, choices: seq<seq<nat>>): nat
    requires Legal(t, choices)
    decreases |choices|
  {
    if choices == [] then now
    else Clock(Fire(t, choices[0], Due(t, choices[0])), Due(t, choices[0]), choices[1..])
  }

  lemma {:induction false} RunOnTime(t: Task, now: nat, end: nat, choices: seq<seq<nat>>)
    requires OnTime(t, now, end) && Legal(t, choices)
    ensures OnTime(After(t, choices), Clock(t, now, choices), end)
    decreases |choices|
  {
    if choices != [] {
      var due := Due(t, choices[0]);
      FireOnTime(t, choices[0], due);
      RunOnTime(Fire(t, choices[0], due), due, end, choices[1..]);
    }
  }

  /* ---------- progress ---------- */

  /** The number of sleeps a task may still have to make. */
  ghost function Sleeps(p: Program): nat
    decreases p, 0, 0
  {
    match p
    case Sleep(_) => 1
    case User(body) => SleepsAll(body)
    case AllOf(ps) => SleepsAll(ps)
    case AnyOf(ps) => SleepsAll(ps)
  }

  ghost function SleepsAll(ps: seq<Program>): nat
    decreases ps, 1, |ps|
  {
    if ps == [] then 0 else Sleeps(ps[0]) + SleepsAll(ps[1..])
  }

  ghost function Work(t: Task): nat
    decreases t, 0, 0
  {
    match t
    case Sleeping(_) => 1
    case Awaiting(target, rest) => Work(target) + SleepsAll(rest)
    case WaitingAll(cs, _) => WorkAll(cs)
    case WaitingAny(cs) => WorkAll(cs)
    case _ => 0
  }

  ghost function WorkAll(cs: seq<Task>): nat
    decreases cs, 1, |cs|
  {
    if cs == [] then 0 else Work(cs[0]) + WorkAll(cs[1..])
  }

  lemma {:induction false} StartWork(p: Program, now: nat)
    ensures Work(Start(p, now)) <= Sleeps(p)
    decreases p, 0, 0
  {
    match p {
      case Sleep(_) =>
      case User(body) => StartUserWork(body, now);
      case AllOf(ps) => StartAllWork(ps, now);
      case AnyOf(ps) => StartAnyWork(ps, now);
    }
  }

  lemma {:induction false} StartUserWork(body: seq<Program>, now: nat)
    ensures Work(StartUser(body, now)) <= SleepsAll(body)
    decreases body, 1, |body|
  {
    if body != [] {
      StartWork(body[0], now);
      StartUserWork(body[1..], now);
    }
  }

  lemma {:induction false} StartAllWork(ps: seq<Program>, now: nat)
    ensures WorkAll(StartAll(ps, now)) <= SleepsAll(ps)
    decreases ps, 1, |ps|
  {
    if ps != [] {
      StartWork(ps[0], now);
      StartAllWork(ps[1..], now);
      assert StartAll(ps, now)[1..] == StartAll(ps[1..], now);
    }
  }

  lemma {:induction false} StartAnyWork(ps: seq<Program>, now: nat)
    ensures WorkAll(StartAny(ps, now)) <= SleepsAll(ps)
    decreases ps, 1, |ps|
  {
    if ps != [] {
      StartWork(ps[0], now);
      StartAnyWork(ps[1..], now);
      var t := Start(ps[0], now);
      if t.Finished() {
        assert StartAny(ps, now)[1..] == [];
      } else {
        assert StartAny(ps, now)[1..] == StartAny(ps[1..], now);
      }
    }
  }

  lemma {:induction false} WorkUpdate(cs: seq<Task>, i: nat, u: Task)
    requires i < |cs|
    ensures WorkAll(cs[i := u]) == WorkAll(cs) - Work(cs[i]) + Work(u)
  {
    if i == 0 {
      assert cs[i := u][1..] == cs[1..];
    } else {
      WorkUpdate(cs[1..], i - 1, u);
      assert cs[i := u][1..] == cs[1..][i - 1 := u];
    }
  }

  /** Every timer that fires is one sleep less. */
  lemma {:induction false} FireWork(t: Task, path: seq<nat>, now: nat)
    requires IsTimer(t, path)
    ensures Work(Fire(t, path, now)) < Work(t)
    decreases t
  {
    match t {
      case Sleeping(_) =>
      case Awaiting(target, rest) =>
        FireWork(target, path, now);
        StartUserWork(rest, now);
      case WaitingAll(cs, _) =>
        FireWork(cs[path[0]], path[1..], now);
        WorkUpdate(cs, path[0], Fire(cs[path[0]], path[1..], now));
      case WaitingAny(cs) =>
        FireWork(cs[path[0]], path[1..], now);
        WorkUpdate(cs, path[0], Fire(cs[path[0]], path[1..], now));
    }
  }

  lemma {:induction false} RunWork(t: Task, choices: seq<seq<nat>>)
    requires Legal(t, choices)
    ensures |choices| + Work(After(t, choices)) <= Work(t)
    decreases |choices|
  {
    if choices != [] {
      var due := Due(t, choices[0]);
      FireWork(t, choices[0], due);
      RunWork(Fire(t, choices[0], due), choices[1..]);
    }
  }

  /** A running task is waiting for a timer, and one of them is due first. */
  lemma {:induction false} SomeTimer(t: Task) returns (path: seq<nat>)
    requires t.Running() && Good(t)
    ensures Next(t, path)
    decreases t, 0, 0
  {
    match t {
      case Sleeping(_) => path := [];
      case Awaiting(target, _) => path := SomeTimer(target);
      case WaitingAll(cs, _) =>
        var i, p := SomeChildTimer(cs);
        path := [i] + p;
      case WaitingAny(cs) =>
        assert CountRunning(cs) > 0 by { assert cs[0] in cs; }
        var i, p := SomeChildTimer(cs);
        path := [i] + p;
    }
  }

  lemma {:induction false} SomeChildTimer(cs: seq<Task>) returns (i: nat, path: seq<nat>)
    requires CountRunning(cs) > 0
    requires forall c | c in cs :: c.Finished() || (c.Running() && Good(c))
    ensures i < |cs| && IsTimer(cs[i], path)
    ensures forall c | c in cs :: NotBefore(c, Due(cs[i], path))
    decreases cs, 1, |cs|
  {
    var rest := cs[1..];
    if CountRunning(rest) > 0 {
      var k, p := SomeChildTimer(rest);
      i, path := k + 1, p;
      if cs[0].Running() {
        assert cs[0] in cs;
        var q := SomeTimer(cs[0]);
        if Due(cs[0], q) <= Due(cs[i], path) {
          forall c | c in rest ensures NotBefore(c, Due(cs[0], q)) {
            Earlier(c, Due(cs[i], path), Due(cs[0], q));
          }
          i, path := 0, q;
        } else {
          Earlier(cs[0], Due(cs[0], q), Due(cs[i], path));
        }
      }
    } else {
      assert cs[0] in cs;
      i := 0;
      path := SomeTimer(cs[0]);
      forall c | c in rest ensures NotBefore(c, Due(cs[0], path)) {
        assert c in cs;
        RunningCounts(rest, c);
      }
    }
  }

  lemma {:induction false} RunningCounts(cs: seq<Task>, c: Task)
    requires c in cs && CountRunning(cs) == 0
    ensures !c.Running()
  {
    if c != cs[0] {
      assert c in cs[1..];
      RunningCounts(cs[1..], c);
    }
  }

  lemma {:induction false} Earlier(t: Task, d: nat, e: nat)
    requires NotBefore(t, d) && e <= d
    ensures NotBefore(t, e)
    decreases t
  {
    match t {
      case Awaiting(target, _) => Earlier(target, d, e);
      case WaitingAll(cs, _) => forall c | c in cs ensures NotBefore(c, e) { Earlier(c, d, e); }
      case WaitingAny(cs) => forall c | c in cs ensures NotBefore(c, e) { Earlier(c, d, e); }
      case _ =>
    }
  }

  /**
   MAIN RESULT. However the event loop breaks ties among due timers, a program started at
   `now` makes no more steps than it has sleeps, always has a next step until it is over,
   and is over exactly at `Finish(p, now)`.
   */
  lemma FinishesOnTime(p: Program, now: nat, choices: seq<seq<nat>>)
    requires p.Valid() && Legal(Start(p, now), choices)
    ensures |choices| <= Sleeps(p)
    ensures var t, clock := After(Start(p, now), choices), Clock(Start(p, now), now, choices);
      && (t.Running() <==> exists path :: Next(t, path))
      && (t.Running() <==> !t.Finished())
      && now <= clock <= Finish(p, now)
      && (t.Finished() ==> clock == Finish(p, now))
  {
    var s := Start(p, now);
    StartOnTime(p, now);
    RunOnTime(s, now, Finish(p, now), choices);
    StartWork(p, now);
    RunWork(s, choices);
    ClockForward(s, now, Finish(p, now), choices);
    if After(s, choices).Running() {
      var path := SomeTimer(After(s, choices));
    }
  }

  lemma {:induction false} ClockForward(t: Task, now: nat, end: nat, choices: seq<seq<nat>>)
    requires OnTime(t, now, end) && Legal(t, choices)
    ensures now <= Clock(t, now, choices)
    decreases |choices|
  {
    if choices != [] {
      var due := Due(t, choices[0]);
      DueNotBefore(t, choices[0], now);
      FireOnTime(t, choices[0], due);
      ClockForward(Fire(t, choices[0], due), due, end, choices[1..]);
    }
  }

  /** `NotBefore` says of every timer that it is not due before `d`, and nothing else. */
  lemma NotBeforeMeaning(t: Task, d: nat)
    ensures NotBefore(t, d) <==> forall path | IsTimer(t, path) :: d <= Due(t, path)
  {
    if NotBefore(t, d) {
      forall path | IsTimer(t, path) ensures d <= Due(t, path) {
        DueNotBefore(t, path, d);
      }
    } else {
      var path := EarlyTimer(t, d);
    }
  }

  lemma {:induction false} EarlyTimer(t: Task, d: nat) returns (path: seq<nat>)
    requires !NotBefore(t, d)
    ensures IsTimer(t, path) && Due(t, path) < d
    decreases t
  {
    match t {
      case Sleeping(_) => path := [];
      case Awaiting(target, _) => path := EarlyTimer(target, d);
      case WaitingAll(cs, _) =>
        var i :| 0 <= i < |cs| && !NotBefore(cs[i], d);
        path := EarlyTimer(cs[i], d);
        path := [i] + path;
      case WaitingAny(cs) =>
        var i :| 0 <= i < |cs| && !NotBefore(cs[i], d);
        path := EarlyTimer(cs[i], d);
        path := [i] + path;
    }
  }

  lemma {:induction false} DueNotBefore(t: Task, path: seq<nat>, d: nat)
    requires IsTimer(t, path) && NotBefore(t, d)
    ensures d <= Due(t, path)
    decreases t
  {
    match t {
      case Sleeping(_) =>
      case Awaiting(target, _) => DueNotBefore(target, path, d);
      case WaitingAll(cs, _) => DueNotBefore(cs[path[0]], path[1..], d);
      case WaitingAny(cs) => DueNotBefore(cs[path[0]], path[1..], d);
    }
  }
}
