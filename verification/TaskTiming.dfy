/**
 When a tree of tasks finishes: addition along awaits, the maximum over `all_of`, the
 minimum over `any_of`, whichever of several due timers the event loop picks first.
 */
module TaskTiming {
  import opened Streams
  import opened Tasks

  function Max(a: nat, b: nat): nat { if a >= b then a else b }

  /* ---------- the denotation ---------- */

  /** The time at which `p`, started at `t`, is over. */
  function Finish(p: Program, t: nat): nat
    decreases p, 0, 0
  {
    match p
    case Sleep(timeout) => t + timeout
    case User(body) => FinishUser(body, t)
    case AllOf(ps) => FinishLast(ps, t)
    case AnyOf(ps) => FinishFirst(ps, t)
  }

  function FinishUser(body: seq<Program>, t: nat): nat
    decreases body, 1, |body|
  {
    if body == [] then t else FinishUser(body[1..], Finish(body[0], t))
  }

  function FinishLast(ps: seq<Program>, t: nat): nat
    decreases ps, 1, |ps|
  {
    if ps == [] then t else Max(Finish(ps[0], t), FinishLast(ps[1..], t))
  }

  function FinishFirst(ps: seq<Program>, t: nat): nat
    decreases ps, 1, |ps|
  {
    if ps == [] then t
    else if |ps| == 1 then Finish(ps[0], t)
    else Min(Finish(ps[0], t), FinishFirst(ps[1..], t))
  }

  /* ---------- the invariant ---------- */

  /**
   What holds of a running task: `all_of` counts exactly its unfinished children, and
   has some; no child of a waiting `any_of` has finished; nobody waits for a task that
   does not run.
   */
  ghost predicate Good(t: Task) {
    match t
    case Sleeping(_) => true
    case Awaiting(target, rest) => target.Running() && Good(target) && forall p | p in rest :: p.Valid()
    case WaitingAll(cs, count) =>
      count == CountRunning(cs) > 0 && forall c | c in cs :: c.Finished() || (c.Running() && Good(c))
    case WaitingAny(cs) => cs != [] && forall c | c in cs :: c.Running() && Good(c)
    case _ => false
  }

  /** No timer of `t` is due before `d`. */
  ghost predicate NotBefore(t: Task, d: nat) {
    match t
    case Sleeping(due) => d <= due
    case Awaiting(target, _) => NotBefore(target, d)
    case WaitingAll(cs, _) => forall c | c in cs :: NotBefore(c, d)
    case WaitingAny(cs) => forall c | c in cs :: NotBefore(c, d)
    case _ => true
  }

  /** The time at which a running task will be over. */
  ghost function Residual(t: Task): nat
    decreases t, 0, 0
  {
    match t
    case Sleeping(due) => due
    case Awaiting(target, rest) => FinishUser(rest, Residual(target))
    case WaitingAll(cs, _) => ResidualLast(cs)
    case WaitingAny(cs) => ResidualFirst(cs)
    case _ => 0
  }

  ghost function ResidualLast(cs: seq<Task>): nat
    decreases cs, 1, |cs|
  {
    if cs == [] then 0
    else Max(if cs[0].Running() then Residual(cs[0]) else 0, ResidualLast(cs[1..]))
  }

  ghost function ResidualFirst(cs: seq<Task>): nat
    decreases cs, 1, |cs|
  {
    if cs == [] then 0
    else if |cs| == 1 then Residual(cs[0])
    else Min(Residual(cs[0]), ResidualFirst(cs[1..]))
  }

  /** A task just started or woken at `now`: over by then, or on its way to end at `end`. */
  ghost predicate OnTime(t: Task, now: nat, end: nat) {
    && (t.Finished() || t.Running())
    && now <= end
    && (t.Finished() ==> end == now)
    && (t.Running() ==> Good(t) && Residual(t) == end && NotBefore(t, now))
  }

  /* ---------- starting ---------- */

  lemma {:induction false} FinishLater(p: Program, t: nat)
    ensures t <= Finish(p, t)
    decreases p, 0, 0
  {
    match p {
      case Sleep(_) =>
      case User(body) => FinishUserLater(body, t);
      case AllOf(ps) => FinishLastLater(ps, t);
      case AnyOf(ps) => FinishFirstLater(ps, t);
    }
  }

  lemma {:induction false} FinishUserLater(body: seq<Program>, t: nat)
    ensures t <= FinishUser(body, t)
    decreases body, 1, |body|
  {
    if body != [] {
      FinishLater(body[0], t);
      FinishUserLater(body[1..], Finish(body[0], t));
    }
  }

  lemma {:induction false} FinishLastLater(ps: seq<Program>, t: nat)
    ensures t <= FinishLast(ps, t)
    decreases ps, 1, |ps|
  {
    if ps != [] {
      FinishLastLater(ps[1..], t);
    }
  }

  lemma {:induction false} FinishFirstLater(ps: seq<Program>, t: nat)
    ensures t <= FinishFirst(ps, t)
    decreases ps, 1, |ps|
  {
    if ps != [] {
      FinishLater(ps[0], t);
      FinishFirstLater(ps[1..], t);
    }
  }

  lemma {:induction false} StartOnTime(p: Program, now: nat)
    requires p.Valid()
    ensures OnTime(Start(p, now), now, Finish(p, now))
    decreases p, 0, 0
  {
    match p {
      case Sleep(_) =>
      case User(body) => StartUserOnTime(body, now);
      case AllOf(ps) =>
        StartAllOnTime(ps, now);
        FinishLastLater(ps, now);
      case AnyOf(ps) =>
        StartAnyOnTime(ps, now);
        FinishFirstLater(ps, now);
    }
  }

  lemma {:induction false} StartUserOnTime(body: seq<Program>, now: nat)
    requires forall p | p in body :: p.Valid()
    ensures OnTime(StartUser(body, now), now, FinishUser(body, now))
    decreases body, 1, |body|
  {
    if body != [] {
      StartOnTime(body[0], now);
      FinishLater(body[0], now);
      FinishUserLater(body[1..], Finish(body[0], now));
      if Start(body[0], now).Finished() {
        StartUserOnTime(body[1..], now);
      }
    }
  }

  /** The children of a starting `all_of`: as long as one runs, the last one sets the end. */
  lemma {:induction false} StartAllOnTime(ps: seq<Program>, now: nat)
    requires forall p | p in ps :: p.Valid()
    ensures var cs := StartAll(ps, now);
      && (forall c | c in cs :: (c.Finished() || (c.Running() && Good(c))) && NotBefore(c, now))
      && (CountRunning(cs) == 0 ==> FinishLast(ps, now) == now)
      && (CountRunning(cs) > 0 ==> ResidualLast(cs) == FinishLast(ps, now))
    decreases ps, 1, |ps|
  {
    if ps != [] {
      var t, cs := Start(ps[0], now), StartAll(ps[1..], now);
      StartOnTime(ps[0], now);
      StartAllOnTime(ps[1..], now);
      FinishLastLater(ps[1..], now);
      assert StartAll(ps, now)[1..] == cs;
      if CountRunning(cs) == 0 {
        NoneRunning(cs);
      }
    }
  }

  lemma {:induction false} NoneRunning(cs: seq<Task>)
    requires CountRunning(cs) == 0
    ensures ResidualLast(cs) == 0
  {
    if cs != [] {
      NoneRunning(cs[1..]);
    }
  }

  /** The children of a starting `any_of`: one is over at once, or the first one sets the end. */
  lemma {:induction false} StartAnyOnTime(ps: seq<Program>, now: nat)
    requires ps != [] && forall p | p in ps :: p.Valid()
    ensures FirstOnTime(StartAny(ps, now), now, FinishFirst(ps, now))
    decreases ps, 1, |ps|
  {
    var t := Start(ps[0], now);
    StartOnTime(ps[0], now);
    FinishFirstLater(ps[1..], now);
    if !t.Finished() && |ps| > 1 {
      var cs := StartAny(ps[1..], now);
      StartAnyOnTime(ps[1..], now);
      assert StartAny(ps, now) == [t] + cs;
      OneMore(t, cs, now, FinishFirst(ps[1..], now));
    }
  }

  /** The started children of an `any_of` that ends at `end`. */
  ghost predicate FirstOnTime(cs: seq<Task>, now: nat, end: nat) {
    cs != [] &&
    if cs[|cs| - 1].Finished()
    then end == now && forall i | 0 <= i < |cs| - 1 :: cs[i].Running()
    else (forall c | c in cs :: c.Running() && Good(c) && NotBefore(c, now)) && ResidualFirst(cs) == end
  }

  /** A running child before the others. */
  lemma OneMore(t: Task, cs: seq<Task>, now: nat, end: nat)
    requires t.Running() && Good(t) && NotBefore(t, now) && now <= Residual(t) && FirstOnTime(cs, now, end)
    ensures FirstOnTime([t] + cs, now, Min(Residual(t), end))
  {
    assert ([t] + cs)[1..] == cs;
  }

  /* ---------- firing ---------- */

  /** A running task ends no earlier than its first timer. */
  lemma {:induction false} ResidualNotBefore(t: Task, d: nat)
    requires t.Running() && Good(t) && NotBefore(t, d)
    ensures d <= Residual(t)
    decreases t, 0, 0
  {
    match t {
      case Sleeping(_) =>
      case Awaiting(target, rest) =>
        ResidualNotBefore(target, d);
        FinishUserLater(rest, Residual(target));
      case WaitingAll(cs, _) =>
        LastNotBefore(cs, d);
      case WaitingAny(cs) =>
        FirstNotBefore(cs, d);
    }
  }

  lemma {:induction false} LastNotBefore(cs: seq<Task>, d: nat)
    requires CountRunning(cs) > 0
    requires forall c | c in cs :: c.Running() ==> Good(c) && NotBefore(c, d)
    ensures d <= ResidualLast(cs)
    decreases cs, 1, |cs|
  {
    if cs[0].Running() {
      ResidualNotBefore(cs[0], d);
    } else {
      LastNotBefore(cs[1..], d);
    }
  }

  lemma {:induction false} FirstNotBefore(cs: seq<Task>, d: nat)
    requires cs != [] && forall c | c in cs :: c.Running() && Good(c) && NotBefore(c, d)
    ensures d <= ResidualFirst(cs)
    decreases cs, 1, |cs|
  {
    ResidualNotBefore(cs[0], d);
    if |cs| > 1 {
      FirstNotBefore(cs[1..], d);
    }
  }

  /** Replacing a running child by what it became. */
  lemma {:induction false} LastUpdate(cs: seq<Task>, i: nat, u: Task)
    requires i < |cs| && cs[i].Running()
    ensures CountRunning(cs[i := u]) == CountRunning(cs) - if u.Running() then 0 else 1
    ensures u.Running() && Residual(u) == Residual(cs[i]) ==> ResidualLast(cs[i := u]) == ResidualLast(cs)
    ensures !u.Running() ==> ResidualLast(cs) == Max(ResidualLast(cs[i := u]), Residual(cs[i]))
  {
    if i == 0 {
      assert cs[i := u][1..] == cs[1..];
    } else {
      LastUpdate(cs[1..], i - 1, u);
      assert cs[i := u][1..] == cs[1..][i - 1 := u];
    }
  }

  lemma {:induction false} FirstUpdate(cs: seq<Task>, i: nat, u: Task)
    requires i < |cs| && Residual(u) == Residual(cs[i])
    ensures ResidualFirst(cs[i := u]) == ResidualFirst(cs)
  {
    if i == 0 {
      assert cs[i := u][1..] == cs[1..];
    } else {
      FirstUpdate(cs[1..], i - 1, u);
      assert cs[i := u][1..] == cs[1..][i - 1 := u];
    }
  }

  /** A child that ends first of all ends its `any_of`. */
  lemma {:induction false} FirstIs(cs: seq<Task>, i: nat, d: nat)
    requires i < |cs| && Residual(cs[i]) == d
    requires forall c | c in cs :: c.Running() && Good(c) && NotBefore(c, d)
    ensures ResidualFirst(cs) == d
  {
    FirstNotBefore(cs, d);
    if |cs| > 1 {
      if i == 0 {
        FirstNotBefore(cs[1..], d);
      } else {
        FirstIs(cs[1..], i - 1, d);
        ResidualNotBefore(cs[0], d);
      }
    }
  }

  /** Firing one of the timers that are due first changes nobody's end. */
  lemma {:induction false} FireOnTime(t: Task, path: seq<nat>, now: nat)
    requires t.Running() && Good(t) && IsTimer(t, path) && Due(t, path) == now && NotBefore(t, now)
    ensures OnTime(Fire(t, path, now), now, Residual(t))
    decreases t
  {
    ResidualNotBefore(t, now);
    match t {
      case Sleeping(_) =>
      case Awaiting(target, rest) =>
        FireOnTime(target, path, now);
        if Fire(target, path, now).Finished() {
          StartUserOnTime(rest, now);
        }
      case WaitingAll(cs, count) =>
        var i := path[0];
        TimerRuns(cs[i], path[1..]);
        FireOnTime(cs[i], path[1..], now);
        FireAllOnTime(cs, i, Fire(cs[i], path[1..], now), now);
      case WaitingAny(cs) =>
        var i := path[0];
        FireOnTime(cs[i], path[1..], now);
        FireAnyOnTime(cs, i, Fire(cs[i], path[1..], now), now);
    }
  }

  lemma TimerRuns(t: Task, path: seq<nat>)
    requires IsTimer(t, path)
    ensures t.Running()
  {
  }

  lemma FireAllOnTime(cs: seq<Task>, i: nat, u: Task, now: nat)
    requires var t := WaitingAll(cs, CountRunning(cs)); Good(t) && NotBefore(t, now)
    requires i < |cs| && cs[i].Running() && OnTime(u, now, Residual(cs[i]))
    ensures var n, ds := CountRunning(cs), cs[i := u];
      OnTime(if u.Finished() then Settle(ds, n - 1) else WaitingAll(ds, n), now, ResidualLast(cs))
  {
    var ds := cs[i := u];
    LastUpdate(cs, i, u);
    LastNotBefore(cs, now);
    forall c | c in ds ensures (c.Finished() || (c.Running() && Good(c))) && NotBefore(c, now) {
      if c != u {
        var k :| 0 <= k < |ds| && ds[k] == c;
        assert c == cs[k];
      }
    }
    if u.Finished() {
      if CountRunning(ds) == 0 {
        NoneRunning(ds);
      } else {
        LastNotBefore(ds, now);
      }
    }
  }

  lemma FireAnyOnTime(cs: seq<Task>, i: nat, u: Task, now: nat)
    requires Good(WaitingAny(cs)) && NotBefore(WaitingAny(cs), now)
    requires i < |cs| && OnTime(u, now, Residual(cs[i]))
    ensures var ds := cs[i := u];
      OnTime(
        if u.Finished() then CompletedAny(CancelAll(ds), FirstFinished(ds)) else WaitingAny(ds),
        now, ResidualFirst(cs))
  {
    var ds := cs[i := u];
    FirstNotBefore(cs, now);
    if u.Finished() {
      FirstIs(cs, i, now);
    } else {
      FirstUpdate(cs, i, u);
      forall c | c in ds ensures c.Running() && Good(c) && NotBefore(c, now) {
        if c != u {
          var k :| 0 <= k < |ds| && ds[k] == c;
          assert c == cs[k];
        }
      }
    }
  }
}
