/** Structured concurrency: what holds of every node of a task tree, also after its end. */
module TaskStructure {
  import opened Tasks
  import opened TaskTiming
  import opened TaskRuns

  /**
   A waiting `all_of` counts exactly its unfinished children; a finished one has only
   finished children. A finished `any_of` has one finished child, the one it names, and
   every other child was cancelled or never started. Nothing runs below a task that
   does not.
   */
  ghost predicate Structured(t: Task) {
    match t
    case Idle(_) => true
    case Sleeping(_) => true
    case Awaiting(target, _) => target.Running() && Structured(target)
    case WaitingAll(cs, count) =>
      count == CountRunning(cs) > 0 && forall c | c in cs :: (c.Finished() || c.Running()) && Structured(c)
    case WaitingAny(cs) => cs != [] && forall c | c in cs :: c.Running() && Structured(c)
    case Completed => true
    case CompletedAll(cs) => cs != [] && forall c | c in cs :: c.Finished() && Structured(c)
    case CompletedAny(cs, who) =>
      && who < |cs| && cs[who].Finished()
      && (forall i | 0 <= i < |cs| && i != who :: cs[i].Canceled? || cs[i].Idle?)
      && (forall c | c in cs :: Structured(c))
    case Canceled(cs) => forall c | c in cs :: !c.Running() && Structured(c)
  }

  /** Not one task of the tree is running. */
  ghost predicate Quiet(t: Task) {
    !t.Running() &&
    match t
    case CompletedAll(cs) => forall c | c in cs :: Quiet(c)
    case CompletedAny(cs, _) => forall c | c in cs :: Quiet(c)
    case Canceled(cs) => forall c | c in cs :: Quiet(c)
    case _ => true
  }

  /** In a structured tree, when a task is over so is everything below it. */
  lemma {:induction false} OverIsQuiet(t: Task)
    requires Structured(t) && !t.Running()
    ensures Quiet(t)
    decreases t
  {
    match t {
      case CompletedAll(cs) =>
        forall c | c in cs ensures Quiet(c) { OverIsQuiet(c); }
      case CompletedAny(cs, who) =>
        forall c | c in cs ensures Quiet(c) {
          var i :| 0 <= i < |cs| && cs[i] == c;
          OverIsQuiet(c);
        }
      case Canceled(cs) =>
        forall c | c in cs ensures Quiet(c) { OverIsQuiet(c); }
      case _ =>
    }
  }

  /** Cancelling stops a running task for good, leaves the others alone, and keeps the structure. */
  lemma {:induction false} CancelStructured(t: Task)
    requires Structured(t)
    ensures Structured(Cancel(t))
    ensures if t.Running() then Cancel(t).Canceled? && Quiet(Cancel(t)) else Cancel(t) == t
    decreases t, 0, 0
  {
    match t {
      case Awaiting(target, _) =>
        CancelStructured(target);
      case WaitingAll(cs, _) =>
        CancelAllStructured(cs);
      case WaitingAny(cs) =>
        CancelAllStructured(cs);
      case _ =>
    }
    if t.Running() {
      OverIsQuiet(Cancel(t));
    }
  }

  lemma {:induction false} CancelAllStructured(cs: seq<Task>)
    requires forall c | c in cs :: Structured(c)
    ensures |CancelAll(cs)| == |cs|
    ensures forall i | 0 <= i < |cs| ::
      Structured(CancelAll(cs)[i]) && CancelAll(cs)[i] == Cancel(cs[i]) && !CancelAll(cs)[i].Running()
    decreases cs, 1, |cs|
  {
    if cs != [] {
      assert cs[0] in cs;
      CancelStructured(cs[0]);
      CancelAllStructured(cs[1..]);
      var ds := CancelAll(cs);
      assert ds[1..] == CancelAll(cs[1..]);
      forall i | 0 <= i < |cs|
        ensures Structured(ds[i]) && ds[i] == Cancel(cs[i]) && !ds[i].Running()
      {
        if i > 0 {
          assert ds[i] == ds[1..][i - 1] && cs[i] == cs[1..][i - 1];
        }
      }
    }
  }

  lemma {:induction false} StartStructured(p: Program, now: nat)
    requires p.Valid()
    ensures var t := Start(p, now); Structured(t) && (t.Finished() || t.Running())
    decreases p, 0, 0
  {
    match p {
      case Sleep(_) =>
      case User(body) => StartUserStructured(body, now);
      case AllOf(ps) =>
        StartAllStructured(ps, now);
        SettleStructured(StartAll(ps, now));
      case AnyOf(ps) =>
        StartAnyStructured(ps, now);
        var cs := StartAny(ps, now);
        if cs[|cs| - 1].Finished() {
          EarlyWinner(cs, ps[|cs|..]);
        } else {
          AnyWaits(cs);
        }
    }
  }

  /** No child ended at once. */
  lemma AnyWaits(cs: seq<Task>)
    requires cs != [] && cs[|cs| - 1].Running()
    requires forall c | c in cs :: Structured(c)
    requires forall i | 0 <= i < |cs| - 1 :: cs[i].Running()
    ensures Structured(WaitingAny(cs))
  {
    forall c | c in cs ensures c.Running() {
      var i :| 0 <= i < |cs| && cs[i] == c;
    }
  }

  lemma WinnerChild(cs: seq<Task>, rest: seq<Program>, i: nat)
    requires i < |cs| + |rest| && forall c | c in cs :: Structured(c)
    requires forall i | 0 <= i < |cs| - 1 :: cs[i].Running()
    ensures var d := (CancelAll(cs) + IdleAll(rest))[i];
      && Structured(d)
      && (i != |cs| - 1 ==> d.Canceled? || d.Idle?)
      && (i == |cs| - 1 && cs[i].Finished() ==> d == cs[i])
  {
    CancelAllStructured(cs);
    if i < |cs| {
      assert cs[i] in cs;
      CancelStructured(cs[i]);
    }
  }

  /** A child that ends at once: the ones before it are cancelled, the ones after it never start. */
  lemma EarlyWinner(cs: seq<Task>, rest: seq<Program>)
    requires cs != [] && cs[|cs| - 1].Finished()
    requires forall c | c in cs :: Structured(c)
    requires forall i | 0 <= i < |cs| - 1 :: cs[i].Running()
    ensures Structured(CompletedAny(CancelAll(cs) + IdleAll(rest), |cs| - 1))
  {
    var ds, who := CancelAll(cs) + IdleAll(rest), |cs| - 1;
    forall i | 0 <= i < |ds| ensures Structured(ds[i]) && (i != who ==> ds[i].Canceled? || ds[i].Idle?) {
      WinnerChild(cs, rest, i);
    }
    WinnerChild(cs, rest, who);
    WinnerStructured(ds, who);
  }

  lemma WinnerStructured(ds: seq<Task>, who: nat)
    requires who < |ds| && ds[who].Finished()
    requires forall i | 0 <= i < |ds| :: Structured(ds[i])
    requires forall i | 0 <= i < |ds| && i != who :: ds[i].Canceled? || ds[i].Idle?
    ensures Structured(CompletedAny(ds, who))
  {
  }

  lemma {:induction false} StartUserStructured(body: seq<Program>, now: nat)
    requires forall p | p in body :: p.Valid()
    ensures var t := StartUser(body, now); Structured(t) && (t.Finished() || t.Running())
    decreases body, 1, |body|
  {
    if body != [] {
      StartStructured(body[0], now);
      StartUserStructured(body[1..], now);
    }
  }

  lemma {:induction false} StartAllStructured(ps: seq<Program>, now: nat)
    requires forall p | p in ps :: p.Valid()
    ensures forall c | c in StartAll(ps, now) :: (c.Finished() || c.Running()) && Structured(c)
    decreases ps, 1, |ps|
  {
    if ps != [] {
      StartStructured(ps[0], now);
      StartAllStructured(ps[1..], now);
    }
  }

  /** Up to the child that ends at once, every started child runs. */
  lemma {:induction false} StartAnyStructured(ps: seq<Program>, now: nat)
    requires forall p | p in ps :: p.Valid()
    ensures var cs := StartAny(ps, now);
      && (forall c | c in cs :: (c.Finished() || c.Running()) && Structured(c))
      && (forall i | 0 <= i < |cs| - 1 :: cs[i].Running())
      && (cs != [] && !cs[|cs| - 1].Finished() ==> |cs| == |ps|)
    decreases ps, 1, |ps|
  {
    if ps != [] {
      StartStructured(ps[0], now);
      StartAnyStructured(ps[1..], now);
    }
  }

  lemma {:induction false} AllFinished(cs: seq<Task>)
    requires CountRunning(cs) == 0 && forall c | c in cs :: c.Finished() || c.Running()
    ensures forall c | c in cs :: c.Finished()
  {
    forall c | c in cs ensures c.Finished() {
      RunningCounts(cs, c);
    }
  }

  lemma SettleStructured(cs: seq<Task>)
    requires cs != [] && forall c | c in cs :: (c.Finished() || c.Running()) && Structured(c)
    ensures Structured(Settle(cs, CountRunning(cs)))
  {
    if CountRunning(cs) == 0 {
      AllFinished(cs);
    }
  }

  lemma {:induction false} FirstFinishedIs(cs: seq<Task>, i: nat)
    requires i < |cs| && cs[i].Finished()
    requires forall k | 0 <= k < |cs| && k != i :: cs[k].Running()
    ensures FirstFinished(cs) == i
  {
    if i > 0 {
      FirstFinishedIs(cs[1..], i - 1);
    }
  }

  lemma {:induction false} FireStructured(t: Task, path: seq<nat>, now: nat)
    requires Good(t) && Structured(t) && IsTimer(t, path)
    ensures var u := Fire(t, path, now); Structured(u) && (u.Finished() || u.Running())
    decreases t
  {
    match t {
      case Sleeping(_) =>
      case Awaiting(target, rest) =>
        FireStructured(target, path, now);
        StartUserStructured(rest, now);
      case WaitingAll(cs, count) =>
        var i := path[0];
        TimerRuns(cs[i], path[1..]);
        FireStructured(cs[i], path[1..], now);
        FireAllStructured(cs, i, Fire(cs[i], path[1..], now));
      case WaitingAny(cs) =>
        var i := path[0];
        FireStructured(cs[i], path[1..], now);
        FireAnyStructured(cs, i, Fire(cs[i], path[1..], now));
    }
  }

  lemma FireAllStructured(cs: seq<Task>, i: nat, u: Task)
    requires Structured(WaitingAll(cs, CountRunning(cs)))
    requires i < |cs| && cs[i].Running() && Structured(u) && (u.Finished() || u.Running())
    ensures var n, ds := CountRunning(cs), cs[i := u];
      Structured(if u.Finished() then Settle(ds, n - 1) else WaitingAll(ds, n))
  {
    var ds := cs[i := u];
    LastUpdate(cs, i, u);
    forall c | c in ds ensures (c.Finished() || c.Running()) && Structured(c) {
      if c != u {
        var k :| 0 <= k < |ds| && ds[k] == c;
        assert c == cs[k];
      }
    }
    SettleStructured(ds);
  }

  lemma FireAnyStructured(cs: seq<Task>, i: nat, u: Task)
    requires Structured(WaitingAny(cs))
    requires i < |cs| && Structured(u) && (u.Finished() || u.Running())
    ensures var ds := cs[i := u];
      Structured(if u.Finished() then CompletedAny(CancelAll(ds), FirstFinished(ds)) else WaitingAny(ds))
  {
    var ds := cs[i := u];
    assert forall k | 0 <= k < |ds| :: ds[k] == if k == i then u else cs[k];
    if u.Finished() {
      FirstFinishedIs(ds, i);
      CancelAllStructured(ds);
      forall k | 0 <= k < |ds| && k != i ensures CancelAll(ds)[k].Canceled? {
        CancelStructured(ds[k]);
      }
      WinnerStructured(CancelAll(ds), i);
    }
  }

  /**
   MAIN RESULT. In every run of a program, at every moment: the tree is structured, and
   once a task is over nothing below it is still running.
   */
  lemma AlwaysStructured(p: Program, now: nat, choices: seq<seq<nat>>)
    requires p.Valid() && Legal(Start(p, now), choices)
    ensures var t := After(Start(p, now), choices);
      Structured(t) && (t.Finished() ==> Quiet(t))
  {
    StartStructured(p, now);
    StartOnTime(p, now);
    RunStructured(Start(p, now), now, Finish(p, now), choices);
    var t := After(Start(p, now), choices);
    if t.Finished() {
      OverIsQuiet(t);
    }
  }

  lemma {:induction false} RunStructured(t: Task, now: nat, end: nat, choices: seq<seq<nat>>)
    requires OnTime(t, now, end) && Structured(t) && Legal(t, choices)
    ensures Structured(After(t, choices))
    decreases |choices|
  {
    if choices != [] {
      var due := Due(t, choices[0]);
      FireOnTime(t, choices[0], due);
      FireStructured(t, choices[0], due);
      RunStructured(Fire(t, choices[0], due), due, end, choices[1..]);
    }
  }
}
