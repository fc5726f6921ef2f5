/**
 Which task is which: every task of a tree is at the place of the program it was made from,
 and an `any_of` that is over names the child whose program ends first.
 */
module TaskTracks {
  import opened Tasks
  import opened TaskTiming
  import opened TaskRuns
  import opened TaskStructure

  /** A child that is awaited by a user task, when `rest` is still to come. */
  ghost predicate Awaits(body: seq<Program>, rest: seq<Program>, k: nat) {
    k < |body| && rest == body[k + 1..]
  }

  /** When the `k`-th await of a user task begins. */
  function Begins(body: seq<Program>, k: nat, from: nat): nat
    requires k <= |body|
  {
    FinishUser(body[..k], from)
  }

  /**
   `t` is what has become of `p`, started at `from`, when the clock stands at `now`: the same
   child of the same program is at the same place, a timer is due when its sleep ends, what is
   over has had its time, and a winner is a child that ends when the whole ends.
   */
  ghost predicate Tracks(t: Task, p: Program, from: nat, now: nat)
    decreases t
  {
    match t
    case Idle(q) => q == p
    case Sleeping(due) => p.Sleep? && due == Finish(p, from)
    case Awaiting(target, rest) =>
      p.User? && exists k: nat :: Awaits(p.body, rest, k) && Tracks(target, p.body[k], Begins(p.body, k, from), now)
    case WaitingAll(cs, _) => p.AllOf? && from <= now && Each(cs, p.parts, from, now)
    case WaitingAny(cs) => p.AnyOf? && Each(cs, p.parts, from, now)
    case Completed => (p.Sleep? || p.User?) && Finish(p, from) <= now
    case CompletedAll(cs) => p.AllOf? && Each(cs, p.parts, from, now) && Finish(p, from) <= now
    case CompletedAny(cs, who) =>
      && p.AnyOf? && Each(cs, p.parts, from, now) && Finish(p, from) <= now
      && who < |cs| && Finish(p.parts[who], from) == Finish(p, from)
    case Canceled(cs) =>
      match p
      case Sleep(_) => cs == []
      case User(body) => exists k: nat :: StoppedAt(cs, body, k) && Tracks(cs[0], body[k], Begins(body, k, from), now)
      case AllOf(ps) => Each(cs, ps, from, now)
      case AnyOf(ps) => Each(cs, ps, from, now)
  }

  /** A canceled user task was at its `k`-th await. */
  ghost predicate StoppedAt(cs: seq<Task>, body: seq<Program>, k: nat) { |cs| == 1 && k < |body| }

  ghost predicate Each(cs: seq<Task>, ps: seq<Program>, from: nat, now: nat)
    decreases cs
  {
    |cs| == |ps| && forall i | 0 <= i < |cs| :: Tracks(cs[i], ps[i], from, now)
  }

  lemma {:induction false} TracksLater(t: Task, p: Program, from: nat, now: nat, later: nat)
    requires Tracks(t, p, from, now) && now <= later
    ensures Tracks(t, p, from, later)
    decreases t, 0
  {
    match t {
      case Awaiting(target, rest) =>
        var k: nat :| Awaits(p.body, rest, k) && Tracks(target, p.body[k], Begins(p.body, k, from), now);
        TracksLater(target, p.body[k], Begins(p.body, k, from), now, later);
      case WaitingAll(cs, _) => EachLater(cs, p.parts, from, now, later);
      case WaitingAny(cs) => EachLater(cs, p.parts, from, now, later);
      case CompletedAll(cs) => EachLater(cs, p.parts, from, now, later);
      case CompletedAny(cs, _) => EachLater(cs, p.parts, from, now, later);
      case Canceled(cs) =>
        match p {
          case Sleep(_) =>
          case User(body) =>
            var k: nat :| StoppedAt(cs, body, k) && Tracks(cs[0], body[k], Begins(body, k, from), now);
            TracksLater(cs[0], body[k], Begins(body, k, from), now, later);
          case AllOf(ps) => EachLater(cs, ps, from, now, later);
          case AnyOf(ps) => EachLater(cs, ps, from, now, later);
        }
      case _ =>
    }
  }

  lemma {:induction false} EachLater(cs: seq<Task>, ps: seq<Program>, from: nat, now: nat, later: nat)
    requires Each(cs, ps, from, now) && now <= later
    ensures Each(cs, ps, from, later)
    decreases cs, 1
  {
    forall i | 0 <= i < |cs| ensures Tracks(cs[i], ps[i], from, later) {
      TracksLater(cs[i], ps[i], from, now, later);
    }
  }

  /* ---------- cancelling ---------- */

  lemma {:induction false} CancelTracks(t: Task, p: Program, from: nat, now: nat)
    requires Tracks(t, p, from, now)
    ensures Tracks(Cancel(t), p, from, now)
    decreases t, 0, 0
  {
    match t {
      case Awaiting(target, rest) =>
        var k: nat :| Awaits(p.body, rest, k) && Tracks(target, p.body[k], Begins(p.body, k, from), now);
        CancelTracks(target, p.body[k], Begins(p.body, k, from), now);
        assert StoppedAt([Cancel(target)], p.body, k);
      case WaitingAll(cs, _) => CancelEach(cs, p.parts, from, now);
      case WaitingAny(cs) => CancelEach(cs, p.parts, from, now);
      case _ =>
    }
  }

  lemma {:induction false} CancelEach(cs: seq<Task>, ps: seq<Program>, from: nat, now: nat)
    requires Each(cs, ps, from, now)
    ensures Each(CancelAll(cs), ps, from, now)
    decreases cs, 1, |cs|
  {
    CancelAllAt(cs);
    forall i | 0 <= i < |cs| ensures Tracks(CancelAll(cs)[i], ps[i], from, now) {
      CancelTracks(cs[i], ps[i], from, now);
    }
  }

  lemma {:induction false} CancelAllAt(cs: seq<Task>)
    ensures forall i | 0 <= i < |cs| :: CancelAll(cs)[i] == Cancel(cs[i])
  {
    if cs != [] {
      CancelAllAt(cs[1..]);
    }
  }

  /* ---------- starting ---------- */

  lemma {:induction false} FinishSplits(body: seq<Program>, k: nat, from: nat)
    requires k <= |body|
    ensures FinishUser(body, from) == FinishUser(body[k..], Begins(body, k, from))
    decreases k
  {
    if k == 0 {
      assert body[..0] == [] && body[0..] == body;
    } else {
      FinishSplits(body[1..], k - 1, Finish(body[0], from));
      assert body[..k][1..] == body[1..][..k - 1] && body[1..][k - 1..] == body[k..];
    }
  }

  lemma BeginsNext(body: seq<Program>, k: nat, from: nat)
    requires k < |body|
    ensures Begins(body, k + 1, from) == Finish(body[k], Begins(body, k, from))
  {
    FinishSplits(body[..k + 1], k, from);
    assert body[..k + 1][..k] == body[..k] && body[..k + 1][k..] == [body[k]];
    assert FinishUser([], Finish(body[k], Begins(body, k, from))) == Finish(body[k], Begins(body, k, from));
  }

  lemma BodyParts(body: seq<Program>, k: nat)
    requires k < |body|
    ensures body[k..] != [] && body[k..][0] == body[k] && body[k..][1..] == body[k + 1..] && body[k] in body
  {
  }

  lemma {:induction false} StartTracks(p: Program, now: nat)
    requires p.Valid()
    ensures Tracks(Start(p, now), p, now, now)
    decreases p, 0, 0
  {
    StartOnTime(p, now);
    match p {
      case Sleep(_) =>
      case User(body) =>
        assert body[0..] == body && body[..0] == [];
        UserTracks(body, body, 0, now, now);
      case AllOf(ps) => StartAllTracks(ps, now);
      case AnyOf(ps) =>
        var cs := StartAny(ps, now);
        StartAnyTracks(ps, now);
        StartAnyStructured(ps, now);
        if cs[|cs| - 1].Finished() {
          WinnerAtOnce(ps, cs, now);
        }
    }
  }

  /** The awaits of a user task from the `k`-th one on. */
  lemma {:induction false} UserTracks(body: seq<Program>, rest: seq<Program>, k: nat, from: nat, now: nat)
    requires forall p | p in body :: p.Valid()
    requires k <= |body| && rest == body[k..] && now == Begins(body, k, from)
    ensures Tracks(StartUser(rest, now), User(body), from, now)
    decreases rest, 1, |rest|
  {
    if rest == [] {
      assert body[..k] == body;
    } else {
      BodyParts(body, k);
      StartTracks(rest[0], now);
      StartOnTime(rest[0], now);
      BeginsNext(body, k, from);
      if Start(rest[0], now).Finished() {
        UserTracks(body, rest[1..], k + 1, from, now);
      } else {
        assert Awaits(body, rest[1..], k);
      }
    }
  }

  lemma {:induction false} StartAllTracks(ps: seq<Program>, now: nat)
    requires forall p | p in ps :: p.Valid()
    ensures Each(StartAll(ps, now), ps, now, now)
    decreases ps, 1, |ps|
  {
    if ps != [] {
      var cs := StartAll(ps, now);
      StartTracks(ps[0], now);
      StartAllTracks(ps[1..], now);
      forall i | 0 <= i < |cs| ensures Tracks(cs[i], ps[i], now, now) {
        assert i > 0 ==> cs[i] == cs[1..][i - 1] && ps[i] == ps[1..][i - 1];
      }
    }
  }

  lemma {:induction false} StartAnyTracks(ps: seq<Program>, now: nat)
    requires forall p | p in ps :: p.Valid()
    ensures var cs := StartAny(ps, now);
      forall i | 0 <= i < |cs| :: cs[i] == Start(ps[i], now) && Tracks(cs[i], ps[i], now, now)
    decreases ps, 1, |ps|
  {
    if ps != [] {
      var cs := StartAny(ps, now);
      StartTracks(ps[0], now);
      if !Start(ps[0], now).Finished() {
        StartAnyTracks(ps[1..], now);
        forall i | 0 <= i < |cs| ensures cs[i] == Start(ps[i], now) && Tracks(cs[i], ps[i], now, now) {
          assert i > 0 ==> cs[i] == StartAny(ps[1..], now)[i - 1] && ps[i] == ps[1..][i - 1];
        }
      }
    }
  }

  /** Canceled children, then those that never start. */
  lemma StoppedTracks(ps: seq<Program>, cs: seq<Task>, now: nat)
    requires |cs| <= |ps| && Each(cs, ps[..|cs|], now, now)
    ensures Each(CancelAll(cs) + IdleAll(ps[|cs|..]), ps, now, now)
  {
    var ds := CancelAll(cs) + IdleAll(ps[|cs|..]);
    CancelEach(cs, ps[..|cs|], now, now);
    forall i | 0 <= i < |ds| ensures Tracks(ds[i], ps[i], now, now) {
      assert i < |cs| ==> ds[i] == CancelAll(cs)[i] && ps[i] == ps[..|cs|][i];
    }
  }

  /** A child that ends at once wins; the ones before it are canceled, the others stay as they are. */
  lemma WinnerAtOnce(ps: seq<Program>, cs: seq<Task>, now: nat)
    requires AnyOf(ps).Valid() && cs == StartAny(ps, now) && cs[|cs| - 1].Finished()
    requires forall i | 0 <= i < |cs| :: cs[i] == Start(ps[i], now) && Tracks(cs[i], ps[i], now, now)
    ensures Tracks(CompletedAny(CancelAll(cs) + IdleAll(ps[|cs|..]), |cs| - 1), AnyOf(ps), now, now)
  {
    StoppedTracks(ps, cs, now);
    StartOnTime(ps[|cs| - 1], now);
    StartOnTime(AnyOf(ps), now);
  }

  /* ---------- when a running task ends ---------- */

  /** A running task that tracks a program ends when the program does. */
  lemma {:induction false} TracksEnd(t: Task, p: Program, from: nat, now: nat)
    requires t.Running() && Good(t) && Tracks(t, p, from, now) && NotBefore(t, now)
    ensures Residual(t) == Finish(p, from)
    decreases t, 0, 0
  {
    match t {
      case Sleeping(_) =>
      case Awaiting(target, rest) =>
        var k: nat :| Awaits(p.body, rest, k) && Tracks(target, p.body[k], Begins(p.body, k, from), now);
        TracksEnd(target, p.body[k], Begins(p.body, k, from), now);
        BeginsNext(p.body, k, from);
        FinishSplits(p.body, k + 1, from);
      case WaitingAll(cs, _) =>
        LastTracks(cs, p.parts, from, now);
        LastNotBefore(cs, now);
        RunningIsLater(cs, p.parts, from, now);
      case WaitingAny(cs) =>
        FirstTracks(cs, p.parts, from, now);
    }
  }

  lemma {:induction false} LastTracks(cs: seq<Task>, ps: seq<Program>, from: nat, now: nat)
    requires from <= now && Each(cs, ps, from, now)
    requires forall c | c in cs :: c.Finished() || (c.Running() && Good(c) && NotBefore(c, now))
    ensures Max(FinishLast(ps, from), now) == Max(ResidualLast(cs), now)
    decreases cs, 1, |cs|
  {
    if cs != [] {
      EachRest(cs, ps, from, now);
      LastTracks(cs[1..], ps[1..], from, now);
      if cs[0].Running() {
        TracksEnd(cs[0], ps[0], from, now);
      } else {
        OverHadItsTime(cs[0], ps[0], from, now);
      }
    }
  }

  lemma OverHadItsTime(t: Task, p: Program, from: nat, now: nat)
    requires t.Finished() && Tracks(t, p, from, now)
    ensures Finish(p, from) <= now
  {
  }

  lemma EachRest(cs: seq<Task>, ps: seq<Program>, from: nat, now: nat)
    requires cs != [] && Each(cs, ps, from, now)
    ensures ps != [] && Each(cs[1..], ps[1..], from, now) && Tracks(cs[0], ps[0], from, now) && cs[0] in cs
  {
  }

  lemma {:induction false} RunningIsLater(cs: seq<Task>, ps: seq<Program>, from: nat, now: nat)
    requires CountRunning(cs) > 0 && Each(cs, ps, from, now)
    requires forall c | c in cs :: c.Finished() || (c.Running() && Good(c) && NotBefore(c, now))
    ensures now <= FinishLast(ps, from)
    decreases cs, 1, |cs|
  {
    EachRest(cs, ps, from, now);
    if cs[0].Running() {
      TracksEnd(cs[0], ps[0], from, now);
      ResidualNotBefore(cs[0], now);
    } else {
      RunningIsLater(cs[1..], ps[1..], from, now);
    }
  }

  lemma {:induction false} FirstTracks(cs: seq<Task>, ps: seq<Program>, from: nat, now: nat)
    requires cs != [] && Each(cs, ps, from, now)
    requires forall c | c in cs :: c.Running() && Good(c) && NotBefore(c, now)
    ensures ResidualFirst(cs) == FinishFirst(ps, from)
    decreases cs, 1, |cs|
  {
    EachRest(cs, ps, from, now);
    TracksEnd(cs[0], ps[0], from, now);
    if |cs| > 1 {
      FirstTracks(cs[1..], ps[1..], from, now);
    }
  }

  /* ---------- firing ---------- */

  /** A running task whose first timer is due at `now` has tracked its program up to `before`. */
  lemma {:induction false} FireTracks(t: Task, path: seq<nat>, p: Program, from: nat, before: nat, now: nat)
    requires t.Running() && Good(t) && IsTimer(t, path) && Due(t, path) == now && NotBefore(t, now)
    requires p.Valid() && Tracks(t, p, from, before) && before <= now
    ensures Tracks(Fire(t, path, now), p, from, now)
    decreases t, 0
  {
    TracksLater(t, p, from, before, now);
    match t {
      case Sleeping(_) =>
      case Awaiting(target, rest) => FireUserTracks(target, rest, path, p.body, from, now);
      case WaitingAll(cs, count) =>
        var i := path[0];
        TimerRuns(cs[i], path[1..]);
        FireTracks(cs[i], path[1..], p.parts[i], from, now, now);
        FireOnTime(t, path, now);
        TracksEnd(t, p, from, now);
      case WaitingAny(cs) =>
        var i := path[0];
        FireTracks(cs[i], path[1..], p.parts[i], from, now, now);
        FireAnyTracks(cs, path, p.parts, from, now);
    }
  }

  lemma {:induction false} FireUserTracks(target: Task, rest: seq<Program>, path: seq<nat>, body: seq<Program>,
                                          from: nat, now: nat)
    requires var t := Awaiting(target, rest);
      && Good(t) && IsTimer(t, path) && Due(t, path) == now && NotBefore(t, now)
      && Tracks(t, User(body), from, now)
    requires User(body).Valid()
    ensures Tracks(Fire(Awaiting(target, rest), path, now), User(body), from, now)
    decreases target, 1
  {
    var k: nat :| Awaits(body, rest, k) && Tracks(target, body[k], Begins(body, k, from), now);
    var u := Fire(target, path, now);
    BodyParts(body, k);
    FireTracks(target, path, body[k], Begins(body, k, from), now, now);
    if u.Finished() {
      FireOnTime(target, path, now);
      TracksEnd(target, body[k], Begins(body, k, from), now);
      BeginsNext(body, k, from);
      UserTracks(body, rest, k + 1, from, now);
    }
  }

  /** The child whose timer fired wins if it is over; every other one is canceled at its place. */
  lemma FireAnyTracks(cs: seq<Task>, path: seq<nat>, ps: seq<Program>, from: nat, now: nat)
    requires var t := WaitingAny(cs);
      && Good(t) && IsTimer(t, path) && Due(t, path) == now && NotBefore(t, now)
      && Tracks(t, AnyOf(ps), from, now)
    requires |cs| == |ps| && Tracks(Fire(cs[path[0]], path[1..], now), ps[path[0]], from, now)
    ensures Tracks(Fire(WaitingAny(cs), path, now), AnyOf(ps), from, now)
  {
    var t, i := WaitingAny(cs), path[0];
    var u := Fire(cs[i], path[1..], now);
    if u.Finished() {
      FireWinner(cs, path, now);
      FireOnTime(cs[i], path[1..], now);
      TracksEnd(cs[i], ps[i], from, now);
      FireOnTime(t, path, now);
      TracksEnd(t, AnyOf(ps), from, now);
      forall k | 0 <= k < |cs| ensures Tracks(Fire(t, path, now).children[k], ps[k], from, now) {
        CancelTracks(cs[k], ps[k], from, now);
      }
    }
  }

  /**
   What a timer does to an `any_of`: while the child at the head of the path goes on, nothing
   else changes; when it is over, the `any_of` names it, and every other child is at its own
   place what a cancel makes of it.
   */
  lemma FireWinner(cs: seq<Task>, path: seq<nat>, now: nat)
    requires Good(WaitingAny(cs)) && IsTimer(WaitingAny(cs), path)
    ensures var i, t := path[0], Fire(WaitingAny(cs), path, now);
      var u := Fire(cs[i], path[1..], now);
      if !u.Finished() then t.WaitingAny? && t.children == cs[i := u]
      else
        && t.CompletedAny? && t.who == i && |t.children| == |cs| && t.children[i] == u
        && forall k | 0 <= k < |cs| && k != i :: t.children[k] == Cancel(cs[k])
  {
    var i := path[0];
    var u := Fire(cs[i], path[1..], now);
    var ds := cs[i := u];
    CancelAllAt(ds);
    if u.Finished() {
      forall k | 0 <= k < |ds| && k != i ensures ds[k].Running() {
        assert ds[k] == cs[k];
      }
      FirstFinishedIs(ds, i);
    }
  }

  /* ---------- runs ---------- */

  lemma {:induction false} RunTracks(t: Task, p: Program, from: nat, now: nat, choices: seq<seq<nat>>)
    requires p.Valid() && OnTime(t, now, Finish(p, from)) && Tracks(t, p, from, now) && Legal(t, choices)
    ensures Tracks(After(t, choices), p, from, Clock(t, now, choices))
    decreases |choices|
  {
    if choices != [] {
      var due := Due(t, choices[0]);
      DueNotBefore(t, choices[0], now);
      FireOnTime(t, choices[0], due);
      FireTracks(t, choices[0], p, from, now, due);
      RunTracks(Fire(t, choices[0], due), p, from, due, choices[1..]);
    }
  }

  /**
   MAIN RESULT. In every run, whichever of several due timers is fired first, every task of
   the tree stays at the place of its program; and an `any_of` that is over, here or anywhere
   below, names a child whose program ends just when the `any_of` does.
   */
  lemma AlwaysTracks(p: Program, now: nat, choices: seq<seq<nat>>)
    requires p.Valid() && Legal(Start(p, now), choices)
    ensures Tracks(After(Start(p, now), choices), p, now, Clock(Start(p, now), now, choices))
  {
    StartTracks(p, now);
    StartOnTime(p, now);
    RunTracks(Start(p, now), p, now, now, choices);
  }

  /** MAIN RESULT. Who won: a finished child, whose program ends first of all. */
  lemma WinnerEndsFirst(ps: seq<Program>, now: nat, choices: seq<seq<nat>>)
    requires AnyOf(ps).Valid() && Legal(Start(AnyOf(ps), now), choices)
    ensures var t := After(Start(AnyOf(ps), now), choices);
      t.Finished() ==>
        && t.CompletedAny? && |t.children| == |ps| && t.who < |ps| && t.children[t.who].Finished()
        && Finish(ps[t.who], now) == Finish(AnyOf(ps), now)
        && forall i | 0 <= i < |ps| :: Finish(ps[t.who], now) <= Finish(ps[i], now)
  {
    var t := After(Start(AnyOf(ps), now), choices);
    AlwaysTracks(AnyOf(ps), now, choices);
    AlwaysStructured(AnyOf(ps), now, choices);
    if t.Finished() {
      FirstIsLeast(ps, now);
    }
  }

  lemma {:induction false} FirstIsLeast(ps: seq<Program>, now: nat)
    requires ps != []
    ensures forall i | 0 <= i < |ps| :: FinishFirst(ps, now) <= Finish(ps[i], now)
  {
    if |ps| > 1 {
      FirstIsLeast(ps[1..], now);
      forall i | 0 <= i < |ps| ensures FinishFirst(ps, now) <= Finish(ps[i], now) {
        assert i > 0 ==> ps[i] == ps[1..][i - 1];
      }
    }
  }
}
