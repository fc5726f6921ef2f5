/**
 How a combinator waits for tasks that cannot be cancelled (`__task_cancel_children` with
 `unsupport`, the end of `__await`): such a task is left to finish, and only then does
 whatever awaits it learn that it was cancelled.
 */
module Uninterruptable {
  import opened Streams
  import opened TaskStatus

  /** A task of an await chain; `firm` is its uninterruptable flag. */
  datatype Link = Link(status: Status, firm: bool)

  /** A child, then what it awaits, and so on. */
  type Chain = seq<Link>

  predicate IsRunning(c: Chain) { c != [] && c[0].status == Running }

  /** The first task of the chain that is firm, or the length of the chain. */
  function FirmAt(c: Chain): (k: nat)
    ensures k <= |c| && (forall i | 0 <= i < k :: !c[i].firm) && (k < |c| ==> c[k].firm)
  {
    if c == [] || c[0].firm then 0 else 1 + FirmAt(c[1..])
  }

  predicate Firm(c: Chain) { FirmAt(c) < |c| }

  function Stop(c: Chain): Chain { seq(|c|, i requires 0 <= i < |c| => c[i].(status := Canceled)) }

  /** What a cancel makes of one child at once. */
  function Signalled(c: Chain): Chain {
    if !IsRunning(c) then c
    else if !Firm(c) then Stop(c)
    else if FirmAt(c) == 0 then c
    else c[FirmAt(c) := c[FirmAt(c)].(status := Canceled)]
  }

  /**
   What becomes of the chain when its firm task returns from `run()`. The child itself just
   completes. An awaited task gives control back to what awaits it, which goes on, unless
   the task was marked canceled: then it is completed all the same, and the interruption
   unwinds what awaits it, up to the child.
   */
  function Ended(c: Chain): Chain
    requires Firm(c) && IsRunning(c)
  {
    var k := FirmAt(c);
    if k == 0 then [c[0].(status := Completed)]
    else if c[k].status == Canceled then Stop(c[..k]) + [c[k].(status := Completed)]
    else c[..k]
  }

  /** The tasks whose `cancel()` that calls, by their places in the chain. */
  function Told(c: Chain): seq<nat> {
    var k := FirmAt(c);
    if 0 < k < |c| && c[k].status == Canceled then Down(k) else []
  }

  /** `n - 1`, and so on down to 0. */
  function Down(n: nat): seq<nat> { if n == 0 then [] else [n - 1] + Down(n - 1) }

  /** A child the combinator waits for ends when its firm task does: that task is the child, or is marked. */
  ghost predicate Waited(c: Chain) {
    IsRunning(c) ==> Firm(c) && (FirmAt(c) > 0 ==> c[FirmAt(c)].status == Canceled)
  }

  function CountRunning(cs: seq<Chain>): nat {
    if cs == [] then 0 else CountRunning(cs[..|cs| - 1]) + (if IsRunning(cs[|cs| - 1]) then 1 else 0)
  }

  lemma {:induction false} RunningCounts(cs: seq<Chain>, i: nat)
    requires i < |cs| && IsRunning(cs[i])
    ensures CountRunning(cs) > 0
  {
    if i < |cs| - 1 {
      RunningCounts(cs[..|cs| - 1], i);
    }
  }

  lemma {:induction false} NoneRuns(cs: seq<Chain>)
    requires forall i | 0 <= i < |cs| :: !IsRunning(cs[i])
    ensures CountRunning(cs) == 0
  {
    if cs != [] {
      NoneRuns(cs[..|cs| - 1]);
    }
  }

  lemma {:induction false} OneLess(cs: seq<Chain>, i: nat, c: Chain)
    requires i < |cs| && IsRunning(cs[i]) && !IsRunning(c)
    ensures CountRunning(cs) > 0 && CountRunning(cs[i := c]) == CountRunning(cs) - 1
  {
    var fore, last := cs[..|cs| - 1], |cs| - 1;
    RunningCounts(cs, i);
    if i == last {
      assert cs[i := c][..last] == fore;
    } else {
      assert cs[i := c][..last] == fore[i := c];
      OneLess(fore, i, c);
    }
  }

  /** The waits that a cancel of `cs` leaves: its running children that hold a firm task. */
  ghost predicate AfterSignal(cs: seq<Chain>, ds: seq<Chain>) {
    |ds| == |cs| && forall i | 0 <= i < |cs| :: ds[i] == Signalled(cs[i])
  }

  /** `__task_cancel_children`, run by the combinator whose children these are. */
  class Combinator {
    var children: seq<Chain>
    var unsupport: nat
    var firm: bool
    /** The calls of `cancel()` that interruptions made: the child, and the place in its chain. */
    var log: seq<(nat, nat)>

    constructor (children: seq<Chain>)
      ensures this.children == children && unsupport == 0 && !firm && log == []
    {
      this.children, unsupport, firm, log := children, 0, false, [];
    }

    /** The scan along one chain. */
    method Scan(c: Chain) returns (k: nat)
      requires c != []
      ensures k == FirmAt(c)
    {
      k := 0;
      while k < |c| && !c[k].firm
        invariant k <= |c| && FirmAt(c) == k + FirmAt(c[k..])
      {
        assert c[k..][1..] == c[k + 1..];
        k := k + 1;
      }
    }

    /** The body of the loop over the children: the chain after it, and whether to wait for it. */
    method CancelChild(c: Chain) returns (d: Chain, waits: bool)
      ensures d == Signalled(c) && waits == IsRunning(d)
    {
      SignalledRuns(c);
      if c == [] || c[0].status != Running {
        return c, false;
      }
      var k := Scan(c);
      if k == |c| {
        return Stop(c), false;
      }
      return if k > 0 then c[k := c[k].(status := Canceled)] else c, true;
    }

    /** The loop over the children; the combinator itself becomes uninterruptable if it must wait. */
    method CancelChildren()
      requires unsupport == 0
      modifies this`children, this`unsupport, this`firm
      ensures AfterSignal(old(children), children)
      ensures unsupport == CountRunning(children)
      ensures firm == (old(firm) || unsupport > 0)
    {
      ghost var cs := children;
      for i := 0 to |children|
        invariant |children| == |cs| && firm == old(firm)
        invariant forall j | 0 <= j < |cs| :: children[j] == if j < i then Signalled(cs[j]) else cs[j]
        invariant unsupport == CountRunning(children[..i])
      {
        var c := children[i];
        ghost var before := children[..i];
        var d, waits := CancelChild(c);
        children := children[i := d];
        if waits {
          unsupport := unsupport + 1;
        }
        assert children[..i + 1][..i] == before;
      }
      assert children[..|children|] == children;
      if unsupport > 0 {
        firm := true;
      }
    }

    /** The end of `__await` for the firm task at place `k`: whether it throws. */
    method AwaitEnds(c: Chain, k: nat) returns (d: Chain, thrown: bool)
      requires 0 < k < |c|
      ensures thrown == (c[k].status == Canceled)
      ensures d == if thrown then c[..k] + [c[k].(status := Completed)] else c[..k]
    {
      var target := c[k];
      if target.status == Running {
        target := target.(status := Completed);
      }
      if target.status == Canceled {
        target := target.(status := Completed);
        return c[..k] + [target], true;
      }
      return c[..k], false;
    }

    /**
     The handlers that the interruption passes: of every `__await` outward from place `k`,
     then of `__task_runtime`. Each marks its task canceled and calls its `cancel()`.
     */
    method Handlers(i: nat, c: Chain, k: nat) returns (d: Chain)
      requires 0 < k <= |c|
      modifies this`log
      ensures d == Stop(c[..k]) + c[k..]
      ensures log == old(log) + Calls(i, Down(k))
    {
      d := c;
      var j := k;
      while j > 0
        invariant 0 <= j <= k && |d| == |c|
        invariant forall n | 0 <= n < |c| :: d[n] == if j <= n < k then c[n].(status := Canceled) else c[n]
        invariant log + Calls(i, Down(j)) == old(log) + Calls(i, Down(k))
      {
        j := j - 1;
        d := d[j := d[j].(status := Canceled)];
        CallsStep(i, j);
        log := log + [(i, j)];
      }
    }

    /** The firm task of child `i` returns: whether the child's coroutine ends with that. */
    method FirmReturns(i: nat) returns (ended: bool)
      requires i < |children| && IsRunning(children[i]) && Firm(children[i])
      modifies this`children, this`log
      ensures children == old(children)[i := Ended(old(children)[i])]
      ensures log == old(log) + Calls(i, Told(old(children)[i]))
      ensures ended == !IsRunning(children[i])
      ensures |children| == |old(children)|
      ensures var c, d, k := old(children)[i], children[i], FirmAt(old(children)[i]);
        && (ended <==> k == 0 || c[k].status == Canceled)
        && (ended ==> |d| == k + 1 && d[k] == c[k].(status := Completed))
        && (ended ==> forall n | 0 <= n < k :: d[n] == c[n].(status := Canceled))
        && (!ended ==> |d| == k && (forall n | 0 <= n < k :: d[n] == c[n]) && log == old(log))
    {
      var c := children[i];
      var k := Scan(c);
      if k == 0 {
        children := children[i := [c[0].(status := Completed)]];
        return true;
      }
      var d, thrown := AwaitEnds(c, k);
      if thrown {
        d := Handlers(i, d, k);
        assert d == Ended(c);
      }
      children := children[i := d];
      return thrown;
    }

    /** The loop of the waiting combinator when a firm task returns: it is woken when its child ends. */
    method Wake(i: nat)
      requires i < |children| && IsRunning(children[i]) && Waited(children[i])
      requires unsupport == CountRunning(children)
      modifies this`children, this`unsupport, this`log
      ensures children == old(children)[i := Ended(old(children)[i])]
      ensures log == old(log) + Calls(i, Told(old(children)[i]))
      ensures unsupport == CountRunning(children) == old(unsupport) - 1
    {
      EndedIsOver(children[i]);
      OneLess(children, i, Ended(children[i]));
      var ended := FirmReturns(i);
      if ended {
        unsupport := unsupport - 1;
      }
    }
  }

  /** Calls of `cancel()` in the chain of child `i`. */
  function Calls(i: nat, places: seq<nat>): seq<(nat, nat)> {
    seq(|places|, n requires 0 <= n < |places| => (i, places[n]))
  }

  lemma CallsStep(i: nat, j: nat)
    ensures Calls(i, Down(j + 1)) == [(i, j)] + Calls(i, Down(j))
  {
  }

  /**
   An awaited firm task that nobody marked just returns: whatever awaits it is as it was, and
   the innermost of those runs on.
   */
  lemma UnmarkedGoesOn(c: Chain)
    requires IsRunning(c) && 0 < FirmAt(c) < |c| && c[FirmAt(c)].status != Canceled
    ensures |Ended(c)| == FirmAt(c) && IsRunning(Ended(c)) && !Firm(Ended(c))
    ensures forall i | 0 <= i < FirmAt(c) :: Ended(c)[i] == c[i]
    ensures Told(c) == []
  {
    NoneFirm(Ended(c));
  }

  lemma {:induction false} NoneFirm(c: Chain)
    requires forall i | 0 <= i < |c| :: !c[i].firm
    ensures FirmAt(c) == |c|
  {
    if c != [] {
      NoneFirm(c[1..]);
    }
  }

  /** A marked one ends completed, and whatever awaits it is canceled: nothing else changes. */
  lemma MarkedUnwinds(c: Chain)
    requires IsRunning(c) && Firm(c) && (FirmAt(c) == 0 || c[FirmAt(c)].status == Canceled)
    ensures var k := FirmAt(c);
      && |Ended(c)| == k + 1 && Ended(c)[k] == c[k].(status := Completed)
      && forall i | 0 <= i < k :: Ended(c)[i] == c[i].(status := Canceled)
  {
  }

  /** The links that a cancel marks: the firm task, if it is awaited, or all of a chain without one. */
  predicate Marked(c: Chain, i: nat) { IsRunning(c) && (!Firm(c) || (i > 0 && i == FirmAt(c))) }

  /** A cancel marks just those. */
  lemma SignalledMarks(c: Chain)
    ensures |Signalled(c)| == |c|
    ensures forall i: nat | i < |c| && Marked(c, i) :: Signalled(c)[i] == c[i].(status := Canceled)
    ensures forall i: nat | i < |c| && !Marked(c, i) :: Signalled(c)[i] == c[i]
  {
  }

  lemma EndedIsOver(c: Chain)
    requires IsRunning(c) && Waited(c)
    ensures !IsRunning(Ended(c)) && |Ended(c)| == FirmAt(c) + 1
    ensures Ended(c)[0].status == if FirmAt(c) == 0 then Completed else Canceled
    ensures Ended(c)[FirmAt(c)].status == Completed
    ensures Told(c) == Down(FirmAt(c))
  {
  }

  /* ---------- runs ---------- */

  /** The children after those of `ends` have finished, in that order. */
  function After(ds: seq<Chain>, ends: seq<nat>): seq<Chain>
    requires LegalEnds(ds, ends)
    decreases |ends|
  {
    if ends == [] then ds else After(ds[ends[0] := Ended(ds[ends[0]])], ends[1..])
  }

  /** Only what still runs can finish. */
  predicate LegalEnds(ds: seq<Chain>, ends: seq<nat>)
    decreases |ends|
  {
    ends == [] ||
    (ends[0] < |ds| && IsRunning(ds[ends[0]]) && Firm(ds[ends[0]])
      && LegalEnds(ds[ends[0] := Ended(ds[ends[0]])], ends[1..]))
  }

  /** The mark that a cancel leaves is what makes the child end with its firm task. */
  lemma SignalledWaits(c: Chain)
    ensures Waited(Signalled(c))
  {
    SignalledRuns(c);
  }

  lemma SignalledRuns(c: Chain)
    ensures IsRunning(Signalled(c)) <==> IsRunning(c) && Firm(c)
    ensures IsRunning(c) && Firm(c) ==> FirmAt(Signalled(c)) == FirmAt(c) && Firm(Signalled(c))
  {
    if IsRunning(c) && Firm(c) {
      FirmSame(c, Signalled(c));
    }
  }

  lemma {:induction false} FirmSame(c: Chain, d: Chain)
    requires |d| == |c| && forall i | 0 <= i < |c| :: d[i].firm == c[i].firm
    ensures FirmAt(d) == FirmAt(c)
  {
    if c != [] && !c[0].firm {
      FirmSame(c[1..], d[1..]);
    }
  }

  /** What one child has become, after those in `ends` have finished. */
  function Fate(d: Chain, finished: bool): Chain {
    if finished && Firm(d) && IsRunning(d) then Ended(d) else d
  }

  lemma OneEnds(ds: seq<Chain>, e: nat)
    requires e < |ds| && IsRunning(ds[e]) && Firm(ds[e]) && forall i | 0 <= i < |ds| :: Waited(ds[i])
    ensures var es := ds[e := Ended(ds[e])];
      && (forall i | 0 <= i < |es| :: Waited(es[i]))
      && !IsRunning(es[e]) && CountRunning(ds) == CountRunning(es) + 1
  {
    EndedIsOver(ds[e]);
    OneLess(ds, e, Ended(ds[e]));
  }

  lemma OneFirst(ends: seq<nat>)
    requires ends != []
    ensures forall x :: x in ends <==> x == ends[0] || x in ends[1..]
    ensures ends[0] !in ends[1..] <==> forall b | 0 < b < |ends| :: ends[0] != ends[b]
  {
    assert forall b | 0 < b < |ends| :: ends[b] == ends[1..][b - 1];
    assert ends == [ends[0]] + ends[1..];
  }

  lemma {:induction false} EachEndsOnce(ds: seq<Chain>, ends: seq<nat>)
    requires LegalEnds(ds, ends) && forall i | 0 <= i < |ds| :: Waited(ds[i])
    ensures |After(ds, ends)| == |ds|
    ensures forall i: nat | i < |ds| :: After(ds, ends)[i] == Fate(ds[i], i in ends)
    ensures forall a, b | 0 <= a < b < |ends| :: ends[a] != ends[b]
    ensures forall i | i in ends :: i < |ds| && IsRunning(ds[i])
    ensures CountRunning(ds) == CountRunning(After(ds, ends)) + |ends|
    decreases |ends|
  {
    if ends != [] {
      var e, more := ends[0], ends[1..];
      var es := ds[e := Ended(ds[e])];
      OneEnds(ds, e);
      EachEndsOnce(es, more);
      OneFirst(ends);
      assert e !in more && After(ds, ends) == After(es, more);
      forall i: nat | i < |ds| ensures After(ds, ends)[i] == Fate(ds[i], i in ends) {
        assert After(es, more)[i] == Fate(es[i], i in more);
      }
    }
  }

  ghost predicate DistinctRunning(ds: seq<Chain>, ends: seq<nat>) {
    && (forall i | i in ends :: i < |ds| && IsRunning(ds[i]))
    && forall a, b | 0 <= a < b < |ends| :: ends[a] != ends[b]
  }

  /** The children that are waited for may end in any order, each once, and in no other way. */
  lemma {:induction false} AnyOrder(ds: seq<Chain>, ends: seq<nat>)
    requires forall i | 0 <= i < |ds| :: Waited(ds[i])
    ensures LegalEnds(ds, ends) <==> DistinctRunning(ds, ends)
    decreases |ends|
  {
    if LegalEnds(ds, ends) {
      EachEndsOnce(ds, ends);
    }
    if DistinctRunning(ds, ends) && ends != [] {
      var e, more := ends[0], ends[1..];
      assert e in ends;
      var es := ds[e := Ended(ds[e])];
      OneFirst(ends);
      assert e !in more;
      OneEnds(ds, e);
      assert forall a | 0 <= a < |more| :: more[a] == ends[a + 1];
      AnyOrder(es, more);
    }
  }

  /** The firm task at place `k` has completed, and so has the child, or it was canceled with that. */
  ghost predicate EndedAt(k: nat, now: Chain) {
    |now| == k + 1 && now[0].status == (if k == 0 then Completed else Canceled) && now[k].status == Completed
  }

  /**
   What a running child `c` has become, when the cancel made it `d`: canceled at once if it
   holds no firm task; else it runs until that task returns, which ends completed while
   everything that awaits it is canceled and told, from the inside out.
   */
  ghost predicate Became(c: Chain, d: Chain, now: Chain, finished: bool) {
    var k := FirmAt(c);
    if k == |c| then now == Stop(c)
    else if !finished then IsRunning(now)
    else EndedAt(k, now) && Told(d) == Down(k)
  }

  lemma ChildFate(c: Chain, finished: bool)
    requires finished ==> IsRunning(Signalled(c))
    ensures var now := Fate(Signalled(c), finished);
      && IsRunning(now) == (IsRunning(c) && Firm(c) && !finished)
      && (IsRunning(c) ==> Became(c, Signalled(c), now, finished))
  {
    SignalledRuns(c);
    SignalledWaits(c);
    if finished {
      EndedIsOver(Signalled(c));
    }
  }

  /**
   MAIN RESULT. After a cancel of `cs`, with any order in which the remaining firm tasks
   return: the combinator still waits for exactly the children that still run, and goes on
   when all have ended. A child without a firm task is canceled at once; one that is firm
   itself ends completed; one that awaits a firm task runs until just that task returns:
   the task ends completed, and everything that awaits it is canceled and told.
   */
  lemma WaitsForAll(cs: seq<Chain>, ds: seq<Chain>, ends: seq<nat>)
    requires AfterSignal(cs, ds) && LegalEnds(ds, ends)
    ensures var now := After(ds, ends);
      && |now| == |cs|
      && CountRunning(ds) - |ends| == CountRunning(now)
      && (CountRunning(now) == 0 <==> forall i | 0 <= i < |cs| :: IsRunning(cs[i]) && Firm(cs[i]) ==> i in ends)
      && forall i: nat | i < |cs| && IsRunning(cs[i]) :: Became(cs[i], ds[i], now[i], i in ends)
  {
    forall i | 0 <= i < |ds| ensures Waited(ds[i]) {
      SignalledWaits(cs[i]);
    }
    EachEndsOnce(ds, ends);
    var now := After(ds, ends);
    forall i: nat | i < |cs|
      ensures IsRunning(now[i]) == (IsRunning(cs[i]) && Firm(cs[i]) && i !in ends)
      ensures IsRunning(cs[i]) ==> Became(cs[i], ds[i], now[i], i in ends)
    {
      ChildFate(cs[i], i in ends);
    }
    NoneLeft(now);
  }

  lemma NoneLeft(cs: seq<Chain>)
    ensures CountRunning(cs) == 0 <==> forall i | 0 <= i < |cs| :: !IsRunning(cs[i])
  {
    if forall i | 0 <= i < |cs| :: !IsRunning(cs[i]) {
      NoneRuns(cs);
    } else {
      var i :| 0 <= i < |cs| && IsRunning(cs[i]);
      RunningCounts(cs, i);
    }
  }
}
