/**
 `all_of` and `any_of` as objects: the starting, waiting and scanning loops over an array of
 children that change in place, against the functions of `Tasks`.
 */
module Combinators {
  import opened Tasks
  import opened TaskTiming
  import opened TaskStructure

  /** The children before `run()`. */
  function Programs(cs: seq<Task>): seq<Program>
    requires forall c | c in cs :: c.Idle?
  {
    seq(|cs|, i requires 0 <= i < |cs| => assert cs[i] in cs; cs[i].program)
  }

  ghost predicate AllIdle(cs: seq<Task>) { forall c | c in cs :: c.Idle? && c.program.Valid() }

  /** From `from` on the children have not been started. */
  ghost predicate Untouched(cs: seq<Task>, ps: seq<Program>, from: nat) {
    |cs| == |ps| && forall k | from <= k < |cs| :: cs[k] == Idle(ps[k]) && ps[k].Valid()
  }

  lemma {:induction false} StartAllAt(ps: seq<Program>, now: nat, i: nat)
    requires i < |ps|
    ensures StartAll(ps, now)[i] == Start(ps[i], now)
  {
    if i > 0 {
      StartAllAt(ps[1..], now, i - 1);
    }
  }

  lemma {:induction false} CountAppend(cs: seq<Task>, c: Task)
    ensures CountRunning(cs + [c]) == CountRunning(cs) + (if c.Running() then 1 else 0)
  {
    if cs == [] {
      assert (cs + [c])[1..] == [];
    } else {
      assert (cs + [c])[1..] == cs[1..] + [c];
      CountAppend(cs[1..], c);
    }
  }

  /** As long as no child ends at once, `any_of` starts the next one. */
  lemma {:induction false} StartAnyGoesOn(ps: seq<Program>, now: nat, i: nat)
    requires i < |ps| && forall k | 0 <= k < i :: !Start(ps[k], now).Finished()
    ensures |StartAny(ps, now)| > i && StartAny(ps, now)[i] == Start(ps[i], now)
    ensures Start(ps[i], now).Finished() ==> |StartAny(ps, now)| == i + 1
    ensures forall k | 0 <= k <= i :: StartAny(ps, now)[k] == Start(ps[k], now)
  {
    if i > 0 {
      assert !Start(ps[0], now).Finished();
      StartAnyGoesOn(ps[1..], now, i - 1);
    }
  }

  class AllOf {
    const children: array<Task>
    var count: nat

    constructor (children: array<Task>)
      requires children.Length > 0
      ensures this.children == children && count == 0
    {
      this.children, count := children, 0;
    }

    /** `all_of::run` up to its first yield or its end. */
    method Run(now: nat)
      requires AllIdle(children[..]) && children.Length > 0
      modifies this`count, children
      ensures children[..] == StartAll(Programs(old(children[..])), now)
      ensures count == CountRunning(children[..])
      ensures Settle(children[..], count) == Start(AllOf(Programs(old(children[..]))), now)
    {
      ghost var ps := Programs(children[..]);
      count := children.Length;
      for i := 0 to children.Length
        invariant |ps| == children.Length && Untouched(children[..], ps, i)
        invariant forall k | 0 <= k < i :: children[k] == Start(ps[k], now)
        invariant count == CountRunning(children[..i]) + children.Length - i
      {
        StartStructured(ps[i], now);
        ghost var before := children[..i];
        children[i] := Start(children[i].program, now);
        assert children[..i + 1] == before + [children[i]];
        CountAppend(before, children[i]);
        if children[i].Finished() {
          count := count - 1;
        }
      }
      forall i | 0 <= i < |ps| ensures StartAll(ps, now)[i] == children[i] {
        StartAllAt(ps, now, i);
      }
      assert children[..] == children[..children.Length] == StartAll(ps, now);
    }

    /** Child `i` wakes `all_of` by ending as `u`. */
    method Wake(i: nat, u: Task) returns (done: bool)
      requires i < children.Length && children[i].Running() && u.Finished()
      requires count == CountRunning(children[..])
      modifies this`count, children
      ensures children[..] == old(children[..])[i := u] && count == CountRunning(children[..]) == old(count) - 1
      ensures done == (forall k | 0 <= k < children.Length :: !children[k].Running())
    {
      ghost var cs := children[..];
      LastUpdate(cs, i, u);
      children[i] := u;
      count := count - 1;
      done := count == 0;
      NoneLeft(children[..]);
    }
  }

  lemma {:induction false} NoneLeft(cs: seq<Task>)
    ensures CountRunning(cs) == 0 <==> forall k | 0 <= k < |cs| :: !cs[k].Running()
  {
    if cs != [] {
      NoneLeft(cs[1..]);
      if CountRunning(cs) == 0 {
        forall k | 0 <= k < |cs| ensures !cs[k].Running() {
          if k > 0 { assert cs[k] == cs[1..][k - 1]; }
        }
      }
    }
  }

  class AnyOf {
    const children: array<Task>
    /** -1 as long as nobody completed. */
    var completedId: int

    constructor (children: array<Task>)
      requires children.Length > 0
      ensures this.children == children && completedId == -1
    {
      this.children, completedId := children, -1;
    }

    /** The starting loop of `any_of::run`. */
    method StartChildren(now: nat)
      requires AllIdle(children[..]) && children.Length > 0 && completedId == -1
      modifies this`completedId, children
      ensures var cs := StartAny(Programs(old(children[..])), now);
        && |cs| <= children.Length
        && children[..|cs|] == cs && children[|cs|..] == old(children[|cs|..])
        && completedId == (if cs[|cs| - 1].Finished() then |cs| - 1 else -1)
    {
      ghost var ps := Programs(children[..]);
      var i := 0;
      while i < children.Length && completedId == -1
        invariant 0 <= i <= children.Length == |ps|
        invariant Untouched(children[..], ps, i)
        invariant forall k | i <= k < children.Length :: children[k] == old(children[k])
        invariant forall k | 0 <= k < i :: children[k] == Start(ps[k], now)
        invariant completedId == -1 ==> forall k | 0 <= k < i :: !Start(ps[k], now).Finished()
        invariant completedId != -1 ==> completedId == i - 1 && children[i - 1].Finished()
        invariant completedId != -1 ==> forall k | 0 <= k < i - 1 :: !Start(ps[k], now).Finished()
      {
        children[i] := Start(children[i].program, now);
        if children[i].Finished() {
          completedId := i;
        }
        i := i + 1;
      }
      StartAnyGoesOn(ps, now, i - 1);
      assert children[..i] == StartAny(ps, now)[..i];
      assert |StartAny(ps, now)| == i;
      assert StartAny(ps, now)[..i] == StartAny(ps, now);
    }

    /** The scan after the wake-up. */
    method WhoCompleted()
      requires exists i :: 0 <= i < children.Length && children[i].Finished()
      modifies this`completedId
      ensures completedId == FirstFinished(children[..])
    {
      var i := 0;
      while !children[i].Finished()
        invariant 0 <= i < children.Length
        invariant FirstFinished(children[..]) == i + FirstFinished(children[i..])
        invariant exists k :: i <= k < children.Length && children[k].Finished()
        decreases children.Length - i
      {
        assert children[i..][1..] == children[i + 1..];
        i := i + 1;
      }
      completedId := i;
    }

    /** `__task_cancel_children`, seen from the statuses of the children. */
    method CancelChildren()
      modifies children
      ensures children[..] == CancelAll(old(children[..]))
    {
      ghost var cs := children[..];
      for i := 0 to children.Length
        invariant forall k | i <= k < children.Length :: children[k] == cs[k]
        invariant forall k | 0 <= k < i :: children[k] == Cancel(cs[k])
      {
        if children[i].Running() {
          children[i] := Cancel(children[i]);
        }
      }
      forall k | 0 <= k < |cs| ensures CancelAll(cs)[k] == children[k] {
        CancelAllAt(cs, k);
      }
    }
  }

  lemma {:induction false} CancelAllAt(cs: seq<Task>, k: nat)
    requires k < |cs|
    ensures CancelAll(cs)[k] == Cancel(cs[k])
  {
    if k > 0 {
      CancelAllAt(cs[1..], k - 1);
    }
  }
}
