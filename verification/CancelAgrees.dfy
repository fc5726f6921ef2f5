/** The cancel of the task trees of `Tasks` is the cancel of the records of `CancelTree`. */
module CancelAgrees {
  import opened Streams
  import opened TaskStatus
  import opened Tasks
  import opened Combinators
  import opened CancelTree

  /** The same tree: what runs in one runs in the other, down to the tasks that do not run. */
  ghost predicate SameTree(t: Task, d: Tree) {
    && t.Running() == d.live
    && match t
       case Awaiting(target, _) => d.inner.Some? && SameTree(target, d.inner.value) && d.kids == []
       case WaitingAll(cs, _) =>
         d.inner == None && |cs| == |d.kids| && forall i | 0 <= i < |cs| :: SameTree(cs[i], d.kids[i])
       case WaitingAny(cs) =>
         d.inner == None && |cs| == |d.kids| && forall i | 0 <= i < |cs| :: SameTree(cs[i], d.kids[i])
       case _ => d.live ==> d.inner == None && d.kids == []
  }

  /** The children that `t` keeps after a cancel. */
  function Below(t: Task): seq<Task> {
    match t
    case Awaiting(target, _) => [target]
    case WaitingAll(cs, _) => cs
    case WaitingAny(cs) => cs
    case _ => []
  }

  function BelowTree(d: Tree): seq<Tree> {
    if !d.live then [] else (if d.inner.Some? then [d.inner.value] else []) + d.kids
  }

  /** `u` is what became of `t`, and the records say the same of `d`. */
  ghost predicate CanceledAlike(t: Task, u: Task, m: Records, d: Tree)
    decreases t
  {
    d.id in m &&
    if t.Running() then
      && u.Canceled? && m[d.id].status == Status.Canceled && m[d.id].reuse == None
      && |u.children| == |Below(t)| == |BelowTree(d)|
      && forall i | 0 <= i < |Below(t)| :: CanceledAlike(Below(t)[i], u.children[i], m, BelowTree(d)[i])
    else u == t && m[d.id].status != Status.Running
  }

  lemma {:induction false} CancelAlike(t: Task, m: Records, d: Tree)
    requires SameTree(t, d) && Silent(m, d)
    ensures CanceledAlike(t, Cancel(t), m, d)
    decreases t
  {
    assert Within(d, d);
    if t.Running() {
      var cs, ds := Below(t), BelowTree(d);
      forall i | 0 <= i < |cs|
        ensures CanceledAlike(cs[i], Cancel(t).children[i], m, ds[i])
      {
        if !t.Awaiting? {
          CancelAllAt(cs, i);
        }
        BelowIsWithin(d, i);
        SilentBelow(m, d, ds[i]);
        CancelAlike(cs[i], m, ds[i]);
      }
    }
  }

  lemma BelowIsWithin(d: Tree, i: nat)
    requires i < |BelowTree(d)|
    ensures BelowTree(d)[i] ==
      if d.inner.None? then d.kids[i] else if i == 0 then d.inner.value else d.kids[i - 1]
    ensures d.live && ((d.inner.Some? && BelowTree(d)[i] == d.inner.value) || BelowTree(d)[i] in d.kids)
  {
  }

  lemma SilentBelow(m: Records, d: Tree, e: Tree)
    requires Silent(m, d) && d.live && ((d.inner.Some? && e == d.inner.value) || e in d.kids)
    ensures Silent(m, e)
  {
    forall f: Tree | Within(e, f) ensures Within(d, f) {
    }
  }

  /**
   MAIN RESULT. The two models of a cancel agree: on the same tree of different tasks, the
   records end up canceled exactly where the task tree does.
   */
  lemma CancelsAgree(t: Task, m: Records, d: Tree)
    requires SameTree(t, d) && Shows(m, d) && Separate(d)
    ensures CanceledAlike(t, Cancel(t), Stopped(m, Log(d)), d)
  {
    CancelReachesAll(m, d);
    CancelAlike(t, Stopped(m, Log(d)), d);
  }
}
