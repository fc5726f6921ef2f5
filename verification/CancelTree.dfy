/**
 A tree of tasks as their records show it, the order in which a cancel tells them, and what
 that order means.
 */
module CancelTree {
  import opened Streams
  import opened TaskStatus

  /** A task object: what it awaits, and its children if it is a combinator. */
  datatype Record = Record(status: Status, reuse: Option<nat>, children: seq<nat>)

  type Records = map<nat, Record>

  /** The tasks below one task; nothing is said about what is below a task that does not run. */
  datatype Tree = Node(id: nat, live: bool, inner: Option<Tree>, kids: seq<Tree>)

  function Ids(ts: seq<Tree>): seq<nat> { seq(|ts|, i requires 0 <= i < |ts| => ts[i].id) }

  /** The records of the tree `t` are as it says. */
  ghost predicate Shows(m: Records, t: Tree) {
    && t.id in m && (m[t.id].status == Running <==> t.live)
    && (t.live ==>
          && m[t.id].children == Ids(t.kids)
          && m[t.id].reuse == (if t.inner.Some? then Some(t.inner.value.id) else None)
          && (t.inner.Some? ==> t.inner.value.live && Shows(m, t.inner.value))
          && (forall k | k in t.kids :: Shows(m, k)))
  }

  /** The order in which a cancelled tree is told: what is awaited, the task itself, its children. */
  function Log(t: Tree): seq<nat>
    decreases t, 0
  {
    if !t.live then []
    else (if t.inner.Some? then Log(t.inner.value) else []) + [t.id] + LogAll(t.kids)
  }

  function LogAll(ts: seq<Tree>): seq<nat>
    decreases ts, 1, |ts|
  {
    if ts == [] then [] else LogAll(ts[..|ts| - 1]) + Log(ts[|ts| - 1])
  }

  ghost predicate Disjoint(a: seq<nat>, b: seq<nat>) {
    forall x | x in a :: x !in b
  }

  /** `d` is `t` or one of the tasks below it, down to those that do not run. */
  ghost predicate Within(t: Tree, d: Tree)
    decreases t
  {
    d == t || (t.live && ((t.inner.Some? && Within(t.inner.value, d)) || exists k | k in t.kids :: Within(k, d)))
  }

  /** The task `x` runs in the tree `t`. */
  ghost predicate Lives(t: Tree, x: nat) { exists d :: Within(t, d) && d.live && d.id == x }

  /** No task runs in both trees. */
  ghost predicate Apart(t: Tree, u: Tree) { forall x :: !(Lives(t, x) && Lives(u, x)) }

  /** The places of the tree are different tasks, as far as they run. */
  ghost predicate Separate(t: Tree)
    decreases t, 0
  {
    t.live ==>
      && (t.inner.Some? ==>
            && Separate(t.inner.value) && !Lives(t.inner.value, t.id)
            && (forall k | k in t.kids :: Apart(t.inner.value, k)))
      && (forall k | k in t.kids :: !Lives(k, t.id))
      && SeparateAll(t.kids)
  }

  ghost predicate SeparateAll(ts: seq<Tree>)
    decreases ts, 1
  {
    (forall k | k in ts :: Separate(k)) && forall i, j | 0 <= i < j < |ts| :: Apart(ts[i], ts[j])
  }

  /** Every task of `ids` is canceled and awaits nothing; the others are as they were. */
  function Stopped(m: Records, ids: seq<nat>): Records {
    map id | id in m :: if id in ids then m[id].(status := Canceled, reuse := None) else m[id]
  }

  /** What is told before the task itself. */
  function Fore(t: Tree): seq<nat> { if t.inner.Some? then Log(t.inner.value) else [] }

  lemma Parts(t: Tree)
    requires t.live && Separate(t)
    ensures Log(t) == Fore(t) + [t.id] + LogAll(t.kids)
    ensures t.id !in Fore(t) && t.id !in LogAll(t.kids) && Disjoint(Fore(t), LogAll(t.kids))
  {
    forall x | x in Fore(t) ensures x != t.id && x !in LogAll(t.kids) {
      var d := ToldTask(t.inner.value, x);
      assert Lives(t.inner.value, x);
      if x in LogAll(t.kids) {
        var k := ToldKid(t.kids, x);
        var e := ToldTask(k, x);
        assert Lives(k, x);
      }
    }
    forall x | x in LogAll(t.kids) ensures x != t.id {
      var k := ToldKid(t.kids, x);
      var e := ToldTask(k, x);
      assert Lives(k, x);
    }
  }

  /** No task of a separate tree is told twice. */
  lemma {:induction false} SeparateIsDistinct(t: Tree)
    requires Separate(t)
    ensures Distinct(Log(t))
    decreases t, 0
  {
    if t.live {
      Parts(t);
      if t.inner.Some? {
        SeparateIsDistinct(t.inner.value);
      }
      SeparateAllIsDistinct(t.kids);
      DistinctAppend(Fore(t) + [t.id], LogAll(t.kids));
    }
  }

  lemma {:induction false} SeparateAllIsDistinct(ts: seq<Tree>)
    requires SeparateAll(ts)
    ensures Distinct(LogAll(ts))
    decreases ts, 1, |ts|
  {
    if ts != [] {
      var fore, last := ts[..|ts| - 1], ts[|ts| - 1];
      assert SeparateAll(fore);
      SeparateAllIsDistinct(fore);
      SeparateIsDistinct(last);
      KidsDisjoint(fore, last);
      DistinctAppend(LogAll(fore), Log(last));
    }
  }

  lemma KidsDisjoint(ts: seq<Tree>, u: Tree)
    requires forall k | k in ts :: Apart(k, u)
    ensures Disjoint(LogAll(ts), Log(u))
  {
    forall x | x in LogAll(ts) ensures x !in Log(u) {
      var k := ToldKid(ts, x);
      var d := ToldTask(k, x);
      assert Lives(k, x);
      if x in Log(u) {
        var e := ToldTask(u, x);
        assert Lives(u, x);
      }
    }
  }

  lemma DistinctAppend(a: seq<nat>, b: seq<nat>)
    requires Distinct(a) && Distinct(b) && Disjoint(a, b)
    ensures Distinct(a + b)
  {
    var s := a + b;
    forall i, j | 0 <= i < j < |s| ensures s[i] != s[j] {
      if i < |a| <= j {
        assert s[i] in a;
        assert s[j] == b[j - |a|];
      }
    }
  }

  lemma StoppedMore(m: Records, a: seq<nat>, b: seq<nat>)
    ensures Stopped(Stopped(m, a), b) == Stopped(m, a + b)
  {
  }

  /** Only running tasks are told. */
  lemma {:induction false} LiveRuns(m: Records, t: Tree)
    requires Shows(m, t)
    ensures forall x | x in Log(t) :: x in m && m[x].status == Running
    decreases t, 0
  {
    if t.live {
      if t.inner.Some? {
        LiveRuns(m, t.inner.value);
      }
      KidsRun(m, t.kids);
    }
  }

  lemma {:induction false} KidsRun(m: Records, ts: seq<Tree>)
    requires forall k | k in ts :: Shows(m, k)
    ensures forall x | x in LogAll(ts) :: x in m && m[x].status == Running
    decreases ts, 1, |ts|
  {
    if ts != [] {
      KidsRun(m, ts[..|ts| - 1]);
      LiveRuns(m, ts[|ts| - 1]);
    }
  }

  lemma {:induction false} InLogAll(ts: seq<Tree>, k: Tree)
    requires k in ts
    ensures forall x | x in Log(k) :: x in LogAll(ts)
  {
    if k != ts[|ts| - 1] {
      InLogAll(ts[..|ts| - 1], k);
    }
  }

  /** A change to other tasks does not show in `t`. */
  lemma {:induction false} SameShows(m: Records, m': Records, t: Tree)
    requires Shows(m, t)
    requires forall id | id in m && (m[id].status != Running || id in Log(t)) :: id in m' && m'[id] == m[id]
    ensures Shows(m', t)
    decreases t
  {
    if t.live {
      assert t.id in Log(t);
      if t.inner.Some? {
        SameShows(m, m', t.inner.value);
      }
      forall k | k in t.kids ensures Shows(m', k) {
        InLogAll(t.kids, k);
        SameShows(m, m', k);
      }
    }
  }

  lemma StoppedShows(m: Records, ids: seq<nat>, t: Tree)
    requires Shows(m, t) && Disjoint(ids, Log(t))
    requires forall x | x in ids :: x in m && m[x].status == Running
    ensures Shows(Stopped(m, ids), t)
  {
    SameShows(m, Stopped(m, ids), t);
  }

  lemma OthersShow(m: Records, m': Records, t: Tree)
    requires Shows(m, t) && t.live && t.inner.Some? && Separate(t)
    requires m' == m[t.id := m[t.id].(status := Canceled)]
    ensures Shows(m', t.inner.value)
  {
    Parts(t);
    SameShows(m, m', t.inner.value);
  }

  /** When a task is told, its children are still as they were. */
  lemma BeforeKids(m: Records, t: Tree)
    requires Shows(m, t) && t.live && Separate(t)
    ensures forall k | k in t.kids :: Shows(Stopped(m, Fore(t) + [t.id]), k)
  {
    Parts(t);
    LiveRuns(m, t);
    forall k | k in t.kids ensures Shows(Stopped(m, Fore(t) + [t.id]), k) {
      InLogAll(t.kids, k);
      StoppedShows(m, Fore(t) + [t.id], k);
    }
  }

  lemma NextKid(m: Records, ts: seq<Tree>, i: nat)
    requires i < |ts| && SeparateAll(ts) && forall k | k in ts :: Shows(m, k)
    ensures LogAll(ts[..i + 1]) == LogAll(ts[..i]) + Log(ts[i]) && Separate(ts[i])
    ensures Shows(Stopped(m, LogAll(ts[..i])), ts[i])
  {
    assert ts[..i + 1][..i] == ts[..i];
    KidsDisjoint(ts[..i], ts[i]);
    KidsRun(m, ts[..i]);
    StoppedShows(m, LogAll(ts[..i]), ts[i]);
  }

  /* ---------- what the log means ---------- */

  /** Nothing of the tree runs any more: what ran is canceled and its chain is unlinked. */
  ghost predicate Silent(m: Records, t: Tree) {
    forall d: Tree | Within(t, d) ::
      d.id in m && (if d.live then m[d.id].status == Canceled && m[d.id].reuse == None else m[d.id].status != Running)
  }

  lemma {:induction false} WithinShows(m: Records, t: Tree, d: Tree)
    requires Shows(m, t) && Within(t, d)
    ensures Shows(m, d)
    decreases t
  {
    if d != t {
      if t.inner.Some? && Within(t.inner.value, d) {
        WithinShows(m, t.inner.value, d);
      } else {
        var k :| k in t.kids && Within(k, d);
        WithinShows(m, k, d);
      }
    }
  }

  lemma {:induction false} KidsContiguous(ts: seq<Tree>, i: nat) returns (a: seq<nat>, b: seq<nat>)
    requires i < |ts|
    ensures LogAll(ts) == a + Log(ts[i]) + b
  {
    var last := |ts| - 1;
    if i == last {
      a, b := LogAll(ts[..last]), [];
    } else {
      a, b := KidsContiguous(ts[..last], i);
      b := b + Log(ts[last]);
    }
  }

  lemma Nested(p: seq<nat>, a: seq<nat>, s: seq<nat>, b: seq<nat>, q: seq<nat>)
    ensures p + (a + s + b) + q == (p + a) + s + (b + q)
  {
  }

  lemma InnerPart(t: Tree, a: seq<nat>, s: seq<nat>, b: seq<nat>)
    requires t.live && Fore(t) == a + s + b
    ensures Log(t) == a + s + (b + ([t.id] + LogAll(t.kids)))
  {
    Regroup(Fore(t), [t.id], LogAll(t.kids));
    Regroup(a + s, b, [t.id] + LogAll(t.kids));
  }

  lemma KidPart(t: Tree, k: Tree, a0: seq<nat>, b0: seq<nat>, a: seq<nat>, s: seq<nat>, b: seq<nat>)
    requires t.live && LogAll(t.kids) == a0 + Log(k) + b0 && Log(k) == a + s + b
    ensures Log(t) == (Fore(t) + [t.id] + a0 + a) + s + (b + b0)
  {
    var head, tail := Fore(t) + [t.id], s + (b + b0);
    Nested(a0, a, s, b, b0);
    Regroup(a0 + a, s, b + b0);
    Regroup(head, a0, a);
    Regroup(head, a0 + a, tail);
    Regroup(head + a0 + a, s, b + b0);
  }

  /** What is told below `d` is told without interruption. */
  lemma {:induction false} Contiguous(t: Tree, d: Tree) returns (a: seq<nat>, b: seq<nat>)
    requires Within(t, d)
    ensures Log(t) == a + Log(d) + b
    decreases t
  {
    if d == t {
      a, b := [], [];
    } else if t.inner.Some? && Within(t.inner.value, d) {
      var a1, b1 := Contiguous(t.inner.value, d);
      InnerPart(t, a1, Log(d), b1);
      a, b := a1, b1 + ([t.id] + LogAll(t.kids));
    } else {
      var k :| k in t.kids && Within(k, d);
      var i :| 0 <= i < |t.kids| && t.kids[i] == k;
      var a0, b0 := KidsContiguous(t.kids, i);
      var a1, b1 := Contiguous(k, d);
      KidPart(t, k, a0, b0, a1, Log(d), b1);
      a, b := Fore(t) + [t.id] + a0 + a1, b1 + b0;
    }
  }

  lemma {:induction false} ToldKid(ts: seq<Tree>, x: nat) returns (k: Tree)
    requires x in LogAll(ts)
    ensures k in ts && x in Log(k)
  {
    k := ts[|ts| - 1];
    if x !in Log(k) {
      k := ToldKid(ts[..|ts| - 1], x);
    }
  }

  lemma {:induction false} ToldTask(t: Tree, x: nat) returns (d: Tree)
    requires x in Log(t)
    ensures Within(t, d) && d.live && d.id == x
    decreases t
  {
    if x == t.id {
      d := t;
    } else if x in Fore(t) {
      d := ToldTask(t.inner.value, x);
    } else {
      var k := ToldKid(t.kids, x);
      d := ToldTask(k, x);
    }
  }

  lemma OnceEach(s: seq<nat>, x: nat)
    requires Distinct(s)
    ensures multiset(s)[x] == if x in s then 1 else 0
  {
    if x in s {
      var i :| 0 <= i < |s| && s[i] == x;
      assert s == s[..i] + [x] + s[i + 1..];
      assert x !in s[..i] && x !in s[i + 1..];
    }
  }

  /** Just the tasks that run are told. */
  lemma ToldExactly(t: Tree)
    ensures forall x :: x in Log(t) <==> Lives(t, x)
  {
    forall x ensures x in Log(t) <==> Lives(t, x) {
      if x in Log(t) {
        var d := ToldTask(t, x);
      }
      if Lives(t, x) {
        var d :| Within(t, d) && d.live && d.id == x;
        var a, b := Contiguous(t, d);
      }
    }
  }

  lemma LogSilences(m: Records, t: Tree)
    requires Shows(m, t) && forall x :: x in Log(t) <==> Lives(t, x)
    ensures Silent(Stopped(m, Log(t)), t)
  {
    LiveRuns(m, t);
    forall d: Tree | Within(t, d)
      ensures d.id in m && (d.live || (m[d.id].status != Running && d.id !in Log(t)))
    {
      WithinShows(m, t, d);
    }
  }

  /** The same tasks, each with the children it had. */
  ghost predicate SameChildren(m: Records, m': Records) {
    m'.Keys == m.Keys && forall x | x in m :: m'[x].children == m[x].children
  }

  lemma StoppedChildren(m: Records, ids: seq<nat>)
    ensures SameChildren(m, Stopped(m, ids))
  {
  }

  /**
   MAIN RESULT. A cancel of a tree of different tasks calls `cancel()` exactly once on
   every running task below and on no other, and leaves nothing running, every chain
   unlinked, every combinator with the children it had, and every task outside as it was.
   */
  lemma CancelReachesAll(m: Records, t: Tree)
    requires Shows(m, t) && Separate(t)
    ensures forall x :: multiset(Log(t))[x] == if Lives(t, x) then 1 else 0
    ensures Silent(Stopped(m, Log(t)), t)
    ensures forall x | x in m && !Lives(t, x) :: Stopped(m, Log(t))[x] == m[x]
    ensures SameChildren(m, Stopped(m, Log(t)))
  {
    StoppedChildren(m, Log(t));
    SeparateIsDistinct(t);
    ToldExactly(t);
    forall x ensures multiset(Log(t))[x] == if Lives(t, x) then 1 else 0 {
      OnceEach(Log(t), x);
    }
    LogSilences(m, t);
  }

  ghost predicate Precedes(s: seq<nat>, x: nat, y: nat) {
    exists i, j :: 0 <= i < j < |s| && s[i] == x && s[j] == y
  }

  lemma SidesPrecede(a: seq<nat>, b: seq<nat>, x: nat, y: nat)
    requires x in a && y in b
    ensures Precedes(a + b, x, y)
  {
    var i :| 0 <= i < |a| && a[i] == x;
    var j :| 0 <= j < |b| && b[j] == y;
    assert (a + b)[i] == x && (a + b)[|a| + j] == y;
  }

  lemma PartPrecedes(a: seq<nat>, s: seq<nat>, b: seq<nat>, x: nat, y: nat)
    requires Precedes(s, x, y)
    ensures Precedes(a + s + b, x, y)
  {
    var i, j :| 0 <= i < j < |s| && s[i] == x && s[j] == y;
    assert (a + s + b)[|a| + i] == x && (a + s + b)[|a| + j] == y;
  }

  lemma {:induction false} KidsOrdered(ts: seq<Tree>, i: nat, j: nat, x: nat, y: nat)
    requires i < j < |ts| && x in Log(ts[i]) && y in Log(ts[j])
    ensures Precedes(LogAll(ts), x, y)
  {
    var fore, last := ts[..|ts| - 1], ts[|ts| - 1];
    assert fore[i] == ts[i];
    if j == |ts| - 1 {
      InLogAll(fore, ts[i]);
      SidesPrecede(LogAll(fore), Log(last), x, y);
    } else {
      assert fore[j] == ts[j];
      KidsOrdered(fore, i, j, x, y);
      PartPrecedes([], LogAll(fore), Log(last), x, y);
      assert [] + LogAll(fore) == LogAll(fore);
    }
  }

  lemma ForeFirst(d: Tree, x: nat)
    requires d.live && x in Fore(d)
    ensures Precedes(Log(d), x, d.id)
  {
    SidesPrecede(Fore(d), [d.id] + LogAll(d.kids), x, d.id);
    Regroup(Fore(d), [d.id], LogAll(d.kids));
  }

  lemma KidsAfter(d: Tree, x: nat)
    requires d.live && x in LogAll(d.kids)
    ensures Precedes(Log(d), d.id, x)
  {
    SidesPrecede(Fore(d) + [d.id], LogAll(d.kids), d.id, x);
  }

  lemma KidsInOrder(d: Tree, i: nat, j: nat, x: nat, y: nat)
    requires d.live && i < j < |d.kids| && x in Log(d.kids[i]) && y in Log(d.kids[j])
    ensures Precedes(Log(d), x, y)
  {
    var head, kids := Fore(d) + [d.id], LogAll(d.kids);
    KidsOrdered(d.kids, i, j, x, y);
    PartPrecedes(head, kids, [], x, y);
    assert head + kids + [] == Log(d);
  }

  lemma WithinPrecedes(t: Tree, d: Tree, x: nat, y: nat)
    requires Within(t, d) && Precedes(Log(d), x, y)
    ensures Precedes(Log(t), x, y)
  {
    var a, b := Contiguous(t, d);
    PartPrecedes(a, Log(d), b, x, y);
  }

  /**
   MAIN RESULT. Everywhere in a cancelled tree, what a task awaits is told before the task,
   the task before what its children run, and children in the order of their indices.
   */
  lemma CancelOrder(t: Tree, d: Tree)
    requires Within(t, d) && d.live
    ensures forall x | x in Fore(d) :: Precedes(Log(t), x, d.id)
    ensures forall x | x in LogAll(d.kids) :: Precedes(Log(t), d.id, x)
    ensures forall i, j, x, y | 0 <= i < j < |d.kids| && x in Log(d.kids[i]) && y in Log(d.kids[j]) ::
      Precedes(Log(t), x, y)
  {
    forall x | x in Fore(d) ensures Precedes(Log(t), x, d.id) {
      ForeFirst(d, x);
      WithinPrecedes(t, d, x, d.id);
    }
    forall x | x in LogAll(d.kids) ensures Precedes(Log(t), d.id, x) {
      KidsAfter(d, x);
      WithinPrecedes(t, d, d.id, x);
    }
    forall i, j, x, y | 0 <= i < j < |d.kids| && x in Log(d.kids[i]) && y in Log(d.kids[j])
      ensures Precedes(Log(t), x, y) {
      KidsInOrder(d, i, j, x, y);
      WithinPrecedes(t, d, x, y);
    }
  }
}
