/**
 The ids and the stacks that the pools share out (`__init_setting`, `__init`): every
 call to `init` extends a range of ids, and the first task lays out one slot of one
 piece of memory for each id. Addresses are offsets into that piece.
 */
module StackLayout {

  const WORD: nat := 0x1_0000_0000
  const SIZE: nat := 0x1_0000_0000_0000_0000

  /** The stack of a pool includes its guard pages. */
  datatype SettingBase = Setting(stack: nat, guard: nat, count: nat)

  type Setting = s: SettingBase | s.guard <= s.stack < WORD && s.count < WORD witness Setting(0, 0, 0)

  /** A coroutine's stack: where it begins, its size, and how much of its start is protected. */
  datatype Slot = Slot(at: nat, size: nat, guard: nat) {
    function End(): nat { at + size }
  }

  function Ids(ss: seq<Setting>): nat {
    if ss == [] then 0 else Ids(ss[..|ss| - 1]) + ss[|ss| - 1].count
  }

  function Bytes(ss: seq<Setting>): nat {
    if ss == [] then 0 else Bytes(ss[..|ss| - 1]) + Span(ss[|ss| - 1].stack, ss[|ss| - 1].count)
  }

  /** `n` steps of `step` bytes. */
  function Span(step: nat, n: nat): nat { if n == 0 then 0 else Span(step, n - 1) + step }

  lemma {:induction false} SpanIs(step: nat, n: nat)
    ensures Span(step, n) == step * n
  {
    if n > 0 {
      SpanIs(step, n - 1);
      assert step * n == step * (n - 1) + step;
    }
  }

  /** `stack_size * max_task_num`. */
  method Product(a: nat, b: nat) returns (p: nat)
    ensures p == Span(a, b)
  {
    SpanIs(a, b);
    p := a * b;
  }

  /** The slots of `n` ids of one pool, from address `at` on. */
  function Row(s: Setting, at: nat, n: nat): (r: seq<Slot>)
    ensures |r| == n && forall k | 0 <= k < n :: r[k].size == s.stack && r[k].guard == s.guard
  {
    if n == 0 then [] else Row(s, at, n - 1) + [Slot(at + Span(s.stack, n - 1), s.stack, s.guard)]
  }

  /** The slots of all pools, in the order of the settings. */
  function Slots(ss: seq<Setting>): seq<Slot> {
    if ss == [] then []
    else Slots(ss[..|ss| - 1]) + Row(ss[|ss| - 1], Bytes(ss[..|ss| - 1]), ss[|ss| - 1].count)
  }

  /** `n` ids on from `first`, as `uint32` counts. */
  function IdsFrom(first: nat, n: nat): seq<nat> {
    seq<nat>(n, i requires 0 <= i < n => Wrap(first + i, WORD))
  }

  /** The free list of pool `p`. */
  function FreeList(ss: seq<Setting>, p: nat): seq<nat>
    requires p < |ss|
  {
    IdsFrom(Ids(ss[..p]), ss[p].count)
  }

  function Wrap(n: nat, width: nat): (r: nat)
    requires width > 0
    ensures r < width && (n < width ==> r == n)
  {
    n % width
  }

  lemma WrapAdd(n: nat, m: nat, width: nat)
    requires width > 0
    ensures Wrap(Wrap(n, width) + m, width) == Wrap(n + m, width)
  {
    var a := n % width + m;
    assert n + m == width * (n / width) + (width * (a / width) + a % width);
    assert width * (n / width) + width * (a / width) == width * (n / width + a / width);
    WrapIs(n + m, width, n / width + a / width, a % width);
  }

  lemma WrapIs(n: nat, width: nat, q: nat, r: nat)
    requires r < width && n == width * q + r
    ensures Wrap(n, width) == r
  {
    var e, m := n / width, n % width;
    assert n == width * e + m;
    if q > e {
      Apart(width, q, e);
    } else if e > q {
      Apart(width, e, q);
    }
  }

  lemma Apart(width: nat, a: nat, b: nat)
    requires a > b
    ensures width * a >= width * b + width
  {
    assert width * a == width * b + width * (a - b);
    assert width * (a - b) == width + width * (a - b - 1);
  }

  lemma IdsFromStep(first: nat, n: nat)
    ensures IdsFrom(first, n + 1) == IdsFrom(first, n) + [Wrap(first + n, WORD)]
    ensures Wrap(Wrap(first + n, WORD) + 1, WORD) == Wrap(first + (n + 1), WORD)
  {
    WrapAdd(first + n, 1, WORD);
  }

  /** The globals behind `init()`. */
  class Settings {
    var list: seq<Setting>
    var maxTasks: nat
    var maxBytes: nat

    /** The counters have the width of `uint32` and `size_t`. */
    ghost predicate Valid()
      reads this
    {
      maxTasks == Wrap(Ids(list), WORD) && maxBytes == Wrap(Bytes(list), SIZE)
    }

    constructor ()
      ensures Valid() && list == []
    {
      list, maxTasks, maxBytes := [], 0, 0;
    }

    /** The next `count` ids. */
    method NewIds(count: nat) returns (free: array<nat>)
      requires maxTasks == Wrap(Ids(list), WORD)
      modifies this`maxTasks
      ensures maxTasks == Wrap(Ids(list) + count, WORD)
      ensures fresh(free) && free[..] == IdsFrom(Ids(list), count)
    {
      free := new nat[count];
      ghost var n := Ids(list);
      for i := 0 to count
        invariant maxTasks == Wrap(n + i, WORD) && free[..i] == IdsFrom(n, i)
      {
        free[i] := maxTasks;
        assert free[..i + 1] == free[..i] + [free[i]];
        IdsFromStep(n, i);
        maxTasks := Wrap(maxTasks + 1, WORD);
      }
    }

    /** `__init_setting`: the free list of a new pool. */
    method InitSetting(s: Setting) returns (free: array<nat>)
      requires Valid()
      modifies this
      ensures Valid() && list == old(list) + [s]
      ensures fresh(free) && free[..] == FreeList(list, |old(list)|)
    {
      free := NewIds(s.count);
      var bytes := Product(s.stack, s.count);
      WrapAdd(Bytes(list), bytes, SIZE);
      maxBytes := Wrap(maxBytes + bytes, SIZE);
      list := list + [s];
      assert list[..|list| - 1] == old(list);
    }

    /** The layout loops of `__init`. */
    method Init() returns (slots: array<Slot>)
      requires Valid() && Ids(list) < WORD
      ensures slots[..] == Slots(list)
    {
      slots := new Slot[maxTasks](_ => Slot(0, 0, 0));
      var id, mem := 0, 0;
      for k := 0 to |list|
        invariant id == Ids(list[..k]) && mem == Bytes(list[..k])
        invariant id <= slots.Length && slots[..id] == Slots(list[..k])
      {
        IdsGrow(list, k + 1);
        assert list[..k + 1][..k] == list[..k];
        id, mem := Fill(slots, id, mem, list[k]);
      }
      assert list[..|list|] == list;
    }

    /** The slots of one pool. */
    method Fill(slots: array<Slot>, id: nat, mem: nat, s: Setting) returns (id': nat, mem': nat)
      requires id + s.count <= slots.Length
      modifies slots
      ensures id' == id + s.count && mem' == mem + Span(s.stack, s.count)
      ensures slots[..id'] == old(slots[..id]) + Row(s, mem, s.count)
    {
      id', mem' := id, mem;
      for i := 0 to s.count
        invariant id' == id + i && mem' == mem + Span(s.stack, i)
        invariant slots[..id'] == old(slots[..id]) + Row(s, mem, i)
      {
        slots[id'] := Slot(mem', s.stack, s.guard);
        assert slots[..id' + 1] == slots[..id'] + [slots[id']];
        id' := id' + 1;
        mem' := mem' + s.stack;
      }
    }
  }

  lemma {:induction false} IdsGrow(ss: seq<Setting>, k: nat)
    requires k <= |ss|
    ensures Ids(ss[..k]) <= Ids(ss)
    decreases |ss|
  {
    if k == |ss| {
      assert ss[..k] == ss;
    } else {
      IdsGrow(ss[..|ss| - 1], k);
      assert ss[..|ss| - 1][..k] == ss[..k];
    }
  }

  /** From `at` to `end` without a gap. */
  ghost predicate Contiguous(slots: seq<Slot>, at: nat, end: nat) {
    if slots == [] then at == end
    else slots[0].at == at && Contiguous(slots[1..], slots[0].End(), end)
  }

  lemma {:induction false} ContiguousAppend(a: seq<Slot>, b: seq<Slot>, at: nat, mid: nat, end: nat)
    requires Contiguous(a, at, mid) && Contiguous(b, mid, end)
    ensures Contiguous(a + b, at, end)
  {
    if a == [] {
      assert a + b == b;
    } else {
      ContiguousAppend(a[1..], b, a[0].End(), mid, end);
      assert (a + b)[1..] == a[1..] + b;
    }
  }

  lemma {:induction false} RowContiguous(s: Setting, at: nat, n: nat)
    ensures Contiguous(Row(s, at, n), at, at + Span(s.stack, n))
  {
    if n > 0 {
      RowContiguous(s, at, n - 1);
      var mid := at + Span(s.stack, n - 1);
      var last := [Slot(mid, s.stack, s.guard)];
      assert last[1..] == [] && Contiguous(last, mid, mid + s.stack);
      ContiguousAppend(Row(s, at, n - 1), last, at, mid, mid + s.stack);
    }
  }

  /** Slots follow each other without a gap and end at the total. */
  lemma {:induction false} SlotsContiguous(ss: seq<Setting>)
    ensures |Slots(ss)| == Ids(ss) && Contiguous(Slots(ss), 0, Bytes(ss))
  {
    if ss != [] {
      var fore, s := ss[..|ss| - 1], ss[|ss| - 1];
      SlotsContiguous(fore);
      RowContiguous(s, Bytes(fore), s.count);
      ContiguousAppend(Slots(fore), Row(s, Bytes(fore), s.count), 0, Bytes(fore), Bytes(ss));
    }
  }

  /** The slot of an id is that of its pool. */
  lemma {:induction false} SlotOfPool(ss: seq<Setting>, p: nat, i: nat)
    requires p < |ss| && i < ss[p].count
    ensures Ids(ss[..p]) + i < |Slots(ss)|
    ensures Slots(ss)[Ids(ss[..p]) + i].size == ss[p].stack && Slots(ss)[Ids(ss[..p]) + i].guard == ss[p].guard
    decreases |ss|
  {
    var fore := ss[..|ss| - 1];
    SlotsContiguous(ss);
    SlotsContiguous(fore);
    if p < |ss| - 1 {
      SlotOfPool(fore, p, i);
      assert fore[..p] == ss[..p];
    }
  }

  lemma IdsFromRange(first: nat, n: nat, id: nat)
    requires first + n < WORD
    ensures id in IdsFrom(first, n) <==> first <= id < first + n
  {
    var ids := IdsFrom(first, n);
    forall i | 0 <= i < n ensures ids[i] == first + i {
      assert ids[i] == Wrap(first + i, WORD);
    }
    if first <= id < first + n {
      assert ids[id - first] == id;
    }
  }

  lemma FreeListRange(ss: seq<Setting>, p: nat, id: nat)
    requires p < |ss| && Ids(ss) < WORD
    ensures id in FreeList(ss, p) <==> Ids(ss[..p]) <= id < Ids(ss[..p + 1])
    ensures Ids(ss[..p + 1]) == Ids(ss[..p]) + ss[p].count <= Ids(ss)
  {
    IdsGrow(ss, p + 1);
    assert ss[..p + 1][..p] == ss[..p];
    IdsFromRange(Ids(ss[..p]), ss[p].count, id);
  }

  /** No id is in two free lists. */
  lemma RangesApart(ss: seq<Setting>, p: nat, q: nat, id: nat)
    requires p < q < |ss| && Ids(ss) < WORD
    ensures !(id in FreeList(ss, p) && id in FreeList(ss, q))
  {
    FreeListRange(ss, p, id);
    FreeListRange(ss, q, id);
    IdsGrow(ss[..q], p + 1);
    assert ss[..q][..p + 1] == ss[..p + 1];
  }

  lemma SlotOfId(ss: seq<Setting>, p: nat, id: nat)
    requires p < |ss| && Ids(ss) < WORD && id in FreeList(ss, p)
    ensures id < |Slots(ss)| && Slots(ss)[id].size == ss[p].stack && Slots(ss)[id].guard == ss[p].guard
  {
    FreeListRange(ss, p, id);
    SlotOfPool(ss, p, id - Ids(ss[..p]));
  }

  /** Each slot has the size of its id's pool, with the guard inside. */
  ghost predicate SizesAgree(ss: seq<Setting>) {
    forall p, id | 0 <= p < |ss| && id in FreeList(ss, p) ::
      id < |Slots(ss)| && Slots(ss)[id].size == ss[p].stack && Slots(ss)[id].guard == ss[p].guard <= Slots(ss)[id].size
  }

  /** The free lists are apart. */
  ghost predicate IdsApart(ss: seq<Setting>) {
    forall p, q, id | 0 <= p < q < |ss| && id in FreeList(ss, p) :: id !in FreeList(ss, q)
  }

  lemma SizesDoAgree(ss: seq<Setting>)
    requires Ids(ss) < WORD
    ensures SizesAgree(ss)
  {
    forall p, id: nat | 0 <= p < |ss| && id in FreeList(ss, p)
      ensures id < |Slots(ss)| && Slots(ss)[id].size == ss[p].stack && Slots(ss)[id].guard == ss[p].guard
    {
      SlotOfId(ss, p, id);
    }
  }

  lemma IdsAreApart(ss: seq<Setting>)
    requires Ids(ss) < WORD
    ensures IdsApart(ss)
  {
    forall p, q, id: nat | 0 <= p < q < |ss| && id in FreeList(ss, p) ensures id !in FreeList(ss, q) {
      RangesApart(ss, p, q, id);
    }
  }

  /** No two slots overlap. */
  ghost predicate SlotsApart(slots: seq<Slot>) {
    forall k, l | 0 <= k < l < |slots| :: slots[k].End() <= slots[l].at
  }

  lemma {:induction false} ContiguousApart(slots: seq<Slot>, at: nat, end: nat)
    requires Contiguous(slots, at, end)
    ensures SlotsApart(slots) && (forall k | 0 <= k < |slots| :: at <= slots[k].at)
    ensures if slots == [] then at == end else slots[|slots| - 1].End() == end
  {
    if slots != [] {
      var rest := slots[1..];
      ContiguousApart(rest, slots[0].End(), end);
      assert forall k | 1 <= k < |slots| :: slots[k] == rest[k - 1];
    }
  }

  lemma {:induction false} SpanGrows(a: nat, b: nat, n: nat)
    requires a <= b
    ensures Span(a, n) <= Span(b, n)
  {
    if n > 0 {
      SpanGrows(a, b, n - 1);
    }
  }

  lemma {:induction false} SpanAdds(a: nat, n: nat, m: nat)
    ensures Span(a, n + m) == Span(a, n) + Span(a, m)
  {
    if m > 0 {
      SpanAdds(a, n, m - 1);
    }
  }

  lemma {:induction false} BytesBounded(ss: seq<Setting>)
    ensures Bytes(ss) <= Span(WORD - 1, Ids(ss))
  {
    if ss != [] {
      var fore, s := ss[..|ss| - 1], ss[|ss| - 1];
      BytesBounded(fore);
      SpanGrows(s.stack, WORD - 1, s.count);
      SpanAdds(WORD - 1, Ids(fore), s.count);
    }
  }

  /** As many ids as there can be never need more than a `size_t` counts. */
  lemma TotalFits(ss: seq<Setting>)
    requires Ids(ss) < WORD
    ensures Bytes(ss) < SIZE
  {
    BytesBounded(ss);
    SpanIs(WORD - 1, Ids(ss));
    SpanIs(WORD - 1, WORD - 1);
    SpanAdds(WORD - 1, Ids(ss), WORD - 1 - Ids(ss));
  }

  /**
   MAIN RESULT. Whatever pools were set up, as long as all ids differ from the event
   loop's: no id is in two free lists; the stack built for an id has the size and the guard
   of the pool whose free list holds it, with the guard inside; no two stacks overlap; and
   the last one ends exactly at the allocated total, which does not wrap.
   */
  lemma LayoutAgrees(ss: seq<Setting>)
    requires Ids(ss) < WORD
    ensures |Slots(ss)| == Ids(ss) && SizesAgree(ss) && IdsApart(ss) && SlotsApart(Slots(ss))
    ensures Slots(ss) != [] ==> Slots(ss)[|Slots(ss)| - 1].End() == Wrap(Bytes(ss), SIZE)
  {
    TotalFits(ss);
    SizesDoAgree(ss);
    IdsAreApart(ss);
    SlotsContiguous(ss);
    ContiguousApart(Slots(ss), 0, Bytes(ss));
  }
}
