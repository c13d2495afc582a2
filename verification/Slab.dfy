/** The slab allocator of the DRAM tier: size classes with free lists, and the byte ranges of
    their slots. */
module Slab {
  import opened Common

  datatype SizeClass = SizeClass(slotSize: nat, numSlots: nat, base: nat, free: seq<nat>)

  datatype Handle = Handle(cls: nat, slot: nat)

  // ---- Well-formed allocators ----

  predicate NoDup(q: seq<nat>) {
    forall i, j :: 0 <= i < j < |q| ==> q[i] != q[j]
  }

  predicate AllBelow(q: seq<nat>, n: nat) {
    forall i :: 0 <= i < |q| ==> q[i] < n
  }

  predicate ClassOk(c: SizeClass) {
    c.slotSize > 0 && c.numSlots > 0 && NoDup(c.free) && AllBelow(c.free, c.numSlots)
  }

  function RegionSize(c: SizeClass): nat {
    c.slotSize * c.numSlots
  }

  predicate Disjoint(a: SizeClass, b: SizeClass) {
    a.base + RegionSize(a) <= b.base || b.base + RegionSize(b) <= a.base
  }

  predicate OkAt(cs: seq<SizeClass>, i: nat) {
    i < |cs| && ClassOk(cs[i])
  }

  /** Two classes have regions of their own, and come in ascending order of slot size. */
  predicate PairOk(cs: seq<SizeClass>, i: nat, j: nat) {
    i < |cs| && j < |cs| && Disjoint(cs[i], cs[j]) && cs[i].slotSize <= cs[j].slotSize
  }

  predicate AllOk(cs: seq<SizeClass>) {
    forall i: nat :: i < |cs| ==> OkAt(cs, i)
  }

  predicate WellFormed(cs: seq<SizeClass>) {
    AllOk(cs) && forall i: nat, j: nat :: i < j < |cs| ==> PairOk(cs, i, j)
  }

  predicate Ascending(cs: seq<SizeClass>) {
    forall i, j :: 0 <= i < j < |cs| ==> cs[i].slotSize <= cs[j].slotSize
  }

  lemma SizesAscend(cs: seq<SizeClass>)
    requires WellFormed(cs)
    ensures Ascending(cs)
  {
    forall i, j | 0 <= i < j < |cs| ensures cs[i].slotSize <= cs[j].slotSize {
      assert PairOk(cs, i, j);
    }
  }

  predicate Exists(cs: seq<SizeClass>, h: Handle) {
    h.cls < |cs| && h.slot < cs[h.cls].numSlots
  }

  /** The slot is handed out: it is not on its class's free list. */
  predicate Live(cs: seq<SizeClass>, h: Handle) {
    Exists(cs, h) && h.slot !in cs[h.cls].free
  }

  function Ptr(cs: seq<SizeClass>, h: Handle): nat
    requires h.cls < |cs|
  {
    cs[h.cls].base + h.slot * cs[h.cls].slotSize
  }

  // ---- Pointers and slots ----

  lemma SlotInside(size: nat, slots: nat, slot: nat)
    requires slot < slots
    ensures slot * size + size <= size * slots
  {
    assert (slot + 1) * size <= slots * size;
  }

  lemma SlotsApart(size: nat, a: nat, b: nat)
    requires a < b
    ensures a * size + size <= b * size
  {
    assert (a + 1) * size <= b * size;
  }

  lemma SlotOfOffset(size: nat, slot: nat, into: nat)
    requires into < size
    ensures (slot * size + into) / size == slot
  {
    var q := (slot * size + into) / size;
    var r := (slot * size + into) % size;
    assert q * size + r == slot * size + into;
    if q < slot {
      SlotsApart(size, q, slot);
    } else if q > slot {
      SlotsApart(size, slot, q);
    }
  }

  /** Every slot lies inside its class's region. */
  lemma PtrInRegion(cs: seq<SizeClass>, h: Handle)
    requires Exists(cs, h)
    ensures cs[h.cls].base <= Ptr(cs, h)
    ensures Ptr(cs, h) + cs[h.cls].slotSize <= cs[h.cls].base + RegionSize(cs[h.cls])
  {
    SlotInside(cs[h.cls].slotSize, cs[h.cls].numSlots, h.slot);
  }

  /** Distinct slots have disjoint byte ranges. */
  lemma RangesDisjoint(cs: seq<SizeClass>, a: Handle, b: Handle)
    requires WellFormed(cs) && Exists(cs, a) && Exists(cs, b) && a != b
    ensures Ptr(cs, a) + cs[a.cls].slotSize <= Ptr(cs, b) || Ptr(cs, b) + cs[b.cls].slotSize <= Ptr(cs, a)
  {
    if a.cls == b.cls {
      SlotsApart(cs[a.cls].slotSize, if a.slot < b.slot then a.slot else b.slot, if a.slot < b.slot then b.slot else a.slot);
    } else {
      PtrInRegion(cs, a);
      PtrInRegion(cs, b);
      assert a.cls < b.cls ==> PairOk(cs, a.cls, b.cls);
      assert b.cls < a.cls ==> PairOk(cs, b.cls, a.cls);
    }
  }

  predicate InRegion(c: SizeClass, p: nat) {
    c.base <= p < c.base + RegionSize(c)
  }

  lemma MulLess(q: nat, slots: nat, size: nat)
    requires q * size < size * slots
    ensures q < slots
  {
  }

  lemma OffsetInRange(size: nat, slots: nat, off: nat)
    requires size > 0 && off < size * slots
    ensures off / size < slots
  {
    assert off / size * size <= off;
    MulLess(off / size, slots, size);
  }

  /** The slot a pointer falls into: the first class whose region holds it. */
  function SlotOf(cs: seq<SizeClass>, p: nat, from: nat): (h: Option<Handle>)
    requires AllOk(cs) && from <= |cs|
    ensures h.Some? ==> Exists(cs, h.value) && from <= h.value.cls && InRegion(cs[h.value.cls], p)
    decreases |cs| - from
  {
    if from == |cs| then None
    else if InRegion(cs[from], p) then
      assert OkAt(cs, from);
      OffsetInRange(cs[from].slotSize, cs[from].numSlots, p - cs[from].base);
      Some(Handle(from, (p - cs[from].base) / cs[from].slotSize))
    else SlotOf(cs, p, from + 1)
  }

  /** A pointer into a slot, its first byte or any other, leads back to exactly that slot. */
  lemma {:induction false} SlotOfPtr(cs: seq<SizeClass>, h: Handle, into: nat, from: nat)
    requires WellFormed(cs) && Exists(cs, h) && into < cs[h.cls].slotSize && from <= h.cls
    ensures SlotOf(cs, Ptr(cs, h) + into, from) == Some(h)
    decreases |cs| - from
  {
    var p := Ptr(cs, h) + into;
    PtrInRegion(cs, h);
    if from == h.cls {
      SlotOfOffset(cs[from].slotSize, h.slot, into);
      assert p - cs[from].base == h.slot * cs[from].slotSize + into;
    } else {
      assert PairOk(cs, from, h.cls);
      SlotOfPtr(cs, h, into, from + 1);
    }
  }

  // ---- Bytes in use ----

  lemma FirstBelow(q: seq<nat>, n: nat)
    requires AllBelow(q, n) && |q| > 0
    ensures n > 0
  {
    assert q[0] < n;
  }

  /** A free list never holds more slots than the class has. */
  lemma {:induction false} FreeFits(q: seq<nat>, n: nat)
    requires NoDup(q) && AllBelow(q, n)
    ensures |q| <= n
    decreases n
  {
    if n == 0 {
      if |q| > 0 { FirstBelow(q, n); }
    } else if n - 1 in q {
      var i :| 0 <= i < |q| && q[i] == n - 1;
      var r := q[..i] + q[i + 1..];
      assert forall j :: 0 <= j < |r| ==> r[j] == if j < i then q[j] else q[j + 1];
      FreeFits(r, n - 1);
    } else {
      FreeFits(q, n - 1);
    }
  }

  function ClassUsed(c: SizeClass): (r: nat)
    requires ClassOk(c)
    ensures r + |c.free| * c.slotSize == RegionSize(c)
  {
    FreeFits(c.free, c.numSlots);
    UsedPlusFree(c.numSlots, |c.free|, c.slotSize);
    (c.numSlots - |c.free|) * c.slotSize
  }

  lemma UsedPlusFree(slots: nat, free: nat, size: nat)
    requires free <= slots
    ensures (slots - free) * size >= 0 && (slots - free) * size + free * size == size * slots
  {
  }

  lemma FrontOk(cs: seq<SizeClass>)
    requires AllOk(cs) && |cs| > 0
    ensures AllOk(cs[..|cs| - 1]) && ClassOk(cs[|cs| - 1])
  {
    assert OkAt(cs, |cs| - 1);
    var front := cs[..|cs| - 1];
    forall i: nat | i < |front| ensures OkAt(front, i) {
      assert OkAt(cs, i);
    }
  }

  function Used(cs: seq<SizeClass>): nat
    requires AllOk(cs)
  {
    if cs == [] then 0
    else
      FrontOk(cs);
      Used(cs[..|cs| - 1]) + ClassUsed(cs[|cs| - 1])
  }

  function FreeBytes(cs: seq<SizeClass>): nat {
    if cs == [] then 0 else FreeBytes(cs[..|cs| - 1]) + |cs[|cs| - 1].free| * cs[|cs| - 1].slotSize
  }

  function Capacity(cs: seq<SizeClass>): nat {
    if cs == [] then 0 else Capacity(cs[..|cs| - 1]) + RegionSize(cs[|cs| - 1])
  }

  /** Bytes in use and bytes free always add up to the capacity. */
  lemma {:induction false} UsedAndFree(cs: seq<SizeClass>)
    requires AllOk(cs)
    ensures Used(cs) + FreeBytes(cs) == Capacity(cs)
  {
    if cs != [] {
      FrontOk(cs);
      UsedAndFree(cs[..|cs| - 1]);
    }
  }

  lemma {:induction false} UsedUpdate(cs: seq<SizeClass>, i: nat, c: SizeClass)
    requires AllOk(cs) && i < |cs| && ClassOk(cs[i]) && ClassOk(c)
    ensures AllOk(cs[i := c]) && Used(cs[i := c]) == Used(cs) - ClassUsed(cs[i]) + ClassUsed(c)
  {
    var n := |cs| - 1;
    var ds := cs[i := c];
    FrontOk(cs);
    forall j: nat | j < |ds| ensures OkAt(ds, j) {
      assert OkAt(cs, j);
    }
    if i < n {
      assert ds[..n] == cs[..n][i := c];
      UsedUpdate(cs[..n], i, c);
    } else {
      assert ds[..n] == cs[..n];
    }
  }

  /** A class none of whose slots is live has no bytes in use. */
  lemma NoneLiveClass(c: SizeClass)
    requires ClassOk(c) && forall s :: 0 <= s < c.numSlots ==> s in c.free
    ensures ClassUsed(c) == 0
  {
    FreeFits(c.free, c.numSlots);
    FreeCovers(c.free, c.numSlots);
    assert c.numSlots - |c.free| == 0;
  }

  lemma {:induction false} FreeCovers(q: seq<nat>, n: nat)
    requires NoDup(q) && forall s :: 0 <= s < n ==> s in q
    ensures |q| >= n
    decreases n
  {
    if n > 0 {
      assert n - 1 in q;
      var i :| 0 <= i < |q| && q[i] == n - 1;
      var r := q[..i] + q[i + 1..];
      assert forall j :: 0 <= j < |r| ==> r[j] == if j < i then q[j] else q[j + 1];
      forall s | 0 <= s < n - 1 ensures s in r {
        assert s in q;
        var j :| 0 <= j < |q| && q[j] == s;
        assert r[if j < i then j else j - 1] == s;
      }
      FreeCovers(r, n - 1);
    }
  }

  /** With no slot live, no byte is in use. */
  lemma {:induction false} NoneLive(cs: seq<SizeClass>)
    requires AllOk(cs) && forall h :: !Live(cs, h)
    ensures Used(cs) == 0
  {
    if cs != [] {
      var n := |cs| - 1;
      FrontOk(cs);
      forall h ensures !Live(cs[..n], h) {
        assert !Live(cs, h);
      }
      NoneLive(cs[..n]);
      forall s | 0 <= s < cs[n].numSlots ensures s in cs[n].free {
        assert !Live(cs, Handle(n, s));
      }
      NoneLiveClass(cs[n]);
    }
  }

  // ---- Allocation and release ----

  /** The first class, in ascending order of slot size, that fits and has a free slot. */
  function Choice(cs: seq<SizeClass>, size: nat, from: nat): (r: Option<nat>)
    requires from <= |cs|
    ensures r.Some? ==> from <= r.value < |cs| && cs[r.value].slotSize >= size && |cs[r.value].free| > 0
    decreases |cs| - from
  {
    if from == |cs| then None
    else if cs[from].slotSize >= size && |cs[from].free| > 0 then Some(from)
    else Choice(cs, size, from + 1)
  }

  function Take(cs: seq<SizeClass>, i: nat): seq<SizeClass>
    requires i < |cs| && |cs[i].free| > 0
  {
    cs[i := cs[i].(free := cs[i].free[..|cs[i].free| - 1])]
  }

  function TopSlot(cs: seq<SizeClass>, i: nat): nat
    requires i < |cs| && |cs[i].free| > 0
  {
    cs[i].free[|cs[i].free| - 1]
  }

  function Release(cs: seq<SizeClass>, h: Handle): seq<SizeClass>
    requires h.cls < |cs|
  {
    cs[h.cls := cs[h.cls].(free := cs[h.cls].free + [h.slot])]
  }

  /** The class chosen is the smallest that fits among those with a free slot; none is chosen
      only when no class that fits has one. */
  lemma {:induction false} ChoiceIsSmallest(cs: seq<SizeClass>, size: nat, from: nat, j: nat)
    requires from <= j < |cs| && cs[j].slotSize >= size && |cs[j].free| > 0 && WellFormed(cs)
    ensures Choice(cs, size, from).Some? && cs[Choice(cs, size, from).value].slotSize <= cs[j].slotSize
    decreases |cs| - from
  {
    SizesAscend(cs);
    if !(cs[from].slotSize >= size && |cs[from].free| > 0) {
      ChoiceIsSmallest(cs, size, from + 1, j);
    }
  }

  lemma SameShape(cs: seq<SizeClass>, i: nat, free: seq<nat>)
    requires WellFormed(cs) && i < |cs| && NoDup(free) && AllBelow(free, cs[i].numSlots)
    ensures WellFormed(cs[i := cs[i].(free := free)])
  {
    var ds := cs[i := cs[i].(free := free)];
    assert OkAt(cs, i);
    forall a: nat | a < |ds| ensures OkAt(ds, a) {
      assert OkAt(cs, a);
    }
    forall a: nat, b: nat | a < b < |ds| ensures PairOk(ds, a, b) {
      assert PairOk(cs, a, b);
    }
  }

  lemma TopApart(free: seq<nat>)
    requires NoDup(free) && |free| > 0
    ensures var n := |free| - 1;
            free == free[..n] + [free[n]] && free[n] !in free[..n] && forall s :: s in free <==> s == free[n] || s in free[..n]
  {
    var n := |free| - 1;
    assert free == free[..n] + [free[n]];
  }

  /** Taking a slot makes exactly that slot live; every other slot is as it was. */
  lemma TakeEffect(cs: seq<SizeClass>, i: nat)
    requires WellFormed(cs) && i < |cs| && |cs[i].free| > 0
    ensures var h := Handle(i, TopSlot(cs, i));
            && WellFormed(Take(cs, i)) && Exists(cs, h) && !Live(cs, h)
            && (forall g :: Live(Take(cs, i), g) <==> g == h || Live(cs, g))
            && Used(Take(cs, i)) == Used(cs) + cs[i].slotSize
  {
    assert OkAt(cs, i);
    var free := cs[i].free;
    var rest := free[..|free| - 1];
    TopApart(free);
    SameShape(cs, i, rest);
    UsedUpdate(cs, i, cs[i].(free := rest));
    OneSlot(|rest|, cs[i].slotSize);
  }

  lemma OneSlot(n: nat, size: nat)
    ensures (n + 1) * size == n * size + size
  {
  }

  /** Releasing a live slot makes exactly that slot free again. */
  lemma ReleaseEffect(cs: seq<SizeClass>, h: Handle)
    requires WellFormed(cs) && Live(cs, h)
    ensures WellFormed(Release(cs, h))
    ensures forall g :: Live(Release(cs, h), g) <==> g != h && Live(cs, g)
    ensures Used(Release(cs, h)) == Used(cs) - cs[h.cls].slotSize
  {
    assert OkAt(cs, h.cls);
    var free := cs[h.cls].free;
    SameShape(cs, h.cls, free + [h.slot]);
    UsedUpdate(cs, h.cls, cs[h.cls].(free := free + [h.slot]));
    OneSlot(|free|, cs[h.cls].slotSize);
  }

  /** A release keeps the allocator well formed exactly when the slot is live: a second free of
      the same slot puts it on the free list twice. */
  lemma ReleaseSafeExactly(cs: seq<SizeClass>, h: Handle)
    requires WellFormed(cs) && Exists(cs, h)
    ensures WellFormed(Release(cs, h)) <==> Live(cs, h)
  {
    if Live(cs, h) {
      ReleaseEffect(cs, h);
    } else {
      var free := cs[h.cls].free;
      var i :| 0 <= i < |free| && free[i] == h.slot;
      var r := Release(cs, h)[h.cls].free;
      assert r[i] == r[|free|];
      assert !OkAt(Release(cs, h), h.cls);
    }
  }

  /** Allocate, then free: the slot is free again, and no other slot has changed. */
  lemma TakeReleaseRoundTrip(cs: seq<SizeClass>, i: nat)
    requires WellFormed(cs) && i < |cs| && |cs[i].free| > 0
    ensures var h := Handle(i, TopSlot(cs, i));
            h.cls < |Take(cs, i)| && Release(Take(cs, i), h) == cs
  {
    var free := cs[i].free;
    assert free == free[..|free| - 1] + [TopSlot(cs, i)];
    assert Release(Take(cs, i), Handle(i, TopSlot(cs, i)))[i] == cs[i];
    assert Release(Take(cs, i), Handle(i, TopSlot(cs, i))) == cs;
  }

  // ---- Whole runs ----

  datatype SlabOp = Request(size: nat) | GiveBack(handle: Handle)

  function Step(cs: seq<SizeClass>, op: SlabOp): seq<SizeClass>
    requires op.GiveBack? ==> Live(cs, op.handle)
  {
    match op
    case Request(size) => (match Choice(cs, size, 0) case Some(i) => Take(cs, i) case None => cs)
    case GiveBack(h) => Release(cs, h)
  }

  /** Every release of the run is of a slot that is live at that moment. */
  predicate Legal(cs: seq<SizeClass>, ops: seq<SlabOp>)
    decreases |ops|
  {
    ops == [] || ((ops[0].GiveBack? ==> Live(cs, ops[0].handle)) && Legal(Step(cs, ops[0]), ops[1..]))
  }

  function Run(cs: seq<SizeClass>, ops: seq<SlabOp>): seq<SizeClass>
    requires Legal(cs, ops)
    decreases |ops|
  {
    if ops == [] then cs else Run(Step(cs, ops[0]), ops[1..])
  }

  lemma StepKeeps(cs: seq<SizeClass>, op: SlabOp)
    requires WellFormed(cs) && (op.GiveBack? ==> Live(cs, op.handle))
    ensures WellFormed(Step(cs, op)) && Capacity(Step(cs, op)) == Capacity(cs)
  {
    match op
    case Request(size) =>
      if Choice(cs, size, 0).Some? {
        var i := Choice(cs, size, 0).value;
        TakeEffect(cs, i);
        TakeCapacity(cs, i, cs[i].free[..|cs[i].free| - 1]);
      }
    case GiveBack(h) =>
      ReleaseEffect(cs, h);
      TakeCapacity(cs, h.cls, cs[h.cls].free + [h.slot]);
  }

  /** Over any run whose releases are of live slots, live slots keep disjoint byte ranges, and
      bytes in use and bytes free add up to the capacity the allocator started with. */
  lemma {:induction false} RunIsSafe(cs: seq<SizeClass>, ops: seq<SlabOp>)
    requires WellFormed(cs) && Legal(cs, ops)
    ensures var ds := Run(cs, ops);
            && WellFormed(ds) && Used(ds) + FreeBytes(ds) == Capacity(cs)
            && forall a, b :: Live(ds, a) && Live(ds, b) && a != b ==>
                 Ptr(ds, a) + ds[a.cls].slotSize <= Ptr(ds, b) || Ptr(ds, b) + ds[b.cls].slotSize <= Ptr(ds, a)
    decreases |ops|
  {
    if ops == [] {
      UsedAndFree(cs);
      forall a, b | Live(cs, a) && Live(cs, b) && a != b
        ensures Ptr(cs, a) + cs[a.cls].slotSize <= Ptr(cs, b) || Ptr(cs, b) + cs[b.cls].slotSize <= Ptr(cs, a)
      {
        RangesDisjoint(cs, a, b);
      }
    } else {
      StepKeeps(cs, ops[0]);
      RunIsSafe(Step(cs, ops[0]), ops[1..]);
    }
  }

  // ---- The layout an allocator starts with ----

  /** Ascending order, by insertion. */
  function Insert(x: nat, q: seq<nat>): (r: seq<nat>)
    ensures |r| == |q| + 1
  {
    if q == [] then [x] else if x <= q[0] then [x] + q else [q[0]] + Insert(x, q[1..])
  }

  function Sort(q: seq<nat>): (r: seq<nat>)
    ensures |r| == |q|
  {
    if q == [] then [] else Insert(q[0], Sort(q[1..]))
  }

  lemma {:induction false} InsertKeeps(x: nat, q: seq<nat>)
    ensures multiset(Insert(x, q)) == multiset{x} + multiset(q)
  {
    if q != [] && x > q[0] {
      InsertKeeps(x, q[1..]);
      assert q == [q[0]] + q[1..];
    }
  }

  lemma InsertBounded(x: nat, q: seq<nat>, low: nat)
    requires low <= x && forall i :: 0 <= i < |q| ==> low <= q[i]
    ensures forall i :: 0 <= i < |q| + 1 ==> low <= Insert(x, q)[i]
  {
    InsertKeeps(x, q);
    var r := Insert(x, q);
    forall i | 0 <= i < |r| ensures low <= r[i] {
      assert r[i] in multiset(r);
      assert r[i] == x || r[i] in q;
    }
  }

  lemma {:induction false} InsertSorts(x: nat, q: seq<nat>)
    requires SortedSizes(q)
    ensures SortedSizes(Insert(x, q))
  {
    if q != [] && x > q[0] {
      InsertSorts(x, q[1..]);
      InsertBounded(x, q[1..], q[0]);
    }
  }

  /** Sorting keeps the sizes and puts them in ascending order. */
  lemma {:induction false} Sorts(q: seq<nat>)
    ensures SortedSizes(Sort(q)) && multiset(Sort(q)) == multiset(q)
  {
    if q != [] {
      Sorts(q[1..]);
      InsertSorts(q[0], Sort(q[1..]));
      InsertKeeps(q[0], Sort(q[1..]));
      assert q == [q[0]] + q[1..];
    }
  }

  lemma SortPositive(q: seq<nat>)
    requires forall i :: 0 <= i < |q| ==> q[i] > 0
    ensures forall i :: 0 <= i < |q| ==> Sort(q)[i] > 0
  {
    Sorts(q);
    forall i | 0 <= i < |q| ensures Sort(q)[i] > 0 {
      assert Sort(q)[i] in multiset(Sort(q));
      assert Sort(q)[i] in multiset(q);
    }
  }

  predicate SortedSizes(q: seq<nat>) {
    forall i, j :: 0 <= i < j < |q| ==> q[i] <= q[j]
  }

  function Iota(n: nat): (r: seq<nat>)
    ensures |r| == n && NoDup(r) && AllBelow(r, n) && forall i :: 0 <= i < n ==> r[i] == i
  {
    seq(n, i => i)
  }

  /** The slots a class gets out of its share of the budget: as many as fit, but at least one. */
  function SlotCount(share: nat, slotSize: nat): (r: nat)
    ensures if 0 < slotSize <= share then r * slotSize <= share < (r + 1) * slotSize else r == 1
    ensures r > 0
  {
    if slotSize == 0 then 1
    else
      SlotsInShare(share, slotSize);
      if share / slotSize == 0 then 1 else share / slotSize
  }

  lemma SlotsInShare(share: nat, slotSize: nat)
    requires slotSize > 0
    ensures (share / slotSize) * slotSize <= share < (share / slotSize + 1) * slotSize
    ensures share / slotSize > 0 <==> slotSize <= share
  {
    var q := share / slotSize;
    assert share == q * slotSize + share % slotSize;
    assert (q + 1) * slotSize == q * slotSize + slotSize;
    if q > 0 { assert q * slotSize >= slotSize; }
  }

  function FreshClass(share: nat, slotSize: nat, base: nat): (c: SizeClass)
    ensures slotSize > 0 ==> ClassOk(c) && ClassUsed(c) == 0
  {
    var n := SlotCount(share, slotSize);
    FreeFits(Iota(n), n);
    SizeClass(slotSize, n, base, Iota(n))
  }

  function FreshClasses(share: nat, sizes: seq<nat>, bases: seq<nat>): (r: seq<SizeClass>)
    requires |bases| == |sizes|
    ensures |r| == |sizes| && forall i :: 0 <= i < |r| ==> r[i] == FreshClass(share, sizes[i], bases[i])
  {
    seq(|sizes|, i requires 0 <= i < |sizes| => FreshClass(share, sizes[i], bases[i]))
  }

  /** A class that has just got its share: less than one slot of it is wasted, unless not even one
      fits, and every slot is free. */
  predicate Shares(c: SizeClass, slotSize: nat, share: nat) {
    && c.slotSize == slotSize && |c.free| == c.numSlots
    && if slotSize <= share then c.numSlots * slotSize <= share < (c.numSlots + 1) * slotSize else c.numSlots == 1
  }

  function Sum(q: seq<nat>): nat {
    if q == [] then 0 else Sum(q[..|q| - 1]) + q[|q| - 1]
  }

  lemma {:induction false} SumAppend(a: seq<nat>, b: seq<nat>)
    ensures Sum(a + b) == Sum(a) + Sum(b)
  {
    if b == [] {
      assert a + b == a;
    } else {
      SumAppend(a, b[..|b| - 1]);
      assert (a + b)[..|a + b| - 1] == a + b[..|b| - 1];
    }
  }

  lemma SumCons(x: nat, q: seq<nat>)
    ensures Sum([x] + q) == x + Sum(q)
  {
    SumAppend([x], q);
    assert Sum([x]) == x;
  }

  lemma {:induction false} SumInsert(x: nat, q: seq<nat>)
    ensures Sum(Insert(x, q)) == x + Sum(q)
  {
    SumCons(x, q);
    if q != [] && x > q[0] {
      SumInsert(x, q[1..]);
      SumCons(q[0], Insert(x, q[1..]));
      SumCons(q[0], q[1..]);
      assert [q[0]] + q[1..] == q;
    }
  }

  lemma {:induction false} SumSort(q: seq<nat>)
    ensures Sum(Sort(q)) == Sum(q)
  {
    if q != [] {
      SumSort(q[1..]);
      SumInsert(q[0], Sort(q[1..]));
      SumCons(q[0], q[1..]);
      assert [q[0]] + q[1..] == q;
    }
  }

  /** Shares of `share` bytes for so many classes. */
  function Budget(share: nat, n: nat): nat {
    if n == 0 then 0 else Budget(share, n - 1) + share
  }

  lemma {:induction false} BudgetIs(share: nat, n: nat)
    ensures Budget(share, n) == share * n
  {
    if n > 0 {
      BudgetIs(share, n - 1);
      assert share * n == share * (n - 1) + share;
    }
  }

  lemma ShareBound(share: nat, size: nat, r: nat)
    requires size > 0 && if size <= share then r * size <= share < (r + 1) * size else r == 1
    ensures share - size <= size * r <= share + size
  {
    assert (r + 1) * size == size * r + size;
  }

  lemma FreshRegion(share: nat, size: nat, base: nat)
    requires size > 0
    ensures share - size <= RegionSize(FreshClass(share, size, base)) <= share + size
  {
    ShareBound(share, size, SlotCount(share, size));
  }

  /** The capacity is the budget, up to one slot of each class. */
  lemma {:induction false} FreshCapacity(share: nat, sizes: seq<nat>, bases: seq<nat>)
    requires |bases| == |sizes| && forall i :: 0 <= i < |sizes| ==> sizes[i] > 0
    ensures var total := Capacity(FreshClasses(share, sizes, bases));
            Budget(share, |sizes|) - Sum(sizes) <= total <= Budget(share, |sizes|) + Sum(sizes)
  {
    if sizes != [] {
      var n := |sizes| - 1;
      FreshCapacity(share, sizes[..n], bases[..n]);
      var cs, last := FreshClasses(share, sizes, bases), FreshClass(share, sizes[n], bases[n]);
      assert cs == FreshClasses(share, sizes[..n], bases[..n]) + [last];
      CapacityAppend(FreshClasses(share, sizes[..n], bases[..n]), last);
      FreshRegion(share, sizes[n], bases[n]);
    }
  }

  lemma EvenShares(budget: nat, n: nat)
    requires n > 0
    ensures Budget(budget / n, n) <= budget < Budget(budget / n, n) + n
  {
    BudgetIs(budget / n, n);
    assert budget == (budget / n) * n + budget % n;
  }

  /** The capacity of an allocator, against the budget it was given. */
  lemma BudgetSpent(budget: nat, share: nat, sizes: seq<nat>, bases: seq<nat>)
    requires |bases| == |sizes| && forall i :: 0 <= i < |sizes| ==> sizes[i] > 0
    requires Budget(share, |sizes|) <= budget < Budget(share, |sizes|) + |sizes|
    ensures Spends(Capacity(FreshClasses(share, Sort(sizes), bases)), budget, sizes)
  {
    SortPositive(sizes);
    SumSort(sizes);
    FreshCapacity(share, Sort(sizes), bases);
  }

  lemma FreshShares(share: nat, sizes: seq<nat>, bases: seq<nat>, i: nat)
    requires |bases| == |sizes| && i < |sizes| && sizes[i] > 0
    ensures Shares(FreshClasses(share, sizes, bases)[i], sizes[i], share)
  {
  }

  predicate AllShare(cs: seq<SizeClass>, sizes: seq<nat>, share: nat) {
    |cs| == |sizes| && forall i :: 0 <= i < |cs| ==> Shares(cs[i], sizes[i], share)
  }

  /** `total` is the budget, up to a slot of each class and the bytes that the division leaves. */
  predicate Spends(total: nat, budget: nat, sizes: seq<nat>) {
    total <= budget + Sum(sizes) && budget < total + Sum(sizes) + |sizes|
  }

  lemma NewAllocator(share: nat, sizes: seq<nat>, bases: seq<nat>)
    requires |bases| == |sizes| && forall i :: 0 <= i < |sizes| ==> sizes[i] > 0
    ensures AllShare(FreshClasses(share, Sort(sizes), bases), Sort(sizes), share)
  {
    SortPositive(sizes);
    forall i | 0 <= i < |sizes| ensures Shares(FreshClasses(share, Sort(sizes), bases)[i], Sort(sizes)[i], share) {
      FreshShares(share, Sort(sizes), bases, i);
    }
  }

  // ---- How many requests are granted ----

  function Vacant(c: SizeClass, size: nat): nat {
    if c.slotSize >= size then |c.free| else 0
  }

  /** The free slots of the classes that fit a request. */
  function Fitting(cs: seq<SizeClass>, size: nat): nat {
    if cs == [] then 0 else Fitting(cs[..|cs| - 1], size) + Vacant(cs[|cs| - 1], size)
  }

  /** How many of `n` requests of one size are granted, one after the other. */
  function Grants(cs: seq<SizeClass>, size: nat, n: nat): nat
    decreases n
  {
    if n == 0 then 0
    else match Choice(cs, size, 0)
      case Some(i) => 1 + Grants(Take(cs, i), size, n - 1)
      case None => Grants(cs, size, n - 1)
  }

  lemma {:induction false} FittingUpdate(cs: seq<SizeClass>, i: nat, c: SizeClass, size: nat)
    requires i < |cs|
    ensures Fitting(cs[i := c], size) + Vacant(cs[i], size) == Fitting(cs, size) + Vacant(c, size)
  {
    var n := |cs| - 1;
    var ds := cs[i := c];
    if i < n {
      FittingUpdate(cs[..n], i, c, size);
      assert ds[..n] == cs[..n][i := c];
    } else {
      assert ds[..n] == cs[..n];
    }
  }

  lemma {:induction false} NoneFits(cs: seq<SizeClass>, size: nat)
    requires forall i :: 0 <= i < |cs| ==> Vacant(cs[i], size) == 0
    ensures Fitting(cs, size) == 0
  {
    if cs != [] {
      NoneFits(cs[..|cs| - 1], size);
    }
  }

  lemma ChoiceFits(cs: seq<SizeClass>, size: nat)
    ensures match Choice(cs, size, 0)
            case Some(i) => Fitting(cs, size) == Fitting(Take(cs, i), size) + 1
            case None => Fitting(cs, size) == 0
  {
    match Choice(cs, size, 0)
    case Some(i) =>
      FittingUpdate(cs, i, Take(cs, i)[i], size);
      assert Take(cs, i) == cs[i := Take(cs, i)[i]];
    case None =>
      forall i | 0 <= i < |cs| ensures Vacant(cs[i], size) == 0 {
        NoneChosen(cs, size, 0, i);
      }
      NoneFits(cs, size);
  }

  lemma {:induction false} NoneChosen(cs: seq<SizeClass>, size: nat, from: nat, j: nat)
    requires from <= j < |cs| && Choice(cs, size, from) == None
    ensures Vacant(cs[j], size) == 0
    decreases |cs| - from
  {
    if from < j {
      NoneChosen(cs, size, from + 1, j);
    }
  }

  /** Requests of one size are granted until every slot that fits is taken, and then no more. */
  lemma {:induction false} GrantsExactly(cs: seq<SizeClass>, size: nat, n: nat)
    ensures Grants(cs, size, n) == if n <= Fitting(cs, size) then n else Fitting(cs, size)
    decreases n
  {
    if n > 0 {
      ChoiceFits(cs, size);
      match Choice(cs, size, 0)
      case Some(i) => GrantsExactly(Take(cs, i), size, n - 1);
      case None => GrantsExactly(cs, size, n - 1);
    }
  }

  /** The regions the system hands out for the classes are apart from one another. */
  predicate Granted(cs: seq<SizeClass>) {
    forall i, j :: 0 <= i < j < |cs| ==> Disjoint(cs[i], cs[j])
  }

  lemma FreshWellFormed(share: nat, sizes: seq<nat>, bases: seq<nat>)
    requires |bases| == |sizes| && SortedSizes(sizes) && forall i :: 0 <= i < |sizes| ==> sizes[i] > 0
    requires Granted(FreshClasses(share, sizes, bases))
    ensures WellFormed(FreshClasses(share, sizes, bases))
    ensures forall h :: !Live(FreshClasses(share, sizes, bases), h)
  {
    var cs := FreshClasses(share, sizes, bases);
    forall i: nat, j: nat | i < j < |cs| ensures PairOk(cs, i, j) {
      assert sizes[i] <= sizes[j];
    }
    forall h ensures !Live(cs, h) {
      if Exists(cs, h) {
        assert cs[h.cls].free[h.slot] == h.slot;
      }
    }
  }

  /** Every slot of a fresh allocator is free, and no byte is in use. */
  lemma FreshIsIdle(share: nat, sizes: seq<nat>, bases: seq<nat>)
    requires |bases| == |sizes| && forall i :: 0 <= i < |sizes| ==> sizes[i] > 0
    requires Granted(FreshClasses(share, Sort(sizes), bases))
    ensures var cs := FreshClasses(share, Sort(sizes), bases); WellFormed(cs) && Used(cs) == 0 && forall h :: !Live(cs, h)
  {
    Sorts(sizes);
    SortPositive(sizes);
    FreshWellFormed(share, Sort(sizes), bases);
    NoneLive(FreshClasses(share, Sort(sizes), bases));
  }

  lemma CapacityAppend(cs: seq<SizeClass>, c: SizeClass)
    ensures Capacity(cs + [c]) == Capacity(cs) + RegionSize(c)
  {
    assert (cs + [c])[..|cs|] == cs;
  }

  lemma PrefixOk(cs: seq<SizeClass>, n: nat)
    requires AllOk(cs) && n <= |cs|
    ensures AllOk(cs[..n])
  {
    var front := cs[..n];
    forall i: nat | i < n ensures OkAt(front, i) {
      assert OkAt(cs, i);
    }
  }

  lemma AppendUsed(cs: seq<SizeClass>, c: SizeClass)
    requires AllOk(cs) && ClassOk(c)
    ensures AllOk(cs + [c]) && Used(cs + [c]) == Used(cs) + ClassUsed(c)
  {
    var ds := cs + [c];
    assert ds[..|cs|] == cs;
    forall i: nat | i < |ds| ensures OkAt(ds, i) {
      assert i < |cs| ==> OkAt(cs, i);
    }
  }

  class SlabAllocator {
    var classes: seq<SizeClass>
    var totalBytes: nat

    ghost predicate Valid()
      reads this
    {
      WellFormed(classes) && totalBytes == Capacity(classes)
    }

    /** Equal shares of the budget for the sorted sizes; every slot starts free. */
    constructor (sizeBytes: nat, sizes: seq<nat>, bases: seq<nat>)
      requires |sizes| > 0 && |bases| == |sizes| && forall i :: 0 <= i < |sizes| ==> sizes[i] > 0
      requires Granted(FreshClasses(sizeBytes / |sizes|, Sort(sizes), bases))
      ensures Valid() && classes == FreshClasses(sizeBytes / |sizes|, Sort(sizes), bases)
      ensures Used(classes) == 0 && forall h :: !Live(classes, h)
      ensures AllShare(classes, Sort(sizes), sizeBytes / |sizes|) && Spends(totalBytes, sizeBytes, sizes)
    {
      var sorted := Sort(sizes);
      var share := sizeBytes / |sizes|;
      NewAllocator(share, sizes, bases);
      EvenShares(sizeBytes, |sizes|);
      BudgetSpent(sizeBytes, share, sizes, bases);
      FreshIsIdle(share, sizes, bases);
      ghost var goal := FreshClasses(share, sorted, bases);
      var cs: seq<SizeClass> := [];
      var total := 0;
      for i := 0 to |sorted|
        invariant cs == goal[..i] && total == Capacity(cs)
      {
        var c := FreshClass(share, sorted[i], bases[i]);
        CapacityAppend(cs, c);
        assert goal[..i + 1] == goal[..i] + [goal[i]];
        cs := cs + [c];
        total := total + c.slotSize * c.numSlots;
      }
      assert goal[..|sorted|] == goal;
      classes := cs;
      totalBytes := total;
    }

    method Allocate(size: nat) returns (handle: Option<Handle>, ptr: nat)
      requires Valid()
      modifies this
      ensures Valid() && totalBytes == old(totalBytes)
      ensures handle.None? ==> classes == old(classes) && Choice(classes, size, 0) == None
      ensures handle.Some? ==>
                var i := handle.value.cls;
                && Choice(old(classes), size, 0) == Some(i) && handle == Some(Handle(i, TopSlot(old(classes), i)))
                && classes == Take(old(classes), i) && ptr == Ptr(classes, handle.value)
                && !Live(old(classes), handle.value) && Live(classes, handle.value)
    {
      for i := 0 to |classes|
        invariant classes == old(classes) && totalBytes == old(totalBytes)
        invariant Choice(classes, size, i) == Choice(classes, size, 0)
      {
        if classes[i].slotSize >= size {
          if |classes[i].free| > 0 {
            var slot;
            slot, ptr := PopFree(i);
            return Some(Handle(i, slot)), ptr;
          }
        }
      }
      return None, 0;
    }

    /** The back of a class's free list, and the address of that slot. */
    method PopFree(i: nat) returns (slot: nat, ptr: nat)
      requires Valid() && i < |classes| && |classes[i].free| > 0
      modifies this
      ensures Valid() && totalBytes == old(totalBytes) && slot == TopSlot(old(classes), i) && classes == Take(old(classes), i)
      ensures ptr == Ptr(classes, Handle(i, slot)) && !Live(old(classes), Handle(i, slot)) && Live(classes, Handle(i, slot))
    {
      TakeEffect(classes, i);
      TakeCapacity(classes, i, classes[i].free[..|classes[i].free| - 1]);
      slot := classes[i].free[|classes[i].free| - 1];
      ptr := classes[i].base + slot * classes[i].slotSize;
      classes := classes[i := classes[i].(free := classes[i].free[..|classes[i].free| - 1])];
    }

    /** No check is made that the slot is live: it must be for the allocator to stay valid. */
    method Free(h: Handle)
      requires Valid() && Exists(classes, h)
      modifies this
      ensures totalBytes == old(totalBytes) && classes == Release(old(classes), h)
      ensures Valid() <==> Live(old(classes), h)
    {
      ReleaseSafeExactly(classes, h);
      TakeCapacity(classes, h.cls, classes[h.cls].free + [h.slot]);
      classes := classes[h.cls := classes[h.cls].(free := classes[h.cls].free + [h.slot])];
    }

    /** The pointer may lead anywhere into the slot, and nowhere at all. The allocator stays valid
        exactly if the slot was live: otherwise it is on its free list twice. */
    method FreeByPtr(p: nat)
      requires Valid()
      modifies this
      ensures totalBytes == old(totalBytes)
      ensures Valid() <==> (old(SlotOf(classes, p, 0)).Some? ==> old(Live(classes, SlotOf(classes, p, 0).value)))
      ensures classes == match SlotOf(old(classes), p, 0)
                         case Some(h) => Release(old(classes), h)
                         case None => old(classes)
    {
      for i := 0 to |classes|
        invariant Valid() && classes == old(classes) && totalBytes == old(totalBytes)
        invariant SlotOf(classes, p, i) == SlotOf(classes, p, 0)
      {
        if classes[i].base <= p < classes[i].base + classes[i].slotSize * classes[i].numSlots {
          Free(Handle(i, (p - classes[i].base) / classes[i].slotSize));
          return;
        }
      }
    }

    /** The invalid handle has no pointer. */
    method GetPtr(handle: Option<Handle>) returns (p: Option<nat>)
      requires Valid() && (handle.Some? ==> Exists(classes, handle.value))
      ensures p.None? <==> handle.None?
      ensures p.Some? ==> p.value == Ptr(classes, handle.value) && SlotOf(classes, p.value, 0) == handle
    {
      if handle.None? {
        return None;
      }
      var h := handle.value;
      p := Some(classes[h.cls].base + h.slot * classes[h.cls].slotSize);
      assert OkAt(classes, h.cls);
      SlotOfPtr(classes, h, 0, 0);
    }

    /** The smallest slot size that fits, zero if none does. */
    method SlotSizeFor(size: nat) returns (r: nat)
      requires Valid()
      ensures r == 0 ==> forall i :: 0 <= i < |classes| ==> classes[i].slotSize < size
      ensures r > 0 ==> r >= size && (exists i :: 0 <= i < |classes| && classes[i].slotSize == r)
                        && forall i :: 0 <= i < |classes| && classes[i].slotSize >= size ==> r <= classes[i].slotSize
    {
      SizesAscend(classes);
      for i := 0 to |classes|
        invariant forall j :: 0 <= j < i ==> classes[j].slotSize < size
      {
        if classes[i].slotSize >= size {
          assert OkAt(classes, i);
          return classes[i].slotSize;
        }
      }
      return 0;
    }

    method UsedBytes() returns (total: nat)
      requires Valid()
      ensures total == Used(classes) && total + FreeBytes(classes) == totalBytes
    {
      total := 0;
      for i := 0 to |classes|
        invariant AllOk(classes[..i]) && total == Used(classes[..i])
      {
        var c := classes[i];
        assert OkAt(classes, i);
        PrefixOk(classes, i);
        AppendUsed(classes[..i], c);
        assert classes[..i + 1] == classes[..i] + [c];
        FreeFits(c.free, c.numSlots);
        total := total + (c.numSlots - |c.free|) * c.slotSize;
      }
      assert classes[..|classes|] == classes;
      UsedAndFree(classes);
    }
  }

  lemma {:induction false} TakeCapacity(cs: seq<SizeClass>, i: nat, free: seq<nat>)
    requires i < |cs|
    ensures Capacity(cs[i := cs[i].(free := free)]) == Capacity(cs)
  {
    var n := |cs| - 1;
    var ds := cs[i := cs[i].(free := free)];
    if i < n {
      assert ds[..n] == cs[..n][i := cs[i].(free := free)];
      TakeCapacity(cs[..n], i, free);
    } else {
      assert ds[..n] == cs[..n];
    }
  }
}
