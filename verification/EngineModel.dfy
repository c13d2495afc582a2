/** What the engine's parts say together: each key of the index names a live DRAM slot or a
    record of the blob store that holds exactly its bytes. */
module EngineModel {
  import opened Common
  import opened Segment
  import opened Checkpoint
  import B = BlobProtocol
  import Crc32c
  import Slab
  import Snapshots

  type Contents = map<StorageKey, Bytes>

  /** The values of the engine's parts. `contents` is what each key of the index stands for;
      `owner` and `place` say in which slot, or under which record, its bytes are kept. */
  datatype View = View(
    index: Index, contents: Contents,
    classes: seq<Slab.SizeClass>, dram: Bytes, owner: map<StorageKey, Slab.Handle>, tracked: set<StorageKey>,
    log: seq<B.Rec>, dead: set<nat>, place: map<StorageKey, nat>)

  // ---- One key ----

  predicate InDram(index: Index, k: StorageKey) {
    k in index && index[k].tier == TIER_DRAM
  }

  predicate InNvme(index: Index, k: StorageKey) {
    k in index && index[k].tier == TIER_NVME
  }

  predicate DramOk(e: IndexEntry, blob: Bytes, classes: seq<Slab.SizeClass>, dram: Bytes, h: Slab.Handle) {
    && Slab.Live(classes, h) && e.address == Slab.Ptr(classes, h) && e.length == |blob|
    && |blob| <= classes[h.cls].slotSize && Holds(dram, e.address, blob)
  }

  function EntryLocation(e: IndexEntry): B.Location {
    B.Location(e.segmentId, e.address, e.length, EntryDiskSize(e.length))
  }

  predicate NvmeOk(e: IndexEntry, blob: Bytes, log: seq<B.Rec>, dead: set<nat>, i: nat) {
    i < |log| && i !in dead && log[i].loc == EntryLocation(e) && log[i].entry.blob == blob && e.length == |blob|
  }

  predicate DramKey(index: Index, contents: Contents, classes: seq<Slab.SizeClass>, dram: Bytes,
                    owner: map<StorageKey, Slab.Handle>, tracked: set<StorageKey>, k: StorageKey) {
    InDram(index, k) ==> k in contents && k in owner && k in tracked && DramOk(index[k], contents[k], classes, dram, owner[k])
  }

  predicate NvmeKey(index: Index, contents: Contents, log: seq<B.Rec>, dead: set<nat>, place: map<StorageKey, nat>, k: StorageKey) {
    InNvme(index, k) ==>
      k in contents && k in place && NvmeOk(index[k], contents[k], log, dead, place[k]) && log[place[k]].entry.key == k
  }

  predicate OwnSlot(index: Index, owner: map<StorageKey, Slab.Handle>, j: StorageKey, k: StorageKey) {
    InDram(index, j) && InDram(index, k) && j in owner && k in owner && j != k ==> owner[j] != owner[k]
  }

  predicate OwnPlace(index: Index, place: map<StorageKey, nat>, j: StorageKey, k: StorageKey) {
    InNvme(index, j) && InNvme(index, k) && j in place && k in place && j != k ==> place[j] != place[k]
  }

  predicate Tiered(index: Index, k: StorageKey) {
    k in index ==> InDram(index, k) || InNvme(index, k)
  }

  predicate AllTiered(index: Index) {
    forall k :: k in index ==> Tiered(index, k)
  }

  // ---- All keys ----

  predicate RegionAt(classes: seq<Slab.SizeClass>, size: nat, i: nat) {
    i < |classes| && classes[i].base + Slab.RegionSize(classes[i]) <= size
  }

  /** The regions of the allocator lie inside the memory. */
  predicate Mapped(classes: seq<Slab.SizeClass>, size: nat) {
    forall i: nat :: i < |classes| ==> RegionAt(classes, size, i)
  }

  ghost predicate DramSide(index: Index, contents: Contents, classes: seq<Slab.SizeClass>, dram: Bytes,
                           owner: map<StorageKey, Slab.Handle>, tracked: set<StorageKey>) {
    && Slab.WellFormed(classes) && Mapped(classes, |dram|)
    && (forall k :: DramKey(index, contents, classes, dram, owner, tracked, k))
    && (forall j, k :: OwnSlot(index, owner, j, k))
  }

  ghost predicate NvmeSide(index: Index, contents: Contents, log: seq<B.Rec>, dead: set<nat>, place: map<StorageKey, nat>) {
    && (forall d :: d in dead ==> d < |log|)
    && (forall k :: NvmeKey(index, contents, log, dead, place, k))
    && (forall j, k :: OwnPlace(index, place, j, k))
  }

  ghost predicate Consistent(v: View) {
    && v.contents.Keys == v.index.Keys && AllTiered(v.index)
    && DramSide(v.index, v.contents, v.classes, v.dram, v.owner, v.tracked)
    && NvmeSide(v.index, v.contents, v.log, v.dead, v.place)
  }

  // ---- A blob moves into a slot ----

  /** The bytes go into slot `h`, just taken from class `i`, and the index names them. */
  function StoredInDram(v: View, k: StorageKey, blob: Bytes, e: IndexEntry, i: nat): View
    requires i < |v.classes| && |v.classes[i].free| > 0
  {
    var h := Slab.Handle(i, Slab.TopSlot(v.classes, i));
    v.(index := v.index[k := e], contents := v.contents[k := blob], classes := Slab.Take(v.classes, i),
       dram := WriteAt(v.dram, Slab.Ptr(v.classes, h), blob), owner := v.owner[k := h], tracked := v.tracked + {k})
  }

  predicate FitsSlot(v: View, blob: Bytes, e: IndexEntry, i: nat) {
    && i < |v.classes| && |v.classes[i].free| > 0 && |blob| <= v.classes[i].slotSize
    && e.tier == TIER_DRAM && e.length == |blob|
    && e.address == Slab.Ptr(v.classes, Slab.Handle(i, Slab.TopSlot(v.classes, i)))
  }

  lemma TakeKeepsLayout(classes: seq<Slab.SizeClass>, size: nat, i: nat, free: seq<nat>)
    requires Mapped(classes, size) && i < |classes|
    ensures Mapped(classes[i := classes[i].(free := free)], size)
  {
    var ds := classes[i := classes[i].(free := free)];
    forall j: nat | j < |ds| ensures RegionAt(ds, size, j) {
      assert RegionAt(classes, size, j);
    }
  }

  lemma SlotMapped(classes: seq<Slab.SizeClass>, size: nat, h: Slab.Handle)
    requires Mapped(classes, size) && Slab.Exists(classes, h)
    ensures Slab.Ptr(classes, h) + classes[h.cls].slotSize <= size
  {
    assert RegionAt(classes, size, h.cls);
    Slab.PtrInRegion(classes, h);
  }

  /** Filling a slot that was free disturbs no other key's bytes. */
  lemma OtherSlotKept(classes: seq<Slab.SizeClass>, i: nat, dram: Bytes, blob: Bytes, e: IndexEntry, old_: Bytes, g: Slab.Handle)
    requires Slab.WellFormed(classes) && i < |classes| && |classes[i].free| > 0 && |blob| <= classes[i].slotSize
    requires DramOk(e, old_, classes, dram, g)
    ensures var h := Slab.Handle(i, Slab.TopSlot(classes, i));
            g != h && DramOk(e, old_, Slab.Take(classes, i), WriteAt(dram, Slab.Ptr(classes, h), blob), g)
  {
    var h := Slab.Handle(i, Slab.TopSlot(classes, i));
    Slab.TakeEffect(classes, i);
    Slab.RangesDisjoint(classes, g, h);
    WriteElsewhere(dram, Slab.Ptr(classes, h), blob, e.address, old_);
    assert Slab.Live(Slab.Take(classes, i), g);
  }

  lemma NewSlotHolds(classes: seq<Slab.SizeClass>, i: nat, dram: Bytes, blob: Bytes, e: IndexEntry)
    requires Slab.WellFormed(classes) && Mapped(classes, |dram|) && i < |classes| && |classes[i].free| > 0
    requires |blob| <= classes[i].slotSize && e.length == |blob|
    requires e.address == Slab.Ptr(classes, Slab.Handle(i, Slab.TopSlot(classes, i)))
    ensures var h := Slab.Handle(i, Slab.TopSlot(classes, i));
            DramOk(e, blob, Slab.Take(classes, i), WriteAt(dram, Slab.Ptr(classes, h), blob), h)
            && |WriteAt(dram, Slab.Ptr(classes, h), blob)| == |dram|
  {
    var h := Slab.Handle(i, Slab.TopSlot(classes, i));
    Slab.TakeEffect(classes, i);
    SlotMapped(classes, |dram|, h);
    assert Slab.Live(Slab.Take(classes, i), h);
  }

  lemma StoreDramSide(v: View, k: StorageKey, blob: Bytes, e: IndexEntry, i: nat)
    requires Consistent(v) && FitsSlot(v, blob, e, i)
    ensures var w := StoredInDram(v, k, blob, e, i); DramSide(w.index, w.contents, w.classes, w.dram, w.owner, w.tracked)
  {
    var w := StoredInDram(v, k, blob, e, i);
    Slab.TakeEffect(v.classes, i);
    NewSlotHolds(v.classes, i, v.dram, blob, e);
    TakeKeepsLayout(v.classes, |v.dram|, i, v.classes[i].free[..|v.classes[i].free| - 1]);
    var index, contents, classes, dram, owner, tracked := w.index, w.contents, w.classes, w.dram, w.owner, w.tracked;
    forall j ensures DramKey(index, contents, classes, dram, owner, tracked, j) && (j != k && InDram(index, j) ==> j in owner && owner[j] != owner[k]) {
      if j != k && InDram(index, j) {
        assert DramKey(v.index, v.contents, v.classes, v.dram, v.owner, v.tracked, j);
        OtherSlotKept(v.classes, i, v.dram, blob, v.index[j], v.contents[j], v.owner[j]);
      }
    }
    forall j, j' ensures OwnSlot(index, owner, j, j') {
      assert OwnSlot(v.index, v.owner, j, j');
    }
  }

  lemma StoreNvmeSide(v: View, k: StorageKey, blob: Bytes, e: IndexEntry)
    requires NvmeSide(v.index, v.contents, v.log, v.dead, v.place) && e.tier == TIER_DRAM
    ensures NvmeSide(v.index[k := e], v.contents[k := blob], v.log, v.dead, v.place)
  {
    var index, contents := v.index[k := e], v.contents[k := blob];
    forall j ensures NvmeKey(index, contents, v.log, v.dead, v.place, j) {
      assert NvmeKey(v.index, v.contents, v.log, v.dead, v.place, j);
    }
    forall j, j' ensures OwnPlace(index, v.place, j, j') {
      assert OwnPlace(v.index, v.place, j, j');
    }
  }

  lemma UpsertTiered(v: View, k: StorageKey, e: IndexEntry)
    requires Consistent(v) && (e.tier == TIER_DRAM || e.tier == TIER_NVME)
    ensures AllTiered(v.index[k := e])
  {
    var index := v.index[k := e];
    forall j | j in index ensures Tiered(index, j) {
      assert j in v.index ==> Tiered(v.index, j);
    }
  }

  /** A put into DRAM is a map update; every other key keeps its bytes. */
  lemma StoreInDramKeeps(v: View, k: StorageKey, blob: Bytes, e: IndexEntry, i: nat)
    requires Consistent(v) && FitsSlot(v, blob, e, i)
    ensures Consistent(StoredInDram(v, k, blob, e, i))
  {
    StoreDramSide(v, k, blob, e, i);
    StoreNvmeSide(v, k, blob, e);
    UpsertTiered(v, k, e);
  }

  // ---- A blob goes to the blob store ----

  /** The blob store has one more record, and the index names it. */
  function StoredInNvme(v: View, k: StorageKey, blob: Bytes, e: IndexEntry, log: seq<B.Rec>): View {
    v.(index := v.index[k := e], contents := v.contents[k := blob], log := log, place := v.place[k := |v.log|])
  }

  predicate Recorded(v: View, k: StorageKey, blob: Bytes, e: IndexEntry, log: seq<B.Rec>) {
    && |log| == |v.log| + 1 && log[..|v.log|] == v.log && log[|v.log|].entry.key == k
    && log[|v.log|].loc == EntryLocation(e) && log[|v.log|].entry.blob == blob
    && e.tier == TIER_NVME && e.length == |blob|
  }

  /** A put into the blob store is a map update too. */
  lemma StoreInNvmeKeeps(v: View, k: StorageKey, blob: Bytes, e: IndexEntry, log: seq<B.Rec>)
    requires Consistent(v) && Recorded(v, k, blob, e, log)
    ensures Consistent(StoredInNvme(v, k, blob, e, log))
  {
    var w := StoredInNvme(v, k, blob, e, log);
    var index, contents, place := w.index, w.contents, w.place;
    forall j ensures NvmeKey(index, contents, log, v.dead, place, j) && (j != k && InNvme(index, j) ==> j in place && place[j] < |v.log|) {
      assert NvmeKey(v.index, v.contents, v.log, v.dead, v.place, j);
      if j != k && InNvme(index, j) {
        assert log[..|v.log|][v.place[j]] == log[v.place[j]];
      }
    }
    forall j, j' ensures OwnPlace(index, place, j, j') {
      assert OwnPlace(v.index, v.place, j, j');
    }
    forall j ensures DramKey(index, contents, v.classes, v.dram, v.owner, v.tracked, j) {
      assert DramKey(v.index, v.contents, v.classes, v.dram, v.owner, v.tracked, j);
    }
    forall j, j' ensures OwnSlot(index, v.owner, j, j') {
      assert OwnSlot(v.index, v.owner, j, j');
    }
    UpsertTiered(v, k, e);
  }

  // ---- A key leaves ----

  function Without(v: View, k: StorageKey): View {
    v.(index := v.index - {k}, contents := v.contents - {k}, tracked := v.tracked - {k})
  }

  /** The key leaves, and its slot goes back on the free list. */
  function FreedFromDram(v: View, k: StorageKey): View
    requires k in v.owner && v.owner[k].cls < |v.classes|
  {
    Without(v, k).(classes := Slab.Release(v.classes, v.owner[k]))
  }

  /** The key leaves, and its record is dead. */
  function KilledInNvme(v: View, k: StorageKey): View
    requires k in v.place
  {
    Without(v, k).(dead := v.dead + {v.place[k]})
  }

  lemma ReleaseOther(classes: seq<Slab.SizeClass>, h: Slab.Handle, g: Slab.Handle, e: IndexEntry, blob: Bytes, dram: Bytes)
    requires Slab.WellFormed(classes) && Slab.Live(classes, h) && g != h && DramOk(e, blob, classes, dram, g)
    ensures DramOk(e, blob, Slab.Release(classes, h), dram, g)
  {
    Slab.ReleaseEffect(classes, h);
    assert Slab.Live(Slab.Release(classes, h), g);
  }

  lemma WithoutNvmeSide(v: View, k: StorageKey)
    requires NvmeSide(v.index, v.contents, v.log, v.dead, v.place)
    ensures NvmeSide(v.index - {k}, v.contents - {k}, v.log, v.dead, v.place)
  {
    var index, contents := v.index - {k}, v.contents - {k};
    forall j ensures NvmeKey(index, contents, v.log, v.dead, v.place, j) {
      assert NvmeKey(v.index, v.contents, v.log, v.dead, v.place, j);
    }
    forall j, j' ensures OwnPlace(index, v.place, j, j') {
      assert OwnPlace(v.index, v.place, j, j');
    }
  }

  lemma WithoutTiered(v: View, k: StorageKey)
    requires Consistent(v)
    ensures AllTiered(v.index - {k})
  {
    var index := v.index - {k};
    forall j | j in index ensures Tiered(index, j) {
      assert j in v.index ==> Tiered(v.index, j);
    }
  }

  /** Freeing the slot of a key that leaves disturbs no other key. */
  lemma FreeFromDramKeeps(v: View, k: StorageKey)
    requires Consistent(v) && InDram(v.index, k)
    ensures k in v.owner && Slab.Live(v.classes, v.owner[k]) && Consistent(FreedFromDram(v, k))
  {
    assert DramKey(v.index, v.contents, v.classes, v.dram, v.owner, v.tracked, k);
    var h := v.owner[k];
    var w := FreedFromDram(v, k);
    Slab.ReleaseEffect(v.classes, h);
    TakeKeepsLayout(v.classes, |v.dram|, h.cls, v.classes[h.cls].free + [h.slot]);
    WithoutNvmeSide(v, k);
    WithoutTiered(v, k);
    var index, contents, classes, tracked := w.index, w.contents, w.classes, w.tracked;
    forall j ensures DramKey(index, contents, classes, v.dram, v.owner, tracked, j) {
      if InDram(index, j) {
        assert DramKey(v.index, v.contents, v.classes, v.dram, v.owner, v.tracked, j) && OwnSlot(v.index, v.owner, j, k);
        ReleaseOther(v.classes, h, v.owner[j], v.index[j], v.contents[j], v.dram);
      }
    }
    forall j, j' ensures OwnSlot(index, v.owner, j, j') {
      assert OwnSlot(v.index, v.owner, j, j');
    }
  }

  lemma WithoutDramSide(v: View, k: StorageKey)
    requires Consistent(v) && !InDram(v.index, k)
    ensures DramSide(v.index - {k}, v.contents - {k}, v.classes, v.dram, v.owner, v.tracked - {k})
    ensures DramSide(v.index, v.contents, v.classes, v.dram, v.owner, v.tracked - {k})
  {
    var index, contents, tracked := v.index - {k}, v.contents - {k}, v.tracked - {k};
    forall j
      ensures DramKey(index, contents, v.classes, v.dram, v.owner, tracked, j)
      ensures DramKey(v.index, v.contents, v.classes, v.dram, v.owner, tracked, j)
    {
      assert DramKey(v.index, v.contents, v.classes, v.dram, v.owner, v.tracked, j);
    }
    forall j, j' ensures OwnSlot(index, v.owner, j, j') {
      assert OwnSlot(v.index, v.owner, j, j');
    }
  }

  /** Marking the record of a key that leaves as dead disturbs no other key. */
  lemma KillInNvmeKeeps(v: View, k: StorageKey)
    requires Consistent(v) && InNvme(v.index, k)
    ensures k in v.place && v.place[k] < |v.log| && v.place[k] !in v.dead && Consistent(KilledInNvme(v, k))
  {
    assert NvmeKey(v.index, v.contents, v.log, v.dead, v.place, k);
    WithoutDramSide(v, k);
    WithoutNvmeSide(v, k);
    WithoutTiered(v, k);
    var w := KilledInNvme(v, k);
    var index, contents, dead := w.index, w.contents, w.dead;
    forall j ensures NvmeKey(index, contents, v.log, dead, v.place, j) {
      assert NvmeKey(v.index, v.contents, v.log, v.dead, v.place, j) && OwnPlace(v.index, v.place, j, k);
    }
  }

  // ---- Eviction ----

  /** A victim that is not in DRAM any more is only forgotten. */
  function Forgotten(v: View, k: StorageKey): View {
    v.(tracked := v.tracked - {k})
  }

  lemma ForgetKeeps(v: View, k: StorageKey)
    requires Consistent(v) && !InDram(v.index, k)
    ensures Consistent(Forgotten(v, k))
  {
    WithoutDramSide(v, k);
  }

  /** The victim's bytes move to the blob store, and its slot is freed. */
  function Demoted(v: View, k: StorageKey, e: IndexEntry, log: seq<B.Rec>): View
    requires k in v.owner && v.owner[k].cls < |v.classes|
  {
    v.(index := v.index[k := e], log := log, place := v.place[k := |v.log|],
       classes := Slab.Release(v.classes, v.owner[k]), tracked := v.tracked - {k})
  }

  /** Demotion leaves what every key stands for as it was. */
  lemma DemoteKeeps(v: View, k: StorageKey, e: IndexEntry, log: seq<B.Rec>)
    requires Consistent(v) && InDram(v.index, k) && k in v.contents && Recorded(v, k, v.contents[k], e, log)
    ensures k in v.owner && Slab.Live(v.classes, v.owner[k])
    ensures Consistent(Demoted(v, k, e, log))
  {
    FreeFromDramKeeps(v, k);
    var w := FreedFromDram(v, k);
    StoreInNvmeKeeps(w, k, v.contents[k], e, log);
    var u := StoredInNvme(w, k, v.contents[k], e, log);
    assert (v.index - {k})[k := e] == v.index[k := e];
    assert (v.contents - {k})[k := v.contents[k]] == v.contents;
    assert u == Demoted(v, k, e, log);
  }

  // ---- Reading and touching ----

  /** The entry keeps its place; only its statistics change. */
  predicate SamePlace(e: IndexEntry, f: IndexEntry) {
    f.tier == e.tier && f.address == e.address && f.length == e.length && f.segmentId == e.segmentId
  }

  /** Nothing was recorded and nothing given up. */
  predicate SameRecords(v: View, w: View) {
    w.log == v.log && w.dead == v.dead
  }

  /** What a delete gives up: the key's own record if it has one, and no other. */
  predicate Marks(v: View, w: View, k: StorageKey) {
    && w.log == v.log
    && if InNvme(v.index, k)
       then k in v.place && v.place[k] < |v.log| && v.log[v.place[k]].entry.key == k && w.dead == v.dead + {v.place[k]}
       else w.dead == v.dead
  }

  /** The access time and the saturating access counter. */
  function TouchedEntry(e: IndexEntry, now: U48): (f: IndexEntry)
    ensures f == e.(lastAccess := f.lastAccess, accessCount := f.accessCount) && f.lastAccess == now
    ensures e.accessCount <= f.accessCount <= e.accessCount + 1 && (f.accessCount == e.accessCount <==> e.accessCount == 65535)
  {
    e.(lastAccess := now, accessCount := if e.accessCount < 0xFFFF then e.accessCount + 1 else e.accessCount)
  }

  function Touched(v: View, k: StorageKey, e: IndexEntry): View {
    v.(index := v.index[k := e])
  }

  lemma TouchKeeps(v: View, k: StorageKey, e: IndexEntry)
    requires Consistent(v) && k in v.index && SamePlace(v.index[k], e)
    ensures Consistent(Touched(v, k, e))
  {
    var index := v.index[k := e];
    assert Tiered(v.index, k);
    UpsertTiered(v, k, e);
    forall j ensures DramKey(index, v.contents, v.classes, v.dram, v.owner, v.tracked, j) {
      assert DramKey(v.index, v.contents, v.classes, v.dram, v.owner, v.tracked, j);
    }
    forall j, j' ensures OwnSlot(index, v.owner, j, j') {
      assert OwnSlot(v.index, v.owner, j, j');
    }
    forall j ensures NvmeKey(index, v.contents, v.log, v.dead, v.place, j) {
      assert NvmeKey(v.index, v.contents, v.log, v.dead, v.place, j);
    }
    forall j, j' ensures OwnPlace(index, v.place, j, j') {
      assert OwnPlace(v.index, v.place, j, j');
    }
  }

  /** The bytes a DRAM entry points at are the bytes the key stands for, and its pointer leads
      back to its slot. */
  lemma DramFacts(v: View, k: StorageKey)
    requires Consistent(v) && InDram(v.index, k)
    ensures k in v.contents && k in v.owner && k in v.tracked
    ensures var e := v.index[k];
            && Slab.Live(v.classes, v.owner[k]) && Slab.SlotOf(v.classes, e.address, 0) == Some(v.owner[k])
            && e.address + e.length <= |v.dram| && v.dram[e.address..e.address + e.length] == v.contents[k]
  {
    assert DramKey(v.index, v.contents, v.classes, v.dram, v.owner, v.tracked, k);
    var h := v.owner[k];
    assert Slab.OkAt(v.classes, h.cls);
    Slab.SlotOfPtr(v.classes, h, 0, 0);
  }

  lemma NvmeFacts(v: View, k: StorageKey)
    requires Consistent(v) && InNvme(v.index, k)
    ensures k in v.contents && k in v.place && v.place[k] < |v.log| && v.place[k] !in v.dead
    ensures v.log[v.place[k]].loc == EntryLocation(v.index[k]) && v.log[v.place[k]].entry.blob == v.contents[k]
    ensures v.log[v.place[k]].entry.key == k
  {
    assert NvmeKey(v.index, v.contents, v.log, v.dead, v.place, k);
  }

  // ---- Slots that no key owns ----

  predicate NotOwner(index: Index, owner: map<StorageKey, Slab.Handle>, k: StorageKey, h: Slab.Handle) {
    InDram(index, k) && k in owner ==> owner[k] != h
  }

  /** A slot that is handed out although no key of the index is kept in it. */
  ghost predicate Leaked(v: View, h: Slab.Handle) {
    Slab.Live(v.classes, h) && forall k :: NotOwner(v.index, v.owner, k, h)
  }

  /** What a put does to leaks: the slot of an overwritten DRAM entry is lost. */
  ghost predicate LosesOld(v: View, w: View, k: StorageKey, h: Slab.Handle) {
    Leaked(w, h) <==> Leaked(v, h) || (InDram(v.index, k) && k in v.owner && h == v.owner[k])
  }

  lemma StoreInDramLeaks(v: View, k: StorageKey, blob: Bytes, e: IndexEntry, i: nat, h: Slab.Handle)
    requires Consistent(v) && FitsSlot(v, blob, e, i)
    ensures LosesOld(v, StoredInDram(v, k, blob, e, i), k, h)
  {
    var w := StoredInDram(v, k, blob, e, i);
    Slab.TakeEffect(v.classes, i);
    assert DramKey(v.index, v.contents, v.classes, v.dram, v.owner, v.tracked, k);
    if Leaked(v, h) {
      forall j ensures NotOwner(w.index, w.owner, j, h) { assert NotOwner(v.index, v.owner, j, h); }
    }
    if Leaked(w, h) {
      assert NotOwner(w.index, w.owner, k, h);
      forall j | j != k ensures NotOwner(v.index, v.owner, j, h) { assert NotOwner(w.index, w.owner, j, h); }
    }
    if InDram(v.index, k) && h == v.owner[k] {
      forall j ensures NotOwner(w.index, w.owner, j, h) { assert OwnSlot(v.index, v.owner, j, k); }
    }
  }

  lemma StoreInNvmeLeaks(v: View, k: StorageKey, blob: Bytes, e: IndexEntry, log: seq<B.Rec>, h: Slab.Handle)
    requires Consistent(v) && Recorded(v, k, blob, e, log)
    ensures LosesOld(v, StoredInNvme(v, k, blob, e, log), k, h)
  {
    var w := StoredInNvme(v, k, blob, e, log);
    assert DramKey(v.index, v.contents, v.classes, v.dram, v.owner, v.tracked, k);
    if Leaked(v, h) {
      forall j ensures NotOwner(w.index, w.owner, j, h) { assert NotOwner(v.index, v.owner, j, h); }
    }
    if Leaked(w, h) {
      forall j | j != k ensures NotOwner(v.index, v.owner, j, h) { assert NotOwner(w.index, w.owner, j, h); }
    }
    if InDram(v.index, k) && h == v.owner[k] {
      forall j ensures NotOwner(w.index, w.owner, j, h) { assert OwnSlot(v.index, v.owner, j, k); }
    }
  }

  lemma FreeFromDramLeaks(v: View, k: StorageKey, h: Slab.Handle)
    requires Consistent(v) && InDram(v.index, k)
    ensures k in v.owner && v.owner[k].cls < |v.classes| && (Leaked(FreedFromDram(v, k), h) <==> Leaked(v, h))
  {
    assert DramKey(v.index, v.contents, v.classes, v.dram, v.owner, v.tracked, k);
    Slab.ReleaseEffect(v.classes, v.owner[k]);
    var w := FreedFromDram(v, k);
    if Leaked(v, h) {
      assert NotOwner(v.index, v.owner, k, h);
      forall j ensures NotOwner(w.index, w.owner, j, h) { assert NotOwner(v.index, v.owner, j, h); }
    }
    if Leaked(w, h) {
      forall j ensures NotOwner(v.index, v.owner, j, h) { assert NotOwner(w.index, w.owner, j, h); }
    }
  }

  lemma DemoteLeaks(v: View, k: StorageKey, e: IndexEntry, log: seq<B.Rec>, h: Slab.Handle)
    requires Consistent(v) && InDram(v.index, k) && k in v.contents && Recorded(v, k, v.contents[k], e, log)
    ensures k in v.owner && v.owner[k].cls < |v.classes| && (Leaked(Demoted(v, k, e, log), h) <==> Leaked(v, h))
  {
    FreeFromDramLeaks(v, k, h);
    FreeFromDramKeeps(v, k);
    var u, w := FreedFromDram(v, k), Demoted(v, k, e, log);
    if Leaked(u, h) {
      forall j ensures NotOwner(w.index, w.owner, j, h) { assert NotOwner(u.index, u.owner, j, h); }
    }
    if Leaked(w, h) {
      forall j ensures NotOwner(u.index, u.owner, j, h) { assert NotOwner(w.index, w.owner, j, h); }
    }
  }

  /** Views that agree on DRAM keys, owners and slots agree on leaks. */
  lemma SameLeaks(v: View, w: View, h: Slab.Handle)
    requires w.classes == v.classes && w.owner == v.owner && forall k :: InDram(w.index, k) <==> InDram(v.index, k)
    ensures Leaked(w, h) <==> Leaked(v, h)
  {
    if Leaked(v, h) {
      forall j ensures NotOwner(w.index, w.owner, j, h) { assert NotOwner(v.index, v.owner, j, h); }
    }
    if Leaked(w, h) {
      forall j ensures NotOwner(v.index, v.owner, j, h) { assert NotOwner(w.index, w.owner, j, h); }
    }
  }

  // ---- Records that no key names ----

  predicate NotPlaced(index: Index, place: map<StorageKey, nat>, k: StorageKey, i: nat) {
    InNvme(index, k) && k in place ==> place[k] != i
  }

  /** A record that counts as live although no key of the index is kept under it. */
  ghost predicate Orphan(v: View, i: nat) {
    i < |v.log| && i !in v.dead && forall k :: NotPlaced(v.index, v.place, k, i)
  }

  /** What a put does to them: the record of an overwritten blob-store entry is never marked dead. */
  ghost predicate LosesRecord(v: View, w: View, k: StorageKey, i: nat) {
    Orphan(w, i) <==> Orphan(v, i) || (InNvme(v.index, k) && k in v.place && i == v.place[k])
  }

  lemma StoreInDramOrphans(v: View, k: StorageKey, blob: Bytes, e: IndexEntry, i: nat, n: nat)
    requires Consistent(v) && FitsSlot(v, blob, e, i)
    ensures LosesRecord(v, StoredInDram(v, k, blob, e, i), k, n)
  {
    var w := StoredInDram(v, k, blob, e, i);
    assert NvmeKey(v.index, v.contents, v.log, v.dead, v.place, k);
    UpsertOrphans(v, w, k, n);
  }

  lemma StoreInNvmeOrphans(v: View, k: StorageKey, blob: Bytes, e: IndexEntry, log: seq<B.Rec>, n: nat)
    requires Consistent(v) && Recorded(v, k, blob, e, log)
    ensures LosesRecord(v, StoredInNvme(v, k, blob, e, log), k, n)
  {
    var w := StoredInNvme(v, k, blob, e, log);
    assert NvmeKey(v.index, v.contents, v.log, v.dead, v.place, k);
    if n == |v.log| {
      assert !NotPlaced(w.index, w.place, k, n);
    } else {
      UpsertOrphans(v, w, k, n);
    }
  }

  /** One key has a new entry, kept elsewhere than under record `n`. */
  lemma UpsertOrphans(v: View, w: View, k: StorageKey, n: nat)
    requires Consistent(v) && v.log <= w.log && w.dead == v.dead && (n < |w.log| ==> n < |v.log|)
    requires forall j :: j != k && InNvme(v.index, j) ==> InNvme(w.index, j) && (j in w.place <==> j in v.place) && (j in v.place ==> w.place[j] == v.place[j])
    requires forall j :: j != k && InNvme(w.index, j) ==> InNvme(v.index, j)
    requires NotPlaced(w.index, w.place, k, n)
    requires InNvme(v.index, k) && k in v.place ==> v.place[k] < |v.log| && v.place[k] !in v.dead
    ensures LosesRecord(v, w, k, n)
  {
    if Orphan(v, n) {
      forall j ensures NotPlaced(w.index, w.place, j, n) { assert NotPlaced(v.index, v.place, j, n); }
    }
    if Orphan(w, n) {
      forall j | j != k ensures NotPlaced(v.index, v.place, j, n) { assert NotPlaced(w.index, w.place, j, n); }
    }
    if InNvme(v.index, k) && k in v.place && n == v.place[k] {
      forall j ensures NotPlaced(w.index, w.place, j, n) { assert OwnPlace(v.index, v.place, j, k); }
    }
  }

  lemma DemoteOrphans(v: View, k: StorageKey, e: IndexEntry, log: seq<B.Rec>, n: nat)
    requires Consistent(v) && InDram(v.index, k) && k in v.contents && Recorded(v, k, v.contents[k], e, log)
    requires k in v.owner && v.owner[k].cls < |v.classes|
    ensures Orphan(Demoted(v, k, e, log), n) <==> Orphan(v, n)
  {
    var w := Demoted(v, k, e, log);
    if n == |v.log| {
      assert !NotPlaced(w.index, w.place, k, n);
    } else {
      UpsertOrphans(v, w, k, n);
    }
  }

  lemma KillOrphans(v: View, k: StorageKey, n: nat)
    requires Consistent(v) && InNvme(v.index, k) && k in v.place
    ensures Orphan(KilledInNvme(v, k), n) <==> Orphan(v, n)
  {
    var w := KilledInNvme(v, k);
    if Orphan(v, n) {
      assert NotPlaced(v.index, v.place, k, n);
      forall j ensures NotPlaced(w.index, w.place, j, n) { assert NotPlaced(v.index, v.place, j, n); }
    }
    if Orphan(w, n) {
      forall j ensures NotPlaced(v.index, v.place, j, n) { assert NotPlaced(w.index, w.place, j, n); }
    }
  }

  /** Views that agree on blob-store keys, places and records agree on orphans. */
  lemma SameOrphans(v: View, w: View, n: nat)
    requires w.log == v.log && w.dead == v.dead && w.place == v.place && forall k :: InNvme(w.index, k) <==> InNvme(v.index, k)
    ensures Orphan(w, n) <==> Orphan(v, n)
  {
    if Orphan(v, n) {
      forall j ensures NotPlaced(w.index, w.place, j, n) { assert NotPlaced(v.index, v.place, j, n); }
    }
    if Orphan(w, n) {
      forall j ensures NotPlaced(v.index, v.place, j, n) { assert NotPlaced(w.index, w.place, j, n); }
    }
  }

  /** With no key tracked, every slot still handed out is a leak; with none leaked, no byte of
      DRAM is in use. */
  lemma UntrackedIsIdle(v: View)
    requires Consistent(v) && v.tracked == {} && forall h :: !Leaked(v, h)
    ensures Slab.Used(v.classes) == 0
  {
    forall h ensures !Slab.Live(v.classes, h) {
      if Slab.Live(v.classes, h) {
        forall k ensures NotOwner(v.index, v.owner, k, h) {
          assert DramKey(v.index, v.contents, v.classes, v.dram, v.owner, v.tracked, k);
        }
        assert Leaked(v, h);
      }
    }
    Slab.NoneLive(v.classes);
  }

  // ---- Coherence, unfolded on demand ----

  ghost predicate ConsistentIf(v: View, asked: bool) {
    Consistent(v)
  }

  /** `Consistent`, behind a quantifier, so that a proof unfolds it only when it asks. */
  ghost predicate Coherent(v: View) {
    forall asked :: ConsistentIf(v, asked)
  }

  lemma CoherentStoreInDram(v: View, k: StorageKey, blob: Bytes, e: IndexEntry, i: nat)
    requires Coherent(v) && FitsSlot(v, blob, e, i)
    ensures Coherent(StoredInDram(v, k, blob, e, i))
    ensures forall h :: LosesOld(v, StoredInDram(v, k, blob, e, i), k, h)
    ensures forall n :: LosesRecord(v, StoredInDram(v, k, blob, e, i), k, n)
  {
    assert ConsistentIf(v, true);
    StoreInDramKeeps(v, k, blob, e, i);
    forall h ensures LosesOld(v, StoredInDram(v, k, blob, e, i), k, h) {
      StoreInDramLeaks(v, k, blob, e, i, h);
    }
    forall n ensures LosesRecord(v, StoredInDram(v, k, blob, e, i), k, n) {
      StoreInDramOrphans(v, k, blob, e, i, n);
    }
  }

  lemma CoherentStoreInNvme(v: View, k: StorageKey, blob: Bytes, e: IndexEntry, log: seq<B.Rec>)
    requires Coherent(v) && Recorded(v, k, blob, e, log)
    ensures Coherent(StoredInNvme(v, k, blob, e, log))
    ensures forall h :: LosesOld(v, StoredInNvme(v, k, blob, e, log), k, h)
    ensures forall n :: LosesRecord(v, StoredInNvme(v, k, blob, e, log), k, n)
  {
    assert ConsistentIf(v, true);
    StoreInNvmeKeeps(v, k, blob, e, log);
    forall h ensures LosesOld(v, StoredInNvme(v, k, blob, e, log), k, h) {
      StoreInNvmeLeaks(v, k, blob, e, log, h);
    }
    forall n ensures LosesRecord(v, StoredInNvme(v, k, blob, e, log), k, n) {
      StoreInNvmeOrphans(v, k, blob, e, log, n);
    }
  }

  ghost predicate SameLeakAt(v: View, w: View, h: Slab.Handle) {
    Leaked(w, h) <==> Leaked(v, h)
  }

  ghost predicate SameOrphanAt(v: View, w: View, n: nat) {
    Orphan(w, n) <==> Orphan(v, n)
  }

  /** No slot has been leaked or recovered, and no record orphaned or found again. */
  ghost predicate LeaksAsBefore(v: View, w: View) {
    (forall h :: SameLeakAt(v, w, h)) && forall n :: SameOrphanAt(v, w, n)
  }

  lemma CoherentFree(v: View, k: StorageKey)
    requires Coherent(v) && InDram(v.index, k)
    ensures k in v.owner && Slab.Live(v.classes, v.owner[k])
    ensures Coherent(FreedFromDram(v, k)) && LeaksAsBefore(v, FreedFromDram(v, k))
  {
    assert ConsistentIf(v, true);
    FreeFromDramKeeps(v, k);
    forall h ensures SameLeakAt(v, FreedFromDram(v, k), h) {
      FreeFromDramLeaks(v, k, h);
    }
    forall n ensures SameOrphanAt(v, FreedFromDram(v, k), n) {
      SameOrphans(v, FreedFromDram(v, k), n);
    }
  }

  lemma CoherentKill(v: View, k: StorageKey)
    requires Coherent(v) && InNvme(v.index, k)
    ensures k in v.place && v.place[k] < |v.log| && v.place[k] !in v.dead
    ensures Coherent(KilledInNvme(v, k)) && LeaksAsBefore(v, KilledInNvme(v, k))
  {
    assert ConsistentIf(v, true);
    KillInNvmeKeeps(v, k);
    forall h ensures SameLeakAt(v, KilledInNvme(v, k), h) {
      SameLeaks(v, KilledInNvme(v, k), h);
    }
    forall n ensures SameOrphanAt(v, KilledInNvme(v, k), n) {
      KillOrphans(v, k, n);
    }
  }

  lemma CoherentForget(v: View, k: StorageKey)
    requires Coherent(v) && !InDram(v.index, k)
    ensures Coherent(Forgotten(v, k)) && LeaksAsBefore(v, Forgotten(v, k))
  {
    assert ConsistentIf(v, true);
    ForgetKeeps(v, k);
    forall h ensures SameLeakAt(v, Forgotten(v, k), h) {
      SameLeaks(v, Forgotten(v, k), h);
    }
    forall n ensures SameOrphanAt(v, Forgotten(v, k), n) {
      SameOrphans(v, Forgotten(v, k), n);
    }
  }

  lemma CoherentDemote(v: View, k: StorageKey, e: IndexEntry, log: seq<B.Rec>)
    requires Coherent(v) && InDram(v.index, k) && k in v.contents && Recorded(v, k, v.contents[k], e, log)
    ensures k in v.owner && Slab.Live(v.classes, v.owner[k])
    ensures Coherent(Demoted(v, k, e, log)) && LeaksAsBefore(v, Demoted(v, k, e, log))
  {
    assert ConsistentIf(v, true);
    DemoteKeeps(v, k, e, log);
    forall h ensures SameLeakAt(v, Demoted(v, k, e, log), h) {
      DemoteLeaks(v, k, e, log, h);
    }
    forall n ensures SameOrphanAt(v, Demoted(v, k, e, log), n) {
      DemoteOrphans(v, k, e, log, n);
    }
  }

  lemma CoherentTouch(v: View, k: StorageKey, e: IndexEntry)
    requires Coherent(v) && k in v.index && SamePlace(v.index[k], e)
    ensures Coherent(Touched(v, k, e)) && LeaksAsBefore(v, Touched(v, k, e))
  {
    assert ConsistentIf(v, true);
    TouchKeeps(v, k, e);
    forall h ensures SameLeakAt(v, Touched(v, k, e), h) {
      SameLeaks(v, Touched(v, k, e), h);
    }
    forall n ensures SameOrphanAt(v, Touched(v, k, e), n) {
      SameOrphans(v, Touched(v, k, e), n);
    }
  }

  lemma CoherentFacts(v: View, k: StorageKey)
    requires Coherent(v)
    ensures k in v.contents <==> k in v.index
    ensures k in v.index ==> InDram(v.index, k) || InNvme(v.index, k)
  {
    assert ConsistentIf(v, true);
    assert k in v.contents.Keys <==> k in v.index.Keys;
    assert k in v.index ==> Tiered(v.index, k);
  }

  lemma CoherentDram(v: View, k: StorageKey)
    requires Coherent(v) && InDram(v.index, k)
    ensures k in v.contents && k in v.owner && k in v.tracked
    ensures var e := v.index[k];
            && Slab.WellFormed(v.classes) && Slab.Live(v.classes, v.owner[k]) && Slab.SlotOf(v.classes, e.address, 0) == Some(v.owner[k])
            && e.address + e.length <= |v.dram| && v.dram[e.address..e.address + e.length] == v.contents[k]
  {
    assert ConsistentIf(v, true);
    DramFacts(v, k);
  }

  lemma CoherentNvme(v: View, k: StorageKey)
    requires Coherent(v) && InNvme(v.index, k)
    ensures k in v.contents && k in v.place && v.place[k] < |v.log| && v.place[k] !in v.dead
    ensures v.log[v.place[k]].loc == EntryLocation(v.index[k]) && v.log[v.place[k]].entry.blob == v.contents[k]
    ensures v.log[v.place[k]].entry.key == k
  {
    assert ConsistentIf(v, true);
    NvmeFacts(v, k);
  }

  lemma CoherentIdle(v: View)
    requires Coherent(v) && v.tracked == {} && forall h :: !Leaked(v, h)
    ensures Slab.AllOk(v.classes) && Slab.Used(v.classes) == 0
  {
    assert ConsistentIf(v, true);
    UntrackedIsIdle(v);
  }

  // ---- What eviction may do ----

  /** Only where the bytes are has changed. */
  predicate SameMeta(e: IndexEntry, f: IndexEntry) {
    f == e.(tier := f.tier, address := f.address, segmentId := f.segmentId)
  }

  /** The key had an entry before; a DRAM entry is the very same one. */
  predicate DramKept(v: View, w: View, k: StorageKey) {
    k in w.index ==>
      k in v.index && SameMeta(v.index[k], w.index[k]) && (InDram(w.index, k) ==> InDram(v.index, k) && w.index[k] == v.index[k])
  }

  predicate TrackKept(v: View, w: View, k: StorageKey) {
    k in w.tracked && InDram(v.index, k) ==> InDram(w.index, k)
  }

  /** From `v` to `w` the keys of `lost` are gone, and the others stand for what they stood
      for, under entries that differ in their place at most; no key has moved into DRAM, the
      blob store has been appended to, and no slot or record has been leaked or recovered. */
  ghost predicate Evicts(v: View, w: View, lost: set<StorageKey>) {
    && w.contents == v.contents - lost && w.tracked <= v.tracked && v.log <= w.log && w.dead == v.dead
    && (forall k :: DramKept(v, w, k)) && (forall k :: TrackKept(v, w, k)) && LeaksAsBefore(v, w)
  }

  lemma EvictsNothing(v: View)
    ensures Evicts(v, v, {})
  {
    forall h ensures SameLeakAt(v, v, h) {
    }
    forall n ensures SameOrphanAt(v, v, n) {
    }
    forall k ensures DramKept(v, v, k) && TrackKept(v, v, k) {
    }
    assert v.contents - {} == v.contents;
  }

  lemma EvictsThen(u: View, v: View, w: View, lost: set<StorageKey>, more: set<StorageKey>)
    requires Evicts(u, v, lost) && Evicts(v, w, more)
    ensures Evicts(u, w, lost + more)
  {
    forall h ensures SameLeakAt(u, w, h) {
      assert SameLeakAt(u, v, h) && SameLeakAt(v, w, h);
    }
    forall n ensures SameOrphanAt(u, w, n) {
      assert SameOrphanAt(u, v, n) && SameOrphanAt(v, w, n);
    }
    forall k ensures DramKept(u, w, k) && TrackKept(u, w, k) {
      assert DramKept(u, v, k) && DramKept(v, w, k) && TrackKept(u, v, k) && TrackKept(v, w, k);
    }
    assert (u.contents - lost) - more == u.contents - (lost + more);
  }

  lemma ForgetEvicts(v: View, k: StorageKey)
    requires Coherent(v) && !InDram(v.index, k)
    ensures Coherent(Forgotten(v, k)) && Evicts(v, Forgotten(v, k), {})
  {
    CoherentForget(v, k);
    forall j ensures DramKept(v, Forgotten(v, k), j) && TrackKept(v, Forgotten(v, k), j) {
    }
    assert v.contents - {} == v.contents;
  }

  lemma DemoteEvicts(v: View, k: StorageKey, e: IndexEntry, log: seq<B.Rec>)
    requires Coherent(v) && InDram(v.index, k) && k in v.contents && Recorded(v, k, v.contents[k], e, log) && SameMeta(v.index[k], e)
    ensures k in v.owner && Slab.Live(v.classes, v.owner[k])
    ensures Coherent(Demoted(v, k, e, log)) && Evicts(v, Demoted(v, k, e, log), {})
  {
    CoherentDemote(v, k, e, log);
    forall j ensures DramKept(v, Demoted(v, k, e, log), j) && TrackKept(v, Demoted(v, k, e, log), j) {
    }
    assert v.contents - {} == v.contents;
  }

  lemma FreeEvicts(v: View, k: StorageKey)
    requires Coherent(v) && InDram(v.index, k)
    ensures k in v.owner && Slab.Live(v.classes, v.owner[k])
    ensures Coherent(FreedFromDram(v, k)) && Evicts(v, FreedFromDram(v, k), {k})
  {
    CoherentFree(v, k);
    forall j ensures DramKept(v, FreedFromDram(v, k), j) && TrackKept(v, FreedFromDram(v, k), j) {
    }
  }

  // ---- What a put may do ----

  predicate EntryKept(v: View, w: View, k: StorageKey) {
    (k in w.index <==> k in v.index) && (k in v.index ==> w.index[k] == v.index[k])
  }

  /** From `v` to `w` one key has got new bytes and a new entry, filled in as given but for its
      place; the slot of a DRAM entry it replaces is lost. */
  ghost predicate Stores(v: View, w: View, key: StorageKey, blob: Bytes, entry: IndexEntry) {
    && Coherent(w) && w.contents == v.contents[key := blob] && w.tracked <= v.tracked + {key}
    && key in w.index && SameMeta(entry, w.index[key]) && (key in w.tracked ==> InDram(w.index, key) || key in v.tracked)
    && (forall k :: k != key ==> EntryKept(v, w, k))
    && (forall h :: LosesOld(v, w, key, h)) && (forall n :: LosesRecord(v, w, key, n))
    && v.log <= w.log && w.dead == v.dead
  }

  lemma StoresTracks(v: View, w: View, key: StorageKey, blob: Bytes, entry: IndexEntry)
    requires Stores(v, w, key, blob, entry)
    ensures |w.tracked| <= |v.tracked| + 1
  {
    Snapshots.SubsetSize(w.tracked, v.tracked + {key});
  }

  lemma DramStores(v: View, k: StorageKey, blob: Bytes, entry: IndexEntry, e: IndexEntry, i: nat)
    requires Coherent(v) && FitsSlot(v, blob, e, i) && SameMeta(entry, e)
    ensures Stores(v, StoredInDram(v, k, blob, e, i), k, blob, entry)
  {
    CoherentStoreInDram(v, k, blob, e, i);
    var w := StoredInDram(v, k, blob, e, i);
    forall j | j != k ensures EntryKept(v, w, j) {
    }
  }

  lemma NvmeStores(v: View, k: StorageKey, blob: Bytes, entry: IndexEntry, e: IndexEntry, log: seq<B.Rec>)
    requires Coherent(v) && Recorded(v, k, blob, e, log) && SameMeta(entry, e)
    ensures Stores(v, StoredInNvme(v, k, blob, e, log), k, blob, entry)
  {
    CoherentStoreInNvme(v, k, blob, e, log);
    var w := StoredInNvme(v, k, blob, e, log);
    forall j | j != k ensures EntryKept(v, w, j) {
    }
  }

  /** A store followed by evictions. */
  lemma StoreThenEvict(v: View, m: View, w: View, key: StorageKey, blob: Bytes, entry: IndexEntry, lost: set<StorageKey>)
    requires Stores(v, m, key, blob, entry) && Evicts(m, w, lost)
    ensures w.contents == v.contents[key := blob] - lost && v.log <= w.log && w.dead == v.dead
    ensures forall h :: LosesOld(v, w, key, h)
    ensures forall n :: LosesRecord(v, w, key, n)
  {
    forall n ensures LosesRecord(v, w, key, n) {
      assert LosesRecord(v, m, key, n) && SameOrphanAt(m, w, n);
    }
    forall h ensures LosesOld(v, w, key, h) {
      assert LosesOld(v, m, key, h) && SameLeakAt(m, w, h);
    }
  }

  predicate FiledAt(v: View, w: View, key: StorageKey, entry: IndexEntry, k: StorageKey) {
    k in w.index ==> if k == key then SameMeta(entry, w.index[k]) else k in v.index && SameMeta(v.index[k], w.index[k])
  }

  /** Every entry of `w` is as it was in `v`, and that of `key` as given, but for its place. */
  ghost predicate Filed(v: View, w: View, key: StorageKey, entry: IndexEntry) {
    forall k :: FiledAt(v, w, key, entry, k)
  }

  lemma StoreThenEvictFiles(v: View, m: View, w: View, key: StorageKey, blob: Bytes, entry: IndexEntry, lost: set<StorageKey>)
    requires Stores(v, m, key, blob, entry) && Evicts(m, w, lost)
    ensures Filed(v, w, key, entry)
  {
    forall k ensures FiledAt(v, w, key, entry, k) {
      assert DramKept(m, w, k);
      if k != key { assert EntryKept(v, m, k); }
    }
  }

  // ---- Cheap entries ----

  predicate CheapAt(index: Index, minCost: U32, prompts: set<StorageKey>, k: StorageKey) {
    InDram(index, k) && index[k].cost < minCost ==> k in prompts
  }

  /** Only system prompts are kept in DRAM below the minimum cost. */
  ghost predicate CheapArePrompts(index: Index, minCost: U32, prompts: set<StorageKey>) {
    forall k :: CheapAt(index, minCost, prompts, k)
  }

  lemma StoreKeepsCheap(v: View, m: View, key: StorageKey, blob: Bytes, entry: IndexEntry, minCost: U32, prompts: set<StorageKey>, prompt: bool)
    requires Stores(v, m, key, blob, entry) && CheapArePrompts(v.index, minCost, prompts) && (entry.cost < minCost ==> prompt)
    ensures CheapArePrompts(m.index, minCost, if prompt then prompts + {key} else prompts - {key})
  {
    var after := if prompt then prompts + {key} else prompts - {key};
    forall k ensures CheapAt(m.index, minCost, after, k) {
      if k != key { assert EntryKept(v, m, k) && CheapAt(v.index, minCost, prompts, k); }
    }
  }

  lemma EvictKeepsCheap(v: View, w: View, lost: set<StorageKey>, minCost: U32, prompts: set<StorageKey>)
    requires Evicts(v, w, lost) && CheapArePrompts(v.index, minCost, prompts)
    ensures CheapArePrompts(w.index, minCost, prompts)
  {
    forall k ensures CheapAt(w.index, minCost, prompts, k) {
      assert DramKept(v, w, k) && CheapAt(v.index, minCost, prompts, k);
    }
  }

  // ---- Checksums ----

  function CrcOf(blob: Bytes): U32 {
    Crc32c.Checksum(blob) as int
  }

  predicate StampedAt(index: Index, contents: Contents, k: StorageKey) {
    k in index && k in contents ==> index[k].checksum == CrcOf(contents[k])
  }

  /** Every entry carries the checksum of the bytes its key stands for. */
  ghost predicate Stamped(index: Index, contents: Contents) {
    forall k :: StampedAt(index, contents, k)
  }

  lemma StoreKeepsStamps(v: View, m: View, key: StorageKey, blob: Bytes, entry: IndexEntry)
    requires Stores(v, m, key, blob, entry) && Stamped(v.index, v.contents) && entry.checksum == CrcOf(blob)
    ensures Stamped(m.index, m.contents)
  {
    forall k ensures StampedAt(m.index, m.contents, k) {
      if k != key { assert EntryKept(v, m, k) && StampedAt(v.index, v.contents, k); }
    }
  }

  lemma EvictKeepsStamps(v: View, w: View, lost: set<StorageKey>)
    requires Evicts(v, w, lost) && Stamped(v.index, v.contents)
    ensures Stamped(w.index, w.contents)
  {
    forall k ensures StampedAt(w.index, w.contents, k) {
      assert DramKept(v, w, k) && StampedAt(v.index, v.contents, k);
    }
  }

  // ---- Across a restart ----

  /** The index without its DRAM entries, whose pointers die with their process. */
  function Scrubbed(m: Index): Index {
    map k | k in m && m[k].tier != TIER_DRAM :: m[k]
  }

  /** What a restart gets back of an index that was saved: its blob-store entries, unless there
      are more entries than a load accepts. */
  function Kept(index: Index): Index {
    if |index| <= MAX_ENTRIES then Scrubbed(index) else map[]
  }

  function KeptContents(contents: Contents, index: Index): Contents {
    map k | k in contents && k in Kept(index) :: contents[k]
  }

  ghost predicate AgreesIf(hash: Bytes -> U32, file: Option<Bytes>, index: Index, asked: bool) {
    |index| < 0x1_0000_0000_0000_0000 ==> Scrubbed(Loaded(hash, file, map[])) == Kept(index)
  }

  /** The checkpoint holds of the index what a restart can get back; unfolded on demand. */
  ghost predicate Agrees(hash: Bytes -> U32, file: Option<Bytes>, index: Index) {
    forall asked :: AgreesIf(hash, file, index, asked)
  }

  lemma OpenedAgrees(hash: Bytes -> U32, file: Option<Bytes>)
    ensures Agrees(hash, file, Scrubbed(Loaded(hash, file, map[])))
  {
    var m := Loaded(hash, file, map[]);
    ScrubbedTwice(m);
    LoadedFits(hash, file);
    Snapshots.SubsetSize(Scrubbed(m).Keys, m.Keys);
    assert |Scrubbed(m).Keys| == |Scrubbed(m)| && |m.Keys| == |m|;
  }

  /** A checkpoint of the index agrees with it. */
  lemma CheckpointAgrees(hash: Bytes -> U32, file: Option<Bytes>, es: seq<Slot>, index: Index, timestamp: U64)
    requires Checkpoints(hash, file, es, timestamp) && Snapshots.IsSnapshot(es, index)
    ensures Agrees(hash, file, index)
  {
    assert CheckpointsIf(hash, file, es, timestamp, true);
    if |index| < 0x1_0000_0000_0000_0000 {
      CheckpointRestores(hash, es, index, timestamp);
    }
  }

  /** `v` is an earlier view of an engine whose blob store now has the records `log`. */
  ghost predicate Outlived(v: View, log: seq<B.Rec>) {
    Coherent(v) && Stamped(v.index, v.contents) && v.log <= log
  }

  ghost predicate NamedBy(v: View, d: nat) {
    exists k :: InNvme(v.index, k) && k in v.place && v.place[k] == d
  }

  /** What counts as given up in a process that starts with the index of `v`: a record that it names
      is in use again, even if its key was deleted since. */
  ghost function GivenUp(v: View, dead: set<nat>): set<nat> {
    set d | d in dead && !NamedBy(v, d)
  }

  lemma NoneRevived(v: View)
    requires Coherent(v)
    ensures GivenUp(v, v.dead) == v.dead
  {
    assert ConsistentIf(v, true);
    forall d | d in v.dead ensures !NamedBy(v, d) {
      forall k | InNvme(v.index, k) && k in v.place ensures v.place[k] != d {
        assert NvmeKey(v.index, v.contents, v.log, v.dead, v.place, k);
      }
    }
  }

  /** What a restart gets back of an earlier index still names records of the blob store, with the
      bytes of then. */
  lemma ScrubKeeps(v: View, log: seq<B.Rec>, dead: set<nat>)
    requires Outlived(v, log) && forall d :: d in dead ==> d < |log|
    ensures var m, contents := Kept(v.index), KeptContents(v.contents, v.index);
            && contents.Keys == m.Keys && NvmeSide(m, contents, log, GivenUp(v, dead), v.place) && Stamped(m, contents)
            && forall k :: k in m ==> m[k].tier == TIER_NVME
  {
    assert ConsistentIf(v, true);
    var m, contents := Kept(v.index), KeptContents(v.contents, v.index);
    assert forall k :: k in v.contents.Keys <==> k in v.index.Keys;
    forall k | k in m ensures v.index[k].tier == TIER_NVME && k in contents {
      assert Tiered(v.index, k);
    }
    forall k ensures NvmeKey(m, contents, log, GivenUp(v, dead), v.place, k) {
      assert NvmeKey(v.index, v.contents, v.log, v.dead, v.place, k);
      assert InNvme(m, k) ==> NamedBy(v, v.place[k]);
    }
    forall j, k ensures OwnPlace(m, v.place, j, k) {
      assert OwnPlace(v.index, v.place, j, k);
    }
    forall k ensures StampedAt(m, contents, k) {
      assert StampedAt(v.index, v.contents, k);
    }
  }

  ghost predicate OpeningIf(v: View, asked: bool) {
    && v.owner == map[] && v.tracked == {} && v.contents.Keys == v.index.Keys
    && (forall k :: k in v.index ==> v.index[k].tier == TIER_NVME)
    && NvmeSide(v.index, v.contents, v.log, v.dead, v.place) && Stamped(v.index, v.contents)
    && Slab.WellFormed(v.classes) && Mapped(v.classes, |v.dram|) && (forall h :: !Slab.Live(v.classes, h))
  }

  /** What a new process starts from: an idle slab, and an index of blob-store entries only;
      unfolded on demand. */
  ghost predicate Opening(v: View) {
    forall asked :: OpeningIf(v, asked)
  }

  lemma OpeningCoherent(v: View)
    requires Opening(v)
    ensures Coherent(v) && Tight(v) && Stamped(v.index, v.contents)
    ensures v.owner == map[] && v.tracked == {} && forall k :: k in v.index ==> v.index[k].tier == TIER_NVME
  {
    assert OpeningIf(v, true);
    assert Consistent(v);
  }

  lemma ScrubbedTwice(m: Index)
    ensures Scrubbed(Scrubbed(m)) == Scrubbed(m)
  {
  }

  // ---- Exact accounting ----

  ghost predicate TightIf(v: View, asked: bool) {
    (forall h :: !Leaked(v, h)) && forall k :: k in v.tracked ==> InDram(v.index, k)
  }

  /** No slot is leaked, and no key is tracked that is not in DRAM; unfolded on demand. */
  ghost predicate Tight(v: View) {
    forall asked :: TightIf(v, asked)
  }

  predicate Owns(v: View, k: StorageKey, h: Slab.Handle) {
    InDram(v.index, k) && k in v.owner && v.owner[k] == h
  }

  /** What a delete of `k` does: if it is `done`, exactly the key leaves, with its place among the
      tracked keys and its record, and nothing changes otherwise; exact accounts stay exact. */
  ghost predicate DeletesIf(v: View, w: View, k: StorageKey, done: bool, asked: bool) {
    && w.contents == (if done then v.contents - {k} else v.contents) && w.index == (if done then v.index - {k} else v.index)
    && w.tracked == (if done then v.tracked - {k} else v.tracked)
    && (if done then Marks(v, w, k) else SameRecords(v, w)) && (Tight(v) ==> Tight(w))
  }

  /** The same, unfolded on demand. */
  ghost predicate Deletes(v: View, w: View, k: StorageKey, done: bool) {
    forall asked :: DeletesIf(v, w, k, done, asked)
  }

  /** In a tight engine the DRAM keys, the tracked keys and the slots handed out correspond one
      to one, and every stored length fits its slot. */
  lemma ExactAccounting(v: View)
    requires Coherent(v) && Tight(v)
    ensures forall k :: k in v.tracked <==> InDram(v.index, k)
    ensures forall h :: Slab.Live(v.classes, h) <==> exists k :: Owns(v, k, h)
    ensures forall j, k, h :: Owns(v, j, h) && Owns(v, k, h) ==> j == k
    ensures forall k, h :: Owns(v, k, h) ==> h.cls < |v.classes| && v.index[k].length <= v.classes[h.cls].slotSize
  {
    assert ConsistentIf(v, true) && TightIf(v, true);
    forall k ensures k in v.tracked <==> InDram(v.index, k) {
      assert DramKey(v.index, v.contents, v.classes, v.dram, v.owner, v.tracked, k);
    }
    forall h ensures Slab.Live(v.classes, h) <==> exists k :: Owns(v, k, h) {
      if Slab.Live(v.classes, h) {
        assert !Leaked(v, h);
        var k :| !NotOwner(v.index, v.owner, k, h);
        assert Owns(v, k, h);
      }
      if k :| Owns(v, k, h) {
        assert DramKey(v.index, v.contents, v.classes, v.dram, v.owner, v.tracked, k);
      }
    }
    forall j, k, h | Owns(v, j, h) && Owns(v, k, h) ensures j == k {
      assert OwnSlot(v.index, v.owner, j, k);
    }
    forall k, h | Owns(v, k, h) ensures h.cls < |v.classes| && v.index[k].length <= v.classes[h.cls].slotSize {
      assert DramKey(v.index, v.contents, v.classes, v.dram, v.owner, v.tracked, k);
    }
  }

  /** A put of a key that is not in DRAM keeps the accounts exact; a put over a DRAM entry
      always loses that entry's slot. */
  lemma TightAfterPut(v: View, m: View, w: View, key: StorageKey, blob: Bytes, entry: IndexEntry, lost: set<StorageKey>)
    requires Coherent(v) && Stores(v, m, key, blob, entry) && Evicts(m, w, lost)
    ensures Tight(v) && !InDram(v.index, key) ==> Tight(w)
    ensures InDram(v.index, key) ==> !Tight(w)
  {
    StoreThenEvict(v, m, w, key, blob, entry, lost);
    if InDram(v.index, key) {
      CoherentDram(v, key);
      assert LosesOld(v, w, key, v.owner[key]) && (Tight(w) ==> TightIf(w, true));
    } else if Tight(v) {
      assert TightIf(v, true);
      forall h ensures !Leaked(w, h) {
        assert LosesOld(v, w, key, h);
      }
      forall k | k in w.tracked ensures InDram(w.index, k) {
        assert k != key ==> EntryKept(v, m, k);
        assert TrackKept(m, w, k);
      }
    }
  }

  lemma TightKept(v: View, w: View)
    requires Tight(v) && LeaksAsBefore(v, w) && w.tracked <= v.tracked
    requires forall k :: TrackKept(v, w, k)
    ensures Tight(w)
  {
    assert TightIf(v, true);
    forall h ensures !Leaked(w, h) {
      assert SameLeakAt(v, w, h);
    }
    forall k | k in w.tracked ensures InDram(w.index, k) {
      assert TrackKept(v, w, k);
    }
  }

  /** With the accounts exact and nothing tracked, no byte of DRAM is in use. */
  lemma TightIdle(v: View)
    requires Coherent(v) && Tight(v) && v.tracked == {}
    ensures Slab.AllOk(v.classes) && Slab.Used(v.classes) == 0
  {
    assert TightIf(v, true);
    CoherentIdle(v);
  }
}
