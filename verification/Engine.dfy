/** The two-tier engine: an index over a DRAM slab and a blob store, with eviction from the one
    to the other. `contents` is the map the engine stands for. */
module Engine {
  import opened Common
  import opened Segment
  import opened Checkpoint
  import opened EngineModel
  import opened EnginePolicy
  import A = Admission
  import B = BlobProtocol
  import BlobStore
  import BlobSync
  import CheckpointManager
  import Crc32c
  import CwSlru
  import Slab
  import Slru
  import Snapshots

  /** The keys of the DRAM entries, found by walking the table. */
  method FindStale(m: Index) returns (stale: set<StorageKey>)
    ensures m - stale == Scrubbed(m)
  {
    stale := {};
    var rest := m.Keys;
    while rest != {}
      invariant rest <= m.Keys && stale <= m.Keys && stale !! rest
      invariant forall k :: k in m && k !in rest ==> (k in stale <==> m[k].tier == TIER_DRAM)
      decreases |rest|
    {
      var k :| k in rest;
      if m[k].tier == TIER_DRAM {
        stale := stale + {k};
      }
      rest := rest - {k};
    }
    assert forall k :: k in m - stale <==> k in Scrubbed(m);
  }

  /** Loads the checkpoint and scrubs the DRAM entries; without a usable checkpoint the index
      starts empty. */
  method LoadIndex(ckpt: CheckpointManager.CheckpointManager) returns (index: Index)
    ensures index == Scrubbed(Loaded(ckpt.hash, ckpt.file, map[]))
  {
    var status, loaded := ckpt.Load(map[]);
    index := loaded;
    if status == Ok {
      var stale := FindStale(loaded);
      index := loaded - stale;
    }
  }

  /** The entries of the index, each once, in the order in which the table yields them. */
  method ListEntries(m: Index) returns (es: seq<Slot>)
    ensures Snapshots.IsSnapshot(es, m)
  {
    es := [];
    var rest := m.Keys;
    while rest != {}
      invariant rest <= m.Keys && |es| + |rest| == |m.Keys| && Snapshots.KeysOnce(es)
      invariant forall i :: 0 <= i < |es| ==> es[i].key in m && es[i].key !in rest && m[es[i].key] == es[i].value
      decreases |rest|
    {
      var k :| k in rest;
      ghost var was := es;
      es := es + [Snapshots.Pair(k, m[k])];
      forall i: nat, j: nat | i < j < |es| ensures Snapshots.Differ(es, i, j) {
        assert j < |was| ==> Snapshots.Differ(was, i, j);
      }
      rest := rest - {k};
    }
    assert |m.Keys| == |m|;
  }

  ghost function LogOf(t2: BlobStore.BlobStore?): seq<B.Rec>
    reads t2
  {
    if t2 == null then [] else t2.abs.log
  }

  ghost function DeadOf(t2: BlobStore.BlobStore?): set<nat>
    reads t2
  {
    if t2 == null then {} else t2.abs.dead
  }

  ghost function ClassesOf(t1: Slab.SlabAllocator?): seq<Slab.SizeClass>
    reads t1
  {
    if t1 == null then [] else t1.classes
  }

  /** What a put files for its key, but for the place of the bytes. */
  function FreshEntry(blob: Bytes, opts: A.PutOpts, now: U48): (e: IndexEntry)
    requires |blob| <= U32_MAX
    ensures e.length == |blob| && e.checksum == CrcOf(blob) && e.cost == opts.cost && e.numTokens == opts.numTokens
    ensures e.createdAt == now && e.lastAccess == now && e.accessCount == 1 && e.slruSegment == 0 && e.flags == 0
  {
    IndexEntry(TIER_DRAM, 0, |blob|, 0, 0, opts.cost, now, 1, 0, opts.numTokens, now, CrcOf(blob), Zeros(18))
  }

  class Engine {
    const admission: A.Config
    const t1: Slab.SlabAllocator?
    const t2: BlobStore.BlobStore?
    const slru: CwSlru.CwSlru
    const ckpt: CheckpointManager.CheckpointManager
    var isOpen: bool
    var index: Index
    var dram: Bytes
    ghost var contents: Contents
    ghost var owner: map<StorageKey, Slab.Handle>
    ghost var place: map<StorageKey, nat>
    /** The keys whose bytes were last put as a system prompt. */
    ghost var prompts: set<StorageKey>

    lemma CoherentStore(v: View, i: nat, blob: Bytes)
      requires Coherent(v) && i < |v.classes| && |v.classes[i].free| > 0
      ensures Slab.WellFormed(v.classes)
      ensures Slab.Ptr(v.classes, Slab.Handle(i, Slab.TopSlot(v.classes, i))) + v.classes[i].slotSize <= |v.dram|
    {
      assert ConsistentIf(v, true);
      Slab.TakeEffect(v.classes, i);
      SlotMapped(v.classes, |v.dram|, Slab.Handle(i, Slab.TopSlot(v.classes, i)));
    }

    // ---- The parts and what they say ----

    ghost function Tracked(): set<StorageKey>
      reads slru.prot, slru.prob
    {
      Slru.Tracked(slru.Model())
    }

    ghost function Now(): View
      reads this, t1, t2, slru.prot, slru.prob
    {
      View(index, contents, ClassesOf(t1), dram, owner, Tracked(), LogOf(t2), DeadOf(t2), place)
    }

    /** The engine and its policy. */
    ghost function Here(): Snap
      reads this, t1, t2, slru.prot, slru.prob
    {
      Snap(Now(), slru.Model())
    }

    ghost function Rules(): Rule {
      Rule(t2 != null, admission.minCost)
    }

    ghost function T2Repr(): set<object>
    {
      if t2 == null then {} else t2.Repr
    }

    /** The parts share no object. */
    ghost predicate Separate()
      reads slru.prot, slru.prob
    {
      && this !in slru.prot.Repr && this !in slru.prob.Repr && this !in T2Repr()
      && (t1 as object?) != this && (ckpt as object) != this && (t1 as object?) != ckpt
      && (t1 != null ==> t1 !in slru.prot.Repr && t1 !in slru.prob.Repr && t1 !in T2Repr())
      && ckpt !in slru.prot.Repr && ckpt !in slru.prob.Repr && ckpt !in T2Repr()
      && (t2 != null ==> t2 in t2.Repr)
      && T2Repr() !! slru.prot.Repr && T2Repr() !! slru.prob.Repr
      && slru.prot in slru.prot.Repr && slru.prob in slru.prob.Repr
    }

    ghost predicate Parts()
      reads this, t1, t2, T2Repr(), slru.prot, slru.prob, slru.prot.Repr, slru.prob.Repr
    {
      && Separate() && slru.Valid() && |dram| < 0x1_0000_0000_0000_0000
      && (t1 != null ==> t1.Valid())
      && (t2 != null ==> t2.Ready() && t2.c.segmentSize < 0x1_0000_0000_0000_0000)
    }

    // ---- Opening ----

    /** Opens over an idle allocator, an opened blob store and the checkpoint directory. The
        index is what the checkpoint holds, less the DRAM entries of the earlier process. */
    constructor Open(admission: A.Config, policy: Slru.Config, t1: Slab.SlabAllocator?, memory: Bytes,
                     t2: BlobStore.BlobStore?, ckpt: CheckpointManager.CheckpointManager,
                     ghost contents: Contents, ghost place: map<StorageKey, nat>)
      requires Slru.GoodConfig(policy) && |memory| < 0x1_0000_0000_0000_0000
      requires t1 != null ==> t1.Valid()
      requires t2 != null ==> t2.Ready() && t2 in t2.Repr && t2.c.segmentSize < 0x1_0000_0000_0000_0000
      requires t2 != null ==> ckpt !in t2.Repr && (t1 != null ==> t1 !in t2.Repr)
      requires Opening(View(Scrubbed(Loaded(ckpt.hash, ckpt.file, map[])), contents, ClassesOf(t1), memory, map[], {}, LogOf(t2), DeadOf(t2), place))
      requires !ckpt.dirty
      requires t2 != null ==> forall k :: k in contents ==>
                 |contents[k]| > U32_MAX - ENTRY_HEADER_SIZE || EntryDiskSize(|contents[k]|) <= t2.c.capacity
      ensures Valid() && isOpen && Tight(Now()) && slru.Model() == Slru.Lists([], [])
      ensures index == Scrubbed(Loaded(ckpt.hash, ckpt.file, map[])) && this.contents == contents && Tracked() == {}
      ensures this.admission == admission && this.t1 == t1 && this.t2 == t2 && this.ckpt == ckpt && this.place == place
      ensures slru.config == policy && fresh(slru) && fresh(slru.prot.Repr) && fresh(slru.prob.Repr)
    {
      var loaded := LoadIndex(ckpt);
      this.admission, this.t1, this.t2, this.ckpt := admission, t1, t2, ckpt;
      slru := new CwSlru.CwSlru(policy);
      isOpen, index, dram := true, loaded, memory;
      this.contents, this.owner, this.place, prompts := contents, map[], place, {};
      new;
      if t2 != null { t2.Untouched(); }
      assert Tracked() == {};
      assert Now() == View(loaded, contents, ClassesOf(t1), memory, map[], {}, LogOf(t2), DeadOf(t2), place);
      OpenedSane(Now());
      OpenedAgrees(ckpt.hash, ckpt.file);
    }

    lemma OpenedSane(v: View)
      requires Opening(v) && forall k :: k in v.contents ==> FitsBlock(|v.contents[k]|)
      ensures Sane(v, {}) && Tight(v)
    {
      OpeningCoherent(v);
      forall k ensures FitAt(v.contents, k) && CheapAt(v.index, admission.minCost, {}, k) {
      }
    }

    // ---- Putting a blob into a tier ----

    method TakeSlot(size: nat) returns (handle: Option<Slab.Handle>, ptr: nat)
      requires Parts() && t1 != null
      modifies t1
      ensures Parts()
      ensures handle.None? ==> Now() == old(Now()) && Slab.Choice(old(t1.classes), size, 0) == None
      ensures handle.Some? ==>
                var i := handle.value.cls;
                && Slab.Choice(old(t1.classes), size, 0) == Some(i) && handle == Some(Slab.Handle(i, Slab.TopSlot(old(t1.classes), i)))
                && ptr == Slab.Ptr(old(t1.classes), handle.value) && Now() == old(Now()).(classes := Slab.Take(old(t1.classes), i))
    {
      handle, ptr := t1.Allocate(size);
      slru.Untouched();
      if t2 != null { t2.Untouched(); }
    }

    method Track(key: StorageKey, cost: U32)
      requires Parts()
      modifies slru.prot.Repr, slru.prob.Repr
      ensures Parts() && fresh(slru.prot.Repr - old(slru.prot.Repr)) && fresh(slru.prob.Repr - old(slru.prob.Repr))
      ensures Now() == old(Now()).(tracked := old(Tracked()) + {key})
      ensures slru.Model() == Slru.Insert(old(slru.Model()), key, cost, key.chunkIndex)
    {
      slru.ModelKeys();
      Slru.InsertKeys(slru.Model(), key, cost, key.chunkIndex);
      slru.OnInsert(key, cost, key.chunkIndex);
      if t2 != null { t2.Untouched(); }
    }

    method SetFields(index: Index, dram: Bytes, ghost contents: Contents, ghost owner: map<StorageKey, Slab.Handle>, ghost place: map<StorageKey, nat>)
      requires Parts() && |dram| == |this.dram|
      modifies this
      ensures Parts() && isOpen == old(isOpen) && prompts == old(prompts)
      ensures Now() == old(Now()).(index := index, dram := dram, contents := contents, owner := owner, place := place)
    {
      this.index, this.dram, this.contents, this.owner, this.place := index, dram, contents, owner, place;
      slru.Untouched();
      if t2 != null { t2.Untouched(); }
    }

    ghost predicate FollowsPolicyIf(before: Slru.Lists, after: Slru.Lists, victim: Option<StorageKey>, asked: bool) {
      (after, victim) == Slru.Evict(before)
    }

    /** The victim is the policy's, and so is what remains; unfolded on demand. */
    ghost predicate FollowsPolicy(before: Slru.Lists, after: Slru.Lists, victim: Option<StorageKey>) {
      forall asked :: FollowsPolicyIf(before, after, victim, asked)
    }

    method PickVictim() returns (victim: Option<StorageKey>)
      requires Parts()
      modifies slru.prot.Repr, slru.prob.Repr
      ensures Parts() && slru.prot.Repr == old(slru.prot.Repr) && slru.prob.Repr == old(slru.prob.Repr)
      ensures victim.None? <==> old(Tracked()) == {}
      ensures FollowsPolicy(old(slru.Model()), slru.Model(), victim)
      ensures victim.None? ==> Here() == old(Here())
      ensures victim.Some? ==> victim.value in old(Tracked()) && Now() == Forgotten(old(Now()), victim.value)
    {
      slru.ModelKeys();
      Slru.EvictKeys(slru.Model());
      victim := slru.Evict();
      if t2 != null { t2.Untouched(); }
    }

    method NoteAccess(key: StorageKey, cost: U32)
      requires Parts()
      modifies slru.prot.Repr, slru.prob.Repr
      ensures Parts() && fresh(slru.prot.Repr - old(slru.prot.Repr)) && fresh(slru.prob.Repr - old(slru.prob.Repr))
      ensures Now() == old(Now()) && isOpen == old(isOpen) && prompts == old(prompts) && unchanged(ckpt)
      ensures slru.Model() == Slru.Access(slru.config, old(slru.Model()), key, cost)
    {
      slru.ModelKeys();
      Slru.AccessKeys(slru.config, slru.Model(), key, cost);
      slru.OnAccess(key, cost);
      if t2 != null { t2.Untouched(); }
    }

    method Untrack(key: StorageKey)
      requires Parts()
      modifies slru.prot.Repr, slru.prob.Repr
      ensures Parts() && slru.prot.Repr == old(slru.prot.Repr) && slru.prob.Repr == old(slru.prob.Repr)
      ensures Now() == Forgotten(old(Now()), key)
      ensures slru.Model() == Slru.Remove(old(slru.Model()), key)
      ensures t2 != null ==> t2.abs == old(t2.abs)
    {
      slru.ModelKeys();
      Slru.RemoveKeys(slru.Model(), key);
      slru.OnRemove(key);
      if t2 != null { t2.Untouched(); }
    }

    method FreeSlot(ptr: nat, ghost h: Slab.Handle)
      requires Parts() && t1 != null && Slab.SlotOf(t1.classes, ptr, 0) == Some(h) && Slab.Live(t1.classes, h)
      modifies t1
      ensures Parts() && h.cls < |old(Now()).classes| && Now() == old(Now()).(classes := Slab.Release(old(Now()).classes, h))
      ensures t2 != null ==> t2.abs == old(t2.abs)
    {
      t1.FreeByPtr(ptr);
      slru.Untouched();
      if t2 != null { t2.Untouched(); }
    }

    method KillRecord(loc: B.Location, ghost k: nat)
      requires Parts() && t2 != null && k < |t2.abs.log| && k !in t2.abs.dead && loc == t2.abs.log[k].loc
      modifies t2
      ensures Parts() && Now() == old(Now()).(dead := old(Now()).dead + {k})
      ensures |t2.abs.segs| == old(|t2.abs.segs|)
    {
      t2.MarkEntryDead(loc, k);
      slru.Untouched();
    }

    /** Entries that a write block can hold; a blob beyond the 32-bit limit is refused outright. */
    predicate FitsBlock(len: nat) {
      t2 != null ==> len > U32_MAX - ENTRY_HEADER_SIZE || EntryDiskSize(len) <= t2.c.capacity
    }

    ghost predicate WroteIf(v: View, w: View, key: StorageKey, blob: Bytes, loc: B.Location, asked: bool) {
      && w == v.(log := w.log) && |w.log| == |v.log| + 1 && w.log[..|v.log|] == v.log && w.log[|v.log|].entry.key == key
      && w.log[|v.log|].entry.blob == blob && w.log[|v.log|].loc == loc
      && loc == B.Location(loc.segId, loc.offset, |blob|, EntryDiskSize(|blob|)) && loc.offset < 0x1_0000_0000_0000_0000
    }

    /** The store has one more record, of this key and these bytes at this location; unfolded on
        demand. */
    ghost predicate Wrote(v: View, w: View, key: StorageKey, blob: Bytes, loc: B.Location) {
      forall asked :: WroteIf(v, w, key, blob, loc, asked)
    }

    lemma AddsWrote(v: View, w: View, s: B.State, t: B.State, c: B.Config, e: Entry, loc: B.Location)
      requires BlobSync.Sound(c, t) && BlobSync.Adds(s, t, e) && !B.Oversized(c, e) && c.segmentSize < 0x1_0000_0000_0000_0000
      requires v.log == s.log && w == v.(log := t.log) && loc == t.log[|t.log| - 1].loc
      ensures Wrote(v, w, e.key, e.blob, loc) && loc.segId < |t.segs| <= |s.segs| + 1
    {
      BlobSync.WrittenLocation(c, s, t, e);
    }

    method WriteToStore(key: StorageKey, blob: Bytes, checksum: U32) returns (status: Status, loc: B.Location)
      requires Parts() && t2 != null && FitsBlock(|blob|)
      modifies t2.Repr
      ensures Parts() && status == if |blob| > U32_MAX - ENTRY_HEADER_SIZE then InvalidArgument else Ok
      ensures status != Ok ==> Now() == old(Now()) && |t2.abs.segs| == old(|t2.abs.segs|)
      ensures status == Ok ==> Wrote(old(Now()), Now(), key, blob, loc) && loc.segId < |t2.abs.segs| <= old(|t2.abs.segs|) + 1
    {
      status, loc := t2.Write(key, blob, checksum);
      slru.Untouched();
      if status == Ok {
        AddsWrote(old(Now()), Now(), old(t2.abs), t2.abs, t2.c, Entry(key, blob, checksum), loc);
      }
    }

    /** A slot, the bytes, the index, the policy: as `put` fills them when DRAM has room. */
    method StoreInDram(key: StorageKey, blob: Bytes, entry: IndexEntry) returns (ok: bool, ghost e: IndexEntry, ghost i: nat)
      requires Parts() && Coherent(Now()) && t1 != null && entry.length == |blob|
      modifies this, t1, slru.prot.Repr, slru.prob.Repr
      ensures Parts() && isOpen == old(isOpen) && prompts == old(prompts)
      ensures fresh(slru.prot.Repr - old(slru.prot.Repr)) && fresh(slru.prob.Repr - old(slru.prob.Repr))
      ensures ok == Slab.Choice(old(t1.classes), |blob|, 0).Some?
      ensures !ok ==> Now() == old(Now()) && unchanged(slru.prot) && unchanged(slru.prob)
      ensures ok ==> FitsSlot(old(Now()), blob, e, i) && SameMeta(entry, e) && Now() == StoredInDram(old(Now()), key, blob, e, i)
      ensures ok ==> Slab.Choice(old(t1.classes), |blob|, 0) == Some(i) && slru.Model() == Slru.Insert(old(slru.Model()), key, entry.cost, key.chunkIndex)
    {
      e, i := entry, 0;
      var handle, ptr := TakeSlot(|blob|);
      ok := handle.Some?;
      if ok {
        i := handle.value.cls;
        CoherentStore(old(Now()), i, blob);
        var placed := entry.(tier := TIER_DRAM, address := ptr, segmentId := 0);
        e := placed;
        SetFields(index[key := placed], WriteAt(dram, ptr, blob), contents[key := blob], owner[key := handle.value], place);
        Track(key, entry.cost);
      }
    }

    /** A record and the index: as `put` writes them when DRAM has no room. */
    method StoreInNvme(key: StorageKey, blob: Bytes, entry: IndexEntry) returns (status: Status)
      requires Parts() && Coherent(Now()) && t2 != null && entry.length == |blob| && FitsBlock(|blob|) && |t2.abs.segs| < 0x1_0000_0000
      modifies this, t2.Repr
      ensures Parts() && isOpen == old(isOpen) && prompts == old(prompts) && unchanged(slru.prot) && unchanged(slru.prob)
      ensures |t2.abs.segs| <= old(|t2.abs.segs|) + 1
      ensures status == if |blob| > U32_MAX - ENTRY_HEADER_SIZE then InvalidArgument else Ok
      ensures status != Ok ==> Now() == old(Now()) && |t2.abs.segs| == old(|t2.abs.segs|)
      ensures status == Ok ==> Stores(old(Now()), Now(), key, blob, entry) && InNvme(index, key) && Tracked() == old(Tracked())
    {
      assert slru.prot !in T2Repr() && slru.prob !in T2Repr();
      var loc: B.Location;
      status, loc := WriteToStore(key, blob, entry.checksum);
      if status == Ok {
        ghost var v := old(Now());
        assert WroteIf(v, Now(), key, blob, loc, true);
        var placed := entry.(tier := TIER_NVME, address := loc.offset, segmentId := loc.segId);
        NvmeStores(v, key, blob, entry, placed, Now().log);
        SetFields(index[key := placed], dram, contents[key := blob], owner, place[key := |v.log|]);
      }
    }

    /** DRAM has a slot for a blob of this size. */
    ghost predicate DramTakes(size: nat)
      reads t1
    {
      t1 != null && Slab.Choice(t1.classes, size, 0).Some?
    }

    method PlaceInDram(key: StorageKey, blob: Bytes, entry: IndexEntry) returns (ok: bool)
      requires Parts() && Coherent(Now()) && entry.length == |blob| && t1 != null
      modifies this, t1, slru.prot.Repr, slru.prob.Repr
      ensures Parts() && isOpen == old(isOpen) && prompts == old(prompts) && (t2 != null ==> t2.abs == old(t2.abs))
      ensures fresh(slru.prot.Repr - old(slru.prot.Repr)) && fresh(slru.prob.Repr - old(slru.prob.Repr))
      ensures ok == old(DramTakes(|blob|))
      ensures !ok ==> Now() == old(Now()) && unchanged(slru.prot) && unchanged(slru.prob)
      ensures ok ==> Stores(old(Now()), Now(), key, blob, entry) && InDram(index, key) && |Tracked()| <= old(|Tracked()|) + 1
      ensures ok ==> Filled(old(Here()), Here(), key, |blob|, entry.cost)
    {
      assert t2 != null ==> t2 !in slru.prot.Repr && t2 !in slru.prob.Repr && (t2 as object) != this && (t2 as object) != t1;
      ghost var e: IndexEntry;
      ghost var i: nat;
      ok, e, i := StoreInDram(key, blob, entry);
      if ok {
        DramStores(old(Now()), key, blob, entry, e, i);
        StoresTracks(old(Now()), Now(), key, blob, entry);
        assert FilledIf(old(Here()), Here(), key, |blob|, entry.cost, true);
      }
    }

    /** How many segment ids there may be once every tracked key has been demoted: no
        operation takes more than one of them. */
    ghost function Ids(): nat
      reads t2, slru.prot, slru.prob
    {
      if t2 == null then 0 else |t2.abs.segs| + |Tracked()|
    }

    ghost predicate RoomForOneMore()
      reads t2, slru.prot, slru.prob
    {
      Ids() + 1 <= 0x1_0000_0000
    }

    /** Where the blob goes: DRAM if a slot fits, otherwise the blob store. */
    method Place(key: StorageKey, blob: Bytes, entry: IndexEntry) returns (status: Status)
      requires Parts() && Coherent(Now()) && entry.length == |blob| && FitsBlock(|blob|) && RoomForOneMore()
      modifies this, t1, T2Repr(), slru.prot.Repr, slru.prob.Repr
      ensures Parts() && isOpen == old(isOpen) && prompts == old(prompts)
      ensures fresh(slru.prot.Repr - old(slru.prot.Repr)) && fresh(slru.prob.Repr - old(slru.prob.Repr))
      ensures status == if old(DramTakes(|blob|)) then Ok
                        else if t2 == null then IOError
                        else if |blob| > U32_MAX - ENTRY_HEADER_SIZE then InvalidArgument else Ok
      ensures status != Ok ==> Now() == old(Now())
      ensures status == Ok ==> Stores(old(Now()), Now(), key, blob, entry) && (InDram(index, key) <==> old(DramTakes(|blob|)))
      ensures status == Ok ==> Filled(old(Here()), Here(), key, |blob|, entry.cost)
      ensures status != Ok ==> slru.Model() == old(slru.Model())
      ensures Ids() <= old(Ids()) + 1
    {
      if t1 != null {
        var stored := PlaceInDram(key, blob, entry);
        if stored {
          return Ok;
        }
      }
      if t2 == null {
        return IOError;
      }
      status := StoreInNvme(key, blob, entry);
      if status == Ok {
        NotInDram(old(Here()), Here(), key, |blob|, entry.cost);
      }
    }

    lemma NotInDram(s: Snap, m: Snap, key: StorageKey, size: nat, cost: U32)
      requires Slab.Choice(s.view.classes, size, 0) == None && InNvme(m.view.index, key) && m.view.classes == s.view.classes && m.policy == s.policy
      ensures Filled(s, m, key, size, cost)
    {
    }

    // ---- Eviction ----

    ghost predicate FitAt(contents: Contents, k: StorageKey) {
      k in contents ==> FitsBlock(|contents[k]|)
    }

    /** Everything the engine holds fits a write block. */
    ghost predicate AllFit(contents: Contents) {
      forall k :: FitAt(contents, k)
    }

    /** Why a key may be lost: there is nowhere to demote it to, it is not worth the write, or
        the blob store refuses its length. */
    ghost predicate MayLose(v: View, k: StorageKey) {
      k in v.contents && InDram(v.index, k)
      && (t2 == null || v.index[k].cost < admission.minCost || |v.contents[k]| > U32_MAX - ENTRY_HEADER_SIZE)
    }

    /** The victim leaves the index for want of a place to go, and its slot is freed. */
    method Drop(victim: StorageKey, ghost v: View)
      requires Parts() && t1 != null && Coherent(v) && Now() == Forgotten(v, victim) && Loses(Rules(), v, victim)
      modifies this, t1
      ensures Parts() && isOpen == old(isOpen) && prompts == old(prompts) && Coherent(Now()) && Evicts(v, Now(), {victim}) && Now().tracked == v.tracked - {victim}
      ensures Evacuated(Rules(), v, Now(), victim)
    {
      CoherentDram(v, victim);
      FreeEvicts(v, victim);
      var src := index[victim].address;
      SetFields(index - {victim}, dram, contents - {victim}, owner, place);
      FreeSlot(src, v.owner[victim]);
      DropEvacuates(Rules(), v, victim);
    }

    /** The victim's bytes go to the blob store, the index follows, and its slot is freed. */
    method Demote(victim: StorageKey, ghost v: View) returns (ok: bool)
      requires Parts() && t1 != null && t2 != null && Coherent(v) && Now() == Forgotten(v, victim) && InDram(v.index, victim)
      requires AllFit(v.contents) && |t2.abs.segs| < 0x1_0000_0000 && v.index[victim].cost >= admission.minCost
      modifies this, t1, t2.Repr
      ensures Parts() && isOpen == old(isOpen) && prompts == old(prompts) && |t2.abs.segs| <= old(|t2.abs.segs|) + 1
      ensures ok ==> Coherent(Now()) && Evicts(v, Now(), {}) && Now().tracked == v.tracked - {victim}
      ensures ok ==> !Loses(Rules(), v, victim) && Evacuated(Rules(), v, Now(), victim)
      ensures !ok ==> Now() == old(Now()) && Loses(Rules(), v, victim)
    {
      CoherentDram(v, victim);
      assert FitAt(v.contents, victim);
      var entry := index[victim];
      var blob := dram[entry.address..entry.address + entry.length];
      var status, loc := WriteToStore(victim, blob, entry.checksum);
      ok := status == Ok;
      if ok {
        assert WroteIf(old(Now()), Now(), victim, blob, loc, true);
        var moved := entry.(tier := TIER_NVME, address := loc.offset, segmentId := loc.segId);
        DemoteEvicts(v, victim, moved, Now().log);
        SetFields(index[victim := moved], dram, contents, owner, place[victim := |v.log|]);
        FreeSlot(entry.address, v.owner[victim]);
        DemoteEvacuates(Rules(), v, victim, moved, Now().log);
      }
    }

    /** What becomes of one victim: forgotten if it has left DRAM already, demoted if it is
        worth it and the blob store takes it, dropped otherwise. */
    method Evacuate(victim: StorageKey, ghost v: View) returns (ghost lost: set<StorageKey>)
      requires Parts() && t1 != null && Coherent(v) && Now() == Forgotten(v, victim)
      requires AllFit(v.contents) && (t2 != null ==> |t2.abs.segs| < 0x1_0000_0000)
      modifies this, t1, T2Repr()
      ensures Parts() && isOpen == old(isOpen) && prompts == old(prompts) && Coherent(Now()) && Evicts(v, Now(), lost) && Now().tracked == v.tracked - {victim}
      ensures unchanged(slru.prot) && unchanged(slru.prob)
      ensures Evacuated(Rules(), v, Now(), victim) && lost == LostBy(Rules(), v, victim) && forall k :: k in lost ==> MayLose(v, k)
      ensures t2 != null ==> |t2.abs.segs| <= old(|t2.abs.segs|) + 1
    {
      assert slru.prot !in T2Repr() && slru.prob !in T2Repr();
      lost := {};
      CoherentFacts(v, victim);
      if victim !in index {
        ForgetEvicts(v, victim);
        return;
      }
      if index[victim].tier != TIER_DRAM {
        ForgetEvicts(v, victim);
        return;
      }
      var demoted := false;
      if t2 != null && index[victim].cost >= admission.minCost {
        demoted := Demote(victim, v);
      }
      if !demoted {
        LossesMayBe(v, victim);
        Drop(victim, v);
        lost := {victim};
      }
    }

    lemma LossesMayBe(v: View, k: StorageKey)
      requires Coherent(v) && InDram(v.index, k) && (t2 == null || v.index[k].cost < admission.minCost || Loses(Rules(), v, k))
      ensures Loses(Rules(), v, k) && MayLose(v, k)
    {
      CoherentDram(v, k);
    }

    lemma StillFits(v: View, w: View, lost: set<StorageKey>)
      requires AllFit(v.contents) && Evicts(v, w, lost)
      ensures AllFit(w.contents)
    {
      forall k ensures FitAt(w.contents, k) {
        assert FitAt(v.contents, k);
      }
    }

    lemma LostEarlier(u: View, v: View, lost: set<StorageKey>, k: StorageKey)
      requires Evicts(u, v, lost) && MayLose(v, k)
      ensures MayLose(u, k)
    {
      assert DramKept(u, v, k);
    }

    ghost predicate EvictedIf(first: View, v: View, lost: set<StorageKey>, asked: bool) {
      Coherent(v) && AllFit(v.contents) && Evicts(first, v, lost) && forall k :: k in lost ==> MayLose(first, k)
    }

    /** From `first` on, eviction has lost the keys of `lost`, each for a reason; unfolded on
        demand. */
    ghost predicate Evicted(first: View, v: View, lost: set<StorageKey>) {
      forall asked :: EvictedIf(first, v, lost, asked)
    }

    lemma EvictedNone(v: View)
      requires Coherent(v) && AllFit(v.contents)
      ensures Evicted(v, v, {})
    {
      EvictsNothing(v);
    }

    lemma EvictedFacts(first: View, v: View, lost: set<StorageKey>)
      requires Evicted(first, v, lost)
      ensures Coherent(v) && AllFit(v.contents)
    {
      assert EvictedIf(first, v, lost, true);
    }

    lemma EvictedMore(first: View, v: View, w: View, lost: set<StorageKey>, more: set<StorageKey>)
      requires Evicted(first, v, lost) && Coherent(w) && Evicts(v, w, more)
      requires forall k :: k in more ==> MayLose(v, k)
      ensures Evicted(first, w, lost + more)
    {
      assert EvictedIf(first, v, lost, true);
      EvictsThen(first, v, w, lost, more);
      StillFits(v, w, more);
      LostSince(first, v, lost, more);
    }

    ghost predicate RoomForIds()
      reads t2, slru.prot, slru.prob
    {
      Ids() <= 0x1_0000_0000
    }

    lemma OneFewer(keys: set<StorageKey>, k: StorageKey)
      requires k in keys
      ensures |keys - {k}| == |keys| - 1
    {
    }

    ghost predicate SweptIf(first: Snap, n: nat, s: Snap, lost: set<StorageKey>, asked: bool) {
      Evicted(first.view, s.view, lost) && Turns(Rules(), n, first, s, lost)
    }

    /** From `first` on, `n` turns of the eviction loop have lost the keys of `lost`; unfolded on demand. */
    ghost predicate Swept(first: Snap, n: nat, s: Snap, lost: set<StorageKey>) {
      forall asked :: SweptIf(first, n, s, lost, asked)
    }

    lemma SweptFacts(first: Snap, n: nat, s: Snap, lost: set<StorageKey>)
      requires Swept(first, n, s, lost)
      ensures Evicted(first.view, s.view, lost) && Turns(Rules(), n, first, s, lost) && Coherent(s.view) && AllFit(s.view.contents)
    {
      assert SweptIf(first, n, s, lost, true);
      EvictedFacts(first.view, s.view, lost);
    }

    lemma SweptNone(s: Snap)
      requires Coherent(s.view) && AllFit(s.view.contents)
      ensures Swept(s, 0, s, {})
    {
      EvictedNone(s.view);
      NoTurns(Rules(), s);
    }

    lemma NextTurn(first: Snap, n: nat, s: Snap, t: Snap, lost: set<StorageKey>, victim: StorageKey, gone: set<StorageKey>)
      requires Swept(first, n, s, lost) && Full(s.view.classes)
      requires FollowsPolicy(s.policy, t.policy, Some(victim)) && Evacuated(Rules(), s.view, t.view, victim) && gone == LostBy(Rules(), s.view, victim)
      requires Coherent(t.view) && Evicts(s.view, t.view, gone) && forall k :: k in gone ==> MayLose(s.view, k)
      ensures Swept(first, n + 1, t, lost + gone)
    {
      SweptFacts(first, n, s, lost);
      assert FollowsPolicyIf(s.policy, t.policy, Some(victim), true);
      assert TurnIf(Rules(), s, t, victim, true);
      OneMoreTurn(Rules(), n, first, s, lost, t, victim);
      EvictedMore(first.view, s.view, t.view, lost, gone);
    }

    /** One turn of the eviction loop, unless there is nothing left to evict. */
    method EvictNext(ghost first: Snap, ghost n: nat, ghost lost: set<StorageKey>) returns (found: bool, ghost all: set<StorageKey>)
      requires Parts() && t1 != null && RoomForIds() && Crowded() && Swept(first, n, Here(), lost)
      modifies this, t1, T2Repr(), slru.prot.Repr, slru.prob.Repr
      ensures Parts() && isOpen == old(isOpen) && prompts == old(prompts) && Ids() <= old(Ids())
      ensures slru.prot.Repr == old(slru.prot.Repr) && slru.prob.Repr == old(slru.prob.Repr)
      ensures found ==> |Tracked()| < old(|Tracked()|) && Swept(first, n + 1, Here(), all)
      ensures !found ==> Tracked() == {} && Swept(first, n, Here(), all)
    {
      ghost var s := Here();
      SweptFacts(first, n, s, lost);
      var victim := PickVictim();
      found, all := victim.Some?, lost;
      if found {
        ghost var gone := Evacuate(victim.value, s.view);
        NextTurn(first, n, s, Here(), lost, victim.value, gone);
        OneFewer(s.view.tracked, victim.value);
        all := lost + gone;
      }
    }

    /** More than 95% of the DRAM capacity is handed out. */
    ghost predicate Crowded()
      reads t1
    {
      Full(ClassesOf(t1))
    }

    method OverLimit() returns (over: bool)
      requires Parts() && t1 != null
      ensures Parts() && Here() == old(Here()) && isOpen == old(isOpen) && prompts == old(prompts) && over == Crowded()
      ensures slru.prot.Repr == old(slru.prot.Repr) && slru.prob.Repr == old(slru.prob.Repr)
      ensures t2 != null ==> t2.abs == old(t2.abs)
    {
      var used := t1.UsedBytes();
      slru.Untouched();
      if t2 != null { t2.Untouched(); }
      over := used * 20 > t1.totalBytes * 19;
    }

    lemma NoSlab()
      requires t1 == null
      ensures !Crowded()
    {
    }

    /** Evicts while DRAM is more than 95% full and a key is left to evict, and no longer. */
    method EvictIfNeeded() returns (ghost lost: set<StorageKey>)
      requires Parts() && Coherent(Now()) && AllFit(contents) && RoomForIds()
      modifies this, t1, T2Repr(), slru.prot.Repr, slru.prob.Repr
      ensures Parts() && isOpen == old(isOpen) && prompts == old(prompts) && Evicted(old(Now()), Now(), lost)
      ensures slru.prot.Repr == old(slru.prot.Repr) && slru.prob.Repr == old(slru.prob.Repr)
      ensures (!Crowded() || Tracked() == {}) && Ids() <= old(Ids())
      ensures EvictsTo(Rules(), old(Here()), Here(), lost)
      ensures !old(Crowded()) ==> Here() == old(Here()) && lost == {}
    {
      lost := {};
      ghost var first, n: nat := Here(), 0;
      SweptNone(first);
      if t1 != null {
        n, lost := Sweep(first);
      } else {
        NoSlab();
      }
      SweptFacts(first, n, Here(), lost);
      SweptTo(first, n, Here(), lost);
    }

    lemma SweptTo(first: Snap, n: nat, s: Snap, lost: set<StorageKey>)
      requires Swept(first, n, s, lost) && (!Full(s.view.classes) || Slru.Tracked(s.policy) == {})
      ensures EvictsTo(Rules(), first, s, lost) && (!Full(first.view.classes) ==> s == first && lost == {})
    {
      SweptFacts(first, n, s, lost);
      if !Full(first.view.classes) { EvictsNoneBelow(Rules(), first, s, lost); }
    }

    method Sweep(ghost first: Snap) returns (ghost n: nat, ghost lost: set<StorageKey>)
      requires Parts() && t1 != null && RoomForIds() && Swept(first, 0, Here(), {})
      modifies this, t1, T2Repr(), slru.prot.Repr, slru.prob.Repr
      ensures Parts() && isOpen == old(isOpen) && prompts == old(prompts) && Swept(first, n, Here(), lost)
      ensures slru.prot.Repr == old(slru.prot.Repr) && slru.prob.Repr == old(slru.prob.Repr)
      ensures (!Crowded() || Tracked() == {}) && Ids() <= old(Ids())
    {
      n, lost := 0, {};
      var over := OverLimit();
      while over
        invariant Parts() && isOpen == old(isOpen) && prompts == old(prompts) && Swept(first, n, Here(), lost) && Ids() <= old(Ids())
        invariant slru.prot.Repr == old(slru.prot.Repr) && slru.prob.Repr == old(slru.prob.Repr)
        invariant over == Crowded()
        decreases |Tracked()|
      {
        var found: bool;
        found, lost := EvictNext(first, n, lost);
        if found { n := n + 1; }
        over := OverLimit();
        if !found {
          break;
        }
      }
    }

    lemma LostSince(u: View, v: View, lost: set<StorageKey>, more: set<StorageKey>)
      requires Evicts(u, v, lost) && Coherent(v) && forall k :: k in more ==> MayLose(v, k)
      ensures forall k :: k in more ==> MayLose(u, k)
    {
      forall k | k in more ensures MayLose(u, k) {
        LostEarlier(u, v, lost, k);
      }
    }

    // ---- The engine between calls ----

    ghost predicate SaneIf(v: View, prompts: set<StorageKey>, asked: bool) {
      && Coherent(v) && AllFit(v.contents) && CheapArePrompts(v.index, admission.minCost, prompts)
      && Stamped(v.index, v.contents)
    }

    ghost predicate Sane(v: View, prompts: set<StorageKey>) {
      forall asked :: SaneIf(v, prompts, asked)
    }

    /** Unless the dirty flag is set, the checkpoint and the index agree on the blob store's keys. */
    ghost predicate Saved()
      reads this, ckpt
    {
      ckpt.dirty || Agrees(ckpt.hash, ckpt.file, index)
    }

    ghost predicate Valid()
      reads this, t1, t2, T2Repr(), slru.prot, slru.prob, slru.prot.Repr, slru.prob.Repr, ckpt
    {
      Parts() && Sane(Now(), prompts) && Saved()
    }

    /** The engine's objects are as they were. */
    twostate predicate Still()
      reads this, t1, t2, T2Repr(), slru.prot, slru.prob, slru.prot.Repr, slru.prob.Repr
    {
      && Parts() && Now() == old(Now()) && slru.Model() == old(slru.Model()) && isOpen == old(isOpen) && prompts == old(prompts)
      && slru.prot.Repr == old(slru.prot.Repr) && slru.prob.Repr == old(slru.prob.Repr)
      && (t2 != null ==> t2.abs == old(t2.abs))
    }

    twostate lemma StaysStill()
      requires old(Parts()) && unchanged(this) && unchanged(old(slru.prot.Repr)) && unchanged(old(slru.prob.Repr))
      requires t1 != null ==> unchanged(t1)
      requires t2 != null ==> unchanged(t2.Repr)
      ensures Still()
    {
      slru.Untouched();
      if t2 != null { t2.Untouched(); }
    }

    /** The share of the DRAM capacity that is handed out. */
    ghost function Utilization(): real
      reads t1
    {
      if t1 != null && t1.totalBytes > 0 && Slab.AllOk(t1.classes)
      then Slab.Used(t1.classes) as real / t1.totalBytes as real else 0.0
    }

    lemma ShareAbove(used: real, total: real)
      requires total > 0.0
      ensures used / total > 0.95 <==> used > total * 0.95
    {
      var u := used / total;
      assert u * total == used;
    }

    /** The limit of the eviction loop is 95% of the utilization that admission looks at. */
    lemma CrowdedIsShare()
      requires Parts()
      ensures Crowded() <==> Utilization() > 0.95
    {
      if t1 != null {
        Slab.UsedAndFree(t1.classes);
        if t1.totalBytes > 0 {
          ShareAbove(Slab.Used(t1.classes) as real, t1.totalBytes as real);
        }
      }
    }

    method StorageUtilization() returns (use: real)
      requires Parts()
      ensures Still() && use == old(Utilization())
    {
      use := 0.0;
      if t1 != null && t1.totalBytes > 0 {
        var used := t1.UsedBytes();
        use := used as real / t1.totalBytes as real;
      }
      StaysStill();
    }

    /** A new entry for a blob, not yet placed. */
    method NewEntry(blob: Bytes, opts: A.PutOpts, now: U48) returns (entry: IndexEntry)
      requires Parts() && |blob| <= U32_MAX
      ensures Still() && entry == FreshEntry(blob, opts, now)
    {
      var crc := Crc32c.ComputeCrc32(blob);
      entry := IndexEntry(TIER_DRAM, 0, |blob|, 0, 0, opts.cost, now, 1, 0, opts.numTokens, now, crc as int, Zeros(18));
      StaysStill();
    }

    method NoteDirty()
      requires Parts()
      modifies ckpt`dirty
      ensures Still() && ckpt.dirty
    {
      ckpt.MarkDirty();
      StaysStill();
    }

    // ---- Put ----

    /** Why a key may be lost by a put: there is no blob store, its bytes are a system prompt
        (the only bytes admitted below the minimum cost), or their length is refused. */
    ghost predicate LossReason(contents: Contents, prompts: set<StorageKey>, k: StorageKey) {
      k in contents && (t2 == null || k in prompts || |contents[k]| > U32_MAX - ENTRY_HEADER_SIZE)
    }

    function PromptsAfter(prompts: set<StorageKey>, key: StorageKey, opts: A.PutOpts): set<StorageKey> {
      if opts.entryType.SystemPrompt? then prompts + {key} else prompts - {key}
    }

    /** The effect of a successful put: a map update, less the keys lost for a reason. The slot of an
        overwritten DRAM entry is leaked, the record of an overwritten blob-store entry is left
        alive, and nothing else; the blob store has only been appended to. */
    ghost predicate Puts(v: View, w: View, key: StorageKey, blob: Bytes, after: set<StorageKey>, lost: set<StorageKey>) {
      && w.contents == v.contents[key := blob] - lost
      && (forall k :: k in lost ==> LossReason(v.contents[key := blob], after, k))
      && (forall h :: LosesOld(v, w, key, h)) && (forall n :: LosesRecord(v, w, key, n))
      && v.log <= w.log && w.dead == v.dead
      && (Tight(v) && !InDram(v.index, key) ==> Tight(w)) && (InDram(v.index, key) ==> !Tight(w))
    }

    lemma StoredFits(v: View, m: View, prompts: set<StorageKey>, key: StorageKey, blob: Bytes, entry: IndexEntry)
      requires Sane(v, prompts) && Stores(v, m, key, blob, entry) && FitsBlock(|blob|)
      ensures Coherent(m) && AllFit(m.contents)
    {
      assert SaneIf(v, prompts, true);
      forall k ensures FitAt(m.contents, k) {
        assert FitAt(v.contents, k);
      }
    }

    lemma PutEffect(v: View, m: View, w: View, prompts: set<StorageKey>, key: StorageKey, blob: Bytes, opts: A.PutOpts, entry: IndexEntry, lost: set<StorageKey>)
      requires Sane(v, prompts) && Stores(v, m, key, blob, entry) && Evicted(m, w, lost)
      requires opts.entryType.SystemPrompt? || entry.cost >= admission.minCost
      requires entry.checksum == CrcOf(blob)
      ensures var after := PromptsAfter(prompts, key, opts); Sane(w, after) && Puts(v, w, key, blob, after, lost)
      ensures Filed(v, w, key, entry)
    {
      assert SaneIf(v, prompts, true) && EvictedIf(m, w, lost, true);
      var after := PromptsAfter(prompts, key, opts);
      StoreKeepsCheap(v, m, key, blob, entry, admission.minCost, prompts, opts.entryType.SystemPrompt?);
      EvictKeepsCheap(m, w, lost, admission.minCost, after);
      StoreKeepsStamps(v, m, key, blob, entry);
      EvictKeepsStamps(m, w, lost);
      StoreThenEvict(v, m, w, key, blob, entry, lost);
      StoreThenEvictFiles(v, m, w, key, blob, entry, lost);
      TightAfterPut(v, m, w, key, blob, entry, lost);
      forall k | k in lost ensures LossReason(v.contents[key := blob], after, k) {
        assert MayLose(m, k) && CheapAt(m.index, admission.minCost, after, k);
      }
    }

    lemma NotCrowded(v: View)
      requires v == Now() && Sane(v, prompts) && Tight(v) && v.tracked == {}
      ensures !Crowded()
    {
      assert SaneIf(v, prompts, true);
      TightIdle(v);
    }

    ghost method NotePrompts(after: set<StorageKey>)
      requires Parts()
      modifies this`prompts
      ensures Parts() && Here() == old(Here()) && isOpen == old(isOpen) && prompts == after
      ensures slru.prot.Repr == old(slru.prot.Repr) && slru.prob.Repr == old(slru.prob.Repr)
      ensures t2 != null ==> t2.abs == old(t2.abs)
      ensures Crowded() == old(Crowded())
    {
      prompts := after;
      slru.Untouched();
      if t2 != null { t2.Untouched(); }
    }

    /** The blob is in its place: the checkpoint is out of date, and DRAM may be too full. */
    method MakeRoom(key: StorageKey, blob: Bytes, opts: A.PutOpts, ghost entry: IndexEntry, ghost s: Snap) returns (ghost lost: set<StorageKey>)
      requires Parts() && Sane(s.view, prompts) && Stores(s.view, Now(), key, blob, entry) && RoomForIds() && FitsBlock(|blob|)
      requires Filled(s, Here(), key, |blob|, entry.cost)
      requires (opts.entryType.SystemPrompt? || entry.cost >= admission.minCost) && entry.checksum == CrcOf(blob)
      modifies this, t1, T2Repr(), slru.prot.Repr, slru.prob.Repr, ckpt`dirty
      ensures Parts() && isOpen == old(isOpen) && ckpt.dirty && Ids() <= old(Ids())
      ensures slru.prot.Repr == old(slru.prot.Repr) && slru.prob.Repr == old(slru.prob.Repr)
      ensures prompts == PromptsAfter(old(prompts), key, opts) && Sane(Now(), prompts) && Puts(s.view, Now(), key, blob, prompts, lost)
      ensures Filed(s.view, Now(), key, entry) && PutsTo(Rules(), s, Here(), key, blob, entry, lost)
      ensures Tight(Now()) ==> !Crowded()
    {
      ghost var m, before := Here(), prompts;
      StoredFits(s.view, m.view, before, key, blob, entry);
      NoteDirty();
      assert ckpt !in T2Repr() && ckpt !in slru.prot.Repr && ckpt !in slru.prob.Repr && (ckpt as object) != t1;
      lost := EvictIfNeeded();
      PutEffect(s.view, m.view, Now(), before, key, blob, opts, entry, lost);
      StoreThenEvictions(Rules(), s, m, Here(), key, blob, entry, lost);
      NotePrompts(PromptsAfter(before, key, opts));
      if Tight(Now()) && Tracked() == {} {
        NotCrowded(Now());
      }
    }

    ghost predicate PutDoneIf(s: Snap, t: Snap, key: StorageKey, blob: Bytes, entry: IndexEntry, after: set<StorageKey>, lost: set<StorageKey>, asked: bool) {
      && Puts(s.view, t.view, key, blob, after, lost) && Filed(s.view, t.view, key, entry)
      && PutsTo(Rules(), s, t, key, blob, entry, lost) && Gentle(s, t, key, blob, entry.cost, lost)
    }

    /** All that a successful put does: its effect on the map, on the entries of the index, and on slots
        and policy in the turns of the eviction loop, of which there is none if it finds room; unfolded
        on demand. */
    ghost predicate PutDone(s: Snap, t: Snap, key: StorageKey, blob: Bytes, entry: IndexEntry, after: set<StorageKey>, lost: set<StorageKey>) {
      forall asked :: PutDoneIf(s, t, key, blob, entry, after, lost, asked)
    }

    lemma CoherentSlab(v: View)
      requires Coherent(v)
      ensures Slab.WellFormed(v.classes)
    {
      assert ConsistentIf(v, true);
    }

    /** Stores what has been admitted, then makes room. */
    method PutAdmitted(key: StorageKey, blob: Bytes, opts: A.PutOpts, entry: IndexEntry) returns (status: Status, ghost lost: set<StorageKey>)
      requires Valid() && RoomForOneMore() && FitsBlock(|blob|) && entry.length == |blob|
      requires (opts.entryType.SystemPrompt? || entry.cost >= admission.minCost) && entry.checksum == CrcOf(blob)
      modifies this, t1, T2Repr(), slru.prot.Repr, slru.prob.Repr, ckpt`dirty
      ensures Valid() && isOpen == old(isOpen) && Ids() <= old(Ids()) + 1
      ensures fresh(slru.prot.Repr - old(slru.prot.Repr)) && fresh(slru.prob.Repr - old(slru.prob.Repr))
      ensures status == if old(DramTakes(|blob|)) then Ok
                        else if t2 == null then IOError
                        else if |blob| > U32_MAX - ENTRY_HEADER_SIZE then InvalidArgument else Ok
      ensures status != Ok ==> Here() == old(Here()) && prompts == old(prompts)
      ensures status == Ok ==> prompts == PromptsAfter(old(prompts), key, opts) && PutDone(old(Here()), Here(), key, blob, entry, prompts, lost)
      ensures status == Ok ==> Tight(Now()) ==> !Crowded()
    {
      lost := {};
      ghost var s := Here();
      assert Coherent(s.view) by { assert SaneIf(s.view, prompts, true); }
      status := Place(key, blob, entry);
      if status == Ok {
        lost := MakeRoom(key, blob, opts, entry, s);
        CoherentSlab(s.view);
        RoomyPut(Rules(), s, Here(), key, blob, entry, lost);
        assert PutDoneIf(s, Here(), key, blob, entry, prompts, lost, true);
      }
    }

    ghost predicate AdmittedIf(opts: A.PutOpts, use: real, asked: bool) {
      A.Evaluate(admission, opts, use) == A.Admit
    }

    /** Admission lets the put in at this utilization; unfolded on demand. */
    ghost predicate Admitted(opts: A.PutOpts, use: real) {
      forall asked :: AdmittedIf(opts, use, asked)
    }

    /** Asks admission, at the utilization of the moment. */
    method Admits(opts: A.PutOpts) returns (ok: bool)
      requires Parts()
      ensures Still() && ok == Admitted(opts, old(Utilization()))
      ensures ok ==> opts.entryType.SystemPrompt? || opts.cost >= admission.minCost
    {
      var use := StorageUtilization();
      A.AdmittedIsWorth(admission, opts, use);
      ok := A.Evaluate(admission, opts, use) == A.Admit;
      assert ok == AdmittedIf(opts, use, true);
    }

    /** Admission, then the length check, then DRAM or the blob store, then eviction. */
    method Put(key: StorageKey, blob: Bytes, opts: A.PutOpts, now: U48) returns (status: Status, ghost lost: set<StorageKey>)
      requires Valid() && RoomForOneMore() && FitsBlock(|blob|)
      modifies this, t1, T2Repr(), slru.prot.Repr, slru.prob.Repr, ckpt`dirty
      ensures Valid() && isOpen == old(isOpen) && Ids() <= old(Ids()) + 1
      ensures fresh(slru.prot.Repr - old(slru.prot.Repr)) && fresh(slru.prob.Repr - old(slru.prob.Repr))
      ensures status == if !isOpen then Shutdown
                        else if !Admitted(opts, old(Utilization())) then RejectedAdmission
                        else if |blob| > U32_MAX then InvalidArgument
                        else if old(DramTakes(|blob|)) then Ok
                        else if t2 == null then IOError
                        else if |blob| > U32_MAX - ENTRY_HEADER_SIZE then InvalidArgument else Ok
      ensures status != Ok ==> Here() == old(Here()) && prompts == old(prompts)
      ensures status == Ok ==> prompts == PromptsAfter(old(prompts), key, opts) && |blob| <= U32_MAX
      ensures status == Ok ==> PutDone(old(Here()), Here(), key, blob, FreshEntry(blob, opts, now), prompts, lost)
      ensures status == Ok ==> Tight(Now()) ==> !Crowded()
    {
      lost := {};
      if !isOpen {
        return Shutdown, {};
      }
      var admitted := Admits(opts);
      if !admitted {
        return RejectedAdmission, {};
      }
      if |blob| > U32_MAX {
        return InvalidArgument, {};
      }
      var entry := NewEntry(blob, opts, now);
      status, lost := PutAdmitted(key, blob, opts, entry);
    }

    // ---- Get ----

    lemma TouchSane(v: View, prompts: set<StorageKey>, k: StorageKey, e: IndexEntry)
      requires Sane(v, prompts) && k in v.index && SamePlace(v.index[k], e) && e.cost == v.index[k].cost && e.checksum == v.index[k].checksum
      ensures Sane(Touched(v, k, e), prompts) && LeaksAsBefore(v, Touched(v, k, e))
      ensures Tight(v) ==> Tight(Touched(v, k, e))
    {
      assert SaneIf(v, prompts, true);
      CoherentTouch(v, k, e);
      if Tight(v) { TightKept(v, Touched(v, k, e)); }
      var index := v.index[k := e];
      forall j ensures CheapAt(index, admission.minCost, prompts, j) && StampedAt(index, v.contents, j) {
        assert CheapAt(v.index, admission.minCost, prompts, j) && StampedAt(v.index, v.contents, j);
      }
    }

    /** The access time and the saturating access counter. */
    method Touch(key: StorageKey, now: U48)
      requires Valid() && key in index
      modifies this, ckpt`dirty
      ensures Valid() && isOpen == old(isOpen) && prompts == old(prompts) && unchanged(slru.prot) && unchanged(slru.prob)
      ensures contents == old(contents) && LeaksAsBefore(old(Now()), Now()) && Tracked() == old(Tracked()) && Ids() == old(Ids())
      ensures index == old(index)[key := TouchedEntry(old(index)[key], now)] && (old(Tight(Now())) ==> Tight(Now()))
      ensures SameRecords(old(Now()), Now())
    {
      assert slru.prot != this as object && slru.prob != this as object;
      var e := index[key];
      var touched := e.(lastAccess := now, accessCount := if e.accessCount < 0xFFFF then e.accessCount + 1 else e.accessCount);
      TouchSane(Now(), prompts, key, touched);
      SetFields(index[key := touched], dram, contents, owner, place);
      NoteDirty();
    }

    method ReadEntry(e: IndexEntry, bufLen: nat, ghost k: StorageKey) returns (status: Status, data: Bytes)
      requires Valid() && t2 != null && InNvme(index, k) && e == index[k]
      ensures Still() && k in contents
      ensures status == Ok ==> data == contents[k] && |data| <= bufLen
      ensures status != Ok ==> data == []
      ensures |contents[k]| > bufLen ==> status == BufferTooSmall
      ensures |contents[k]| <= bufLen ==> status == Ok || (status == NotFound && contents[k] == [])
    {
      ghost var v := Now();
      assert Coherent(v) by { assert SaneIf(v, prompts, true); }
      CoherentNvme(v, k);
      BlobSync.SoundRead(t2.c, t2.abs, place[k], bufLen);
      var loc := B.Location(e.segmentId, e.address, e.length, EntryDiskSize(e.length));
      status, data := t2.Read(loc, bufLen);
      StaysStill();
    }

    method ReadDram(e: IndexEntry, k: StorageKey) returns (data: Bytes)
      requires Valid() && InDram(index, k) && e == index[k]
      modifies slru.prot.Repr, slru.prob.Repr
      ensures Valid() && Now() == old(Now()) && isOpen == old(isOpen) && prompts == old(prompts)
      ensures fresh(slru.prot.Repr - old(slru.prot.Repr)) && fresh(slru.prob.Repr - old(slru.prob.Repr))
      ensures k in contents && data == contents[k] && e.length == |data|
      ensures slru.Model() == Slru.Access(slru.config, old(slru.Model()), k, e.cost)
    {
      SaneDram(Now(), k);
      data := dram[e.address..e.address + e.length];
      NoteAccess(k, e.cost);
    }

    lemma SaneDram(v: View, k: StorageKey)
      requires Sane(v, prompts) && InDram(v.index, k)
      ensures v.index[k].address + v.index[k].length <= |v.dram|
      ensures k in v.contents && v.dram[v.index[k].address..v.index[k].address + v.index[k].length] == v.contents[k]
    {
      assert SaneIf(v, prompts, true);
      CoherentDram(v, k);
    }

    lemma KnownTier(v: View, k: StorageKey)
      requires v == Now() && Sane(v, prompts)
      ensures k in v.contents <==> k in v.index
      ensures k in v.index ==> InDram(v.index, k) || InNvme(v.index, k)
      ensures InDram(v.index, k) ==> t1 != null && k in v.contents && v.index[k].length == |v.contents[k]|
      ensures InNvme(v.index, k) ==> t2 != null
    {
      assert SaneIf(v, prompts, true);
      CoherentFacts(v, k);
      if InDram(v.index, k) { CoherentDram(v, k); }
      if InNvme(v.index, k) { CoherentNvme(v, k); }
    }

    /** The bytes of a key of the index, from the tier its entry names. */
    method Fetch(key: StorageKey, bufLen: nat) returns (status: Status, data: Bytes)
      requires Valid() && key in index && (InDram(index, key) ==> t1 != null && index[key].length <= bufLen) && (InNvme(index, key) ==> t2 != null)
      requires InDram(index, key) || InNvme(index, key)
      modifies slru.prot.Repr, slru.prob.Repr
      ensures Valid() && Now() == old(Now()) && isOpen == old(isOpen) && prompts == old(prompts)
      ensures fresh(slru.prot.Repr - old(slru.prot.Repr)) && fresh(slru.prob.Repr - old(slru.prob.Repr))
      ensures key in contents && (status != Ok ==> data == [])
      ensures |contents[key]| > bufLen ==> status == BufferTooSmall
      ensures |contents[key]| <= bufLen ==>
                (status == Ok && data == contents[key]) || (status == NotFound && contents[key] == [] && InNvme(index, key))
      ensures slru.Model() == AfterGet(slru.config, true, old(Here()), key, bufLen)
    {
      var e := index[key];
      if e.tier == TIER_DRAM {
        data := ReadDram(e, key);
        status := Ok;
      } else {
        status, data := ReadEntry(e, bufLen, key);
      }
    }

    method FetchAndTouch(key: StorageKey, bufLen: nat, now: U48) returns (status: Status, data: Bytes)
      requires Valid() && key in index && (InDram(index, key) ==> t1 != null && index[key].length <= bufLen) && (InNvme(index, key) ==> t2 != null)
      requires InDram(index, key) || InNvme(index, key)
      modifies this, slru.prot.Repr, slru.prob.Repr, ckpt`dirty
      ensures Valid() && isOpen == old(isOpen) && prompts == old(prompts)
      ensures fresh(slru.prot.Repr - old(slru.prot.Repr)) && fresh(slru.prob.Repr - old(slru.prob.Repr))
      ensures contents == old(contents) && LeaksAsBefore(old(Now()), Now()) && Tracked() == old(Tracked()) && Ids() == old(Ids())
      ensures key in contents && (status != Ok ==> data == [])
      ensures |contents[key]| > bufLen ==> status == BufferTooSmall
      ensures |contents[key]| <= bufLen ==>
                (status == Ok && data == contents[key]) || (status == NotFound && contents[key] == [] && InNvme(old(index), key))
      ensures index == old(index)[key := TouchedEntry(old(index)[key], now)] && (old(Tight(Now())) ==> Tight(Now()))
      ensures SameRecords(old(Now()), Now()) && slru.Model() == AfterGet(slru.config, true, old(Here()), key, bufLen)
    {
      status, data := Fetch(key, bufLen);
      Touch(key, now);
    }

    /** A get that succeeds returns exactly the bytes the key stands for. It fails only for an
        absent key, a short buffer, or an empty blob read from disk. */
    method Get(key: StorageKey, bufLen: nat, now: U48) returns (status: Status, data: Bytes)
      requires Valid()
      modifies this, slru.prot.Repr, slru.prob.Repr, ckpt`dirty
      ensures Valid() && isOpen == old(isOpen) && prompts == old(prompts)
      ensures fresh(slru.prot.Repr - old(slru.prot.Repr)) && fresh(slru.prob.Repr - old(slru.prob.Repr))
      ensures contents == old(contents) && LeaksAsBefore(old(Now()), Now()) && Tracked() == old(Tracked()) && Ids() == old(Ids())
      ensures !isOpen ==> status == Shutdown
      ensures isOpen && key !in contents ==> status == NotFound
      ensures isOpen && key in contents && |contents[key]| > bufLen ==> status == BufferTooSmall
      ensures isOpen && key in contents && |contents[key]| <= bufLen ==>
                (status == Ok && data == contents[key]) || (status == NotFound && contents[key] == [] && InNvme(old(index), key))
      ensures status != Ok ==> data == []
      ensures index == if isOpen && key in old(index) && (InDram(old(index), key) ==> old(index)[key].length <= bufLen)
                       then old(index)[key := TouchedEntry(old(index)[key], now)] else old(index)
      ensures old(Tight(Now())) ==> Tight(Now())
      ensures SameRecords(old(Now()), Now()) && slru.Model() == AfterGet(slru.config, isOpen, old(Here()), key, bufLen)
    {
      status, data := Shutdown, [];
      LeaksSame(Now());
      if !isOpen {
        return;
      }
      KnownTier(Now(), key);
      if key !in index {
        return NotFound, [];
      }
      if index[key].tier == TIER_DRAM && index[key].length > bufLen {
        return BufferTooSmall, [];
      }
      status, data := FetchAndTouch(key, bufLen, now);
    }

    lemma LeaksSame(v: View)
      ensures LeaksAsBefore(v, v)
    {
      forall h ensures SameLeakAt(v, v, h) {
      }
      forall n ensures SameOrphanAt(v, v, n) {
      }
    }

    // ---- Delete ----

    lemma DeletedSane(v: View, w: View, prompts: set<StorageKey>, k: StorageKey)
      requires Sane(v, prompts) && Coherent(w) && w.index == v.index - {k} && w.contents == v.contents - {k}
      requires LeaksAsBefore(v, w) && w.tracked == v.tracked - {k}
      ensures Sane(w, prompts) && (Tight(v) ==> Tight(w))
    {
      if Tight(v) { TightKept(v, w); }
      assert SaneIf(v, prompts, true);
      forall j ensures FitAt(w.contents, j) && CheapAt(w.index, admission.minCost, prompts, j) && StampedAt(w.index, w.contents, j) {
        assert FitAt(v.contents, j) && CheapAt(v.index, admission.minCost, prompts, j) && StampedAt(v.index, v.contents, j);
      }
    }

    method DeleteFromDram(key: StorageKey)
      requires Parts() && Coherent(Now()) && t1 != null && InDram(index, key)
      modifies this, t1, slru.prot.Repr, slru.prob.Repr
      ensures Parts() && isOpen == old(isOpen) && prompts == old(prompts) && Coherent(Now()) && LeaksAsBefore(old(Now()), Now())
      ensures slru.prot.Repr == old(slru.prot.Repr) && slru.prob.Repr == old(slru.prob.Repr)
      ensures Marks(old(Now()), Now(), key)
      ensures index == old(index) - {key} && contents == old(contents) - {key} && Tracked() == old(Tracked()) - {key}
      ensures slru.Model() == Slru.Remove(old(slru.Model()), key)
      ensures t2 != null ==> t2.abs == old(t2.abs)
    {
      assert t2 != null ==> t2 !in slru.prot.Repr && t2 !in slru.prob.Repr && (t2 as object) != this && (t2 as object) != t1;
      ghost var v := Now();
      CoherentDram(v, key);
      CoherentFree(v, key);
      FreeSlot(index[key].address, v.owner[key]);
      SetFields(index - {key}, dram, contents - {key}, owner, place);
      Untrack(key);
    }

    method DeleteFromNvme(key: StorageKey)
      requires Parts() && Coherent(Now()) && t2 != null && InNvme(index, key)
      modifies this, t2, slru.prot.Repr, slru.prob.Repr
      ensures Parts() && isOpen == old(isOpen) && prompts == old(prompts) && Coherent(Now()) && LeaksAsBefore(old(Now()), Now())
      ensures slru.prot.Repr == old(slru.prot.Repr) && slru.prob.Repr == old(slru.prob.Repr)
      ensures Marks(old(Now()), Now(), key)
      ensures index == old(index) - {key} && contents == old(contents) - {key} && Tracked() == old(Tracked()) - {key}
      ensures slru.Model() == Slru.Remove(old(slru.Model()), key)
      ensures |t2.abs.segs| == old(|t2.abs.segs|)
    {
      ghost var v := Now();
      CoherentNvme(v, key);
      CoherentKill(v, key);
      var e := index[key];
      KillRecord(B.Location(e.segmentId, e.address, e.length, EntryDiskSize(e.length)), place[key]);
      SetFields(index - {key}, dram, contents - {key}, owner, place);
      Untrack(key);
    }

    method DeleteEntry(key: StorageKey)
      requires Parts() && Coherent(Now()) && key in index
      requires (InDram(index, key) && t1 != null) || (InNvme(index, key) && t2 != null)
      modifies this, t1, t2, slru.prot.Repr, slru.prob.Repr
      ensures Parts() && isOpen == old(isOpen) && prompts == old(prompts) && Coherent(Now()) && LeaksAsBefore(old(Now()), Now())
      ensures slru.prot.Repr == old(slru.prot.Repr) && slru.prob.Repr == old(slru.prob.Repr)
      ensures index == old(index) - {key} && contents == old(contents) - {key} && Tracked() == old(Tracked()) - {key}
      ensures slru.Model() == Slru.Remove(old(slru.Model()), key)
      ensures Ids() <= old(Ids())
      ensures Marks(old(Now()), Now(), key)
    {
      Snapshots.SubsetSize(Tracked() - {key}, Tracked());
      if index[key].tier == TIER_DRAM {
        DeleteFromDram(key);
      } else {
        DeleteFromNvme(key);
      }
    }

    /** A delete takes away exactly its key. */
    method Del(key: StorageKey) returns (status: Status)
      requires Valid()
      modifies this, t1, t2, slru.prot.Repr, slru.prob.Repr, ckpt`dirty
      ensures Valid() && isOpen == old(isOpen) && prompts == old(prompts) && Ids() <= old(Ids())
      ensures slru.prot.Repr == old(slru.prot.Repr) && slru.prob.Repr == old(slru.prob.Repr)
      ensures status == if !isOpen then Shutdown else if key in old(contents) then Ok else NotFound
      ensures Deletes(old(Now()), Now(), key, status == Ok) && LeaksAsBefore(old(Now()), Now())
      ensures slru.Model() == AfterDelete(old(Here()), key, status == Ok)
    {
      LeaksSame(Now());
      if !isOpen {
        return Shutdown;
      }
      KnownTier(Now(), key);
      if key !in index {
        return NotFound;
      }
      ghost var v := Now();
      assert Coherent(v) by { assert SaneIf(v, prompts, true); }
      DeleteEntry(key);
      DeletedSane(v, Now(), prompts, key);
      NoteDirty();
      status := Ok;
    }

    // ---- The background threads ----

    /** The blob store's flusher comes by between calls: nothing the engine stands for changes. */
    method FlushTurn()
      requires Valid()
      modifies T2Repr()
      ensures Valid() && Here() == old(Here()) && isOpen == old(isOpen) && prompts == old(prompts) && Ids() == old(Ids())
      ensures unchanged(ckpt) && slru.prot.Repr == old(slru.prot.Repr) && slru.prob.Repr == old(slru.prob.Repr)
    {
      assert slru.prot !in T2Repr() && slru.prob !in T2Repr();
      if t2 != null {
        t2.FlushTurn();
        slru.Untouched();
      }
    }

    // ---- Checkpoint and close ----

    /** A turn of the checkpoint thread: a save if the index has changed. Whether or not it
        succeeds, an index that is not dirty agrees with the file on the blob store's keys. */
    method SaveCheckpoint(es: seq<Slot>, timestamp: U64, faults: CheckpointManager.Faults) returns (status: Status)
      requires Valid() && Snapshots.IsSnapshot(es, index)
      modifies ckpt
      ensures Valid() && Still()
      ensures status == if !old(ckpt.dirty) || CheckpointManager.Succeeds(faults, |es|) then Ok else IOError
      ensures if status == Ok then !ckpt.dirty else ckpt.file == old(ckpt.file) && ckpt.dirty
      ensures (old(ckpt.dirty) && CheckpointManager.Succeeds(faults, |es|)) || ckpt.file == old(ckpt.file)
    {
      ghost var wasDirty := ckpt.dirty;
      status := ckpt.SaveIfDirty(es, timestamp, faults);
      if wasDirty && status == Ok {
        CheckpointAgrees(ckpt.hash, ckpt.file, es, index, timestamp);
      }
      StaysStill();
    }

    method MarkClosed()
      requires Valid()
      modifies this`isOpen
      ensures Valid() && !isOpen && Now() == old(Now())
      ensures t2 != null ==> t2.abs == old(t2.abs)
    {
      isOpen := false;
      slru.Untouched();
      if t2 != null { t2.Untouched(); }
    }

    method CloseStore(header: Bytes)
      requires |header| == SEGMENT_HEADER_SIZE && (t2 != null ==> t2.Ready())
      modifies t2
      ensures t2 != null ==> t2.Tied() && B.Shape(t2.c, old(t2.abs)) && t2.abs == B.RewriteHeaders(BlobSync.Stopped(t2.c, old(t2.abs)), header)
    {
      if t2 != null {
        t2.Close(header);
      }
    }

    /** Close: the last checkpoint, then the blob store. */
    method Close(es: seq<Slot>, timestamp: U64, faults: CheckpointManager.Faults, header: Bytes)
      requires Valid() && isOpen && Snapshots.IsSnapshot(es, index) && |header| == SEGMENT_HEADER_SIZE
      modifies this`isOpen, ckpt, t2
      ensures !isOpen && index == old(index) && contents == old(contents) && place == old(place)
      ensures if !old(ckpt.dirty) || CheckpointManager.Succeeds(faults, |es|) then !ckpt.dirty && Agrees(ckpt.hash, ckpt.file, index)
              else ckpt.file == old(ckpt.file)
      ensures t2 != null ==> t2.Tied() && B.Shape(t2.c, old(t2.abs)) && t2.abs == B.RewriteHeaders(BlobSync.Stopped(t2.c, old(t2.abs)), header)
    {
      MarkClosed();
      var _ := SaveCheckpoint(es, timestamp, faults);
      CloseStore(header);
    }
  }
}
