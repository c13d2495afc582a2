/** A clean restart: close, then open a new process over the files that close left behind. */
module Restart {
  import opened Common
  import opened Segment
  import opened Checkpoint
  import opened EngineModel
  import B = BlobProtocol
  import BlobStore
  import BlobSync
  import BlobTheorems
  import CheckpointManager
  import Engine
  import Slab
  import Slru
  import Snapshots

  /** A blob store over the files of a closed one; `dead` is what it counts as given up. */
  method ReopenStore(closed: BlobStore.BlobStore, ghost s: B.State, header: Bytes, ghost dead: set<nat>) returns (store: BlobStore.BlobStore)
    requires closed.Tied() && |header| == SEGMENT_HEADER_SIZE && BlobSync.Sound(closed.c, s) && B.Shape(closed.c, s)
    requires closed.abs == B.RewriteHeaders(BlobSync.Stopped(closed.c, s), header)
    ensures fresh(store.Repr) && store in store.Repr && store.Ready() && store.c == closed.c
    ensures store.abs.log == s.log && store.abs.dead == dead
  {
    ghost var t := closed.abs;
    SoundStops(closed.c, s, header, dead);
    store := new BlobStore.BlobStore(closed.c, BlobTheorems.Reopened(closed.segments), t.log, dead);
  }

  lemma SoundStops(c: B.Config, s: B.State, header: Bytes, dead: set<nat>)
    requires BlobSync.Sound(c, s) && B.Shape(c, s) && |header| == SEGMENT_HEADER_SIZE
    ensures var t := B.RewriteHeaders(BlobSync.Stopped(c, s), header);
            var u := B.Open(c, BlobTheorems.Reopened(t.segs), t.log, dead);
            B.GoodConfig(c) && BlobSync.Sound(c, u) && u.log == s.log && u.dead == dead
  {
    assert BlobSync.SettledIf(c, s, true);
    BlobSync.CloseDurable(c, s, header);
    BlobSync.SoundReopen(c, B.RewriteHeaders(BlobSync.Stopped(c, s), header), dead);
  }

  ghost predicate FitsStore(contents: Contents, capacity: nat) {
    forall k :: k in contents ==> |contents[k]| > U32_MAX - ENTRY_HEADER_SIZE || EntryDiskSize(|contents[k]|) <= capacity
  }

  lemma OpensFrom(w: View, hash: Bytes -> U32, file: Option<Bytes>, log: seq<B.Rec>, dead: set<nat>,
                  classes: seq<Slab.SizeClass>, memory: Bytes)
    requires SavedAs(w, hash, file, log) && forall d :: d in dead ==> d < |log|
    requires Slab.WellFormed(classes) && Mapped(classes, |memory|) && forall h :: !Slab.Live(classes, h)
    ensures Opening(View(Scrubbed(Loaded(hash, file, map[])), KeptContents(w.contents, w.index), classes, memory, map[], {}, log, GivenUp(w, dead), w.place))
    ensures Scrubbed(Loaded(hash, file, map[])) == Kept(w.index)
  {
    ScrubKeeps(w, log, dead);
    assert AgreesIf(hash, file, w.index, true);
  }

  /** A new process over a checkpoint of the view `w` and a store that has outlived it. */
  method OpenOver(e: Engine.Engine, hash: Bytes -> U32, file: Option<Bytes>, store: BlobStore.BlobStore, policy: Slru.Config,
                  t1: Slab.SlabAllocator?, memory: Bytes, ghost w: View, ghost dead: set<nat>) returns (f: Engine.Engine)
    requires SavedAs(w, hash, file, store.abs.log) && store.abs.dead == GivenUp(w, dead) && forall d :: d in dead ==> d < |store.abs.log|
    requires store.Ready() && store in store.Repr && store.c.segmentSize < 0x1_0000_0000_0000_0000
    requires FitsStore(w.contents, store.c.capacity)
    requires Slru.GoodConfig(policy) && |memory| < 0x1_0000_0000_0000_0000
    requires t1 != null ==> t1.Valid() && Mapped(t1.classes, |memory|) && forall h :: !Slab.Live(t1.classes, h)
    requires t1 != null ==> t1 !in store.Repr
    ensures fresh(f) && f.Valid() && f.isOpen && f.t2 == store && store.abs == old(store.abs)
    ensures f.index == Kept(w.index) && f.contents == KeptContents(w.contents, w.index)
  {
    OpensFrom(w, hash, file, store.abs.log, dead, Engine.ClassesOf(t1), memory);
    assert FitsStore(KeptContents(w.contents, w.index), store.c.capacity);
    var ckpt := new CheckpointManager.CheckpointManager(hash, file);
    store.Untouched();
    f := new Engine.Engine.Open(e.admission, policy, t1, memory, store, ckpt, KeptContents(w.contents, w.index), w.place);
  }

  lemma EngineFits(e: Engine.Engine, v: View, prompts: set<StorageKey>)
    requires e.Sane(v, prompts) && e.t2 != null
    ensures Coherent(v) && FitsStore(v.contents, e.t2.c.capacity) && Stamped(v.index, v.contents)
    ensures forall d :: d in v.dead ==> d < |v.log|
  {
    assert e.SaneIf(v, prompts, true);
    assert ConsistentIf(v, true);
    forall k | k in v.contents ensures |v.contents[k]| > U32_MAX - ENTRY_HEADER_SIZE || EntryDiskSize(|v.contents[k]|) <= e.t2.c.capacity {
      assert e.FitAt(v.contents, k);
    }
  }

  /** The file is the checkpoint of `w`, and the records have only been added to since. */
  ghost predicate SavedAs(w: View, hash: Bytes -> U32, file: Option<Bytes>, log: seq<B.Rec>) {
    Outlived(w, log) && Agrees(hash, file, w.index) && |w.index| < 0x1_0000_0000_0000_0000
  }

  /** `w` is the engine as it was when the checkpoint on disk was saved. */
  ghost predicate LastSaved(e: Engine.Engine, w: View)
    requires e.t2 != null
    reads e, e.ckpt, e.t2
  {
    SavedAs(w, e.ckpt.hash, e.ckpt.file, e.t2.abs.log) && FitsStore(w.contents, e.t2.c.capacity)
  }

  /** Close and start a new process. If the last save succeeds, or there was nothing to save, the
      new process has exactly the entries the old one had in the blob store, and each stands for
      the same bytes. If it fails, the new process has the entries of the last save, `w`, and
      each stands for the bytes of then, deleted since or not. Above a hundred million entries
      nothing comes back. */
  method RestartEngine(e: Engine.Engine, es: seq<Slot>, timestamp: U64, faults: CheckpointManager.Faults, header: Bytes,
                       policy: Slru.Config, t1: Slab.SlabAllocator?, memory: Bytes, ghost w: View) returns (f: Engine.Engine)
    requires e.Valid() && e.isOpen && e.t2 != null && Snapshots.IsSnapshot(es, e.index) && |e.index| < 0x1_0000_0000_0000_0000
    requires !(!e.ckpt.dirty || CheckpointManager.Succeeds(faults, |es|)) ==> LastSaved(e, w)
    requires |header| == SEGMENT_HEADER_SIZE && Slru.GoodConfig(policy) && |memory| < 0x1_0000_0000_0000_0000
    requires t1 != null ==> t1.Valid() && Mapped(t1.classes, |memory|) && forall h :: !Slab.Live(t1.classes, h)
    requires t1 != null ==> t1 != e.t1 && t1 !in e.t2.Repr
    modifies e`isOpen, e.ckpt, e.t2
    ensures fresh(f) && f.Valid() && f.isOpen && f.t2 != null
    ensures var last := if !old(e.ckpt.dirty) || CheckpointManager.Succeeds(faults, |es|) then old(e.Now()) else w;
            && f.index == Kept(last.index) && f.contents == KeptContents(last.contents, last.index)
            && f.t2.abs.log == old(e.t2.abs.log) && f.t2.abs.dead == GivenUp(last, old(e.t2.abs.dead))
  {
    ghost var v, s := e.Now(), e.t2.abs;
    ghost var last := if !e.ckpt.dirty || CheckpointManager.Succeeds(faults, |es|) then v else w;
    EngineFits(e, v, e.prompts);
    CloseForRestart(e, es, timestamp, faults, header, v, last);
    var store := ReopenStore(e.t2, s, header, GivenUp(last, s.dead));
    f := OpenOver(e, e.ckpt.hash, e.ckpt.file, store, policy, t1, memory, last, s.dead);
  }

  method CloseForRestart(e: Engine.Engine, es: seq<Slot>, timestamp: U64, faults: CheckpointManager.Faults, header: Bytes,
                         ghost v: View, ghost last: View)
    requires e.Valid() && e.isOpen && e.t2 != null && Snapshots.IsSnapshot(es, e.index)
    requires |header| == SEGMENT_HEADER_SIZE && v == e.Now()
    requires if !e.ckpt.dirty || CheckpointManager.Succeeds(faults, |es|) then last == v else Agrees(e.ckpt.hash, e.ckpt.file, last.index)
    modifies e`isOpen, e.ckpt, e.t2
    ensures Agrees(e.ckpt.hash, e.ckpt.file, last.index) && e.t2.c.segmentSize < 0x1_0000_0000_0000_0000
    ensures e.t2.Tied() && BlobSync.Sound(e.t2.c, old(e.t2.abs)) && B.Shape(e.t2.c, old(e.t2.abs))
    ensures e.t2.abs == B.RewriteHeaders(BlobSync.Stopped(e.t2.c, old(e.t2.abs)), header)
  {
    e.Close(es, timestamp, faults, header);
  }
}
