# The local engine of AttentionDB, modelled and proved

AttentionDB's local engine is a two-tier cache of blobs. Tier one is a DRAM slab; tier two is a
log-structured blob store whose writes go through in-memory blocks and an asynchronous flusher.
An index says where each key is, a cost-weighted segmented LRU picks victims, and a checkpoint
carries the index across a restart. This project models those parts in Dafny and proves that
together they behave like a map that may forget keys, but never gives back wrong bytes.

`dafny verify dfyconfig.toml` checks everything.

## Layout

- `BlobProtocol` is the write-block protocol as a step machine: one event per critical section of
  the block mutex or per unlocked disk operation, for one writer, one flusher and any number of
  readers. `BlobInvariant` says what every state keeps, `BlobWriter` and `BlobFlusher` prove it for
  each step, `BlobTheorems` draws the consequences for whole runs. `BlobOrder` and `BlobCrash` add
  the flush order, crash safety and garbage accounting for plain runs: every entry fits a block,
  none is given up twice, close finds no parked writer, and the flusher finds nothing to drain.
  `BlobReopen` is the next process, `GcScan` the collector's scan. `BlobShutdown`, `BlobLostWrites`
  and `BlobGap` are about close beside a writer at work, up to the moment the flusher thread ends:
  it first leaves its main loop (`left`), then drains the queue, then is gone (`exited`). They,
  `BlobOversized` and `BlobWriters` show where the code departs.
- `BlobPlacement` says where each accepted entry lands, and when a segment is opened for it.
- `BlobSync` is the machine as one caller sees it, and `BlobRuns` spells it out in steps of the
  machine. `WriteBlocks` and `BlobStore` are the heap objects; each method moves a ghost state of
  the machine by the machine's own steps.
- `Slru` is the eviction policy on two sequences, `CwSlru` the linked lists and maps that refine it.
  `Slab` is the allocator, with pointer arithmetic, and its class. `Admission` is the put filter.
- `Snapshots`, `Checkpoint` and `CheckpointManager` are the checkpoint: generic record and snapshot
  laws, the byte layout, and the save and load loops with their failures.
- `Crc32c`, over the generic `ShiftRegister`, is the checksum.
- `EngineModel` ties the parts together as values, `EnginePolicy` adds the policy and the turns of
  the eviction loop; `Engine` is the object, with the map it stands for as a ghost field.
  `EngineHistory` and `EngineRun` speak about any sequence of calls, `Restart` about close and
  reopen, `OldCheckpoints` about a checkpoint older than the store it is read with, `EngineRestart`
  about both after any sequence of calls, `EngineTrace` about what a run does to DRAM and policy.

Some predicates are stated behind a quantifier over a `bool` that they ignore. They mean what their
body says; the quantifier keeps the solver from unfolding them unasked.

## Where the code departs from the intended behaviour

- A direct write of an oversized entry takes the segment's write offset but does not move the active
  block, which then hands out the same range. Extents are disjoint exactly until an append happens
  behind such an entry: `BlobTheorems.AppendSafeExactly`, `DirectOvertakes`, `OvertakenCorrupts`,
  `BlobOversized.OversizedThenSmall`. Runs without oversized entries need no such condition
  (`BlobCrash.PlainRunIsRun`).
- While a writer waits in a dry pool, the active pointer still names the block it queued. A second
  writer that rotates queues that block again; one whose entry fits appends to it, although the
  flusher may have taken its size or returned it already, and then its write is accepted and lost:
  `BlobWriters.SecondWriterSafeExactly`, `SecondWriteLost`. If two writers wait, the second to wake
  replaces the first one's block, accepted entry and all: `SecondWakeDrops`.
- A close that finds a writer waiting queues its block a second time. The waiting writer may then
  find a free block although the store is stopping, and its write is accepted and never flushed:
  `BlobShutdown.BlockConservation`, `BlobLostWrites.ParkedWriteLost`, `LostWriteExample`.
- A close that finds the active block empty leaves it active, so that a write coming later is
  accepted, and never flushed, where otherwise it would be refused: `BlobLostWrites.LateWriteLost`.
  `CloseDurableExactly` says that these two cases are all.
- The drain loop that follows takes blocks without marking them as being flushed, and does not
  return them. A write accepted after one of these two kinds of close can so be in a gap, where a
  read finds it neither pending nor on disk: `BlobGap.DrainGap`, `ParkedGap`; again these two cases
  are all: `CloseReadsExactly`.
- A checkpoint from before a delete brings the key back, rightly as to bytes
  (`EngineRestart.RestartAfterCalls`); deleting it again counts its record twice:
  `OldCheckpoints.SecondDeleteUndercounts`.
- After a death the counts of a segment are those of its header as last written, which may be as old
  as the segment; the bytes do not depend on them (`BlobReopen.CrashReopens`).
- The design calls entries immutable (`attentiondb/docs/DESIGN.md:96`), but `put` accepts a key that
  is there. Its old DRAM slot is then never freed: `EngineModel.TightAfterPut`. Its old blob-store record
  is never marked dead: `EngineModel.StoreInNvmeOrphans`, `StoreInDramOrphans`. The bytes stay right.
- `put` may answer Ok and evict its own key, and a cheap system prompt passes admission but is
  dropped, not demoted: the `lost` set of `Engine.Engine.Put` says exactly which keys can go and why.
- An empty blob reads as not found once it is on disk, although it reads well while it is pending.
- The dynamic threshold doubles in 32 bits: `Admission.RisesExactly`.
- `save` writes any number of entries, but `load` refuses more than a hundred million:
  `Checkpoint.SaveLoad`.

## Model

| member | source | states |
|---|---|---|
| BlobTheorems.StepKeepsExactly | attentiondb/attentiondb-server/src/storage/blob_store.cpp:121-434 | Any step of the writer, the flusher, its drain loop, a reader, mark-dead or close keeps the whole invariant (blocks conserved, extents disjoint, every location served byte for byte by a dirty block or by the disk, what a reader missed in the blocks already on disk) if and only if it is none of: an append behind an overtaking oversized entry, a close that finds a parked writer, a block taken by the drain loop |
| BlobTheorems.RunKeepsExactly | attentiondb/attentiondb-server/src/storage/blob_store.cpp:121-434 | Over any history of steps the invariant holds throughout if and only if every step is safe in that sense |
| BlobTheorems.StepKeeps | attentiondb/attentiondb-server/src/storage/blob_store.cpp:121-434 | The useful half of that, step by step: every safe step keeps the invariant |
| BlobTheorems.RunKeeps | attentiondb/attentiondb-server/src/storage/blob_store.cpp:121-434 | Every state of every run of safe steps is in the invariant, with all positions page-aligned |
| BlobTheorems.ReadThrough | attentiondb/attentiondb-server/src/storage/blob_store.cpp:275-338 | In every state of a run of safe steps a read of any location ever returned gets exactly the bytes written, from the pending block found or else from disk, in its first attempt; a short buffer is reported, and an empty blob on disk reads as not found |
| BlobTheorems.LateReader | attentiondb/attentiondb-server/src/storage/blob_store.cpp:292-334 | In such a run, a reader that found its location in no pending block gets the right bytes from disk any number of steps later, whatever the other threads did meanwhile |
| BlobTheorems.WriteOnce | attentiondb/attentiondb-server/src/storage/blob_store.cpp:213-272 | Locations once returned keep naming the same entry; all extents are pairwise disjoint, page-aligned, past the segment header and inside the segment whenever an entry of that size can be |
| BlobPlacement.WriteLands | attentiondb/attentiondb-server/src/storage/blob_store.cpp:159-273 | Where a write lands that need not wait: behind the last entry of the active block, in its segment, if it fits there; else at the write offset of the current segment if a whole block fits behind it (for an oversized entry: the entry itself); else at offset 4096 of exactly one new segment; the current segment hands out the entry's padded size and no other segment any byte; one sequence number is used |
| BlobPlacement.WakeLands | attentiondb/attentiondb-server/src/storage/blob_store.cpp:225-261 | A parked write that wakes lands at the write offset of the current segment if a whole block fits behind it, else at offset 4096 of exactly one new segment |
| BlobPlacement.SyncLands | attentiondb/attentiondb-server/src/storage/blob_store.cpp:159-273 | The same exact place for a write seen by one caller, waiting for the flusher included |
| BlobPlacement.HistoryFills | attentiondb/attentiondb-server/src/storage/blob_store.cpp:225-238 | Over any history of entries that fit a block, every segment that has been left has less than a block left |
| BlobPlacement.OpenFilled | attentiondb/attentiondb-server/src/storage/blob_store.cpp:83-107 | A store just opened has left none of its own segments |
| BlobPlacement.OpenStarts | attentiondb/attentiondb-server/src/storage/blob_store.cpp:42-107 | A process that opens starts in one new segment behind those it found, with its last block active there and empty, all others free and nothing queued |
| BlobPlacement.AppendSequence | attentiondb/attentiondb-server/src/storage/blob_store.cpp:243-249 | The image of an appended entry carries the sequence number of the moment |
| BlobPlacement.DirectSequence | attentiondb/attentiondb-server/src/storage/blob_store.cpp:175-196 | So does the image of a direct write |
| BlobShutdown.BlockConservation | attentiondb/attentiondb-server/src/storage/blob_store.cpp:121-130 | Throughout any history each pool block is in exactly one of: being appended to, queue, flusher, free pool, if and only if close never finds a parked writer and the drain loop never finds a block; the parked writer's stale pointer does not count |
| BlobGap.CloseReadsExactly | attentiondb/attentiondb-server/src/storage/blob_store.cpp:121-135 | In any state of a plain run: whatever happens after close, writes in the window before the flusher thread ends included, every location stays served from a pending block or from disk, if and only if close finds no parked writer and an active block that is not empty; and each block stays in exactly one place if and only if the same |
| BlobGap.DrainGap | attentiondb/attentiondb-server/src/storage/blob_store.cpp:419-433 | From every close that finds the active block empty: one entry is accepted into that block, the next write queues it, the drain loop takes it, and then no pending block covers it and its file ends before it, so that both attempts of a read miss it; the block is in no place |
| BlobGap.ParkedGap | attentiondb/attentiondb-server/src/storage/blob_store.cpp:419-433 | From every close that finds a parked writer: likewise a continuation after which some accepted entry is in a gap |
| BlobGap.GapMisses | attentiondb/attentiondb-server/src/storage/blob_store.cpp:340-360 | An entry in such a gap is not on disk, and a read of it answers that there is none, whatever the buffer |
| BlobLostWrites.CloseDurableExactly | attentiondb/attentiondb-server/src/storage/blob_store.cpp:121-135 | In any state of a plain run: whatever happens after close, including writes that wake or arrive later, every accepted write is on disk once the flusher has left, if and only if close finds no parked writer and an active block that is not empty |
| BlobLostWrites.ParkedWriteLost | attentiondb/attentiondb-server/src/storage/blob_store.cpp:362-370 | From every such state with a parked writer: a continuation in which the writer wakes after the queue is drained, has its write accepted, and its record is not on disk when the flusher has left |
| BlobLostWrites.LateWriteLost | attentiondb/attentiondb-server/src/storage/blob_store.cpp:124-130 | From every such state with an empty active block: the same for any later write of an entry that fits, because close leaves that block active |
| BlobLostWrites.LostWriteExample | attentiondb/attentiondb-server/src/storage/blob_store.cpp:121-135 | Two empty blobs, one write block of one page: the second write is accepted and on disk nowhere after close |
| BlobLostWrites.ShutdownExactly | attentiondb/attentiondb-server/src/storage/blob_store.cpp:419-433 | Once the flusher has left a plain run, every entry is on disk if and only if none was left in an active block |
| BlobLostWrites.QuietShutdown | attentiondb/attentiondb-server/src/storage/blob_store.cpp:121-135 | If close finds no parked writer and no write is accepted after it, every entry is on disk once the flusher has left |
| BlobTheorems.FlushIsExact | attentiondb/attentiondb-server/src/storage/blob_store.cpp:403-405 | The rounded-up size the flusher took is the block's position, so a flush writes the block's own range and no more |
| BlobTheorems.ShutdownDurability | attentiondb/attentiondb-server/src/storage/blob_store.cpp:419-433 | Once the flusher has left after close, every entry ever written is on disk, unless some were written after it into a block that close left active |
| BlobTheorems.CleanReopen | attentiondb/attentiondb-server/src/storage/blob_store.cpp:42-107 | A new process over the files of a closed store starts in the invariant, with the same locations, all on disk, whatever it counts as given up |
| BlobTheorems.AppendSafeExactly | attentiondb/attentiondb-server/src/storage/blob_store.cpp:259 | An append gets an extent of its own if and only if no oversized entry was written where the active block continues |
| BlobTheorems.OvertakenCorrupts | attentiondb/attentiondb-server/src/storage/blob_store.cpp:241-263 | Otherwise some location returned earlier now reads back the new entry's blob |
| BlobTheorems.DirectOvertakes | attentiondb/attentiondb-server/src/storage/blob_store.cpp:175-203 | After a direct write the active block is overtaken if and only if it was before, or it sits in the current segment and no new one had to be opened |
| BlobTheorems.ImageServes | attentiondb/attentiondb-server/src/storage/blob_store.cpp:322-334 | A buffer that starts with an entry's image yields that entry's blob and its length |
| BlobOversized.OversizedThenSmall | attentiondb/attentiondb-server/src/storage/blob_store.cpp:170-211 | In any fresh store, an oversized write followed by a small one gives both the same offset, and the first location reads back the second blob |
| BlobOversized.CollisionExample | attentiondb/attentiondb-server/src/storage/blob_store.cpp:170-211 | A concrete configuration and pair of blobs meets the conditions of that collision |
| BlobWriters.WaitsExactly | attentiondb/attentiondb-server/src/storage/blob_store.cpp:213-222 | A writer is left waiting if and only if it has to rotate, the pool is dry and the store is not stopping; in a store that is stopping it fails instead, and leaves no active block |
| BlobWriters.RunWithin | attentiondb/attentiondb-server/src/storage/blob_store.cpp:121-434 | In every state of every run of safe steps nothing lies behind the active block in its file, unless an oversized entry overtook it, and the current file ends within its segment, provided it was so at first |
| BlobWriters.OpenWithin | attentiondb/attentiondb-server/src/storage/blob_store.cpp:83-107 | It is so in a store just opened |
| BlobWriters.SecondWriterSafeExactly | attentiondb/attentiondb-server/src/storage/blob_store.cpp:159-273 | While one writer waits, and nothing lies behind its block in the file but what overtook it, a second write of any entry keeps the invariant if and only if it is oversized, or fits the waiting writer's block while that block is still queued and not overtaken by an oversized entry; a rotation queues the block twice |
| BlobWriters.SecondWriteLost | attentiondb/attentiondb-server/src/storage/blob_store.cpp:240-264 | A second write that fits the waiting writer's block after the flusher has returned it is accepted, but neither on disk nor in any block to be flushed, then and after the first writer has its new block |
| BlobWriters.SecondWakeDrops | attentiondb/attentiondb-server/src/storage/blob_store.cpp:222 | Two writers wait and both wake: the second one's block replaces the first one's as the active block, which is then in no place, and the first one's accepted entry is neither on disk nor in any block to be flushed |
| BlobWriter.WriteKeeps | attentiondb/attentiondb-server/src/storage/blob_store.cpp:159-273 | A whole write (direct, rotating or appending) keeps the invariant unless it appends behind an overtaking oversized entry |
| BlobWriter.AppendKeeps | attentiondb/attentiondb-server/src/storage/blob_store.cpp:240-272 | Appending an image keeps the invariant: older images in the block and on disk are untouched, and the new location is served |
| BlobWriter.ParkKeeps | attentiondb/attentiondb-server/src/storage/blob_store.cpp:214-222 | Enqueueing the full block while the active pointer still names it keeps the invariant |
| BlobWriter.TakeKeeps | attentiondb/attentiondb-server/src/storage/blob_store.cpp:225-238 | Taking a free block, in a new segment if need be, and aiming it at the write offset keeps the invariant and leaves nothing beyond it |
| BlobFlusher.StartKeeps | attentiondb/attentiondb-server/src/storage/blob_store.cpp:386-397 | Moving a block from the queue to the flusher never leaves a location unserved |
| BlobFlusher.PwriteKeeps | attentiondb/attentiondb-server/src/storage/blob_store.cpp:403-405 | Each partial write outside the lock keeps every other extent on disk and extends the written part |
| BlobFlusher.ReturnKeeps | attentiondb/attentiondb-server/src/storage/blob_store.cpp:411-416 | A block returns to the pool only when everything it holds is on disk |
| BlobFlusher.MissMeansOnDisk | attentiondb/attentiondb-server/src/storage/blob_store.cpp:340-360 | A location found in no pending block is wholly on disk |
| BlobFlusher.ExitedOnDisk | attentiondb/attentiondb-server/src/storage/blob_store.cpp:419-433 | With the flusher gone and nothing left in an active block, every location is on disk |
| BlobProtocol.FindPending | attentiondb/attentiondb-server/src/storage/blob_store.cpp:340-360 | A block found covers the location; none is found only if no dirty block (active, flushing or queued) covers it |
| BlobInvariant.PlacedOnce | attentiondb/attentiondb-server/src/storage/blob_store.cpp:213-238 | Conservation as three exclusions: writing, queued and flushing blocks are distinct, and none of them is free |
| BlobOrder.StepInOrder | attentiondb/attentiondb-server/src/storage/blob_store.cpp:372-417 | Without oversized entries every step keeps the flush order: dirty blocks are queued in file order, and no file is longer than what precedes its unwritten blocks |
| BlobCrash.PlainRunIsRun | attentiondb/attentiondb-server/src/storage/blob_store.cpp:159-434 | If every entry fits a block and close finds no parked writer, every step is safe: no append is ever overtaken |
| BlobCrash.PlainRunKeeps | attentiondb/attentiondb-server/src/storage/blob_store.cpp:159-434 | Every state of such a run is also in flush order, and its segments are tiled by their entries |
| BlobCrash.CrashSafety | attentiondb/attentiondb-server/src/storage/blob_store.cpp:275-338 | If the process dies in any state of such a run, even between partial writes, a read of any location finds the entry or a miss, never other bytes |
| BlobCrash.LiveCounts | attentiondb/attentiondb-server/src/storage/blob_store.cpp:436-445 | In every state a segment's entry count is its appends, and its live count is its appends minus those marked dead |
| BlobCrash.MarkDeadExactly | attentiondb/attentiondb-server/src/storage/blob_store.cpp:436-445 | Marking an entry dead keeps the live counts exact if and only if it was not marked before, or its segment's count is zero already |
| BlobReopen.ReopenPlain | attentiondb/attentiondb-server/src/storage/blob_store.cpp:42-107 | A store opened over the files of a closed one starts a plain run: crash safety, exact counts and the scan hold of every later process as of the first |
| BlobReopen.CrashReopens | attentiondb/attentiondb-server/src/storage/blob_store.cpp:42-107 | A store opened over the files of a process that died, with whatever counts their headers hold, starts in the invariant, with exactly the records that had reached the disk |
| BlobReopen.HistoryHeaders | attentiondb/attentiondb-server/src/storage/blob_store.cpp:447-465 | In every state of every history each segment file holds its header, if those it started from do |
| BlobReopen.OpenHeaders | attentiondb/attentiondb-server/src/storage/blob_store.cpp:42-107 | So do the files of a store just opened |
| BlobReopen.HeadersRewritten | attentiondb/attentiondb-server/src/storage/blob_store.cpp:148-156 | The last act of close writes every segment's header block and nothing behind it |
| BlobReopen.ReadsAfterCrash | attentiondb/attentiondb-server/src/storage/blob_store.cpp:42-107 | After a death in any state of a plain run the next process reads, at every location ever returned, the entry if it had reached the disk and a miss otherwise |
| OldCheckpoints.OldCheckpointReads | attentiondb/attentiondb-server/src/engine.cpp:218-227 | In any later state whose records extend those of then, the location that an earlier checkpoint holds for a key reads what the key stood for then; that calls only ever extend them is part of EngineRun.ServeAll |
| OldCheckpoints.OldCheckpointReadsInRun | attentiondb/attentiondb-server/src/storage/blob_store.cpp:275-338 | The same for readers running beside the writer and the flusher, in any state of a run |
| OldCheckpoints.OldCheckpointAfterCrash | attentiondb/attentiondb-server/src/engine.cpp:51-66 | After a death in any state of a plain run, every blob-store key of every earlier checkpoint reads its bytes of then, or a miss |
| OldCheckpoints.SecondDeleteUndercounts | attentiondb/attentiondb-server/src/storage/blob_store.cpp:436-445 | A key that an older checkpoint brings back and that is deleted again leaves its segment's live count short of the entries alive, unless it is zero |
| BlobCrash.EmptyOpenIsPlain | attentiondb/attentiondb-server/src/storage/blob_store.cpp:83-107 | A store opened on an empty directory starts such a run |
| GcScan.Scan | attentiondb/attentiondb-server/src/storage/blob_store.cpp:553-584 | On a sealed segment the scan by padded size hands over exactly the appended entries (key, bytes, checksum), in order, and stops at the write offset; on any file it terminates |
| GcScan.FlushedIsSealed | attentiondb/attentiondb-server/src/storage/blob_store.cpp:553-584 | In every run a segment whose entries are all on disk is sealed by exactly its appends, in order |
| BlobSync.WriteSyncKeeps | attentiondb/attentiondb-server/src/storage/blob_store.cpp:159-273 | A write seen by one caller, waiting for the flusher if the pool is dry, adds exactly one record for its entry and leaves the store fit for the next call |
| BlobSync.FlushFrontKeeps | attentiondb/attentiondb-server/src/storage/blob_store.cpp:386-416 | A whole turn of the flusher keeps the invariant |
| BlobRuns.FlushFrontRuns | attentiondb/attentiondb-server/src/storage/blob_store.cpp:386-416 | That turn is the run pop, whole write, return; an empty block is only popped |
| BlobRuns.WriteSyncRuns | attentiondb/attentiondb-server/src/storage/blob_store.cpp:159-273 | A write seen by one caller is one step, or in a dry pool the run park, flusher turn, resume |
| BlobRuns.StoppedRuns | attentiondb/attentiondb-server/src/storage/blob_store.cpp:121-135 | A close between calls is the run enqueue, stop, the turns that drain the queue, exit |
| BlobRuns.LeadsIsRun | attentiondb/attentiondb-server/src/storage/blob_store.cpp:121-434 | Safe events that can happen one after the other from a good state make a run, so that the theorems about runs apply to the three above |
| BlobSync.SoundRead | attentiondb/attentiondb-server/src/storage/blob_store.cpp:275-338 | Between calls a read of any returned location can be carried out and gives its blob |
| BlobSync.CloseDurable | attentiondb/attentiondb-server/src/storage/blob_store.cpp:121-157 | After close, with its header rewrites, every entry is on disk and nothing was forgotten |
| BlobSync.ReopenSettles | attentiondb/attentiondb-server/src/storage/blob_store.cpp:42-107 | A store opened over a closed one's files is ready for calls, with the same records |
| BlobSync.WrittenLocation | attentiondb/attentiondb-server/src/storage/blob_store.cpp:258-261 | The location a write returns carries the blob's length and padded size and fits the 64-bit and segment-number fields |
| WriteBlocks.ThreePatches | attentiondb/attentiondb-server/src/storage/blob_store.cpp:243-256 | Header, blob and padding written separately around the untouched reserved bytes are one contiguous image |
| WriteBlocks.WriteBlock.Put | attentiondb/attentiondb-server/src/storage/blob_store.cpp:240-264 | In place, the block becomes the old one with the entry's image behind its last entry; the reserved bytes keep what the reused buffer held |
| WriteBlocks.WriteBlock.Reset | attentiondb/attentiondb-server/src/storage/blob_store.h:39-45 | Position, entry count and target are set; the buffer is untouched |
| BlobStore.BlobStore.constructor | attentiondb/attentiondb-server/src/storage/blob_store.cpp:83-107 | The pool is allocated, a new segment is current, and the last pool block is active in it |
| BlobStore.BlobStore.Write | attentiondb/attentiondb-server/src/storage/blob_store.cpp:159-273 | The heap object moves by the machine's own synchronous write; a too-long blob is refused and changes nothing; the location returned is the new record's, in exactly the segment and at the offset that the active block, the current segment's write offset and the two sizes determine, with a new segment only if the entry's block does not fit |
| BlobStore.BlobStore.WaitForBlock | attentiondb/attentiondb-server/src/storage/blob_store.cpp:214-222 | Parking the active block, and a flusher turn if the pool is dry, in the machine's steps |
| BlobStore.BlobStore.AcquireBlock | attentiondb/attentiondb-server/src/storage/blob_store.cpp:225-238 | A free block becomes active: at the current segment's write offset if a whole block fits behind it, else at offset 4096 of exactly one new segment |
| BlobStore.BlobStore.AppendEntry | attentiondb/attentiondb-server/src/storage/blob_store.cpp:240-272 | Block, segment counters, sequence and log move as the machine's append |
| BlobStore.BlobStore.WriteOversized | attentiondb/attentiondb-server/src/storage/blob_store.cpp:170-211 | The direct path as the machine's direct write |
| BlobStore.BlobStore.FindPendingBlock | attentiondb/attentiondb-server/src/storage/blob_store.cpp:340-360 | The heap search (active, flushing, then a walk of the queue) finds the block the machine's search names |
| BlobStore.BlobStore.Read | attentiondb/attentiondb-server/src/storage/blob_store.cpp:275-338 | Two attempts, pending blocks then disk, return the machine's read outcome; an unknown segment is a miss |
| BlobStore.BlobStore.FlushOne | attentiondb/attentiondb-server/src/storage/blob_store.cpp:386-416 | One turn of the flusher loop, in the machine's steps |
| BlobStore.BlobStore.FlushTurn | attentiondb/attentiondb-server/src/storage/blob_store.cpp:372-417 | Between calls the flusher empties the front of the queue, if there is one, and the store is ready for the next call |
| BlobStore.BlobStore.DrainQueue | attentiondb/attentiondb-server/src/storage/blob_store.cpp:372-417 | Turns of the flusher's main loop until the queue is empty |
| BlobStore.BlobStore.MarkEntryDead | attentiondb/attentiondb-server/src/storage/blob_store.cpp:436-445 | The saturating live count of the entry's segment goes down; nothing else changes |
| BlobStore.BlobStore.Close | attentiondb/attentiondb-server/src/storage/blob_store.cpp:121-157 | The active block is queued, the queue drained, the headers rewritten |
| Segment.AlignUp | attentiondb/attentiondb-server/src/storage/segment.h:43-45 | The least multiple of the page size not below the argument; a multiple is left alone |
| Segment.EntryDiskSize | attentiondb/attentiondb-server/src/storage/segment.h:48-52 | The least page multiple with room for the header and the blob |
| Segment.ImageRoundTrip | attentiondb/attentiondb-server/src/storage/segment.h:30-38 | The header fields of an entry's image are its sizes, checksum and key, each at its offset, and the bytes behind the header are its blob |
| Common.KeyRoundTrip | attentiondb/attentiondb-server/src/core/storage_key.h:11-25 | Each field of a key is at its offset of the packed 30 bytes, and decoding gives back the key |
| Common.FieldBytes | attentiondb/attentiondb-server/src/core/storage_key.h:11-25 | Fields are little-endian: the first byte counts once, the rest 256 times |
| Engine.Engine.Put | attentiondb/attentiondb-server/src/engine.cpp:109-190 | The status in every case; a failed or rejected put changes nothing, the policy included; on success the contents are the old ones with the key updated, less keys lost for a stated reason; the key's entry carries its length, cost, checksum and times, and every other entry is as it was but for its place; only the slot of an overwritten DRAM entry is leaked, only the record of an overwritten blob-store entry is left alive unnamed, and no record is given up; the key enters the policy with its cost and chunk if its blob is in DRAM, and then the eviction loop takes exactly its turns, each by the policy's victim while DRAM is more than 95% full; if DRAM is at most 95% full with the new slot there is none, and the put is a map update; with exact accounts DRAM ends at most 95% full |
| Engine.Engine.Place | attentiondb/attentiondb-server/src/engine.cpp:148-183 | The blob goes to DRAM if a slot fits, else to the blob store, else the put fails with nothing changed; on success one key has new bytes, in DRAM exactly if a slot fitted, and every other entry is as it was |
| Engine.Engine.Get | attentiondb/attentiondb-server/src/engine.cpp:192-254 | Success returns exactly the bytes and length the key stands for; failure only for a closed engine, an absent key, a short buffer or an empty blob in the blob store; contents and records never change, and only the key's access statistics do; the policy counts an access at the cost of the key's entry exactly for a hit in DRAM, and is untouched otherwise |
| Engine.Engine.Touch | attentiondb/attentiondb-server/src/core/index_entry.h:68-75 | Only the entry's access time and its saturating access count change; contents, accounts and tracked keys do not |
| Engine.Engine.Del | attentiondb/attentiondb-server/src/engine.cpp:261-286 | A delete removes exactly its key from index, contents and policy, frees its slot or marks its own record dead, and touches no other slot, no other record and no other entry of the policy; exact accounts stay exact |
| Engine.Engine.EvictIfNeeded | attentiondb/attentiondb-server/src/engine.cpp:318-357 | The loop takes a turn exactly while DRAM is more than 95% full and a key is tracked; each turn takes the policy's victim and does to it what Evacuate says; so it is known which keys are lost; below the limit nothing changes, policy included; it terminates on every path |
| Engine.Engine.CrowdedIsShare | attentiondb/attentiondb-server/src/engine.cpp:318-323 | The loop's limit is exactly 95% of the utilization that admission looks at |
| Engine.Engine.PickVictim | attentiondb/attentiondb-server/src/engine.cpp:322-323 | The victim is the policy's, is taken from the tracked keys, and is missing only if nothing is tracked |
| Engine.Engine.Evacuate | attentiondb/attentiondb-server/src/engine.cpp:325-353 | One victim: only forgotten if it has left DRAM; lost if and only if there is no blob store, its cost is below the minimum or its length is refused; otherwise demoted, as the last record, with its bytes and its entry; in both cases its slot is freed, and every other key is as it was |
| Engine.Engine.Demote | attentiondb/attentiondb-server/src/engine.cpp:333-353 | The victim's bytes are read from DRAM, written to the blob store and indexed there; what every key stands for is unchanged and its slot is freed |
| EnginePolicy.TurnsWhenFull | attentiondb/attentiondb-server/src/engine.cpp:318-323 | No sequence of turns starts unless more than 95% of DRAM is handed out |
| EnginePolicy.EvictsNoneBelow | attentiondb/attentiondb-server/src/engine.cpp:318-323 | From a state at or below the limit the loop changes nothing and loses no key |
| EnginePolicy.RoomyPut | attentiondb/attentiondb-server/src/engine.cpp:148-185 | A put that finds DRAM at most 95% full, its own slot included, loses no key, demotes none, and changes the contents, the index and the policy at its own key alone |
| Engine.Engine.Open | attentiondb/attentiondb-server/src/engine.cpp:12-95 | The index is what the checkpoint holds less its DRAM entries; no key is tracked, no slot leaked |
| Engine.FindStale | attentiondb/attentiondb-server/src/engine.cpp:58-66 | Erasing the collected keys is the scrub: exactly the DRAM entries go |
| Engine.Engine.FlushTurn | attentiondb/attentiondb-server/src/storage/blob_store.cpp:372-417 | A turn of the blob store's flusher between calls changes nothing the engine stands for |
| Engine.ListEntries | attentiondb/attentiondb-server/src/index/concurrent_hashmap.cpp:41-49 | The snapshot lists every entry of the index once |
| Engine.Engine.SaveCheckpoint | attentiondb/attentiondb-server/src/checkpoint/checkpoint.cpp:153-167 | If the index is not dirty afterwards, loading the file gives exactly its blob-store entries, or nothing above a hundred million entries; a failed save leaves the engine and the file as they were |
| Engine.Engine.Close | attentiondb/attentiondb-server/src/engine.cpp:97-107 | The last checkpoint, then the blob store's close; after a save that succeeds the file holds the index's blob-store entries, after one that fails it is the earlier file |
| Engine.Engine.PutEffect | attentiondb/attentiondb-server/src/engine.cpp:109-190 | A store followed by evictions is a map update less keys that are system prompts, of a refused length, or without a blob store to go to |
| EngineModel.StoreInDramKeeps | attentiondb/attentiondb-server/src/engine.cpp:150-161 | Filling a free slot and indexing it disturbs no other key's bytes |
| EngineModel.StoreInNvmeKeeps | attentiondb/attentiondb-server/src/engine.cpp:163-183 | A new record and its index entry disturb no other key |
| EngineModel.DemoteKeeps | attentiondb/attentiondb-server/src/engine.cpp:333-353 | Moving a key's bytes to the blob store and freeing its slot leaves what every key stands for unchanged |
| EngineModel.FreeFromDramKeeps | attentiondb/attentiondb-server/src/engine.cpp:267-281 | Removing a DRAM key and freeing its slot keeps every other key's bytes, and the slot freed is a live one |
| EngineModel.KillInNvmeKeeps | attentiondb/attentiondb-server/src/engine.cpp:272-281 | Marking a removed key's record dead never hits a record another key uses, and no record is killed twice |
| EngineModel.StoreInDramLeaks | attentiondb/attentiondb-server/src/engine.cpp:150-183 | Exactly the slot of an overwritten DRAM entry is lost by a put |
| EngineModel.StoreInNvmeOrphans | attentiondb/attentiondb-server/src/engine.cpp:163-183 | The records alive that no key names grow by exactly the record of an overwritten blob-store entry, when the new bytes go to the blob store |
| EngineModel.StoreInDramOrphans | attentiondb/attentiondb-server/src/engine.cpp:150-161 | The same when they go to DRAM |
| EngineModel.ExactAccounting | attentiondb/attentiondb-server/src/engine.cpp:150-161 | With no leak, DRAM keys, tracked keys and live slots correspond one to one, and every length fits its slot |
| EngineModel.TightAfterPut | attentiondb/attentiondb-server/src/engine.cpp:150-185 | A put keeps the accounts exact if its key was not in DRAM, and always breaks them if it was |
| EngineModel.TightIdle | attentiondb/attentiondb-server/src/engine.cpp:318-323 | With exact accounts and nothing tracked no byte of DRAM is in use, so the 95% bound holds when the loop breaks |
| EngineModel.StoreKeepsStamps | attentiondb/attentiondb-server/src/engine.cpp:135-183 | A put keeps the invariant that every entry carries the CRC32C of the bytes its key stands for |
| EngineModel.EvictKeepsStamps | attentiondb/attentiondb-server/src/engine.cpp:331-350 | So does eviction: a demoted entry keeps the checksum of its bytes |
| EngineModel.CheckpointAgrees | attentiondb/attentiondb-server/src/engine.cpp:51-66 | A file saved from the index agrees with it on the entries that survive the scrub |
| EngineModel.ScrubKeeps | attentiondb/attentiondb-server/src/engine.cpp:58-66 | What the scrub keeps of an earlier index still names records of the store, with the bytes of then; those it names count as in use again, even if deleted since |
| EngineModel.NoneRevived | attentiondb/attentiondb-server/src/engine.cpp:58-66 | For the index of the moment that brings no record back |
| Restart.RestartEngine | attentiondb/attentiondb-server/src/engine.cpp:12-107 | Close then open: the new index is exactly the old one restricted to blob-store entries, and each key stands for the same bytes; if the last save fails, the same holds of the index of the last save that succeeded, keys deleted since included; nothing comes back above a hundred million entries; the records are those of the old store |
| EngineRestart.RestartAfterCalls | attentiondb/attentiondb-server/src/engine.cpp:12-107 | Any sequence of calls, with saves that may fail and deletes among them, then close and open: the new process has the blob-store entries of the engine after the calls if the last save succeeds, and otherwise those of the engine as it was at the last of the calls that saved it, or of what was saved before if none did; each key stands for its bytes |
| EngineRestart.ServeAllSaving | attentiondb/attentiondb-server/src/checkpoint/checkpoint.cpp:153-167 | After any calls the checkpoint on disk is that of the engine as it was at the last save that succeeded, and the records it names are still there |
| EngineRestart.SavedNow | attentiondb/attentiondb-server/src/checkpoint/checkpoint.cpp:153-167 | An engine that is not dirty is as it was last saved |
| EngineRestart.ReadOldAfterCalls | attentiondb/attentiondb-server/src/engine.cpp:218-227 | After any calls the location that an earlier index held for a key still reads what the key stood for then |
| EngineRun.ServeAll | attentiondb/attentiondb-server/src/engine.cpp:109-286 | Any sequence of puts, gets and deletes, with turns of the flusher and of the checkpoint thread (whose saves may fail) anywhere between them: the contents are what the history of successes says, every get is answered from the contents of its moment; with a blob store and no system prompt or over-long blob, no key is ever lost; if every put is of a fresh key, the accounts stay exact and a put that comes last leaves DRAM at most 95% full; records are only added, each is given up only by a delete of its key, and the checkpoint's file changes only by a save that succeeds; and there is a trace of engine and policy in which each call makes exactly the move of its kind, turns of the eviction loop included |
| EngineTrace.RoomyRun | attentiondb/attentiondb-server/src/engine.cpp:148-185 | If every put of a run finds room, the engine is the simple map: no key is ever lost, whatever the blobs and with or without a blob store |
| EngineTrace.RunAgrees | attentiondb/attentiondb-server/src/engine.cpp:150-217 | In every state of a run the policy lists each key once, under the chunk of the key, and under the cost of its index entry if it is in DRAM |
| EngineTrace.HitMovesToFront | attentiondb/attentiondb-server/src/engine.cpp:212-217 | A get that finds its key in DRAM moves the key's entry, under its own chunk and the cost of its index entry, to the front of its segment if it is protected or costs less than the threshold, and else to the front of the whole order, promoted; all other entries keep their order |
| EngineTrace.MissLeavesPolicy | attentiondb/attentiondb-server/src/engine.cpp:192-245 | Any other get leaves the policy alone, whatever it answers |
| EngineTrace.OpenAgrees | attentiondb/attentiondb-server/src/engine.cpp:12-95 | That is so of an engine just opened |
| EngineRun.GetIsLatestPut | attentiondb/attentiondb-server/src/engine.cpp:192-254 | A get that succeeds returns the bytes of the latest successful put of its key not followed by a successful delete |
| EngineHistory.HoldsLatest | attentiondb/attentiondb-server/src/engine.cpp:109-286 | Whatever a history still holds for a key is its latest put |
| EngineHistory.MissingWasLost | attentiondb/attentiondb-server/src/engine.cpp:318-357 | A key put and not deleted is missing if and only if a later put's eviction lost it |
| EngineHistory.LatestIsLatest | attentiondb/attentiondb-server/src/engine.cpp:109-286 | The simple map holds a key if and only if its last put or delete is a put, and then that put's bytes |
| Slru.VictimIsBest | attentiondb/attentiondb-server/src/eviction/cw_slru.cpp:114-137 | The scan returns, of the last min(8, size) entries, the highest chunk, then the lowest cost, then the one nearest the cold end |
| Slru.VictimIsUnique | attentiondb/attentiondb-server/src/eviction/cw_slru.cpp:114-137 | No other entry meets that description |
| Slru.InsertsNew | attentiondb/attentiondb-server/src/eviction/cw_slru.cpp:46-71 | A new key's entry heads the probationary segment with exactly the cost and chunk given; every other entry stays where it is |
| Slru.TouchesProtected | attentiondb/attentiondb-server/src/eviction/cw_slru.cpp:10-71 | A protected key inserted again or accessed heads its segment with the new cost and its old chunk; all others keep their order |
| Slru.TouchesProbationary | attentiondb/attentiondb-server/src/eviction/cw_slru.cpp:10-71 | So does a probationary key that is inserted again, or accessed at a cost below the threshold: it is not promoted |
| Slru.Promotes | attentiondb/attentiondb-server/src/eviction/cw_slru.cpp:10-44 | A probationary key accessed at or above the threshold heads the protected segment with the new cost and its old chunk; protected is cut to the rounded-down share of the configured maximum, or of the entries tracked, and what is cut off heads the probationary segment in its order |
| Slru.IgnoresUntracked | attentiondb/attentiondb-server/src/eviction/cw_slru.cpp:10-88 | An access or a removal of an untracked key changes nothing |
| Slru.RemovesOne | attentiondb/attentiondb-server/src/eviction/cw_slru.cpp:73-88 | A removal takes out exactly the key's entry, from whichever segment holds it |
| Slru.Evicts | attentiondb/attentiondb-server/src/eviction/cw_slru.cpp:90-112 | An eviction takes out exactly the victim of the probationary segment, or of the protected one if the other is empty |
| Slru.EvictSparesProtected | attentiondb/attentiondb-server/src/eviction/cw_slru.cpp:90-112 | While a probationary entry is left the protected segment is untouched |
| Slru.EvictKeys | attentiondb/attentiondb-server/src/eviction/cw_slru.cpp:90-112 | Eviction removes exactly the key it returns, and finds one whenever any key is tracked |
| Slru.DemoteMovesSplit | attentiondb/attentiondb-server/src/eviction/cw_slru.cpp:149-157 | The demotion loop keeps protected followed by probationary as one sequence and brings protected within its bound |
| Slru.AccessIsMoveToFront | attentiondb/attentiondb-server/src/eviction/cw_slru.cpp:10-44 | A promoting or protected access is move-to-front on the combined order, and protected ends within its bound |
| Slru.WellFormedCombined | attentiondb/attentiondb-server/src/eviction/cw_slru.cpp:10-112 | The segments are duplicate-free and disjoint if and only if the combined order names no key twice |
| Slru.RunKeepsKeys | attentiondb/attentiondb-server/src/eviction/cw_slru.cpp:10-112 | After any run of inserts, accesses, removals and evictions no key is listed twice, and the tracked keys are those inserted and not since removed or evicted |
| Slru.RunEntries | attentiondb/attentiondb-server/src/eviction/cw_slru.cpp:10-112 | Over any run from an empty policy every entry carries the chunk of the insert that brought its key in, since when it has been tracked, and the cost of the last insert or access of its key |
| CwSlru.CwSlru.OnAccess | attentiondb/attentiondb-server/src/eviction/cw_slru.cpp:10-44 | The linked lists and maps move as the two sequences do, with every map entry at its own node |
| CwSlru.CwSlru.OnInsert | attentiondb/attentiondb-server/src/eviction/cw_slru.cpp:46-71 | Likewise for an insert, which moves a tracked key to the front of its own segment |
| CwSlru.CwSlru.OnRemove | attentiondb/attentiondb-server/src/eviction/cw_slru.cpp:73-88 | Likewise for a removal from whichever segment holds the key |
| CwSlru.CwSlru.Evict | attentiondb/attentiondb-server/src/eviction/cw_slru.cpp:90-112 | Likewise for an eviction, with the victim of the sequences |
| CwSlru.CwSlru.DemoteOverflow | attentiondb/attentiondb-server/src/eviction/cw_slru.cpp:139-158 | Likewise for the demotion loop, bounded by the configured share |
| CwSlru.Segment.FindBestVictim | attentiondb/attentiondb-server/src/eviction/cw_slru.cpp:114-137 | Walking the links from the tail finds the victim of the sequence |
| CwSlru.Segment.Unlink | attentiondb/attentiondb-server/src/eviction/cw_slru.cpp:77-79 | Taking one node out of the list leaves every other node linked to its neighbours |
| Slab.RangesDisjoint | attentiondb/attentiondb-server/src/memory/slab_allocator.cpp:133 | Distinct slots, of one class or of two, have disjoint byte ranges |
| Slab.SlotOfPtr | attentiondb/attentiondb-server/src/memory/slab_allocator.cpp:153-166 | A pointer to any byte of a slot leads back, by division, to exactly that slot and class |
| Slab.ChoiceIsSmallest | attentiondb/attentiondb-server/src/memory/slab_allocator.cpp:124-140 | The class chosen is the smallest that fits and has a free slot, and none is chosen only if there is none |
| Slab.GrantsExactly | attentiondb/attentiondb-server/src/memory/slab_allocator.cpp:124-140 | Of any number of requests of one size exactly as many are granted as there are free slots in the classes that fit |
| Slab.TakeEffect | attentiondb/attentiondb-server/src/memory/slab_allocator.cpp:131-134 | Taking a slot makes exactly that slot live and adds its size to the used bytes |
| Slab.ReleaseEffect | attentiondb/attentiondb-server/src/memory/slab_allocator.cpp:142-151 | Freeing a live slot makes exactly that slot free and takes its size off |
| Slab.ReleaseSafeExactly | attentiondb/attentiondb-server/src/memory/slab_allocator.cpp:142-151 | A free keeps the free lists duplicate-free if and only if the slot was live |
| Slab.TakeReleaseRoundTrip | attentiondb/attentiondb-server/src/memory/slab_allocator.cpp:124-151 | Allocate, then free: the allocator is exactly what it was, free-list order included |
| Slab.RunIsSafe | attentiondb/attentiondb-server/src/memory/slab_allocator.cpp:124-190 | Over any run with valid frees live slots stay disjoint and used plus free bytes is the initial capacity |
| Slab.NoneLive | attentiondb/attentiondb-server/src/memory/slab_allocator.cpp:182-190 | With no slot live the used bytes are zero: free lists without duplicates cover all slots |
| Slab.FreshIsIdle | attentiondb/attentiondb-server/src/memory/slab_allocator.cpp:32-72 | The classes initialised from sorted sizes are well formed, with every slot free |
| Slab.SlabAllocator.constructor | attentiondb/attentiondb-server/src/memory/slab_allocator.cpp:32-72 | The loop builds those classes: each as many slots as fit its equal share, or one if none does, all free; the total capacity is the budget up to one slot of each class and the bytes the division leaves |
| Slab.SlabAllocator.Allocate | attentiondb/attentiondb-server/src/memory/slab_allocator.cpp:124-140 | Takes the top slot of the smallest fitting class with one free, which was not live before; otherwise nothing changes |
| Slab.SlabAllocator.FreeByPtr | attentiondb/attentiondb-server/src/memory/slab_allocator.cpp:153-166 | Frees exactly the slot the pointer falls into, nothing for a foreign pointer; the allocator stays valid if and only if that slot was live |
| Slab.SlabAllocator.GetPtr | attentiondb/attentiondb-server/src/memory/slab_allocator.cpp:168-173 | The pointer of a handle leads back to the handle; the invalid handle has none |
| Slab.SlabAllocator.SlotSizeFor | attentiondb/attentiondb-server/src/memory/slab_allocator.cpp:175-180 | The smallest slot size that fits, zero if and only if none does |
| Slab.SlabAllocator.UsedBytes | attentiondb/attentiondb-server/src/memory/slab_allocator.cpp:182-190 | The loop's total is the used bytes, and with the free bytes it makes up the capacity |
| Checkpoint.EntryRoundTrip | attentiondb/attentiondb-server/src/core/index_entry.h:25-47 | Each field of an index entry is at its offset of the 64 packed bytes, and decoding gives back every one |
| Checkpoint.KeysOrdered | attentiondb/attentiondb-server/src/checkpoint/checkpoint.cpp:44-47 | Comparing the packed key bytes is a strict total order on keys |
| Checkpoint.SaveLoad | attentiondb/attentiondb-server/src/checkpoint/checkpoint.cpp:22-139 | A saved file is accepted if and only if it holds at most a hundred million entries, and then it decodes to the saved entries |
| Checkpoint.LoadExactly | attentiondb/attentiondb-server/src/checkpoint/checkpoint.cpp:85-139 | A file is accepted if and only if it starts with a whole header of the right magic and version, announces no more than the cap and than it holds, and carries the hash of its entries; any other is corrupt and leaves the index alone |
| Checkpoint.BodyReplaced | attentiondb/attentiondb-server/src/checkpoint/checkpoint.cpp:116-137 | A saved file whose body is replaced by another of its length is accepted only if the hashes agree, whatever the hash function |
| Checkpoint.CheckpointRestores | attentiondb/attentiondb-server/src/checkpoint/checkpoint.cpp:85-139 | Loading a saved index into an empty one restores exactly the saved map up to that cap, and an empty map beyond it |
| Checkpoint.BodyIsCanonical | attentiondb/attentiondb-server/src/checkpoint/checkpoint.cpp:44-62 | The body depends only on the map, not on the order the hash table yields |
| Checkpoint.PrefixRejected | attentiondb/attentiondb-server/src/checkpoint/checkpoint.cpp:95-107 | Every strict prefix of a saved file is rejected |
| Snapshots.SnapshotRestores | attentiondb/attentiondb-server/src/index/concurrent_hashmap.cpp:41-56 | Bulk-loading a snapshot into an empty map restores the map |
| Snapshots.SortedIsCanonical | attentiondb/attentiondb-server/src/checkpoint/checkpoint.cpp:44-47 | Two snapshots of one map sort to the same sequence |
| Snapshots.RecordsRoundTrip | attentiondb/attentiondb-server/src/checkpoint/checkpoint.cpp:116-130 | Reading fixed-size records back gives the records written, whatever follows them |
| CheckpointManager.Compose | attentiondb/attentiondb-server/src/checkpoint/checkpoint.cpp:31-71 | The stream with its patched header is the checkpoint of the entries, or the writer fails where the stream does |
| CheckpointManager.CheckpointManager.Save | attentiondb/attentiondb-server/src/checkpoint/checkpoint.cpp:22-83 | Success leaves the checkpoint of the entries and a clear flag; any failure leaves the previous file and the flag as they were |
| CheckpointManager.CheckpointManager.Load | attentiondb/attentiondb-server/src/checkpoint/checkpoint.cpp:85-139 | The status in every case; a rejected or missing file leaves the index untouched |
| CheckpointManager.CheckpointManager.SaveIfDirty | attentiondb/attentiondb-server/src/checkpoint/checkpoint.cpp:153-167 | A save happens only when dirty; without one, or after a failed one, file and flag are unchanged |
| Crc32c.TableDerived | attentiondb/attentiondb-server/src/engine.cpp:370-414 | Each of the 256 table entries is eight bit steps of its index with the polynomial 0x82F63B78 |
| Crc32c.TableStep | attentiondb/attentiondb-server/src/engine.cpp:419 | One turn of the loop is feeding the byte's eight bits to the register |
| Crc32c.ComputeCrc32 | attentiondb/attentiondb-server/src/engine.cpp:416-421 | The loop over any buffer computes the bit-serial CRC32C of section 12.1 of RFC 3720 |
| Crc32c.RegisterConcat | attentiondb/attentiondb-server/src/engine.cpp:416-420 | The loop state composes over concatenation |
| Crc32c.RegisterLinear | attentiondb/attentiondb-server/src/engine.cpp:416-420 | The register is linear: differences of messages and states add up |
| Crc32c.RegisterInjective | attentiondb/attentiondb-server/src/engine.cpp:416-420 | For a fixed message, different states stay different |
| Crc32c.BurstDetected | attentiondb/attentiondb-server/src/engine.cpp:416-421 | Any error confined to 32 consecutive bits of a message of any length changes the register |
| Crc32c.FourBytesDetected | attentiondb/attentiondb-server/src/engine.cpp:416-421 | Buffers of equal, arbitrary length that differ only within four consecutive bytes have different checksums |
| Crc32c.Residue | attentiondb/attentiondb-server/src/engine.cpp:416-421 | Any message followed by its checksum, least significant byte first, leaves the register at the residue 0xB798B438 of the standard |
| Crc32c.CheckValue | attentiondb/attentiondb-server/src/engine.cpp:416-421 | The checksum of the digits one to nine is the check value 0xE3069283 |
| Admission.AdmittedIsWorth | attentiondb/attentiondb-server/src/admission/admission.cpp:8-27 | A put is admitted if and only if it is a system prompt or reaches both the minimum cost and the threshold of the moment; it is rejected for low cost if and only if it misses the minimum |
| Admission.ThresholdLine | attentiondb/attentiondb-server/src/admission/admission.cpp:29-39 | Below 70% use the threshold is zero; from there to 90% it is the whole number at or just below the line from zero to the base; above, twice the base in 32 bits |
| Admission.ThresholdRises | attentiondb/attentiondb-server/src/admission/admission.cpp:29-39 | Up to 90% use the threshold never falls as use grows and stays within the base |
| Admission.RisesExactly | attentiondb/attentiondb-server/src/admission/admission.cpp:29-39 | The threshold rises with use everywhere if and only if twice the base fits 32 bits; otherwise it wraps and drops |
| Admission.AdmissionControl.RecordEvaluation | attentiondb/attentiondb-server/src/admission/admission.cpp:41-46 | The rejected counter goes up exactly for verdicts other than admit and never exceeds the evaluated one |

## Left out

- Engine.Engine.Put: when there is a blob store, the blob must fit a write block or be too long for the store altogether, because an oversized entry can overlap the active block; those runs are covered by the exact conditions on the blob store alone.
- Engine.Engine.Place: the same holds of the blob it places.
- Engine.Engine.Evacuate: the same holds of everything in DRAM, which put let in.
- Engine.Engine.Demote: the same.
- Engine.Engine.EvictIfNeeded: the same.
- BlobStore.BlobStore.Write: the wait for a free block is one turn of the flusher; the real interleaving is in the step machine. Blobs that the store accepts although their padded size exceeds a signed 32-bit integer are excluded.
- BlobStore.BlobStore.WaitForBlock: the same, so its wait never ends in the error of a stopping store; the machine's resume step does.
- BlobStore.BlobStore.Close: comes between calls; a close beside a waiting writer is in the step machine alone.
- BlobTheorems.RunKeepsExactly: covers histories with one writer; of several, the second write beside a waiting one and two waiting ones are treated, in BlobWriters.
- BlobLostWrites.CloseDurableExactly: a write that starts or wakes after the flusher thread has ended is excluded, as it would touch buffers that close is freeing; the same holds of BlobGap.CloseReadsExactly.
- Restart.RestartEngine: the new process is given its own idle allocator.
- Engine.Engine.Open: the checkpoint must not name records that a crash has lost; what reads of such locations answer is said by OldCheckpoints.OldCheckpointAfterCrash alone.
- EngineRun.ServeAll: the calls put no blob that is larger than a write block yet not too long for the store, as in Engine.Engine.Put; the same holds of EngineRestart.RestartAfterCalls.
- BlobStore.BlobStore.DrainQueue: between calls the flusher is in its main loop, so close empties the queue by turns of that; the drain loop, which takes blocks without marking them, is in the step machine.
- BlobStore.BlobStore.Read: a location must come from a write, or its bytes at hand must not announce a blob beyond them, which the code would read.
- BlobStore.BlobStore.MarkEntryDead: the location must be one that a write returned.
- Checkpoint.CheckpointRestores: XXH32 is an arbitrary function of the body's bytes, so detection of corrupted bodies is not claimed.
- GcScan.Scan: a padded size between 1 and 63 stops the scan, and a blob size beyond the entry is cut off, where the code would read past its buffer; neither occurs in a sealed segment.
- Slab.SlabAllocator.constructor: the regions are given, disjoint ranges; huge pages, pinned memory and allocation failure are not part of this model.
- Admission.ThresholdRises: over exact reals, as are the 95% limit and the protected share; floating-point rounding is not modelled.
- Flush errors, failed reads and writes, failed segment creation, and the loops that retry partial reads: a completed write stores all its bytes. More than 2^32 segments are excluded.
- The contents of a segment's header block are one fixed 4096-byte value, and segments of an earlier process are listed by their ids without gaps.
- Garbage collection beyond the scan: choosing a segment, rewriting through the callback, deleting the file. The engine sets no callback, so nothing is deleted there.
- The blob store's own eviction policy in the engine, which is updated and never consulted, and the engine's admission counters.
- Races between engine operations: each is atomic. The libcuckoo index is a map, and a snapshot lists it in any order. Lost wakeups of condition variables are not modelled.
- Clocks are parameters; the periodic thread's timing, the logger, statistics, latency figures, the C interface, the Python adapters and configuration parsing are left out.
- Clustering, leases, replication and write-buffer backpressure are designs without code.
