/** What every reachable state of the write-block protocol keeps: each location ever returned
    is served, byte for byte, by a pending block or by the disk; extents never overlap; each
    pool block is in exactly one place. */
module BlobInvariant {
  import opened Common
  import opened Segment
  import opened BlobProtocol

  function End(rec: Rec): nat {
    rec.loc.offset + rec.loc.diskSize
  }

  function BlockEnd(b: Block): nat {
    b.segOff + b.pos
  }

  /** The extent of a record lies past the segment header, and inside the segment whenever
      an entry of that size can. */
  predicate RecOk(c: Config, segments: nat, rec: Rec) {
    && rec.loc.length == |rec.entry.blob| && 0 < |rec.image| == rec.loc.diskSize
    && rec.loc.segId < segments && SEGMENT_HEADER_SIZE <= rec.loc.offset
    && (SEGMENT_HEADER_SIZE + rec.loc.diskSize <= c.segmentSize ==> End(rec) <= c.segmentSize)
  }

  ghost predicate ImagesOk(log: seq<Rec>) {
    forall i :: 0 <= i < |log| ==> Storable(|log[i].entry.blob|) && IsImageOf(log[i].image, log[i].entry)
  }

  predicate RecsOk(c: Config, segments: nat, log: seq<Rec>) {
    forall i :: 0 <= i < |log| ==> RecOk(c, segments, log[i])
  }

  predicate Apart(r1: Rec, r2: Rec) {
    r1.loc.segId != r2.loc.segId || End(r1) <= r2.loc.offset || End(r2) <= r1.loc.offset
  }

  predicate Disjoint(log: seq<Rec>) {
    forall i, j :: 0 <= i < j < |log| ==> Apart(log[i], log[j])
  }

  /** Extents, blocks and the end of the current segment lie on page boundaries. */
  predicate AllAligned(blocks: seq<Block>, segs: seq<SegmentFile>, log: seq<Rec>) {
    && |segs| >= 1
    && (forall i :: 0 <= i < |log| ==> Aligned(log[i].loc.offset))
    && (forall b :: 0 <= b < |blocks| ==> Aligned(blocks[b].pos) && Aligned(blocks[b].segOff))
    && Aligned(segs[|segs| - 1].writeOffset)
  }

  predicate PastHeader(segs: seq<SegmentFile>) {
    forall k :: 0 <= k < |segs| ==> SEGMENT_HEADER_SIZE <= segs[k].writeOffset
  }

  // ---- Block ownership ----

  function One(o: Option<nat>): multiset<nat> {
    if o.Some? then multiset{o.value} else multiset{}
  }

  function Owned(queue: seq<nat>, flushing: Option<nat>, writing: Option<nat>, free: seq<nat>): multiset<nat> {
    One(writing) + multiset(queue) + One(flushing) + multiset(free)
  }

  function Pool(n: nat): (m: multiset<nat>)
    ensures forall x: nat :: m[x] == if x < n then 1 else 0
  {
    if n == 0 then multiset{} else Pool(n - 1) + multiset{n - 1}
  }

  /** Every block of the pool is in exactly one place. */
  predicate Conserved(s: State) {
    Owned(s.queue, s.flushing, Writing(s), s.free) == Pool(|s.blocks|)
  }

  // ---- Contents ----

  predicate InBlock(b: Block, rec: Rec) {
    rec.loc.segId == b.segId && b.segOff <= rec.loc.offset && End(rec) <= BlockEnd(b)
  }

  predicate Clear(b: Block, rec: Rec) {
    rec.loc.segId != b.segId || End(rec) <= b.segOff || BlockEnd(b) <= rec.loc.offset
  }

  /** A block holds a record's whole image, or nothing of its extent. */
  predicate BlockHolds(b: Block, rec: Rec) {
    || Clear(b, rec)
    || (InBlock(b, rec) && Holds(b.buf, rec.loc.offset - b.segOff, rec.image))
  }

  predicate BlocksOk(blocks: seq<Block>, log: seq<Rec>) {
    forall b, i :: 0 <= b < |blocks| && 0 <= i < |log| ==> BlockHolds(blocks[b], log[i])
  }

  predicate OnDisk(segs: seq<SegmentFile>, rec: Rec) {
    rec.loc.segId < |segs| && Holds(segs[rec.loc.segId].file, rec.loc.offset, rec.image)
  }

  predicate PendingIn(queue: seq<nat>, flushing: Option<nat>, writing: Option<nat>, blocks: seq<Block>, rec: Rec) {
    exists b: nat :: b < |blocks| && DirtyIn(queue, flushing, writing, b) && InBlock(blocks[b], rec)
  }

  predicate Pending(s: State, rec: Rec) {
    PendingIn(s.queue, s.flushing, Writing(s), s.blocks, rec)
  }

  predicate ServedBy(queue: seq<nat>, flushing: Option<nat>, writing: Option<nat>, blocks: seq<Block>,
                     segs: seq<SegmentFile>, log: seq<Rec>) {
    forall i :: 0 <= i < |log| ==> OnDisk(segs, log[i]) || PendingIn(queue, flushing, writing, blocks, log[i])
  }

  predicate Served(s: State) {
    ServedBy(s.queue, s.flushing, Writing(s), s.blocks, s.segs, s.log)
  }

  /** The flusher knows the block's size, and the part it has already written is on disk. */
  predicate Flushed(size: nat, flushed: nat, b: Block, segs: seq<SegmentFile>) {
    && size == AlignUp(b.pos) && flushed <= b.pos <= |b.buf|
    && (flushed > 0 ==> b.segId < |segs| && Holds(segs[b.segId].file, b.segOff, b.buf[..flushed]))
  }

  predicate FlushOk(s: State) {
    s.flushing.Some? && s.flushing.value < |s.blocks| ==> Flushed(s.flushSize, s.flushed, s.blocks[s.flushing.value], s.segs)
  }

  // ---- The place of the next append ----

  /** An oversized entry was written where the active block would continue. */
  predicate Overtaken(s: State)
    requires s.active.Some? && s.active.value < |s.blocks| && s.blocks[s.active.value].segId < |s.segs|
  {
    var a := s.blocks[s.active.value];
    BlockEnd(a) < s.segs[a.segId].writeOffset
  }

  predicate CurrentEnds(blocks: seq<Block>, segs: seq<SegmentFile>, log: seq<Rec>)
    requires |segs| >= 1
  {
    var k := |segs| - 1;
    && (forall b :: 0 <= b < |blocks| && blocks[b].segId == k ==> BlockEnd(blocks[b]) <= segs[k].writeOffset)
    && (forall i :: 0 <= i < |log| && log[i].loc.segId == k ==> End(log[i]) <= segs[k].writeOffset)
  }

  predicate FrontierFree(blocks: seq<Block>, log: seq<Rec>, act: nat)
    requires act < |blocks|
  {
    var a := blocks[act];
    && (forall b :: 0 <= b < |blocks| && b != act && blocks[b].segId == a.segId ==> BlockEnd(blocks[b]) <= a.segOff)
    && (forall i :: 0 <= i < |log| && log[i].loc.segId == a.segId ==> End(log[i]) <= BlockEnd(a))
  }

  predicate FrontierTaken(a: Block, log: seq<Rec>) {
    exists i :: 0 <= i < |log| && log[i].loc.segId == a.segId && log[i].loc.offset == BlockEnd(a)
  }

  predicate Frontier(c: Config, blocks: seq<Block>, segs: seq<SegmentFile>, log: seq<Rec>, act: nat) {
    && act < |blocks| && blocks[act].segId < |segs|
    && SEGMENT_HEADER_SIZE <= blocks[act].segOff && blocks[act].segOff + c.capacity <= c.segmentSize
    && (if BlockEnd(blocks[act]) < segs[blocks[act].segId].writeOffset
        then FrontierTaken(blocks[act], log) else FrontierFree(blocks, log, act))
  }

  predicate FrontierOk(c: Config, s: State) {
    s.active.Some? ==> Frontier(c, s.blocks, s.segs, s.log, s.active.value)
  }

  predicate MissesOk(misses: map<nat, nat>, segs: seq<SegmentFile>, log: seq<Rec>) {
    forall r :: r in misses ==> misses[r] < |log| && OnDisk(segs, log[misses[r]])
  }

  /** A parked writer has an entry that fits a block, and left a block that is not empty. The
      flusher finds nothing to drain once it has left its main loop. */
  predicate Phases(c: Config, s: State) {
    && (s.left ==> s.closing && !s.running && s.flushing.None?)
    && (s.exited ==> s.left && s.queue == []) && s.draining.None?
    && (!s.running ==> s.closing) && (!s.closing ==> s.active.Some?)
    && (s.waiting.Some? ==> Storable(|s.waiting.value.blob|) && !Oversized(c, s.waiting.value))
    && (s.waiting.Some? && s.active.Some? && s.active.value < |s.blocks| ==> s.blocks[s.active.value].pos > 0)
  }

  ghost predicate Inv(c: Config, s: State) {
    && Shape(c, s) && Conserved(s) && Phases(c, s)
    && RecsOk(c, |s.segs|, s.log) && ImagesOk(s.log) && Disjoint(s.log) && BlocksOk(s.blocks, s.log) && Served(s) && FlushOk(s)
    && PastHeader(s.segs) && CurrentEnds(s.blocks, s.segs, s.log) && FrontierOk(c, s) && MissesOk(s.misses, s.segs, s.log)
  }

  // ---- Ownership facts ----

  lemma PlacedOnce(s: State, x: nat)
    requires Conserved(s)
    ensures Writing(s) == Some(x) ==> x !in s.queue && s.flushing != Some(x) && x !in s.free
    ensures x in s.queue ==> s.flushing != Some(x) && x !in s.free
    ensures s.flushing == Some(x) ==> x !in s.free
  {
    assert Owned(s.queue, s.flushing, Writing(s), s.free)[x] == Pool(|s.blocks|)[x] <= 1;
    assert (x in s.queue <==> multiset(s.queue)[x] > 0) && (x in s.free <==> multiset(s.free)[x] > 0);
  }

  /** A free block is not dirty, and the block appended to is neither queued nor being flushed. */
  lemma Separate(s: State)
    requires Conserved(s)
    ensures forall x :: x in s.free ==> !DirtyIn(s.queue, s.flushing, Writing(s), x)
    ensures forall x :: Writing(s) == Some(x) ==> x !in s.queue && s.flushing != Some(x) && x !in s.free
    ensures s.flushing.Some? ==> s.flushing.value !in s.queue && s.flushing.value !in s.free
  {
    forall x: nat
      ensures Writing(s) == Some(x) ==> x !in s.queue && s.flushing != Some(x) && x !in s.free
      ensures x in s.queue ==> s.flushing != Some(x) && x !in s.free
      ensures s.flushing == Some(x) ==> x !in s.free
    {
      PlacedOnce(s, x);
    }
  }
}
