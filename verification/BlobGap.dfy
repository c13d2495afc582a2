/** The flusher's drain loop after close: a block it has taken there is known to no reader, and
    never comes back. Exactly when close can be sure that nothing gets there. */
module BlobGap {
  import opened Common
  import opened Segment
  import opened BlobProtocol
  import opened BlobInvariant
  import opened BlobWriter
  import opened BlobTheorems
  import opened BlobOrder
  import opened BlobCrash
  import opened BlobSync
  import opened BlobShutdown
  import opened BlobLostWrites

  /** The record is where a read of its location looks first, or wholly on disk. */
  predicate ServedAt(c: Config, s: State, k: nat)
    requires Shape(c, s) && k < |s.log|
  {
    var rec := s.log[k];
    match FindPending(c, s, rec.loc)
    case Some(b) => s.blocks[b].segOff <= rec.loc.offset && Holds(s.blocks[b].buf, rec.loc.offset - s.blocks[b].segOff, rec.image)
    case None => OnDisk(s.segs, rec)
  }

  /** A location is always served from a pending block or from disk, never from a gap. */
  ghost predicate NoGap(c: Config, s: State) {
    Shape(c, s) && forall k :: 0 <= k < |s.log| ==> ServedAt(c, s, k)
  }

  lemma GoodHasNoGap(c: Config, s: State)
    requires Good(c, s)
    ensures NoGap(c, s)
  {
    forall k | 0 <= k < |s.log| ensures ServedAt(c, s, k) {
      PendingOrDisk(c, s, k);
    }
  }

  // ---- A writer that goes on while the flusher has left its main loop ----

  /** The last record written lies in the active block, behind it nothing, and its file ends
      before it. */
  predicate Tail(c: Config, s: State) {
    && Shape(c, s) && Waits(s) && s.left && s.waiting.None? && s.active.Some? && |s.log| > 0 && LastBeyond(s)
    && var rec, b := s.log[|s.log| - 1], s.blocks[s.active.value];
    && rec.loc.segId == b.segId && b.segOff <= rec.loc.offset && rec.loc.offset < End(rec) == BlockEnd(b)
    && |rec.image| == rec.loc.diskSize
    && (b.segId == Cur(s) ==> End(rec) <= s.segs[Cur(s)].writeOffset)
  }

  lemma AppendTail(c: Config, s: State, e: Entry)
    requires Shape(c, s) && Bounded(s.blocks, s.segs) && s.active.Some? && Waits(s) && s.left && s.waiting.None?
    requires var b := s.blocks[s.active.value]; b.pos == 0 && b.pos + DiskSize(e) <= c.capacity && BlockEnd(b) == s.segs[b.segId].writeOffset
    ensures Tail(c, Append(c, s, e))
  {
    AppendBeyond(c, s, e);
  }

  /** No pending block covers the record, and its file ends before it. */
  predicate InGap(c: Config, s: State, rec: Rec) {
    && Shape(c, s) && FindPending(c, s, rec.loc).None? && rec.loc.segId < |s.segs|
    && |s.segs[rec.loc.segId].file| < rec.loc.offset + rec.loc.diskSize && |rec.image| == rec.loc.diskSize
  }

  lemma GapMisses(c: Config, s: State, rec: Rec, bufLen: nat)
    requires InGap(c, s, rec)
    ensures !OnDisk(s.segs, rec) && CanRead(c, s, rec.loc) && ReadOutcome(c, s, rec.loc, bufLen) == ReadResult(NotFound, [])
  {
  }

  /** The record lies before the end of its segment, if that is the current one, and beyond the
      end of its file. */
  predicate Ahead(s: State, rec: Rec) {
    && |s.segs| >= 1 && rec.loc.segId < |s.segs| && rec.loc.offset < End(rec) && |s.segs[rec.loc.segId].file| < End(rec)
    && (rec.loc.segId == Cur(s) ==> End(rec) <= s.segs[Cur(s)].writeOffset)
  }

  predicate SameFlusher(s: State, t: State) {
    && t.queue == s.queue && t.flushing == s.flushing && t.draining == s.draining && t.left == s.left && t.exited == s.exited
  }

  lemma RoomAhead(c: Config, s: State, rec: Rec)
    requires Shape(c, s) && Ahead(s, rec)
    ensures var r := RoomForBlock(c, s); Shape(c, r) && Ahead(r, rec) && SameFlusher(s, r) && r.log == s.log && r.free == s.free
  {
    RoomKeepsShape(c, s);
  }

  lemma TakeHereBehind(c: Config, s: State, rec: Rec)
    requires Shape(c, s) && |s.free| > 0 && Ahead(s, rec)
    ensures var t := TakeHere(c, s);
            && Shape(c, t) && SameFlusher(s, t) && t.log == s.log && t.active.Some? && t.waiting.None? && t.segs == s.segs
            && t.blocks[t.active.value].pos == 0
            && !(t.blocks[t.active.value].segId == rec.loc.segId && t.blocks[t.active.value].segOff <= rec.loc.offset)
  {
    TakeHereKeepsShape(c, s);
  }

  /** A block taken for the next entry starts behind the record. */
  lemma TakenBehind(c: Config, s: State, rec: Rec)
    requires Shape(c, s) && |s.free| > 0 && Ahead(s, rec)
    ensures var t := TakeBlock(c, s);
            && Shape(c, t) && SameFlusher(s, t) && t.log == s.log && t.active.Some? && t.waiting.None?
            && t.blocks[t.active.value].pos == 0
            && !(t.blocks[t.active.value].segId == rec.loc.segId && t.blocks[t.active.value].segOff <= rec.loc.offset)
            && rec.loc.segId < |t.segs| && |t.segs[rec.loc.segId].file| < End(rec)
  {
    RoomAhead(c, s, rec);
    TakeHereBehind(c, RoomForBlock(c, s), rec);
  }

  lemma AppendBeside(c: Config, s: State, e: Entry, img: Bytes, rec: Rec)
    requires Fits(c, s, img) && rec.loc.segId < |s.segs|
    requires !(s.blocks[s.active.value].segId == rec.loc.segId && s.blocks[s.active.value].segOff <= rec.loc.offset)
    ensures var t := AppendImage(c, s, e, img);
            && Shape(c, t) && t.active == s.active && !Covers(t.blocks[t.active.value], rec.loc)
            && t.segs[rec.loc.segId].file == s.segs[rec.loc.segId].file && |t.segs| == |s.segs|
            && |t.log| == |s.log| + 1 && t.log[..|s.log|] == s.log
            && SameFlusher(s, t)
  {
    AppendShape(c, s, e, img);
  }

  /** What is left of a rotation: the old block queued, and a new one that does not cover the
      record, or none. */
  predicate Rotated(c: Config, s: State, t: State, rec: Rec) {
    && Shape(c, t) && s.log <= t.log && s.active.Some? && t.queue == [s.active.value] && t.flushing.None? && t.draining.None? && t.left && !t.exited
    && (t.active.Some? ==> !Covers(t.blocks[t.active.value], rec.loc))
    && rec.loc.segId < |t.segs| && |t.segs[rec.loc.segId].file| < End(rec)
  }

  lemma TailRotates(c: Config, s: State, e: Entry)
    requires Tail(c, s) && CanWrite(s, e) && !Oversized(c, e) && Rotates(c, s, e)
    ensures Rotated(c, s, Write(c, s, e), s.log[|s.log| - 1])
  {
    var rec := s.log[|s.log| - 1];
    ParkEnqueues(c, s, e);
    var p := Park(c, s, e);
    assert p == Enqueue(s, e) && p.queue == [s.active.value];
    if |p.free| > 0 {
      TakenBehind(c, p, rec);
      var t := TakeBlock(c, p);
      AppendBeside(c, t, e, BlockImage(t.blocks[t.active.value], t.sequence, e), rec);
    }
  }

  /** The drain loop takes the block, and the record is in a gap. */
  lemma RotatedGap(c: Config, s: State, h: State, rec: Rec)
    requires Rotated(c, s, h, rec) && |rec.image| == rec.loc.diskSize
    ensures Enabled(c, h, DoDrainPop) && InGap(c, DrainPop(h), rec)
  {
    DrainPopShape(c, h);
    assert DrainPop(h).queue == [];
  }

  lemma GapAfter(c: Config, s: State, e: Entry) returns (h: State, t: State)
    requires Tail(c, s) && CanWrite(s, e) && !Oversized(c, e) && Rotates(c, s, e)
    ensures To(c, s, [DoWrite(e)], h) && Shape(c, h) && |h.queue| > 0 && t == DrainPop(h) && To(c, s, [DoWrite(e), DoDrainPop], t)
    ensures s.log <= t.log && InGap(c, t, s.log[|s.log| - 1])
  {
    TailRotates(c, s, e);
    h := Write(c, s, e);
    RotatedGap(c, s, h, s.log[|s.log| - 1]);
    t := DrainPop(h);
    ToOne(c, s, DoWrite(e));
    DrainTo(c, h);
    ToThen(c, s, [DoWrite(e)], h, [DoDrainPop], t);
    assert [DoWrite(e)] + [DoDrainPop] == [DoWrite(e), DoDrainPop];
  }

  lemma DrainTo(c: Config, h: State)
    requires Enabled(c, h, DoDrainPop)
    ensures To(c, h, [DoDrainPop], DrainPop(h))
  {
    ToOne(c, h, DoDrainPop);
  }

  // ---- From any close ----

  /** An entry that takes as much of a block as any can. */
  function Largest(c: Config): Entry
    requires ALIGNMENT <= c.capacity
  {
    Entry(StorageKey(0, 0, 0, 0, 0), Zeros(c.capacity / 4096 * 4096 - ENTRY_HEADER_SIZE), 0)
  }

  lemma LargestFits(c: Config)
    requires ALIGNMENT <= c.capacity <= INT_MAX
    ensures var e := Largest(c); Storable(|e.blob|) && !Oversized(c, e) && DiskSize(e) > c.capacity - ALIGNMENT
  {
  }

  /** The flusher gets to the end of its queue and leaves its main loop. */
  lemma SettleAndLeave(c: Config, q: State) returns (evs: seq<Event>, t: State)
    requires Drainable(c, q) && q.closing
    ensures To(c, q, evs, t) && Calm(evs) && Shape(c, t) && Waits(t) && t.left && Bounded(t.blocks, t.segs)
    ensures t.blocks == q.blocks && t.active == q.active && t.waiting == q.waiting && t.log == q.log && |t.segs| == |q.segs|
    ensures forall k :: 0 <= k < |q.segs| ==> t.segs[k].writeOffset == q.segs[k].writeOffset
    ensures |t.free| >= |q.free| + |q.queue|
  {
    var a, u := Settle(c, q);
    LeaveNow(c, u);
    t := u.(running := false, left := true);
    ToThen(c, q, a, u, [DoCloseStop, DoLeave], t);
    evs := a + [DoCloseStop, DoLeave];
  }

  /** From a close that finds an empty active block, to a state in which an accepted entry is the
      only one in that block, and the flusher has left its main loop. */
  lemma LateTail(c: Config, s: State, e: Entry) returns (evs: seq<Event>, t: State)
    requires Good(c, s) && Plain(s) && !s.closing && s.waiting.None? && s.blocks[s.active.value].pos == 0
    requires Storable(|e.blob|) && !Oversized(c, e)
    ensures To(c, CloseEnqueue(c, s), evs, t) && Calm(evs) && Tail(c, t) && t.log[|t.log| - 1].entry == e
    ensures t.active.Some? && t.blocks[t.active.value].pos == DiskSize(e)
  {
    var q := CloseEnqueue(c, s);
    CloseDrainable(c, s);
    assert q == s.(closing := true);
    var a, u := SettleAndLeave(c, q);
    ToOne(c, u, DoWrite(e));
    AppendTail(c, u, e);
    t := Append(c, u, e);
    ToThen(c, q, a, u, [DoWrite(e)], t);
    evs := a + [DoWrite(e)];
  }

  /** From a close that finds a parked writer, likewise with the entry of that writer. */
  lemma ParkedTail(c: Config, s: State) returns (evs: seq<Event>, t: State)
    requires Good(c, s) && Plain(s) && !s.closing && s.waiting.Some?
    ensures To(c, CloseEnqueue(c, s), evs, t) && Tail(c, t) && t.active.Some? && t.blocks[t.active.value].pos == DiskSize(s.waiting.value)
  {
    var q := CloseEnqueue(c, s);
    CloseDrainable(c, s);
    CloseLeavesParked(c, s);
    var a, u := SettleAndLeave(c, q);
    var e := s.waiting.value;
    WakesWithTail(c, u, e);
    ToOne(c, u, DoResume);
    t := ResumeWith(c, u, e);
    ToThen(c, q, a, u, [DoResume], t);
    evs := a + [DoResume];
  }

  lemma WakesWithTail(c: Config, s: State, e: Entry)
    requires Shape(c, s) && Bounded(s.blocks, s.segs) && |s.free| > 0 && Waits(s) && s.left && s.waiting == Some(e) && !Oversized(c, e)
    ensures var t := ResumeWith(c, s, e); Tail(c, t) && t.active.Some? && t.blocks[t.active.value].pos == DiskSize(e)
  {
    TakeBounded(c, s);
    TakeEmpty(c, s);
    AppendTail(c, TakeBlock(c, s), e);
  }

  /** A tail whose block has no room for the largest entry is one write away from a gap. */
  lemma TailGap(c: Config, q: State, a: seq<Event>, s: State) returns (evs: seq<Event>, h: State, t: State)
    requires To(c, q, a, s) && Tail(c, s) && ALIGNMENT <= c.capacity && s.blocks[s.active.value].pos >= ALIGNMENT
    ensures To(c, q, a + [DoWrite(Largest(c))], h) && Shape(c, h) && |h.queue| > 0 && t == DrainPop(h) && To(c, q, evs, t)
    ensures s.log <= t.log && InGap(c, t, s.log[|s.log| - 1])
  {
    LargestFits(c);
    h, t := GapAfter(c, s, Largest(c));
    ToThen(c, q, a, s, [DoWrite(Largest(c))], h);
    ToThen(c, q, a, s, [DoWrite(Largest(c)), DoDrainPop], t);
    evs := a + [DoWrite(Largest(c)), DoDrainPop];
  }

  lemma GapShows(c: Config, s: State, t: State)
    requires |s.log| > 0 && s.log <= t.log && InGap(c, t, s.log[|s.log| - 1])
    ensures !NoGap(c, t)
  {
    var k := |s.log| - 1;
    assert t.log[k] == s.log[k];
    GapMisses(c, t, t.log[k], 0);
    assert !ServedAt(c, t, k);
  }

  /** After a close that finds an empty active block: one write is accepted into that block, the
      next one queues it, and the flusher, which has left its main loop, takes it. A read of the
      first entry then answers that there is none, in both its attempts, and the block is in no
      place at all. */
  lemma DrainGap(c: Config, s: State, e: Entry) returns (evs: seq<Event>, t: State)
    requires Good(c, s) && Plain(s) && !s.closing && s.waiting.None? && s.blocks[s.active.value].pos == 0 && ALIGNMENT <= c.capacity
    requires Storable(|e.blob|) && !Oversized(c, e)
    ensures To(c, CloseEnqueue(c, s), evs, t) && !NoGap(c, t) && !OnePlaceEach(t)
    ensures exists k :: 0 <= k < |t.log| && t.log[k].entry == e && InGap(c, t, t.log[k])
  {
    var q := CloseEnqueue(c, s);
    var a, u := LateTail(c, s, e);
    var h;
    evs, h, t := TailGap(c, q, a, u);
    GapShows(c, u, t);
    assert t.log[|u.log| - 1] == u.log[|u.log| - 1];
    EnqueueStep(c, s);
    GoodOrderly(c, q);
    CalmOrderly(c, q, a + [DoWrite(Largest(c))], h);
    DrainPopDrops(c, h);
    ConservedIsOnePlace(c, t);
  }

  lemma GoodOrderly(c: Config, s: State)
    requires Good(c, s)
    ensures Orderly(c, s)
  {
  }

  lemma ParkedGap(c: Config, s: State) returns (evs: seq<Event>, t: State)
    requires Good(c, s) && Plain(s) && !s.closing && s.waiting.Some? && ALIGNMENT <= c.capacity
    ensures To(c, CloseEnqueue(c, s), evs, t) && !NoGap(c, t)
  {
    var q := CloseEnqueue(c, s);
    var a, u := ParkedTail(c, s);
    var h;
    evs, h, t := TailGap(c, q, a, u);
    GapShows(c, u, t);
  }

  // ---- Exactly when close keeps read-through and conservation ----

  /** Whatever happens from `s` on, no location is ever in a gap. */
  ghost predicate GaplessFrom(c: Config, s: State) {
    forall evs, t :: To(c, s, evs, t) ==> NoGap(c, t)
  }

  /** Whatever happens from `s` on, each block is in exactly one place. */
  ghost predicate OrderlyFrom(c: Config, s: State) {
    forall evs, t :: To(c, s, evs, t) ==> OnePlaceEach(t)
  }

  lemma ShutOffHolds(c: Config, s: State)
    requires ShutOff(c, s)
    ensures GaplessFrom(c, s) && OrderlyFrom(c, s)
  {
    forall evs, t | To(c, s, evs, t) ensures NoGap(c, t) && OnePlaceEach(t) {
      ShutOffStays(c, s, evs, t);
      GoodHasNoGap(c, t);
      ConservedIsOnePlace(c, t);
    }
  }

  lemma ToSelf(c: Config, s: State)
    ensures To(c, s, [], s)
  {
  }

  /** Whatever happens after close: every location stays served from a pending block or from disk
      if and only if close finds no parked writer and an active block that is not empty; and each
      block stays in exactly one place if and only if the same. */
  lemma CloseReadsExactly(c: Config, s: State)
    requires Good(c, s) && Plain(s) && !s.closing && ALIGNMENT <= c.capacity
    ensures GaplessFrom(c, CloseEnqueue(c, s)) <==> s.waiting.None? && s.blocks[s.active.value].pos > 0
    ensures OrderlyFrom(c, CloseEnqueue(c, s)) <==> s.waiting.None? && s.blocks[s.active.value].pos > 0
  {
    var q := CloseEnqueue(c, s);
    if s.waiting.Some? {
      var evs, t := ParkedGap(c, s);
      assert To(c, q, evs, t) && !NoGap(c, t);
      ParkedCloseDoubles(c, s);
      CloseKeepsShape(c, s);
      ConservedIsOnePlace(c, q);
      ToSelf(c, q);
      assert !OnePlaceEach(q);
    } else if s.blocks[s.active.value].pos == 0 {
      LargestFits(c);
      var evs, t := DrainGap(c, s, Largest(c));
      assert To(c, q, evs, t) && !NoGap(c, t) && !OnePlaceEach(t);
    } else {
      CloseShutsOff(c, s);
      ShutOffHolds(c, q);
    }
  }
}
