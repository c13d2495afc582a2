/** The writer's steps keep the invariant. */
module BlobWriter {
  import opened Common
  import opened Segment
  import opened BlobProtocol
  import opened BlobInvariant

  // ---- Appending an image to the active block ----

  /** There is room behind the active block's last entry, and the block is still to be flushed:
      no writer is parked, or the parked writer's block is still queued. */
  predicate Fits(c: Config, s: State, img: Bytes) {
    && Shape(c, s) && s.active.Some? && (s.waiting.None? || s.active.value in s.queue) && 0 < |img|
    && s.blocks[s.active.value].pos + |img| <= c.capacity
  }

  /** Nothing has been written where the active block continues. */
  predicate Ready(c: Config, s: State, img: Bytes) {
    Fits(c, s, img) && FrontierOk(c, s) && !Overtaken(s)
  }

  lemma AppendShape(c: Config, s: State, e: Entry, img: Bytes)
    requires Fits(c, s, img)
    ensures Shape(c, AppendImage(c, s, e, img))
  {
    var s' := AppendImage(c, s, e, img);
    forall b | 0 <= b < |s'.blocks| ensures BlockShape(c, |s'.segs|, s'.blocks[b]) {
      assert BlockShape(c, |s.segs|, s.blocks[b]);
    }
  }

  lemma AppendRecs(c: Config, s: State, e: Entry, img: Bytes)
    requires Ready(c, s, img) && RecsOk(c, |s.segs|, s.log) && Disjoint(s.log)
    ensures RecsOk(c, |AppendImage(c, s, e, img).segs|, AppendImage(c, s, e, img).log) && Disjoint(AppendImage(c, s, e, img).log)
  {
    var s' := AppendImage(c, s, e, img);
    assert BlockShape(c, |s.segs|, s.blocks[s.active.value]);
    assert RecOk(c, |s.segs|, s'.log[|s.log|]);
    forall i | 0 <= i < |s.log| ensures Apart(s.log[i], s'.log[|s.log|]) {
    }
  }

  lemma PutImageHolds(b: Block, img: Bytes, rec: Rec)
    requires b.pos + |img| <= |b.buf| && |rec.image| == rec.loc.diskSize > 0
    requires BlockHolds(b, rec) && (rec.loc.segId == b.segId ==> End(rec) <= BlockEnd(b))
    ensures BlockHolds(PutImage(b, img), rec)
  {
    if !Clear(b, rec) {
      WriteElsewhere(b.buf, b.pos, img, rec.loc.offset - b.segOff, rec.image);
    }
  }

  lemma AppendBlocks(c: Config, s: State, e: Entry, img: Bytes)
    requires Ready(c, s, img) && RecsOk(c, |s.segs|, s.log) && BlocksOk(s.blocks, s.log)
    ensures BlocksOk(AppendImage(c, s, e, img).blocks, AppendImage(c, s, e, img).log)
  {
    var s' := AppendImage(c, s, e, img);
    var act := s.active.value;
    assert BlockShape(c, |s.segs|, s.blocks[act]);
    forall b, i | 0 <= b < |s'.blocks| && 0 <= i < |s'.log| ensures BlockHolds(s'.blocks[b], s'.log[i]) {
      if i == |s.log| {
        assert b != act ==> Clear(s.blocks[b], s'.log[i]);
      } else {
        assert BlockHolds(s.blocks[b], s.log[i]) && RecOk(c, |s.segs|, s.log[i]);
        if b == act {
          PutImageHolds(s.blocks[b], img, s.log[i]);
        }
      }
    }
  }

  lemma AppendOnDisk(c: Config, s: State, e: Entry, img: Bytes, rec: Rec)
    requires Fits(c, s, img) && OnDisk(s.segs, rec)
    ensures OnDisk(AppendImage(c, s, e, img).segs, rec)
  {
  }

  lemma AppendPending(c: Config, s: State, e: Entry, img: Bytes, rec: Rec)
    requires Fits(c, s, img) && Pending(s, rec)
    ensures Pending(AppendImage(c, s, e, img), rec)
  {
    var s' := AppendImage(c, s, e, img);
    var b: nat :| b < |s.blocks| && DirtyIn(s.queue, s.flushing, Writing(s), b) && InBlock(s.blocks[b], rec);
    assert DirtyIn(s'.queue, s'.flushing, Writing(s'), b) && InBlock(s'.blocks[b], rec);
  }

  lemma AppendServed(c: Config, s: State, e: Entry, img: Bytes)
    requires Fits(c, s, img) && Served(s) && MissesOk(s.misses, s.segs, s.log)
    ensures Served(AppendImage(c, s, e, img)) && MissesOk(AppendImage(c, s, e, img).misses, AppendImage(c, s, e, img).segs, AppendImage(c, s, e, img).log)
  {
    var s' := AppendImage(c, s, e, img);
    forall i | 0 <= i < |s'.log| ensures OnDisk(s'.segs, s'.log[i]) || Pending(s', s'.log[i]) {
      if i == |s.log| {
        assert DirtyIn(s'.queue, s'.flushing, Writing(s'), s.active.value) && InBlock(s'.blocks[s.active.value], s'.log[i]);
      } else if OnDisk(s.segs, s.log[i]) {
        AppendOnDisk(c, s, e, img, s.log[i]);
      } else {
        AppendPending(c, s, e, img, s.log[i]);
      }
    }
    forall r | r in s'.misses ensures OnDisk(s'.segs, s'.log[s'.misses[r]]) {
      AppendOnDisk(c, s, e, img, s.log[s.misses[r]]);
    }
  }

  /** The block being flushed is not the one appended to. */
  lemma AppendFlush(c: Config, s: State, e: Entry, img: Bytes)
    requires Fits(c, s, img) && Conserved(s) && FlushOk(s)
    ensures Conserved(AppendImage(c, s, e, img)) && FlushOk(AppendImage(c, s, e, img))
  {
    Separate(s);
  }

  lemma AppendFrontier(c: Config, s: State, e: Entry, img: Bytes)
    requires Ready(c, s, img) && Shape(c, AppendImage(c, s, e, img)) && CurrentEnds(s.blocks, s.segs, s.log) && PastHeader(s.segs)
    ensures var s' := AppendImage(c, s, e, img); CurrentEnds(s'.blocks, s'.segs, s'.log) && PastHeader(s'.segs) && FrontierOk(c, s') && !Overtaken(s')
  {
    var s' := AppendImage(c, s, e, img);
    var a := s.blocks[s.active.value];
    assert BlockEnd(a) >= s.segs[a.segId].writeOffset;
    assert a.segId == Cur(s) ==> BlockEnd(a) <= s.segs[a.segId].writeOffset;
    assert FrontierFree(s'.blocks, s'.log, s'.active.value);
  }

  /** An append behind everything written so far keeps the invariant. */
  lemma AppendKeeps(c: Config, s: State, e: Entry, img: Bytes)
    requires Inv(c, s) && Ready(c, s, img)
    requires Storable(|e.blob|) && IsImageOf(img, e) && |img| == DiskSize(e)
    ensures Inv(c, AppendImage(c, s, e, img))
  {
    AppendShape(c, s, e, img);
    AppendRecs(c, s, e, img);
    AppendBlocks(c, s, e, img);
    AppendServed(c, s, e, img);
    AppendFlush(c, s, e, img);
    AppendFrontier(c, s, e, img);
  }

  // ---- Opening a new segment ----

  lemma NewSegmentContents(c: Config, s: State)
    requires Shape(c, s) && RecsOk(c, |s.segs|, s.log) && BlocksOk(s.blocks, s.log)
    ensures var t := NewSegment(c, s); Shape(c, t) && RecsOk(c, |t.segs|, t.log) && BlocksOk(t.blocks, t.log)
  {
    var t := NewSegment(c, s);
    forall b | 0 <= b < |t.blocks| ensures BlockShape(c, |t.segs|, t.blocks[b]) {
      assert BlockShape(c, |s.segs|, s.blocks[b]);
    }
    forall i | 0 <= i < |t.log| ensures RecOk(c, |t.segs|, t.log[i]) {
      assert RecOk(c, |s.segs|, s.log[i]);
    }
    forall b, i | 0 <= b < |t.blocks| && 0 <= i < |t.log| ensures BlockHolds(t.blocks[b], t.log[i]) {
      assert BlockHolds(s.blocks[b], s.log[i]);
    }
  }

  lemma NewSegmentServed(c: Config, s: State)
    requires Served(s) && MissesOk(s.misses, s.segs, s.log) && FlushOk(s)
    ensures var t := NewSegment(c, s); Served(t) && MissesOk(t.misses, t.segs, t.log) && FlushOk(t)
  {
    var t := NewSegment(c, s);
    forall i | 0 <= i < |t.log| ensures OnDisk(t.segs, t.log[i]) || Pending(t, t.log[i]) {
      if !OnDisk(s.segs, s.log[i]) {
        var b: nat :| b < |s.blocks| && DirtyIn(s.queue, s.flushing, Writing(s), b) && InBlock(s.blocks[b], s.log[i]);
        assert DirtyIn(t.queue, t.flushing, Writing(t), b) && InBlock(t.blocks[b], t.log[i]);
      }
    }
  }

  /** Nothing lies in a new segment, and the active block keeps its place in the old one. */
  lemma NewSegmentEnds(c: Config, s: State)
    requires Shape(c, s) && RecsOk(c, |s.segs|, s.log) && PastHeader(s.segs) && FrontierOk(c, s) && Shape(c, NewSegment(c, s))
    ensures var t := NewSegment(c, s); CurrentEnds(t.blocks, t.segs, t.log) && PastHeader(t.segs) && FrontierOk(c, t)
  {
    var t := NewSegment(c, s);
    forall i | 0 <= i < |t.log| ensures t.log[i].loc.segId < |s.segs| {
      assert RecOk(c, |s.segs|, s.log[i]);
    }
    forall b | 0 <= b < |t.blocks| ensures t.blocks[b].segId < |s.segs| {
      assert BlockShape(c, |s.segs|, s.blocks[b]);
    }
    if s.active.Some? {
      assert Overtaken(t) == Overtaken(s);
      assert Overtaken(s) ==> FrontierTaken(t.blocks[s.active.value], t.log);
    }
  }

  lemma NewSegmentKeeps(c: Config, s: State)
    requires Inv(c, s)
    ensures Inv(c, NewSegment(c, s))
  {
    NewSegmentContents(c, s);
    NewSegmentServed(c, s);
    NewSegmentEnds(c, s);
  }

  // ---- Taking a block from the pool ----

  predicate CanTake(c: Config, s: State) {
    Shape(c, s) && s.waiting.Some? && |s.free| > 0
  }

  predicate HasRoom(c: Config, s: State) {
    CanTake(c, s) && !NeedsSegment(c, s, c.capacity)
  }

  lemma TakeOwned(c: Config, s: State)
    requires CanTake(c, s) && Conserved(s)
    ensures Conserved(TakeHere(c, s))
  {
    var n := |s.free| - 1;
    var t := TakeHere(c, s);
    assert s.free == s.free[..n] + [s.free[n]];
    assert multiset(s.free) == multiset(t.free) + multiset{s.free[n]};
    assert One(t.active) == multiset{s.free[n]} && t.queue == s.queue && t.flushing == s.flushing;
  }

  lemma TakeFrontier(c: Config, s: State)
    requires HasRoom(c, s) && CurrentEnds(s.blocks, s.segs, s.log) && PastHeader(s.segs) && Shape(c, TakeHere(c, s))
    ensures var t := TakeHere(c, s); CurrentEnds(t.blocks, t.segs, t.log) && FrontierOk(c, t) && !Overtaken(t)
  {
    var t := TakeHere(c, s);
    assert FrontierFree(t.blocks, t.log, t.active.value);
  }

  lemma TakeContents(c: Config, s: State)
    requires CanTake(c, s) && RecsOk(c, |s.segs|, s.log) && CurrentEnds(s.blocks, s.segs, s.log) && BlocksOk(s.blocks, s.log)
    ensures BlocksOk(TakeHere(c, s).blocks, TakeHere(c, s).log)
  {
    var t := TakeHere(c, s);
    forall b, i | 0 <= b < |t.blocks| && 0 <= i < |t.log| ensures BlockHolds(t.blocks[b], t.log[i]) {
      assert BlockHolds(s.blocks[b], s.log[i]);
    }
  }

  /** The block taken was free, so it held nothing that is not on disk. */
  lemma TakeServed(c: Config, s: State)
    requires CanTake(c, s) && Conserved(s) && Served(s) && FlushOk(s)
    ensures Served(TakeHere(c, s)) && FlushOk(TakeHere(c, s))
  {
    Separate(s);
    var t := TakeHere(c, s);
    forall i | 0 <= i < |t.log| ensures OnDisk(t.segs, t.log[i]) || Pending(t, t.log[i]) {
      if !OnDisk(s.segs, s.log[i]) {
        var b: nat :| b < |s.blocks| && DirtyIn(s.queue, s.flushing, Writing(s), b) && InBlock(s.blocks[b], s.log[i]);
        assert DirtyIn(t.queue, t.flushing, Writing(t), b) && InBlock(t.blocks[b], t.log[i]);
      }
    }
  }

  lemma TakeRest(c: Config, s: State)
    requires CanTake(c, s) && Phases(c, s) && RecsOk(c, |s.segs|, s.log) && ImagesOk(s.log) && Disjoint(s.log) && MissesOk(s.misses, s.segs, s.log) && PastHeader(s.segs)
    ensures var t := TakeHere(c, s);
            Phases(c, t) && RecsOk(c, |t.segs|, t.log) && ImagesOk(t.log) && Disjoint(t.log) && MissesOk(t.misses, t.segs, t.log) && PastHeader(t.segs)
  {
  }

  lemma TakeHereKeeps(c: Config, s: State)
    requires Inv(c, s) && HasRoom(c, s)
    ensures Inv(c, TakeHere(c, s)) && !Overtaken(TakeHere(c, s))
  {
    TakeHereKeepsShape(c, s);
    TakeOwned(c, s);
    TakeFrontier(c, s);
    TakeContents(c, s);
    TakeServed(c, s);
    TakeRest(c, s);
  }

  lemma TakeEmpty(c: Config, s: State)
    requires Shape(c, s) && |s.free| > 0
    ensures var t := TakeBlock(c, s);
            && Shape(c, t) && t.active.Some? && t.waiting.None? && t.blocks[t.active.value].pos == 0
            && t.log == s.log && t.dead == s.dead && |t.segs| <= |s.segs| + 1
  {
    RoomKeepsShape(c, s);
    TakeHereKeepsShape(c, RoomForBlock(c, s));
  }

  lemma TakeKeeps(c: Config, s: State)
    requires Inv(c, s) && CanTake(c, s)
    ensures Inv(c, TakeBlock(c, s)) && !Overtaken(TakeBlock(c, s))
    ensures TakeBlock(c, s).waiting.None? && TakeBlock(c, s).blocks[TakeBlock(c, s).active.value].pos == 0
  {
    TakeEmpty(c, s);
    if NeedsSegment(c, s, c.capacity) {
      NewSegmentKeeps(c, s);
      TakeHereKeeps(c, NewSegment(c, s));
    } else {
      TakeHereKeeps(c, s);
    }
  }

  // ---- Parking in a dry pool ----

  predicate CanPark(c: Config, s: State, e: Entry) {
    Shape(c, s) && s.active.Some? && s.waiting.None? && !s.exited && Rotates(c, s, e)
  }

  function Enqueue(s: State, e: Entry): State
    requires s.active.Some?
  {
    s.(queue := s.queue + [s.active.value], waiting := Some(e))
  }

  /** An entry that fits an empty block never retires an empty block. */
  lemma ParkEnqueues(c: Config, s: State, e: Entry)
    requires CanPark(c, s, e)
    ensures Park(c, s, e) == Enqueue(s, e)
  {
  }

  lemma EnqueueOwned(s: State, e: Entry)
    requires s.active.Some? && s.waiting.None? && Conserved(s)
    ensures Conserved(Enqueue(s, e))
  {
    assert multiset([s.active.value]) == multiset{s.active.value};
  }

  lemma EnqueueServed(s: State, e: Entry)
    requires s.active.Some? && s.waiting.None? && Served(s)
    ensures Served(Enqueue(s, e))
  {
    var t := Enqueue(s, e);
    forall i | 0 <= i < |t.log| ensures OnDisk(t.segs, t.log[i]) || Pending(t, t.log[i]) {
      if !OnDisk(s.segs, s.log[i]) {
        var b: nat :| b < |s.blocks| && DirtyIn(s.queue, s.flushing, Writing(s), b) && InBlock(s.blocks[b], s.log[i]);
        assert DirtyIn(t.queue, t.flushing, Writing(t), b) && InBlock(t.blocks[b], t.log[i]);
      }
    }
  }

  lemma EnqueueShape(c: Config, s: State, e: Entry)
    requires Shape(c, s) && Phases(c, s) && FrontierOk(c, s) && s.active.Some? && s.waiting.None? && !s.exited
    requires Storable(|e.blob|) && !Oversized(c, e) && s.blocks[s.active.value].pos > 0
    ensures var t := Enqueue(s, e); Shape(c, t) && Phases(c, t) && FrontierOk(c, t)
  {
  }

  lemma EnqueueContents(c: Config, s: State, e: Entry)
    requires |s.segs| >= 1 && s.active.Some? && RecsOk(c, |s.segs|, s.log) && ImagesOk(s.log) && Disjoint(s.log) && BlocksOk(s.blocks, s.log) && FlushOk(s)
    requires PastHeader(s.segs) && CurrentEnds(s.blocks, s.segs, s.log) && MissesOk(s.misses, s.segs, s.log)
    ensures var t := Enqueue(s, e);
            && RecsOk(c, |t.segs|, t.log) && ImagesOk(t.log) && Disjoint(t.log) && BlocksOk(t.blocks, t.log) && FlushOk(t)
            && PastHeader(t.segs) && CurrentEnds(t.blocks, t.segs, t.log) && MissesOk(t.misses, t.segs, t.log)
  {
  }

  lemma EnqueueKeeps(c: Config, s: State, e: Entry)
    requires Inv(c, s) && s.active.Some? && s.waiting.None? && !s.exited
    requires Storable(|e.blob|) && !Oversized(c, e) && s.blocks[s.active.value].pos > 0
    ensures Inv(c, Enqueue(s, e))
  {
    EnqueueOwned(s, e);
    EnqueueServed(s, e);
    EnqueueShape(c, s, e);
    EnqueueContents(c, s, e);
  }

  lemma ParkKeeps(c: Config, s: State, e: Entry)
    requires Inv(c, s) && CanPark(c, s, e) && Storable(|e.blob|)
    ensures Inv(c, Park(c, s, e))
  {
    EnqueueKeeps(c, s, e);
    ParkEnqueues(c, s, e);
  }

  // ---- Direct writes of oversized entries ----

  predicate CanDirect(c: Config, s: State, img: Bytes) {
    && Shape(c, s) && 0 < |img|
    && (SEGMENT_HEADER_SIZE + |img| <= c.segmentSize ==> !NeedsSegment(c, s, |img|))
  }

  lemma DirectShape(c: Config, s: State, e: Entry, img: Bytes)
    requires CanDirect(c, s, img)
    ensures Shape(c, DirectInto(s, e, img))
  {
  }

  lemma DirectRecs(c: Config, s: State, e: Entry, img: Bytes)
    requires CanDirect(c, s, img) && RecsOk(c, |s.segs|, s.log) && Disjoint(s.log) && CurrentEnds(s.blocks, s.segs, s.log) && PastHeader(s.segs) && BlocksOk(s.blocks, s.log)
    ensures var t := DirectInto(s, e, img); RecsOk(c, |t.segs|, t.log) && Disjoint(t.log) && BlocksOk(t.blocks, t.log)
  {
    var t := DirectInto(s, e, img);
    var rec := t.log[|s.log|];
    assert RecOk(c, |t.segs|, rec);
    forall i | 0 <= i < |s.log| ensures RecOk(c, |t.segs|, t.log[i]) && Apart(t.log[i], rec) {
      assert RecOk(c, |s.segs|, s.log[i]);
    }
    forall b, i | 0 <= b < |t.blocks| && 0 <= i < |t.log| ensures BlockHolds(t.blocks[b], t.log[i]) {
      if i == |s.log| {
        assert Clear(t.blocks[b], rec);
      } else {
        assert BlockHolds(s.blocks[b], s.log[i]);
      }
    }
  }

  lemma DirectOnDisk(c: Config, s: State, e: Entry, img: Bytes, rec: Rec)
    requires CanDirect(c, s, img) && OnDisk(s.segs, rec) && |rec.image| == rec.loc.diskSize
    requires rec.loc.segId == Cur(s) ==> End(rec) <= s.segs[Cur(s)].writeOffset
    ensures OnDisk(DirectInto(s, e, img).segs, rec)
  {
    if rec.loc.segId == Cur(s) {
      WriteElsewhere(s.segs[Cur(s)].file, s.segs[Cur(s)].writeOffset, img, rec.loc.offset, rec.image);
    }
  }

  lemma DirectServed(c: Config, s: State, e: Entry, img: Bytes)
    requires CanDirect(c, s, img) && RecsOk(c, |s.segs|, s.log) && CurrentEnds(s.blocks, s.segs, s.log) && Served(s) && MissesOk(s.misses, s.segs, s.log)
    ensures var t := DirectInto(s, e, img); Served(t) && MissesOk(t.misses, t.segs, t.log)
  {
    var t := DirectInto(s, e, img);
    forall i | 0 <= i < |t.log|
      ensures OnDisk(t.segs, t.log[i]) || Pending(t, t.log[i])
      ensures i < |s.log| && OnDisk(s.segs, s.log[i]) ==> OnDisk(t.segs, t.log[i])
    {
      if i < |s.log| {
        assert RecOk(c, |s.segs|, s.log[i]);
        if OnDisk(s.segs, s.log[i]) {
          DirectOnDisk(c, s, e, img, s.log[i]);
        } else {
          var b: nat :| b < |s.blocks| && DirtyIn(s.queue, s.flushing, Writing(s), b) && InBlock(s.blocks[b], s.log[i]);
          assert DirtyIn(t.queue, t.flushing, Writing(t), b) && InBlock(t.blocks[b], t.log[i]);
        }
      }
    }
  }

  lemma DirectFlush(c: Config, s: State, e: Entry, img: Bytes)
    requires CanDirect(c, s, img) && CurrentEnds(s.blocks, s.segs, s.log) && FlushOk(s)
    ensures FlushOk(DirectInto(s, e, img))
  {
    if s.flushing.Some? && s.flushed > 0 {
      var b := s.blocks[s.flushing.value];
      if b.segId == Cur(s) {
        WriteElsewhere(s.segs[b.segId].file, s.segs[b.segId].writeOffset, img, b.segOff, b.buf[..s.flushed]);
      }
    }
  }

  /** Afterwards the active block has been overtaken exactly if it was before or sits in the same
      segment. */
  lemma DirectFrontier(c: Config, s: State, e: Entry, img: Bytes)
    requires CanDirect(c, s, img) && Shape(c, DirectInto(s, e, img)) && CurrentEnds(s.blocks, s.segs, s.log) && PastHeader(s.segs) && FrontierOk(c, s)
    ensures var t := DirectInto(s, e, img);
            && CurrentEnds(t.blocks, t.segs, t.log) && PastHeader(t.segs) && FrontierOk(c, t)
            && (s.active.Some? ==> (Overtaken(t) <==> Overtaken(s) || s.blocks[s.active.value].segId == Cur(s)))
  {
    var t := DirectInto(s, e, img);
    if s.active.Some? {
      var a := s.active.value;
      assert BlockShape(c, |s.segs|, s.blocks[a]);
      if Overtaken(s) {
        var i :| 0 <= i < |s.log| && s.log[i].loc.segId == s.blocks[a].segId && s.log[i].loc.offset == BlockEnd(s.blocks[a]);
        assert t.log[i] == s.log[i];
        assert FrontierTaken(t.blocks[a], t.log);
      } else if s.blocks[a].segId == Cur(s) {
        assert BlockEnd(s.blocks[a]) == s.segs[Cur(s)].writeOffset;
        assert t.log[|s.log|].loc.offset == BlockEnd(t.blocks[a]);
        assert FrontierTaken(t.blocks[a], t.log);
      } else {
        assert FrontierFree(t.blocks, t.log, a);
      }
    }
  }

  lemma DirectRest(c: Config, s: State, e: Entry, img: Bytes)
    requires CanDirect(c, s, img) && Phases(c, s) && Conserved(s) && ImagesOk(s.log)
    requires Storable(|e.blob|) && IsImageOf(img, e)
    ensures var t := DirectInto(s, e, img); Phases(c, t) && Conserved(t) && ImagesOk(t.log)
  {
  }

  lemma DirectKeeps(c: Config, s: State, e: Entry, img: Bytes)
    requires Inv(c, s) && CanDirect(c, s, img)
    requires Storable(|e.blob|) && IsImageOf(img, e) && |img| == DiskSize(e)
    ensures Inv(c, DirectInto(s, e, img))
  {
    DirectShape(c, s, e, img);
    DirectRecs(c, s, e, img);
    DirectServed(c, s, e, img);
    DirectFlush(c, s, e, img);
    DirectFrontier(c, s, e, img);
    DirectRest(c, s, e, img);
  }

  // ---- The whole write ----

  /** The write does not append behind an oversized entry that overtook the active block. */
  predicate SafeWrite(c: Config, s: State, e: Entry) {
    Shape(c, s) && s.active.Some? ==> Oversized(c, e) || Rotates(c, s, e) || !Overtaken(s)
  }

  lemma ResumeKeeps(c: Config, s: State, e: Entry)
    requires Inv(c, s) && CanTake(c, s) && Storable(|e.blob|) && !Oversized(c, e)
    ensures Inv(c, ResumeWith(c, s, e))
  {
    TakeKeeps(c, s);
    var t := TakeBlock(c, s);
    AppendKeeps(c, t, e, BlockImage(t.blocks[t.active.value], t.sequence, e));
  }

  lemma WriteDirectKeeps(c: Config, s: State, e: Entry)
    requires Inv(c, s) && Storable(|e.blob|)
    ensures Inv(c, WriteDirect(c, s, e))
  {
    var img := DirectImage(s, e);
    if NeedsSegment(c, s, DiskSize(e)) {
      NewSegmentKeeps(c, s);
      DirectKeeps(c, NewSegment(c, s), e, img);
    } else {
      DirectKeeps(c, s, e, img);
    }
  }

  lemma RotateKeeps(c: Config, s: State, e: Entry)
    requires Inv(c, s) && CanPark(c, s, e) && Storable(|e.blob|)
    ensures Inv(c, Write(c, s, e))
  {
    ParkKeeps(c, s, e);
    ParkEnqueues(c, s, e);
    var p := Park(c, s, e);
    if |p.free| > 0 {
      ResumeKeeps(c, p, e);
    } else if !s.running {
      GiveUpKeeps(c, p);
    }
  }

  /** A parked writer that gives up leaves its old block to the flusher. */
  lemma GiveUpKeeps(c: Config, s: State)
    requires Inv(c, s) && s.waiting.Some? && s.closing
    ensures Inv(c, GiveUp(s))
  {
    var t := GiveUp(s);
    assert Writing(t) == Writing(s) == None;
    assert Served(t) && FlushOk(t);
  }

  /** A parked writer that wakes up, with a block or without. */
  lemma WakeKeeps(c: Config, s: State)
    requires Inv(c, s) && Enabled(c, s, DoResume)
    ensures Inv(c, Wake(c, s))
  {
    if |s.free| > 0 {
      ResumeKeeps(c, s, s.waiting.value);
    } else {
      GiveUpKeeps(c, s);
    }
  }

  lemma WriteKeeps(c: Config, s: State, e: Entry)
    requires Inv(c, s) && CanWrite(s, e) && SafeWrite(c, s, e)
    ensures Inv(c, Write(c, s, e))
  {
    if Oversized(c, e) {
      WriteDirectKeeps(c, s, e);
    } else if Rotates(c, s, e) {
      RotateKeeps(c, s, e);
    } else {
      AppendKeeps(c, s, e, BlockImage(s.blocks[s.active.value], s.sequence, e));
    }
  }
}
