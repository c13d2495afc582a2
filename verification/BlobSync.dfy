/** The step machine as one caller sees it: a write waits for the flusher when the pool is dry,
    and between calls no write is parked and no block is half flushed. */
module BlobSync {
  import opened Common
  import opened Segment
  import opened BlobProtocol
  import opened BlobInvariant
  import opened BlobWriter
  import opened BlobFlusher
  import opened BlobTheorems

  // ---- One turn of the flusher ----

  predicate CanFlush(c: Config, s: State) {
    && Shape(c, s) && !s.left && s.flushing.None? && |s.queue| > 0
    && AlignUp(s.blocks[s.queue[0]].pos) <= c.capacity
  }

  function FlushWhole(c: Config, s: State): State
    requires CanFlush(c, s)
  {
    Return(Pwrite(c, StartFlush(s), AlignUp(s.blocks[s.queue[0]].pos)))
  }

  /** Pop, write the whole block, return it; an empty block goes straight back. */
  function FlushFront(c: Config, s: State): State
    requires CanFlush(c, s)
  {
    if s.blocks[s.queue[0]].pos == 0 then Recycle(s) else FlushWhole(c, s)
  }

  predicate Idle(s: State) {
    s.flushing.None? && s.waiting.None?
  }

  lemma QueuedFits(c: Config, s: State)
    requires Good(c, s) && s.flushing.None? && !s.left && |s.queue| > 0
    ensures CanFlush(c, s)
  {
    var b := s.queue[0];
    assert Aligned(s.blocks[b].pos) && BlockShape(c, |s.segs|, s.blocks[b]);
  }

  lemma FlushWholeKeeps(c: Config, s: State)
    requires Good(c, s) && CanFlush(c, s) && s.blocks[s.queue[0]].pos > 0
    ensures Good(c, FlushWhole(c, s))
  {
    PopStep(c, s);
    var t := StartFlush(s);
    var n := AlignUp(s.blocks[s.queue[0]].pos);
    PwriteStep(c, t, n);
    ReturnStep(c, Pwrite(c, t, n));
  }

  /** A turn of the flusher keeps the invariant. */
  lemma FlushFrontKeeps(c: Config, s: State)
    requires Good(c, s) && CanFlush(c, s)
    ensures Good(c, FlushFront(c, s))
  {
    if s.blocks[s.queue[0]].pos == 0 {
      PopStep(c, s);
    } else {
      FlushWholeKeeps(c, s);
    }
  }

  /** The flusher leaves blocks, log and write offsets alone. */
  predicate FlushLeaves(s: State, t: State) {
    && t.blocks == s.blocks && t.active == s.active && t.log == s.log && t.dead == s.dead
    && t.waiting == s.waiting && t.flushing == s.flushing && t.running == s.running
    && t.left == s.left && t.exited == s.exited && t.closing == s.closing && |t.segs| == |s.segs|
    && (forall k :: 0 <= k < |s.segs| ==> t.segs[k].writeOffset == s.segs[k].writeOffset)
  }

  lemma FlushWholeLeaves(c: Config, s: State)
    requires CanFlush(c, s)
    ensures FlushLeaves(s, FlushWhole(c, s))
    ensures |FlushWhole(c, s).queue| == |s.queue| - 1 && |FlushWhole(c, s).free| == |s.free| + 1
  {
    assert BlockShape(c, |s.segs|, s.blocks[s.queue[0]]);
  }

  lemma FlushFrontLeaves(c: Config, s: State)
    requires CanFlush(c, s)
    ensures FlushLeaves(s, FlushFront(c, s))
    ensures |FlushFront(c, s).queue| == |s.queue| - 1 && |FlushFront(c, s).free| == |s.free| + 1
  {
    if s.blocks[s.queue[0]].pos > 0 { FlushWholeLeaves(c, s); }
  }

  // ---- Between calls ----

  /** A running store between calls, whose active block no oversized entry has overtaken. */
  ghost predicate Settled(c: Config, s: State) {
    && Good(c, s) && Idle(s) && s.active.Some? && s.running && !s.closing && !s.left && !s.exited
    && !Overtaken(s)
  }

  lemma FlushKeepsSettled(c: Config, s: State)
    requires Settled(c, s) && |s.queue| > 0
    ensures CanFlush(c, s) && Settled(c, FlushFront(c, s))
  {
    QueuedFits(c, s);
    FlushFrontKeeps(c, s);
    FlushFrontLeaves(c, s);
  }

  lemma MarkDeadKeepsSettled(c: Config, s: State, i: nat)
    requires Settled(c, s) && i < |s.log| && s.log[i].loc.segId < |s.segs|
    ensures Settled(c, MarkDead(s, i))
  {
    MarkDeadStep(c, s, i);
  }

  // ---- A whole write ----

  predicate CanSync(c: Config, s: State, e: Entry) {
    && Shape(c, s) && CanWrite(s, e) && s.flushing.None? && !s.left && s.running
    && (Rotates(c, s, e) && |s.free| == 0 ==> |s.queue| > 0 || s.blocks[s.active.value].pos > 0)
    && (forall b: nat :: b < |s.blocks| ==> AlignUp(s.blocks[b].pos) <= c.capacity)
  }

  function WriteSync(c: Config, s: State, e: Entry): State
    requires CanSync(c, s, e)
  {
    if Oversized(c, e) then WriteDirect(c, s, e)
    else if Rotates(c, s, e) then
      var p := Park(c, s, e);
      if |p.free| > 0 then ResumeWith(c, p, e) else ResumeWith(c, FlushFront(c, p), e)
    else Append(c, s, e)
  }

  lemma SettledSyncs(c: Config, s: State, e: Entry)
    requires Settled(c, s) && Storable(|e.blob|)
    ensures CanSync(c, s, e)
  {
    forall b: nat | b < |s.blocks| ensures AlignUp(s.blocks[b].pos) <= c.capacity {
      assert Aligned(s.blocks[b].pos) && BlockShape(c, |s.segs|, s.blocks[b]);
    }
  }

  /** What a write adds: one record, of the entry written, behind the others. */
  predicate Adds(s: State, t: State, e: Entry) {
    && |t.log| == |s.log| + 1 && t.log[..|s.log|] == s.log && t.log[|s.log|].entry == e
    && |t.segs| <= |s.segs| + 1 && t.dead == s.dead && Idle(t) && t.active.Some? && t.running == s.running && t.closing == s.closing && t.left == s.left && t.exited == s.exited
  }

  lemma ParkGood(c: Config, s: State, e: Entry)
    requires Settled(c, s) && Storable(|e.blob|) && !Oversized(c, e) && Rotates(c, s, e)
    ensures var p := Park(c, s, e);
            && Good(c, p) && p == Enqueue(s, e)
            && p.waiting == Some(e) && p.flushing.None? && p.log == s.log && |p.queue| > 0
  {
    ParkKeeps(c, s, e);
    ParkEnqueues(c, s, e);
  }

  lemma TakeFlags(c: Config, s: State)
    requires Shape(c, s) && |s.free| > 0
    ensures var t := TakeBlock(c, s);
            t.flushing == s.flushing && t.running == s.running && t.closing == s.closing && t.left == s.left && t.exited == s.exited
  {
    RoomKeepsShape(c, s);
  }

  lemma AppendAdds(c: Config, s: State, e: Entry)
    requires Shape(c, s) && s.active.Some? && s.blocks[s.active.value].pos + DiskSize(e) <= c.capacity && Idle(s)
    ensures Adds(s, Append(c, s, e), e)
  {
  }

  lemma ResumeAdds(c: Config, s: State, e: Entry)
    requires Shape(c, s) && |s.free| > 0 && !Oversized(c, e) && s.flushing.None?
    ensures Adds(s, ResumeWith(c, s, e), e)
  {
    TakeEmpty(c, s);
    TakeFlags(c, s);
    AppendAdds(c, TakeBlock(c, s), e);
  }

  lemma ResumeNotOvertaken(c: Config, s: State, e: Entry)
    requires Inv(c, s) && CanTake(c, s) && !Oversized(c, e)
    ensures var t := ResumeWith(c, s, e);
            t.active.Some? && t.active.value < |t.blocks| && t.blocks[t.active.value].segId < |t.segs| && !Overtaken(t)
  {
    TakeKeeps(c, s);
    var t := TakeBlock(c, s);
    AppendFrontier(c, t, e, BlockImage(t.blocks[t.active.value], t.sequence, e));
  }

  lemma ResumeSettles(c: Config, s: State, e: Entry)
    requires Good(c, s) && s.flushing.None? && s.waiting.Some? && |s.free| > 0 && !Oversized(c, e) && Storable(|e.blob|)
    requires s.running && !s.closing && !s.left && !s.exited
    ensures Settled(c, ResumeWith(c, s, e)) && Adds(s, ResumeWith(c, s, e), e)
  {
    ResumeKeeps(c, s, e);
    ResumeAligned(c, s, e);
    ResumeAdds(c, s, e);
    ResumeNotOvertaken(c, s, e);
  }

  lemma AppendSettles(c: Config, s: State, e: Entry)
    requires Settled(c, s) && Storable(|e.blob|) && !Oversized(c, e) && !Rotates(c, s, e)
    ensures Settled(c, Append(c, s, e)) && Adds(s, Append(c, s, e), e)
  {
    var img := BlockImage(s.blocks[s.active.value], s.sequence, e);
    AppendKeeps(c, s, e, img);
    AppendAligned(c, s, e, img);
    AppendFrontier(c, s, e, img);
  }

  /** A write of an entry that fits a block leaves a settled store with one more record,
      whether or not it had to wait for the flusher. */
  lemma WriteSyncKeeps(c: Config, s: State, e: Entry)
    requires Settled(c, s) && Storable(|e.blob|) && !Oversized(c, e)
    ensures CanSync(c, s, e) && Settled(c, WriteSync(c, s, e)) && Adds(s, WriteSync(c, s, e), e)
  {
    SettledSyncs(c, s, e);
    if Rotates(c, s, e) {
      ParkGood(c, s, e);
      var p := Park(c, s, e);
      if |p.free| > 0 {
        ResumeSettles(c, p, e);
      } else {
        QueuedFits(c, p);
        FlushFrontKeeps(c, p);
        FlushFrontLeaves(c, p);
        ResumeSettles(c, FlushFront(c, p), e);
      }
    } else {
      AppendSettles(c, s, e);
    }
  }

  // ---- Closing and opening again ----

  function Drain(c: Config, s: State): State
    decreases |s.queue|
  {
    if CanFlush(c, s) then
      FlushFrontLeaves(c, s);
      Drain(c, FlushFront(c, s))
    else s
  }

  lemma {:induction false} DrainKeeps(c: Config, s: State)
    requires Good(c, s) && s.flushing.None? && !s.left
    ensures Good(c, Drain(c, s)) && FlushLeaves(s, Drain(c, s)) && Drain(c, s).queue == []
    decreases |s.queue|
  {
    if |s.queue| > 0 {
      QueuedFits(c, s);
      FlushFrontKeeps(c, s);
      FlushFrontLeaves(c, s);
      DrainKeeps(c, FlushFront(c, s));
    }
  }

  /** Close: the active block joins the queue, the flusher drains it and leaves, and every
      segment header is written again. */
  function Stopped(c: Config, s: State): State
    requires Shape(c, s)
  {
    Drain(c, CloseEnqueue(c, s).(running := false)).(left := true, exited := true)
  }

  /** What close leaves to the flusher. */
  predicate Closing(s: State) {
    s.flushing.None? && s.closing && !s.running && !s.left && !s.exited && !LeftOver(s)
  }

  lemma CloseLeaves(c: Config, s: State)
    requires Shape(c, s) && Idle(s) && s.running && !s.closing && !s.left && !s.exited
    ensures var r := CloseEnqueue(c, s).(running := false);
            Closing(r) && r.log == s.log && r.dead == s.dead && |r.segs| == |s.segs|
  {
  }

  lemma CloseBegins(c: Config, s: State)
    requires Settled(c, s)
    ensures var r := CloseEnqueue(c, s).(running := false);
            Good(c, r) && Closing(r) && r.log == s.log && r.dead == s.dead && |r.segs| == |s.segs|
  {
    CloseLeaves(c, s);
    EnqueueStep(c, s);
    var q := CloseEnqueue(c, s);
    assert q.closing;
    StopStep(c, q, false, q.left, q.exited);
  }

  lemma StoppedGood(c: Config, s: State)
    requires Settled(c, s)
    ensures var t := Stopped(c, s);
            && Good(c, t) && t.exited && !LeftOver(t) && Shape(c, t)
            && t.log == s.log && t.dead == s.dead && |t.segs| == |s.segs|
  {
    CloseBegins(c, s);
    var r := CloseEnqueue(c, s).(running := false);
    DrainKeeps(c, r);
    StopStep(c, Drain(c, r), false, true, true);
  }

  /** After a close every entry ever written is on disk. */
  lemma CloseDurable(c: Config, s: State, header: Bytes)
    requires Settled(c, s) && |header| == SEGMENT_HEADER_SIZE
    ensures var t := RewriteHeaders(Stopped(c, s), header);
            && Good(c, t) && t.exited && !LeftOver(t) && t.log == s.log && t.dead == s.dead
            && (forall k :: 0 <= k < |t.log| ==> OnDisk(t.segs, t.log[k]))
            && (forall k :: 0 <= k < |t.segs| ==> SEGMENT_HEADER_SIZE <= |t.segs[k].file|)
  {
    StoppedGood(c, s);
    var r := Stopped(c, s);
    HeadersStep(c, r, header);
    ExitedOnDisk(c, RewriteHeaders(r, header));
    HeadersLong(r, header);
  }

  /** A new process over the files of a closed store starts settled, with the same log. */
  lemma ReopenSettles(c: Config, t: State, dead: set<nat>)
    requires Good(c, t) && t.exited && !LeftOver(t) && forall k :: 0 <= k < |t.segs| ==> SEGMENT_HEADER_SIZE <= |t.segs[k].file|
    ensures var u := Open(c, Reopened(t.segs), t.log, dead); Settled(c, u) && u.log == t.log && u.dead == dead
  {
    CleanReopen(c, t, dead);
    OpenSettles(c, Reopened(t.segs), t.log, dead);
  }

  lemma HeadersLong(s: State, header: Bytes)
    requires |header| == SEGMENT_HEADER_SIZE
    ensures var t := RewriteHeaders(s, header); forall k :: 0 <= k < |t.segs| ==> SEGMENT_HEADER_SIZE <= |t.segs[k].file|
  {
  }

  lemma OpenSettles(c: Config, segs: seq<SegmentFile>, log: seq<Rec>, dead: set<nat>)
    requires GoodConfig(c) && Good(c, Open(c, segs, log, dead))
    ensures Settled(c, Open(c, segs, log, dead))
  {
  }

  // ---- What callers rely on ----

  ghost predicate SettledIf(c: Config, s: State, asked: bool) {
    Settled(c, s)
  }

  /** `Settled`, behind a quantifier, so that a proof unfolds it only when it asks. */
  ghost predicate Sound(c: Config, s: State) {
    forall asked :: SettledIf(c, s, asked)
  }

  lemma IsSound(c: Config, s: State)
    requires Settled(c, s)
    ensures Sound(c, s)
  {
  }

  /** What a caller may know of a settled store without unfolding it. */
  lemma SoundFacts(c: Config, s: State)
    requires Sound(c, s)
    ensures Shape(c, s) && s.active.Some? && Idle(s) && s.running && !s.closing && !s.left && !s.exited
  {
    assert SettledIf(c, s, true);
  }

  lemma SoundWrite(c: Config, s: State, e: Entry)
    requires Sound(c, s) && Storable(|e.blob|)
    ensures CanSync(c, s, e)
    ensures !Oversized(c, e) ==> Sound(c, WriteSync(c, s, e)) && Adds(s, WriteSync(c, s, e), e)
  {
    assert SettledIf(c, s, true);
    SettledSyncs(c, s, e);
    if !Oversized(c, e) {
      WriteSyncKeeps(c, s, e);
      IsSound(c, WriteSync(c, s, e));
    }
  }

  /** The states a rotation goes through are fit for its steps. */
  lemma SoundRotation(c: Config, s: State, e: Entry)
    requires Sound(c, s) && Storable(|e.blob|) && Shape(c, s) && s.active.Some? && Rotates(c, s, e)
    ensures var p := Park(c, s, e);
            && Shape(c, p) && p.active.Some?
            && (|p.free| == 0 ==> CanFlush(c, p) && Shape(c, FlushFront(c, p)) && |FlushFront(c, p).free| > 0)
  {
    assert SettledIf(c, s, true);
    ParkGood(c, s, e);
    var p := Park(c, s, e);
    if |p.free| == 0 {
      QueuedFits(c, p);
      FlushFrontKeeps(c, p);
      FlushFrontLeaves(c, p);
    }
  }

  lemma SoundFlush(c: Config, s: State)
    requires Sound(c, s) && |s.queue| > 0
    ensures CanFlush(c, s) && Sound(c, FlushFront(c, s)) && FlushLeaves(s, FlushFront(c, s))
  {
    assert SettledIf(c, s, true);
    FlushKeepsSettled(c, s);
    FlushFrontLeaves(c, s);
    IsSound(c, FlushFront(c, s));
  }

  /** The bytes at hand for a read are an entry that can be read. */
  predicate CanRead(c: Config, s: State, loc: Location) {
    && Shape(c, s)
    && match FindPending(c, s, loc) {
      case Some(b) =>
        var at := loc.offset - s.blocks[b].segOff;
        0 <= at <= |s.blocks[b].buf| && Readable(s.blocks[b].buf[at..])
      case None =>
        loc.segId < |s.segs| ==>
          var file := s.segs[loc.segId].file;
          loc.offset + loc.diskSize <= |file| ==> Readable(file[loc.offset..loc.offset + loc.diskSize])
    }
  }

  /** A read: the pending blocks first, then the disk; an unknown segment is a miss. */
  function ReadOutcome(c: Config, s: State, loc: Location, bufLen: nat): ReadResult
    requires CanRead(c, s, loc)
  {
    match FindPending(c, s, loc)
    case Some(b) => ReadPending(s.blocks[b].buf[loc.offset - s.blocks[b].segOff..], bufLen)
    case None => if loc.segId < |s.segs| then ReadDisk(s.segs[loc.segId].file, loc, bufLen) else ReadResult(NotFound, [])
  }

  lemma LocationOf(c: Config, s: State, k: nat)
    requires Sound(c, s) && k < |s.log|
    ensures var rec := s.log[k];
            && rec.loc == Location(rec.loc.segId, rec.loc.offset, |rec.entry.blob|, DiskSize(rec.entry))
            && rec.loc.segId < |s.segs| && Storable(|rec.entry.blob|)
            && (!Oversized(c, rec.entry) ==> rec.loc.offset <= c.segmentSize)
  {
    assert SettledIf(c, s, true);
    var rec := s.log[k];
    assert RecOk(c, |s.segs|, rec);
    ImageSize(rec.image, rec.entry);
  }

  /** The location a write of an entry that fits a block has just returned. */
  lemma WrittenLocation(c: Config, s: State, t: State, e: Entry)
    requires Sound(c, t) && Adds(s, t, e) && !Oversized(c, e) && c.segmentSize < 0x1_0000_0000_0000_0000
    ensures var n := |s.log|;
            && t.log[n].loc == Location(t.log[n].loc.segId, t.log[n].loc.offset, |e.blob|, EntryDiskSize(|e.blob|))
            && t.log[n].loc.segId < |t.segs| && t.log[n].loc.offset < 0x1_0000_0000_0000_0000
  {
    LocationOf(c, t, |s.log|);
  }

  /** A read of a location that a write returned gives the bytes written: all of them while
      they are pending; from disk an empty blob reads as a miss. */
  lemma SoundRead(c: Config, s: State, k: nat, bufLen: nat)
    requires Sound(c, s) && k < |s.log|
    ensures var rec := s.log[k];
            && CanRead(c, s, rec.loc)
            && ReadOutcome(c, s, rec.loc, bufLen)
               == if FindPending(c, s, rec.loc).Some? then Expected(rec.entry.blob, bufLen) else ExpectedOnDisk(rec.entry.blob, bufLen)
  {
    assert SettledIf(c, s, true);
    match FindPending(c, s, s.log[k].loc)
    case Some(b) => PendingOutcome(c, s, k, b, bufLen);
    case None => LateOutcome(c, s, k, bufLen);
  }

  lemma PendingRead(c: Config, s: State, k: nat, b: nat)
    requires Inv(c, s) && k < |s.log| && FindPending(c, s, s.log[k].loc) == Some(b)
    ensures b < |s.blocks|
    ensures var at := s.log[k].loc.offset - s.blocks[b].segOff;
            0 <= at <= |s.blocks[b].buf| && Serves(s.blocks[b].buf[at..], s.log[k].entry.blob)
  {
    PendingOrDisk(c, s, k);
    PendingServes(s.blocks[b].buf, s.log[k].loc.offset - s.blocks[b].segOff, s.log[k]);
  }

  lemma LateRead(c: Config, s: State, k: nat, bufLen: nat)
    requires Inv(c, s) && k < |s.log| && FindPending(c, s, s.log[k].loc) == None
    ensures DiskHas(s.segs, s.log[k])
    ensures ReadDisk(s.segs[s.log[k].loc.segId].file, s.log[k].loc, bufLen) == ExpectedOnDisk(s.log[k].entry.blob, bufLen)
  {
    PendingOrDisk(c, s, k);
    ImageServes(s.log[k].image, s.log[k]);
    ServedFromDisk(s.segs, s.log[k], s.log[k].image, bufLen);
  }

  lemma PendingOutcome(c: Config, s: State, k: nat, b: nat, bufLen: nat)
    requires Inv(c, s) && k < |s.log| && FindPending(c, s, s.log[k].loc) == Some(b)
    ensures CanRead(c, s, s.log[k].loc) && ReadOutcome(c, s, s.log[k].loc, bufLen) == Expected(s.log[k].entry.blob, bufLen)
  {
    assert RecOk(c, |s.segs|, s.log[k]);
    PendingRead(c, s, k, b);
    ServedFromBlock(c, s, s.log[k].loc, b, s.log[k].entry.blob, bufLen);
  }

  lemma ServedFromBlock(c: Config, s: State, loc: Location, b: nat, blob: Bytes, bufLen: nat)
    requires Shape(c, s) && loc.segId < |s.segs| && FindPending(c, s, loc) == Some(b) && b < |s.blocks|
    requires var at := loc.offset - s.blocks[b].segOff; 0 <= at <= |s.blocks[b].buf| && Serves(s.blocks[b].buf[at..], blob)
    ensures CanRead(c, s, loc) && ReadOutcome(c, s, loc, bufLen) == Expected(blob, bufLen)
  {
  }

  lemma LateOutcome(c: Config, s: State, k: nat, bufLen: nat)
    requires Inv(c, s) && k < |s.log| && FindPending(c, s, s.log[k].loc) == None
    ensures CanRead(c, s, s.log[k].loc) && ReadOutcome(c, s, s.log[k].loc, bufLen) == ExpectedOnDisk(s.log[k].entry.blob, bufLen)
  {
    LateRead(c, s, k, bufLen);
  }

  lemma PendingServes(buf: Bytes, at: nat, rec: Rec)
    requires Holds(buf, at, rec.image) && Storable(|rec.entry.blob|) && IsImageOf(rec.image, rec.entry)
    ensures Serves(buf[at..], rec.entry.blob)
  {
    assert buf[at..][..|rec.image|] == buf[at..at + |rec.image|] == rec.image;
    ImageServes(buf[at..], rec);
  }

  lemma SoundMarkDead(c: Config, s: State, k: nat)
    requires Sound(c, s) && k < |s.log|
    ensures s.log[k].loc.segId < |s.segs| && Sound(c, MarkDead(s, k))
  {
    assert SettledIf(c, s, true);
    assert RecOk(c, |s.segs|, s.log[k]);
    MarkDeadKeepsSettled(c, s, k);
    IsSound(c, MarkDead(s, k));
  }

  lemma SoundReopen(c: Config, t: State, dead: set<nat>)
    requires Good(c, t) && t.exited && !LeftOver(t) && forall k :: 0 <= k < |t.segs| ==> SEGMENT_HEADER_SIZE <= |t.segs[k].file|
    ensures var u := Open(c, Reopened(t.segs), t.log, dead); Sound(c, u) && u.log == t.log && u.dead == dead
  {
    ReopenSettles(c, t, dead);
    IsSound(c, Open(c, Reopened(t.segs), t.log, dead));
  }

  ghost predicate DrainingIf(c: Config, s: State, asked: bool) {
    Good(c, s) && s.flushing.None? && !s.left
  }

  /** A store whose flusher is draining the queue, again unfolded on demand. */
  ghost predicate Draining(c: Config, s: State) {
    forall asked :: DrainingIf(c, s, asked)
  }

  lemma CloseDrains(c: Config, s: State)
    requires Sound(c, s)
    ensures Shape(c, s) && Draining(c, CloseEnqueue(c, s).(running := false))
  {
    assert SettledIf(c, s, true);
    CloseBegins(c, s);
  }

  lemma DrainOne(c: Config, s: State)
    requires Draining(c, s) && |s.queue| > 0
    ensures CanFlush(c, s) && Draining(c, FlushFront(c, s)) && Drain(c, s) == Drain(c, FlushFront(c, s))
    ensures |FlushFront(c, s).queue| < |s.queue|
  {
    assert DrainingIf(c, s, true);
    QueuedFits(c, s);
    FlushFrontKeeps(c, s);
    FlushFrontLeaves(c, s);
  }
}
