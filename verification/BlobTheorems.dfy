/** The guarantees of the write-block protocol over whole runs. */
module BlobTheorems {
  import opened Common
  import opened Segment
  import opened BlobProtocol
  import opened BlobInvariant
  import opened BlobWriter
  import opened BlobFlusher

  // ---- Page alignment ----

  lemma AppendAligned(c: Config, s: State, e: Entry, img: Bytes)
    requires Fits(c, s, img) && AllAligned(s.blocks, s.segs, s.log) && Aligned(|img|)
    ensures var t := AppendImage(c, s, e, img); AllAligned(t.blocks, t.segs, t.log)
  {
    var t := AppendImage(c, s, e, img);
    var a := s.blocks[s.active.value];
    assert Aligned(a.pos) && Aligned(a.segOff);
    assert Aligned(a.pos + |img|) && Aligned(a.segOff + a.pos) && Aligned(s.segs[Cur(s)].writeOffset + |img|);
  }

  lemma TakeHereAligned(c: Config, s: State)
    requires Shape(c, s) && |s.free| > 0 && AllAligned(s.blocks, s.segs, s.log)
    ensures var t := TakeHere(c, s); AllAligned(t.blocks, t.segs, t.log)
  {
    var t := TakeHere(c, s);
    forall b | 0 <= b < |t.blocks| ensures Aligned(t.blocks[b].pos) && Aligned(t.blocks[b].segOff) {
      assert Aligned(s.blocks[b].pos) && Aligned(s.blocks[b].segOff);
    }
  }

  lemma TakeAligned(c: Config, s: State)
    requires Shape(c, s) && |s.free| > 0 && AllAligned(s.blocks, s.segs, s.log)
    ensures var t := TakeBlock(c, s); AllAligned(t.blocks, t.segs, t.log)
  {
    RoomKeepsShape(c, s);
    TakeHereAligned(c, RoomForBlock(c, s));
  }

  lemma DirectIntoAligned(s: State, e: Entry, img: Bytes)
    requires |s.segs| >= 1 && AllAligned(s.blocks, s.segs, s.log) && Aligned(|img|)
    ensures var t := DirectInto(s, e, img); AllAligned(t.blocks, t.segs, t.log)
  {
    var t := DirectInto(s, e, img);
    assert t.segs[|t.segs| - 1].writeOffset == s.segs[Cur(s)].writeOffset + |img|;
  }

  lemma DirectAligned(c: Config, s: State, e: Entry)
    requires |s.segs| >= 1 && AllAligned(s.blocks, s.segs, s.log)
    ensures var t := WriteDirect(c, s, e); AllAligned(t.blocks, t.segs, t.log)
  {
    if NeedsSegment(c, s, DiskSize(e)) {
      DirectIntoAligned(NewSegment(c, s), e, DirectImage(s, e));
    } else {
      DirectIntoAligned(s, e, DirectImage(s, e));
    }
  }

  lemma ResumeAligned(c: Config, s: State, e: Entry)
    requires Inv(c, s) && CanTake(c, s) && !Oversized(c, e) && AllAligned(s.blocks, s.segs, s.log)
    ensures var t := ResumeWith(c, s, e); AllAligned(t.blocks, t.segs, t.log)
  {
    TakeKeeps(c, s);
    TakeAligned(c, s);
    var t := TakeBlock(c, s);
    AppendAligned(c, t, e, BlockImage(t.blocks[t.active.value], t.sequence, e));
  }

  lemma WriteAligned(c: Config, s: State, e: Entry)
    requires Inv(c, s) && CanWrite(s, e) && AllAligned(s.blocks, s.segs, s.log)
    ensures var t := Write(c, s, e); AllAligned(t.blocks, t.segs, t.log)
  {
    if Oversized(c, e) {
      DirectAligned(c, s, e);
    } else if Rotates(c, s, e) {
      ParkKeeps(c, s, e);
      ParkEnqueues(c, s, e);
      var p := Park(c, s, e);
      if |p.free| > 0 {
        ResumeAligned(c, p, e);
      }
    } else {
      AppendAligned(c, s, e, BlockImage(s.blocks[s.active.value], s.sequence, e));
    }
  }

  // ---- Every step ----

  ghost predicate Good(c: Config, s: State) {
    Inv(c, s) && AllAligned(s.blocks, s.segs, s.log)
  }

  /** No write appends behind an oversized entry that overtook the active block, close does not
      find a parked writer, and the flusher finds nothing to drain. */
  predicate SafeEvent(c: Config, s: State, ev: Event) {
    && (ev.DoWrite? ==> SafeWrite(c, s, ev.entry))
    && (ev.DoCloseEnqueue? ==> s.waiting.None?)
    && !ev.DoDrainPop?
  }

  lemma WakeAligned(c: Config, s: State)
    requires Inv(c, s) && Enabled(c, s, DoResume) && AllAligned(s.blocks, s.segs, s.log)
    ensures var t := Wake(c, s); AllAligned(t.blocks, t.segs, t.log)
  {
    if |s.free| > 0 {
      ResumeAligned(c, s, s.waiting.value);
    }
  }

  lemma WriterStep(c: Config, s: State, ev: Event)
    requires Good(c, s) && Enabled(c, s, ev) && SafeEvent(c, s, ev) && (ev.DoWrite? || ev.DoResume?)
    ensures Good(c, Apply(c, s, ev))
  {
    if ev.DoWrite? {
      if s.active.Some? {
        WriteKeeps(c, s, ev.entry);
        WriteAligned(c, s, ev.entry);
      }
    } else {
      WakeKeeps(c, s);
      WakeAligned(c, s);
    }
  }

  lemma PopStep(c: Config, s: State)
    requires Good(c, s) && Enabled(c, s, DoPop)
    ensures Good(c, Pop(s))
  {
    if s.blocks[s.queue[0]].pos == 0 { RecycleKeeps(c, s); } else { StartKeeps(c, s); }
  }

  /** Block positions are page-aligned, so a flush writes exactly the block's own range. */
  lemma FlushIsExact(s: State)
    requires s.flushing.Some? && s.flushing.value < |s.blocks| && FlushOk(s) && AllAligned(s.blocks, s.segs, s.log)
    ensures s.flushSize == s.blocks[s.flushing.value].pos
  {
    assert Aligned(s.blocks[s.flushing.value].pos);
  }

  lemma PwriteAligned(c: Config, s: State, n: nat)
    requires CanPwrite(c, s, n) && AllAligned(s.blocks, s.segs, s.log)
    ensures var t := Pwrite(c, s, n); AllAligned(t.blocks, t.segs, t.log)
  {
    assert BlockShape(c, |s.segs|, s.blocks[s.flushing.value]);
    var t := Pwrite(c, s, n);
    assert t.segs[|t.segs| - 1].writeOffset == s.segs[|s.segs| - 1].writeOffset;
  }

  lemma PwriteStep(c: Config, s: State, n: nat)
    requires Good(c, s) && Enabled(c, s, DoPwrite(n))
    ensures Good(c, Pwrite(c, s, n))
  {
    FlushIsExact(s);
    PwriteKeeps(c, s, n);
    PwriteAligned(c, s, n);
  }

  lemma ReturnStep(c: Config, s: State)
    requires Good(c, s) && Enabled(c, s, DoReturn)
    ensures Good(c, Return(s))
  {
    FlushIsExact(s);
    ReturnKeeps(c, s);
  }

  lemma ReaderStep(c: Config, s: State, ev: Event)
    requires Good(c, s) && Enabled(c, s, ev) && (ev.DoCheckPending? || ev.DoDiskRead?)
    ensures Good(c, Apply(c, s, ev))
  {
    match ev
    case DoCheckPending(r, i) =>
      if FindPending(c, s, s.log[i].loc).None? {
        MissMeansOnDisk(c, s, i);
        CheckKeeps(c, s, r, i);
      }
    case DoDiskRead(r) => ReadKeeps(c, s, r);
  }

  lemma StopStep(c: Config, s: State, running: bool, left: bool, exited: bool)
    requires Good(c, s) && s.closing && (s.running || !running) && (left ==> !running && s.flushing.None?) && (exited ==> left && s.queue == [])
    ensures Good(c, s.(running := running, left := left, exited := exited))
  {
  }

  lemma EnqueueStep(c: Config, s: State)
    requires Good(c, s) && !s.closing && s.waiting.None?
    ensures Good(c, CloseEnqueue(c, s))
  {
    CloseKeeps(c, s);
  }

  lemma HeadersStep(c: Config, s: State, header: Bytes)
    requires Good(c, s) && Enabled(c, s, DoRewriteHeaders(header))
    ensures Good(c, RewriteHeaders(s, header))
  {
    HeadersKeep(c, s, header);
  }

  lemma MarkDeadStep(c: Config, s: State, i: nat)
    requires Good(c, s) && Enabled(c, s, DoMarkDead(i))
    ensures Good(c, MarkDead(s, i))
  {
    MarkDeadKeeps(c, s, i);
    MarkDeadAligned(s, i);
  }

  lemma MarkDeadAligned(s: State, i: nat)
    requires i < |s.log| && s.log[i].loc.segId < |s.segs| && AllAligned(s.blocks, s.segs, s.log)
    ensures var t := MarkDead(s, i); AllAligned(t.blocks, t.segs, t.log)
  {
    var t := MarkDead(s, i);
    assert t.segs[|t.segs| - 1].writeOffset == s.segs[|s.segs| - 1].writeOffset;
  }

  /** Every safe step of any thread keeps the invariant. */
  lemma StepKeeps(c: Config, s: State, ev: Event)
    requires Good(c, s) && Enabled(c, s, ev) && SafeEvent(c, s, ev)
    ensures Good(c, Apply(c, s, ev))
  {
    match ev
    case DoWrite(_) => WriterStep(c, s, ev);
    case DoResume => WriterStep(c, s, ev);
    case DoPop => PopStep(c, s);
    case DoPwrite(n) => PwriteStep(c, s, n);
    case DoReturn => ReturnStep(c, s);
    case DoCheckPending(_, _) => ReaderStep(c, s, ev);
    case DoDiskRead(_) => ReaderStep(c, s, ev);
    case DoMarkDead(i) => MarkDeadStep(c, s, i);
    case DoCloseEnqueue => EnqueueStep(c, s);
    case DoCloseStop => StopStep(c, s, false, s.left, s.exited);
    case DoLeave => StopStep(c, s, s.running, true, s.exited);
    case DoExit => StopStep(c, s, s.running, s.left, true);
    case DoRewriteHeaders(h) => HeadersStep(c, s, h);
  }

  /** The parked writer's block is queued, flushing or free already; close queues it again. */
  lemma ParkedCloseDoubles(c: Config, s: State)
    requires Shape(c, s) && Conserved(s) && Phases(c, s) && s.waiting.Some? && !s.closing
    ensures !Conserved(CloseEnqueue(c, s))
  {
    var a, t := s.active.value, CloseEnqueue(c, s);
    assert t.queue == s.queue + [a] && multiset(t.queue)[a] == multiset(s.queue)[a] + 1;
    assert Owned(s.queue, s.flushing, Writing(s), s.free)[a] == Pool(|s.blocks|)[a] == 1;
    assert Owned(t.queue, t.flushing, Writing(t), t.free)[a] == 2;
  }

  /** A block popped by the drain loop is in no place at all. */
  lemma DrainPopDrops(c: Config, s: State)
    requires Shape(c, s) && Conserved(s) && |s.queue| > 0
    ensures !Conserved(DrainPop(s))
  {
    var a, t := s.queue[0], DrainPop(s);
    QueueFront(s);
    assert Owned(s.queue, s.flushing, Writing(s), s.free)[a] == Pool(|s.blocks|)[a] == 1;
    assert Owned(t.queue, t.flushing, Writing(t), t.free)[a] == 0;
  }

  lemma UnsafeWriteBreaks(c: Config, s: State, e: Entry)
    requires Good(c, s) && CanWrite(s, e) && !SafeWrite(c, s, e)
    ensures !Disjoint(Write(c, s, e).log)
  {
    AppendSafeExactly(c, s, e);
    var t := Append(c, s, e);
    var i :| 0 <= i < |s.log| && !Apart(s.log[i], t.log[|s.log|]);
    assert t.log[i] == s.log[i];
  }

  /** A step keeps the invariant exactly if it is safe: an append behind an overtaking entry
      breaks the disjointness of extents, a close that finds a parked writer puts a block in two
      places, and a block that the flusher drains is in none. */
  lemma StepKeepsExactly(c: Config, s: State, ev: Event)
    requires Good(c, s) && Enabled(c, s, ev)
    ensures Good(c, Apply(c, s, ev)) <==> SafeEvent(c, s, ev)
  {
    if SafeEvent(c, s, ev) {
      StepKeeps(c, s, ev);
    } else if ev.DoWrite? {
      UnsafeWriteBreaks(c, s, ev.entry);
    } else if ev.DoDrainPop? {
      DrainPopDrops(c, s);
    } else {
      ParkedCloseDoubles(c, s);
    }
  }

  // ---- Whole runs ----

  /** Any steps at all, from a good state. */
  ghost predicate IsHistory(c: Config, trace: seq<State>, evs: seq<Event>) {
    && |trace| == |evs| + 1 && Good(c, trace[0])
    && forall i :: 0 <= i < |evs| ==> Did(c, trace[i], evs[i], trace[i + 1])
  }

  predicate Did(c: Config, s: State, ev: Event, t: State) {
    Enabled(c, s, ev) && t == Apply(c, s, ev)
  }

  /** A history of safe steps. */
  ghost predicate IsRun(c: Config, trace: seq<State>, evs: seq<Event>) {
    && |trace| == |evs| + 1 && Good(c, trace[0])
    && forall i :: 0 <= i < |evs| ==> Stepped(c, trace[i], evs[i], trace[i + 1])
  }

  predicate Stepped(c: Config, s: State, ev: Event, t: State) {
    Enabled(c, s, ev) && SafeEvent(c, s, ev) && t == Apply(c, s, ev)
  }

  lemma DidExactly(c: Config, s: State, ev: Event, t: State)
    requires Good(c, s) && Did(c, s, ev, t)
    ensures Good(c, t) <==> Stepped(c, s, ev, t)
  {
    StepKeepsExactly(c, s, ev);
  }

  ghost predicate AllGood(c: Config, trace: seq<State>) {
    forall i :: 0 <= i < |trace| ==> Good(c, trace[i])
  }

  /** The invariant holds throughout a history exactly if every step of it is safe. */
  lemma RunKeepsExactly(c: Config, trace: seq<State>, evs: seq<Event>)
    requires IsHistory(c, trace, evs)
    ensures AllGood(c, trace) <==> IsRun(c, trace, evs)
  {
    if AllGood(c, trace) {
      forall i | 0 <= i < |evs| ensures Stepped(c, trace[i], evs[i], trace[i + 1]) {
        assert Did(c, trace[i], evs[i], trace[i + 1]);
        DidExactly(c, trace[i], evs[i], trace[i + 1]);
      }
    }
    if IsRun(c, trace, evs) {
      forall i | 0 <= i < |trace| ensures Good(c, trace[i]) {
        RunKeeps(c, trace, evs, i);
      }
    }
  }

  lemma SteppedKeeps(c: Config, s: State, ev: Event, t: State)
    requires Good(c, s) && Stepped(c, s, ev, t)
    ensures Good(c, t)
  {
    StepKeeps(c, s, ev);
  }

  /** Every state of a run is good: blocks are conserved and every location is served. */
  lemma {:induction false} RunKeeps(c: Config, trace: seq<State>, evs: seq<Event>, i: nat)
    requires IsRun(c, trace, evs) && i < |trace|
    ensures Good(c, trace[i])
  {
    if i > 0 {
      var j := i - 1;
      RunKeeps(c, trace, evs, j);
      SteppedKeeps(c, trace[j], evs[j], trace[j + 1]);
    }
  }

  lemma LogGrows(c: Config, s: State, ev: Event)
    requires Enabled(c, s, ev)
    ensures s.log <= Apply(c, s, ev).log
  {
    match ev
    case DoWrite(e) => if s.active.Some? { WriteLogGrows(c, s, e); }
    case DoResume => ResumeLogGrows(c, s, s.waiting.value);
    case DoCheckPending(_, _) =>
    case DoCloseEnqueue =>
    case _ =>
  }

  lemma WriteLogGrows(c: Config, s: State, e: Entry)
    requires Shape(c, s) && CanWrite(s, e)
    ensures s.log <= Write(c, s, e).log
  {
    if Oversized(c, e) {
    } else if Rotates(c, s, e) {
      ResumeLogGrows(c, Enqueue(s, e), e);
      ParkEnqueues(c, s, e);
    } else {
    }
  }

  lemma ResumeLogGrows(c: Config, s: State, e: Entry)
    requires Shape(c, s) && !Oversized(c, e)
    ensures |s.free| > 0 ==> s.log <= ResumeWith(c, s, e).log
  {
  }

  /** Extents are write-once: a location, once returned, keeps naming the same entry, and the
      extents of all locations ever returned stay apart, aligned and inside their segment. */
  lemma {:induction false} WriteOnce(c: Config, trace: seq<State>, evs: seq<Event>, i: nat, j: nat)
    requires IsRun(c, trace, evs) && i <= j < |trace|
    ensures trace[i].log <= trace[j].log
    ensures forall k, m :: 0 <= k < m < |trace[j].log| ==> Apart(trace[j].log[k], trace[j].log[m])
    ensures forall k :: 0 <= k < |trace[j].log| ==>
              var r := trace[j].log[k];
              && Aligned(r.loc.offset) && SEGMENT_HEADER_SIZE <= r.loc.offset && r.loc.diskSize == DiskSize(r.entry)
              && (SEGMENT_HEADER_SIZE + r.loc.diskSize <= c.segmentSize ==> End(r) <= c.segmentSize)
    decreases j
  {
    RunKeeps(c, trace, evs, j);
    forall k | 0 <= k < |trace[j].log| ensures RecOk(c, |trace[j].segs|, trace[j].log[k]) && trace[j].log[k].loc.diskSize == DiskSize(trace[j].log[k].entry) {
      ImageSize(trace[j].log[k].image, trace[j].log[k].entry);
    }
    if i < j {
      WriteOnce(c, trace, evs, i, j - 1);
      assert Stepped(c, trace[j - 1], evs[j - 1], trace[j]);
      LogGrows(c, trace[j - 1], evs[j - 1]);
    }
  }

  // ---- What readers get ----

  /** What a read of the entry returns while it is pending. */
  function Expected(blob: Bytes, bufLen: nat): ReadResult {
    if |blob| > bufLen then ReadResult(BufferTooSmall, []) else ReadResult(Ok, blob)
  }

  /** From disk an empty blob reads as a miss. */
  function ExpectedOnDisk(blob: Bytes, bufLen: nat): ReadResult {
    if blob == [] then ReadResult(NotFound, []) else Expected(blob, bufLen)
  }

  /** The bytes at hand start with an image of the blob. */
  predicate Serves(img: Bytes, blob: Bytes) {
    Readable(img) && BlobSizeField(img) == |blob| && BlobIn(img) == blob
  }

  lemma ImageServes(img: Bytes, rec: Rec)
    requires Storable(|rec.entry.blob|) && IsImageOf(rec.image, rec.entry) && rec.image <= img
    ensures Serves(img, rec.entry.blob)
  {
    ImageRoundTrip(rec.image, rec.entry);
    PrefixServes(img, rec.image, rec.entry.blob);
  }

  lemma PrefixServes(img: Bytes, part: Bytes, blob: Bytes)
    requires ENTRY_HEADER_SIZE + |blob| <= |part| && part <= img
    requires BlobSizeField(part) == |blob| && part[ENTRY_HEADER_SIZE..ENTRY_HEADER_SIZE + |blob|] == blob
    ensures Serves(img, blob)
  {
    var n := ENTRY_HEADER_SIZE + |blob|;
    assert img[..ENTRY_HEADER_SIZE] == part[..ENTRY_HEADER_SIZE];
    HeaderFields(img, part);
    assert img[ENTRY_HEADER_SIZE..n] == part[ENTRY_HEADER_SIZE..n];
  }

  /** The record's image as a disk read of its location returns it. */
  predicate DiskHas(segs: seq<SegmentFile>, rec: Rec) {
    && rec.loc.segId < |segs| && rec.loc.offset + rec.loc.diskSize <= |segs[rec.loc.segId].file|
    && Serves(segs[rec.loc.segId].file[rec.loc.offset..rec.loc.offset + rec.loc.diskSize], rec.entry.blob)
  }

  lemma ServedFromDisk(segs: seq<SegmentFile>, rec: Rec, img: Bytes, bufLen: nat)
    requires rec.loc.segId < |segs| && Holds(segs[rec.loc.segId].file, rec.loc.offset, img)
    requires |img| == rec.loc.diskSize && Serves(img, rec.entry.blob)
    ensures DiskHas(segs, rec)
    ensures ReadDisk(segs[rec.loc.segId].file, rec.loc, bufLen) == ExpectedOnDisk(rec.entry.blob, bufLen)
  {
    var file := segs[rec.loc.segId].file;
    assert file[rec.loc.offset..rec.loc.offset + rec.loc.diskSize] == img;
  }

  /** A location ever returned is served from a pending block or from disk with exactly the
      bytes written; the first attempt always succeeds. */
  lemma ReadThrough(c: Config, trace: seq<State>, evs: seq<Event>, i: nat, k: nat, bufLen: nat)
    requires IsRun(c, trace, evs) && i < |trace| && k < |trace[i].log|
    ensures var s, rec := trace[i], trace[i].log[k];
            && Shape(c, s)
            && match FindPending(c, s, rec.loc) {
              case Some(b) =>
                var img := s.blocks[b].buf[rec.loc.offset - s.blocks[b].segOff..];
                Readable(img) && ReadPending(img, bufLen) == Expected(rec.entry.blob, bufLen)
              case None =>
                && DiskHas(s.segs, rec)
                && ReadDisk(s.segs[rec.loc.segId].file, rec.loc, bufLen) == ExpectedOnDisk(rec.entry.blob, bufLen)
            }
  {
    RunKeeps(c, trace, evs, i);
    var s, rec := trace[i], trace[i].log[k];
    PendingOrDisk(c, s, k);
    match FindPending(c, s, rec.loc)
    case Some(b) =>
      var buf := s.blocks[b].buf;
      var at := rec.loc.offset - s.blocks[b].segOff;
      assert buf[at..][..|rec.image|] == buf[at..at + |rec.image|] == rec.image;
      ImageServes(buf[at..], rec);
    case None =>
      ImageServes(rec.image, rec);
      ServedFromDisk(s.segs, rec, rec.image, bufLen);
  }

  lemma PendingOrDisk(c: Config, s: State, k: nat)
    requires Inv(c, s) && k < |s.log|
    ensures var rec := s.log[k];
            && IsImageOf(rec.image, rec.entry) && Storable(|rec.entry.blob|) && |rec.image| == rec.loc.diskSize
            && match FindPending(c, s, rec.loc) {
              case Some(b) => s.blocks[b].segOff <= rec.loc.offset && Holds(s.blocks[b].buf, rec.loc.offset - s.blocks[b].segOff, rec.image)
              case None => OnDisk(s.segs, rec)
            }
  {
    var rec := s.log[k];
    assert RecOk(c, |s.segs|, rec);
    match FindPending(c, s, rec.loc)
    case Some(b) => assert BlockHolds(s.blocks[b], rec);
    case None => MissMeansOnDisk(c, s, k);
  }

  /** A reader that found its location in no pending block reads the right bytes from disk,
      any number of steps of any other thread later. */
  lemma LateReader(c: Config, trace: seq<State>, evs: seq<Event>, j: nat, r: nat, bufLen: nat)
    requires IsRun(c, trace, evs) && j < |trace| && r in trace[j].misses
    ensures var s := trace[j];
            && s.misses[r] < |s.log|
            && var rec := s.log[s.misses[r]];
            && DiskHas(s.segs, rec)
            && ReadDisk(s.segs[rec.loc.segId].file, rec.loc, bufLen) == ExpectedOnDisk(rec.entry.blob, bufLen)
  {
    RunKeeps(c, trace, evs, j);
    var s := trace[j];
    assert OnDisk(s.segs, s.log[s.misses[r]]) && RecOk(c, |s.segs|, s.log[s.misses[r]]);
    ImageServes(s.log[s.misses[r]].image, s.log[s.misses[r]]);
    ServedFromDisk(s.segs, s.log[s.misses[r]], s.log[s.misses[r]].image, bufLen);
  }

  // ---- Blocks and shutdown ----

  /** After close has let the flusher leave, every entry ever written is on disk, unless some
      were written into a block that close left active because it was empty. */
  lemma ShutdownDurability(c: Config, trace: seq<State>, evs: seq<Event>, i: nat)
    requires IsRun(c, trace, evs) && i < |trace| && trace[i].exited && !LeftOver(trace[i])
    ensures forall k :: 0 <= k < |trace[i].log| ==> OnDisk(trace[i].segs, trace[i].log[k])
  {
    RunKeeps(c, trace, evs, i);
    ExitedOnDisk(c, trace[i]);
  }

  // ---- Opening ----

  /** Every segment an earlier process left ends where its file ends. */
  function Reopened(segs: seq<SegmentFile>): seq<SegmentFile> {
    seq(|segs|, k requires 0 <= k < |segs| => segs[k].(writeOffset := |segs[k].file|))
  }

  lemma OpenKeeps(c: Config, segs: seq<SegmentFile>, log: seq<Rec>, dead: set<nat>)
    requires GoodConfig(c) && PastHeader(segs)
    requires RecsOk(c, |segs|, log) && ImagesOk(log) && Disjoint(log)
    requires forall i :: 0 <= i < |log| ==> OnDisk(segs, log[i]) && Aligned(log[i].loc.offset)
    ensures Good(c, Open(c, segs, log, dead))
  {
    OpenShape(c, segs, log, dead);
    OpenContents(c, segs, log, dead);
  }

  lemma OpenContents(c: Config, segs: seq<SegmentFile>, log: seq<Rec>, dead: set<nat>)
    requires GoodConfig(c) && PastHeader(segs) && RecsOk(c, |segs|, log)
    requires forall i :: 0 <= i < |log| ==> OnDisk(segs, log[i])
    ensures var s := Open(c, segs, log, dead);
            && RecsOk(c, |s.segs|, s.log) && BlocksOk(s.blocks, s.log) && Served(s)
            && CurrentEnds(s.blocks, s.segs, s.log) && FrontierOk(c, s)
  {
    var s := Open(c, segs, log, dead);
    forall i | 0 <= i < |log| ensures RecOk(c, |s.segs|, log[i]) && log[i].loc.segId < |segs| && OnDisk(s.segs, log[i]) {
      assert RecOk(c, |segs|, log[i]);
    }
    assert FrontierFree(s.blocks, s.log, s.active.value);
  }

  lemma OpenShape(c: Config, segs: seq<SegmentFile>, log: seq<Rec>, dead: set<nat>)
    requires GoodConfig(c)
    ensures var s := Open(c, segs, log, dead); Shape(c, s) && Conserved(s)
  {
    var s := Open(c, segs, log, dead);
    var n := c.poolSize - 1;
    RangeIsPool(n);
    assert BlockShapes(c, |s.segs|, s.blocks);
  }

  lemma RangeIsPool(n: nat)
    ensures multiset(seq(n, i => i)) == Pool(n)
  {
    if n > 0 {
      RangeIsPool(n - 1);
      assert seq(n, i => i) == seq(n - 1, i => i) + [n - 1];
    }
  }

  /** After a clean shutdown a new process starts from a good state with the same log, whatever
      it counts as given up. */
  lemma CleanReopen(c: Config, s: State, dead: set<nat>)
    requires Good(c, s) && s.exited && !LeftOver(s)
    requires forall k :: 0 <= k < |s.segs| ==> SEGMENT_HEADER_SIZE <= |s.segs[k].file|
    ensures var t := Open(c, Reopened(s.segs), s.log, dead); Good(c, t) && t.log == s.log
    ensures forall i :: 0 <= i < |s.log| ==> OnDisk(Open(c, Reopened(s.segs), s.log, dead).segs, s.log[i])
  {
    ExitedOnDisk(c, s);
    var segs := Reopened(s.segs);
    forall i | 0 <= i < |s.log| ensures OnDisk(segs, s.log[i]) && Aligned(s.log[i].loc.offset) {
      assert OnDisk(s.segs, s.log[i]);
    }
    OpenKeeps(c, segs, s.log, dead);
  }

  // ---- Exactly when an append is safe ----

  /** An append to the active block gets an extent of its own exactly if no oversized entry
      was written where the block continues. */
  lemma AppendSafeExactly(c: Config, s: State, e: Entry)
    requires Good(c, s) && CanWrite(s, e) && !Oversized(c, e) && !Rotates(c, s, e)
    ensures var t := Append(c, s, e);
            (forall i :: 0 <= i < |s.log| ==> Apart(s.log[i], t.log[|s.log|])) <==> !Overtaken(s)
  {
    var img := BlockImage(s.blocks[s.active.value], s.sequence, e);
    if Overtaken(s) {
      OvertakenCollides(c, s, e, img);
    } else {
      AppendRecs(c, s, e, img);
    }
  }

  lemma OvertakenCollides(c: Config, s: State, e: Entry, img: Bytes)
    requires Shape(c, s) && s.active.Some? && 0 < |img| && s.blocks[s.active.value].pos + |img| <= c.capacity
    requires FrontierOk(c, s) && RecsOk(c, |s.segs|, s.log) && Overtaken(s)
    ensures var t := AppendImage(c, s, e, img);
            exists i :: 0 <= i < |s.log| && !Apart(s.log[i], t.log[|s.log|])
                        && s.log[i].loc.segId == t.log[|s.log|].loc.segId && s.log[i].loc.offset == t.log[|s.log|].loc.offset
  {
    var a := s.blocks[s.active.value];
    assert FrontierTaken(a, s.log);
    var i :| 0 <= i < |s.log| && s.log[i].loc.segId == a.segId && s.log[i].loc.offset == BlockEnd(a);
    assert RecOk(c, |s.segs|, s.log[i]);
    assert !Apart(s.log[i], AppendImage(c, s, e, img).log[|s.log|]);
  }

  /** Reading the location in the pending blocks finds `blob` in the active block. */
  predicate ActiveServes(c: Config, s: State, loc: Location, blob: Bytes) {
    && Shape(c, s) && s.active.Some? && FindPending(c, s, loc) == s.active
    && var a := s.blocks[s.active.value];
       a.segOff <= loc.offset <= a.segOff + |a.buf| && Serves(a.buf[loc.offset - a.segOff..], blob)
  }

  /** Otherwise an earlier location now reads back the new entry's blob. */
  lemma OvertakenCorrupts(c: Config, s: State, e: Entry)
    requires Good(c, s) && CanWrite(s, e) && !Oversized(c, e) && !Rotates(c, s, e) && Overtaken(s)
    ensures exists i :: 0 <= i < |s.log| && ActiveServes(c, Append(c, s, e), s.log[i].loc, e.blob)
  {
    var img := BlockImage(s.blocks[s.active.value], s.sequence, e);
    OvertakenCollides(c, s, e, img);
    var t := AppendImage(c, s, e, img);
    var i :| 0 <= i < |s.log| && s.log[i].loc.segId == t.log[|s.log|].loc.segId && s.log[i].loc.offset == t.log[|s.log|].loc.offset;
    AppendedServes(c, s, e, img);
    assert ActiveServes(c, t, s.log[i].loc, e.blob);
  }

  lemma AppendedServes(c: Config, s: State, e: Entry, img: Bytes)
    requires Fits(c, s, img) && Storable(|e.blob|) && IsImageOf(img, e)
    ensures var t := AppendImage(c, s, e, img);
            forall loc: Location :: loc.segId == t.log[|s.log|].loc.segId && loc.offset == t.log[|s.log|].loc.offset ==>
              ActiveServes(c, t, loc, e.blob)
  {
    var t := AppendImage(c, s, e, img);
    AppendShape(c, s, e, img);
    var a := s.blocks[s.active.value];
    assert BlockShape(c, |s.segs|, a);
    var buf := t.blocks[s.active.value].buf;
    assert buf[a.pos..][..|img|] == buf[a.pos..a.pos + |img|] == img;
    ImageServes(buf[a.pos..], t.log[|s.log|]);
  }

  /** An oversized write overtakes the active block exactly if it lands in the block's own
      segment: if the block sits in the current segment, and no new one had to be opened. A
      block once overtaken stays so. */
  lemma DirectOvertakes(c: Config, s: State, e: Entry)
    requires Good(c, s) && CanWrite(s, e) && Oversized(c, e)
    ensures var t := WriteDirect(c, s, e);
            && Shape(c, t) && t.active == s.active
            && (Overtaken(t) <==>
                  Overtaken(s) || (s.blocks[s.active.value].segId == Cur(s) && !NeedsSegment(c, s, DiskSize(e))))
  {
    var img := DirectImage(s, e);
    if NeedsSegment(c, s, DiskSize(e)) {
      var n := NewSegment(c, s);
      NewSegmentKeeps(c, s);
      DirectShape(c, n, e, img);
      DirectFrontier(c, n, e, img);
    } else {
      DirectShape(c, s, e, img);
      DirectFrontier(c, s, e, img);
    }
  }
}
