/** Runs without oversized entries: what a crash leaves on disk, and how the entries of a
    segment lie in its file. */
module BlobCrash {
  import opened Common
  import opened Segment
  import opened BlobProtocol
  import opened BlobInvariant
  import opened BlobWriter
  import opened BlobTheorems
  import opened BlobOrder

  // ---- The entries of a segment, in the order of their appends ----

  function SegRecs(log: seq<Rec>, k: nat): seq<Rec> {
    if log == [] then []
    else
      var last := log[|log| - 1];
      SegRecs(log[..|log| - 1], k) + (if last.loc.segId == k then [last] else [])
  }

  lemma {:induction false} SegRecsFrom(log: seq<Rec>, k: nat, i: nat) returns (j: nat)
    requires i < |SegRecs(log, k)|
    ensures j < |log| && SegRecs(log, k)[i] == log[j] && log[j].loc.segId == k
  {
    var n := |log| - 1;
    if i < |SegRecs(log[..n], k)| {
      j := SegRecsFrom(log[..n], k, i);
    } else {
      j := n;
    }
  }

  /** The extents follow each other without gaps from the segment header to `end`. */
  predicate Tiles(recs: seq<Rec>, end: nat) {
    if recs == [] then end == SEGMENT_HEADER_SIZE
    else
      var last := recs[|recs| - 1];
      End(last) == end && Tiles(recs[..|recs| - 1], last.loc.offset)
  }

  function LiveIn(log: seq<Rec>, dead: set<nat>, k: nat): nat {
    if log == [] then 0
    else
      var n := |log| - 1;
      LiveIn(log[..n], dead, k) + (if log[n].loc.segId == k && n !in dead then 1 else 0)
  }

  /** Every segment is tiled by its entries up to its write offset, counts them, and counts
      those not marked dead. */
  predicate Accounted(segs: seq<SegmentFile>, log: seq<Rec>, dead: set<nat>) {
    forall k :: 0 <= k < |segs| ==>
      && Tiles(SegRecs(log, k), segs[k].writeOffset)
      && segs[k].entryCount == |SegRecs(log, k)|
      && segs[k].liveCount == LiveIn(log, dead, k)
  }

  predicate Plain(s: State) {
    && InOrder(s) && Accounted(s.segs, s.log, s.dead)
    && forall i :: i in s.dead ==> i < |s.log|
  }

  lemma AppendAccounted(segs: seq<SegmentFile>, log: seq<Rec>, dead: set<nat>, rec: Rec)
    requires |segs| >= 1 && Accounted(segs, log, dead) && |log| !in dead
    requires rec.loc.segId == |segs| - 1 && rec.loc.offset == segs[|segs| - 1].writeOffset
    ensures Accounted(segs[|segs| - 1 := Advance(segs[|segs| - 1], rec.loc.diskSize)], log + [rec], dead)
  {
    var log', n := log + [rec], |segs| - 1;
    assert log'[..|log|] == log;
    var segs' := segs[n := Advance(segs[n], rec.loc.diskSize)];
    forall k | 0 <= k < |segs'|
      ensures Tiles(SegRecs(log', k), segs'[k].writeOffset)
      ensures segs'[k].entryCount == |SegRecs(log', k)| && segs'[k].liveCount == LiveIn(log', dead, k)
    {
      var recs := SegRecs(log, k);
      if k == n {
        assert SegRecs(log', k) == recs + [rec];
        assert (recs + [rec])[..|recs|] == recs;
      } else {
        assert SegRecs(log', k) == recs;
      }
    }
  }

  lemma NewSegmentAccounted(c: Config, segs: seq<SegmentFile>, log: seq<Rec>, dead: set<nat>)
    requires Accounted(segs, log, dead) && RecsOk(c, |segs|, log)
    ensures Accounted(segs + [SegmentFile(SEGMENT_HEADER_SIZE, 0, 0, c.header)], log, dead)
  {
    NoneYet(c, |segs|, log, dead, |segs|);
  }

  lemma {:induction false} NoneYet(c: Config, segments: nat, log: seq<Rec>, dead: set<nat>, k: nat)
    requires RecsOk(c, segments, log) && segments <= k
    ensures SegRecs(log, k) == [] && LiveIn(log, dead, k) == 0
  {
    if log != [] {
      NoneYet(c, segments, log[..|log| - 1], dead, k);
      assert RecOk(c, segments, log[|log| - 1]);
    }
  }

  lemma {:induction false} OneLess(log: seq<Rec>, dead: set<nat>, i: nat, k: nat)
    requires i < |log| && i !in dead
    ensures LiveIn(log, dead, k) == LiveIn(log, dead + {i}, k) + (if log[i].loc.segId == k then 1 else 0)
  {
    var n := |log| - 1;
    if i < n {
      OneLess(log[..n], dead, i, k);
    } else {
      Irrelevant(log[..n], dead, i, k);
    }
  }

  lemma {:induction false} Irrelevant(log: seq<Rec>, dead: set<nat>, i: nat, k: nat)
    requires |log| <= i
    ensures LiveIn(log, dead, k) == LiveIn(log, dead + {i}, k)
  {
    if log != [] {
      Irrelevant(log[..|log| - 1], dead, i, k);
    }
  }

  lemma LastInSegment(s: State, k: nat) returns (j: nat)
    requires k < |s.segs| && Tiles(SegRecs(s.log, k), s.segs[k].writeOffset) && s.segs[k].writeOffset > SEGMENT_HEADER_SIZE
    ensures j < |s.log| && s.log[j].loc.segId == k && End(s.log[j]) == s.segs[k].writeOffset
  {
    var recs := SegRecs(s.log, k);
    j := SegRecsFrom(s.log, k, |recs| - 1);
  }

  // ---- Steps ----

  lemma AppendGrows(c: Config, s: State, e: Entry, img: Bytes, rec: Rec)
    requires Fits(c, s, img) && AtEnd(s.blocks, s.segs, s.active)
    requires var a := s.blocks[s.active.value]; rec == NewRec(a.segId, a.segOff + a.pos, e, img)
    ensures var t := AppendImage(c, s, e, img);
            && t.segs == s.segs[Cur(s) := Advance(s.segs[Cur(s)], rec.loc.diskSize)] && t.log == s.log + [rec] && t.dead == s.dead
            && rec.loc.segId == Cur(s) && rec.loc.offset == s.segs[Cur(s)].writeOffset
  {
  }

  lemma AppendCounts(c: Config, s: State, e: Entry, img: Bytes)
    requires Fits(c, s, img) && AtEnd(s.blocks, s.segs, s.active) && |s.log| !in s.dead && Accounted(s.segs, s.log, s.dead)
    ensures var t := AppendImage(c, s, e, img); Accounted(t.segs, t.log, t.dead)
  {
    var a := s.blocks[s.active.value];
    var rec := NewRec(a.segId, a.segOff + a.pos, e, img);
    AppendGrows(c, s, e, img, rec);
    AppendAccounted(s.segs, s.log, s.dead, rec);
  }

  lemma AppendPlain(c: Config, s: State, e: Entry, img: Bytes)
    requires Fits(c, s, img) && s.waiting.None? && Conserved(s) && Plain(s)
    ensures Plain(AppendImage(c, s, e, img))
  {
    AppendInOrder(c, s, e, img);
    AppendCounts(c, s, e, img);
  }

  lemma RoomPlain(c: Config, s: State)
    requires Shape(c, s) && RecsOk(c, |s.segs|, s.log) && s.waiting.Some? && Plain(s)
    ensures Plain(RoomForBlock(c, s))
  {
    if NeedsSegment(c, s, c.capacity) {
      NewSegmentInOrder(c, s);
      NewSegmentAccounted(c, s.segs, s.log, s.dead);
    }
  }

  lemma ResumePlain(c: Config, s: State, e: Entry)
    requires Inv(c, s) && CanTake(c, s) && !Oversized(c, e) && Plain(s)
    ensures Plain(ResumeWith(c, s, e))
  {
    RoomPlain(c, s);
    var r := RoomForBlock(c, s);
    RoomKeepsShape(c, s);
    if NeedsSegment(c, s, c.capacity) {
      NewSegmentKeeps(c, s);
    }
    TakeInOrder(c, r);
    TakeKeeps(c, s);
    var t := TakeBlock(c, s);
    AppendPlain(c, t, e, BlockImage(t.blocks[t.active.value], t.sequence, e));
  }

  lemma WritePlain(c: Config, s: State, e: Entry)
    requires Inv(c, s) && CanWrite(s, e) && !Oversized(c, e) && Plain(s)
    ensures Plain(Write(c, s, e))
  {
    if Rotates(c, s, e) {
      ParkKeeps(c, s, e);
      EnqueueInOrder(c, s, e);
      ParkEnqueues(c, s, e);
      var p := Park(c, s, e);
      if |p.free| > 0 {
        ResumePlain(c, p, e);
      } else {
        assert Chain(GiveUp(p)) == Chain(p);
      }
    } else {
      AppendPlain(c, s, e, BlockImage(s.blocks[s.active.value], s.sequence, e));
    }
  }

  lemma MarkDeadAccounted(segs: seq<SegmentFile>, log: seq<Rec>, dead: set<nat>, i: nat)
    requires i < |log| && i !in dead && log[i].loc.segId < |segs| && Accounted(segs, log, dead)
    ensures var k := log[i].loc.segId; Accounted(segs[k := CountDead(segs[k])], log, dead + {i})
  {
    var d := log[i].loc.segId;
    var segs' := segs[d := CountDead(segs[d])];
    forall k | 0 <= k < |segs'|
      ensures segs'[k].writeOffset == segs[k].writeOffset && segs'[k].entryCount == segs[k].entryCount
      ensures segs'[k].liveCount == LiveIn(log, dead + {i}, k)
    {
      OneLess(log, dead, i, k);
    }
  }

  /** Marking an entry dead once keeps the live counts exact. So does a second mark only when
      its segment has no live entry left to miscount. */
  lemma MarkDeadExactly(s: State, i: nat)
    requires Plain(s) && i < |s.log| && s.log[i].loc.segId < |s.segs|
    ensures var t := MarkDead(s, i);
            Accounted(t.segs, t.log, t.dead) <==> i !in s.dead || s.segs[s.log[i].loc.segId].liveCount == 0
  {
    var k := s.log[i].loc.segId;
    if i !in s.dead {
      MarkDeadAccounted(s.segs, s.log, s.dead, i);
    } else {
      assert s.dead + {i} == s.dead;
      var t := MarkDead(s, i);
      assert t.segs[k].liveCount == LiveIn(t.log, t.dead, k) <==> s.segs[k].liveCount == 0;
      forall j | 0 <= j < |t.segs| && j != k
        ensures Tiles(SegRecs(t.log, j), t.segs[j].writeOffset) && t.segs[j].entryCount == |SegRecs(t.log, j)|
        ensures t.segs[j].liveCount == LiveIn(t.log, t.dead, j)
      {
      }
    }
  }

  lemma MarkDeadPlain(c: Config, s: State, i: nat)
    requires Enabled(c, s, DoMarkDead(i)) && i !in s.dead && Plain(s)
    ensures Plain(MarkDead(s, i))
  {
    MarkDeadInOrder(s, i);
    MarkDeadAccounted(s.segs, s.log, s.dead, i);
  }

  /** The flusher, the readers and close leave the log and the segments' counters alone. */
  predicate SameCounters(s: State, t: State) {
    && t.log == s.log && t.dead == s.dead && |t.segs| == |s.segs|
    && forall k :: 0 <= k < |s.segs| ==>
         && t.segs[k].writeOffset == s.segs[k].writeOffset
         && t.segs[k].entryCount == s.segs[k].entryCount && t.segs[k].liveCount == s.segs[k].liveCount
  }

  lemma PwriteCounts(c: Config, s: State, n: nat)
    requires Enabled(c, s, DoPwrite(n))
    ensures SameCounters(s, Pwrite(c, s, n))
  {
    assert BlockShape(c, |s.segs|, s.blocks[s.flushing.value]);
  }

  lemma CloseCounts(c: Config, s: State)
    requires Shape(c, s)
    ensures SameCounters(s, CloseEnqueue(c, s))
  {
  }

  lemma CheckCounts(c: Config, s: State, r: nat, i: nat)
    requires Enabled(c, s, DoCheckPending(r, i))
    ensures SameCounters(s, Apply(c, s, DoCheckPending(r, i)))
  {
  }

  lemma OtherStepCounts(c: Config, s: State, ev: Event)
    requires Enabled(c, s, ev) && !ev.DoWrite? && !ev.DoResume? && !ev.DoMarkDead?
    ensures SameCounters(s, Apply(c, s, ev))
  {
    match ev
    case DoPwrite(n) => PwriteCounts(c, s, n);
    case DoCloseEnqueue => CloseCounts(c, s);
    case DoCheckPending(r, i) => CheckCounts(c, s, r, i);
    case _ =>
  }

  lemma OtherStepPlain(c: Config, s: State, ev: Event)
    requires Good(c, s) && Enabled(c, s, ev) && SafeEvent(c, s, ev) && Plain(s)
    requires !ev.DoWrite? && !ev.DoResume? && !ev.DoMarkDead?
    ensures Plain(Apply(c, s, ev))
  {
    StepInOrder(c, s, ev);
    OtherStepCounts(c, s, ev);
    KeepAccounted(s, Apply(c, s, ev));
  }

  lemma KeepAccounted(s: State, t: State)
    requires SameCounters(s, t) && Accounted(s.segs, s.log, s.dead)
    ensures Accounted(t.segs, t.log, t.dead)
  {
  }

  /** No oversized entry, no second mark, no close on a parked writer, nothing to drain. */
  predicate PlainEvent(c: Config, s: State, ev: Event) {
    && (ev.DoWrite? ==> !Oversized(c, ev.entry))
    && (ev.DoMarkDead? ==> ev.index !in s.dead)
    && (ev.DoCloseEnqueue? ==> s.waiting.None?)
    && !ev.DoDrainPop?
  }

  lemma StepPlain(c: Config, s: State, ev: Event)
    requires Good(c, s) && Enabled(c, s, ev) && Plain(s) && PlainEvent(c, s, ev)
    ensures Plain(Apply(c, s, ev))
  {
    if ev.DoWrite? || ev.DoResume? {
      WriterStepPlain(c, s, ev);
    } else if ev.DoMarkDead? {
      MarkDeadStepPlain(c, s, ev);
    } else {
      OtherStepPlain(c, s, ev);
    }
  }

  lemma MarkDeadStepPlain(c: Config, s: State, ev: Event)
    requires Enabled(c, s, ev) && Plain(s) && ev.DoMarkDead? && ev.index !in s.dead
    ensures Plain(Apply(c, s, ev))
  {
    MarkDeadPlain(c, s, ev.index);
  }

  lemma WriterStepPlain(c: Config, s: State, ev: Event)
    requires Good(c, s) && Enabled(c, s, ev) && Plain(s)
    requires ev.DoResume? || (ev.DoWrite? && !Oversized(c, ev.entry))
    ensures Plain(Apply(c, s, ev))
  {
    if ev.DoWrite? {
      if s.active.Some? { WritePlain(c, s, ev.entry); }
    } else if |s.free| > 0 {
      ResumePlain(c, s, s.waiting.value);
    } else {
      assert Chain(GiveUp(s)) == Chain(s);
    }
  }

  // ---- Plain runs ----

  predicate PlainStepIf(c: Config, s: State, ev: Event, t: State, asked: bool) {
    Enabled(c, s, ev) && PlainEvent(c, s, ev) && t == Apply(c, s, ev)
  }

  /** A plain step; unfolded on demand. */
  predicate PlainStep(c: Config, s: State, ev: Event, t: State) {
    forall asked :: PlainStepIf(c, s, ev, t, asked)
  }

  /** A run in which every entry fits a block, none is given up twice, close finds no parked
      writer, and the flusher finds nothing to drain. */
  ghost predicate IsPlainRun(c: Config, trace: seq<State>, evs: seq<Event>) {
    && |trace| == |evs| + 1 && Good(c, trace[0]) && Plain(trace[0])
    && forall i :: 0 <= i < |evs| ==> PlainStep(c, trace[i], evs[i], trace[i + 1])
  }

  /** When every entry fits a block, the active block is never overtaken. */
  lemma PlainIsSafe(c: Config, s: State, ev: Event)
    requires Good(c, s) && Plain(s) && Enabled(c, s, ev) && PlainEvent(c, s, ev)
    ensures SafeEvent(c, s, ev)
  {
  }

  lemma PlainStepKeeps(c: Config, s: State, ev: Event, t: State)
    requires Good(c, s) && Plain(s) && PlainStep(c, s, ev, t)
    ensures Good(c, t) && Plain(t)
  {
    assert PlainStepIf(c, s, ev, t, true);
    PlainIsSafe(c, s, ev);
    StepKeeps(c, s, ev);
    StepPlain(c, s, ev);
  }

  ghost predicate SoundIf(c: Config, s: State, asked: bool) {
    Good(c, s) && Plain(s)
  }

  ghost predicate SoundPlain(c: Config, s: State) {
    forall asked :: SoundIf(c, s, asked)
  }

  lemma PlainStepSound(c: Config, s: State, ev: Event, t: State)
    requires SoundPlain(c, s) && PlainStep(c, s, ev, t)
    ensures SoundPlain(c, t)
  {
    assert SoundIf(c, s, true);
    PlainStepKeeps(c, s, ev, t);
  }

  lemma {:induction false} PlainStepsSound(c: Config, trace: seq<State>, evs: seq<Event>, i: nat)
    requires |trace| == |evs| + 1 && i < |trace| && SoundPlain(c, trace[0])
    requires forall j :: 0 <= j < |evs| ==> PlainStep(c, trace[j], evs[j], trace[j + 1])
    ensures SoundPlain(c, trace[i])
  {
    if i > 0 {
      var j := i - 1;
      PlainStepsSound(c, trace, evs, j);
      PlainStepSound(c, trace[j], evs[j], trace[j + 1]);
    }
  }

  lemma PlainRunSound(c: Config, trace: seq<State>, evs: seq<Event>, i: nat)
    requires IsPlainRun(c, trace, evs) && i < |trace|
    ensures SoundPlain(c, trace[i])
  {
    PlainStepsSound(c, trace, evs, i);
  }

  /** Every state of such a run is good, in order and accounted for. */
  lemma PlainRunKeeps(c: Config, trace: seq<State>, evs: seq<Event>, i: nat)
    requires IsPlainRun(c, trace, evs) && i < |trace|
    ensures Good(c, trace[i]) && Plain(trace[i])
  {
    PlainRunSound(c, trace, evs, i);
    assert SoundIf(c, trace[i], true);
  }

  /** So every such run has all the guarantees of read-through and write-once extents. */
  lemma PlainRunIsRun(c: Config, trace: seq<State>, evs: seq<Event>)
    requires IsPlainRun(c, trace, evs)
    ensures IsRun(c, trace, evs)
  {
    forall i | 0 <= i < |evs| ensures Stepped(c, trace[i], evs[i], trace[i + 1]) {
      PlainRunKeeps(c, trace, evs, i);
      assert PlainStep(c, trace[i], evs[i], trace[i + 1]);
      assert PlainStepIf(c, trace[i], evs[i], trace[i + 1], true);
      PlainIsSafe(c, trace[i], evs[i]);
    }
  }

  // ---- Crashes ----

  lemma PartlyFlushed(c: Config, s: State, rec: Rec)
    requires Shape(c, s) && s.flushing.Some? && FlushOk(s) && RecOk(c, |s.segs|, rec)
    requires var f := s.blocks[s.flushing.value]; InBlock(f, rec) && BlockHolds(f, rec) && End(rec) <= f.segOff + s.flushed
    ensures OnDisk(s.segs, rec)
  {
    var f := s.blocks[s.flushing.value];
    var at := rec.loc.offset - f.segOff;
    assert f.buf[..s.flushed][at..at + |rec.image|] == f.buf[at..at + |rec.image|];
    HoldsPart(s.segs[f.segId].file, f.segOff, f.buf[..s.flushed], at, rec.image);
  }

  /** What is not wholly on disk lies beyond the end of its file. */
  lemma OnDiskOrBeyond(c: Config, s: State, k: nat)
    requires Inv(c, s) && InOrder(s) && k < |s.log|
    ensures var rec := s.log[k];
            rec.loc.segId < |s.segs| && (OnDisk(s.segs, rec) || End(rec) > |s.segs[rec.loc.segId].file|)
  {
    var rec := s.log[k];
    assert RecOk(c, |s.segs|, rec);
    if !OnDisk(s.segs, rec) {
      var b: nat :| b < |s.blocks| && DirtyIn(s.queue, s.flushing, Writing(s), b) && InBlock(s.blocks[b], rec);
      assert b in Chain(s);
      var i :| 0 <= i < |Chain(s)| && Chain(s)[i] == b;
      assert BlockHolds(s.blocks[b], rec);
      if s.flushing == Some(b) && End(rec) <= s.blocks[b].segOff + s.flushed {
        PartlyFlushed(c, s, rec);
      }
    }
  }

  /** If the process dies in any state of a run, even between two partial writes of a block,
      a read of any location ever returned finds its entry or nothing, never other bytes. */
  lemma CrashSafety(c: Config, trace: seq<State>, evs: seq<Event>, i: nat, k: nat, bufLen: nat)
    requires IsPlainRun(c, trace, evs) && i < |trace| && k < |trace[i].log|
    ensures var s, rec := trace[i], trace[i].log[k];
            && rec.loc.segId < |s.segs|
            && (End(rec) > |s.segs[rec.loc.segId].file| || DiskHas(s.segs, rec))
            && ReadDisk(s.segs[rec.loc.segId].file, rec.loc, bufLen)
               == if OnDisk(s.segs, rec) then ExpectedOnDisk(rec.entry.blob, bufLen) else ReadResult(NotFound, [])
  {
    PlainRunKeeps(c, trace, evs, i);
    var s, rec := trace[i], trace[i].log[k];
    OnDiskOrBeyond(c, s, k);
    assert IsImageOf(rec.image, rec.entry) && RecOk(c, |s.segs|, rec);
    if OnDisk(s.segs, rec) {
      ImageServes(rec.image, rec);
      ServedFromDisk(s.segs, rec, rec.image, bufLen);
    }
  }

  /** The live counter of every segment is its entries minus those marked dead. */
  lemma LiveCounts(c: Config, trace: seq<State>, evs: seq<Event>, i: nat, k: nat)
    requires IsPlainRun(c, trace, evs) && i < |trace| && k < |trace[i].segs|
    ensures var s := trace[i];
            s.segs[k].entryCount == |SegRecs(s.log, k)| && s.segs[k].liveCount == LiveIn(s.log, s.dead, k)
  {
    PlainRunKeeps(c, trace, evs, i);
  }

  /** A store opened on an empty directory starts a plain run. */
  lemma EmptyOpenIsPlain(c: Config)
    requires GoodConfig(c)
    ensures Good(c, Open(c, [], [], {})) && Plain(Open(c, [], [], {}))
  {
    OpenKeeps(c, [], [], {});
    EmptyOpenInOrder(c);
    var s := Open(c, [], [], {});
    assert |s.segs| == 1 && s.segs[0] == SegmentFile(SEGMENT_HEADER_SIZE, 0, 0, c.header);
  }

  lemma EmptyOpenInOrder(c: Config)
    requires GoodConfig(c)
    ensures InOrder(Open(c, [], [], {}))
  {
    var s := Open(c, [], [], {});
    assert Chain(s) == [c.poolSize - 1];
    forall b | 0 <= b < |s.blocks| ensures s.blocks[b].segId == 0 && s.blocks[b].pos == 0 && s.blocks[b].segOff <= SEGMENT_HEADER_SIZE {
    }
  }
}
