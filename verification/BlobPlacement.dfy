/** Where an accepted entry lands: its segment, its offset, and whether a segment is opened for it. */
module BlobPlacement {
  import opened Common
  import opened Segment
  import opened BlobProtocol
  import opened BlobWriter
  import opened BlobTheorems
  import opened BlobSync
  import BlobRuns

  /** From `s` to `t` the entry has got `offset` in segment `g`, as the last of the log, and a sequence
      number; `created` segments have been opened; and the current segment has handed out the bytes
      of the entry, all others none. */
  predicate LandsAt(s: State, t: State, e: Entry, g: nat, offset: nat, created: nat) {
    && |s.segs| >= 1 && |t.segs| == |s.segs| + created && created <= 1
    && |t.log| == |s.log| + 1 && t.log[..|s.log|] == s.log && t.sequence == s.sequence + 1
    && t.log[|s.log|].entry == e && t.log[|s.log|].loc.segId == g && t.log[|s.log|].loc.offset == offset
    && t.segs[|t.segs| - 1].writeOffset == (if created == 1 then 4096 else s.segs[|s.segs| - 1].writeOffset) + EntryDiskSize(|e.blob|)
    && forall k :: 0 <= k < |t.segs| - 1 ==> t.segs[k].writeOffset == s.segs[k].writeOffset
  }

  /** Behind what the current segment has handed out, if `need` more bytes fit there; otherwise
      behind the header of a new segment. */
  predicate LandsBehind(c: Config, s: State, t: State, e: Entry, need: nat) {
    && |s.segs| >= 1
    && var end := s.segs[|s.segs| - 1].writeOffset;
       if end + need <= c.segmentSize then LandsAt(s, t, e, |s.segs| - 1, end, 0) else LandsAt(s, t, e, |s.segs|, 4096, 1)
  }

  /** Where a write of `e` lands: behind the last entry of the active block if it fits there; else
      where the next block starts, for which a whole block must fit the segment; and an entry that
      fits no block lands where it fits itself. */
  predicate Lands(c: Config, s: State, t: State, e: Entry) {
    && s.active.Some? && s.active.value < |s.blocks|
    && var b := s.blocks[s.active.value];
       if EntryDiskSize(|e.blob|) > c.capacity then LandsBehind(c, s, t, e, EntryDiskSize(|e.blob|))
       else if b.pos + EntryDiskSize(|e.blob|) <= c.capacity then LandsAt(s, t, e, b.segId, b.segOff + b.pos, 0)
       else LandsBehind(c, s, t, e, c.capacity)
  }

  lemma AppendLands(c: Config, s: State, e: Entry)
    requires Shape(c, s) && s.active.Some? && s.blocks[s.active.value].pos + DiskSize(e) <= c.capacity
    ensures var b := s.blocks[s.active.value]; LandsAt(s, Append(c, s, e), e, b.segId, b.segOff + b.pos, 0)
  {
  }

  lemma DirectIntoLands(s: State, u: State, e: Entry, img: Bytes, created: nat)
    requires |s.segs| >= 1 && |img| == EntryDiskSize(|e.blob|) && u.log == s.log && u.sequence == s.sequence && created <= 1 && |u.segs| == |s.segs| + created
    requires forall k :: 0 <= k < |s.segs| ==> u.segs[k] == s.segs[k]
    requires created == 1 ==> u.segs[|s.segs|].writeOffset == 4096
    ensures LandsAt(s, DirectInto(u, e, img), e, |u.segs| - 1, u.segs[|u.segs| - 1].writeOffset, created)
  {
  }

  lemma DirectLands(c: Config, s: State, e: Entry)
    requires |s.segs| >= 1
    ensures LandsBehind(c, s, WriteDirect(c, s, e), e, EntryDiskSize(|e.blob|))
  {
    if NeedsSegment(c, s, DiskSize(e)) {
      DirectIntoLands(s, NewSegment(c, s), e, DirectImage(s, e), 1);
    } else {
      DirectIntoLands(s, s, e, DirectImage(s, e), 0);
    }
  }

  /** The image of an entry carries the sequence number of the moment. */
  lemma AppendSequence(c: Config, s: State, e: Entry)
    requires Shape(c, s) && s.active.Some? && s.blocks[s.active.value].pos + DiskSize(e) <= c.capacity
    requires Storable(|e.blob|) && s.sequence < 0x1_0000_0000_0000_0000
    ensures Field(Append(c, s, e).log[|s.log|].image, 16, 8) == s.sequence
  {
    var b := s.blocks[s.active.value];
    assert BlockShape(c, |s.segs|, b);
    ImageSequence(e, s.sequence, b.buf[b.pos + 54..b.pos + 64]);
  }

  lemma DirectSequence(c: Config, s: State, e: Entry)
    requires |s.segs| >= 1 && Storable(|e.blob|) && s.sequence < 0x1_0000_0000_0000_0000
    ensures Field(WriteDirect(c, s, e).log[|s.log|].image, 16, 8) == s.sequence
  {
    ImageSequence(e, s.sequence, Zeros(RESERVED_SIZE));
  }

  /** Where a block starts that has just been taken: in the current segment, or in a new one. */
  predicate Starts(c: Config, s: State, t: State) {
    && |s.segs| >= 1 && t.active.Some? && t.active.value < |t.blocks| && t.log == s.log && t.sequence == s.sequence
    && var b := t.blocks[t.active.value];
       && b.pos == 0
       && var end := s.segs[|s.segs| - 1].writeOffset;
          if end + c.capacity <= c.segmentSize then t.segs == s.segs && b.segId == |s.segs| - 1 && b.segOff == end
          else |t.segs| == |s.segs| + 1 && t.segs[..|s.segs|] == s.segs && b.segId == |s.segs| && b.segOff == 4096
               && t.segs[|s.segs|].writeOffset == 4096
  }

  lemma RoomStarts(c: Config, s: State)
    requires |s.segs| >= 1
    ensures var r := RoomForBlock(c, s);
            && r == s.(segs := r.segs)
            && if s.segs[|s.segs| - 1].writeOffset + c.capacity <= c.segmentSize then r.segs == s.segs
               else |r.segs| == |s.segs| + 1 && r.segs[..|s.segs|] == s.segs && r.segs[|s.segs|].writeOffset == 4096
  {
  }

  lemma HereStarts(c: Config, r: State)
    requires Shape(c, r) && |r.free| > 0
    ensures var t := TakeHere(c, r);
            && t.active.Some? && t.active.value < |t.blocks| && t.log == r.log && t.segs == r.segs && t.sequence == r.sequence
            && var b := t.blocks[t.active.value];
            b.pos == 0 && b.segId == |r.segs| - 1 && b.segOff == r.segs[|r.segs| - 1].writeOffset
  {
  }

  lemma TakenStart(c: Config, s: State)
    requires Shape(c, s) && |s.free| > 0
    ensures Shape(c, TakeBlock(c, s)) && Starts(c, s, TakeBlock(c, s))
  {
    TakeEmpty(c, s);
    RoomKeepsShape(c, s);
    RoomStarts(c, s);
    HereStarts(c, RoomForBlock(c, s));
  }

  lemma ResumeLands(c: Config, s: State, e: Entry)
    requires Shape(c, s) && |s.free| > 0 && !Oversized(c, e)
    ensures LandsBehind(c, s, ResumeWith(c, s, e), e, c.capacity)
  {
    TakenStart(c, s);
    AppendLands(c, TakeBlock(c, s), e);
  }

  lemma SameStart(c: Config, s: State, u: State, t: State, e: Entry, need: nat)
    requires LandsBehind(c, u, t, e, need) && u.log == s.log && u.sequence == s.sequence && |u.segs| == |s.segs|
    requires forall k :: 0 <= k < |s.segs| ==> u.segs[k].writeOffset == s.segs[k].writeOffset
    ensures LandsBehind(c, s, t, e, need)
  {
  }

  lemma RotationLands(c: Config, s: State, e: Entry)
    requires Shape(c, s) && CanWrite(s, e) && Rotates(c, s, e) && |Park(c, s, e).free| > 0
    ensures LandsBehind(c, s, Write(c, s, e), e, c.capacity)
  {
    ParkEnqueues(c, s, e);
    ResumeLands(c, Park(c, s, e), e);
    SameStart(c, s, Park(c, s, e), Write(c, s, e), e, c.capacity);
  }

  /** Where a write lands that does not have to wait. */
  lemma WriteLands(c: Config, s: State, e: Entry)
    requires Shape(c, s) && CanWrite(s, e) && (Rotates(c, s, e) ==> |s.free| > 0)
    ensures Lands(c, s, Write(c, s, e), e)
  {
    if Oversized(c, e) {
      DirectLands(c, s, e);
    } else if Rotates(c, s, e) {
      ParkEnqueues(c, s, e);
      RotationLands(c, s, e);
    } else {
      AppendLands(c, s, e);
    }
  }

  /** Where a parked write lands when it wakes. */
  lemma WakeLands(c: Config, s: State)
    requires Shape(c, s) && s.waiting.Some? && |s.free| > 0 && !Oversized(c, s.waiting.value)
    ensures LandsBehind(c, s, Wake(c, s), s.waiting.value, c.capacity)
  {
    ResumeLands(c, s, s.waiting.value);
  }

  lemma FlushFrontShape(c: Config, s: State)
    requires CanFlush(c, s)
    ensures Shape(c, FlushFront(c, s)) && |FlushFront(c, s).free| > 0 && FlushFront(c, s).sequence == s.sequence
  {
    if s.blocks[s.queue[0]].pos > 0 {
      StartShape(c, s);
      BlobRuns.PwriteKeepsShape(c, StartFlush(s), AlignUp(s.blocks[s.queue[0]].pos));
    }
  }

  lemma StartShape(c: Config, s: State)
    requires CanFlush(c, s)
    ensures Shape(c, StartFlush(s))
  {
    assert AllIds(|s.blocks|, s.queue[1..]);
  }

  lemma WaitLands(c: Config, s: State, p: State, e: Entry)
    requires Shape(c, p) && CanFlush(c, p) && p.log == s.log && p.segs == s.segs && p.sequence == s.sequence && !Oversized(c, e)
    ensures Shape(c, FlushFront(c, p)) && |FlushFront(c, p).free| > 0
    ensures LandsBehind(c, s, ResumeWith(c, FlushFront(c, p), e), e, c.capacity)
  {
    FlushFrontLeaves(c, p);
    FlushFrontShape(c, p);
    ResumeLands(c, FlushFront(c, p), e);
    SameStart(c, s, FlushFront(c, p), ResumeWith(c, FlushFront(c, p), e), e, c.capacity);
  }

  /** Where a write lands that one caller sees, waiting for the flusher included. */
  lemma SyncLands(c: Config, s: State, e: Entry)
    requires CanSync(c, s, e)
    ensures Lands(c, s, WriteSync(c, s, e), e)
  {
    if Oversized(c, e) {
      DirectLands(c, s, e);
    } else if Rotates(c, s, e) {
      ParkEnqueues(c, s, e);
      var p := Park(c, s, e);
      if |p.free| > 0 {
        ResumeLands(c, p, e);
        SameStart(c, s, p, WriteSync(c, s, e), e, c.capacity);
      } else {
        WaitLands(c, s, p, e);
      }
    } else {
      AppendLands(c, s, e);
    }
  }

  // ---- No segment is left before it is full ----

  /** In every segment from `first` on that has been left, less than a block is left. */
  predicate FilledFrom(c: Config, segs: seq<SegmentFile>, first: nat) {
    forall k :: first <= k < |segs| - 1 ==> segs[k].writeOffset + c.capacity > c.segmentSize
  }

  lemma LandingFills(c: Config, s: State, t: State, e: Entry, first: nat)
    requires FilledFrom(c, s.segs, first)
    requires LandsBehind(c, s, t, e, c.capacity) || exists g, offset :: LandsAt(s, t, e, g, offset, 0)
    ensures FilledFrom(c, t.segs, first)
  {
  }

  predicate SameOffsets(s: State, t: State) {
    |t.segs| == |s.segs| && forall k :: 0 <= k < |s.segs| ==> t.segs[k].writeOffset == s.segs[k].writeOffset
  }

  lemma SameFilled(c: Config, s: State, t: State, first: nat)
    requires FilledFrom(c, s.segs, first) && SameOffsets(s, t)
    ensures FilledFrom(c, t.segs, first)
  {
  }

  lemma WriteFills(c: Config, s: State, e: Entry, first: nat)
    requires Shape(c, s) && CanWrite(s, e) && !Oversized(c, e) && FilledFrom(c, s.segs, first)
    ensures FilledFrom(c, Write(c, s, e).segs, first)
  {
    if Rotates(c, s, e) {
      ParkEnqueues(c, s, e);
      if |s.free| > 0 {
        RotationLands(c, s, e);
        LandingFills(c, s, Write(c, s, e), e, first);
      }
    } else {
      AppendLands(c, s, e);
      LandingFills(c, s, Write(c, s, e), e, first);
    }
  }

  lemma WakeFills(c: Config, s: State, first: nat)
    requires Enabled(c, s, DoResume) && FilledFrom(c, s.segs, first)
    ensures FilledFrom(c, Wake(c, s).segs, first)
  {
    if |s.free| > 0 {
      WakeLands(c, s);
      LandingFills(c, s, Wake(c, s), s.waiting.value, first);
    }
  }

  lemma OtherOffsets(c: Config, s: State, ev: Event)
    requires Enabled(c, s, ev) && !ev.DoWrite? && !ev.DoResume?
    ensures SameOffsets(s, Apply(c, s, ev))
  {
    var t := Apply(c, s, ev);
    if !ev.DoMarkDead? && !ev.DoPwrite? && !ev.DoDrainWrite? && !ev.DoRewriteHeaders? {
      assert t.segs == s.segs;
    }
  }

  lemma StepFills(c: Config, s: State, ev: Event, first: nat)
    requires Enabled(c, s, ev) && (ev.DoWrite? ==> !Oversized(c, ev.entry)) && FilledFrom(c, s.segs, first)
    ensures FilledFrom(c, Apply(c, s, ev).segs, first)
  {
    match ev
    case DoWrite(e) => if s.active.Some? { WriteFills(c, s, e, first); }
    case DoResume => WakeFills(c, s, first);
    case _ =>
      OtherOffsets(c, s, ev);
      SameFilled(c, s, Apply(c, s, ev), first);
  }

  lemma DidFills(c: Config, s: State, ev: Event, t: State, first: nat)
    requires Did(c, s, ev, t) && (ev.DoWrite? ==> !Oversized(c, ev.entry)) && FilledFrom(c, s.segs, first)
    ensures FilledFrom(c, t.segs, first)
  {
    StepFills(c, s, ev, first);
  }

  /** Over any history of entries that fit a block: no segment is left while a whole block fits it. */
  lemma {:induction false} HistoryFills(c: Config, trace: seq<State>, evs: seq<Event>, i: nat, first: nat)
    requires IsHistory(c, trace, evs) && i < |trace| && FilledFrom(c, trace[0].segs, first)
    requires forall j :: 0 <= j < |evs| && evs[j].DoWrite? ==> !Oversized(c, evs[j].entry)
    ensures FilledFrom(c, trace[i].segs, first)
  {
    if i > 0 {
      var j := i - 1;
      HistoryFills(c, trace, evs, j, first);
      assert Did(c, trace[j], evs[j], trace[j + 1]);
      DidFills(c, trace[j], evs[j], trace[j + 1], first);
    }
  }

  /** A process that opens over `n` segments starts with a new one, and has left none. */
  lemma OpenFilled(c: Config, segs: seq<SegmentFile>, log: seq<Rec>, dead: set<nat>)
    requires GoodConfig(c)
    ensures FilledFrom(c, Open(c, segs, log, dead).segs, |segs|)
  {
  }

  /** A process that opens starts in a new segment behind the ones it found, which are as they were,
      with its last block active there and empty, all others free, and nothing queued. */
  lemma OpenStarts(c: Config, segs: seq<SegmentFile>, log: seq<Rec>, dead: set<nat>)
    requires GoodConfig(c)
    ensures var s := Open(c, segs, log, dead);
            && |s.segs| == |segs| + 1 && s.segs[..|segs|] == segs && s.segs[|segs|] == SegmentFile(4096, 0, 0, c.header)
            && s.active == Some(c.poolSize - 1) && |s.blocks| == c.poolSize
            && s.blocks[c.poolSize - 1].segId == |segs| && s.blocks[c.poolSize - 1].segOff == 4096
            && (forall b :: 0 <= b < c.poolSize ==> s.blocks[b].pos == 0)
            && |s.free| == c.poolSize - 1 && (forall b :: 0 <= b < c.poolSize - 1 ==> s.free[b] == b) && s.queue == []
            && s.log == log && s.dead == dead && s.running && !s.closing
  {
  }
}
