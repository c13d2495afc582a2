/** Several writers: a second one that comes while the first waits for a block in a dry pool. */
module BlobWriters {
  import opened Common
  import opened Segment
  import opened BlobProtocol
  import opened BlobInvariant
  import opened BlobWriter
  import opened BlobTheorems

  lemma RotationWaits(c: Config, s: State, e: Entry)
    requires Shape(c, s) && CanWrite(s, e) && !Oversized(c, e) && Rotates(c, s, e)
    ensures Write(c, s, e).waiting.Some? <==> |s.free| == 0 && s.running
    ensures Write(c, s, e).active.None? <==> |s.free| == 0 && !s.running
  {
    ParkEnqueues(c, s, e);
    if |s.free| > 0 { ResumeHasBlock(c, Park(c, s, e), e); }
  }

  /** A writer is left waiting exactly if it has to rotate, the pool is dry, and the store is not
      stopping; in a store that is stopping it fails instead. */
  lemma WaitsExactly(c: Config, s: State, e: Entry)
    requires Shape(c, s) && CanWrite(s, e)
    ensures Write(c, s, e).waiting.Some? <==> Rotates(c, s, e) && |s.free| == 0 && s.running
    ensures Write(c, s, e).active.None? <==> Rotates(c, s, e) && |s.free| == 0 && !s.running
  {
    if Oversized(c, e) {
      assert Write(c, s, e) == WriteDirect(c, s, e);
    } else if Rotates(c, s, e) {
      RotationWaits(c, s, e);
    } else {
      assert Write(c, s, e) == Append(c, s, e);
    }
  }

  lemma ResumeHasBlock(c: Config, s: State, e: Entry)
    requires Shape(c, s) && |s.free| > 0 && !Oversized(c, e)
    ensures ResumeWith(c, s, e).waiting.None? && ResumeWith(c, s, e).active.Some?
  {
    TakeEmpty(c, s);
  }

  /** What a second writer does to a state in which the first one waits: the active pointer still
      names the block the first one queued. */
  function SecondStep(c: Config, s: State, e: Entry): State
    requires Shape(c, s) && s.active.Some?
  {
    if Oversized(c, e) then WriteDirect(c, s, e)
    else if Rotates(c, s, e) then Park(c, s, e)
    else Append(c, s, e)
  }

  lemma SecondRotation(c: Config, s: State, e: Entry)
    requires Shape(c, s) && Conserved(s) && s.waiting.Some? && s.active.Some? && s.blocks[s.active.value].pos > 0
    ensures !Conserved(Park(c, s, e))
  {
    var a, q := s.active.value, Park(c, s, e);
    assert multiset(q.queue)[a] == multiset(s.queue)[a] + 1;
    assert Owned(s.queue, s.flushing, Writing(s), s.free)[a] == Pool(|s.blocks|)[a] == 1;
    assert Owned(q.queue, q.flushing, Writing(q), q.free)[a] == 2;
  }

  /** The flusher has read the size of the block already, and will not write what comes after. */
  lemma FlushedTooEarly(c: Config, s: State, e: Entry, img: Bytes)
    requires Shape(c, s) && s.active.Some? && s.flushing == s.active && FlushOk(s) && 0 < |img|
    requires s.blocks[s.active.value].pos + |img| <= c.capacity && Aligned(s.blocks[s.active.value].pos)
    ensures !FlushOk(AppendImage(c, s, e, img))
  {
  }

  /** The record is neither on disk nor in a block that will be flushed. */
  predicate Abandoned(s: State, rec: Rec) {
    !OnDisk(s.segs, rec) && !Pending(s, rec)
  }

  lemma AppendAbandoned(c: Config, s: State, e: Entry, img: Bytes)
    requires Shape(c, s) && s.active.Some? && s.waiting.Some? && Frontier(c, s.blocks, s.segs, s.log, s.active.value) && !Overtaken(s)
    requires 0 < |img| && s.blocks[s.active.value].pos + |img| <= c.capacity
    requires !DirtyIn(s.queue, s.flushing, Writing(s), s.active.value)
    requires var b := s.blocks[s.active.value]; |s.segs[b.segId].file| <= BlockEnd(b)
    ensures var t := AppendImage(c, s, e, img); Abandoned(t, t.log[|s.log|])
  {
    var t := AppendImage(c, s, e, img);
    var rec := t.log[|s.log|];
    assert BlockShape(c, |s.segs|, s.blocks[s.active.value]);
    forall b: nat | b < |t.blocks| && DirtyIn(t.queue, t.flushing, Writing(t), b) ensures !InBlock(t.blocks[b], rec) {
      assert b != s.active.value && t.blocks[b] == s.blocks[b];
    }
  }

  // ---- What lies behind the active block ----

  /** The current file is no longer than what its segment has handed out. */
  predicate CurrentWithin(segs: seq<SegmentFile>) {
    |segs| >= 1 && |segs[|segs| - 1].file| <= segs[|segs| - 1].writeOffset
  }

  /** Nothing lies behind the active block in its file, unless an oversized entry overtook it. */
  predicate ActiveWithin(blocks: seq<Block>, segs: seq<SegmentFile>, active: Option<nat>) {
    active.Some? ==>
      && active.value < |blocks| && blocks[active.value].segId < |segs|
      && var b := blocks[active.value];
         |segs[b.segId].file| <= BlockEnd(b) || BlockEnd(b) < segs[b.segId].writeOffset
  }

  predicate Within(s: State) {
    CurrentWithin(s.segs) && ActiveWithin(s.blocks, s.segs, s.active)
  }

  lemma DirectIntoWithin(c: Config, s: State, e: Entry, img: Bytes)
    requires Shape(c, s) && Within(s) && 0 < |img|
    ensures Within(DirectInto(s, e, img))
  {
  }

  lemma DirectWithin(c: Config, s: State, e: Entry)
    requires Shape(c, s) && Within(s)
    ensures Within(WriteDirect(c, s, e))
  {
    if NeedsSegment(c, s, DiskSize(e)) {
      var n := NewSegment(c, s);
      forall b | 0 <= b < |n.blocks| ensures BlockShape(c, |n.segs|, n.blocks[b]) {
        assert BlockShape(c, |s.segs|, s.blocks[b]);
      }
      DirectIntoWithin(c, n, e, DirectImage(s, e));
    } else {
      DirectIntoWithin(c, s, e, DirectImage(s, e));
    }
  }

  lemma AppendWithin(c: Config, s: State, e: Entry, img: Bytes)
    requires Fits(c, s, img) && Within(s) && !Overtaken(s)
    ensures Within(AppendImage(c, s, e, img))
  {
    assert BlockShape(c, |s.segs|, s.blocks[s.active.value]);
  }

  lemma RoomWithin(c: Config, s: State)
    requires Shape(c, s) && CurrentWithin(s.segs)
    ensures CurrentWithin(RoomForBlock(c, s).segs)
  {
  }

  lemma TakeWithin(c: Config, s: State)
    requires Shape(c, s) && |s.free| > 0 && CurrentWithin(s.segs)
    ensures Within(TakeBlock(c, s)) && Shape(c, TakeBlock(c, s)) && TakeBlock(c, s).active.Some? && !Overtaken(TakeBlock(c, s))
  {
    RoomWithin(c, s);
    TakeEmpty(c, s);
  }

  lemma ResumeWithin(c: Config, s: State, e: Entry)
    requires Shape(c, s) && |s.free| > 0 && !Oversized(c, e) && CurrentWithin(s.segs)
    ensures Within(ResumeWith(c, s, e))
  {
    TakeWithin(c, s);
    TakeEmpty(c, s);
    var t := TakeBlock(c, s);
    AppendWithin(c, t, e, BlockImage(t.blocks[t.active.value], t.sequence, e));
  }

  lemma WriteWithin(c: Config, s: State, e: Entry)
    requires Shape(c, s) && CanWrite(s, e) && SafeWrite(c, s, e) && Within(s)
    ensures Within(Write(c, s, e))
  {
    if Oversized(c, e) {
      DirectWithin(c, s, e);
    } else if Rotates(c, s, e) {
      ParkEnqueues(c, s, e);
      var p := Park(c, s, e);
      if |p.free| > 0 { ResumeWithin(c, p, e); }
    } else {
      AppendWithin(c, s, e, BlockImage(s.blocks[s.active.value], s.sequence, e));
    }
  }

  /** A flush reaches no further than its own block, which ends before the active one does. */
  lemma PwriteWithin(c: Config, s: State, n: nat)
    requires Good(c, s) && Enabled(c, s, DoPwrite(n)) && Within(s)
    ensures Within(Pwrite(c, s, n))
  {
    FlushIsExact(s);
    var b := s.blocks[s.flushing.value];
    assert BlockShape(c, |s.segs|, b);
    var t := Pwrite(c, s, n);
    assert |t.segs[b.segId].file| <= |s.segs[b.segId].file| || |t.segs[b.segId].file| <= BlockEnd(b);
    assert forall k :: 0 <= k < |s.segs| ==> t.segs[k].writeOffset == s.segs[k].writeOffset;
  }

  lemma HeadersWithin(c: Config, s: State, header: Bytes)
    requires |header| == SEGMENT_HEADER_SIZE && PastHeader(s.segs) && FrontierOk(c, s) && Within(s)
    ensures Within(RewriteHeaders(s, header))
  {
    var t := RewriteHeaders(s, header);
    assert forall k :: 0 <= k < |s.segs| ==> t.segs[k].writeOffset == s.segs[k].writeOffset;
    assert forall k :: 0 <= k < |s.segs| ==> |t.segs[k].file| <= |s.segs[k].file| || |t.segs[k].file| <= SEGMENT_HEADER_SIZE;
  }

  lemma HeadersGoodWithin(c: Config, s: State, header: Bytes)
    requires Good(c, s) && |header| == SEGMENT_HEADER_SIZE && Within(s)
    ensures Within(RewriteHeaders(s, header))
  {
    HeadersWithin(c, s, header);
  }

  lemma MarkWithin(s: State, i: nat)
    requires i < |s.log| && s.log[i].loc.segId < |s.segs| && Within(s)
    ensures Within(MarkDead(s, i))
  {
  }

  lemma CloseWithin(c: Config, s: State)
    requires Shape(c, s) && Within(s)
    ensures Within(CloseEnqueue(c, s))
  {
  }

  lemma OtherWithin(c: Config, s: State, ev: Event)
    requires Enabled(c, s, ev) && Within(s) && !ev.DoWrite? && !ev.DoResume? && !ev.DoPwrite? && !ev.DoRewriteHeaders? && !ev.DoDrainWrite?
    ensures Within(Apply(c, s, ev))
  {
    if ev.DoMarkDead? {
      MarkWithin(s, ev.index);
    } else if ev.DoCloseEnqueue? {
      CloseWithin(c, s);
    } else {
      var t := Apply(c, s, ev);
      assert t.segs == s.segs && t.blocks == s.blocks && t.active == s.active;
    }
  }

  lemma WakeWithin(c: Config, s: State)
    requires Enabled(c, s, DoResume) && Within(s)
    ensures Within(Wake(c, s))
  {
    if |s.free| > 0 { ResumeWithin(c, s, s.waiting.value); }
  }

  lemma StepWithin(c: Config, s: State, ev: Event)
    requires Good(c, s) && Enabled(c, s, ev) && SafeEvent(c, s, ev) && Within(s)
    ensures Within(Apply(c, s, ev))
  {
    match ev
    case DoWrite(e) => if s.active.Some? { WriteWithin(c, s, e); }
    case DoResume => WakeWithin(c, s);
    case DoPwrite(n) => PwriteWithin(c, s, n);
    case DoRewriteHeaders(h) => HeadersGoodWithin(c, s, h);
    case _ => OtherWithin(c, s, ev);
  }

  lemma SteppedWithin(c: Config, s: State, ev: Event, t: State)
    requires Good(c, s) && Stepped(c, s, ev, t) && Within(s)
    ensures Within(t)
  {
    StepWithin(c, s, ev);
  }

  /** In every state of a run of safe steps nothing lies behind the active block in its file, unless
      an oversized entry overtook it. */
  lemma {:induction false} RunWithin(c: Config, trace: seq<State>, evs: seq<Event>, i: nat)
    requires IsRun(c, trace, evs) && i < |trace| && Within(trace[0])
    ensures Within(trace[i])
  {
    if i > 0 {
      var j := i - 1;
      RunWithin(c, trace, evs, j);
      RunKeeps(c, trace, evs, j);
      SteppedWithin(c, trace[j], evs[j], trace[j + 1]);
    }
  }

  lemma OpenWithin(c: Config, segs: seq<SegmentFile>, log: seq<Rec>, dead: set<nat>)
    requires GoodConfig(c)
    ensures Within(Open(c, segs, log, dead))
  {
  }

  // ---- A second writer ----

  lemma ParkedFacts(c: Config, s: State)
    requires Good(c, s) && s.waiting.Some? && s.active.Some?
    ensures var a := s.active.value; var b := s.blocks[a];
            && b.pos > 0 && Aligned(b.pos) && Frontier(c, s.blocks, s.segs, s.log, a)
            && (a in s.queue || s.flushing == Some(a) || a in s.free)
            && (a in s.free ==> a !in s.queue && !DirtyIn(s.queue, s.flushing, Writing(s), a))
  {
    Separate(s);
    var a := s.active.value;
    assert BlockShape(c, |s.segs|, s.blocks[a]);
    assert Owned(s.queue, s.flushing, Writing(s), s.free)[a] == Pool(|s.blocks|)[a] == 1;
  }

  lemma SecondAppendKeeps(c: Config, s: State, e: Entry)
    requires Good(c, s) && s.waiting.Some? && s.active.Some? && !Overtaken(s) && Storable(|e.blob|)
    requires !Oversized(c, e) && !Rotates(c, s, e) && s.active.value in s.queue
    ensures Good(c, Append(c, s, e))
  {
    ParkedFacts(c, s);
    var img := BlockImage(s.blocks[s.active.value], s.sequence, e);
    AppendKeeps(c, s, e, img);
    AppendAligned(c, s, e, img);
  }

  lemma SecondAppendCollides(c: Config, s: State, e: Entry)
    requires Good(c, s) && s.waiting.Some? && s.active.Some? && Overtaken(s) && !Oversized(c, e) && !Rotates(c, s, e)
    ensures !Disjoint(Append(c, s, e).log)
  {
    var img := BlockImage(s.blocks[s.active.value], s.sequence, e);
    OvertakenCollides(c, s, e, img);
    var t := AppendImage(c, s, e, img);
    var i :| 0 <= i < |s.log| && !Apart(s.log[i], t.log[|s.log|]);
    assert t.log[i] == s.log[i];
  }

  lemma SecondAppendBreaks(c: Config, s: State, e: Entry)
    requires Good(c, s) && Within(s) && s.waiting.Some? && s.active.Some? && !Overtaken(s)
    requires !Oversized(c, e) && !Rotates(c, s, e) && s.active.value !in s.queue
    ensures !Good(c, Append(c, s, e))
    ensures var t := Append(c, s, e); s.active.value in s.free ==> Abandoned(t, t.log[|s.log|])
  {
    ParkedFacts(c, s);
    var img := BlockImage(s.blocks[s.active.value], s.sequence, e);
    if s.active.value in s.free {
      AppendAbandoned(c, s, e, img);
    } else {
      FlushedTooEarly(c, s, e, img);
    }
  }

  lemma SecondDirectKeeps(c: Config, s: State, e: Entry)
    requires Good(c, s) && Storable(|e.blob|)
    ensures Good(c, WriteDirect(c, s, e))
  {
    WriteDirectKeeps(c, s, e);
    DirectAligned(c, s, e);
  }

  /** While one writer waits, a second write of any entry keeps the invariant (every block in one
      place, every location served, nothing the flusher has missed) if and only if the entry is
      oversized, or it fits the waiting writer's block, that block is still queued, and no
      oversized entry has overtaken it. */
  lemma SecondWriterSafeExactly(c: Config, s: State, e: Entry)
    requires Good(c, s) && Within(s) && s.waiting.Some? && s.active.Some? && Storable(|e.blob|)
    ensures Good(c, SecondStep(c, s, e)) <==>
              Oversized(c, e) || (!Rotates(c, s, e) && s.active.value in s.queue && !Overtaken(s))
  {
    if Oversized(c, e) {
      SecondDirectKeeps(c, s, e);
    } else if Rotates(c, s, e) {
      ParkedFacts(c, s);
      SecondRotation(c, s, e);
    } else if Overtaken(s) {
      SecondAppendCollides(c, s, e);
    } else if s.active.value in s.queue {
      SecondAppendKeeps(c, s, e);
    } else {
      SecondAppendBreaks(c, s, e);
    }
  }

  /** A second write into the waiting writer's block after the flusher has returned it: the write
      is accepted, but its record is not on disk, no block that will be flushed holds it, and
      that is still so when the waiting writer has taken its new block. */
  lemma SecondWriteLost(c: Config, s: State, e: Entry)
    requires Good(c, s) && Within(s) && s.waiting.Some? && s.active.Some? && s.active.value in s.free
    requires !Oversized(c, e) && !Rotates(c, s, e) && !Overtaken(s)
    ensures var t := SecondStep(c, s, e);
            && |t.log| == |s.log| + 1 && t.log[|s.log|].entry == e && Abandoned(t, t.log[|s.log|])
            && Shape(c, t) && |t.free| > 0 && t.waiting == s.waiting && !Oversized(c, s.waiting.value)
            && Abandoned(ResumeWith(c, t, s.waiting.value), t.log[|s.log|])
  {
    ParkedFacts(c, s);
    SecondAppendBreaks(c, s, e);
    SecondAppendLeaves(c, s, e);
    ResumeAbandons(c, Append(c, s, e), s.waiting.value, Append(c, s, e).log[|s.log|]);
  }

  // ---- Two writers waiting ----

  /** The current file and all blocks in the current segment end where it does. */
  predicate EndsBefore(s: State) {
    && CurrentWithin(s.segs)
    && forall b :: 0 <= b < |s.blocks| && s.blocks[b].segId == Cur(s) ==> BlockEnd(s.blocks[b]) <= s.segs[Cur(s)].writeOffset
  }

  /** The blocks other than the one just taken, and the current file, end before the place where
      that one starts. */
  predicate Taken(s: State, t: State) {
    && |s.free| > 0 && |t.segs| >= 1 && |t.blocks| == |s.blocks| && t.active == Some(s.free[|s.free| - 1]) && t.active.value < |t.blocks|
    && t.free == s.free[..|s.free| - 1] && t.queue == s.queue && t.flushing == s.flushing && t.log == s.log
    && var a := t.blocks[t.active.value];
       && a.pos == 0 && a.segId == Cur(t) && a.segOff == t.segs[Cur(t)].writeOffset && |t.segs[Cur(t)].file| <= a.segOff
       && forall b: nat :: b < |s.blocks| && b != t.active.value ==>
            t.blocks[b] == s.blocks[b] && (t.blocks[b].segId == a.segId ==> BlockEnd(t.blocks[b]) <= a.segOff)
  }

  lemma HereTaken(c: Config, s: State)
    requires Shape(c, s) && |s.free| > 0 && EndsBefore(s)
    ensures Taken(s, TakeHere(c, s))
  {
  }

  lemma TakenFacts(c: Config, s: State)
    requires Shape(c, s) && CurrentWithin(s.segs) && CurrentEnds(s.blocks, s.segs, s.log) && |s.free| > 0
    ensures Shape(c, TakeBlock(c, s)) && Taken(s, TakeBlock(c, s))
  {
    RoomWithin(c, s);
    RoomAtEnd(c, s);
    RoomKeepsShape(c, s);
    var r := RoomForBlock(c, s);
    HereTaken(c, r);
    TakeHereKeepsShape(c, r);
    assert r == s.(segs := r.segs);
  }

  lemma WokenAt(c: Config, s: State, e: Entry)
    requires Shape(c, s) && CurrentWithin(s.segs) && CurrentEnds(s.blocks, s.segs, s.log) && |s.free| > 0 && !Oversized(c, e)
    ensures var t := ResumeWith(c, s, e);
            && Shape(c, t) && t.active == Some(s.free[|s.free| - 1]) && t.free == s.free[..|s.free| - 1] && t.queue == s.queue && t.flushing == s.flushing
            && |t.log| == |s.log| + 1 && t.log[|s.log|].entry == e && Behind(t, t.log[|s.log|])
            && !OnDisk(t.segs, t.log[|s.log|])
            && forall b: nat :: b < |s.blocks| && b != t.active.value ==> t.blocks[b] == s.blocks[b] && !InBlock(t.blocks[b], t.log[|s.log|])
  {
    TakenFacts(c, s);
    var u := TakeBlock(c, s);
    AppendShape(c, u, e, BlockImage(u.blocks[u.active.value], u.sequence, e));
  }

  lemma WokenFacts(c: Config, s: State)
    requires Inv(c, s) && CurrentWithin(s.segs) && s.waiting.Some? && |s.free| > 0
    ensures var e := s.waiting.value;
            && !Oversized(c, e)
            && var t := ResumeWith(c, s, e);
            && Shape(c, t) && t.active == Some(s.free[|s.free| - 1]) && t.free == s.free[..|s.free| - 1] && t.queue == s.queue && t.flushing == s.flushing
            && |t.log| == |s.log| + 1 && t.log[|s.log|].entry == e && Behind(t, t.log[|s.log|])
            && !OnDisk(t.segs, t.log[|s.log|])
            && forall b: nat :: b < |s.blocks| && b != t.active.value ==> t.blocks[b] == s.blocks[b] && !InBlock(t.blocks[b], t.log[|s.log|])
  {
    WokenAt(c, s, s.waiting.value);
  }

  lemma RoomAtEnd(c: Config, s: State)
    requires Shape(c, s) && CurrentEnds(s.blocks, s.segs, s.log)
    ensures var r := RoomForBlock(c, s);
            forall b :: 0 <= b < |s.blocks| && s.blocks[b].segId == Cur(r) ==> BlockEnd(s.blocks[b]) <= r.segs[Cur(r)].writeOffset
  {
    forall b | 0 <= b < |s.blocks| ensures s.blocks[b].segId < |s.segs| {
      assert BlockShape(c, |s.segs|, s.blocks[b]);
    }
  }

  /** Two writers wait, and both wake: the second takes a block of its own and makes it the active
      one, so that the first one's block, with an entry already accepted, is in no place at all,
      and its record neither on disk nor in any block that will be flushed. */
  lemma SecondWakeDrops(c: Config, s: State, e2: Entry)
    requires Inv(c, s) && CurrentWithin(s.segs) && s.waiting.Some? && |s.free| >= 2 && !Oversized(c, e2)
    ensures !Oversized(c, s.waiting.value)
    ensures var t := ResumeWith(c, s, s.waiting.value).(waiting := Some(e2));
            && Shape(c, t) && |t.free| > 0 && |t.log| == |s.log| + 1 && t.log[|s.log|].entry == s.waiting.value
            && var u := ResumeWith(c, t, e2);
            Abandoned(u, t.log[|s.log|]) && !Conserved(u)
  {
    WokenFacts(c, s);
    ResumeKeeps(c, s, s.waiting.value);
    var r := ResumeWith(c, s, s.waiting.value);
    var t := r.(waiting := Some(e2));
    var rec := t.log[|s.log|];
    Separate(s);
    forall b: nat | b < |t.blocks| && DirtyIn(t.queue, t.flushing, Writing(t), b) ensures !InBlock(t.blocks[b], rec) {
      assert b != r.active.value;
    }
    ResumeAbandons(c, t, e2, rec);
    FirstDropped(c, r, e2);
  }

  lemma FirstDropped(c: Config, r: State, e2: Entry)
    requires Shape(c, r) && Conserved(r) && r.active.Some? && r.waiting.None? && |r.free| > 0 && !Oversized(c, e2)
    ensures !Conserved(ResumeWith(c, r.(waiting := Some(e2)), e2))
  {
    var a, t := r.active.value, r.(waiting := Some(e2));
    assert Shape(c, t);
    WakePlaces(c, t, e2);
    var u := ResumeWith(c, t, e2);
    assert Owned(r.queue, r.flushing, Writing(r), r.free)[a] == Pool(|r.blocks|)[a] == 1;
    assert r.free[|r.free| - 1] in r.free;
    assert a !in r.queue && r.flushing != Some(a) && a !in r.free;
    assert a !in u.free;
    assert Owned(u.queue, u.flushing, Writing(u), u.free)[a] == 0;
  }

  lemma WakePlaces(c: Config, t: State, e: Entry)
    requires Shape(c, t) && t.waiting.Some? && |t.free| > 0 && !Oversized(c, e)
    ensures var u := ResumeWith(c, t, e);
            u.active == Some(t.free[|t.free| - 1]) && u.waiting.None? && u.free == t.free[..|t.free| - 1] && u.queue == t.queue && u.flushing == t.flushing && |u.blocks| == |t.blocks|
  {
    RoomKeepsShape(c, t);
    TakeEmpty(c, t);
  }

  /** The current segment ends behind the record, if it lies there. */
  predicate Behind(s: State, rec: Rec) {
    |s.segs| >= 1 && 0 < rec.loc.diskSize && rec.loc.segId < |s.segs| && (rec.loc.segId == Cur(s) ==> End(rec) <= s.segs[Cur(s)].writeOffset)
  }

  lemma SecondAppendLeaves(c: Config, s: State, e: Entry)
    requires Inv(c, s) && s.active.Some? && !Oversized(c, e) && !Rotates(c, s, e)
    ensures var t := Append(c, s, e);
            Shape(c, t) && |t.log| == |s.log| + 1 && t.log[|s.log|].entry == e && t.waiting == s.waiting && t.free == s.free && Behind(t, t.log[|s.log|])
  {
    var t := Append(c, s, e);
    assert BlockShape(c, |s.segs|, s.blocks[s.active.value]);
    forall b | 0 <= b < |t.blocks| ensures BlockShape(c, |t.segs|, t.blocks[b]) {
      assert BlockShape(c, |s.segs|, s.blocks[b]);
    }
  }

  lemma RoomAbandons(c: Config, t: State, rec: Rec)
    requires Shape(c, t) && Abandoned(t, rec) && Behind(t, rec)
    ensures var r := RoomForBlock(c, t); Abandoned(r, rec) && Behind(r, rec)
  {
    var r := RoomForBlock(c, t);
    forall b: nat | b < |r.blocks| && DirtyIn(r.queue, r.flushing, Writing(r), b) ensures !InBlock(r.blocks[b], rec) {
      assert DirtyIn(t.queue, t.flushing, Writing(t), b);
    }
  }

  lemma TakeAbandons(c: Config, t: State, rec: Rec)
    requires Shape(c, t) && t.waiting.Some? && |t.free| > 0 && Abandoned(t, rec) && Behind(t, rec)
    ensures var u := TakeHere(c, t);
            Abandoned(u, rec) && (u.blocks[u.active.value].segId == rec.loc.segId ==> End(rec) <= u.blocks[u.active.value].segOff)
  {
    var u := TakeHere(c, t);
    forall b: nat | b < |u.blocks| && DirtyIn(u.queue, u.flushing, Writing(u), b) ensures !InBlock(u.blocks[b], rec) {
      if b != u.active.value {
        assert DirtyIn(t.queue, t.flushing, Writing(t), b);
      }
    }
  }

  lemma AppendAbandons(c: Config, t: State, e: Entry, img: Bytes, rec: Rec)
    requires Fits(c, t, img) && t.waiting.None? && Abandoned(t, rec) && 0 < rec.loc.diskSize
    requires t.blocks[t.active.value].segId == rec.loc.segId ==> End(rec) <= t.blocks[t.active.value].segOff
    ensures Abandoned(AppendImage(c, t, e, img), rec)
  {
    var u := AppendImage(c, t, e, img);
    forall b: nat | b < |u.blocks| && DirtyIn(u.queue, u.flushing, Writing(u), b) ensures !InBlock(u.blocks[b], rec) {
      if b != u.active.value {
        assert DirtyIn(t.queue, t.flushing, Writing(t), b);
      }
    }
  }

  lemma ResumeAbandons(c: Config, t: State, first: Entry, rec: Rec)
    requires Shape(c, t) && t.waiting.Some? && |t.free| > 0 && !Oversized(c, first) && Abandoned(t, rec) && Behind(t, rec)
    ensures Abandoned(ResumeWith(c, t, first), rec)
  {
    RoomAbandons(c, t, rec);
    RoomKeepsShape(c, t);
    TakeAbandons(c, RoomForBlock(c, t), rec);
    TakeEmpty(c, t);
    var u := TakeBlock(c, t);
    AppendAbandons(c, u, first, BlockImage(u.blocks[u.active.value], u.sequence, first), rec);
  }
}
