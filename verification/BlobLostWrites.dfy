/** Writes that are accepted and never reach the disk: exactly which states close must find so
    that none can follow it. */
module BlobLostWrites {
  import opened Common
  import opened Segment
  import opened BlobProtocol
  import opened BlobInvariant
  import opened BlobWriter
  import opened BlobFlusher
  import opened BlobTheorems
  import opened BlobOrder
  import opened BlobCrash
  import opened BlobRuns
  import opened BlobShutdown

  predicate AllOnDisk(s: State) {
    forall k :: 0 <= k < |s.log| ==> OnDisk(s.segs, s.log[k])
  }

  // ---- What is left when the flusher has gone ----

  lemma FrontierStarts(c: Config, blocks: seq<Block>, segs: seq<SegmentFile>, log: seq<Rec>, a: nat)
    requires Frontier(c, blocks, segs, log, a)
    ensures a < |blocks| && SEGMENT_HEADER_SIZE <= blocks[a].segOff
  {
  }

  lemma OneBlockEnds(blocks: seq<Block>, segs: seq<SegmentFile>, flushed: nat, a: nat)
    requires FileEnds(blocks, segs, None, flushed, [a]) && Caught(blocks, segs, Some(a))
    requires SEGMENT_HEADER_SIZE <= blocks[a].segOff && blocks[a].pos > 0
    ensures var b := blocks[a];
            SEGMENT_HEADER_SIZE < segs[b.segId].writeOffset && |segs[b.segId].file| < segs[b.segId].writeOffset
  {
    assert [a][0] == a;
  }

  lemma NotWhollyOnDisk(c: Config, s: State, k: nat)
    requires k < |s.segs| && RecsOk(c, |s.segs|, s.log) && Accounted(s.segs, s.log, s.dead)
    requires SEGMENT_HEADER_SIZE < s.segs[k].writeOffset && |s.segs[k].file| < s.segs[k].writeOffset
    ensures !AllOnDisk(s)
  {
    var j := LastInSegment(s, k);
    assert RecOk(c, |s.segs|, s.log[j]);
    assert !OnDisk(s.segs, s.log[j]);
  }

  lemma LeftOverFiles(s: State, a: nat)
    requires InOrder(s) && s.flushing.None? && s.queue == [] && Writing(s) == Some(a)
    ensures FileEnds(s.blocks, s.segs, None, s.flushed, [a]) && Caught(s.blocks, s.segs, Some(a))
  {
    assert Chain(s) == [a];
  }

  lemma LeftOverShown(c: Config, s: State, a: nat)
    requires FileEnds(s.blocks, s.segs, None, s.flushed, [a]) && Caught(s.blocks, s.segs, Some(a))
    requires Frontier(c, s.blocks, s.segs, s.log, a) && s.blocks[a].pos > 0
    requires RecsOk(c, |s.segs|, s.log) && Accounted(s.segs, s.log, s.dead)
    ensures !AllOnDisk(s)
  {
    FrontierStarts(c, s.blocks, s.segs, s.log, a);
    OneBlockEnds(s.blocks, s.segs, s.flushed, a);
    NotWhollyOnDisk(c, s, s.blocks[a].segId);
  }

  lemma LeftOverIsLost(c: Config, s: State)
    requires Good(c, s) && Plain(s) && s.exited && LeftOver(s)
    ensures !AllOnDisk(s)
  {
    LeftOverFiles(s, s.active.value);
    LeftOverShown(c, s, s.active.value);
  }

  /** When the flusher has left, every entry ever written is on disk if and only if none was
      left in an active block. */
  lemma ShutdownExactly(c: Config, s: State)
    requires Good(c, s) && Plain(s) && s.exited
    ensures AllOnDisk(s) <==> !LeftOver(s)
  {
    if LeftOver(s) { LeftOverIsLost(c, s); } else { ExitedOnDisk(c, s); }
  }

  // ---- No write after close ----

  /** Close has happened, and what it left active is empty. */
  predicate QuietlyClosed(s: State) {
    s.closing && s.waiting.None? && !LeftOver(s)
  }

  lemma QuietWrite(c: Config, s: State, e: Entry)
    requires Shape(c, s) && QuietlyClosed(s) && CanWrite(s, e)
    ensures |Write(c, s, e).log| > |s.log|
  {
    if Oversized(c, e) {
      assert Write(c, s, e) == WriteDirect(c, s, e);
    } else {
      assert !Rotates(c, s, e) && Write(c, s, e) == Append(c, s, e);
    }
  }

  lemma QuietStep(c: Config, s: State, ev: Event)
    requires QuietlyClosed(s) && Enabled(c, s, ev) && Apply(c, s, ev).log == s.log
    ensures QuietlyClosed(Apply(c, s, ev))
  {
    if ev.DoWrite? && s.active.Some? {
      QuietWrite(c, s, ev.entry);
    }
  }

  lemma {:induction false} QuietStays(c: Config, trace: seq<State>, evs: seq<Event>, j: nat, i: nat)
    requires IsRun(c, trace, evs) && j <= i < |trace| && QuietlyClosed(trace[j]) && trace[i].log == trace[j].log
    ensures QuietlyClosed(trace[i])
    decreases i
  {
    if j < i {
      var m := i - 1;
      WriteOnce(c, trace, evs, j, m);
      WriteOnce(c, trace, evs, m, i);
      QuietStays(c, trace, evs, j, m);
      assert Stepped(c, trace[m], evs[m], trace[m + 1]);
      QuietStep(c, trace[m], evs[m]);
    }
  }

  /** If close finds no writer parked and no write is accepted after it, every entry is on disk
      once the flusher has left. */
  lemma QuietShutdown(c: Config, trace: seq<State>, evs: seq<Event>, j: nat, i: nat)
    requires IsRun(c, trace, evs) && j < i < |trace| && evs[j].DoCloseEnqueue?
    requires trace[i].exited && trace[i].log == trace[j].log
    ensures AllOnDisk(trace[i])
  {
    assert Stepped(c, trace[j], evs[j], trace[j + 1]);
    CloseIsQuiet(c, trace[j]);
    QuietStays(c, trace, evs, j + 1, i);
    ShutdownDurability(c, trace, evs, i);
  }

  lemma CloseIsQuiet(c: Config, s: State)
    requires Shape(c, s) && s.waiting.None?
    ensures QuietlyClosed(CloseEnqueue(c, s)) && CloseEnqueue(c, s).log == s.log
  {
  }

  // ---- The flusher finishes what it has, whatever state close left ----

  /** Enough to let the flusher go on, even if a block is queued twice. */
  predicate Drainable(c: Config, s: State) {
    && Shape(c, s) && !s.left && !s.exited && s.draining.None? && AllAligned(s.blocks, s.segs, s.log) && Bounded(s.blocks, s.segs)
    && (s.flushing.Some? ==> s.flushed <= s.flushSize == s.blocks[s.flushing.value].pos)
  }

  /** The flusher leaves the writer, the log and the write offsets alone. */
  predicate Still(s: State, t: State) {
    && t.blocks == s.blocks && t.active == s.active && t.waiting == s.waiting && t.log == s.log
    && t.closing == s.closing && t.running == s.running && t.left == s.left && t.exited == s.exited && t.draining == s.draining
    && |t.segs| == |s.segs| && forall k :: 0 <= k < |s.segs| ==> t.segs[k].writeOffset == s.segs[k].writeOffset
  }

  lemma PwriteDrainable(c: Config, s: State, n: nat)
    requires Drainable(c, s) && s.flushing.Some? && s.flushed + n <= s.flushSize
    ensures s.flushed + n <= c.capacity && Drainable(c, Pwrite(c, s, n)) && Still(s, Pwrite(c, s, n))
  {
    var b := s.blocks[s.flushing.value];
    assert BlockShape(c, |s.segs|, b);
    PwriteKeepsShape(c, s, n);
    PwriteAligned(c, s, n);
    var t := Pwrite(c, s, n);
    assert |t.segs[b.segId].file| <= s.segs[b.segId].writeOffset;
  }

  lemma StartDrainable(c: Config, s: State)
    requires Drainable(c, s) && |s.queue| > 0
    ensures Drainable(c, StartFlush(s)) && Still(s, StartFlush(s))
  {
    StartShape(c, s);
    assert Aligned(s.blocks[s.queue[0]].pos);
  }

  lemma ReturnDrainable(c: Config, s: State)
    requires Drainable(c, s) && s.flushing.Some?
    ensures Drainable(c, Return(s)) && Still(s, Return(s))
  {
    var t := Return(s);
    assert AllIds(|t.blocks|, t.free);
  }

  lemma RecycleDrainable(c: Config, s: State)
    requires Drainable(c, s) && |s.queue| > 0
    ensures Drainable(c, Recycle(s)) && Still(s, Recycle(s))
  {
    var t := Recycle(s);
    assert AllIds(|t.blocks|, t.free) && AllIds(|t.blocks|, t.queue);
  }

  // ---- Runs of any steps, none of them an oversized write ----

  predicate Fitting(c: Config, evs: seq<Event>) {
    forall i :: 0 <= i < |evs| && evs[i].DoWrite? ==> !Oversized(c, evs[i].entry)
  }

  /** These events can happen, and lead to `t`. */
  ghost predicate To(c: Config, s: State, evs: seq<Event>, t: State) {
    Goes(c, s, evs, t) && Fitting(c, evs)
  }

  lemma ToOne(c: Config, s: State, ev: Event)
    requires Enabled(c, s, ev) && (ev.DoWrite? ==> !Oversized(c, ev.entry))
    ensures To(c, s, [ev], Apply(c, s, ev))
  {
    GoesOne(c, s, ev);
  }

  lemma ToThen(c: Config, s: State, a: seq<Event>, t: State, b: seq<Event>, u: State)
    requires To(c, s, a, t) && To(c, t, b, u)
    ensures To(c, s, a + b, u)
  {
    GoesThen(c, s, a, t, b, u);
  }

  /** No event of these puts a block out of its place. */
  predicate Calm(evs: seq<Event>) {
    forall i :: 0 <= i < |evs| ==> !evs[i].DoCloseEnqueue? && !evs[i].DoDrainPop?
  }

  lemma {:induction false} CalmOrderly(c: Config, s: State, evs: seq<Event>, t: State)
    requires Orderly(c, s) && Goes(c, s, evs, t) && Calm(evs)
    ensures Orderly(c, t)
    decreases |evs|
  {
    if evs != [] {
      var u :| Step(c, s, evs[0], u) && Goes(c, u, evs[1..], t);
      assert StepIf(c, s, evs[0], u, true);
      StepOrderly(c, s, evs[0]);
      CalmOrderly(c, u, evs[1..], t);
    }
  }

  lemma FinishFlush(c: Config, s: State) returns (evs: seq<Event>, t: State)
    requires Drainable(c, s)
    ensures To(c, s, evs, t) && Drainable(c, t) && Still(s, t) && t.flushing.None? && t.queue == s.queue
    ensures |t.free| == |s.free| + (if s.flushing.Some? then 1 else 0) && Calm(evs)
  {
    evs, t := [], s;
    if s.flushing.Some? {
      var n := s.flushSize - s.flushed;
      PwriteDrainable(c, s, n);
      var u := Pwrite(c, s, n);
      ReturnDrainable(c, u);
      assert BlockShape(c, |s.segs|, s.blocks[s.flushing.value]);
      ToOne(c, s, DoPwrite(n));
      ToOne(c, u, DoReturn);
      t := Return(u);
      ToThen(c, s, [DoPwrite(n)], u, [DoReturn], t);
      evs := [DoPwrite(n)] + [DoReturn];
    }
  }

  lemma FlushOneBlock(c: Config, s: State) returns (evs: seq<Event>, t: State)
    requires Drainable(c, s) && s.flushing.None? && |s.queue| > 0
    ensures To(c, s, evs, t) && Drainable(c, t) && Still(s, t) && t.flushing.None?
    ensures t.queue == s.queue[1..] && |t.free| == |s.free| + 1 && Calm(evs)
  {
    ToOne(c, s, DoPop);
    if s.blocks[s.queue[0]].pos == 0 {
      RecycleDrainable(c, s);
      evs, t := [DoPop], Recycle(s);
    } else {
      StartDrainable(c, s);
      var p := StartFlush(s);
      var more, u := FinishFlush(c, p);
      ToThen(c, s, [DoPop], p, more, u);
      evs, t := [DoPop] + more, u;
    }
  }

  lemma {:induction false} DrainOut(c: Config, s: State) returns (evs: seq<Event>, t: State)
    requires Drainable(c, s) && s.flushing.None?
    ensures To(c, s, evs, t) && Drainable(c, t) && Still(s, t) && t.flushing.None? && t.queue == []
    ensures |t.free| == |s.free| + |s.queue| && Calm(evs)
    decreases |s.queue|
  {
    evs, t := [], s;
    if |s.queue| > 0 {
      var first, u := FlushOneBlock(c, s);
      var more, v := DrainOut(c, u);
      ToThen(c, s, first, u, more, v);
      evs, t := first + more, v;
    }
  }

  /** The flusher gets to the end of its queue. */
  lemma Settle(c: Config, s: State) returns (evs: seq<Event>, t: State)
    requires Drainable(c, s)
    ensures To(c, s, evs, t) && Drainable(c, t) && Still(s, t) && t.flushing.None? && t.queue == []
    ensures |t.free| >= |s.free| + |s.queue| && Calm(evs)
  {
    var a, u := FinishFlush(c, s);
    var b, v := DrainOut(c, u);
    ToThen(c, s, a, u, b, v);
    evs, t := a + b, v;
  }

  // ---- A write after that is never flushed ----

  /** The file of the last record ends before the record does. */
  predicate LastBeyond(s: State) {
    |s.log| > 0 &&
    var rec := s.log[|s.log| - 1];
    rec.loc.segId < |s.segs| && |s.segs[rec.loc.segId].file| < rec.loc.offset + |rec.image|
  }

  /** An idle flusher with nothing queued. */
  predicate Waits(s: State) {
    s.flushing.None? && s.queue == [] && s.draining.None? && s.closing && !s.exited && (s.left ==> !s.running)
  }

  lemma AppendBeyond(c: Config, s: State, e: Entry)
    requires Shape(c, s) && Bounded(s.blocks, s.segs) && s.active.Some? && Waits(s)
    requires var b := s.blocks[s.active.value]; b.pos + DiskSize(e) <= c.capacity && BlockEnd(b) == s.segs[b.segId].writeOffset
    ensures var t := Append(c, s, e);
            LastBeyond(t) && Waits(t) && Shape(c, t) && |t.log| == |s.log| + 1 && t.log[..|s.log|] == s.log && t.log[|s.log|].entry == e
  {
    var img := BlockImage(s.blocks[s.active.value], s.sequence, e);
    var t := AppendImage(c, s, e, img);
    forall b | 0 <= b < |t.blocks| ensures BlockShape(c, |t.segs|, t.blocks[b]) {
      assert BlockShape(c, |s.segs|, s.blocks[b]);
    }
    assert BlockShape(c, |s.segs|, s.blocks[s.active.value]);
  }

  lemma TakeBounded(c: Config, s: State)
    requires Shape(c, s) && Bounded(s.blocks, s.segs) && |s.free| > 0 && Waits(s)
    ensures var t := TakeBlock(c, s);
            && Shape(c, t) && Bounded(t.blocks, t.segs) && t.active.Some? && Waits(t) && t.log == s.log
            && var b := t.blocks[t.active.value]; b.pos == 0 && BlockEnd(b) == t.segs[b.segId].writeOffset
  {
    TakeEmpty(c, s);
    RoomKeepsShape(c, s);
    RoomBounded(c, s);
    var r := RoomForBlock(c, s);
    var t := TakeHere(c, r);
    assert forall b | 0 <= b < |t.blocks| && b != t.active.value :: t.blocks[b] == r.blocks[b];
  }

  lemma RoomBounded(c: Config, s: State)
    requires Shape(c, s) && Bounded(s.blocks, s.segs)
    ensures var r := RoomForBlock(c, s); Bounded(r.blocks, r.segs)
  {
  }

  lemma WakeBeyond(c: Config, s: State, e: Entry)
    requires Shape(c, s) && Bounded(s.blocks, s.segs) && |s.free| > 0 && Waits(s) && !Oversized(c, e)
    ensures var t := ResumeWith(c, s, e);
            LastBeyond(t) && Waits(t) && Shape(c, t) && |t.log| == |s.log| + 1 && t.log[..|s.log|] == s.log && t.log[|s.log|].entry == e
  {
    TakeBounded(c, s);
    AppendBeyond(c, TakeBlock(c, s), e);
  }

  lemma ExitNow(c: Config, s: State)
    requires Shape(c, s) && Waits(s) && !s.left
    ensures To(c, s, [DoCloseStop, DoLeave, DoExit], s.(running := false, left := true, exited := true))
  {
    LeaveNow(c, s);
    var u := s.(running := false, left := true);
    ToOne(c, u, DoExit);
    ToThen(c, s, [DoCloseStop, DoLeave], u, [DoExit], u.(exited := true));
    assert [DoCloseStop, DoLeave] + [DoExit] == [DoCloseStop, DoLeave, DoExit];
  }

  lemma LeaveNow(c: Config, s: State)
    requires Shape(c, s) && Waits(s) && !s.left
    ensures To(c, s, [DoCloseStop, DoLeave], s.(running := false, left := true))
  {
    var t := s.(running := false);
    ToOne(c, s, DoCloseStop);
    ToOne(c, t, DoLeave);
    ToThen(c, s, [DoCloseStop], t, [DoLeave], t.(left := true));
    assert [DoCloseStop] + [DoLeave] == [DoCloseStop, DoLeave];
  }

  /** The flusher has left, and the record of `e`, the last one written, is not on disk. */
  predicate Lost(s: State, t: State, e: Entry) {
    t.exited && |t.log| == |s.log| + 1 && t.log[..|s.log|] == s.log && t.log[|s.log|].entry == e && !OnDisk(t.segs, t.log[|s.log|])
  }

  lemma CloseDrainable(c: Config, s: State)
    requires Good(c, s) && Plain(s) && !s.closing
    ensures Drainable(c, CloseEnqueue(c, s))
  {
    CloseKeepsShape(c, s);
    if s.flushing.Some? { FlushIsExact(s); }
  }

  /** A close that finds a parked writer: the flusher may drain its queue before the writer wakes,
      finds a free block although the store is stopping, and has its write accepted. Nothing ever
      flushes that block. */
  lemma ParkedWriteLost(c: Config, s: State) returns (evs: seq<Event>, t: State)
    requires Good(c, s) && Plain(s) && !s.closing && s.waiting.Some?
    ensures Shape(c, s) && To(c, CloseEnqueue(c, s), evs, t) && Lost(s, t, s.waiting.value)
  {
    var q := CloseEnqueue(c, s);
    CloseDrainable(c, s);
    CloseLeavesParked(c, s);
    var a, u := Settle(c, q);
    var b;
    b, t := WakeAndExit(c, u, s.waiting.value);
    ToThen(c, q, a, u, b, t);
    evs := a + b;
  }

  lemma WakeAndExit(c: Config, u: State, e: Entry) returns (evs: seq<Event>, t: State)
    requires Shape(c, u) && Bounded(u.blocks, u.segs) && |u.free| > 0 && Waits(u) && !u.left && u.waiting == Some(e) && !Oversized(c, e)
    ensures To(c, u, evs, t) && Lost(u, t, e)
  {
    ToOne(c, u, DoResume);
    WakeBeyond(c, u, e);
    var w := ResumeWith(c, u, e);
    assert !w.left;
    ExitNow(c, w);
    t := w.(running := false, left := true, exited := true);
    ToThen(c, u, [DoResume], w, [DoCloseStop, DoLeave, DoExit], t);
    evs := [DoResume] + [DoCloseStop, DoLeave, DoExit];
  }

  lemma CloseLeavesParked(c: Config, s: State)
    requires Inv(c, s) && !s.closing && s.waiting.Some?
    ensures var q := CloseEnqueue(c, s);
            q.waiting == s.waiting && q.closing && !q.left && !q.exited && q.log == s.log && |q.queue| > 0 && !Oversized(c, s.waiting.value)
  {
  }

  /** A close that finds an empty active block leaves it active: a later write goes into it, is
      accepted, and nothing ever flushes the block. */
  lemma LateWriteLost(c: Config, s: State, e: Entry) returns (evs: seq<Event>, t: State)
    requires Good(c, s) && Plain(s) && !s.closing && s.waiting.None? && s.blocks[s.active.value].pos == 0
    requires Storable(|e.blob|) && !Oversized(c, e)
    ensures To(c, CloseEnqueue(c, s), evs, t) && Lost(s, t, e)
  {
    var q := CloseEnqueue(c, s);
    CloseDrainable(c, s);
    assert q == s.(closing := true);
    var a, u := Settle(c, q);
    ToOne(c, u, DoWrite(e));
    AppendBeyond(c, u, e);
    var w := Append(c, u, e);
    ExitNow(c, w);
    t := w.(running := false, left := true, exited := true);
    ToThen(c, q, a, u, [DoWrite(e)], w);
    ToThen(c, q, a + [DoWrite(e)], w, [DoCloseStop, DoLeave, DoExit], t);
    evs := a + [DoWrite(e)] + [DoCloseStop, DoLeave, DoExit];
  }

  // ---- Exactly when close is durable ----

  /** Whatever happens from `s` on, every entry written, before or after, is on disk once the
      flusher has left. */
  ghost predicate DurableFrom(c: Config, s: State) {
    forall evs, t :: To(c, s, evs, t) && t.exited ==> AllOnDisk(t)
  }

  /** No writer is at work, and none will be: close has taken the active block away. */
  ghost predicate ShutOff(c: Config, s: State) {
    Good(c, s) && s.closing && s.active.None? && s.waiting.None? && (s.left ==> s.queue == [])
  }

  lemma ShutOffFlags(c: Config, s: State, ev: Event)
    requires s.closing && s.active.None? && s.waiting.None? && (s.left ==> s.queue == []) && Enabled(c, s, ev)
    ensures var t := Apply(c, s, ev); t.closing && t.active.None? && t.waiting.None? && (t.left ==> t.queue == [])
    ensures SafeEvent(c, s, ev)
  {
  }

  lemma ShutOffStep(c: Config, s: State, ev: Event)
    requires ShutOff(c, s) && Enabled(c, s, ev)
    ensures ShutOff(c, Apply(c, s, ev))
  {
    ShutOffFlags(c, s, ev);
    StepKeeps(c, s, ev);
  }

  lemma {:induction false} ShutOffStays(c: Config, s: State, evs: seq<Event>, t: State)
    requires ShutOff(c, s) && Goes(c, s, evs, t)
    ensures ShutOff(c, t)
    decreases |evs|
  {
    if evs != [] {
      var u :| Step(c, s, evs[0], u) && Goes(c, u, evs[1..], t);
      assert StepIf(c, s, evs[0], u, true);
      ShutOffStep(c, s, evs[0]);
      ShutOffStays(c, u, evs[1..], t);
    }
  }

  lemma CloseShutsOff(c: Config, s: State)
    requires Good(c, s) && !s.closing && s.waiting.None? && s.blocks[s.active.value].pos > 0
    ensures ShutOff(c, CloseEnqueue(c, s))
  {
    EnqueueStep(c, s);
  }

  /** Close can promise that every write that is ever accepted reaches the disk if and only if
      it finds no writer parked and a block that holds something: it then takes the block away
      from later writers. */
  lemma CloseDurableExactly(c: Config, s: State)
    requires Good(c, s) && Plain(s) && !s.closing && ALIGNMENT <= c.capacity
    ensures DurableFrom(c, CloseEnqueue(c, s)) <==> s.waiting.None? && s.blocks[s.active.value].pos > 0
  {
    var q := CloseEnqueue(c, s);
    if s.waiting.Some? {
      var evs, t := ParkedWriteLost(c, s);
      assert To(c, q, evs, t) && !AllOnDisk(t);
    } else if s.blocks[s.active.value].pos == 0 {
      var e := Entry(StorageKey(0, 0, 0, 0, 0), [], 0);
      var evs, t := LateWriteLost(c, s, e);
      assert To(c, q, evs, t) && !AllOnDisk(t);
    } else {
      CloseShutsOff(c, s);
      forall evs, t | To(c, q, evs, t) && t.exited ensures AllOnDisk(t) {
        ShutOffStays(c, q, evs, t);
        ExitedOnDisk(c, t);
      }
    }
  }

  // ---- A lost write ----

  function OnePage(): Config {
    Config(4096, 65536, 1, Zeros(4096))
  }

  lemma PlainWrite(c: Config, s: State, e: Entry)
    requires Good(c, s) && Plain(s) && CanWrite(s, e) && !Oversized(c, e)
    ensures To(c, s, [DoWrite(e)], Write(c, s, e)) && Good(c, Write(c, s, e)) && Plain(Write(c, s, e))
  {
    ToOne(c, s, DoWrite(e));
    StepPlain(c, s, DoWrite(e));
    PlainIsSafe(c, s, DoWrite(e));
    StepKeeps(c, s, DoWrite(e));
  }

  lemma FirstWrite(k1: StorageKey) returns (s: State)
    ensures To(OnePage(), Open(OnePage(), [], [], {}), [DoWrite(Entry(k1, [], 0))], s)
    ensures Good(OnePage(), s) && Plain(s) && !s.closing && s.running && !s.exited && s.waiting.None? && |s.log| == 1
    ensures s.active.Some? && s.blocks[s.active.value].pos == 4096 && s.free == []
  {
    var c, e1 := OnePage(), Entry(k1, [], 0);
    EmptyOpenIsPlain(c);
    var s0 := Open(c, [], [], {});
    PlainWrite(c, s0, e1);
    s := Append(c, s0, e1);
    assert Write(c, s0, e1) == s;
  }

  lemma SecondWaits(c: Config, s: State, e: Entry)
    requires Shape(c, s) && CanWrite(s, e) && !Oversized(c, e) && Rotates(c, s, e) && s.free == [] && s.running
    ensures Write(c, s, e) == s.(queue := s.queue + [s.active.value], waiting := Some(e))
  {
    ParkEnqueues(c, s, e);
  }

  lemma TwoWrites(k1: StorageKey, k2: StorageKey) returns (s: State)
    ensures To(OnePage(), Open(OnePage(), [], [], {}), [DoWrite(Entry(k1, [], 0)), DoWrite(Entry(k2, [], 0))], s)
    ensures Good(OnePage(), s) && Plain(s) && !s.closing && s.waiting == Some(Entry(k2, [], 0)) && |s.log| == 1
  {
    var c := OnePage();
    var e1, e2 := Entry(k1, [], 0), Entry(k2, [], 0);
    var s1 := FirstWrite(k1);
    SecondWaits(c, s1, e2);
    PlainWrite(c, s1, e2);
    s := Write(c, s1, e2);
    ToThen(c, Open(c, [], [], {}), [DoWrite(e1)], s1, [DoWrite(e2)], s);
    assert [DoWrite(e1)] + [DoWrite(e2)] == [DoWrite(e1), DoWrite(e2)];
  }

  /** Two page-sized blobs and one write block: the second write waits for the block, close
      comes, the second write is accepted, and it is on disk nowhere when the flusher has left. */
  lemma LostWriteExample(k1: StorageKey, k2: StorageKey) returns (evs: seq<Event>, t: State)
    ensures To(OnePage(), Open(OnePage(), [], [], {}), evs, t)
    ensures t.exited && |t.log| == 2 && t.log[1].entry == Entry(k2, [], 0) && !OnDisk(t.segs, t.log[1])
  {
    var c := OnePage();
    var s0 := Open(c, [], [], {});
    var s := TwoWrites(k1, k2);
    var writes := [DoWrite(Entry(k1, [], 0)), DoWrite(Entry(k2, [], 0))];
    ToOne(c, s, DoCloseEnqueue);
    var q := CloseEnqueue(c, s);
    var more;
    more, t := ParkedWriteLost(c, s);
    ToThen(c, s0, writes, s, [DoCloseEnqueue], q);
    ToThen(c, s0, writes + [DoCloseEnqueue], q, more, t);
    evs := writes + [DoCloseEnqueue] + more;
  }
}
