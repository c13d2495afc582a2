/** Runs without oversized entries: blocks reach each file in the order of their ranges. So a
    crash at any moment leaves, for every location ever returned, the entry or a miss, never
    wrong bytes; and the entries of a segment tile it, as the GC scan expects. */
module BlobOrder {
  import opened Common
  import opened Segment
  import opened BlobProtocol
  import opened BlobInvariant
  import opened BlobWriter
  import opened BlobFlusher
  import opened BlobTheorems

  // ---- The order in which blocks reach the disk ----

  function OptSeq(o: Option<nat>): seq<nat> {
    if o.Some? then [o.value] else []
  }

  /** The dirty blocks, first to be flushed first. */
  function ChainOf(flushing: Option<nat>, queue: seq<nat>, writing: Option<nat>): seq<nat> {
    OptSeq(flushing) + queue + OptSeq(writing)
  }

  function Chain(s: State): seq<nat> {
    ChainOf(s.flushing, s.queue, Writing(s))
  }

  predicate Before(x: Block, y: Block) {
    x.segId < y.segId || (x.segId == y.segId && BlockEnd(x) <= y.segOff)
  }

  predicate Sorted(blocks: seq<Block>, chain: seq<nat>) {
    && AllIds(|blocks|, chain)
    && forall i, j :: 0 <= i < j < |chain| ==> Before(blocks[chain[i]], blocks[chain[j]])
  }

  function Written(flushing: Option<nat>, flushed: nat, b: nat): nat {
    if flushing == Some(b) then flushed else 0
  }

  /** A file ends before the unwritten part of every dirty block. */
  predicate FileEnds(blocks: seq<Block>, segs: seq<SegmentFile>, flushing: Option<nat>, flushed: nat, chain: seq<nat>) {
    && AllIds(|blocks|, chain)
    && forall i :: 0 <= i < |chain| ==>
         var b := blocks[chain[i]];
         b.segId < |segs| && |segs[b.segId].file| <= b.segOff + Written(flushing, flushed, chain[i])
  }

  /** No block reaches, and no file is longer than, what its segment has handed out. */
  predicate Bounded(blocks: seq<Block>, segs: seq<SegmentFile>) {
    && (forall b :: 0 <= b < |blocks| ==> blocks[b].segId < |segs| && BlockEnd(blocks[b]) <= segs[blocks[b].segId].writeOffset)
    && (forall k :: 0 <= k < |segs| ==> |segs[k].file| <= segs[k].writeOffset)
  }

  /** The block appended to ends where the current segment ends. */
  predicate AtEnd(blocks: seq<Block>, segs: seq<SegmentFile>, writing: Option<nat>) {
    writing.Some? ==>
      && writing.value < |blocks| && |segs| >= 1
      && blocks[writing.value].segId == |segs| - 1 && BlockEnd(blocks[writing.value]) == segs[|segs| - 1].writeOffset
  }

  predicate Ordered(blocks: seq<Block>, segs: seq<SegmentFile>, flushing: Option<nat>, flushed: nat,
                    queue: seq<nat>, writing: Option<nat>) {
    && Sorted(blocks, ChainOf(flushing, queue, writing))
    && FileEnds(blocks, segs, flushing, flushed, ChainOf(flushing, queue, writing))
    && Bounded(blocks, segs) && AtEnd(blocks, segs, writing)
  }

  /** Nothing lies behind the active block in its segment, even while a parked writer has left
      the block to the flusher. */
  predicate Caught(blocks: seq<Block>, segs: seq<SegmentFile>, active: Option<nat>) {
    active.Some? ==>
      && active.value < |blocks| && blocks[active.value].segId < |segs|
      && BlockEnd(blocks[active.value]) == segs[blocks[active.value].segId].writeOffset
  }

  predicate InOrder(s: State) {
    Ordered(s.blocks, s.segs, s.flushing, s.flushed, s.queue, Writing(s)) && Caught(s.blocks, s.segs, s.active)
  }

  lemma ChainIsDirty(s: State)
    ensures forall i :: 0 <= i < |Chain(s)| ==> DirtyIn(s.queue, s.flushing, Writing(s), Chain(s)[i])
  {
  }

  // ---- Writer ----

  lemma AppendInOrder(c: Config, s: State, e: Entry, img: Bytes)
    requires Fits(c, s, img) && s.waiting.None? && Conserved(s) && InOrder(s)
    ensures InOrder(AppendImage(c, s, e, img))
  {
    Separate(s);
    var t := AppendImage(c, s, e, img);
    assert Chain(t) == Chain(s);
    var chain := Chain(s);
    var n := |chain| - 1;
    assert chain[n] == s.active.value;
    forall i | 0 <= i < n ensures t.blocks[chain[i]] == s.blocks[chain[i]] {
      assert chain[i] != s.active.value;
    }
  }

  lemma NewSegmentInOrder(c: Config, s: State)
    requires Shape(c, s) && s.waiting.Some? && InOrder(s)
    ensures InOrder(NewSegment(c, s))
  {
    var t := NewSegment(c, s);
    assert Chain(t) == Chain(s);
  }

  lemma TakeChain(c: Config, s: State)
    requires CanTake(c, s) && Conserved(s) && InOrder(s)
    ensures var t := TakeHere(c, s);
            && t.active.Some? && Chain(t) == Chain(s) + [t.active.value]
            && forall i :: 0 <= i < |Chain(s)| ==> Chain(s)[i] < |s.blocks| && t.blocks[Chain(s)[i]] == s.blocks[Chain(s)[i]]
  {
    Separate(s);
    ChainIsDirty(s);
    var t := TakeHere(c, s);
    assert s.free[|s.free| - 1] in s.free;
    assert Chain(t) == Chain(s) + [t.active.value];
    forall i | 0 <= i < |Chain(s)| ensures t.blocks[Chain(s)[i]] == s.blocks[Chain(s)[i]] {
      assert Chain(s)[i] != t.active.value;
    }
  }

  lemma TakeInOrder(c: Config, s: State)
    requires CanTake(c, s) && Conserved(s) && InOrder(s)
    ensures InOrder(TakeHere(c, s))
  {
    TakeChain(c, s);
    var t := TakeHere(c, s);
    var taken := t.blocks[t.active.value];
    forall i | 0 <= i < |Chain(s)| ensures Before(t.blocks[Chain(s)[i]], taken) {
      assert BlockShape(c, |s.segs|, s.blocks[Chain(s)[i]]);
    }
    assert Sorted(t.blocks, Chain(t)) && FileEnds(t.blocks, t.segs, t.flushing, t.flushed, Chain(t));
  }

  lemma ResumeInOrder(c: Config, s: State, e: Entry)
    requires Inv(c, s) && CanTake(c, s) && !Oversized(c, e) && InOrder(s)
    ensures InOrder(ResumeWith(c, s, e))
  {
    var r := RoomForBlock(c, s);
    if NeedsSegment(c, s, c.capacity) {
      NewSegmentKeeps(c, s);
      NewSegmentInOrder(c, s);
    }
    TakeInOrder(c, r);
    TakeKeeps(c, s);
    var t := TakeBlock(c, s);
    AppendInOrder(c, t, e, BlockImage(t.blocks[t.active.value], t.sequence, e));
  }

  lemma EnqueueInOrder(c: Config, s: State, e: Entry)
    requires s.active.Some? && s.waiting.None? && InOrder(s)
    ensures InOrder(Enqueue(s, e))
  {
    assert Chain(Enqueue(s, e)) == Chain(s);
  }

  lemma WriteInOrder(c: Config, s: State, e: Entry)
    requires Inv(c, s) && CanWrite(s, e) && !Oversized(c, e) && InOrder(s)
    ensures InOrder(Write(c, s, e))
  {
    if Rotates(c, s, e) {
      ParkKeeps(c, s, e);
      EnqueueInOrder(c, s, e);
      ParkEnqueues(c, s, e);
      var p := Park(c, s, e);
      if |p.free| > 0 {
        ResumeInOrder(c, p, e);
      } else {
        assert Chain(GiveUp(p)) == Chain(p);
      }
    } else {
      AppendInOrder(c, s, e, BlockImage(s.blocks[s.active.value], s.sequence, e));
    }
  }

  // ---- Flusher ----

  lemma ChainFront(s: State)
    requires |s.queue| > 0 && s.flushing.None?
    ensures Chain(s) == [s.queue[0]] + s.queue[1..] + OptSeq(Writing(s))
  {
    assert s.queue == [s.queue[0]] + s.queue[1..];
  }

  lemma TailInOrder(blocks: seq<Block>, segs: seq<SegmentFile>, flushing: Option<nat>, flushed: nat, chain: seq<nat>)
    requires |chain| > 0 && Sorted(blocks, chain) && FileEnds(blocks, segs, flushing, flushed, chain)
    requires chain[0] !in chain[1..]
    ensures Sorted(blocks, chain[1..])
    ensures forall f, n :: (flushing == f && n == flushed) || (f == None && flushing.None?) || (f == None && flushing == Some(chain[0])) ==> FileEnds(blocks, segs, f, n, chain[1..])
  {
  }

  lemma StartInOrder(c: Config, s: State)
    requires |s.queue| > 0 && s.queue[0] < |s.blocks| && s.flushing.None? && InOrder(s)
    ensures InOrder(StartFlush(s))
  {
    ChainFront(s);
    assert Chain(StartFlush(s)) == Chain(s);
  }

  lemma RecycleInOrder(c: Config, s: State)
    requires |s.queue| > 0 && s.flushing.None? && InOrder(s) && Conserved(s)
    ensures InOrder(Recycle(s))
  {
    ChainFront(s);
    var t := Recycle(s);
    assert Chain(t) == Chain(s)[1..];
    forall i | 0 <= i < |Chain(t)| ensures Chain(t)[i] == Chain(s)[i + 1] {
    }
  }

  lemma ReturnInOrder(c: Config, s: State)
    requires s.flushing.Some? && InOrder(s) && Conserved(s)
    ensures InOrder(Return(s))
  {
    Separate(s);
    var t := Return(s);
    assert Chain(t) == Chain(s)[1..];
    forall i | 0 <= i < |Chain(t)| ensures Chain(t)[i] == Chain(s)[i + 1] && Chain(t)[i] != s.flushing.value {
    }
  }

  lemma PwriteInOrder(c: Config, s: State, n: nat)
    requires CanPwrite(c, s, n) && Conserved(s) && CurrentEnds(s.blocks, s.segs, s.log) && InOrder(s)
    ensures InOrder(Pwrite(c, s, n))
  {
    Separate(s);
    var f := s.flushing.value;
    var b := s.blocks[f];
    assert BlockShape(c, |s.segs|, b);
    var t := Pwrite(c, s, n);
    var chain := Chain(s);
    assert Chain(t) == chain && chain[0] == f;
    forall i | 0 <= i < |chain|
      ensures var x := t.blocks[chain[i]];
              x.segId < |t.segs| && |t.segs[x.segId].file| <= x.segOff + Written(t.flushing, t.flushed, chain[i])
    {
      if i > 0 {
        assert Before(s.blocks[chain[0]], s.blocks[chain[i]]);
        assert chain[i] != f;
      }
    }
  }

  // ---- Closing ----

  lemma CloseInOrder(c: Config, s: State)
    requires Shape(c, s) && s.waiting.None? && InOrder(s)
    ensures InOrder(CloseEnqueue(c, s))
  {
    if s.active.Some? && s.blocks[s.active.value].pos > 0 {
      assert Chain(HandOver(s)) == Chain(s);
    }
  }

  /** With at most an empty active block left, only the lengths of the files matter. */
  lemma IdleInOrder(s: State, segs: seq<SegmentFile>)
    requires s.flushing.None? && s.queue == [] && InOrder(s) && PastHeader(s.segs)
    requires Writing(s).Some? && Writing(s).value < |s.blocks| ==> SEGMENT_HEADER_SIZE <= s.blocks[Writing(s).value].segOff
    requires |segs| == |s.segs|
    requires forall k :: 0 <= k < |segs| ==>
               && segs[k].writeOffset == s.segs[k].writeOffset
               && |segs[k].file| <= if |s.segs[k].file| > SEGMENT_HEADER_SIZE then |s.segs[k].file| else SEGMENT_HEADER_SIZE
    ensures InOrder(s.(segs := segs))
  {
    assert Chain(s) == OptSeq(Writing(s));
  }

  lemma HeadersInOrder(s: State, header: Bytes)
    requires s.flushing.None? && s.queue == [] && |header| == SEGMENT_HEADER_SIZE && InOrder(s) && PastHeader(s.segs)
    requires Writing(s).Some? && Writing(s).value < |s.blocks| ==> SEGMENT_HEADER_SIZE <= s.blocks[Writing(s).value].segOff
    ensures InOrder(RewriteHeaders(s, header))
  {
    IdleInOrder(s, RewriteHeaders(s, header).segs);
  }

  lemma WriterStepInOrder(c: Config, s: State, ev: Event)
    requires Good(c, s) && Enabled(c, s, ev) && InOrder(s)
    requires ev.DoResume? || (ev.DoWrite? && !Oversized(c, ev.entry))
    ensures InOrder(Apply(c, s, ev))
  {
    if ev.DoWrite? {
      if s.active.Some? { WriteInOrder(c, s, ev.entry); }
    } else if |s.free| > 0 {
      ResumeInOrder(c, s, s.waiting.value);
    } else {
      assert Chain(GiveUp(s)) == Chain(s);
    }
  }

  lemma FlusherStepInOrder(c: Config, s: State, ev: Event)
    requires Good(c, s) && Enabled(c, s, ev) && InOrder(s)
    requires ev.DoPop? || ev.DoPwrite? || ev.DoReturn?
    ensures InOrder(Apply(c, s, ev))
  {
    match ev
    case DoPop => if s.blocks[s.queue[0]].pos == 0 { RecycleInOrder(c, s); } else { StartInOrder(c, s); }
    case DoPwrite(n) => FlushIsExact(s); PwriteInOrder(c, s, n);
    case DoReturn => ReturnInOrder(c, s);
  }

  lemma MarkDeadInOrder(s: State, i: nat)
    requires i < |s.log| && s.log[i].loc.segId < |s.segs| && InOrder(s)
    ensures InOrder(MarkDead(s, i))
  {
    var t := MarkDead(s, i);
    assert forall k :: 0 <= k < |s.segs| ==> t.segs[k].writeOffset == s.segs[k].writeOffset && t.segs[k].file == s.segs[k].file;
  }

  lemma ReaderStepInOrder(c: Config, s: State, ev: Event)
    requires Enabled(c, s, ev) && InOrder(s) && (ev.DoCheckPending? || ev.DoDiskRead?)
    ensures InOrder(Apply(c, s, ev))
  {
  }

  lemma CloseStepInOrder(c: Config, s: State, ev: Event)
    requires Good(c, s) && Enabled(c, s, ev) && SafeEvent(c, s, ev) && InOrder(s)
    requires ev.DoCloseEnqueue? || ev.DoRewriteHeaders?
    ensures InOrder(Apply(c, s, ev))
  {
    match ev
    case DoCloseEnqueue => CloseInOrder(c, s);
    case DoRewriteHeaders(h) => HeadersInOrder(s, h);
  }

  /** Every step of a run without oversized entries keeps the order. */
  lemma StepInOrder(c: Config, s: State, ev: Event)
    requires Good(c, s) && Enabled(c, s, ev) && SafeEvent(c, s, ev) && InOrder(s)
    requires ev.DoWrite? ==> !Oversized(c, ev.entry)
    ensures InOrder(Apply(c, s, ev))
  {
    match ev
    case DoWrite(_) => WriterStepInOrder(c, s, ev);
    case DoResume => WriterStepInOrder(c, s, ev);
    case DoPop => FlusherStepInOrder(c, s, ev);
    case DoPwrite(_) => FlusherStepInOrder(c, s, ev);
    case DoReturn => FlusherStepInOrder(c, s, ev);
    case DoCheckPending(_, _) => ReaderStepInOrder(c, s, ev);
    case DoDiskRead(_) => ReaderStepInOrder(c, s, ev);
    case DoCloseEnqueue => CloseStepInOrder(c, s, ev);
    case DoRewriteHeaders(_) => CloseStepInOrder(c, s, ev);
    case DoMarkDead(i) => MarkDeadInOrder(s, i);
    case _ =>
  }
}
