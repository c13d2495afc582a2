/** Close against a writer that is at work: which histories keep every block in one place, and
    exactly when close can promise that every accepted write reaches the disk. */
module BlobShutdown {
  import opened Common
  import opened Segment
  import opened BlobProtocol
  import opened BlobInvariant
  import opened BlobWriter
  import opened BlobFlusher
  import opened BlobTheorems
  import opened BlobRuns

  // ---- Each block in one place ----

  function Places(s: State, b: nat): nat {
    (if Writing(s) == Some(b) then 1 else 0) + multiset(s.queue)[b]
    + (if s.flushing == Some(b) then 1 else 0) + multiset(s.free)[b]
  }

  /** Each block of the pool is in exactly one of: appended to, queued, being flushed, free. */
  predicate OnePlaceEach(s: State) {
    forall b: nat :: b < |s.blocks| ==> Places(s, b) == 1
  }

  lemma OwnedIsPlaces(s: State, b: nat)
    ensures Owned(s.queue, s.flushing, Writing(s), s.free)[b] == Places(s, b)
  {
  }

  lemma ConservedIsOnePlace(c: Config, s: State)
    requires Shape(c, s)
    ensures Conserved(s) <==> OnePlaceEach(s)
  {
    var owned := Owned(s.queue, s.flushing, Writing(s), s.free);
    forall b: nat ensures owned[b] == Places(s, b) && (b >= |s.blocks| ==> owned[b] == 0) {
      OwnedIsPlaces(s, b);
      assert b >= |s.blocks| ==> b !in s.queue && b !in s.free;
    }
    if OnePlaceEach(s) {
      assert forall b: nat :: owned[b] == Pool(|s.blocks|)[b];
      assert owned == Pool(|s.blocks|);
    }
  }

  predicate Orderly(c: Config, s: State) {
    Shape(c, s) && Conserved(s) && Phases(c, s)
  }

  lemma RoomOrderly(c: Config, s: State)
    requires Orderly(c, s)
    ensures Orderly(c, RoomForBlock(c, s))
  {
    RoomKeepsShape(c, s);
  }

  lemma TakeOrderly(c: Config, s: State)
    requires Orderly(c, s) && s.waiting.Some? && |s.free| > 0 && !s.exited
    ensures Orderly(c, TakeHere(c, s)) && TakeHere(c, s).waiting.None?
  {
    TakeHereKeepsShape(c, s);
    TakeOwned(c, s);
  }

  lemma ImageOrderly(c: Config, s: State, e: Entry, img: Bytes)
    requires Orderly(c, s) && Fits(c, s, img)
    ensures Orderly(c, AppendImage(c, s, e, img))
  {
    AppendShape(c, s, e, img);
  }

  lemma ResumeOrderly(c: Config, s: State, e: Entry)
    requires Orderly(c, s) && s.waiting.Some? && |s.free| > 0 && !Oversized(c, e) && !s.exited
    ensures Orderly(c, ResumeWith(c, s, e))
  {
    RoomOrderly(c, s);
    RoomKeepsShape(c, s);
    TakeOrderly(c, RoomForBlock(c, s));
    TakeEmpty(c, s);
    var t := TakeBlock(c, s);
    ImageOrderly(c, t, e, BlockImage(t.blocks[t.active.value], t.sequence, e));
  }

  lemma DirectOrderly(c: Config, s: State, e: Entry)
    requires Orderly(c, s)
    ensures Orderly(c, WriteDirect(c, s, e))
  {
    if NeedsSegment(c, s, DiskSize(e)) {
      var n := NewSegment(c, s);
      forall b | 0 <= b < |n.blocks| ensures BlockShape(c, |n.segs|, n.blocks[b]) {
        assert BlockShape(c, |s.segs|, s.blocks[b]);
      }
      assert Orderly(c, n);
    }
  }

  lemma AppendOrderly(c: Config, s: State, e: Entry)
    requires Orderly(c, s) && CanWrite(s, e) && !Oversized(c, e) && !Rotates(c, s, e)
    ensures Orderly(c, Append(c, s, e))
  {
    AppendShape(c, s, e, BlockImage(s.blocks[s.active.value], s.sequence, e));
  }

  lemma ParkOrderly(c: Config, s: State, e: Entry)
    requires Orderly(c, s) && CanWrite(s, e) && !Oversized(c, e) && Rotates(c, s, e)
    ensures Orderly(c, Park(c, s, e)) && Park(c, s, e).waiting == Some(e) && !Park(c, s, e).exited
  {
    ParkEnqueues(c, s, e);
    EnqueueOwned(s, e);
    assert Shape(c, Enqueue(s, e));
  }

  lemma GiveUpOrderly(c: Config, s: State)
    requires Orderly(c, s) && s.waiting.Some?
    ensures s.closing ==> Orderly(c, GiveUp(s))
  {
  }

  lemma WriterOrderly(c: Config, s: State, ev: Event)
    requires Orderly(c, s) && Enabled(c, s, ev) && (ev.DoWrite? || ev.DoResume?)
    ensures Orderly(c, Apply(c, s, ev))
  {
    if ev.DoResume? {
      if |s.free| > 0 { ResumeOrderly(c, s, s.waiting.value); } else { GiveUpOrderly(c, s); }
    } else if s.active.Some? {
      var e := ev.entry;
      if Oversized(c, e) {
        DirectOrderly(c, s, e);
      } else if Rotates(c, s, e) {
        ParkOrderly(c, s, e);
        if |Park(c, s, e).free| > 0 { ResumeOrderly(c, Park(c, s, e), e); } else { GiveUpOrderly(c, Park(c, s, e)); }
      } else {
        AppendOrderly(c, s, e);
      }
    }
  }

  lemma RecycleOrderly(c: Config, s: State)
    requires Orderly(c, s) && |s.queue| > 0
    ensures Orderly(c, Recycle(s))
  {
    RecycleOwned(s);
    var t := Recycle(s);
    assert AllIds(|t.blocks|, t.queue) && AllIds(|t.blocks|, t.free);
  }

  lemma StartOrderly(c: Config, s: State)
    requires Orderly(c, s) && Enabled(c, s, DoPop)
    ensures Orderly(c, StartFlush(s))
  {
    QueueFront(s);
    var t := StartFlush(s);
    assert AllIds(|t.blocks|, t.queue);
  }

  lemma PwriteOrderly(c: Config, s: State, n: nat)
    requires Orderly(c, s) && Enabled(c, s, DoPwrite(n))
    ensures Orderly(c, Pwrite(c, s, n))
  {
    PwriteKeepsShape(c, s, n);
  }

  lemma ReturnOrderly(c: Config, s: State)
    requires Orderly(c, s) && Enabled(c, s, DoReturn)
    ensures Orderly(c, Return(s))
  {
    ReturnOwned(s);
    var t := Return(s);
    assert AllIds(|t.blocks|, t.free);
  }

  lemma HandOverOrderly(c: Config, s: State)
    requires Orderly(c, s) && s.waiting.None? && s.active.Some? && !s.exited
    ensures Orderly(c, HandOver(s))
  {
    HandOverOwned(s);
    var t := HandOver(s);
    assert AllIds(|t.blocks|, t.queue);
  }

  lemma CloseOrderly(c: Config, s: State)
    requires Orderly(c, s) && s.waiting.None? && !s.closing
    ensures Orderly(c, CloseEnqueue(c, s))
  {
    if s.blocks[s.active.value].pos > 0 {
      HandOverOrderly(c, s);
      assert CloseEnqueue(c, s) == HandOver(s);
    } else {
      FlagsOrderly(c, s, true, s.running, s.left, s.exited);
      assert CloseEnqueue(c, s) == s.(closing := true, running := s.running, left := s.left, exited := s.exited);
    }
  }

  lemma FlagsOrderly(c: Config, s: State, closing: bool, running: bool, left: bool, exited: bool)
    requires Orderly(c, s) && (s.closing ==> closing) && (!running ==> closing)
    requires (left ==> closing && !running && s.flushing.None?) && (exited ==> left && s.queue == [])
    ensures Orderly(c, s.(closing := closing, running := running, left := left, exited := exited))
  {
  }

  lemma ReaderOrderly(c: Config, s: State, misses: map<nat, nat>)
    requires Orderly(c, s)
    ensures Orderly(c, s.(misses := misses))
  {
  }

  lemma SegmentsOrderly(c: Config, s: State, segs: seq<SegmentFile>, dead: set<nat>)
    requires Orderly(c, s) && |segs| == |s.segs|
    ensures Orderly(c, s.(segs := segs, dead := dead))
  {
    var t := s.(segs := segs, dead := dead);
    assert BlockShapes(c, |t.segs|, t.blocks);
  }

  lemma FlusherOrderly(c: Config, s: State, ev: Event)
    requires Orderly(c, s) && Enabled(c, s, ev) && (ev.DoPop? || ev.DoPwrite? || ev.DoReturn?)
    ensures Orderly(c, Apply(c, s, ev))
  {
    match ev
    case DoPop => if s.blocks[s.queue[0]].pos == 0 { RecycleOrderly(c, s); } else { StartOrderly(c, s); }
    case DoPwrite(n) => PwriteOrderly(c, s, n);
    case DoReturn => ReturnOrderly(c, s);
  }

  lemma OtherOrderly(c: Config, s: State, ev: Event)
    requires Orderly(c, s) && Enabled(c, s, ev)
    requires ev.DoCheckPending? || ev.DoDiskRead? || ev.DoCloseStop? || ev.DoLeave? || ev.DoExit? || ev.DoRewriteHeaders? || ev.DoMarkDead?
    ensures Orderly(c, Apply(c, s, ev))
  {
    match ev
    case DoCheckPending(r, i) => ReaderOrderly(c, s, s.misses[r := i]);
    case DoDiskRead(r) => ReaderOrderly(c, s, s.misses - {r});
    case DoCloseStop => FlagsOrderly(c, s, s.closing, false, s.left, s.exited);
    case DoLeave => FlagsOrderly(c, s, s.closing, s.running, true, s.exited);
    case DoExit => FlagsOrderly(c, s, s.closing, s.running, s.left, true);
    case DoRewriteHeaders(h) => SegmentsOrderly(c, s, RewriteHeaders(s, h).segs, s.dead);
    case DoMarkDead(i) => SegmentsOrderly(c, s, MarkDead(s, i).segs, MarkDead(s, i).dead);
  }

  /** A close that finds a parked writer, or a block that the flusher takes in its drain loop. */
  predicate Displaces(s: State, ev: Event) {
    (ev.DoCloseEnqueue? && s.waiting.Some?) || ev.DoDrainPop?
  }

  lemma StepKept(c: Config, s: State, ev: Event)
    requires Orderly(c, s) && Enabled(c, s, ev) && !Displaces(s, ev)
    ensures Orderly(c, Apply(c, s, ev))
  {
    if ev.DoWrite? || ev.DoResume? {
      WriterOrderly(c, s, ev);
    } else if ev.DoPop? || ev.DoPwrite? || ev.DoReturn? {
      FlusherOrderly(c, s, ev);
    } else if ev.DoCloseEnqueue? {
      CloseOrderly(c, s);
    } else {
      OtherOrderly(c, s, ev);
    }
  }

  lemma StepDisplaces(c: Config, s: State, ev: Event)
    requires Orderly(c, s) && Enabled(c, s, ev) && Displaces(s, ev)
    ensures !Conserved(Apply(c, s, ev))
  {
    if ev.DoDrainPop? {
      DrainPopDrops(c, s);
    } else {
      ParkedCloseDoubles(c, s);
    }
  }

  lemma StepOrderly(c: Config, s: State, ev: Event)
    requires Orderly(c, s) && Enabled(c, s, ev)
    ensures Conserved(Apply(c, s, ev)) <==> !Displaces(s, ev)
    ensures !Displaces(s, ev) ==> Orderly(c, Apply(c, s, ev))
  {
    if Displaces(s, ev) { StepDisplaces(c, s, ev); } else { StepKept(c, s, ev); }
  }

  lemma DidOrderly(c: Config, s: State, ev: Event, t: State)
    requires Orderly(c, s) && Did(c, s, ev, t)
    ensures Conserved(t) <==> !Displaces(s, ev)
    ensures !Displaces(s, ev) ==> Orderly(c, t)
  {
    StepOrderly(c, s, ev);
  }

  predicate DisplacedAt(trace: seq<State>, evs: seq<Event>, i: nat) {
    i < |evs| && i < |trace| && Displaces(trace[i], evs[i])
  }

  /** Close never finds a parked writer, and the flusher never finds a block to drain. */
  predicate Undisplaced(trace: seq<State>, evs: seq<Event>) {
    forall i: nat :: i < |evs| ==> !DisplacedAt(trace, evs, i)
  }

  lemma {:induction false} HistoryOrderly(c: Config, trace: seq<State>, evs: seq<Event>, i: nat)
    requires IsHistory(c, trace, evs) && i < |trace| && forall j: nat :: j < i ==> !DisplacedAt(trace, evs, j)
    ensures Orderly(c, trace[i])
  {
    if i > 0 {
      var j := i - 1;
      HistoryOrderly(c, trace, evs, j);
      assert Did(c, trace[j], evs[j], trace[j + 1]) && !DisplacedAt(trace, evs, j);
      DidOrderly(c, trace[j], evs[j], trace[j + 1]);
    }
  }

  ghost predicate AlwaysOnePlace(trace: seq<State>) {
    forall i :: 0 <= i < |trace| ==> OnePlaceEach(trace[i])
  }

  /** Throughout a history each block of the pool is in exactly one of: appended to, queued, being
      flushed, free, if and only if close never finds a parked writer and the flusher never finds
      a block to drain after its main loop. In particular no block is appended to while it is
      being flushed. */
  lemma BlockConservation(c: Config, trace: seq<State>, evs: seq<Event>)
    requires IsHistory(c, trace, evs)
    ensures AlwaysOnePlace(trace) <==> Undisplaced(trace, evs)
  {
    if Undisplaced(trace, evs) {
      forall i | 0 <= i < |trace| ensures OnePlaceEach(trace[i]) {
        HistoryOrderly(c, trace, evs, i);
        ConservedIsOnePlace(c, trace[i]);
      }
    } else {
      var i: nat :| i < |evs| && DisplacedAt(trace, evs, i);
      DisplacedShows(c, trace, evs, i);
    }
  }

  /** The first such step leaves a block in two places, or in none. */
  lemma {:induction false} DisplacedShows(c: Config, trace: seq<State>, evs: seq<Event>, i: nat)
    requires IsHistory(c, trace, evs) && DisplacedAt(trace, evs, i)
    ensures !AlwaysOnePlace(trace)
  {
    if j: nat :| j < i && DisplacedAt(trace, evs, j) {
      DisplacedShows(c, trace, evs, j);
    } else {
      HistoryOrderly(c, trace, evs, i);
      assert Did(c, trace[i], evs[i], trace[i + 1]);
      DisplacedStep(c, trace[i], evs[i], trace[i + 1]);
    }
  }

  lemma DisplacedStep(c: Config, s: State, ev: Event, t: State)
    requires Orderly(c, s) && Did(c, s, ev, t) && Displaces(s, ev)
    ensures !OnePlaceEach(t)
  {
    DidOrderly(c, s, ev, t);
    if ev.DoDrainPop? {
      DrainPopShape(c, s);
    } else {
      CloseKeepsShape(c, s);
    }
    ConservedIsOnePlace(c, t);
  }

  lemma CloseKeepsShape(c: Config, s: State)
    requires Shape(c, s)
    ensures Shape(c, CloseEnqueue(c, s))
  {
  }

  lemma DrainPopShape(c: Config, s: State)
    requires Shape(c, s) && |s.queue| > 0
    ensures Shape(c, DrainPop(s))
  {
    assert AllIds(|s.blocks|, DrainPop(s).queue);
  }
}
