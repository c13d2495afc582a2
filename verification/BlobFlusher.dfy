/** The flusher's, the readers' and the closing steps keep the invariant. */
module BlobFlusher {
  import opened Common
  import opened Segment
  import opened BlobProtocol
  import opened BlobInvariant

  // ---- Writing a block over its own range ----

  /** Rewriting bytes a file already has from the same buffer changes nothing that both hold. */
  lemma Rewrite(file: Bytes, base: nat, buf: Bytes, from: nat, to: nat, at: nat, kept: Bytes)
    requires from <= to <= |buf| && base <= at
    requires Holds(file, at, kept) && Holds(buf, at - base, kept)
    ensures Holds(WriteAt(file, base + from, buf[from..to]), at, kept)
  {
    var data := buf[from..to];
    var r := WriteAt(file, base + from, data);
    forall j | 0 <= j < |kept| ensures r[at + j] == kept[j] {
      var p := at + j;
      assert kept[j] == file[at..at + |kept|][j] == file[p];
      assert kept[j] == buf[at - base..at - base + |kept|][j] == buf[p - base];
      if base + from <= p < base + to {
        assert r[p] == r[base + from..base + from + |data|][p - base - from] == data[p - base - from];
      }
    }
    assert r[at..at + |kept|] == kept;
  }

  lemma ExtendPrefix(file: Bytes, base: nat, buf: Bytes, from: nat, to: nat)
    requires from <= to <= |buf|
    requires from > 0 ==> Holds(file, base, buf[..from])
    ensures Holds(WriteAt(file, base + from, buf[from..to]), base, buf[..to])
  {
    var data := buf[from..to];
    var r := WriteAt(file, base + from, data);
    forall j | 0 <= j < to ensures r[base + j] == buf[j] {
      if j < from {
        assert buf[j] == buf[..from][j] == file[base..base + from][j] == file[base + j];
      } else {
        assert r[base + j] == r[base + from..base + from + |data|][j - from] == data[j - from];
      }
    }
    assert r[base..base + to] == buf[..to];
  }

  predicate CanPwrite(c: Config, s: State, n: nat) {
    && Shape(c, s) && s.flushing.Some?
    && s.flushed + n <= s.blocks[s.flushing.value].pos
  }

  lemma PwriteBeside(file: Bytes, b: Block, from: nat, n: nat, at: nat, kept: Bytes)
    requires from + n <= b.pos <= |b.buf| && Holds(file, at, kept)
    requires at + |kept| <= b.segOff || BlockEnd(b) <= at
    ensures Holds(PwriteFile(file, b, from, n), at, kept)
  {
    var data := b.buf[from..from + n];
    WriteElsewhere(file, b.segOff + from, data, at, kept);
  }

  lemma PwriteHolds(file: Bytes, b: Block, from: nat, n: nat, rec: Rec)
    requires from + n <= b.pos <= |b.buf| && |rec.image| == rec.loc.diskSize
    requires rec.loc.segId == b.segId && BlockHolds(b, rec) && Holds(file, rec.loc.offset, rec.image)
    ensures Holds(PwriteFile(file, b, from, n), rec.loc.offset, rec.image)
  {
    if Clear(b, rec) {
      PwriteBeside(file, b, from, n, rec.loc.offset, rec.image);
    } else {
      Rewrite(file, b.segOff, b.buf, from, from + n, rec.loc.offset, rec.image);
    }
  }

  lemma PwriteOnDisk(c: Config, s: State, n: nat, rec: Rec)
    requires CanPwrite(c, s, n) && OnDisk(s.segs, rec) && BlockHolds(s.blocks[s.flushing.value], rec)
    requires |rec.image| == rec.loc.diskSize
    ensures OnDisk(Pwrite(c, s, n).segs, rec)
  {
    var b := s.blocks[s.flushing.value];
    assert BlockShape(c, |s.segs|, b);
    if rec.loc.segId == b.segId {
      PwriteHolds(s.segs[b.segId].file, b, s.flushed, n, rec);
    }
  }

  lemma PwriteServed(c: Config, s: State, n: nat)
    requires CanPwrite(c, s, n) && RecsOk(c, |s.segs|, s.log) && BlocksOk(s.blocks, s.log) && Served(s) && MissesOk(s.misses, s.segs, s.log)
    ensures Served(Pwrite(c, s, n)) && MissesOk(Pwrite(c, s, n).misses, Pwrite(c, s, n).segs, Pwrite(c, s, n).log)
  {
    var t := Pwrite(c, s, n);
    forall i | 0 <= i < |t.log|
      ensures OnDisk(t.segs, t.log[i]) || Pending(t, t.log[i])
      ensures OnDisk(s.segs, s.log[i]) ==> OnDisk(t.segs, t.log[i])
    {
      assert BlockHolds(s.blocks[s.flushing.value], s.log[i]) && RecOk(c, |s.segs|, s.log[i]);
      if OnDisk(s.segs, s.log[i]) {
        PwriteOnDisk(c, s, n, s.log[i]);
      } else {
        var b: nat :| b < |s.blocks| && DirtyIn(s.queue, s.flushing, Writing(s), b) && InBlock(s.blocks[b], s.log[i]);
        assert DirtyIn(t.queue, t.flushing, Writing(t), b) && InBlock(t.blocks[b], t.log[i]);
      }
    }
  }

  lemma PwriteFlush(c: Config, s: State, n: nat)
    requires CanPwrite(c, s, n) && FlushOk(s)
    ensures FlushOk(Pwrite(c, s, n))
  {
    var b := s.blocks[s.flushing.value];
    assert BlockShape(c, |s.segs|, b);
    PwriteFlushed(s.segs[b.segId].file, b, s.flushed, n);
  }

  lemma PwriteFlushed(file: Bytes, b: Block, from: nat, n: nat)
    requires from + n <= b.pos <= |b.buf|
    requires from > 0 ==> Holds(file, b.segOff, b.buf[..from])
    ensures Holds(PwriteFile(file, b, from, n), b.segOff, b.buf[..from + n])
  {
    ExtendPrefix(file, b.segOff, b.buf, from, from + n);
  }

  lemma PwriteShape(c: Config, s: State, n: nat)
    requires CanPwrite(c, s, n) && CurrentEnds(s.blocks, s.segs, s.log) && PastHeader(s.segs) && FrontierOk(c, s)
    ensures var t := Pwrite(c, s, n); Shape(c, t) && CurrentEnds(t.blocks, t.segs, t.log) && PastHeader(t.segs) && FrontierOk(c, t)
  {
    var t := Pwrite(c, s, n);
    assert BlockShape(c, |s.segs|, s.blocks[s.flushing.value]);
    forall k | 0 <= k < |t.segs| ensures t.segs[k].writeOffset == s.segs[k].writeOffset {
    }
    if s.active.Some? {
      assert Overtaken(t) == Overtaken(s);
      assert Overtaken(s) ==> FrontierTaken(t.blocks[s.active.value], t.log);
    }
  }

  lemma PwriteKeeps(c: Config, s: State, n: nat)
    requires Inv(c, s) && CanPwrite(c, s, n)
    ensures Inv(c, Pwrite(c, s, n))
  {
    PwriteServed(c, s, n);
    PwriteFlush(c, s, n);
    PwriteShape(c, s, n);
  }

  // ---- Taking a block from the queue and returning it ----

  lemma QueueFront(s: State)
    requires |s.queue| > 0
    ensures multiset(s.queue) == multiset{s.queue[0]} + multiset(s.queue[1..])
  {
    assert s.queue == [s.queue[0]] + s.queue[1..];
  }

  /** From queue to flusher without a moment in which readers cannot see the block. */
  lemma StartServed(s: State)
    requires |s.queue| > 0 && s.queue[0] < |s.blocks| && s.flushing.None? && Served(s)
    ensures Served(StartFlush(s))
  {
    var t := StartFlush(s);
    forall i | 0 <= i < |t.log| ensures OnDisk(t.segs, t.log[i]) || Pending(t, t.log[i]) {
      if !OnDisk(s.segs, s.log[i]) {
        var b: nat :| b < |s.blocks| && DirtyIn(s.queue, s.flushing, Writing(s), b) && InBlock(s.blocks[b], s.log[i]);
        assert b in s.queue ==> b == s.queue[0] || b in s.queue[1..];
        assert DirtyIn(t.queue, t.flushing, Writing(t), b) && InBlock(t.blocks[b], t.log[i]);
      }
    }
  }

  lemma StartOwned(s: State)
    requires |s.queue| > 0 && s.queue[0] < |s.blocks| && s.flushing.None? && Conserved(s)
    ensures Conserved(StartFlush(s))
  {
    QueueFront(s);
  }

  lemma StartRest(c: Config, s: State)
    requires Shape(c, s) && Phases(c, s) && Enabled(c, s, DoPop) && CurrentEnds(s.blocks, s.segs, s.log) && FrontierOk(c, s)
    ensures var t := StartFlush(s);
            Shape(c, t) && Phases(c, t) && FlushOk(t) && CurrentEnds(t.blocks, t.segs, t.log) && FrontierOk(c, t)
  {
    var t := StartFlush(s);
    assert BlockShape(c, |s.segs|, s.blocks[s.queue[0]]);
    assert AllIds(|t.blocks|, t.queue);
  }

  lemma StartKeeps(c: Config, s: State)
    requires Inv(c, s) && Enabled(c, s, DoPop)
    ensures Inv(c, StartFlush(s))
  {
    StartServed(s);
    StartOwned(s);
    StartRest(c, s);
  }

  lemma RecycleServed(c: Config, s: State)
    requires |s.queue| > 0 && s.queue[0] < |s.blocks| && s.blocks[s.queue[0]].pos == 0
    requires RecsOk(c, |s.segs|, s.log) && Served(s)
    ensures Served(Recycle(s))
  {
    var t := Recycle(s);
    forall i | 0 <= i < |t.log| ensures OnDisk(t.segs, t.log[i]) || Pending(t, t.log[i]) {
      assert RecOk(c, |s.segs|, s.log[i]);
      if !OnDisk(s.segs, s.log[i]) {
        var b: nat :| b < |s.blocks| && DirtyIn(s.queue, s.flushing, Writing(s), b) && InBlock(s.blocks[b], s.log[i]);
        assert b in s.queue ==> b == s.queue[0] || b in s.queue[1..];
        assert DirtyIn(t.queue, t.flushing, Writing(t), b) && InBlock(t.blocks[b], t.log[i]);
      }
    }
  }

  lemma RecycleOwned(s: State)
    requires |s.queue| > 0 && Conserved(s)
    ensures Conserved(Recycle(s))
  {
    QueueFront(s);
    assert multiset(Recycle(s).free) == multiset(s.free) + multiset{s.queue[0]};
  }

  lemma RecycleRest(c: Config, s: State)
    requires Shape(c, s) && Phases(c, s) && Enabled(c, s, DoPop) && FlushOk(s) && CurrentEnds(s.blocks, s.segs, s.log) && FrontierOk(c, s)
    ensures var t := Recycle(s);
            Shape(c, t) && Phases(c, t) && FlushOk(t) && CurrentEnds(t.blocks, t.segs, t.log) && FrontierOk(c, t)
  {
    var t := Recycle(s);
    assert AllIds(|t.blocks|, t.queue) && AllIds(|t.blocks|, t.free);
  }

  lemma RecycleKeeps(c: Config, s: State)
    requires Inv(c, s) && Enabled(c, s, DoPop) && s.blocks[s.queue[0]].pos == 0
    ensures Inv(c, Recycle(s))
  {
    RecycleServed(c, s);
    RecycleOwned(s);
    RecycleRest(c, s);
  }

  /** A block goes back to the pool only when all of it is on disk. */
  lemma ReturnServed(c: Config, s: State)
    requires Shape(c, s) && s.flushing.Some? && s.flushed == s.blocks[s.flushing.value].pos
    requires RecsOk(c, |s.segs|, s.log) && BlocksOk(s.blocks, s.log) && Served(s) && FlushOk(s)
    ensures Served(Return(s))
  {
    var t := Return(s);
    var f := s.blocks[s.flushing.value];
    forall i | 0 <= i < |t.log| ensures OnDisk(t.segs, t.log[i]) || Pending(t, t.log[i]) {
      var rec := s.log[i];
      assert RecOk(c, |s.segs|, rec) && BlockHolds(f, rec);
      if InBlock(f, rec) {
        FlushedOnDisk(c, s, rec);
      }
      if !OnDisk(s.segs, rec) {
        var b: nat :| b < |s.blocks| && DirtyIn(s.queue, s.flushing, Writing(s), b) && InBlock(s.blocks[b], rec);
        assert DirtyIn(t.queue, t.flushing, Writing(t), b) && InBlock(t.blocks[b], t.log[i]);
      }
    }
  }

  lemma FlushedOnDisk(c: Config, s: State, rec: Rec)
    requires Shape(c, s) && s.flushing.Some? && s.flushed == s.blocks[s.flushing.value].pos && FlushOk(s)
    requires RecOk(c, |s.segs|, rec) && InBlock(s.blocks[s.flushing.value], rec)
    requires BlockHolds(s.blocks[s.flushing.value], rec)
    ensures OnDisk(s.segs, rec)
  {
    var f := s.blocks[s.flushing.value];
    var at := rec.loc.offset - f.segOff;
    assert f.buf[..f.pos][at..at + |rec.image|] == f.buf[at..at + |rec.image|];
    HoldsPart(s.segs[f.segId].file, f.segOff, f.buf[..f.pos], at, rec.image);
  }

  lemma ReturnOwned(s: State)
    requires s.flushing.Some? && Conserved(s)
    ensures Conserved(Return(s))
  {
    assert multiset(Return(s).free) == multiset(s.free) + multiset{s.flushing.value};
  }

  lemma ReturnRest(c: Config, s: State)
    requires Shape(c, s) && s.flushing.Some? && Phases(c, s) && CurrentEnds(s.blocks, s.segs, s.log) && FrontierOk(c, s)
    ensures var t := Return(s); Shape(c, t) && Phases(c, t) && CurrentEnds(t.blocks, t.segs, t.log) && FrontierOk(c, t)
  {
  }

  lemma ReturnKeeps(c: Config, s: State)
    requires Inv(c, s) && s.flushing.Some? && s.flushed == s.blocks[s.flushing.value].pos
    ensures Inv(c, Return(s))
  {
    ReturnOwned(s);
    ReturnServed(c, s);
    ReturnRest(c, s);
  }

  // ---- Readers ----

  /** A location in no pending block is wholly on disk. */
  lemma MissMeansOnDisk(c: Config, s: State, i: nat)
    requires Inv(c, s) && i < |s.log| && FindPending(c, s, s.log[i].loc).None?
    ensures OnDisk(s.segs, s.log[i])
  {
    assert RecOk(c, |s.segs|, s.log[i]);
  }

  lemma CheckKeeps(c: Config, s: State, r: nat, i: nat)
    requires Inv(c, s) && i < |s.log| && OnDisk(s.segs, s.log[i])
    ensures Inv(c, s.(misses := s.misses[r := i]))
  {
    var t := s.(misses := s.misses[r := i]);
    assert Conserved(t) && Served(t) && BlocksOk(t.blocks, t.log) && MissesOk(t.misses, t.segs, t.log);
  }

  lemma ReadKeeps(c: Config, s: State, r: nat)
    requires Inv(c, s)
    ensures Inv(c, s.(misses := s.misses - {r}))
  {
    var t := s.(misses := s.misses - {r});
    assert Conserved(t) && Served(t) && BlocksOk(t.blocks, t.log) && MissesOk(t.misses, t.segs, t.log);
  }

  // ---- Closing ----

  /** The last partly filled block joins the queue. */
  function HandOver(s: State): State
    requires s.active.Some?
  {
    s.(closing := true, queue := s.queue + [s.active.value], active := None)
  }

  lemma HandOverOwned(s: State)
    requires s.waiting.None? && s.active.Some? && Conserved(s)
    ensures Conserved(HandOver(s))
  {
    assert multiset([s.active.value]) == multiset{s.active.value};
  }

  lemma HandOverServed(s: State)
    requires s.waiting.None? && s.active.Some? && Served(s)
    ensures Served(HandOver(s))
  {
    var t := HandOver(s);
    forall i | 0 <= i < |t.log| ensures OnDisk(t.segs, t.log[i]) || Pending(t, t.log[i]) {
      if !OnDisk(s.segs, s.log[i]) {
        var b: nat :| b < |s.blocks| && DirtyIn(s.queue, s.flushing, Writing(s), b) && InBlock(s.blocks[b], s.log[i]);
        assert DirtyIn(t.queue, t.flushing, Writing(t), b) && InBlock(t.blocks[b], t.log[i]);
      }
    }
  }

  lemma HandOverKeeps(c: Config, s: State)
    requires Inv(c, s) && !s.closing && s.waiting.None? && s.active.Some?
    ensures Inv(c, HandOver(s))
  {
    HandOverOwned(s);
    HandOverServed(s);
    var t := HandOver(s);
    assert AllIds(|t.blocks|, t.queue);
    assert FlushOk(t) && FrontierOk(c, t);
  }

  lemma CloseKeeps(c: Config, s: State)
    requires Inv(c, s) && !s.closing && s.waiting.None?
    ensures Inv(c, CloseEnqueue(c, s))
  {
    if s.active.Some? && s.blocks[s.active.value].pos > 0 {
      HandOverKeeps(c, s);
      assert CloseEnqueue(c, s) == HandOver(s);
    } else {
      MarkClosing(c, s);
      assert CloseEnqueue(c, s) == s.(closing := true);
    }
  }

  lemma MarkClosing(c: Config, s: State)
    requires Inv(c, s)
    ensures Inv(c, s.(closing := true))
  {
  }

  /** Entries in an active block that nothing will flush any more. */
  predicate LeftOver(s: State) {
    Writing(s).Some? && Writing(s).value < |s.blocks| && s.blocks[Writing(s).value].pos > 0
  }

  /** Once the flusher has left, every entry ever written is on disk, unless some were written
      into an active block after it. */
  lemma ExitedOnDisk(c: Config, s: State)
    requires Inv(c, s) && s.exited && !LeftOver(s)
    ensures forall i :: 0 <= i < |s.log| ==> OnDisk(s.segs, s.log[i])
  {
    forall i | 0 <= i < |s.log| ensures OnDisk(s.segs, s.log[i]) {
      assert RecOk(c, |s.segs|, s.log[i]);
      assert forall b: nat :: b < |s.blocks| && DirtyIn(s.queue, s.flushing, Writing(s), b) ==> !InBlock(s.blocks[b], s.log[i]);
    }
  }

  lemma HeaderOnDisk(c: Config, s: State, header: Bytes, rec: Rec)
    requires OnDisk(s.segs, rec) && RecOk(c, |s.segs|, rec) && |header| == SEGMENT_HEADER_SIZE
    ensures OnDisk(RewriteHeaders(s, header).segs, rec)
  {
    WriteElsewhere(s.segs[rec.loc.segId].file, 0, header, rec.loc.offset, rec.image);
  }

  lemma HeadersServed(c: Config, s: State, header: Bytes)
    requires RecsOk(c, |s.segs|, s.log) && Served(s) && MissesOk(s.misses, s.segs, s.log) && |header| == SEGMENT_HEADER_SIZE
    ensures var t := RewriteHeaders(s, header); Served(t) && MissesOk(t.misses, t.segs, t.log)
  {
    var t := RewriteHeaders(s, header);
    forall i | 0 <= i < |t.log|
      ensures OnDisk(t.segs, t.log[i]) || Pending(t, t.log[i])
      ensures OnDisk(s.segs, s.log[i]) ==> OnDisk(t.segs, t.log[i])
    {
      assert RecOk(c, |s.segs|, s.log[i]);
      if OnDisk(s.segs, s.log[i]) {
        HeaderOnDisk(c, s, header, s.log[i]);
      } else {
        var b: nat :| b < |s.blocks| && DirtyIn(s.queue, s.flushing, Writing(s), b) && InBlock(s.blocks[b], s.log[i]);
        assert DirtyIn(t.queue, t.flushing, Writing(t), b) && InBlock(t.blocks[b], t.log[i]);
      }
    }
  }

  lemma HeadersKeep(c: Config, s: State, header: Bytes)
    requires Inv(c, s) && Enabled(c, s, DoRewriteHeaders(header))
    ensures Inv(c, RewriteHeaders(s, header))
  {
    HeadersServed(c, s, header);
    HeadersRest(c, s, header);
  }

  lemma HeadersEnds(c: Config, s: State, header: Bytes)
    requires Shape(c, s) && CurrentEnds(s.blocks, s.segs, s.log) && PastHeader(s.segs)
    ensures var t := RewriteHeaders(s, header); Shape(c, t) && CurrentEnds(t.blocks, t.segs, t.log) && PastHeader(t.segs)
    ensures var t := RewriteHeaders(s, header); forall k :: 0 <= k < |s.segs| ==> t.segs[k].writeOffset == s.segs[k].writeOffset
  {
  }

  lemma SameFrontier(c: Config, blocks: seq<Block>, segs: seq<SegmentFile>, segs': seq<SegmentFile>, log: seq<Rec>, act: nat)
    requires Frontier(c, blocks, segs, log, act) && |segs'| == |segs|
    requires segs'[blocks[act].segId].writeOffset == segs[blocks[act].segId].writeOffset
    ensures Frontier(c, blocks, segs', log, act)
  {
  }

  lemma HeadersRest(c: Config, s: State, header: Bytes)
    requires Shape(c, s) && s.flushing.None? && CurrentEnds(s.blocks, s.segs, s.log) && PastHeader(s.segs) && FrontierOk(c, s) && Conserved(s)
    ensures var t := RewriteHeaders(s, header);
            Shape(c, t) && CurrentEnds(t.blocks, t.segs, t.log) && PastHeader(t.segs) && FrontierOk(c, t) && Conserved(t) && FlushOk(t)
  {
    HeadersEnds(c, s, header);
    if s.active.Some? {
      SameFrontier(c, s.blocks, s.segs, RewriteHeaders(s, header).segs, s.log, s.active.value);
    }
  }

  // ---- Marking entries dead ----

  lemma MarkDeadOnDisk(s: State, i: nat, rec: Rec)
    requires i < |s.log| && s.log[i].loc.segId < |s.segs| && OnDisk(s.segs, rec)
    ensures OnDisk(MarkDead(s, i).segs, rec)
  {
  }

  lemma MarkDeadServed(s: State, i: nat)
    requires i < |s.log| && s.log[i].loc.segId < |s.segs| && Served(s) && MissesOk(s.misses, s.segs, s.log) && FlushOk(s)
    ensures var t := MarkDead(s, i); Served(t) && MissesOk(t.misses, t.segs, t.log) && FlushOk(t)
  {
    var t := MarkDead(s, i);
    forall j | 0 <= j < |t.log|
      ensures OnDisk(t.segs, t.log[j]) || Pending(t, t.log[j])
      ensures OnDisk(s.segs, s.log[j]) ==> OnDisk(t.segs, t.log[j])
    {
      if OnDisk(s.segs, s.log[j]) {
        MarkDeadOnDisk(s, i, s.log[j]);
      }
    }
  }

  lemma MarkDeadFrontier(c: Config, s: State, i: nat)
    requires Shape(c, s) && i < |s.log| && s.log[i].loc.segId < |s.segs|
    requires CurrentEnds(s.blocks, s.segs, s.log) && PastHeader(s.segs) && FrontierOk(c, s)
    ensures var t := MarkDead(s, i);
            Shape(c, t) && CurrentEnds(t.blocks, t.segs, t.log) && PastHeader(t.segs) && FrontierOk(c, t)
  {
    var t := MarkDead(s, i);
    assert forall k :: 0 <= k < |s.segs| ==> t.segs[k].writeOffset == s.segs[k].writeOffset;
  }

  lemma MarkDeadKeeps(c: Config, s: State, i: nat)
    requires Inv(c, s) && i < |s.log| && s.log[i].loc.segId < |s.segs|
    ensures Inv(c, MarkDead(s, i))
  {
    MarkDeadServed(s, i);
    MarkDeadFrontier(c, s, i);
  }
}
