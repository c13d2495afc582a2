/** A new process over the files of an old one, closed or dead. */
module BlobReopen {
  import opened Common
  import opened Segment
  import opened BlobProtocol
  import opened BlobInvariant
  import opened BlobWriter
  import opened BlobFlusher
  import opened BlobTheorems
  import opened BlobOrder
  import opened BlobCrash
  import opened BlobSync

  // ---- Headers ----

  predicate HeadersWritten(segs: seq<SegmentFile>) {
    forall k :: 0 <= k < |segs| ==> SEGMENT_HEADER_SIZE <= |segs[k].file|
  }

  lemma NewSegmentHeaders(c: Config, s: State)
    requires HeadersWritten(s.segs) && GoodConfig(c) && |s.segs| >= 1
    ensures HeadersWritten(NewSegment(c, s).segs) && HeadersWritten(RoomForBlock(c, s).segs)
  {
  }

  lemma DirectHeaders(c: Config, s: State, e: Entry)
    requires Shape(c, s) && HeadersWritten(s.segs)
    ensures HeadersWritten(WriteDirect(c, s, e).segs)
  {
    NewSegmentHeaders(c, s);
  }

  lemma RotateHeaders(c: Config, s: State, e: Entry)
    requires Shape(c, s) && CanWrite(s, e) && !Oversized(c, e) && Rotates(c, s, e) && HeadersWritten(s.segs)
    ensures HeadersWritten(Write(c, s, e).segs)
  {
    ParkEnqueues(c, s, e);
    var p := Park(c, s, e);
    if |p.free| > 0 { ResumeHeaders(c, p, e); }
  }

  lemma AppendHeaders(c: Config, s: State, e: Entry)
    requires Shape(c, s) && CanWrite(s, e) && !Oversized(c, e) && !Rotates(c, s, e) && HeadersWritten(s.segs)
    ensures HeadersWritten(Append(c, s, e).segs)
  {
  }

  lemma WriteHeaders(c: Config, s: State, e: Entry)
    requires Shape(c, s) && CanWrite(s, e) && HeadersWritten(s.segs)
    ensures HeadersWritten(Write(c, s, e).segs)
  {
    if Oversized(c, e) {
      DirectHeaders(c, s, e);
    } else if Rotates(c, s, e) {
      RotateHeaders(c, s, e);
    } else {
      AppendHeaders(c, s, e);
    }
  }

  lemma ResumeHeaders(c: Config, s: State, e: Entry)
    requires Shape(c, s) && |s.free| > 0 && !Oversized(c, e) && HeadersWritten(s.segs)
    ensures HeadersWritten(ResumeWith(c, s, e).segs)
  {
    NewSegmentHeaders(c, s);
    TakeEmpty(c, s);
  }

  lemma StepHeaders(c: Config, s: State, ev: Event)
    requires Enabled(c, s, ev) && HeadersWritten(s.segs)
    ensures HeadersWritten(Apply(c, s, ev).segs)
  {
    match ev
    case DoWrite(e) => if s.active.Some? { WriteHeaders(c, s, e); }
    case DoResume => if |s.free| > 0 { ResumeHeaders(c, s, s.waiting.value); }
    case DoPwrite(_) => assert BlockShape(c, |s.segs|, s.blocks[s.flushing.value]);
    case DoDrainWrite(_) => assert BlockShape(c, |s.segs|, s.blocks[s.draining.value]);
    case _ =>
  }

  lemma DidHeaders(c: Config, s: State, ev: Event, t: State)
    requires Did(c, s, ev, t) && HeadersWritten(s.segs)
    ensures HeadersWritten(t.segs)
  {
    StepHeaders(c, s, ev);
  }

  /** A segment starts with its header, and no step takes it away: every file of every state of a
      history has its header if those it started from have. */
  lemma {:induction false} HistoryHeaders(c: Config, trace: seq<State>, evs: seq<Event>, i: nat)
    requires IsHistory(c, trace, evs) && i < |trace| && HeadersWritten(trace[0].segs)
    ensures HeadersWritten(trace[i].segs)
  {
    if i > 0 {
      var j := i - 1;
      HistoryHeaders(c, trace, evs, j);
      assert Did(c, trace[j], evs[j], trace[j + 1]);
      DidHeaders(c, trace[j], evs[j], trace[j + 1]);
    }
  }

  lemma OpenHeaders(c: Config, segs: seq<SegmentFile>, log: seq<Rec>, dead: set<nat>)
    requires GoodConfig(c) && HeadersWritten(segs)
    ensures HeadersWritten(Open(c, segs, log, dead).segs)
  {
  }

  /** The last act of close writes every header block, and nothing behind it. */
  lemma HeadersRewritten(s: State, header: Bytes, k: nat)
    requires |header| == SEGMENT_HEADER_SIZE && k < |s.segs|
    ensures var t := RewriteHeaders(s, header);
            && |t.segs| == |s.segs| && t.segs[k] == s.segs[k].(file := t.segs[k].file)
            && t.segs[k].file[..4096] == header
            && (|s.segs[k].file| >= 4096 ==> t.segs[k].file[4096..] == s.segs[k].file[4096..])
  {
    var f, g := s.segs[k].file, RewriteHeaders(s, header).segs[k].file;
    assert g == WriteAt(f, 0, header) && g[0..0 + |header|] == header;
    if |f| >= 4096 {
      assert |g| == |f| && forall i :: 4096 <= i < |f| ==> g[i] == f[i];
    }
  }

  // ---- After a close ----

  /** With everything on disk each file ends exactly where its entries do. */
  lemma FilesEndExactly(c: Config, s: State, k: nat)
    requires Good(c, s) && Plain(s) && s.exited && !LeftOver(s) && HeadersWritten(s.segs) && k < |s.segs|
    ensures |s.segs[k].file| == s.segs[k].writeOffset
  {
    ExitedOnDisk(c, s);
    if s.segs[k].writeOffset > SEGMENT_HEADER_SIZE {
      var j := LastInSegment(s, k);
      assert RecOk(c, |s.segs|, s.log[j]) && OnDisk(s.segs, s.log[j]);
    }
  }

  lemma ReopenAccounted(c: Config, s: State)
    requires Accounted(s.segs, s.log, s.dead) && RecsOk(c, |s.segs|, s.log)
    requires forall k :: 0 <= k < |s.segs| ==> |s.segs[k].file| == s.segs[k].writeOffset
    ensures var u := Reopened(s.segs);
            Accounted(u + [SegmentFile(SEGMENT_HEADER_SIZE, 0, 0, c.header)], s.log, s.dead)
  {
    var u := Reopened(s.segs);
    assert Accounted(u, s.log, s.dead);
    assert RecsOk(c, |u|, s.log);
    NewSegmentAccounted(c, u, s.log, s.dead);
  }

  lemma OpenInOrder(c: Config, segs: seq<SegmentFile>, log: seq<Rec>, dead: set<nat>)
    requires GoodConfig(c) && forall k :: 0 <= k < |segs| ==> |segs[k].file| <= segs[k].writeOffset
    ensures InOrder(Open(c, segs, log, dead))
  {
    var s := Open(c, segs, log, dead);
    var n := c.poolSize - 1;
    assert Chain(s) == [n];
    forall b | 0 <= b < |s.blocks| ensures s.blocks[b].pos == 0 && s.blocks[b].segId < |s.segs| && BlockEnd(s.blocks[b]) <= s.segs[s.blocks[b].segId].writeOffset {
    }
  }

  /** A store opened after a close starts a plain run: so what is proved of such runs (crash
      safety, exact counts, the scan) holds of the second process as of the first. */
  lemma ReopenPlain(c: Config, s: State)
    requires Good(c, s) && Plain(s) && s.exited && !LeftOver(s) && HeadersWritten(s.segs)
    ensures var u := Open(c, Reopened(s.segs), s.log, s.dead); Good(c, u) && Plain(u) && u.log == s.log && u.dead == s.dead
  {
    ReopenInOrder(c, s);
    CleanReopen(c, s, s.dead);
  }

  lemma ReopenInOrder(c: Config, s: State)
    requires Good(c, s) && Plain(s) && s.exited && !LeftOver(s) && HeadersWritten(s.segs)
    ensures Plain(Open(c, Reopened(s.segs), s.log, s.dead))
  {
    forall k | 0 <= k < |s.segs| ensures |s.segs[k].file| == s.segs[k].writeOffset {
      FilesEndExactly(c, s, k);
    }
    OpensPlain(c, s);
  }

  lemma OpensPlain(c: Config, s: State)
    requires GoodConfig(c) && Plain(s) && RecsOk(c, |s.segs|, s.log)
    requires forall k :: 0 <= k < |s.segs| ==> |s.segs[k].file| == s.segs[k].writeOffset
    ensures Plain(Open(c, Reopened(s.segs), s.log, s.dead))
  {
    ReopenAccounted(c, s);
    OpenInOrder(c, Reopened(s.segs), s.log, s.dead);
  }

  // ---- After a death ----

  /** The records that are wholly on disk. */
  function Survivors(segs: seq<SegmentFile>, log: seq<Rec>): seq<Rec> {
    if log == [] then []
    else
      var n := |log| - 1;
      Survivors(segs, log[..n]) + (if OnDisk(segs, log[n]) then [log[n]] else [])
  }

  lemma {:induction false} SurvivorIs(segs: seq<SegmentFile>, log: seq<Rec>, i: nat) returns (j: nat)
    requires i < |Survivors(segs, log)|
    ensures j < |log| && Survivors(segs, log)[i] == log[j] && OnDisk(segs, log[j])
  {
    var n := |log| - 1;
    if i < |Survivors(segs, log[..n])| {
      j := SurvivorIs(segs, log[..n], i);
    } else {
      j := n;
    }
  }

  lemma {:induction false} SurvivorsApart(segs: seq<SegmentFile>, log: seq<Rec>)
    requires Disjoint(log)
    ensures Disjoint(Survivors(segs, log))
  {
    if log != [] {
      var n := |log| - 1;
      var front, rest := log[..n], Survivors(segs, log[..n]);
      assert Disjoint(front);
      SurvivorsApart(segs, front);
      if OnDisk(segs, log[n]) {
        forall i | 0 <= i < |rest| ensures Apart(rest[i], log[n]) {
          var j := SurvivorIs(segs, front, i);
          assert Apart(log[j], log[n]);
        }
      }
    }
  }

  /** The files as a new process finds them: a segment ends where its file does, and has the counts
      of whatever header was written last, which after a death may be as old as the segment. */
  predicate Found(segs: seq<SegmentFile>, files: seq<SegmentFile>) {
    |files| == |segs| && forall k :: 0 <= k < |segs| ==> files[k].file == segs[k].file && files[k].writeOffset == |segs[k].file|
  }

  /** A process that opens the files of one that died, with whatever counts, starts in the invariant
      with the records that had reached the disk. */
  lemma CrashReopens(c: Config, s: State, segs: seq<SegmentFile>, dead: set<nat>)
    requires Good(c, s) && HeadersWritten(s.segs) && Found(s.segs, segs)
    ensures Good(c, Open(c, segs, Survivors(s.segs, s.log), dead))
  {
    var log := Survivors(s.segs, s.log);
    SurvivorsApart(s.segs, s.log);
    forall i | 0 <= i < |log|
      ensures RecOk(c, |segs|, log[i]) && Storable(|log[i].entry.blob|) && IsImageOf(log[i].image, log[i].entry)
      ensures OnDisk(segs, log[i]) && Aligned(log[i].loc.offset)
    {
      var j := SurvivorIs(s.segs, s.log, i);
      assert RecOk(c, |s.segs|, s.log[j]);
    }
    OpenKeeps(c, segs, log, dead);
  }

  /** Nothing is pending in a store just opened: every read goes to the files. */
  lemma OpenReads(c: Config, segs: seq<SegmentFile>, log: seq<Rec>, dead: set<nat>, loc: Location)
    requires GoodConfig(c)
    ensures var u := Open(c, segs, log, dead); Shape(c, u) && FindPending(c, u, loc) == None
  {
    OpenShape(c, segs, log, dead);
    var u := Open(c, segs, log, dead);
    assert forall b :: 0 <= b < |u.blocks| ==> u.blocks[b].pos == 0;
  }

  /** After a death in any state of a plain run, the next process reads at every location ever
      returned the entry, if it had reached the disk, and a miss otherwise. */
  lemma ReadsAfterCrash(c: Config, trace: seq<State>, evs: seq<Event>, i: nat, k: nat, bufLen: nat,
                        segs: seq<SegmentFile>, log: seq<Rec>, dead: set<nat>)
    requires IsPlainRun(c, trace, evs) && i < |trace| && k < |trace[i].log| && Found(trace[i].segs, segs)
    ensures var s, rec := trace[i], trace[i].log[k];
            var u := Open(c, segs, log, dead);
            && c.poolSize >= 1 && CanRead(c, u, rec.loc)
            && ReadOutcome(c, u, rec.loc, bufLen)
               == if OnDisk(s.segs, rec) then ExpectedOnDisk(rec.entry.blob, bufLen) else ReadResult(NotFound, [])
  {
    CrashSafety(c, trace, evs, i, k, bufLen);
    PlainRunKeeps(c, trace, evs, i);
    var s, rec := trace[i], trace[i].log[k];
    OpenReads(c, segs, log, dead, rec.loc);
  }
}
