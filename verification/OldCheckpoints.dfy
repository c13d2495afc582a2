/** A checkpoint that is older than the blob store it is read with: `v` is the engine at the time
    of the checkpoint, and the store has only been appended to since. */
module OldCheckpoints {
  import opened Common
  import opened BlobProtocol
  import opened EngineModel
  import BlobCrash
  import BlobInvariant
  import BlobReopen
  import BlobSync
  import BlobTheorems

  /** The key's record is still the one the checkpoint names, whatever was written since. */
  lemma StillRecorded(v: View, log: seq<Rec>, k: StorageKey)
    requires Coherent(v) && v.log <= log && InNvme(v.index, k)
    ensures k in v.place && k in v.contents && v.place[k] < |log|
    ensures log[v.place[k]].loc == EntryLocation(v.index[k]) && log[v.place[k]].entry.blob == v.contents[k]
  {
    CoherentNvme(v, k);
  }

  /** An older checkpoint still names correct bytes: in any later state of the store between calls,
      the location it holds for a key reads what the key stood for then. */
  lemma OldCheckpointReads(c: Config, v: View, s: State, k: StorageKey, bufLen: nat)
    requires Coherent(v) && BlobSync.Sound(c, s) && v.log <= s.log && InNvme(v.index, k)
    ensures var loc := EntryLocation(v.index[k]);
            && k in v.contents && BlobSync.CanRead(c, s, loc)
            && BlobSync.ReadOutcome(c, s, loc, bufLen)
               == if FindPending(c, s, loc).Some? then BlobTheorems.Expected(v.contents[k], bufLen)
                  else BlobTheorems.ExpectedOnDisk(v.contents[k], bufLen)
  {
    StillRecorded(v, s.log, k);
    BlobSync.SoundRead(c, s, v.place[k], bufLen);
  }

  /** The same holds in every state of a run, for readers running beside the writer and the
      flusher: the first attempt finds the bytes pending or on disk. */
  lemma OldCheckpointReadsInRun(c: Config, trace: seq<State>, evs: seq<Event>, i: nat, v: View, k: StorageKey, bufLen: nat)
    requires BlobTheorems.IsRun(c, trace, evs) && i < |trace|
    requires Coherent(v) && v.log <= trace[i].log && InNvme(v.index, k)
    ensures var s, loc := trace[i], EntryLocation(v.index[k]);
            && k in v.contents && Shape(c, s) && loc.segId < |s.segs|
            && match FindPending(c, s, loc) {
              case Some(b) =>
                var img := s.blocks[b].buf[loc.offset - s.blocks[b].segOff..];
                Readable(img) && ReadPending(img, bufLen) == BlobTheorems.Expected(v.contents[k], bufLen)
              case None =>
                var file := s.segs[loc.segId].file;
                && loc.offset + loc.diskSize <= |file| && Readable(file[loc.offset..loc.offset + loc.diskSize])
                && ReadDisk(file, loc, bufLen) == BlobTheorems.ExpectedOnDisk(v.contents[k], bufLen)
            }
  {
    var s := trace[i];
    StillRecorded(v, s.log, k);
    BlobTheorems.ReadThrough(c, trace, evs, i, v.place[k], bufLen);
    BlobTheorems.RunKeeps(c, trace, evs, i);
    assert BlobInvariant.RecOk(c, |s.segs|, s.log[v.place[k]]);
  }

  /** After a death in any state of a plain run, a process that loads any earlier checkpoint reads
      for each of its blob-store keys the bytes of then, or a miss. */
  lemma OldCheckpointAfterCrash(c: Config, trace: seq<State>, evs: seq<Event>, i: nat, v: View, k: StorageKey, bufLen: nat,
                                segs: seq<SegmentFile>, log: seq<Rec>, dead: set<nat>)
    requires BlobCrash.IsPlainRun(c, trace, evs) && i < |trace| && BlobReopen.Found(trace[i].segs, segs)
    requires Coherent(v) && v.log <= trace[i].log && InNvme(v.index, k)
    ensures c.poolSize >= 1 && k in v.contents && k in v.place && v.place[k] < |trace[i].log|
    ensures var s, loc := trace[i], EntryLocation(v.index[k]);
            var u := Open(c, segs, log, dead);
            && BlobSync.CanRead(c, u, loc)
            && BlobSync.ReadOutcome(c, u, loc, bufLen)
               == if BlobInvariant.OnDisk(s.segs, s.log[v.place[k]]) then BlobTheorems.ExpectedOnDisk(v.contents[k], bufLen)
                  else ReadResult(NotFound, [])
  {
    StillRecorded(v, trace[i].log, k);
    BlobReopen.ReadsAfterCrash(c, trace, evs, i, v.place[k], bufLen, segs, log, dead);
  }

  /** A checkpoint from before a delete brings the key back. Its bytes are still right, but
      deleting it again marks the same record a second time: the live count of its segment then
      falls short of the entries that are alive, unless it was zero. */
  lemma SecondDeleteUndercounts(c: Config, v: View, s: State, k: StorageKey)
    requires Coherent(v) && BlobCrash.Plain(s) && v.log <= s.log && InNvme(v.index, k)
    requires k in v.place && v.place[k] in s.dead && v.index[k].segmentId < |s.segs|
    ensures v.place[k] < |s.log| && s.log[v.place[k]].loc.segId == v.index[k].segmentId
    ensures var t, g := MarkDead(s, v.place[k]), v.index[k].segmentId;
            && t.dead == s.dead && t.log == s.log
            && (s.segs[g].liveCount > 0 ==> t.segs[g].liveCount + 1 == BlobCrash.LiveIn(t.log, t.dead, g))
            && (BlobCrash.Accounted(t.segs, t.log, t.dead) <==> s.segs[g].liveCount == 0)
  {
    StillRecorded(v, s.log, k);
    BlobCrash.MarkDeadExactly(s, v.place[k]);
    assert s.dead + {v.place[k]} == s.dead;
  }
}
