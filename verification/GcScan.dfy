/** The scan of a sealed segment by the garbage collector, against the log of its appends. */
module GcScan {
  import opened Common
  import opened Segment
  import opened BlobProtocol
  import opened BlobInvariant
  import opened BlobCrash

  /** One call of the rewrite callback. */
  datatype Rewrite = Rewrite(key: StorageKey, data: Bytes, checksum: U32)

  function AsRewrite(e: Entry): Rewrite {
    Rewrite(e.key, e.blob, e.checksum)
  }

  /** The calls are the entries, one for one and in order. */
  predicate Visits(calls: seq<Rewrite>, recs: seq<Rec>) {
    |calls| <= |recs| && forall i :: 0 <= i < |calls| ==> calls[i] == AsRewrite(recs[i].entry)
  }

  /** The file holds the images of the entries, one after the other, up to `end`. */
  ghost predicate Sealed(file: Bytes, recs: seq<Rec>, end: nat) {
    && Tiles(recs, end)
    && forall i :: 0 <= i < |recs| ==>
         && Holds(file, recs[i].loc.offset, recs[i].image) && |recs[i].image| == recs[i].loc.diskSize > 0
         && Storable(|recs[i].entry.blob|) && IsImageOf(recs[i].image, recs[i].entry)
  }

  lemma {:induction false} TileAt(recs: seq<Rec>, end: nat, i: nat)
    requires Tiles(recs, end) && i < |recs|
    requires forall j :: 0 <= j < |recs| ==> recs[j].loc.diskSize > 0
    ensures recs[i].loc.offset == if i == 0 then SEGMENT_HEADER_SIZE else End(recs[i - 1])
    ensures SEGMENT_HEADER_SIZE <= recs[i].loc.offset && End(recs[i]) <= end
    ensures End(recs[i]) == end <==> i == |recs| - 1
  {
    var n := |recs| - 1;
    var init := recs[..n];
    if i == n {
      if n > 0 {
        TileAt(init, recs[n].loc.offset, n - 1);
      }
    } else {
      TileAt(init, recs[n].loc.offset, i);
      assert init[i] == recs[i];
    }
  }

  /** What one turn of the scan reads at `offset`: the padded size from the header alone, then
      the whole image. */
  predicate Reads(file: Bytes, offset: nat, img: Bytes) {
    && offset + |img| <= |file| && ENTRY_HEADER_SIZE <= |img|
    && PaddedSizeField(file[offset..offset + ENTRY_HEADER_SIZE]) == |img|
    && file[offset..offset + |img|] == img
  }

  /** The callback's arguments; a blob size beyond the entry is cut off at its end. */
  function Found(full: Bytes): Rewrite
    requires |full| >= ENTRY_HEADER_SIZE
  {
    var end := ENTRY_HEADER_SIZE + BlobSizeField(full);
    Rewrite(KeyField(full), full[ENTRY_HEADER_SIZE..if end <= |full| then end else |full|], ChecksumField(full))
  }

  lemma FoundInImage(img: Bytes, e: Entry)
    requires Storable(|e.blob|) && IsImageOf(img, e)
    ensures |img| >= ENTRY_HEADER_SIZE + |e.blob| && PaddedSizeField(img) == |img|
    ensures Found(img) == AsRewrite(e)
  {
    ImageRoundTrip(img, e);
    assert ENTRY_HEADER_SIZE + |e.blob| <= EntryDiskSize(|e.blob|);
  }

  lemma PaddedSizeAt(file: Bytes, at: nat, img: Bytes)
    requires Holds(file, at, img) && |img| >= ENTRY_HEADER_SIZE
    ensures PaddedSizeField(file[at..at + ENTRY_HEADER_SIZE]) == PaddedSizeField(img)
  {
    var hdr := file[at..at + ENTRY_HEADER_SIZE];
    assert hdr[..ENTRY_HEADER_SIZE] == hdr == file[at..at + |img|][..ENTRY_HEADER_SIZE];
    HeaderFields(hdr, img);
  }

  lemma EntryAt(file: Bytes, rec: Rec)
    requires Holds(file, rec.loc.offset, rec.image) && |rec.image| == rec.loc.diskSize
    requires Storable(|rec.entry.blob|) && IsImageOf(rec.image, rec.entry)
    ensures Reads(file, rec.loc.offset, rec.image)
  {
    FoundInImage(rec.image, rec.entry);
    PaddedSizeAt(file, rec.loc.offset, rec.image);
  }

  function Next(recs: seq<Rec>, at: nat): nat
    requires at <= |recs|
  {
    if at == 0 then SEGMENT_HEADER_SIZE else End(recs[at - 1])
  }

  lemma NextTile(recs: seq<Rec>, end: nat, at: nat)
    requires Tiles(recs, end) && at <= |recs| && forall j :: 0 <= j < |recs| ==> recs[j].loc.diskSize > 0
    ensures Next(recs, at) < end ==> at < |recs| && recs[at].loc.offset == Next(recs, at)
    ensures Next(recs, at) >= end ==> at == |recs| && Next(recs, at) == end
  {
    if at < |recs| {
      TileAt(recs, end, at);
    } else if at > 0 {
      TileAt(recs, end, at - 1);
    }
  }

  lemma NextEntry(file: Bytes, recs: seq<Rec>, end: nat, at: nat)
    requires Sealed(file, recs, end) && at <= |recs| && Next(recs, at) < end
    ensures at < |recs| && Reads(file, Next(recs, at), recs[at].image)
    ensures Next(recs, at + 1) == Next(recs, at) + |recs[at].image|
    ensures Found(recs[at].image) == AsRewrite(recs[at].entry)
  {
    NextTile(recs, end, at);
    EntryAt(file, recs[at]);
    FoundInImage(recs[at].image, recs[at].entry);
  }

  /** One turn of the loop: nothing if the file ends early or the padded size is no entry's. */
  method ScanOne(file: Bytes, offset: nat, ghost img: Bytes) returns (diskSize: nat, call: Option<Rewrite>)
    ensures Reads(file, offset, img) ==> diskSize == |img| && call == Some(Found(img))
    ensures call.Some? ==> diskSize > 0
  {
    diskSize, call := 0, None;
    if offset + ENTRY_HEADER_SIZE > |file| { return; }
    diskSize := PaddedSizeField(file[offset..offset + ENTRY_HEADER_SIZE]);
    if diskSize < ENTRY_HEADER_SIZE { return; }
    if offset + diskSize > |file| { return; }
    var full := file[offset..offset + diskSize];
    assert Reads(file, offset, img) ==> full == img;
    call := Some(Found(full));
  }

  /** Where the scan stands on a sealed segment. */
  predicate Progress(recs: seq<Rec>, calls: seq<Rewrite>, offset: nat) {
    Visits(calls, recs) && offset == Next(recs, |calls|)
  }

  lemma ProgressStep(recs: seq<Rec>, calls: seq<Rewrite>, offset: nat, call: Rewrite)
    requires Progress(recs, calls, offset) && |calls| < |recs| && call == AsRewrite(recs[|calls|].entry)
    requires Next(recs, |calls| + 1) == offset + |recs[|calls|].image|
    ensures Progress(recs, calls + [call], offset + |recs[|calls|].image|)
  {
  }

  lemma NextCall(file: Bytes, writeOff: nat, calls: seq<Rewrite>, offset: nat, recs: seq<Rec>)
    returns (img: Bytes, call: Rewrite)
    requires Sealed(file, recs, writeOff) && Progress(recs, calls, offset) && offset < writeOff
    ensures Reads(file, offset, img) && call == Found(img)
    ensures Progress(recs, calls + [call], offset + |img|)
  {
    NextEntry(file, recs, writeOff, |calls|);
    img := recs[|calls|].image;
    call := AsRewrite(recs[|calls|].entry);
    ProgressStep(recs, calls, offset, call);
  }

  method ScanNext(file: Bytes, writeOff: nat, calls: seq<Rewrite>, offset: nat, ghost recs: seq<Rec>)
    returns (diskSize: nat, call: Option<Rewrite>)
    requires offset < writeOff
    ensures call.Some? ==> diskSize > 0
    ensures Sealed(file, recs, writeOff) && Progress(recs, calls, offset) ==>
              call.Some? && Progress(recs, calls + [call.value], offset + diskSize)
  {
    ghost var img, expected := [], Rewrite(StorageKey(0, 0, 0, 0, 0), [], 0);
    if Sealed(file, recs, writeOff) && Progress(recs, calls, offset) {
      img, expected := NextCall(file, writeOff, calls, offset, recs);
    }
    diskSize, call := ScanOne(file, offset, img);
  }

  /** Scans by the padded sizes found in the file. On a sealed segment it visits exactly the
      appended entries, in order, and stops at the write offset; on any file it terminates. */
  method Scan(file: Bytes, writeOff: nat, ghost recs: seq<Rec>) returns (calls: seq<Rewrite>, offset: nat)
    ensures Sealed(file, recs, writeOff) ==> Visits(calls, recs) && |calls| == |recs| && offset == writeOff
  {
    calls, offset := [], SEGMENT_HEADER_SIZE;
    while offset < writeOff
      invariant Sealed(file, recs, writeOff) ==> Progress(recs, calls, offset)
      decreases writeOff - offset
    {
      var diskSize, call := ScanNext(file, writeOff, calls, offset, recs);
      if call.None? { break; }
      calls := calls + [call.value];
      offset := offset + diskSize;
    }
    if Sealed(file, recs, writeOff) {
      NextTile(recs, writeOff, |calls|);
    }
  }

  /** A segment of a run whose entries are all on disk is sealed by exactly its appends: so the
      scan of it visits each of them once, in the order they were written. */
  lemma FlushedIsSealed(c: Config, trace: seq<State>, evs: seq<Event>, i: nat, k: nat)
    requires IsPlainRun(c, trace, evs) && i < |trace| && k < |trace[i].segs|
    requires forall j :: 0 <= j < |trace[i].log| && trace[i].log[j].loc.segId == k ==> OnDisk(trace[i].segs, trace[i].log[j])
    ensures var s := trace[i]; Sealed(s.segs[k].file, SegRecs(s.log, k), s.segs[k].writeOffset)
  {
    PlainRunKeeps(c, trace, evs, i);
    var s := trace[i];
    var recs := SegRecs(s.log, k);
    forall m | 0 <= m < |recs|
      ensures Holds(s.segs[k].file, recs[m].loc.offset, recs[m].image) && |recs[m].image| == recs[m].loc.diskSize > 0
      ensures Storable(|recs[m].entry.blob|) && IsImageOf(recs[m].image, recs[m].entry)
    {
      var j := SegRecsFrom(s.log, k, m);
      assert RecOk(c, |s.segs|, s.log[j]);
    }
  }
}
