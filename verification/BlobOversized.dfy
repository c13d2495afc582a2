/** What an oversized entry does to a fresh store: the next small entry lands on top of it. */
module BlobOversized {
  import opened Common
  import opened Segment
  import opened BlobProtocol
  import opened BlobInvariant
  import opened BlobWriter
  import opened BlobTheorems

  lemma FreshStore(c: Config, e: Entry)
    requires GoodConfig(c) && Storable(|e.blob|)
    ensures var s := Open(c, [], [], {});
            && Good(c, s) && CanWrite(s, e) && !Overtaken(s) && s.blocks[s.active.value].segId == Cur(s)
            && s.blocks[s.active.value].pos == 0 && s.segs[Cur(s)].writeOffset == SEGMENT_HEADER_SIZE && s.log == []
  {
    OpenKeeps(c, [], [], {});
  }

  lemma DirectLeaves(c: Config, s: State, e: Entry)
    requires Shape(c, s)
    ensures var t := WriteDirect(c, s, e);
            && t.blocks == s.blocks && t.active == s.active && t.waiting == s.waiting && t.closing == s.closing
            && |t.log| == |s.log| + 1 && t.log[|s.log|].entry == e
  {
  }

  /** In a fresh store, write an entry too large for a block and then one that fits: both get
      the same offset, and the first location now reads back the second entry's bytes. */
  lemma OversizedThenSmall(c: Config, e1: Entry, e2: Entry)
    requires GoodConfig(c) && Storable(|e1.blob|) && Storable(|e2.blob|)
    requires Oversized(c, e1) && !Oversized(c, e2) && SEGMENT_HEADER_SIZE + DiskSize(e1) <= c.segmentSize
    ensures var s := Open(c, [], [], {});
            && Shape(c, s) && CanWrite(s, e1)
            && var t := Write(c, s, e1);
            && Shape(c, t) && CanWrite(t, e2)
            && var u := Write(c, t, e2);
            && |u.log| == 2 && u.log[0].entry == e1 && u.log[1].entry == e2
            && !Apart(u.log[0], u.log[1]) && ActiveServes(c, u, u.log[0].loc, e2.blob)
  {
    var s := Open(c, [], [], {});
    FreshStore(c, e1);
    DirectOvertakes(c, s, e1);
    WriteDirectKeeps(c, s, e1);
    DirectAligned(c, s, e1);
    DirectLeaves(c, s, e1);
    var t := WriteDirect(c, s, e1);
    SmallCollides(c, t, e2);
  }

  lemma SmallCollides(c: Config, t: State, e: Entry)
    requires Good(c, t) && CanWrite(t, e) && !Oversized(c, e) && !Rotates(c, t, e) && Overtaken(t) && |t.log| == 1
    ensures var u := Append(c, t, e);
            && |u.log| == 2 && u.log[0] == t.log[0] && u.log[1].entry == e
            && !Apart(u.log[0], u.log[1]) && ActiveServes(c, u, u.log[0].loc, e.blob)
  {
    AppendSafeExactly(c, t, e);
    OvertakenCorrupts(c, t, e);
    AppendLog(c, t, e);
  }

  lemma AppendLog(c: Config, t: State, e: Entry)
    requires Shape(c, t) && CanWrite(t, e) && !Oversized(c, e) && !Rotates(c, t, e)
    ensures var u := Append(c, t, e); |u.log| == |t.log| + 1 && u.log[..|t.log|] == t.log && u.log[|t.log|].entry == e
    ensures var u := Append(c, t, e); forall i :: 0 <= i < |t.log| ==> u.log[i] == t.log[i]
  {
  }

  /** Such a pair of writes exists: 4 KiB blocks, a 5000-byte blob and then an empty one. */
  lemma CollisionExample(k1: StorageKey, k2: StorageKey)
    ensures var c := Config(4096, 65536, 1, Zeros(4096));
            var e1, e2 := Entry(k1, Zeros(5000), 0), Entry(k2, [], 0);
            && GoodConfig(c) && Storable(|e1.blob|) && Storable(|e2.blob|)
            && Oversized(c, e1) && !Oversized(c, e2) && SEGMENT_HEADER_SIZE + DiskSize(e1) <= c.segmentSize
  {
  }
}
