/** One write block of the blob store: a buffer on the heap, and the in-place append that the
    step machine's images are made of. */
module WriteBlocks {
  import opened Common
  import opened Segment
  import opened BlobProtocol

  // ---- One write block ----

  /** The header fields the writer sets; the ten reserved bytes behind them are not touched. */
  function HeaderStart(e: Entry, sequence: nat): (s: Bytes)
    ensures |s| == ENTRY_HEADER_SIZE - RESERVED_SIZE
  {
    Le(KEY_SIZE, 4) + Le(|e.blob|, 4) + Le(EntryDiskSize(|e.blob|), 4) + Le(e.checksum, 4)
    + Le(sequence, 8) + EncodeKey(e.key)
  }

  function Padding(e: Entry): (s: Bytes)
    ensures |s| == EntryDiskSize(|e.blob|) - ENTRY_HEADER_SIZE - |e.blob|
  {
    Zeros(EntryDiskSize(|e.blob|) - ENTRY_HEADER_SIZE - |e.blob|)
  }

  lemma ImageParts(e: Entry, sequence: nat, reserved: Bytes)
    requires |reserved| == RESERVED_SIZE
    ensures Image(e, sequence, reserved) == HeaderStart(e, sequence) + reserved + e.blob + Padding(e)
  {
  }

  /** `s` with `data` over the bytes from `p` on. */
  function Patch(s: Bytes, p: nat, data: Bytes): (r: Bytes)
    requires p + |data| <= |s|
    ensures |r| == |s|
  {
    s[..p] + data + s[p + |data|..]
  }

  lemma PatchIsWrite(s: Bytes, p: nat, data: Bytes)
    requires p + |data| <= |s|
    ensures Patch(s, p, data) == WriteAt(s, p, data)
  {
  }

  lemma JoinPatches(s: Bytes, p: nat, a: Bytes, b: Bytes)
    requires p + |a| + |b| <= |s|
    ensures Patch(Patch(s, p, a), p + |a|, b) == Patch(s, p, a + b)
  {
    var t := Patch(s, p, a);
    assert t[..p + |a|] == s[..p] + a;
    assert t[p + |a| + |b|..] == s[p + |a| + |b|..];
    assert s[..p] + a + b == s[..p] + (a + b);
  }

  lemma PatchSame(s: Bytes, p: nat, n: nat)
    requires p + n <= |s|
    ensures Patch(s, p, s[p..p + n]) == s
  {
  }

  /** Writing the three parts in place is writing the image around the bytes left alone. */
  lemma ThreePatches(s: Bytes, p: nat, head: Bytes, keep: Bytes, blob: Bytes, pad: Bytes)
    requires p + |head| + |keep| + |blob| + |pad| <= |s|
    requires keep == s[p + |head|..p + |head| + |keep|]
    ensures var s2 := Patch(Patch(s, p, head), p + |head| + |keep|, blob);
            Patch(s2, p + |head| + |keep| + |blob|, pad) == Patch(s, p, head + keep + blob + pad)
  {
    var s1 := Patch(s, p, head);
    assert s1[p + |head|..p + |head| + |keep|] == keep;
    PatchSame(s1, p + |head|, |keep|);
    JoinPatches(s, p, head, keep);
    JoinPatches(s, p, head + keep, blob);
    JoinPatches(s, p, head + keep + blob, pad);
  }

  /** The same, with the entry's own parts. */
  lemma PutPatches(s: Bytes, p: nat, e: Entry, sequence: nat) returns (s1: Bytes, s2: Bytes, s3: Bytes)
    requires p + DiskSize(e) <= |s|
    ensures s1 == Patch(s, p, HeaderStart(e, sequence))
    ensures s2 == Patch(s1, p + ENTRY_HEADER_SIZE, e.blob)
    ensures s3 == Patch(s2, p + ENTRY_HEADER_SIZE + |e.blob|, Padding(e))
    ensures s3 == WriteAt(s, p, Image(e, sequence, s[p + 54..p + 64]))
  {
    var keep := s[p + 54..p + 64];
    s1 := Patch(s, p, HeaderStart(e, sequence));
    s2 := Patch(s1, p + ENTRY_HEADER_SIZE, e.blob);
    s3 := Patch(s2, p + ENTRY_HEADER_SIZE + |e.blob|, Padding(e));
    ThreePatches(s, p, HeaderStart(e, sequence), keep, e.blob, Padding(e));
    ImageParts(e, sequence, keep);
    PatchIsWrite(s, p, Image(e, sequence, keep));
  }

  class WriteBlock {
    ghost const id: nat
    const buf: array<Byte>
    var pos: nat
    var segId: nat
    var segOff: nat
    var entryCount: nat

    ghost function Value(): Block
      reads this, buf
    {
      Block(buf[..], pos, segId, segOff, entryCount)
    }

    constructor (ghost id: nat, capacity: nat)
      ensures this.id == id && fresh(buf) && Value() == Block(Zeros(capacity), 0, 0, 0, 0)
    {
      this.id := id;
      buf := new Byte[capacity](_ => 0);
      pos, segId, segOff, entryCount := 0, 0, 0, 0;
      new;
      assert buf[..] == Zeros(capacity);
    }

    method Reset(segId: nat, segOff: nat)
      modifies this
      ensures Value() == old(Value()).(pos := 0, segId := segId, segOff := segOff, entryCount := 0)
    {
      this.segId, this.segOff := segId, segOff;
      pos, entryCount := 0, 0;
    }

    method CopyIn(at: nat, data: Bytes, ghost goal: Bytes)
      requires at + |data| <= buf.Length && goal == Patch(buf[..], at, data)
      modifies buf
      ensures buf[..] == goal
    {
      forall i | 0 <= i < |data| {
        buf[at + i] := data[i];
      }
    }

    method CopyParts(head: Bytes, blob: Bytes, pad: Bytes, ghost s1: Bytes, ghost s2: Bytes, ghost s3: Bytes)
      requires pos + |head| + RESERVED_SIZE + |blob| + |pad| <= buf.Length
      requires s1 == Patch(buf[..], pos, head)
      requires s2 == Patch(s1, pos + |head| + RESERVED_SIZE, blob)
      requires s3 == Patch(s2, pos + |head| + RESERVED_SIZE + |blob|, pad)
      modifies buf
      ensures buf[..] == s3
    {
      CopyIn(pos, head, s1);
      CopyIn(pos + |head| + RESERVED_SIZE, blob, s2);
      CopyIn(pos + |head| + RESERVED_SIZE + |blob|, pad, s3);
    }

    method PutBytes(e: Entry, sequence: nat)
      requires pos + DiskSize(e) <= buf.Length
      modifies buf
      ensures buf[..] == WriteAt(old(buf[..]), pos, Image(e, sequence, old(buf[..])[pos + 54..pos + 64]))
    {
      ghost var s1, s2, s3 := PutPatches(buf[..], pos, e, sequence);
      CopyParts(HeaderStart(e, sequence), e.blob, Padding(e), s1, s2, s3);
    }

    /** Header, blob and padding go behind the last entry; the position moves on. */
    method Put(e: Entry, sequence: nat)
      requires pos + DiskSize(e) <= buf.Length
      modifies this, buf
      ensures Value() == PutImage(old(Value()), BlockImage(old(Value()), sequence, e))
    {
      PutBytes(e, sequence);
      pos := pos + EntryDiskSize(|e.blob|);
      entryCount := entryCount + 1;
    }
  }
}
