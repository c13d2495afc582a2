/** The index entry's 64-byte layout, and the checkpoint file that carries the index across a
    restart. */
module Checkpoint {
  import opened Common
  import opened Snapshots

  type U8 = n: int | 0 <= n < 0x100
  type Reserved = s: Bytes | |s| == 18 witness [0, 0, 0, 0, 0, 0, 0, 0, 0, 0, 0, 0, 0, 0, 0, 0, 0, 0]

  const TIER_DRAM: U8 := 1
  const TIER_NVME: U8 := 2

  datatype IndexEntry = IndexEntry(
    tier: U8, address: U64, length: U32, segmentId: U32, flags: U16,
    cost: U32, lastAccess: U48, accessCount: U16, slruSegment: U8, numTokens: U32, createdAt: U48,
    checksum: U32, reserved: Reserved)

  type Slot = Pair<StorageKey, IndexEntry>

  const ENTRY_SIZE: nat := 64
  const SLOT_SIZE: nat := 94
  const HEADER_SIZE: nat := 64
  const MAGIC: nat := 0x4144_4249
  const VERSION: nat := 1
  const MAX_ENTRIES: nat := 100_000_000

  // ---- The packed entry ----

  function PlaceBytes(e: IndexEntry): (s: Bytes)
    ensures |s| == 19
  {
    Le(e.tier, 1) + Le(e.address, 8) + Le(e.length, 4) + Le(e.segmentId, 4) + Le(e.flags, 2)
  }

  function EvictionBytes(e: IndexEntry): (s: Bytes)
    ensures |s| == 23
  {
    Le(e.cost, 4) + Le(e.lastAccess, 6) + Le(e.accessCount, 2) + Le(e.slruSegment, 1)
    + Le(e.numTokens, 4) + Le(e.createdAt, 6)
  }

  function EncodeEntry(e: IndexEntry): (s: Bytes)
    ensures |s| == ENTRY_SIZE
  {
    PlaceBytes(e) + EvictionBytes(e) + Le(e.checksum, 4) + e.reserved
  }

  function DecodeEntry(s: Bytes): IndexEntry
    requires |s| == ENTRY_SIZE
  {
    LimitValues();
    IndexEntry(Field(s, 0, 1), Field(s, 1, 8), Field(s, 9, 4), Field(s, 13, 4), Field(s, 17, 2),
               Field(s, 19, 4), Field(s, 23, 6), Field(s, 29, 2), Field(s, 31, 1), Field(s, 32, 4), Field(s, 36, 6),
               Field(s, 42, 4), s[46..64])
  }

  lemma PlaceFields(e: IndexEntry)
    ensures var s := PlaceBytes(e);
            Field(s, 0, 1) == e.tier && Field(s, 1, 8) == e.address && Field(s, 9, 4) == e.length
            && Field(s, 13, 4) == e.segmentId && Field(s, 17, 2) == e.flags
  {
    var s := PlaceBytes(e);
    LimitValues();
    assert s[0..1] == Le(e.tier, 1) && s[1..9] == Le(e.address, 8) && s[9..13] == Le(e.length, 4);
    assert s[13..17] == Le(e.segmentId, 4) && s[17..19] == Le(e.flags, 2);
    LeRoundTrip(e.tier, 1);
    LeRoundTrip(e.address, 8);
    LeRoundTrip(e.length, 4);
    LeRoundTrip(e.segmentId, 4);
    LeRoundTrip(e.flags, 2);
  }

  lemma EvictionFields(e: IndexEntry)
    ensures var s := EvictionBytes(e);
            Field(s, 0, 4) == e.cost && Field(s, 4, 6) == e.lastAccess && Field(s, 10, 2) == e.accessCount
            && Field(s, 12, 1) == e.slruSegment && Field(s, 13, 4) == e.numTokens && Field(s, 17, 6) == e.createdAt
  {
    var s := EvictionBytes(e);
    LimitValues();
    assert s[0..4] == Le(e.cost, 4) && s[4..10] == Le(e.lastAccess, 6) && s[10..12] == Le(e.accessCount, 2);
    assert s[12..13] == Le(e.slruSegment, 1) && s[13..17] == Le(e.numTokens, 4) && s[17..23] == Le(e.createdAt, 6);
    LeRoundTrip(e.cost, 4);
    LeRoundTrip(e.lastAccess, 6);
    LeRoundTrip(e.accessCount, 2);
    LeRoundTrip(e.slruSegment, 1);
    LeRoundTrip(e.numTokens, 4);
    LeRoundTrip(e.createdAt, 6);
  }

  lemma FieldInPart(s: Bytes, part: Bytes, from: nat, off: nat, w: nat)
    requires from + |part| <= |s| && s[from..from + |part|] == part && off + w <= |part|
    ensures Field(s, from + off, w) == Field(part, off, w)
  {
    var a, b := s[from + off..from + off + w], part[off..off + w];
    forall i | 0 <= i < w ensures a[i] == b[i] {
      assert s[from..from + |part|][off + i] == part[off + i];
    }
    assert a == b;
  }

  lemma PlaceRoundTrip(s: Bytes, e: IndexEntry)
    requires |s| == ENTRY_SIZE && s[0..19] == PlaceBytes(e)
    ensures Field(s, 0, 1) == e.tier && Field(s, 1, 8) == e.address && Field(s, 9, 4) == e.length
            && Field(s, 13, 4) == e.segmentId && Field(s, 17, 2) == e.flags
  {
    var p := PlaceBytes(e);
    PlaceFields(e);
    FieldInPart(s, p, 0, 0, 1);
    FieldInPart(s, p, 0, 1, 8);
    FieldInPart(s, p, 0, 9, 4);
    FieldInPart(s, p, 0, 13, 4);
    FieldInPart(s, p, 0, 17, 2);
  }

  lemma EvictionRoundTrip(s: Bytes, e: IndexEntry)
    requires |s| == ENTRY_SIZE && s[19..42] == EvictionBytes(e)
    ensures Field(s, 19, 4) == e.cost && Field(s, 23, 6) == e.lastAccess && Field(s, 29, 2) == e.accessCount
            && Field(s, 31, 1) == e.slruSegment && Field(s, 32, 4) == e.numTokens && Field(s, 36, 6) == e.createdAt
  {
    var v := EvictionBytes(e);
    EvictionFields(e);
    FieldInPart(s, v, 19, 0, 4);
    FieldInPart(s, v, 19, 4, 6);
    FieldInPart(s, v, 19, 10, 2);
    FieldInPart(s, v, 19, 12, 1);
    FieldInPart(s, v, 19, 13, 4);
    FieldInPart(s, v, 19, 17, 6);
  }

  /** Each field of an encoded entry is at its offset, and decoding gives back every one. */
  lemma EntryRoundTrip(e: IndexEntry)
    ensures DecodeEntry(EncodeEntry(e)) == e
    ensures var s := EncodeEntry(e);
            && Field(s, 0, 1) == e.tier && Field(s, 1, 8) == e.address && Field(s, 9, 4) == e.length && Field(s, 13, 4) == e.segmentId
            && Field(s, 17, 2) == e.flags && Field(s, 19, 4) == e.cost && Field(s, 23, 6) == e.lastAccess
            && Field(s, 29, 2) == e.accessCount && Field(s, 31, 1) == e.slruSegment && Field(s, 32, 4) == e.numTokens
            && Field(s, 36, 6) == e.createdAt && Field(s, 42, 4) == e.checksum && s[46..64] == e.reserved
  {
    var s := EncodeEntry(e);
    assert s[0..19] == PlaceBytes(e) && s[19..42] == EvictionBytes(e);
    assert s[42..46] == Le(e.checksum, 4) && s[46..64] == e.reserved;
    PlaceRoundTrip(s, e);
    EvictionRoundTrip(s, e);
    LimitValues();
    LeRoundTrip(e.checksum, 4);
  }

  function EncodeSlot(e: Slot): (s: Bytes)
    ensures |s| == SLOT_SIZE
  {
    EncodeKey(e.key) + EncodeEntry(e.value)
  }

  function DecodeSlot(s: Bytes): Slot
    requires |s| == SLOT_SIZE
  {
    Pair(DecodeKey(s[..KEY_SIZE]), DecodeEntry(s[KEY_SIZE..]))
  }

  lemma SlotRoundTrip(e: Slot)
    ensures DecodeSlot(EncodeSlot(e)) == e
  {
    KeyRoundTrip(e.key);
    EntryRoundTrip(e.value);
    assert EncodeSlot(e)[..KEY_SIZE] == EncodeKey(e.key) && EncodeSlot(e)[KEY_SIZE..] == EncodeEntry(e.value);
  }

  // ---- The order of keys: bytes compared from the first ----

  predicate BytesLess(a: Bytes, b: Bytes)
    requires |a| == |b|
  {
    a != [] && (a[0] < b[0] || (a[0] == b[0] && BytesLess(a[1..], b[1..])))
  }

  lemma {:induction false} BytesTrichotomy(a: Bytes, b: Bytes)
    requires |a| == |b|
    ensures BytesLess(a, b) || BytesLess(b, a) || a == b
    ensures !(BytesLess(a, b) && BytesLess(b, a)) && !BytesLess(a, a)
  {
    if a != [] {
      BytesTrichotomy(a[1..], b[1..]);
      BytesTrichotomy(a[1..], a[1..]);
      assert a == [a[0]] + a[1..] && b == [b[0]] + b[1..];
    }
  }

  lemma {:induction false} BytesTransitive(a: Bytes, b: Bytes, c: Bytes)
    requires |a| == |b| == |c| && BytesLess(a, b) && BytesLess(b, c)
    ensures BytesLess(a, c)
  {
    if a[0] == b[0] == c[0] {
      BytesTransitive(a[1..], b[1..], c[1..]);
    }
  }

  predicate KeyLess(a: StorageKey, b: StorageKey) {
    BytesLess(EncodeKey(a), EncodeKey(b))
  }

  lemma KeyOrder(a: StorageKey, b: StorageKey)
    ensures KeyLess(a, b) || KeyLess(b, a) || a == b
    ensures !(KeyLess(a, b) && KeyLess(b, a)) && !KeyLess(a, a)
  {
    BytesTrichotomy(EncodeKey(a), EncodeKey(b));
    KeyRoundTrip(a);
    KeyRoundTrip(b);
  }

  lemma KeyTransitive(a: StorageKey, b: StorageKey, c: StorageKey)
    requires KeyLess(a, b) && KeyLess(b, c)
    ensures KeyLess(a, c)
  {
    BytesTransitive(EncodeKey(a), EncodeKey(b), EncodeKey(c));
  }


  lemma KeysOrdered()
    ensures TotalOrder(KeyLess)
  {
    forall a, b ensures OrderAt(KeyLess, a, b) {
      KeyOrder(a, b);
    }
    forall a, b, c ensures ChainAt(KeyLess, a, b, c) {
      if KeyLess(a, b) && KeyLess(b, c) {
        KeyTransitive(a, b, c);
      }
    }
  }

  // ---- The file ----

  type Index = map<StorageKey, IndexEntry>

  function HeaderBytes(count: nat, timestamp: U64, checksum: U32): (s: Bytes)
    ensures |s| == HEADER_SIZE
  {
    Le(MAGIC, 4) + Le(VERSION, 4) + Le(count, 8) + Le(timestamp, 8) + Le(checksum, 4) + Zeros(36)
  }

  function Body(es: seq<Slot>): Bytes {
    Records(EncodeSlot, es)
  }

  lemma BodySize(es: seq<Slot>)
    ensures |Body(es)| == |es| * SLOT_SIZE
  {
    forall i | 0 <= i < |es| ensures SizeAt(EncodeSlot, SLOT_SIZE, es[i]) {
      EncodedSize(es[i]);
    }
    RecordsSize(EncodeSlot, SLOT_SIZE, es);
  }

  lemma EncodedSize(e: Slot)
    ensures SizeAt(EncodeSlot, SLOT_SIZE, e)
  {
  }

  /** A saved file: the header, then the entries in the order of their keys. `hash` stands for
      XXH32 over the body. */
  function SavedFile(hash: Bytes -> U32, es: seq<Slot>, timestamp: U64): (s: Bytes)
    ensures |s| == HEADER_SIZE + |es| * SLOT_SIZE
  {
    BodySize(es);
    HeaderBytes(|es|, timestamp, hash(Body(es))) + Body(es)
  }

  /** What a reader makes of the first 64 bytes; a short file reads as zeros. */
  function HeaderOf(file: Bytes): (s: Bytes)
    ensures |s| == HEADER_SIZE
  {
    if |file| >= HEADER_SIZE then file[..HEADER_SIZE] else file + Zeros(HEADER_SIZE - |file|)
  }

  function CountOf(file: Bytes): nat {
    Field(HeaderOf(file), 8, 8)
  }

  /** Magic, version, and a count of entries that is sane and fits the file. */
  predicate HeaderAccepted(file: Bytes) {
    var hdr := HeaderOf(file);
    && Field(hdr, 0, 4) == MAGIC && Field(hdr, 4, 4) == VERSION
    && CountOf(file) <= MAX_ENTRIES
    && HEADER_SIZE + CountOf(file) * SLOT_SIZE <= |file|
  }

  predicate Accepted(hash: Bytes -> U32, file: Bytes) {
    && HeaderAccepted(file)
    && hash(file[HEADER_SIZE..HEADER_SIZE + CountOf(file) * SLOT_SIZE]) == Field(HeaderOf(file), 24, 4)
  }

  /** A record of the body; a buffer of another size decodes as zeros. */
  function SlotFrom(s: Bytes): Slot {
    if |s| == SLOT_SIZE then DecodeSlot(s) else DecodeSlot(Zeros(SLOT_SIZE))
  }

  function SlotsOf(file: Bytes, n: nat): (r: seq<Slot>)
    requires HEADER_SIZE + n * SLOT_SIZE <= |file|
    ensures |r| == n
  {
    Decoded(SlotFrom, file[HEADER_SIZE..], SLOT_SIZE, n)
  }

  /** The index a load of the file leaves behind; a missing or rejected file leaves it alone. */
  function Loaded(hash: Bytes -> U32, file: Option<Bytes>, m: Index): Index {
    if file.Some? && Accepted(hash, file.value) then BulkLoad(m, SlotsOf(file.value, CountOf(file.value))) else m
  }

  /** A load takes in no more entries than the cap. */
  lemma LoadedFits(hash: Bytes -> U32, file: Option<Bytes>)
    ensures |Loaded(hash, file, map[])| <= MAX_ENTRIES
  {
    if file.Some? && Accepted(hash, file.value) {
      LoadedSize(SlotsOf(file.value, CountOf(file.value)));
    }
  }

  function LoadStatus(hash: Bytes -> U32, file: Option<Bytes>): Status {
    if file.None? then NotFound else if Accepted(hash, file.value) then Ok else Corruption
  }

  /** Exactly which files are accepted: those that start with a whole header of the right magic and
      version, announce no more entries than the cap and than they hold, and carry the hash of
      those entries. Every other file is corrupt and leaves the index alone. */
  lemma LoadExactly(hash: Bytes -> U32, file: Bytes, m: Index)
    ensures LoadStatus(hash, Some(file)) == Ok <==>
              && |file| >= 64 && Field(file, 0, 4) == 0x4144_4249 && Field(file, 4, 4) == 1
              && Field(file, 8, 8) <= 100_000_000 && 64 + Field(file, 8, 8) * 94 <= |file|
              && hash(file[64..64 + Field(file, 8, 8) * 94]) == Field(file, 24, 4)
    ensures LoadStatus(hash, Some(file)) == Ok || (LoadStatus(hash, Some(file)) == Corruption && Loaded(hash, Some(file), m) == m)
  {
    if |file| >= HEADER_SIZE {
      var hdr := file[..HEADER_SIZE];
      assert hdr[0..4] == file[0..4] && hdr[4..8] == file[4..8] && hdr[8..16] == file[8..16] && hdr[24..28] == file[24..28];
    }
  }

  lemma HeaderFieldsOf(count: nat, timestamp: U64, checksum: U32)
    requires count < 0x1_0000_0000_0000_0000
    ensures var hdr := HeaderBytes(count, timestamp, checksum);
            && Field(hdr, 0, 4) == MAGIC && Field(hdr, 4, 4) == VERSION && Field(hdr, 8, 8) == count
            && Field(hdr, 16, 8) == timestamp && Field(hdr, 24, 4) == checksum
  {
    var hdr := HeaderBytes(count, timestamp, checksum);
    LimitValues();
    LeRoundTrip(timestamp, 8);
    assert hdr[16..24] == Le(timestamp, 8);
    assert hdr[0..4] == Le(MAGIC, 4) && hdr[4..8] == Le(VERSION, 4) && hdr[8..16] == Le(count, 8) && hdr[24..28] == Le(checksum, 4);
    LeRoundTrip(MAGIC, 4);
    LeRoundTrip(VERSION, 4);
    LeRoundTrip(count, 8);
    LeRoundTrip(checksum, 4);
  }

  lemma SlotInverse(e: Slot)
    ensures InverseAt(EncodeSlot, SlotFrom, e)
  {
    SlotRoundTrip(e);
  }

  lemma BodySlots(es: seq<Slot>)
    ensures |es| * SLOT_SIZE <= |Body(es)| && Decoded(SlotFrom, Body(es), SLOT_SIZE, |es|) == es
  {
    forall i | 0 <= i < |es| ensures SizeAt(EncodeSlot, SLOT_SIZE, es[i]) && InverseAt(EncodeSlot, SlotFrom, es[i]) {
      EncodedSize(es[i]);
      SlotInverse(es[i]);
    }
    RecordsRoundTrip(EncodeSlot, SlotFrom, SLOT_SIZE, es, []);
    assert Body(es) + [] == Body(es);
  }

  lemma SavedParts(hash: Bytes -> U32, es: seq<Slot>, timestamp: U64)
    ensures var file := SavedFile(hash, es, timestamp);
            && file[..HEADER_SIZE] == HeaderBytes(|es|, timestamp, hash(Body(es)))
            && file[HEADER_SIZE..] == Body(es) && |Body(es)| == |es| * SLOT_SIZE
  {
    BodySize(es);
  }

  lemma PartsAccepted(hash: Bytes -> U32, file: Bytes, hdr: Bytes, body: Bytes, count: nat)
    requires |hdr| == HEADER_SIZE && |file| >= HEADER_SIZE && file[..HEADER_SIZE] == hdr && file[HEADER_SIZE..] == body
    requires |body| == count * SLOT_SIZE
    requires Field(hdr, 0, 4) == MAGIC && Field(hdr, 4, 4) == VERSION && Field(hdr, 8, 8) == count
    ensures CountOf(file) == count && (Accepted(hash, file) <==> count <= MAX_ENTRIES && hash(body) == Field(hdr, 24, 4))
  {
    assert HeaderOf(file) == hdr;
    assert file[HEADER_SIZE..HEADER_SIZE + count * SLOT_SIZE] == body;
  }

  /** A saved file is accepted exactly when it holds at most a hundred million entries, and
      then reads back exactly the entries saved. */
  lemma SaveLoad(hash: Bytes -> U32, es: seq<Slot>, timestamp: U64)
    requires |es| < 0x1_0000_0000_0000_0000
    ensures var file := SavedFile(hash, es, timestamp);
            && (Accepted(hash, file) <==> |es| <= MAX_ENTRIES)
            && CountOf(file) == |es| && SlotsOf(file, |es|) == es
  {
    var file := SavedFile(hash, es, timestamp);
    SavedParts(hash, es, timestamp);
    HeaderFieldsOf(|es|, timestamp, hash(Body(es)));
    PartsAccepted(hash, file, HeaderBytes(|es|, timestamp, hash(Body(es))), Body(es), |es|);
    BodySlots(es);
  }

  /** A saved file whose body is replaced by another of the same length is accepted only if the two
      have the same hash. */
  lemma BodyReplaced(hash: Bytes -> U32, es: seq<Slot>, timestamp: U64, body: Bytes)
    requires |es| < 0x1_0000_0000_0000_0000 && |body| == |Body(es)|
    ensures var file := SavedFile(hash, es, timestamp)[..HEADER_SIZE] + body;
            LoadStatus(hash, Some(file)) == if |es| <= MAX_ENTRIES && hash(body) == hash(Body(es)) then Ok else Corruption
  {
    SavedParts(hash, es, timestamp);
    var hdr := SavedFile(hash, es, timestamp)[..HEADER_SIZE];
    HeaderFieldsOf(|es|, timestamp, hash(Body(es)));
    PartsAccepted(hash, hdr + body, hdr, body, |es|);
  }

  /** The checkpoint of the entries, in whatever order they come. */
  function CheckpointFile(hash: Bytes -> U32, es: seq<Slot>, timestamp: U64): Bytes {
    SavedFile(hash, SortPairs(KeyLess, es), timestamp)
  }

  ghost predicate CheckpointsIf(hash: Bytes -> U32, file: Option<Bytes>, es: seq<Slot>, timestamp: U64, asked: bool) {
    file == Some(CheckpointFile(hash, es, timestamp))
  }

  /** The file is the checkpoint of the entries; unfolded on demand. */
  ghost predicate Checkpoints(hash: Bytes -> U32, file: Option<Bytes>, es: seq<Slot>, timestamp: U64) {
    forall asked :: CheckpointsIf(hash, file, es, timestamp, asked)
  }

  /** Loading a saved index into an empty one restores exactly the saved map, up to the cap on
      the number of entries; beyond it the file is rejected. */
  lemma CheckpointRestores(hash: Bytes -> U32, es: seq<Slot>, m: Index, timestamp: U64)
    requires IsSnapshot(es, m) && |m| < 0x1_0000_0000_0000_0000
    ensures Loaded(hash, Some(CheckpointFile(hash, es, timestamp)), map[])
            == if |m| <= MAX_ENTRIES then m else map[]
  {
    KeysOrdered();
    var fs := SortPairs(KeyLess, es);
    SortedSnapshot(KeyLess, es, m);
    SaveLoad(hash, fs, timestamp);
    SnapshotRestores(fs, m);
  }

  /** The body of the file depends on the index alone, not on the order of the hash table. */
  lemma BodyIsCanonical(es: seq<Slot>, fs: seq<Slot>, m: Index)
    requires IsSnapshot(es, m) && IsSnapshot(fs, m)
    ensures Body(SortPairs(KeyLess, es)) == Body(SortPairs(KeyLess, fs))
  {
    KeysOrdered();
    SortedIsCanonical(KeyLess, es, fs, m);
  }

  /** A saved file cut short anywhere is rejected. */
  lemma PrefixRejected(hash: Bytes -> U32, es: seq<Slot>, timestamp: U64, n: nat)
    requires |es| < 0x1_0000_0000_0000_0000 && n < |SavedFile(hash, es, timestamp)|
    ensures !Accepted(hash, SavedFile(hash, es, timestamp)[..n])
  {
    var file := SavedFile(hash, es, timestamp);
    if n >= HEADER_SIZE {
      SavedParts(hash, es, timestamp);
      HeaderFieldsOf(|es|, timestamp, hash(Body(es)));
      assert HeaderOf(file[..n]) == file[..HEADER_SIZE] == HeaderBytes(|es|, timestamp, hash(Body(es)));
    }
  }
}
