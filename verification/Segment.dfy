/** The layout of a segment file: sizes, alignment, and the image of one entry on disk. */
module Segment {
  import opened Common

  const ALIGNMENT: nat := 4096
  const SEGMENT_HEADER_SIZE: nat := 4096
  const ENTRY_HEADER_SIZE: nat := 64
  const RESERVED_SIZE: nat := 10

  predicate Aligned(v: nat) {
    v % 4096 == 0
  }

  /** Rounding up to the next boundary. */
  function AlignUp(v: nat): (r: nat)
    ensures Aligned(r) && v <= r < v + ALIGNMENT
    ensures Aligned(v) ==> r == v
  {
    (v + 4095) / 4096 * 4096
  }

  /** Bytes an entry takes on disk: header, blob, and padding to the next boundary. */
  function EntryDiskSize(blobSize: nat): (r: nat)
    ensures Aligned(r) && ENTRY_HEADER_SIZE + blobSize <= r < ENTRY_HEADER_SIZE + blobSize + ALIGNMENT && ALIGNMENT <= r
  {
    AlignUp(ENTRY_HEADER_SIZE + blobSize)
  }

  datatype Entry = Entry(key: StorageKey, blob: Bytes, checksum: U32)

  /** Entries whose sizes survive the 32-bit casts of the source. */
  predicate Storable(blobSize: nat) {
    EntryDiskSize(blobSize) <= INT_MAX
  }

  function HeaderImage(e: Entry, sequence: nat, reserved: Bytes): (s: Bytes)
    requires |reserved| == RESERVED_SIZE
    ensures |s| == ENTRY_HEADER_SIZE
  {
    Le(KEY_SIZE, 4) + Le(|e.blob|, 4) + Le(EntryDiskSize(|e.blob|), 4) + Le(e.checksum, 4)
    + Le(sequence, 8) + EncodeKey(e.key) + reserved
  }

  /** The bytes of an entry. The ten reserved header bytes are whatever the buffer held before. */
  function Image(e: Entry, sequence: nat, reserved: Bytes): (s: Bytes)
    requires |reserved| == RESERVED_SIZE
    ensures |s| == EntryDiskSize(|e.blob|)
  {
    HeaderImage(e, sequence, reserved) + e.blob
    + Zeros(EntryDiskSize(|e.blob|) - ENTRY_HEADER_SIZE - |e.blob|)
  }

  ghost predicate IsImageIf(img: Bytes, e: Entry, asked: bool) {
    exists sequence: nat, reserved: Bytes ::
      |reserved| == RESERVED_SIZE && img == Image(e, sequence, reserved)
  }

  /** `img` is an image of the entry, whatever its sequence number and reserved bytes; unfolded
      on demand. */
  ghost predicate IsImageOf(img: Bytes, e: Entry) {
    forall asked :: IsImageIf(img, e, asked)
  }

  lemma ImageSize(img: Bytes, e: Entry)
    requires IsImageOf(img, e)
    ensures |img| == EntryDiskSize(|e.blob|)
  {
    assert IsImageIf(img, e, true);
  }

  // Header fields as a reader of raw bytes sees them.
  function BlobSizeField(img: Bytes): (r: U32)
    requires |img| >= ENTRY_HEADER_SIZE
  {
    LimitValues(); Field(img, 4, 4)
  }

  function PaddedSizeField(img: Bytes): (r: U32)
    requires |img| >= ENTRY_HEADER_SIZE
  {
    LimitValues(); Field(img, 8, 4)
  }

  function ChecksumField(img: Bytes): (r: U32)
    requires |img| >= ENTRY_HEADER_SIZE
  {
    LimitValues(); Field(img, 12, 4)
  }

  function KeyField(img: Bytes): StorageKey
    requires |img| >= ENTRY_HEADER_SIZE
  {
    DecodeKey(img[24..54])
  }

  lemma HeaderRoundTrip(e: Entry, sequence: nat, reserved: Bytes)
    requires Storable(|e.blob|) && |reserved| == RESERVED_SIZE
    ensures var hdr := HeaderImage(e, sequence, reserved);
            && BlobSizeField(hdr) == |e.blob|
            && PaddedSizeField(hdr) == EntryDiskSize(|e.blob|)
            && ChecksumField(hdr) == e.checksum
            && KeyField(hdr) == e.key
            && (sequence < 0x1_0000_0000_0000_0000 ==> Field(hdr, 16, 8) == sequence)
  {
    var hdr := HeaderImage(e, sequence, reserved);
    LimitValues();
    assert hdr[4..8] == Le(|e.blob|, 4);
    assert hdr[8..12] == Le(EntryDiskSize(|e.blob|), 4);
    assert hdr[12..16] == Le(e.checksum, 4);
    assert hdr[16..24] == Le(sequence, 8);
    if sequence < Limit(8) { LeRoundTrip(sequence, 8); }
    assert hdr[24..54] == EncodeKey(e.key);
    LeRoundTrip(|e.blob|, 4);
    LeRoundTrip(EntryDiskSize(|e.blob|), 4);
    LeRoundTrip(e.checksum, 4);
    KeyRoundTrip(e.key);
  }

  /** The fields depend on the first 64 bytes only. */
  lemma HeaderFields(a: Bytes, b: Bytes)
    requires |a| >= ENTRY_HEADER_SIZE && |b| >= ENTRY_HEADER_SIZE
    requires a[..ENTRY_HEADER_SIZE] == b[..ENTRY_HEADER_SIZE]
    ensures BlobSizeField(a) == BlobSizeField(b) && PaddedSizeField(a) == PaddedSizeField(b)
    ensures ChecksumField(a) == ChecksumField(b) && KeyField(a) == KeyField(b)
  {
    forall i, j | 0 <= i <= j <= ENTRY_HEADER_SIZE ensures a[i..j] == b[i..j] {
      assert a[i..j] == a[..ENTRY_HEADER_SIZE][i..j] == b[..ENTRY_HEADER_SIZE][i..j] == b[i..j];
    }
  }

  /** Reading an image gives back the sizes, the checksum, the key and the blob, each at its offset. */
  lemma ImageRoundTrip(img: Bytes, e: Entry)
    requires Storable(|e.blob|) && IsImageOf(img, e)
    ensures |img| == EntryDiskSize(|e.blob|)
    ensures BlobSizeField(img) == |e.blob| && PaddedSizeField(img) == |img|
    ensures ChecksumField(img) == e.checksum && KeyField(img) == e.key
    ensures Field(img, 4, 4) == |e.blob| && Field(img, 8, 4) == |img| && Field(img, 12, 4) == e.checksum && img[24..54] == EncodeKey(e.key)
    ensures img[ENTRY_HEADER_SIZE..ENTRY_HEADER_SIZE + |e.blob|] == e.blob
  {
    assert IsImageIf(img, e, true);
    var sequence: nat, reserved: Bytes :| |reserved| == RESERVED_SIZE && img == Image(e, sequence, reserved);
    var hdr := HeaderImage(e, sequence, reserved);
    var rest := e.blob + Zeros(EntryDiskSize(|e.blob|) - ENTRY_HEADER_SIZE - |e.blob|);
    assert img == hdr + rest;
    assert img[..ENTRY_HEADER_SIZE] == hdr == hdr[..ENTRY_HEADER_SIZE];
    HeaderRoundTrip(e, sequence, reserved);
    HeaderFields(img, hdr);
  }

  /** An image carries its sequence number. */
  lemma ImageSequence(e: Entry, sequence: nat, reserved: Bytes)
    requires Storable(|e.blob|) && |reserved| == RESERVED_SIZE && sequence < 0x1_0000_0000_0000_0000
    ensures Field(Image(e, sequence, reserved), 16, 8) == sequence
  {
    HeaderRoundTrip(e, sequence, reserved);
    assert Image(e, sequence, reserved)[16..24] == HeaderImage(e, sequence, reserved)[16..24];
  }
}
