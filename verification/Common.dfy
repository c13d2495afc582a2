/** Casts between small integers and bytes; alone in its module, where the solver sees nothing else. */
module ByteCast {
  lemma FromHalf(half: nat, odd: bool)
    requires half < 128
    ensures var n := 2 * half + (if odd then 1 else 0); ((n as bv8) as int) == n
  {
  }

  lemma RoundTrip(n: nat)
    requires n < 256
    ensures ((n as bv8) as int) == n
  {
    FromHalf(n / 2, n % 2 == 1);
  }
}

/** Bytes, fixed-width integers, status codes, and the little-endian fields that every
    on-disk structure of the store is made of. */
module Common {
  import ByteCast

  type Byte = bv8
  type Bytes = seq<Byte>

  type U16 = n: int | 0 <= n < 0x1_0000
  type U32 = n: int | 0 <= n < 0x1_0000_0000
  type U48 = n: int | 0 <= n < 0x1_0000_0000_0000
  type U64 = n: int | 0 <= n < 0x1_0000_0000_0000_0000

  const U32_MAX: int := 0xFFFF_FFFF
  const INT_MAX: int := 0x7FFF_FFFF

  datatype Option<+T> = None | Some(value: T)

  datatype Status =
    | Ok | NotFound | RejectedAdmission | BufferTooSmall | Corruption
    | IOError | InvalidArgument | Shutdown

  /** The packed 30-byte key of an entry. */
  datatype StorageKey = StorageKey(modelId: U64, tenantId: U64, chunkHash: U64, layerGroupId: U16, chunkIndex: U32)

  const KEY_SIZE: nat := 30

  // ---- Little-endian fields ----

  function Limit(w: nat): (r: nat)
    ensures r > 0
  {
    if w == 0 then 1 else 256 * Limit(w - 1)
  }

  lemma LimitValues()
    ensures Limit(1) == 0x100 && Limit(2) == 0x1_0000 && Limit(4) == 0x1_0000_0000
    ensures Limit(6) == 0x1_0000_0000_0000 && Limit(8) == 0x1_0000_0000_0000_0000
  {
    assert Limit(2) == 256 * Limit(1);
    assert Limit(4) == 256 * Limit(3) == 256 * (256 * Limit(2));
    assert Limit(6) == 256 * Limit(5) == 256 * (256 * Limit(4));
    assert Limit(8) == 256 * Limit(7) == 256 * (256 * Limit(6));
  }

  /** The low `w` bytes of `n`, least significant first. */
  function Le(n: nat, w: nat): (s: Bytes)
    ensures |s| == w
  {
    if w == 0 then [] else [(n % 256) as bv8] + Le(n / 256, w - 1)
  }

  function UnLe(s: Bytes): (n: nat)
    ensures n < Limit(|s|)
  {
    if s == [] then 0 else (s[0] as int) + 256 * UnLe(s[1..])
  }

  lemma {:induction false} LeRoundTrip(n: nat, w: nat)
    requires n < Limit(w)
    ensures UnLe(Le(n, w)) == n
  {
    if w > 0 {
      LeRoundTrip(n / 256, w - 1);
      ByteCast.RoundTrip(n % 256);
      assert Le(n, w)[1..] == Le(n / 256, w - 1);
    }
  }

  /** The unsigned field of width `w` at offset `off`. */
  function Field(s: Bytes, off: nat, w: nat): (n: nat)
    requires off + w <= |s|
    ensures n < Limit(w)
  {
    UnLe(s[off..off + w])
  }

  /** The byte at an offset counts once, and the field behind it 256 times. */
  lemma FieldBytes(s: Bytes, off: nat, w: nat)
    requires off + w <= |s|
    ensures w == 0 ==> Field(s, off, w) == 0
    ensures w > 0 ==> Field(s, off, w) == s[off] as int + 256 * Field(s, off + 1, w - 1)
  {
    if w > 0 {
      assert s[off..off + w][1..] == s[off + 1..off + w];
    }
  }

  // ---- Keys ----

  function EncodeKey(k: StorageKey): (s: Bytes)
    ensures |s| == KEY_SIZE
  {
    Le(k.modelId, 8) + Le(k.tenantId, 8) + Le(k.chunkHash, 8) + Le(k.layerGroupId, 2) + Le(k.chunkIndex, 4)
  }

  function DecodeKey(s: Bytes): StorageKey
    requires |s| == KEY_SIZE
  {
    LimitValues();
    StorageKey(Field(s, 0, 8), Field(s, 8, 8), Field(s, 16, 8), Field(s, 24, 2), Field(s, 26, 4))
  }

  /** Each field of a packed key is at its offset, and unpacking gives back the key. */
  lemma KeyRoundTrip(k: StorageKey)
    ensures DecodeKey(EncodeKey(k)) == k
    ensures var s := EncodeKey(k);
            && Field(s, 0, 8) == k.modelId && Field(s, 8, 8) == k.tenantId && Field(s, 16, 8) == k.chunkHash
            && Field(s, 24, 2) == k.layerGroupId && Field(s, 26, 4) == k.chunkIndex
  {
    LimitValues();
    var s := EncodeKey(k);
    assert s[0..8] == Le(k.modelId, 8);
    assert s[8..16] == Le(k.tenantId, 8);
    assert s[16..24] == Le(k.chunkHash, 8);
    assert s[24..26] == Le(k.layerGroupId, 2);
    assert s[26..30] == Le(k.chunkIndex, 4);
    LeRoundTrip(k.modelId, 8);
    LeRoundTrip(k.tenantId, 8);
    LeRoundTrip(k.chunkHash, 8);
    LeRoundTrip(k.layerGroupId, 2);
    LeRoundTrip(k.chunkIndex, 4);
  }

  // ---- Byte buffers and files ----

  function Zeros(n: nat): (s: Bytes)
    ensures |s| == n && forall i :: 0 <= i < n ==> s[i] == 0
  {
    seq(n, _ => 0)
  }

  /** `file` after `data` is written at `off`; a gap past the end reads as zeros. */
  function WriteAt(file: Bytes, off: nat, data: Bytes): (r: Bytes)
    ensures |r| == if off + |data| > |file| then off + |data| else |file|
    ensures r[off..off + |data|] == data
    ensures forall i :: 0 <= i < |file| && !(off <= i < off + |data|) ==> r[i] == file[i]
    ensures forall i :: |file| <= i < off ==> r[i] == 0
  {
    var padded := if off > |file| then file + Zeros(off - |file|) else file;
    var tail := if off + |data| < |file| then file[off + |data|..] else [];
    padded[..off] + data + tail
  }

  /** `s` holds `data` at `off`. */
  predicate Holds(s: Bytes, off: nat, data: Bytes) {
    off + |data| <= |s| && s[off..off + |data|] == data
  }

  lemma WriteElsewhere(file: Bytes, off: nat, data: Bytes, at: nat, kept: Bytes)
    requires Holds(file, at, kept)
    requires at + |kept| <= off || off + |data| <= at
    ensures Holds(WriteAt(file, off, data), at, kept)
  {
    var r := WriteAt(file, off, data);
    forall i | 0 <= i < |kept| ensures r[at + i] == kept[i] {
      assert kept[i] == file[at..at + |kept|][i] == file[at + i];
    }
    assert r[at..at + |kept|] == kept;
  }

  lemma HoldsPart(s: Bytes, off: nat, data: Bytes, from: nat, part: Bytes)
    requires Holds(s, off, data) && Holds(data, from, part)
    ensures Holds(s, off + from, part)
  {
    var window := s[off..off + |data|];
    assert window == data;
    forall i | 0 <= i < |part| ensures s[off + from + i] == part[i] {
      assert part[i] == data[from..from + |part|][i] == data[from + i] == window[from + i];
    }
    assert s[off + from..off + from + |part|] == part;
  }
}
