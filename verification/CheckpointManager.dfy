/** Saving and loading checkpoints, and the dirty flag that decides when to save. */
module CheckpointManager {
  import opened Common
  import opened Snapshots
  import opened Checkpoint

  /** What the file system does to one save: whether the temporary file opens, how many entries
      the stream takes before it fails, and whether the final flush succeeds. */
  datatype Faults = Faults(opens: bool, entries: nat, flushes: bool)

  predicate Succeeds(f: Faults, count: nat) {
    f.opens && count <= f.entries && f.flushes
  }

  /** A save with nothing to say: no entries, and none removed since the last save. */
  predicate Idle(es: seq<Slot>, dirty: bool) {
    es == [] && !dirty
  }

  /** The stream of a save: a header without a checksum, the entries, and the header again with
      the checksum of what was written. */
  method Compose(hash: Bytes -> U32, es: seq<Slot>, timestamp: U64, limit: nat) returns (ok: bool, partial: Bytes, complete: Bytes)
    ensures ok == (|es| <= limit)
    ensures ok ==> Checkpoints(hash, Some(complete), es, timestamp)
  {
    var sorted := SortPairs(KeyLess, es);
    var body: Bytes;
    ok, body := WriteRecords(EncodeSlot, sorted, limit);
    var placeholder := HeaderBytes(|sorted|, timestamp, 0);
    partial, complete := placeholder + body, [];
    if ok {
      var header := HeaderBytes(|sorted|, timestamp, hash(body));
      PatchHeader(placeholder, header, body);
      complete := WriteAt(partial, 0, header);
    }
  }

  method CheckHeader(bytes: Bytes) returns (ok: bool, count: nat, checksum: nat)
    ensures ok == HeaderAccepted(bytes) && count == CountOf(bytes) && checksum == Field(HeaderOf(bytes), 24, 4)
    ensures ok ==> HEADER_SIZE + count * SLOT_SIZE <= |bytes|
  {
    var hdr := HeaderOf(bytes);
    count, checksum := Field(hdr, 8, 8), Field(hdr, 24, 4);
    if Field(hdr, 0, 4) != MAGIC || Field(hdr, 4, 4) != VERSION {
      return false, count, checksum;
    }
    if count > MAX_ENTRIES {
      return false, count, checksum;
    }
    return HEADER_SIZE + count * SLOT_SIZE <= |bytes|, count, checksum;
  }

  method ReadBody(hash: Bytes -> U32, bytes: Bytes, count: nat, checksum: nat) returns (ok: bool, entries: seq<Slot>)
    requires HEADER_SIZE + count * SLOT_SIZE <= |bytes|
    ensures ok == (hash(bytes[HEADER_SIZE..HEADER_SIZE + count * SLOT_SIZE]) == checksum)
    ensures entries == SlotsOf(bytes, count)
  {
    var hashed: Bytes;
    entries, hashed := ReadRecords(SlotFrom, bytes[HEADER_SIZE..], SLOT_SIZE, count);
    assert hashed == bytes[HEADER_SIZE..HEADER_SIZE + count * SLOT_SIZE];
    ok := hash(hashed) == checksum;
  }

  class CheckpointManager {
    /** XXH32 over a sequence of bytes. */
    const hash: Bytes -> U32
    var file: Option<Bytes>
    var tmp: Option<Bytes>
    var dirty: bool
    var lastEntries: nat

    constructor (hash: Bytes -> U32, file: Option<Bytes>)
      ensures this.hash == hash && this.file == file && !dirty
    {
      this.hash, this.file := hash, file;
      tmp, dirty, lastEntries := None, false, 0;
    }

    method MarkDirty()
      modifies `dirty
      ensures dirty
    {
      dirty := true;
    }

    /** Writes the entries to the temporary file, patches the header and renames. Whatever
        fails, the previous checkpoint is left in place and the dirty flag as it was. */
    method Save(es: seq<Slot>, timestamp: U64, faults: Faults) returns (status: Status)
      modifies this
      ensures status == if Idle(es, old(dirty)) || Succeeds(faults, |es|) then Ok else IOError
      ensures !Idle(es, old(dirty)) && status == Ok ==>
                Checkpoints(hash, file, es, timestamp) && !dirty && lastEntries == |es|
      ensures Idle(es, old(dirty)) || status != Ok ==> file == old(file) && dirty == old(dirty)
    {
      if |es| == 0 && !dirty {
        return Ok;
      }
      if !faults.opens {
        return IOError;
      }
      var ok, partial, complete := Compose(hash, es, timestamp, faults.entries);
      tmp := Some(partial);
      if !ok {
        return IOError;
      }
      tmp := Some(complete);
      if !faults.flushes {
        return IOError;
      }
      file, tmp := tmp, None;
      dirty := false;
      lastEntries := |es|;
      return Ok;
    }

    /** Reads the whole file before it touches the index: a rejected file leaves it alone. */
    method Load(index: Index) returns (status: Status, loaded: Index)
      ensures status == LoadStatus(hash, file) && loaded == Loaded(hash, file, index)
    {
      loaded := index;
      if file.None? {
        return NotFound, index;
      }
      var ok, count, checksum := CheckHeader(file.value);
      if !ok {
        return Corruption, index;
      }
      var entries: seq<Slot>;
      ok, entries := ReadBody(hash, file.value, count, checksum);
      if !ok {
        return Corruption, index;
      }
      loaded := InsertAll(index, entries);
      return Ok, loaded;
    }

    /** One turn of the periodic thread, and its last act when the manager stops. */
    method SaveIfDirty(es: seq<Slot>, timestamp: U64, faults: Faults) returns (status: Status)
      modifies this
      ensures status == if !old(dirty) || Succeeds(faults, |es|) then Ok else IOError
      ensures old(dirty) && status == Ok ==> Checkpoints(hash, file, es, timestamp) && !dirty
      ensures !old(dirty) || status != Ok ==> file == old(file) && dirty == old(dirty)
    {
      if dirty {
        status := Save(es, timestamp, faults);
      } else {
        status := Ok;
      }
    }
  }

  lemma PatchHeader(placeholder: Bytes, header: Bytes, body: Bytes)
    requires |placeholder| == |header|
    ensures WriteAt(placeholder + body, 0, header) == header + body
  {
    var r := WriteAt(placeholder + body, 0, header);
    assert r[0..|header|] == header;
    forall i | 0 <= i < |r| ensures r[i] == (header + body)[i] {
      if i < |header| {
        assert r[i] == r[0..|header|][i];
      }
    }
  }
}
