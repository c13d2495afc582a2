/** The blob store as the server runs it: write blocks on the heap, a flush queue, a free pool
    and the segment files, updated in place. The ghost field `abs` is the state of the step
    machine that every method moves by the machine's own steps. */
module BlobStore {
  import opened Common
  import opened Segment
  import opened BlobProtocol
  import opened BlobSync
  import opened BlobPlacement
  import opened WriteBlocks

  // ---- Block pointers and block numbers ----

  ghost predicate KnownAt(all: seq<WriteBlock>, q: seq<WriteBlock>, i: nat) {
    i < |q| && q[i].id < |all| && all[q[i].id] == q[i]
  }

  /** The pointers of `q` are the pool blocks whose numbers `ids` lists. */
  ghost predicate Names(all: seq<WriteBlock>, q: seq<WriteBlock>, ids: seq<nat>) {
    |q| == |ids| && forall i: nat :: i < |q| ==> KnownAt(all, q, i) && q[i].id == ids[i]
  }

  ghost predicate NamesOne(all: seq<WriteBlock>, b: WriteBlock?, id: Option<nat>) {
    if b == null then id == None else b.id < |all| && all[b.id] == b && id == Some(b.id)
  }

  lemma NamesPush(all: seq<WriteBlock>, q: seq<WriteBlock>, ids: seq<nat>, b: WriteBlock)
    requires Names(all, q, ids) && NamesOne(all, b, Some(b.id))
    ensures Names(all, q + [b], ids + [b.id])
  {
    var r, rs := q + [b], ids + [b.id];
    forall i: nat | i < |r| ensures KnownAt(all, r, i) && r[i].id == rs[i] {
      if i < |q| { assert KnownAt(all, q, i); }
    }
  }

  lemma NamesPop(all: seq<WriteBlock>, q: seq<WriteBlock>, ids: seq<nat>)
    requires Names(all, q, ids) && |q| > 0
    ensures NamesOne(all, q[0], Some(ids[0])) && Names(all, q[1..], ids[1..])
  {
    assert KnownAt(all, q, 0);
    var r := q[1..];
    forall i: nat | i < |r| ensures KnownAt(all, r, i) && r[i].id == ids[1..][i] {
      assert KnownAt(all, q, i + 1);
    }
  }

  lemma NamesDrop(all: seq<WriteBlock>, q: seq<WriteBlock>, ids: seq<nat>)
    requires Names(all, q, ids) && |q| > 0
    ensures var n := |q| - 1; NamesOne(all, q[n], Some(ids[n])) && Names(all, q[..n], ids[..n])
  {
    var n := |q| - 1;
    assert KnownAt(all, q, n);
    var r := q[..n];
    forall i: nat | i < |r| ensures KnownAt(all, r, i) && r[i].id == ids[..n][i] {
      assert KnownAt(all, q, i);
    }
  }

  ghost predicate NewAt(bs: seq<WriteBlock>, i: nat, capacity: nat)
    reads if i < |bs| then {bs[i], bs[i].buf} else {}
  {
    i < |bs| && bs[i].id == i && bs[i].Value() == Block(Zeros(capacity), 0, 0, 0, 0)
  }

  ghost predicate OwnBuffers(bs: seq<WriteBlock>, i: nat, j: nat) {
    i < |bs| && j < |bs| && bs[i] != bs[j] && bs[i].buf != bs[j].buf
  }

  /** The blocks of the pool, allocated and zeroed. */
  method MakePool(n: nat, capacity: nat) returns (bs: seq<WriteBlock>)
    ensures |bs| == n && (forall i: nat :: i < n ==> NewAt(bs, i, capacity))
    ensures forall i: nat :: i < n ==> fresh(bs[i]) && fresh(bs[i].buf)
    ensures forall i: nat, j: nat :: i < j < n ==> OwnBuffers(bs, i, j)
  {
    bs := [];
    for k := 0 to n
      invariant |bs| == k && forall i: nat :: i < k ==> NewAt(bs, i, capacity)
      invariant forall i: nat :: i < k ==> fresh(bs[i]) && fresh(bs[i].buf)
      invariant forall i: nat, j: nat :: i < j < k ==> OwnBuffers(bs, i, j)
    {
      ghost var was := bs;
      var b := new WriteBlock(k, capacity);
      bs := bs + [b];
      forall i: nat | i < k + 1 ensures NewAt(bs, i, capacity) {
        assert i < k ==> NewAt(was, i, capacity);
      }
      forall i: nat, j: nat | i < j < k + 1 ensures OwnBuffers(bs, i, j) {
        assert j < k ==> OwnBuffers(was, i, j);
      }
    }
  }

  ghost predicate OpenedAt(bs: seq<WriteBlock>, blocks: seq<Block>, i: nat)
    reads if i < |bs| then {bs[i], bs[i].buf} else {}
  {
    i < |bs| && i < |blocks| && bs[i].id == i && bs[i].buf.Length == |blocks[i].buf| && bs[i].Value() == blocks[i]
  }

  /** The pool with its last block aimed at the new segment. */
  method OpenPool(c: Config, segs: seq<SegmentFile>, ghost s: State) returns (bs: seq<WriteBlock>)
    requires GoodConfig(c) && s == Open(c, segs, s.log, s.dead)
    ensures |bs| == c.poolSize && (forall i: nat :: i < c.poolSize ==> OpenedAt(bs, s.blocks, i))
    ensures forall i: nat :: i < c.poolSize ==> fresh(bs[i]) && fresh(bs[i].buf)
    ensures forall i: nat, j: nat :: i < j < c.poolSize ==> OwnBuffers(bs, i, j)
  {
    bs := MakePool(c.poolSize, c.capacity);
    var n := c.poolSize - 1;
    label Made:
    assert NewAt(bs, n, c.capacity);
    bs[n].Reset(|segs|, SEGMENT_HEADER_SIZE);
    forall i: nat | i < c.poolSize ensures OpenedAt(bs, s.blocks, i) {
      assert old@Made(NewAt(bs, i, c.capacity));
      assert i < n ==> OwnBuffers(bs, i, n);
      assert |bs[i].buf[..]| == bs[i].buf.Length;
    }
  }

  class BlobStore {
    const c: Config
    const all: seq<WriteBlock>
    var active: WriteBlock?
    var queue: seq<WriteBlock>
    var freePool: seq<WriteBlock>
    var flushing: WriteBlock?
    var segments: seq<SegmentFile>
    var sequence: nat
    var running: bool
    ghost var abs: State
    ghost const Repr: set<object>

    ghost predicate Owns(i: nat) {
      i < |all| && all[i] in Repr && all[i].buf in Repr && all[i].id == i && all[i].buf.Length == c.capacity
      && (all[i] as object) != this
    }

    ghost predicate OwnBuffer(i: nat, j: nat) {
      i < |all| && j < |all| && all[i] != all[j] && all[i].buf != all[j].buf
    }

    /** The pool blocks are this store's alone, each with a buffer of its own. */
    ghost predicate Layout() {
      && this in Repr && |all| == c.poolSize && GoodConfig(c)
      && (forall i: nat :: i < |all| ==> Owns(i))
      && (forall i: nat, j: nat :: i < j < |all| ==> OwnBuffer(i, j))
    }

    ghost predicate BlockTied(i: nat)
      reads this, Repr
    {
      Owns(i) && i < |abs.blocks| && all[i].Value() == abs.blocks[i]
    }

    ghost predicate FieldsTied()
      reads this
    {
      && Names(all, queue, abs.queue) && Names(all, freePool, abs.free)
      && NamesOne(all, active, abs.active) && NamesOne(all, flushing, abs.flushing)
      && segments == abs.segs && sequence == abs.sequence && running == abs.running
    }

    ghost predicate BlocksTied()
      reads this, Repr
    {
      |abs.blocks| == |all| && forall i: nat :: i < |all| ==> BlockTied(i)
    }

    /** Fields and blocks are those of the step machine's state. */
    ghost predicate Tied()
      reads this, Repr
    {
      Layout() && FieldsTied() && BlocksTied()
    }

    /** Opens over the segments found on disk: a new segment becomes current, and the last
        block of the pool becomes active. */
    constructor (c: Config, segs: seq<SegmentFile>, ghost log: seq<Rec>, ghost dead: set<nat>)
      requires GoodConfig(c)
      ensures Tied() && fresh(Repr) && this.c == c && abs == Open(c, segs, log, dead)
    {
      ghost var s := Open(c, segs, log, dead);
      var bs := OpenPool(c, segs, s);
      var n := c.poolSize - 1;
      this.c, all := c, bs;
      Repr := {this} + (set i | 0 <= i < |bs| :: bs[i]) + (set i | 0 <= i < |bs| :: bs[i].buf);
      active, queue, freePool, flushing := bs[n], [], bs[..n], null;
      segments := segs + [SegmentFile(SEGMENT_HEADER_SIZE, 0, 0, c.header)];
      sequence, running := 0, true;
      abs := s;
      new;
      forall i: nat | i < |all| ensures Owns(i) && BlockTied(i) {
        assert OpenedAt(bs, s.blocks, i);
      }
      forall i: nat, j: nat | i < j < |all| ensures OwnBuffer(i, j) {
        assert OwnBuffers(bs, i, j);
      }
      forall i: nat | i < n ensures KnownAt(all, freePool, i) && freePool[i].id == abs.free[i] {
        assert Owns(i);
      }
      assert Owns(n);
    }

    // ---- Steps of the writer ----

    method ParkActive(ghost e: Entry)
      requires Tied() && active != null && Shape(c, abs)
      modifies this
      ensures Tied() && active == old(active) && old(abs).active.Some? && abs == Park(c, old(abs), e)
    {
      assert BlockTied(active.id);
      if active.pos > 0 {
        NamesPush(all, queue, abs.queue, active);
        queue := queue + [active];
      } else {
        NamesPush(all, freePool, abs.free, active);
        freePool := freePool + [active];
      }
      abs := Park(c, abs, e);
      forall i: nat | i < |all| ensures BlockTied(i) {
        assert old(BlockTied(i));
      }
    }

    method OpenSegmentFor(d: nat)
      requires Tied() && Shape(c, abs)
      modifies this
      ensures Tied() && active == old(active)
      ensures abs == if NeedsSegment(c, old(abs), d) then NewSegment(c, old(abs)) else old(abs)
    {
      if segments[|segments| - 1].writeOffset + d > c.segmentSize {
        segments := segments + [SegmentFile(SEGMENT_HEADER_SIZE, 0, 0, c.header)];
        abs := NewSegment(c, abs);
      }
      forall i: nat | i < |all| ensures BlockTied(i) {
        assert old(BlockTied(i));
      }
    }

    /** The last free block becomes active, aimed at the end of the current segment. */
    method AimFreeBlock()
      requires Tied() && Shape(c, abs) && |abs.free| > 0
      modifies this, Repr
      ensures Tied() && abs == TakeHere(c, old(abs))
    {
      var n := |freePool| - 1;
      NamesDrop(all, freePool, abs.free);
      var wb := freePool[n];
      ghost var k := wb.id;
      assert BlockTied(k);
      freePool := freePool[..n];
      active := wb;
      wb.Reset(|segments| - 1, segments[|segments| - 1].writeOffset);
      abs := TakeHere(c, abs);
      forall i: nat | i < |all| ensures BlockTied(i) {
        assert old(BlockTied(i));
        assert i < k ==> OwnBuffer(i, k);
        assert k < i ==> OwnBuffer(k, i);
      }
    }

    /** The entry goes behind the active block's last one; the segment's counters advance. */
    method AppendEntry(e: Entry) returns (loc: Location)
      requires Tied() && Shape(c, abs) && active != null && active.pos + DiskSize(e) <= c.capacity
      modifies this, Repr
      ensures Tied() && old(abs).active.Some? && old(abs).blocks[old(abs).active.value].pos + DiskSize(e) <= c.capacity
      ensures abs == Append(c, old(abs), e) && loc == abs.log[|abs.log| - 1].loc
    {
      ghost var k := active.id;
      assert BlockTied(k);
      var d := EntryDiskSize(|e.blob|);
      loc := Location(active.segId, active.segOff + active.pos, |e.blob|, d);
      active.Put(e, sequence);
      var last := |segments| - 1;
      segments := segments[last := Advance(segments[last], d)];
      sequence := sequence + 1;
      abs := Append(c, abs, e);
      forall i: nat | i < |all| ensures BlockTied(i) {
        assert old(BlockTied(i));
        assert i < k ==> OwnBuffer(i, k);
        assert k < i ==> OwnBuffer(k, i);
      }
    }

    method WriteAtEnd(e: Entry, img: Bytes) returns (loc: Location)
      requires Tied() && |abs.segs| >= 1
      modifies this
      ensures Tied() && active == old(active)
      ensures abs == DirectInto(old(abs), e, img) && loc == abs.log[|abs.log| - 1].loc
    {
      var last := |segments| - 1;
      var g := segments[last];
      segments := segments[last := Advance(g, |img|).(file := WriteAt(g.file, g.writeOffset, img))];
      sequence := sequence + 1;
      loc := Location(last, g.writeOffset, |e.blob|, |img|);
      abs := DirectInto(abs, e, img);
      forall i: nat | i < |all| ensures BlockTied(i) {
        assert old(BlockTied(i));
      }
    }

    /** An entry too large for a block goes straight to the end of the current segment. */
    method WriteOversized(e: Entry) returns (loc: Location)
      requires Tied() && Shape(c, abs)
      modifies this
      ensures Tied() && active == old(active) && abs == WriteDirect(c, old(abs), e) && loc == abs.log[|abs.log| - 1].loc
    {
      var img := Image(e, sequence, Zeros(RESERVED_SIZE));
      assert img == DirectImage(abs, e);
      OpenSegmentFor(|img|);
      loc := WriteAtEnd(e, img);
    }

    // ---- Steps of the flusher ----

    method PopEmpty()
      requires Tied() && Shape(c, abs) && |abs.queue| > 0
      modifies this
      ensures Tied() && abs == Recycle(old(abs))
    {
      NamesPop(all, queue, abs.queue);
      NamesPush(all, freePool, abs.free, queue[0]);
      freePool := freePool + [queue[0]];
      queue := queue[1..];
      abs := Recycle(abs);
      forall i: nat | i < |all| ensures BlockTied(i) {
        assert old(BlockTied(i));
      }
    }

    method PopToFlush()
      requires Tied() && Shape(c, abs) && |abs.queue| > 0
      modifies this
      ensures Tied() && flushing != null && abs == StartFlush(old(abs))
    {
      NamesPop(all, queue, abs.queue);
      flushing := queue[0];
      queue := queue[1..];
      abs := StartFlush(abs);
      forall i: nat | i < |all| ensures BlockTied(i) {
        assert old(BlockTied(i));
      }
    }

    /** The first `n` bytes of the block being flushed reach its segment's file. */
    method WriteOut(n: nat)
      requires Tied() && Shape(c, abs) && flushing != null && abs.flushed == 0 && n <= c.capacity
      modifies this
      ensures Tied() && flushing == old(flushing) && old(abs).flushing.Some? && abs == Pwrite(c, old(abs), n)
    {
      assert BlockTied(flushing.id);
      var k := flushing.segId;
      assert BlockShape(c, |abs.segs|, abs.blocks[flushing.id]);
      var g := segments[k];
      assert flushing.buf[..][0..n] == flushing.buf[..n];
      segments := segments[k := g.(file := WriteAt(g.file, flushing.segOff, flushing.buf[..n]))];
      abs := Pwrite(c, abs, n);
      forall i: nat | i < |all| ensures BlockTied(i) {
        assert old(BlockTied(i));
      }
    }

    method ReturnBlock()
      requires Tied() && flushing != null
      modifies this
      ensures Tied() && old(abs).flushing.Some? && abs == Return(old(abs))
    {
      NamesPush(all, freePool, abs.free, flushing);
      freePool := freePool + [flushing];
      flushing := null;
      abs := Return(abs);
      forall i: nat | i < |all| ensures BlockTied(i) {
        assert old(BlockTied(i));
      }
    }

    /** One turn of the flusher's loop. */
    method FlushOne()
      requires Tied() && CanFlush(c, abs)
      modifies this
      ensures Tied() && abs == FlushFront(c, old(abs))
    {
      NamesPop(all, queue, abs.queue);
      assert BlockTied(queue[0].id);
      if queue[0].pos == 0 {
        PopEmpty();
      } else {
        var n := AlignUp(queue[0].pos);
        PopToFlush();
        WriteOut(n);
        ReturnBlock();
      }
    }

    // ---- What callers use ----

    /** A running store between calls. */
    ghost predicate Ready()
      reads this, Repr
    {
      Tied() && Sound(c, abs)
    }

    /** Whoever leaves the store's objects alone leaves the store as it is. */
    twostate lemma Untouched()
      requires old(Ready()) && unchanged(Repr)
      ensures Ready() && abs == old(abs)
    {
      forall i: nat | i < |all| ensures BlockTied(i) {
        assert old(BlockTied(i));
      }
    }

    /** The flusher comes by between calls; with an empty queue it waits on. */
    method FlushTurn()
      requires Ready()
      modifies this
      ensures Ready() && FlushLeaves(old(abs), abs)
      ensures abs == if |old(abs).queue| > 0 && CanFlush(c, old(abs)) then FlushFront(c, old(abs)) else old(abs)
    {
      if |queue| > 0 {
        SoundFlush(c, abs);
        FlushOne();
      }
    }

    /** The active block joins the queue; with a dry pool the writer waits for the flusher. */
    method WaitForBlock(ghost e: Entry)
      requires Ready() && Storable(|e.blob|) && Shape(c, abs) && abs.active.Some? && Rotates(c, abs, e)
      modifies this
      ensures var p := Park(c, old(abs), e);
              && Tied() && Shape(c, p) && (|p.free| == 0 ==> CanFlush(c, p))
              && abs == (if |p.free| > 0 then p else FlushFront(c, p)) && Shape(c, abs) && |abs.free| > 0
    {
      SoundRotation(c, abs, e);
      ParkActive(e);
      if |freePool| == 0 {
        FlushOne();
      }
    }

    method AcquireBlock()
      requires Tied() && Shape(c, abs) && |abs.free| > 0
      modifies this, Repr
      ensures Tied() && active != null && active.pos == 0 && abs == TakeBlock(c, old(abs)) && Shape(c, abs) && Starts(c, old(abs), abs)
    {
      TakenStart(c, abs);
      RoomKeepsShape(c, abs);
      TakeHereKeepsShape(c, RoomForBlock(c, abs));
      OpenSegmentFor(c.capacity);
      AimFreeBlock();
      assert BlockTied(active.id);
    }

    /** Straight to the segment, into the active block, or into the next one. */
    method StoreEntry(entry: Entry) returns (loc: Location)
      requires Ready() && Storable(|entry.blob|)
      modifies this, Repr
      ensures Tied() && CanSync(c, old(abs), entry) && abs == WriteSync(c, old(abs), entry)
      ensures |abs.log| > 0 && loc == abs.log[|abs.log| - 1].loc
    {
      SoundFacts(c, abs);
      SoundWrite(c, abs, entry);
      assert BlockTied(active.id);
      var d := EntryDiskSize(|entry.blob|);
      if d > active.buf.Length {
        loc := WriteOversized(entry);
      } else {
        if active.pos + d > active.buf.Length {
          WaitForBlock(entry);
          AcquireBlock();
        }
        loc := AppendEntry(entry);
      }
    }

    method Write(key: StorageKey, data: Bytes, checksum: U32) returns (status: Status, loc: Location)
      requires Ready() && (|data| <= U32_MAX - ENTRY_HEADER_SIZE ==> Storable(|data|))
      modifies this, Repr
      ensures status == if |data| > U32_MAX - ENTRY_HEADER_SIZE then InvalidArgument else Ok
      ensures status != Ok ==> Ready() && abs == old(abs)
      ensures status == Ok ==>
                var e := Entry(key, data, checksum);
                && Tied() && CanSync(c, old(abs), e) && abs == WriteSync(c, old(abs), e)
                && |abs.log| > 0 && loc == abs.log[|abs.log| - 1].loc
                && (!Oversized(c, e) ==> Ready() && Adds(old(abs), abs, e)) && Lands(c, old(abs), abs, e)
    {
      if |data| > U32_MAX - ENTRY_HEADER_SIZE {
        return InvalidArgument, Location(0, 0, 0, 0);
      }
      var entry := Entry(key, data, checksum);
      SoundWrite(c, abs, entry);
      SyncLands(c, abs, entry);
      loc := StoreEntry(entry);
      status := Ok;
    }

    method FindPendingBlock(loc: Location) returns (b: WriteBlock?)
      requires Tied() && Shape(c, abs)
      ensures NamesOne(all, b, FindPending(c, abs, loc))
    {
      if active != null {
        assert BlockTied(active.id);
        if active.segId == loc.segId && active.segOff <= loc.offset < active.segOff + active.pos {
          return active;
        }
      }
      if flushing != null {
        assert BlockTied(flushing.id);
        if flushing.segId == loc.segId && flushing.segOff <= loc.offset < flushing.segOff + flushing.pos {
          return flushing;
        }
      }
      for i := 0 to |queue|
        invariant FindPending(c, abs, loc) == FindInQueue(abs, abs.queue[i..], loc)
      {
        assert KnownAt(all, queue, i) && BlockTied(queue[i].id);
        assert abs.queue[i..][1..] == abs.queue[i + 1..];
        if queue[i].segId == loc.segId && queue[i].segOff <= loc.offset < queue[i].segOff + queue[i].pos {
          return queue[i];
        }
      }
      return null;
    }

    /** Pending blocks first, then the disk; a short read or a zero size is tried once more. */
    method Read(loc: Location, bufLen: nat) returns (status: Status, data: Bytes)
      requires Tied() && CanRead(c, abs, loc)
      ensures ReadResult(status, data) == ReadOutcome(c, abs, loc, bufLen)
    {
      for attempt := 0 to 2
        invariant attempt == 2 ==> ReadOutcome(c, abs, loc, bufLen) == ReadResult(NotFound, [])
      {
        var b := FindPendingBlock(loc);
        if b != null {
          assert BlockTied(b.id);
          status, data := CopyOut(b.buf[loc.offset - b.segOff..], bufLen);
          return;
        }
        if loc.segId >= |segments| {
          return NotFound, [];
        }
        var file := segments[loc.segId].file;
        if loc.offset + loc.diskSize <= |file| {
          var img := file[loc.offset..loc.offset + loc.diskSize];
          if BlobSizeField(img) != 0 {
            status, data := CopyOut(img, bufLen);
            return;
          }
        }
      }
      return NotFound, [];
    }

    method MarkEntryDead(loc: Location, ghost k: nat)
      requires Ready() && k < |abs.log| && loc == abs.log[k].loc
      modifies this
      ensures Ready() && loc.segId < |old(abs).segs| && abs == MarkDead(old(abs), k)
    {
      SoundMarkDead(c, abs, k);
      var g := segments[loc.segId];
      if g.liveCount > 0 {
        segments := segments[loc.segId := g.(liveCount := g.liveCount - 1)];
      }
      abs := MarkDead(abs, k);
      forall i: nat | i < |all| ensures BlockTied(i) {
        assert old(BlockTied(i));
      }
    }
  
    method EnqueueActive()
      requires Tied() && Shape(c, abs)
      modifies this
      ensures Tied() && abs == CloseEnqueue(c, old(abs)).(running := false)
    {
      if active != null {
        assert BlockTied(active.id);
        if active.pos > 0 {
          NamesPush(all, queue, abs.queue, active);
          queue := queue + [active];
          active := null;
        }
      }
      running := false;
      abs := CloseEnqueue(c, abs).(running := false);
      forall i: nat | i < |all| ensures BlockTied(i) {
        assert old(BlockTied(i));
      }
    }

    method DrainQueue()
      requires Tied() && Draining(c, abs)
      modifies this
      ensures Tied() && abs == Drain(c, old(abs))
    {
      ghost var goal := Drain(c, abs);
      while |queue| > 0
        invariant Tied() && Draining(c, abs) && Drain(c, abs) == goal
        decreases |queue|
      {
        DrainOne(c, abs);
        FlushOne();
      }
    }

    method RewriteAllHeaders(header: Bytes)
      requires Tied()
      modifies this
      ensures Tied() && abs == RewriteHeaders(old(abs), header)
    {
      ghost var was := segments;
      for k := 0 to |segments|
        invariant |segments| == |was| && abs == old(abs)
        invariant active == old(active) && queue == old(queue) && freePool == old(freePool) && flushing == old(flushing)
        invariant sequence == old(sequence) && running == old(running)
        invariant forall j :: 0 <= j < |was| ==> segments[j] == if j < k then was[j].(file := WriteAt(was[j].file, 0, header)) else was[j]
      {
        segments := segments[k := segments[k].(file := WriteAt(segments[k].file, 0, header))];
      }
      abs := RewriteHeaders(abs, header);
      assert segments == abs.segs;
      forall i: nat | i < |all| ensures BlockTied(i) {
        assert old(BlockTied(i));
      }
    }

    ghost method MarkExited()
      requires Tied()
      modifies this`abs
      ensures Tied() && abs == old(abs).(left := true, exited := true)
    {
      abs := abs.(left := true, exited := true);
      forall i: nat | i < |all| ensures BlockTied(i) {
        assert old(BlockTied(i));
      }
    }

    /** The active block joins the queue, the flusher drains it and leaves, and the segment
        headers are written again. */
    method Close(header: Bytes)
      requires Ready()
      modifies this
      ensures Tied() && Shape(c, old(abs)) && abs == RewriteHeaders(Stopped(c, old(abs)), header)
    {
      CloseDrains(c, abs);
      EnqueueActive();
      DrainQueue();
      MarkExited();
      RewriteAllHeaders(header);
    }
  }

  /** The blob an image announces, if the caller's buffer can take it. */
  method CopyOut(img: Bytes, bufLen: nat) returns (status: Status, data: Bytes)
    requires Readable(img)
    ensures ReadResult(status, data) == ReadPending(img, bufLen)
  {
    var size := BlobSizeField(img);
    if size > bufLen {
      return BufferTooSmall, [];
    }
    return Ok, img[ENTRY_HEADER_SIZE..ENTRY_HEADER_SIZE + size];
  }
}
