/** The write-block protocol of the blob store as a step machine. One event is one critical
    section of the block mutex, or one unlocked disk operation. Writers append to the active
    block; full blocks queue for the flusher, which writes them to their segment in one or more
    partial writes and returns them to the pool; readers look in the pending blocks first and,
    any number of events later, on disk. */
module BlobProtocol {
  import opened Common
  import opened Segment

  datatype Config = Config(capacity: nat, segmentSize: nat, poolSize: nat, header: Bytes)

  /** A write block always fits in a segment, and the pool is not empty. `header` is the block
      of bytes a new segment file starts with. */
  predicate GoodConfig(c: Config) {
    && 0 < c.capacity <= INT_MAX
    && SEGMENT_HEADER_SIZE + c.capacity <= c.segmentSize
    && c.poolSize >= 1 && |c.header| == SEGMENT_HEADER_SIZE
  }

  datatype Location = Location(segId: nat, offset: nat, length: nat, diskSize: nat)

  datatype Block = Block(buf: Bytes, pos: nat, segId: nat, segOff: nat, entryCount: nat)

  datatype SegmentFile = SegmentFile(writeOffset: nat, entryCount: nat, liveCount: nat, file: Bytes)

  /** What one successful write left behind: the location it returned, and the bytes it put there. */
  datatype Rec = Rec(loc: Location, entry: Entry, image: Bytes)

  /** Blocks are named by their index in the pool, segments by their id. `log` lists every
      location ever returned; `misses` maps a reader that found its location in no pending
      block to the log index it is about to read from disk. The flusher has `left` its
      main loop, or `exited` altogether; in between it drains what is still queued, and the
      block it is `draining` is known to nobody else. */
  datatype State = State(
    blocks: seq<Block>,
    active: Option<nat>,
    queue: seq<nat>,
    free: seq<nat>,
    flushing: Option<nat>,
    flushSize: nat,
    flushed: nat,
    running: bool,
    left: bool,
    draining: Option<nat>,
    exited: bool,
    closing: bool,
    waiting: Option<Entry>,
    segs: seq<SegmentFile>,
    sequence: nat,
    misses: map<nat, nat>,
    log: seq<Rec>,
    dead: set<nat>)

  function DiskSize(e: Entry): nat {
    EntryDiskSize(|e.blob|)
  }

  // ---- Well-formed states: every index the steps use is in range ----

  predicate BlockShape(c: Config, segments: nat, b: Block) {
    && |b.buf| == c.capacity
    && b.pos <= c.capacity
    && b.segId < segments
  }

  predicate AllIds(blocks: nat, q: seq<nat>) {
    forall i :: 0 <= i < |q| ==> q[i] < blocks
  }

  predicate BlockShapes(c: Config, segments: nat, blocks: seq<Block>) {
    forall b :: 0 <= b < |blocks| ==> BlockShape(c, segments, blocks[b])
  }

  predicate Shape(c: Config, s: State) {
    && GoodConfig(c)
    && |s.blocks| == c.poolSize && |s.segs| >= 1
    && BlockShapes(c, |s.segs|, s.blocks)
    && (s.active.Some? ==> s.active.value < |s.blocks|)
    && (s.flushing.Some? ==> s.flushing.value < |s.blocks|)
    && (s.draining.Some? ==> s.draining.value < |s.blocks|)
    && AllIds(|s.blocks|, s.queue) && AllIds(|s.blocks|, s.free)
  }

  // ---- Writer ----

  function Cur(s: State): (k: nat)
    requires |s.segs| >= 1
    ensures k < |s.segs|
  {
    |s.segs| - 1
  }

  function NewSegment(c: Config, s: State): State {
    s.(segs := s.segs + [SegmentFile(SEGMENT_HEADER_SIZE, 0, 0, c.header)])
  }

  function Advance(g: SegmentFile, d: nat): SegmentFile {
    g.(writeOffset := g.writeOffset + d, entryCount := g.entryCount + 1, liveCount := g.liveCount + 1)
  }

  function NewRec(segId: nat, offset: nat, e: Entry, img: Bytes): Rec {
    Rec(Location(segId, offset, |e.blob|, |img|), e, img)
  }

  function PutImage(b: Block, img: Bytes): Block {
    b.(buf := WriteAt(b.buf, b.pos, img), pos := b.pos + |img|, entryCount := b.entryCount + 1)
  }

  /** The image goes behind the active block's last entry; the segment's counters advance. */
  function AppendImage(c: Config, s: State, e: Entry, img: Bytes): State
    requires Shape(c, s) && s.active.Some? && s.blocks[s.active.value].pos + |img| <= c.capacity
  {
    var a := s.active.value;
    var b := s.blocks[a];
    s.(blocks := s.blocks[a := PutImage(b, img)],
       segs := s.segs[Cur(s) := Advance(s.segs[Cur(s)], |img|)],
       sequence := s.sequence + 1,
       log := s.log + [NewRec(b.segId, b.segOff + b.pos, e, img)])
  }

  /** The reserved bytes of the header are not written: they keep what the reused buffer held. */
  function BlockImage(b: Block, sequence: nat, e: Entry): (img: Bytes)
    requires b.pos + DiskSize(e) <= |b.buf|
    ensures |img| == DiskSize(e) && IsImageOf(img, e)
  {
    Image(e, sequence, b.buf[b.pos + 54..b.pos + 64])
  }

  function Append(c: Config, s: State, e: Entry): State
    requires Shape(c, s) && s.active.Some? && s.blocks[s.active.value].pos + DiskSize(e) <= c.capacity
  {
    AppendImage(c, s, e, BlockImage(s.blocks[s.active.value], s.sequence, e))
  }

  /** A block too full for the next entry leaves the active role, and the writer wants another.
      The active pointer still names the old block. */
  function Park(c: Config, s: State, e: Entry): State
    requires Shape(c, s) && s.active.Some?
  {
    var a := s.active.value;
    if s.blocks[a].pos > 0
    then s.(queue := s.queue + [a], waiting := Some(e))
    else s.(free := s.free + [a], waiting := Some(e))
  }

  /** Opens a new segment if a whole block would no longer fit in the current one. */
  function RoomForBlock(c: Config, s: State): State
    requires |s.segs| >= 1
  {
    if NeedsSegment(c, s, c.capacity) then NewSegment(c, s) else s
  }

  /** Takes the last free block and aims it at the end of the current segment. */
  function TakeHere(c: Config, s: State): State
    requires Shape(c, s) && |s.free| > 0
  {
    var b := s.free[|s.free| - 1];
    var target := s.blocks[b].(pos := 0, segId := Cur(s), segOff := s.segs[Cur(s)].writeOffset, entryCount := 0);
    s.(free := s.free[..|s.free| - 1], active := Some(b), waiting := None, blocks := s.blocks[b := target])
  }

  function TakeBlock(c: Config, s: State): State
    requires Shape(c, s) && |s.free| > 0
  {
    RoomKeepsShape(c, s);
    TakeHere(c, RoomForBlock(c, s))
  }

  function DirectImage(s: State, e: Entry): (img: Bytes)
    ensures |img| == DiskSize(e) && IsImageOf(img, e)
  {
    Image(e, s.sequence, Zeros(RESERVED_SIZE))
  }

  predicate NeedsSegment(c: Config, s: State, d: nat)
    requires |s.segs| >= 1
  {
    s.segs[Cur(s)].writeOffset + d > c.segmentSize
  }

  /** The image goes straight to the end of the current segment; the active block stays put. */
  function DirectInto(s: State, e: Entry, img: Bytes): State
    requires |s.segs| >= 1
  {
    var k := Cur(s);
    var g := s.segs[k];
    var g' := Advance(g, |img|).(file := WriteAt(g.file, g.writeOffset, img));
    s.(segs := s.segs[k := g'], sequence := s.sequence + 1,
       log := s.log + [NewRec(k, g.writeOffset, e, img)])
  }

  function WriteDirect(c: Config, s: State, e: Entry): State
    requires |s.segs| >= 1
  {
    DirectInto(if NeedsSegment(c, s, DiskSize(e)) then NewSegment(c, s) else s, e, DirectImage(s, e))
  }

  predicate Oversized(c: Config, e: Entry) {
    DiskSize(e) > c.capacity
  }

  predicate Rotates(c: Config, s: State, e: Entry)
    requires Shape(c, s) && s.active.Some?
  {
    !Oversized(c, e) && s.blocks[s.active.value].pos + DiskSize(e) > c.capacity
  }

  /** One writer's critical section. In a dry pool the writer stays parked, or fails at once if
      the store is stopping; otherwise the wait for a block is over at once. */
  function Write(c: Config, s: State, e: Entry): State
    requires Shape(c, s) && s.active.Some?
  {
    if Oversized(c, e) then WriteDirect(c, s, e)
    else if Rotates(c, s, e) then
      var p := Park(c, s, e);
      if |p.free| > 0 then ResumeWith(c, p, e) else if s.running then p else GiveUp(p)
    else Append(c, s, e)
  }

  function ResumeWith(c: Config, s: State, e: Entry): State
    requires Shape(c, s) && |s.free| > 0 && DiskSize(e) <= c.capacity
  {
    RoomKeepsShape(c, s);
    TakeHereKeepsShape(c, RoomForBlock(c, s));
    Append(c, TakeBlock(c, s), e)
  }

  /** The wait for a block is over: a free one is taken, or the store is stopping and the
      write fails, leaving no active block. */
  function Wake(c: Config, s: State): State
    requires Shape(c, s) && s.waiting.Some? && !Oversized(c, s.waiting.value)
  {
    if |s.free| > 0 then ResumeWith(c, s, s.waiting.value) else GiveUp(s)
  }

  function GiveUp(s: State): State {
    s.(waiting := None, active := None)
  }

  lemma RoomKeepsShape(c: Config, s: State)
    requires Shape(c, s)
    ensures Shape(c, RoomForBlock(c, s)) && RoomForBlock(c, s).free == s.free
  {
    var t := RoomForBlock(c, s);
    assert t == s.(segs := t.segs) && |t.segs| >= |s.segs|;
  }

  lemma TakeHereKeepsShape(c: Config, s: State)
    requires Shape(c, s) && |s.free| > 0
    ensures Shape(c, TakeHere(c, s))
  {
    var t := TakeHere(c, s);
    forall b | 0 <= b < |t.blocks| ensures BlockShape(c, |t.segs|, t.blocks[b]) {
      assert BlockShape(c, |s.segs|, s.blocks[b]);
    }
  }

  // ---- Flusher ----

  function Recycle(s: State): State
    requires |s.queue| > 0
  {
    s.(queue := s.queue[1..], free := s.free + [s.queue[0]])
  }

  /** The size of the block is read once, as the block is taken. */
  function StartFlush(s: State): State
    requires |s.queue| > 0 && s.queue[0] < |s.blocks|
  {
    s.(queue := s.queue[1..], flushing := Some(s.queue[0]), flushSize := AlignUp(s.blocks[s.queue[0]].pos), flushed := 0)
  }

  /** The front of the queue; an empty block needs no flush. */
  function Pop(s: State): State
    requires |s.queue| > 0 && s.queue[0] < |s.blocks|
  {
    if s.blocks[s.queue[0]].pos == 0 then Recycle(s) else StartFlush(s)
  }

  function PwriteFile(file: Bytes, b: Block, from: nat, n: nat): Bytes
    requires from + n <= |b.buf|
  {
    WriteAt(file, b.segOff + from, b.buf[from..from + n])
  }

  /** `n` more bytes of the block reach the file, outside the lock. */
  function Pwrite(c: Config, s: State, n: nat): State
    requires Shape(c, s) && s.flushing.Some?
    requires s.flushed + n <= c.capacity
  {
    var b := s.blocks[s.flushing.value];
    var g := s.segs[b.segId];
    s.(segs := s.segs[b.segId := g.(file := PwriteFile(g.file, b, s.flushed, n))], flushed := s.flushed + n)
  }

  function Return(s: State): State
    requires s.flushing.Some?
  {
    s.(flushing := None, free := s.free + [s.flushing.value])
  }

  // ---- The flusher's last look at the queue ----

  /** Outside its main loop the flusher takes a block without saying so to readers. */
  function DrainPop(s: State): State
    requires |s.queue| > 0 && s.queue[0] < |s.blocks|
  {
    s.(queue := s.queue[1..], draining := Some(s.queue[0]), flushSize := AlignUp(s.blocks[s.queue[0]].pos), flushed := 0)
  }

  function DrainWrite(c: Config, s: State, n: nat): State
    requires Shape(c, s) && s.draining.Some?
    requires s.flushed + n <= c.capacity
  {
    var b := s.blocks[s.draining.value];
    var g := s.segs[b.segId];
    s.(segs := s.segs[b.segId := g.(file := PwriteFile(g.file, b, s.flushed, n))], flushed := s.flushed + n)
  }

  // ---- Readers ----

  predicate Covers(b: Block, loc: Location) {
    b.segId == loc.segId && b.segOff <= loc.offset < b.segOff + b.pos
  }

  function FindInQueue(s: State, q: seq<nat>, loc: Location): (r: Option<nat>)
    requires AllIds(|s.blocks|, q)
    ensures r.Some? ==> r.value in q && r.value < |s.blocks| && Covers(s.blocks[r.value], loc)
    ensures r.None? ==> forall i :: 0 <= i < |q| ==> !Covers(s.blocks[q[i]], loc)
  {
    if q == [] then None
    else if Covers(s.blocks[q[0]], loc) then Some(q[0])
    else FindInQueue(s, q[1..], loc)
  }

  /** The active block, then the one being flushed, then the queue from its front. */
  function FindPending(c: Config, s: State, loc: Location): (r: Option<nat>)
    requires Shape(c, s)
    ensures r.Some? ==> r.value < |s.blocks| && Covers(s.blocks[r.value], loc)
    ensures r.None? ==> forall b: nat :: b < |s.blocks| && Dirty(s, b) ==> !Covers(s.blocks[b], loc)
  {
    if s.active.Some? && Covers(s.blocks[s.active.value], loc) then s.active
    else if s.flushing.Some? && Covers(s.blocks[s.flushing.value], loc) then s.flushing
    else FindInQueue(s, s.queue, loc)
  }

  /** The block a writer may be appending to; a parked writer's active pointer is stale. */
  function Writing(s: State): Option<nat> {
    if s.waiting.None? then s.active else None
  }

  /** Blocks that may hold bytes the disk does not have yet. */
  predicate DirtyIn(queue: seq<nat>, flushing: Option<nat>, writing: Option<nat>, b: nat) {
    b in queue || flushing == Some(b) || writing == Some(b)
  }

  predicate Dirty(s: State, b: nat) {
    DirtyIn(s.queue, s.flushing, Writing(s), b)
  }

  // ---- Garbage accounting ----

  function CountDead(g: SegmentFile): SegmentFile {
    g.(liveCount := if g.liveCount > 0 then g.liveCount - 1 else 0)
  }

  /** The entry at log index `i` is no longer wanted; its bytes stay where they are. */
  function MarkDead(s: State, i: nat): State
    requires i < |s.log| && s.log[i].loc.segId < |s.segs|
  {
    var k := s.log[i].loc.segId;
    s.(segs := s.segs[k := CountDead(s.segs[k])], dead := s.dead + {i})
  }

  // ---- Shutdown ----

  function CloseEnqueue(c: Config, s: State): State
    requires Shape(c, s)
  {
    var s1 := s.(closing := true);
    if s.active.Some? && s.blocks[s.active.value].pos > 0
    then s1.(queue := s.queue + [s.active.value], active := None)
    else s1
  }

  /** The last act of close: every segment's header block is written again. */
  function RewriteHeaders(s: State, header: Bytes): State {
    s.(segs := seq(|s.segs|, k requires 0 <= k < |s.segs| => s.segs[k].(file := WriteAt(s.segs[k].file, 0, header))))
  }

  // ---- Events ----

  datatype Event =
    | DoWrite(entry: Entry)
    | DoResume
    | DoPop
    | DoPwrite(n: nat)
    | DoReturn
    | DoCheckPending(reader: nat, index: nat)
    | DoDiskRead(reader: nat)
    | DoCloseEnqueue
    | DoCloseStop
    | DoLeave
    | DoDrainPop
    | DoDrainWrite(n: nat)
    | DoDrainDone
    | DoExit
    | DoRewriteHeaders(header: Bytes)
    | DoMarkDead(index: nat)

  predicate CanWrite(s: State, e: Entry) {
    s.active.Some? && s.waiting.None? && !s.exited && Storable(|e.blob|)
  }

  /** When each thread can take its step. There is one writer: a write starts only while none
      is parked, and none starts or wakes once the flusher has exited, for then close frees the
      buffers. Close comes at any time, once. */
  predicate Enabled(c: Config, s: State, ev: Event) {
    && Shape(c, s)
    && match ev {
      case DoWrite(e) => s.waiting.None? && !s.exited && Storable(|e.blob|)
      case DoResume => s.waiting.Some? && !s.exited && (|s.free| > 0 || !s.running) && !Oversized(c, s.waiting.value)
      case DoPop => !s.left && s.flushing.None? && |s.queue| > 0
      case DoPwrite(n) => s.flushing.Some? && s.flushed + n <= s.flushSize <= c.capacity
      case DoReturn => s.flushing.Some? && s.flushed == s.flushSize
      case DoCheckPending(r, i) => r !in s.misses && i < |s.log|
      case DoDiskRead(r) => r in s.misses
      case DoCloseEnqueue => !s.closing
      case DoCloseStop => s.closing
      case DoLeave => !s.running && !s.left && s.flushing.None? && s.queue == []
      case DoDrainPop => s.left && !s.exited && s.draining.None? && |s.queue| > 0
      case DoDrainWrite(n) => s.draining.Some? && s.flushed + n <= s.flushSize <= c.capacity
      case DoDrainDone => s.draining.Some? && s.flushed == s.flushSize
      case DoExit => s.left && !s.exited && s.draining.None? && s.queue == []
      case DoRewriteHeaders(h) => s.exited && |h| == SEGMENT_HEADER_SIZE
      case DoMarkDead(i) => i < |s.log| && s.log[i].loc.segId < |s.segs|
    }
  }

  function Apply(c: Config, s: State, ev: Event): State
    requires Enabled(c, s, ev)
  {
    match ev
    case DoWrite(e) => if s.active.Some? then Write(c, s, e) else s
    case DoResume => Wake(c, s)
    case DoPop => Pop(s)
    case DoPwrite(n) => Pwrite(c, s, n)
    case DoReturn => Return(s)
    case DoCheckPending(r, i) =>
      if FindPending(c, s, s.log[i].loc).Some? then s else s.(misses := s.misses[r := i])
    case DoDiskRead(r) => s.(misses := s.misses - {r})
    case DoCloseEnqueue => CloseEnqueue(c, s)
    case DoCloseStop => s.(running := false)
    case DoLeave => s.(left := true)
    case DoDrainPop => DrainPop(s)
    case DoDrainWrite(n) => DrainWrite(c, s, n)
    case DoDrainDone => s.(draining := None)
    case DoExit => s.(exited := true)
    case DoRewriteHeaders(h) => RewriteHeaders(s, h)
    case DoMarkDead(i) => MarkDead(s, i)
  }

  // ---- Reading an image out of a buffer, as `read` does ----

  datatype ReadResult = ReadResult(status: Status, data: Bytes)

  /** The header and the blob it announces lie inside the bytes at hand. */
  predicate Readable(img: Bytes) {
    |img| >= ENTRY_HEADER_SIZE && ENTRY_HEADER_SIZE + BlobSizeField(img) <= |img|
  }

  function BlobIn(img: Bytes): Bytes
    requires Readable(img)
  {
    img[ENTRY_HEADER_SIZE..ENTRY_HEADER_SIZE + BlobSizeField(img)]
  }

  function ReadPending(img: Bytes, bufLen: nat): ReadResult
    requires Readable(img)
  {
    if BlobSizeField(img) > bufLen then ReadResult(BufferTooSmall, []) else ReadResult(Ok, BlobIn(img))
  }

  /** The final outcome of a disk read: a short read and a zero blob size are both a miss. */
  function ReadDisk(file: Bytes, loc: Location, bufLen: nat): ReadResult
    requires loc.offset + loc.diskSize <= |file| ==> Readable(file[loc.offset..loc.offset + loc.diskSize])
  {
    if loc.offset + loc.diskSize > |file| then ReadResult(NotFound, [])
    else
      var img := file[loc.offset..loc.offset + loc.diskSize];
      if BlobSizeField(img) > bufLen then ReadResult(BufferTooSmall, [])
      else if BlobSizeField(img) == 0 then ReadResult(NotFound, [])
      else ReadResult(Ok, BlobIn(img))
  }

  // ---- Opening ----

  function FreshBlock(c: Config): Block {
    Block(Zeros(c.capacity), 0, 0, 0, 0)
  }

  /** Opening over the segments found on disk: a new segment becomes current and the last
      block of the pool becomes active. `log` and `dead` are what earlier processes stored and
      gave up. */
  function Open(c: Config, segs: seq<SegmentFile>, log: seq<Rec>, dead: set<nat>): State
    requires c.poolSize >= 1
  {
    var segs' := segs + [SegmentFile(SEGMENT_HEADER_SIZE, 0, 0, c.header)];
    var n := c.poolSize - 1;
    State(
      seq(n, _ => FreshBlock(c)) + [FreshBlock(c).(segId := |segs|, segOff := SEGMENT_HEADER_SIZE)],
      Some(n), [], seq(n, i => i), None, 0, 0, true, false, None, false, false, None, segs', 0, map[], log, dead)
  }
}
