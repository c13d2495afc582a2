/** Any sequence of calls, and then a restart, or a read through an older index: what was saved
    last is what comes back. */
module EngineRestart {
  import opened Common
  import opened Segment
  import opened EngineModel
  import opened EngineHistory
  import opened EngineRun
  import B = BlobProtocol
  import CheckpointManager
  import Engine
  import OldCheckpoints
  import Restart
  import Slab
  import Slru
  import Snapshots

  /** An engine that is not dirty is as it was last saved. */
  lemma SavedNow(e: Engine.Engine)
    requires e.Valid() && e.t2 != null && !e.ckpt.dirty && |e.index| < 0x1_0000_0000_0000_0000
    ensures Restart.LastSaved(e, e.Now())
  {
    Restart.EngineFits(e, e.Now(), e.prompts);
  }

  lemma ApplySize(c: Contents, op: Op)
    ensures |Apply(c, op)| <= |c| + 1
  {
    assert forall d: Contents :: |d.Keys| == |d|;
    match op
    case OpPut(k, _, _) => Snapshots.SubsetSize(Apply(c, op).Keys, c.Keys + {k});
    case OpDel(_) => Snapshots.SubsetSize(Apply(c, op).Keys, c.Keys);
    case OpOther =>
  }

  lemma IndexSize(e: Engine.Engine)
    requires e.Valid()
    ensures |e.index| == |e.contents|
  {
    assert e.SaneIf(e.Now(), e.prompts, true);
    assert ConsistentIf(e.Now(), true);
    assert |e.index.Keys| == |e.index| && |e.contents.Keys| == |e.contents|;
  }

  // ---- What was saved last, over a run ----

  /** Among the calls so far the `m`-th was the last save to succeed, and it saved the engine as
      `last`; if none has, `last` is what was saved before the calls, `w`. */
  ghost predicate Saving(calls: seq<Call>, replies: seq<Reply>, ops: seq<Op>, c: Contents, w: View, m: nat, last: View) {
    && |replies| == |ops| && m <= |ops|
    && (if m == 0 then last == w else SavesAt(calls, replies, m - 1) && last.contents == Run(c, ops[..m]))
    && forall i: nat :: m <= i ==> !SavesAt(calls, replies, i)
  }

  /** The last save after one more call. */
  function SavedAfter(call: Call, reply: Reply, last: View, u: View): View {
    if Saves(call, reply) then u else last
  }

  lemma SavesMore(calls: seq<Call>, replies: seq<Reply>, ops: seq<Op>, c: Contents, w: View, m: nat, last: View, reply: Reply, i: nat)
    requires Saving(calls, replies, ops, c, w, m, last) && |ops| < |calls| && m <= i
    ensures SavesAt(calls, replies + [reply], i) <==> i == |ops| && Saves(calls[i], reply)
  {
    assert !SavesAt(calls, replies, i);
  }

  lemma SavingMore(calls: seq<Call>, replies: seq<Reply>, ops: seq<Op>, c: Contents, w: View, m: nat, last: View, reply: Reply, op: Op, u: View)
    requires Saving(calls, replies, ops, c, w, m, last) && |ops| < |calls| && u.contents == Run(c, ops + [op])
    ensures Saving(calls, replies + [reply], ops + [op], c, w, if Saves(calls[|ops|], reply) then |ops| + 1 else m, SavedAfter(calls[|ops|], reply, last, u))
  {
    var all, more := ops + [op], replies + [reply];
    forall i: nat | m <= i ensures SavesAt(calls, more, i) <==> i == |ops| && Saves(calls[i], reply) {
      SavesMore(calls, replies, ops, c, w, m, last, reply, i);
    }
    if Saves(calls[|ops|], reply) {
      assert all[..|all|] == all;
    } else if m > 0 {
      assert more[m - 1] == replies[m - 1] && all[..m] == ops[..m];
    }
  }

  /** One call: what was saved stays what was saved, unless the call saves the engine anew. */
  method ServeSaving(e: Engine.Engine, calls: seq<Call>, replies: seq<Reply>, ghost ops: seq<Op>, ghost c: Contents, ghost w: View,
                     ghost m: nat, ghost last: View)
    returns (replies': seq<Reply>, ghost ops': seq<Op>, ghost m': nat, ghost last': View)
    requires e.Valid() && e.t2 != null && Restart.LastSaved(e, last) && e.RoomForOneMore()
    requires Explained(c, calls, replies, ops) && Saving(calls, replies, ops, c, w, m, last) && e.contents == Run(c, ops)
    requires |ops| < |calls| && Acceptable(e, calls[|ops|]) && |e.contents| + 1 < 0x1_0000_0000_0000_0000
    modifies e, e.t1, e.T2Repr(), e.slru.prot.Repr, e.slru.prob.Repr, e.ckpt
    ensures e.Valid() && e.isOpen == old(e.isOpen) && e.Ids() <= old(e.Ids()) + 1 && |ops'| == |ops| + 1
    ensures fresh(e.slru.prot.Repr - old(e.slru.prot.Repr)) && fresh(e.slru.prob.Repr - old(e.slru.prob.Repr))
    ensures Restart.LastSaved(e, last') && |e.contents| <= old(|e.contents|) + 1
    ensures Explained(c, calls, replies', ops') && Saving(calls, replies', ops', c, w, m', last') && e.contents == Run(c, ops')
  {
    var call := calls[|replies|];
    ghost var v, file, prompts := e.Now(), e.ckpt.file, e.prompts;
    var reply;
    ghost var op;
    reply, op := Serve(e, call);
    ServedFacts(call, reply, op, true, v, prompts, e.Now(), e.prompts);
    ExplainedMore(c, calls, replies, ops, reply, op);
    ApplySize(v.contents, op);
    SavingMore(calls, replies, ops, c, w, m, last, reply, op, e.Now());
    m', last' := if Saves(call, reply) then |ops| + 1 else m, SavedAfter(call, reply, last, e.Now());
    if Saves(call, reply) {
      IndexSize(e);
      SavedNow(e);
    }
    replies', ops' := replies + [reply], ops + [op];
  }

  lemma ServedFacts(call: Call, reply: Reply, op: Op, stored: bool, v: View, prompts: set<StorageKey>, w: View, prompts': set<StorageKey>)
    requires Served(call, reply, op, stored, v, prompts, w, prompts')
    ensures Did(call, reply, op) && Answers(v.contents, call, reply) && w.contents == Apply(v.contents, op) && v.log <= w.log
  {
    assert ServedIf(call, reply, op, stored, v, prompts, w, prompts', true);
  }

  method ServeRestSaving(e: Engine.Engine, calls: seq<Call>, replies: seq<Reply>, ghost ops: seq<Op>, ghost c: Contents, ghost w: View,
                         ghost m: nat, ghost last: View)
    returns (replies': seq<Reply>, ghost ops': seq<Op>, ghost m': nat, ghost last': View)
    requires e.Valid() && e.t2 != null && Restart.LastSaved(e, last) && |replies| == |ops| <= |calls|
    requires Explained(c, calls, replies, ops) && Saving(calls, replies, ops, c, w, m, last) && e.contents == Run(c, ops)
    requires e.Ids() + |calls| - |ops| <= 0x1_0000_0000 && |e.contents| + |calls| - |ops| < 0x1_0000_0000_0000_0000
    requires forall i :: 0 <= i < |calls| ==> Acceptable(e, calls[i])
    modifies e, e.t1, e.T2Repr(), e.slru.prot.Repr, e.slru.prob.Repr, e.ckpt
    ensures e.Valid() && e.isOpen == old(e.isOpen) && Restart.LastSaved(e, last') && |e.contents| < 0x1_0000_0000_0000_0000
    ensures |ops'| == |calls| && Explained(c, calls, replies', ops') && Saving(calls, replies', ops', c, w, m', last') && e.contents == Run(c, ops')
    decreases |calls| - |replies|
  {
    replies', ops', m', last' := replies, ops, m, last;
    if |replies| < |calls| {
      replies', ops', m', last' := ServeSaving(e, calls, replies', ops', c, w, m', last');
      replies', ops', m', last' := ServeRestSaving(e, calls, replies', ops', c, w, m', last');
    }
  }

  /** Any calls, saves and deletes among them: the checkpoint is always that of the engine as it
      was at the last save that succeeded. */
  method ServeAllSaving(e: Engine.Engine, calls: seq<Call>, ghost w: View)
    returns (replies: seq<Reply>, ghost ops: seq<Op>, ghost m: nat, ghost last: View)
    requires e.Valid() && e.t2 != null && Restart.LastSaved(e, w)
    requires e.Ids() + |calls| <= 0x1_0000_0000 && |e.contents| + |calls| < 0x1_0000_0000_0000_0000
    requires forall i :: 0 <= i < |calls| ==> Acceptable(e, calls[i])
    modifies e, e.t1, e.T2Repr(), e.slru.prot.Repr, e.slru.prob.Repr, e.ckpt
    ensures e.Valid() && e.isOpen == old(e.isOpen) && Restart.LastSaved(e, last) && |e.contents| < 0x1_0000_0000_0000_0000
    ensures |ops| == |calls| && Explained(old(e.contents), calls, replies, ops) && e.contents == Run(old(e.contents), ops)
    ensures Saving(calls, replies, ops, old(e.contents), w, m, last)
  {
    replies, ops, m, last := ServeRestSaving(e, calls, [], [], e.contents, w, 0, w);
  }

  method Finish(e: Engine.Engine, timestamp: U64, faults: CheckpointManager.Faults, header: Bytes,
                policy: Slru.Config, t1: Slab.SlabAllocator?, memory: Bytes, ghost w: View, ghost u: View)
    returns (f: Engine.Engine, ghost last: View)
    requires u == e.Now() && e.Valid() && e.isOpen && e.t2 != null && Restart.LastSaved(e, w) && |e.contents| < 0x1_0000_0000_0000_0000
    requires |header| == SEGMENT_HEADER_SIZE && Slru.GoodConfig(policy) && |memory| < 0x1_0000_0000_0000_0000
    requires t1 != null ==> t1.Valid() && Mapped(t1.classes, |memory|) && forall h :: !Slab.Live(t1.classes, h)
    requires t1 != null ==> t1 != e.t1 && t1 !in e.t2.Repr
    modifies e`isOpen, e.ckpt, e.t2
    ensures fresh(f) && f.Valid() && f.isOpen && f.t2 != null
    ensures last == u || (last == w && !CheckpointManager.Succeeds(faults, |u.index|))
    ensures f.index == Kept(last.index) && f.contents == KeptContents(last.contents, last.index)
  {
    IndexSize(e);
    var es := Engine.ListEntries(e.index);
    e.StaysStill();
    last := if !e.ckpt.dirty || CheckpointManager.Succeeds(faults, |es|) then e.Now() else w;
    f := Restart.RestartEngine(e, es, timestamp, faults, header, policy, t1, memory, w);
  }

  /** Any calls, then close, then a new process. If the last save succeeds, or there is nothing to
      save, the new process has the blob-store entries of the engine as the calls left it, `u`;
      if it fails, those of the engine as it was at the last of the calls that saved it, or of
      `w`, what was saved before, if none did; and each stands for its bytes. */
  method RestartAfterCalls(e: Engine.Engine, calls: seq<Call>, timestamp: U64, faults: CheckpointManager.Faults, header: Bytes,
                           policy: Slru.Config, t1: Slab.SlabAllocator?, memory: Bytes, ghost w: View)
    returns (f: Engine.Engine, replies: seq<Reply>, ghost ops: seq<Op>, ghost u: View, ghost m: nat, ghost saved: View, ghost last: View)
    requires e.Valid() && e.isOpen && e.t2 != null && Restart.LastSaved(e, w)
    requires e.Ids() + |calls| <= 0x1_0000_0000 && |e.contents| + |calls| < 0x1_0000_0000_0000_0000
    requires forall i :: 0 <= i < |calls| ==> Acceptable(e, calls[i])
    requires |header| == SEGMENT_HEADER_SIZE && Slru.GoodConfig(policy) && |memory| < 0x1_0000_0000_0000_0000
    requires t1 != null ==> t1.Valid() && Mapped(t1.classes, |memory|) && forall h :: !Slab.Live(t1.classes, h)
    requires t1 != null ==> t1 != e.t1 && t1 !in e.t2.Repr && t1 !in e.slru.prot.Repr && t1 !in e.slru.prob.Repr
    modifies e, e.t1, e.T2Repr(), e.slru.prot.Repr, e.slru.prob.Repr, e.ckpt
    ensures fresh(f) && f.Valid() && f.isOpen && f.t2 != null
    ensures |ops| == |calls| && Explained(old(e.contents), calls, replies, ops) && Saving(calls, replies, ops, old(e.contents), w, m, saved)
    ensures u.contents == Run(old(e.contents), ops)
    ensures last == u || (last == saved && !CheckpointManager.Succeeds(faults, |u.index|))
    ensures f.index == Kept(last.index) && f.contents == KeptContents(last.contents, last.index)
  {
    assert e.t2 in e.T2Repr() && (t1 != null ==> t1 !in e.T2Repr());
    replies, ops, m, saved := ServeAllSaving(e, calls, w);
    u := e.Now();
    f, last := Finish(e, timestamp, faults, header, policy, t1, memory, saved, u);
  }

  /** Reads, through an index of before, a store that has only been appended to since. */
  method ReadOld(e: Engine.Engine, loc: B.Location, ghost v: View, ghost k: StorageKey, bufLen: nat) returns (status: Status, data: Bytes)
    requires e.Valid() && e.t2 != null && Coherent(v) && v.log <= e.Now().log && InNvme(v.index, k) && loc == EntryLocation(v.index[k])
    ensures e.Valid() && k in v.contents
    ensures |v.contents[k]| > bufLen ==> status == BufferTooSmall || (status == NotFound && v.contents[k] == [])
    ensures |v.contents[k]| <= bufLen ==>
              (status == Ok && data == v.contents[k]) || (status == NotFound && v.contents[k] == [])
  {
    CoherentNvme(v, k);
    OldCheckpoints.OldCheckpointReads(e.t2.c, v, e.t2.abs, k, bufLen);
    status, data := e.t2.Read(loc, bufLen);
    e.StaysStill();
  }

  method Appends(e: Engine.Engine, calls: seq<Call>, ghost v: View)
    requires e.Valid() && v == e.Now()
    requires e.Ids() + |calls| <= 0x1_0000_0000 && forall i :: 0 <= i < |calls| ==> Acceptable(e, calls[i])
    modifies e, e.t1, e.T2Repr(), e.slru.prot.Repr, e.slru.prob.Repr, e.ckpt
    ensures e.Valid() && v.log <= e.Now().log
  {
    var replies;
    ghost var ops, trace;
    replies, ops, trace := ServeAll(e, calls);
  }

  /** The location an index held for a key reads what the key stood for then, after any calls. */
  method ReadOldAfterCalls(e: Engine.Engine, calls: seq<Call>, k: StorageKey, bufLen: nat) returns (status: Status, data: Bytes)
    requires e.Valid() && e.t2 != null && InNvme(e.index, k)
    requires e.Ids() + |calls| <= 0x1_0000_0000 && forall i :: 0 <= i < |calls| ==> Acceptable(e, calls[i])
    modifies e, e.t1, e.T2Repr(), e.slru.prot.Repr, e.slru.prob.Repr, e.ckpt
    ensures e.Valid() && k in old(e.contents)
    ensures |old(e.contents)[k]| > bufLen ==> status == BufferTooSmall || (status == NotFound && old(e.contents)[k] == [])
    ensures |old(e.contents)[k]| <= bufLen ==>
              (status == Ok && data == old(e.contents)[k]) || (status == NotFound && old(e.contents)[k] == [])
  {
    ghost var v := e.Now();
    var entry := e.index[k];
    Restart.EngineFits(e, v, e.prompts);
    Appends(e, calls, v);
    status, data := ReadOld(e, EntryLocation(entry), v, k, bufLen);
  }
}
