/** The engine under any sequence of calls, with the flusher and the checkpoint thread coming by
    at any time between them: what it answers is what the history of its successful puts and
    deletes says. */
module EngineRun {
  import opened Common
  import opened Segment
  import opened EngineModel
  import opened EngineHistory
  import opened EnginePolicy
  import A = Admission
  import CheckpointManager
  import Engine
  import Slru

  datatype Call =
    | CallPut(key: StorageKey, blob: Bytes, opts: A.PutOpts, now: U48)
    | CallGet(key: StorageKey, bufLen: nat, now: U48)
    | CallDel(key: StorageKey)
    | CallFlush
    | CallCheckpoint(timestamp: U64, faults: CheckpointManager.Faults)

  datatype Reply = Reply(status: Status, data: Bytes)

  /** What a call adds to the history: a successful put or delete, and nothing otherwise. */
  predicate Did(call: Call, reply: Reply, op: Op) {
    match call
    case CallPut(k, blob, _, _) => if reply.status == Ok then op.OpPut? && op.key == k && op.blob == blob else op.OpOther?
    case CallDel(k) => if reply.status == Ok then op == OpDel(k) else op.OpOther?
    case _ => op.OpOther?
  }

  /** A get over the contents `c`: success gives exactly the bytes; failure means a closed
      engine, an absent key, a short buffer or an empty blob. */
  predicate Answers(c: Contents, call: Call, reply: Reply) {
    call.CallGet? ==>
      if reply.status == Ok then call.key in c && |c[call.key]| <= call.bufLen && reply.data == c[call.key]
      else
        && reply.data == []
        && (reply.status == Shutdown || call.key !in c || |c[call.key]| > call.bufLen || c[call.key] == [])
  }

  predicate Acceptable(e: Engine.Engine, call: Call) {
    call.CallPut? ==> e.FitsBlock(|call.blob|)
  }

  /** A put of anything but a system prompt, of a length the blob store takes. */
  predicate Ordinary(call: Call) {
    call.CallPut? ==> !call.opts.entryType.SystemPrompt? && |call.blob| <= U32_MAX - ENTRY_HEADER_SIZE
  }

  ghost predicate ShortAt(c: Contents, k: StorageKey) {
    k in c ==> |c[k]| <= U32_MAX - ENTRY_HEADER_SIZE
  }

  ghost predicate DemotableIf(c: Contents, prompts: set<StorageKey>, asked: bool) {
    prompts == {} && forall k :: ShortAt(c, k)
  }

  /** Nothing the engine holds would be dropped for its kind or its length; unfolded on demand. */
  ghost predicate Demotable(c: Contents, prompts: set<StorageKey>) {
    forall asked :: DemotableIf(c, prompts, asked)
  }

  lemma OrdinaryPut(e: Engine.Engine, v: View, w: View, key: StorageKey, blob: Bytes, opts: A.PutOpts,
                    prompts: set<StorageKey>, after: set<StorageKey>, lost: set<StorageKey>)
    requires e.t2 != null && Demotable(v.contents, prompts) && Ordinary(CallPut(key, blob, opts, 0))
    requires after == e.PromptsAfter(prompts, key, opts) && e.Puts(v, w, key, blob, after, lost)
    ensures lost == {} && Demotable(w.contents, after)
  {
    assert DemotableIf(v.contents, prompts, true);
    forall k ensures k !in lost {
      assert ShortAt(v.contents, k);
      assert k in lost ==> e.LossReason(v.contents[key := blob], after, k);
    }
    forall k ensures ShortAt(w.contents, k) {
      assert ShortAt(v.contents, k);
    }
  }

  lemma StillDemotable(c: Contents, prompts: set<StorageKey>, op: Op)
    requires !op.OpPut?
    ensures Demotable(c, prompts) ==> Demotable(Apply(c, op), prompts)
  {
    if Demotable(c, prompts) {
      assert DemotableIf(c, prompts, true);
      forall k ensures ShortAt(Apply(c, op), k) {
        assert ShortAt(c, k);
      }
    }
  }

  /** What a call does to the records of the blob store: they are only ever added to, and only a
      delete gives one up, the key's own. */
  predicate Moves(call: Call, reply: Reply, v: View, w: View) {
    && v.log <= w.log
    && if call.CallDel? && reply.status == Ok then Marks(v, w, call.key) else w.dead == v.dead
  }

  /** What one call does, seen from outside: the reply, the step of the history it is, and the
      records. A put of an ordinary blob, with a blob store and nothing held that would be
      dropped, loses no key; a put of a fresh key keeps the accounts exact. */
  ghost predicate ServedIf(call: Call, reply: Reply, op: Op, stored: bool, v: View, prompts: set<StorageKey>,
                           w: View, prompts': set<StorageKey>, asked: bool) {
    && Did(call, reply, op) && Answers(v.contents, call, reply) && w.contents == Apply(v.contents, op) && Moves(call, reply, v, w)
    && (stored && Demotable(v.contents, prompts) && Ordinary(call) && op.OpPut? ==> Demotable(w.contents, prompts') && op.lost == {})
    && (!op.OpPut? ==> prompts' == prompts)
    && (Tight(v) && (call.CallPut? ==> !InDram(v.index, call.key)) ==> Tight(w))
  }

  /** The same, unfolded on demand. */
  ghost predicate Served(call: Call, reply: Reply, op: Op, stored: bool, v: View, prompts: set<StorageKey>,
                         w: View, prompts': set<StorageKey>) {
    forall asked :: ServedIf(call, reply, op, stored, v, prompts, w, prompts', asked)
  }

  predicate Saves(call: Call, reply: Reply) {
    call.CallCheckpoint? && reply.status == Ok
  }

  /** The file of the checkpoint changes only by a save that succeeds. */
  predicate FileKept(call: Call, reply: Reply, file: Option<Bytes>, file': Option<Bytes>) {
    Saves(call, reply) || file' == file
  }

  // ---- The engine with its policy, one call at a time ----

  /** What a run does not change: how the engine evicts, and whether it is open. */
  datatype Regime = Regime(rule: Rule, policy: Slru.Config, isOpen: bool)

  ghost function RegimeOf(e: Engine.Engine): Regime
    reads e
  {
    Regime(e.Rules(), e.slru.config, e.isOpen)
  }

  ghost predicate MovedIf(r: Regime, call: Call, reply: Reply, op: Op, s: Snap, t: Snap, asked: bool) {
    match call
    case CallPut(k, blob, opts, now) =>
      if reply.status == Ok then
        && |blob| <= U32_MAX && op.OpPut? && op == OpPut(k, blob, op.lost)
        && PutsTo(r.rule, s, t, k, blob, Engine.FreshEntry(blob, opts, now), op.lost) && Gentle(s, t, k, blob, opts.cost, op.lost)
      else t == s
    case CallGet(k, bufLen, now) =>
      && Slru.GoodConfig(r.policy) && t.policy == AfterGet(r.policy, r.isOpen, s, k, bufLen)
      && t.view.index == if r.isOpen && k in s.view.index && (InDram(s.view.index, k) ==> s.view.index[k].length <= bufLen)
                         then s.view.index[k := TouchedEntry(s.view.index[k], now)] else s.view.index
    case CallDel(k) =>
      && t.policy == AfterDelete(s, k, reply.status == Ok)
      && t.view.index == if reply.status == Ok then s.view.index - {k} else s.view.index
    case _ => t == s
  }

  /** What one call does to the engine and its policy; unfolded on demand. */
  ghost predicate Moved(r: Regime, call: Call, reply: Reply, op: Op, s: Snap, t: Snap) {
    forall asked :: MovedIf(r, call, reply, op, s, t, asked)
  }

  lemma PutServed(e: Engine.Engine, call: Call, status: Status, s: Snap, t: Snap, before: set<StorageKey>, after: set<StorageKey>,
                  lost: set<StorageKey>)
    requires call.CallPut?
    requires if status == Ok then after == e.PromptsAfter(before, call.key, call.opts) && |call.blob| <= U32_MAX
                                  && e.PutDone(s, t, call.key, call.blob, Engine.FreshEntry(call.blob, call.opts, call.now), after, lost)
             else t == s && after == before
    ensures var op := if status == Ok then OpPut(call.key, call.blob, lost) else OpOther;
            && Served(call, Reply(status, []), op, e.t2 != null, s.view, before, t.view, after)
            && Moved(RegimeOf(e), call, Reply(status, []), op, s, t)
  {
    if status == Ok {
      assert e.PutDoneIf(s, t, call.key, call.blob, Engine.FreshEntry(call.blob, call.opts, call.now), after, lost, true);
      if e.t2 != null && Demotable(s.view.contents, before) && Ordinary(call) {
        OrdinaryPut(e, s.view, t.view, call.key, call.blob, call.opts, before, after, lost);
      }
    }
  }

  method ServePut(e: Engine.Engine, call: Call) returns (reply: Reply, ghost op: Op)
    requires e.Valid() && e.RoomForOneMore() && Acceptable(e, call) && call.CallPut?
    modifies e, e.t1, e.T2Repr(), e.slru.prot.Repr, e.slru.prob.Repr, e.ckpt`dirty
    ensures e.Valid() && e.isOpen == old(e.isOpen) && e.Ids() <= old(e.Ids()) + 1
    ensures fresh(e.slru.prot.Repr - old(e.slru.prot.Repr)) && fresh(e.slru.prob.Repr - old(e.slru.prob.Repr))
    ensures Served(call, reply, op, e.t2 != null, old(e.Now()), old(e.prompts), e.Now(), e.prompts)
    ensures Moved(RegimeOf(e), call, reply, op, old(e.Here()), e.Here())
    ensures e.ckpt.file == old(e.ckpt.file)
    ensures reply.status == Ok && Tight(e.Now()) ==> !e.Crowded()
  {
    ghost var s, before := e.Here(), e.prompts;
    var status;
    ghost var lost;
    status, lost := e.Put(call.key, call.blob, call.opts, call.now);
    reply := Reply(status, []);
    op := if status == Ok then OpPut(call.key, call.blob, lost) else OpOther;
    PutServed(e, call, status, s, e.Here(), before, e.prompts, lost);
  }

  lemma GetServed(r: Regime, call: Call, reply: Reply, stored: bool, s: Snap, t: Snap, prompts: set<StorageKey>)
    requires call.CallGet? && Answers(s.view.contents, call, reply) && t.view.contents == s.view.contents
    requires SameRecords(s.view, t.view) && (Tight(s.view) ==> Tight(t.view))
    requires MovedIf(r, call, reply, OpOther, s, t, true)
    ensures Served(call, reply, OpOther, stored, s.view, prompts, t.view, prompts) && Moved(r, call, reply, OpOther, s, t)
  {
  }

  method ServeGet(e: Engine.Engine, call: Call) returns (reply: Reply, ghost op: Op)
    requires e.Valid() && call.CallGet?
    modifies e, e.slru.prot.Repr, e.slru.prob.Repr, e.ckpt`dirty
    ensures e.Valid() && e.isOpen == old(e.isOpen) && e.Ids() <= old(e.Ids())
    ensures fresh(e.slru.prot.Repr - old(e.slru.prot.Repr)) && fresh(e.slru.prob.Repr - old(e.slru.prob.Repr))
    ensures Served(call, reply, op, e.t2 != null, old(e.Now()), old(e.prompts), e.Now(), e.prompts)
    ensures Moved(RegimeOf(e), call, reply, op, old(e.Here()), e.Here())
    ensures e.ckpt.file == old(e.ckpt.file)
  {
    ghost var s, prompts := e.Here(), e.prompts;
    var status, data := e.Get(call.key, call.bufLen, call.now);
    reply, op := Reply(status, data), OpOther;
    GetServed(RegimeOf(e), call, reply, e.t2 != null, s, e.Here(), prompts);
  }

  lemma DelServed(r: Regime, call: Call, status: Status, stored: bool, s: Snap, t: Snap, prompts: set<StorageKey>)
    requires call.CallDel? && Deletes(s.view, t.view, call.key, status == Ok) && t.policy == AfterDelete(s, call.key, status == Ok)
    ensures var op := if status == Ok then OpDel(call.key) else OpOther;
            && Served(call, Reply(status, []), op, stored, s.view, prompts, t.view, prompts)
            && Moved(r, call, Reply(status, []), op, s, t)
  {
    assert DeletesIf(s.view, t.view, call.key, status == Ok, true);
  }

  method ServeDel(e: Engine.Engine, call: Call) returns (reply: Reply, ghost op: Op)
    requires e.Valid() && call.CallDel?
    modifies e, e.t1, e.t2, e.slru.prot.Repr, e.slru.prob.Repr, e.ckpt`dirty
    ensures e.Valid() && e.isOpen == old(e.isOpen) && e.Ids() <= old(e.Ids())
    ensures e.slru.prot.Repr == old(e.slru.prot.Repr) && e.slru.prob.Repr == old(e.slru.prob.Repr)
    ensures Served(call, reply, op, e.t2 != null, old(e.Now()), old(e.prompts), e.Now(), e.prompts)
    ensures Moved(RegimeOf(e), call, reply, op, old(e.Here()), e.Here())
    ensures e.ckpt.file == old(e.ckpt.file)
  {
    ghost var s, prompts := e.Here(), e.prompts;
    var status := e.Del(call.key);
    reply, op := Reply(status, []), if status == Ok then OpDel(call.key) else OpOther;
    DelServed(RegimeOf(e), call, status, e.t2 != null, s, e.Here(), prompts);
  }

  lemma OtherServed(r: Regime, call: Call, reply: Reply, stored: bool, s: Snap, prompts: set<StorageKey>)
    requires call.CallFlush? || call.CallCheckpoint?
    ensures Served(call, reply, OpOther, stored, s.view, prompts, s.view, prompts) && Moved(r, call, reply, OpOther, s, s)
  {
  }

  /** A turn of the flusher, or of the checkpoint thread: the save may fail at any point. */
  method ServeThread(e: Engine.Engine, call: Call) returns (reply: Reply, ghost op: Op)
    requires e.Valid() && (call.CallFlush? || call.CallCheckpoint?)
    modifies e.T2Repr(), e.ckpt
    ensures e.Valid() && e.isOpen == old(e.isOpen) && e.Ids() == old(e.Ids())
    ensures e.slru.prot.Repr == old(e.slru.prot.Repr) && e.slru.prob.Repr == old(e.slru.prob.Repr)
    ensures Served(call, reply, op, e.t2 != null, old(e.Now()), old(e.prompts), e.Now(), e.prompts)
    ensures Moved(RegimeOf(e), call, reply, op, old(e.Here()), e.Here())
    ensures FileKept(call, reply, old(e.ckpt.file), e.ckpt.file) && (Saves(call, reply) ==> !e.ckpt.dirty)
  {
    ghost var s, prompts := e.Here(), e.prompts;
    var status := Ok;
    if call.CallFlush? {
      e.FlushTurn();
    } else {
      status := CheckpointTurn(e, call.timestamp, call.faults);
    }
    reply, op := Reply(status, []), OpOther;
    OtherServed(RegimeOf(e), call, reply, e.t2 != null, s, prompts);
  }

  method CheckpointTurn(e: Engine.Engine, timestamp: U64, faults: CheckpointManager.Faults) returns (status: Status)
    requires e.Valid()
    modifies e.ckpt
    ensures e.Valid() && e.Still() && (status == Ok ==> !e.ckpt.dirty)
    ensures status != Ok ==> e.ckpt.file == old(e.ckpt.file)
  {
    var es := Engine.ListEntries(e.index);
    e.StaysStill();
    status := e.SaveCheckpoint(es, timestamp, faults);
  }

  method ServeClient(e: Engine.Engine, call: Call) returns (reply: Reply, ghost op: Op)
    requires e.Valid() && e.RoomForOneMore() && Acceptable(e, call) && (call.CallPut? || call.CallGet? || call.CallDel?)
    modifies e, e.t1, e.T2Repr(), e.slru.prot.Repr, e.slru.prob.Repr, e.ckpt`dirty
    ensures e.Valid() && e.isOpen == old(e.isOpen) && e.Ids() <= old(e.Ids()) + 1
    ensures fresh(e.slru.prot.Repr - old(e.slru.prot.Repr)) && fresh(e.slru.prob.Repr - old(e.slru.prob.Repr))
    ensures Served(call, reply, op, e.t2 != null, old(e.Now()), old(e.prompts), e.Now(), e.prompts)
    ensures Moved(RegimeOf(e), call, reply, op, old(e.Here()), e.Here())
    ensures e.ckpt.file == old(e.ckpt.file)
    ensures call.CallPut? && reply.status == Ok && Tight(e.Now()) ==> !e.Crowded()
  {
    if call.CallPut? {
      reply, op := ServePut(e, call);
    } else if call.CallGet? {
      reply, op := ServeGet(e, call);
    } else {
      reply, op := ServeDel(e, call);
    }
  }

  method Serve(e: Engine.Engine, call: Call) returns (reply: Reply, ghost op: Op)
    requires e.Valid() && e.RoomForOneMore() && Acceptable(e, call)
    modifies e, e.t1, e.T2Repr(), e.slru.prot.Repr, e.slru.prob.Repr, e.ckpt
    ensures e.Valid() && e.isOpen == old(e.isOpen) && e.Ids() <= old(e.Ids()) + 1
    ensures fresh(e.slru.prot.Repr - old(e.slru.prot.Repr)) && fresh(e.slru.prob.Repr - old(e.slru.prob.Repr))
    ensures Served(call, reply, op, e.t2 != null, old(e.Now()), old(e.prompts), e.Now(), e.prompts)
    ensures Moved(RegimeOf(e), call, reply, op, old(e.Here()), e.Here())
    ensures FileKept(call, reply, old(e.ckpt.file), e.ckpt.file) && (Saves(call, reply) ==> !e.ckpt.dirty)
    ensures call.CallPut? && reply.status == Ok && Tight(e.Now()) ==> !e.Crowded()
  {
    if call.CallFlush? || call.CallCheckpoint? {
      reply, op := ServeThread(e, call);
    } else {
      reply, op := ServeClient(e, call);
    }
  }

  ghost predicate Explained(c: Contents, calls: seq<Call>, replies: seq<Reply>, ops: seq<Op>) {
    && |replies| == |ops| <= |calls|
    && forall i :: 0 <= i < |ops| ==> Did(calls[i], replies[i], ops[i]) && Answers(Run(c, ops[..i]), calls[i], replies[i])
  }

  /** Every put is of a key that neither the engine held nor an earlier put named. */
  predicate FreshPuts(c: Contents, calls: seq<Call>) {
    forall i :: 0 <= i < |calls| && calls[i].CallPut? ==>
      calls[i].key !in c && forall j :: 0 <= j < i && calls[j].CallPut? ==> calls[j].key != calls[i].key
  }

  lemma {:induction false} KeysSoFar(c: Contents, calls: seq<Call>, replies: seq<Reply>, ops: seq<Op>, n: nat, k: StorageKey)
    requires Explained(c, calls, replies, ops) && n <= |ops| && k in Run(c, ops[..n])
    ensures k in c || exists j :: 0 <= j < n && calls[j].CallPut? && calls[j].key == k
  {
    if n > 0 {
      var m := n - 1;
      assert ops[..n][..m] == ops[..m] && Did(calls[m], replies[m], ops[m]);
      if k in Run(c, ops[..m]) {
        KeysSoFar(c, calls, replies, ops, m, k);
      }
    }
  }

  lemma FreshIsAbsent(c: Contents, calls: seq<Call>, replies: seq<Reply>, ops: seq<Op>)
    requires Explained(c, calls, replies, ops) && |ops| < |calls| && FreshPuts(c, calls)
    ensures calls[|ops|].CallPut? ==> calls[|ops|].key !in Run(c, ops)
  {
    assert ops[..|ops|] == ops;
    if calls[|ops|].CallPut? && calls[|ops|].key in Run(c, ops) {
      KeysSoFar(c, calls, replies, ops, |ops|, calls[|ops|].key);
    }
  }

  lemma ExplainedMore(c: Contents, calls: seq<Call>, replies: seq<Reply>, ops: seq<Op>, reply: Reply, op: Op)
    requires Explained(c, calls, replies, ops) && |ops| < |calls|
    requires Did(calls[|ops|], reply, op) && Answers(Run(c, ops), calls[|ops|], reply)
    ensures Explained(c, calls, replies + [reply], ops + [op]) && Run(c, ops + [op]) == Apply(Run(c, ops), op)
  {
    var all := ops + [op];
    assert all[..|ops|] == ops;
    forall i | 0 <= i < |all|
      ensures Did(calls[i], (replies + [reply])[i], all[i]) && Answers(Run(c, all[..i]), calls[i], (replies + [reply])[i])
    {
      assert i < |ops| ==> all[..i] == ops[..i];
    }
  }

  // ---- The records and the file over a run ----

  predicate DeletedAt(calls: seq<Call>, replies: seq<Reply>, i: nat, k: StorageKey) {
    i < |calls| && i < |replies| && calls[i].CallDel? && calls[i].key == k && replies[i].status == Ok
  }

  ghost predicate DeadWhy(calls: seq<Call>, replies: seq<Reply>, v: View, w: View, d: nat) {
    d in w.dead && d !in v.dead ==> d < |w.log| && exists i: nat :: DeletedAt(calls, replies, i, w.log[d].entry.key)
  }

  predicate SavesAt(calls: seq<Call>, replies: seq<Reply>, i: nat) {
    i < |calls| && i < |replies| && Saves(calls[i], replies[i])
  }

  ghost predicate NoSave(calls: seq<Call>, replies: seq<Reply>) {
    forall i: nat :: !SavesAt(calls, replies, i)
  }

  /** Since `v` records were only added, and given up only by a delete of their own key; the file of
      the checkpoint is the same if no save has succeeded. */
  ghost predicate Trail(calls: seq<Call>, replies: seq<Reply>, v: View, file: Option<Bytes>, w: View, file': Option<Bytes>) {
    && v.log <= w.log && (forall d :: DeadWhy(calls, replies, v, w, d))
    && (NoSave(calls, replies) ==> file' == file)
  }

  lemma TrailMore(calls: seq<Call>, replies: seq<Reply>, v: View, file: Option<Bytes>, w: View, file': Option<Bytes>,
                  reply: Reply, u: View, file'': Option<Bytes>)
    requires Trail(calls, replies, v, file, w, file') && |replies| < |calls|
    requires Moves(calls[|replies|], reply, w, u) && FileKept(calls[|replies|], reply, file', file'')
    ensures Trail(calls, replies + [reply], v, file, u, file'')
  {
    var n, more := |replies|, replies + [reply];
    forall d: nat ensures DeadWhy(calls, more, v, u, d) {
      assert DeadWhy(calls, replies, v, w, d);
      if d in w.dead && d !in v.dead {
        var i: nat :| DeletedAt(calls, replies, i, w.log[d].entry.key);
        assert DeletedAt(calls, more, i, u.log[d].entry.key);
      } else if d in u.dead && d !in v.dead {
        assert DeletedAt(calls, more, n, u.log[d].entry.key);
      }
    }
    if NoSave(calls, more) {
      forall i: nat ensures !SavesAt(calls, replies, i) {
        assert !SavesAt(calls, more, i);
      }
      assert !SavesAt(calls, more, n);
    }
  }

  // ---- Any sequence of calls ----

  /** There is a blob store, nothing held would be dropped, and the calls keep it so. */
  ghost predicate Tame(e: Engine.Engine, calls: seq<Call>)
    reads e
  {
    e.t2 != null && Demotable(e.contents, e.prompts) && forall i :: 0 <= i < |calls| ==> Ordinary(calls[i])
  }

  /** The last of these calls is a put that succeeded. */
  predicate EndsInPut(calls: seq<Call>, replies: seq<Reply>) {
    0 < |replies| <= |calls| && calls[|replies| - 1].CallPut? && replies[|replies| - 1].status == Ok
  }

  /** How the calls so far went from `v` to `w`: the replies and the history agree, and the contents
      are the history's; `tame` says that no put has lost a key, and why none will; `exact` that
      no slot has leaked, so that after a put DRAM is not `full`. */
  ghost predicate SoFarIf(calls: seq<Call>, replies: seq<Reply>, ops: seq<Op>, tame: bool, exact: bool,
                        v: View, file: Option<Bytes>, w: View, prompts: set<StorageKey>, file': Option<Bytes>, full: bool, asked: bool) {
    && Explained(v.contents, calls, replies, ops) && w.contents == Run(v.contents, ops) && Trail(calls, replies, v, file, w, file')
    && (tame ==> Demotable(w.contents, prompts) && forall i :: 0 <= i < |ops| && ops[i].OpPut? ==> ops[i].lost == {})
    && (exact ==> Tight(w) && (EndsInPut(calls, replies) ==> !full))
  }

  /** The same, unfolded on demand. */
  ghost predicate SoFar(calls: seq<Call>, replies: seq<Reply>, ops: seq<Op>, tame: bool, exact: bool,
                        v: View, file: Option<Bytes>, w: View, prompts: set<StorageKey>, file': Option<Bytes>, full: bool) {
    forall asked :: SoFarIf(calls, replies, ops, tame, exact, v, file, w, prompts, file', full, asked)
  }

  lemma ServedMore(calls: seq<Call>, replies: seq<Reply>, ops: seq<Op>, tame: bool, exact: bool,
                   v: View, file: Option<Bytes>, w: View, prompts: set<StorageKey>, file': Option<Bytes>, full: bool,
                   reply: Reply, op: Op, stored: bool, u: View, prompts': set<StorageKey>, file'': Option<Bytes>, full': bool)
    requires SoFar(calls, replies, ops, tame, exact, v, file, w, prompts, file', full) && |ops| < |calls|
    requires Served(calls[|ops|], reply, op, stored, w, prompts, u, prompts') && (tame ==> stored && Ordinary(calls[|ops|]))
    requires FileKept(calls[|ops|], reply, file', file'')
    requires calls[|ops|].CallPut? && reply.status == Ok && Tight(u) ==> !full'
    requires exact ==> FreshPuts(v.contents, calls) && (calls[|ops|].CallPut? && InDram(w.index, calls[|ops|].key) ==> calls[|ops|].key in w.contents)
    ensures SoFar(calls, replies + [reply], ops + [op], tame, exact, v, file, u, prompts', file'', full')
  {
    assert ServedIf(calls[|ops|], reply, op, stored, w, prompts, u, prompts', true);
    assert SoFarIf(calls, replies, ops, tame, exact, v, file, w, prompts, file', full, true);
    ExplainedMore(v.contents, calls, replies, ops, reply, op);
    TrailMore(calls, replies, v, file, w, file', reply, u, file'');
    if !op.OpPut? {
      StillDemotable(w.contents, prompts, op);
    }
    if exact {
      FreshIsAbsent(v.contents, calls, replies, ops);
    }
  }

  // ---- The trace of a run ----

  ghost predicate TracedIf(r: Regime, calls: seq<Call>, replies: seq<Reply>, ops: seq<Op>, trace: seq<Snap>, asked: bool) {
    && |replies| == |ops| <= |calls| && |trace| == |ops| + 1
    && forall i :: 0 <= i < |ops| ==> Moved(r, calls[i], replies[i], ops[i], trace[i], trace[i + 1])
  }

  /** The engine and its policy before the first call and after each one; unfolded on demand. */
  ghost predicate Traced(r: Regime, calls: seq<Call>, replies: seq<Reply>, ops: seq<Op>, trace: seq<Snap>) {
    forall asked :: TracedIf(r, calls, replies, ops, trace, asked)
  }

  lemma TracedMore(r: Regime, calls: seq<Call>, replies: seq<Reply>, ops: seq<Op>, trace: seq<Snap>, reply: Reply, op: Op, t: Snap)
    requires Traced(r, calls, replies, ops, trace) && |ops| < |calls| && |trace| > 0
    requires Moved(r, calls[|ops|], reply, op, trace[|trace| - 1], t)
    ensures Traced(r, calls, replies + [reply], ops + [op], trace + [t])
  {
    assert TracedIf(r, calls, replies, ops, trace, true);
    var rs, os, ts := replies + [reply], ops + [op], trace + [t];
    forall i | 0 <= i < |os| ensures Moved(r, calls[i], rs[i], os[i], ts[i], ts[i + 1]) {
      if i < |ops| {
        assert Moved(r, calls[i], replies[i], ops[i], trace[i], trace[i + 1]);
      }
    }
  }

  /** The trace so far ends at `s`. */
  ghost predicate At(r: Regime, calls: seq<Call>, replies: seq<Reply>, ops: seq<Op>, trace: seq<Snap>, first: Snap, s: Snap) {
    Traced(r, calls, replies, ops, trace) && |trace| > 0 && trace[0] == first && trace[|trace| - 1] == s
  }

  lemma AtMore(r: Regime, calls: seq<Call>, replies: seq<Reply>, ops: seq<Op>, trace: seq<Snap>, first: Snap, s: Snap, reply: Reply, op: Op, t: Snap)
    requires At(r, calls, replies, ops, trace, first, s) && |ops| < |calls| && Moved(r, calls[|ops|], reply, op, s, t)
    ensures At(r, calls, replies + [reply], ops + [op], trace + [t], first, t)
  {
    TracedMore(r, calls, replies, ops, trace, reply, op, t);
  }

  method ServeNext(e: Engine.Engine, calls: seq<Call>, replies: seq<Reply>, ghost ops: seq<Op>, ghost tame: bool, ghost exact: bool,
                   ghost first: Snap, ghost file: Option<Bytes>, ghost trace: seq<Snap>)
    returns (replies': seq<Reply>, ghost ops': seq<Op>, ghost trace': seq<Snap>)
    requires e.Valid() && e.RoomForOneMore() && |replies| == |ops| < |calls| && Acceptable(e, calls[|ops|])
    requires SoFar(calls, replies, ops, tame, exact, first.view, file, e.Now(), e.prompts, e.ckpt.file, e.Crowded())
    requires At(RegimeOf(e), calls, replies, ops, trace, first, e.Here())
    requires (tame ==> e.t2 != null && Ordinary(calls[|ops|])) && (exact ==> FreshPuts(first.view.contents, calls))
    modifies e, e.t1, e.T2Repr(), e.slru.prot.Repr, e.slru.prob.Repr, e.ckpt
    ensures e.Valid() && e.isOpen == old(e.isOpen) && e.Ids() <= old(e.Ids()) + 1 && |replies'| == |ops'| == |ops| + 1
    ensures fresh(e.slru.prot.Repr - old(e.slru.prot.Repr)) && fresh(e.slru.prob.Repr - old(e.slru.prob.Repr))
    ensures SoFar(calls, replies', ops', tame, exact, first.view, file, e.Now(), e.prompts, e.ckpt.file, e.Crowded())
    ensures At(RegimeOf(e), calls, replies', ops', trace', first, e.Here())
  {
    ghost var s, prompts, before, full := e.Here(), e.prompts, e.ckpt.file, e.Crowded();
    var call := calls[|replies|];
    if call.CallPut? { e.KnownTier(s.view, call.key); }
    var reply;
    ghost var op;
    reply, op := Serve(e, call);
    ServedMore(calls, replies, ops, tame, exact, first.view, file, s.view, prompts, before, full,
               reply, op, e.t2 != null, e.Now(), e.prompts, e.ckpt.file, e.Crowded());
    AtMore(RegimeOf(e), calls, replies, ops, trace, first, s, reply, op, e.Here());
    replies', ops', trace' := replies + [reply], ops + [op], trace + [e.Here()];
  }

  method ServeRest(e: Engine.Engine, calls: seq<Call>, replies: seq<Reply>, ghost ops: seq<Op>, ghost tame: bool, ghost exact: bool,
                   ghost first: Snap, ghost file: Option<Bytes>, ghost trace: seq<Snap>)
    returns (replies': seq<Reply>, ghost ops': seq<Op>, ghost trace': seq<Snap>)
    requires e.Valid() && |replies| == |ops| <= |calls| && e.Ids() + |calls| - |ops| <= 0x1_0000_0000
    requires SoFar(calls, replies, ops, tame, exact, first.view, file, e.Now(), e.prompts, e.ckpt.file, e.Crowded())
    requires At(RegimeOf(e), calls, replies, ops, trace, first, e.Here())
    requires (tame ==> e.t2 != null) && (exact ==> FreshPuts(first.view.contents, calls))
    requires forall i :: 0 <= i < |calls| ==> Acceptable(e, calls[i]) && (tame ==> Ordinary(calls[i]))
    modifies e, e.t1, e.T2Repr(), e.slru.prot.Repr, e.slru.prob.Repr, e.ckpt
    ensures e.Valid() && e.isOpen == old(e.isOpen) && |replies'| == |ops'| == |calls|
    ensures SoFar(calls, replies', ops', tame, exact, first.view, file, e.Now(), e.prompts, e.ckpt.file, e.Crowded())
    ensures At(RegimeOf(e), calls, replies', ops', trace', first, e.Here())
    decreases |calls| - |replies|
  {
    replies', ops', trace' := replies, ops, trace;
    if |replies| < |calls| {
      replies', ops', trace' := ServeNext(e, calls, replies', ops', tame, exact, first, file, trace');
      replies', ops', trace' := ServeRest(e, calls, replies', ops', tame, exact, first, file, trace');
    }
  }

  lemma NothingYet(r: Regime, calls: seq<Call>, tame: bool, exact: bool, s: Snap, prompts: set<StorageKey>, file: Option<Bytes>, full: bool)
    requires (tame ==> Demotable(s.view.contents, prompts)) && (exact ==> Tight(s.view))
    ensures SoFar(calls, [], [], tame, exact, s.view, file, s.view, prompts, file, full)
    ensures At(r, calls, [], [], [s], s, s)
  {
    forall d: nat ensures DeadWhy(calls, [], s.view, s.view, d) {
    }
  }

  /** Any sequence of calls. The engine ends with the contents its history gives, and answered
      each get from the contents its history gave at that point. With a blob store, and puts of
      ordinary blobs only, no put loses a key. With exact accounts, and puts of fresh keys only,
      the accounts stay exact, and a put that comes last leaves DRAM at most 95% full. The blob
      store has only been appended to, a record is given up only by a delete of its key, and the
      checkpoint's file is the same if no save succeeds. The trace says what each call did to the
      slots and to the policy. */
  method ServeAll(e: Engine.Engine, calls: seq<Call>) returns (replies: seq<Reply>, ghost ops: seq<Op>, ghost trace: seq<Snap>)
    requires e.Valid() && e.Ids() + |calls| <= 0x1_0000_0000
    requires forall i :: 0 <= i < |calls| ==> Acceptable(e, calls[i])
    modifies e, e.t1, e.T2Repr(), e.slru.prot.Repr, e.slru.prob.Repr, e.ckpt
    ensures e.Valid() && e.isOpen == old(e.isOpen) && |ops| == |calls|
    ensures Explained(old(e.contents), calls, replies, ops) && e.contents == Run(old(e.contents), ops)
    ensures old(Tame(e, calls)) ==> e.contents == Latest(old(e.contents), ops)
    ensures old(Tight(e.Now())) && FreshPuts(old(e.contents), calls) ==>
              Tight(e.Now()) && (EndsInPut(calls, replies) ==> !e.Crowded())
    ensures Trail(calls, replies, old(e.Now()), old(e.ckpt.file), e.Now(), e.ckpt.file)
    ensures At(RegimeOf(e), calls, replies, ops, trace, old(e.Here()), e.Here())
  {
    ghost var s, tame, file := e.Here(), Tame(e, calls), e.ckpt.file;
    ghost var exact := Tight(s.view) && FreshPuts(s.view.contents, calls);
    NothingYet(RegimeOf(e), calls, tame, exact, s, e.prompts, e.ckpt.file, e.Crowded());
    replies, ops, trace := ServeRest(e, calls, [], [], tame, exact, s, e.ckpt.file, [s]);
    assert SoFarIf(calls, replies, ops, tame, exact, s.view, file, e.Now(), e.prompts, e.ckpt.file, e.Crowded(), true);
    if tame {
      NothingLost(s.view.contents, ops);
    }
  }

  /** A call that, if it succeeds, changes what `k` stands for. */
  predicate Changes(call: Call, k: StorageKey) {
    (call.CallPut? || call.CallDel?) && call.key == k
  }

  /** Position `j` is the last successful put of `k` among the first `i` calls, and no successful
      delete of `k` followed it. */
  predicate LastPut(calls: seq<Call>, replies: seq<Reply>, j: nat, i: nat, k: StorageKey) {
    && j < i <= |calls| && i <= |replies|
    && calls[j].CallPut? && calls[j].key == k && replies[j].status == Ok
    && forall l :: j < l < i && replies[l].status == Ok ==> !Changes(calls[l], k)
  }

  predicate Quiet(calls: seq<Call>, replies: seq<Reply>, i: nat, k: StorageKey) {
    && i <= |calls| && i <= |replies|
    && forall l :: 0 <= l < i && replies[l].status == Ok ==> !Changes(calls[l], k)
  }

  /** A get that succeeds returns the bytes of the latest successful put of its key not followed
      by a successful delete; or, before any of either, what the engine was opened with. */
  lemma GetIsLatestPut(c: Contents, calls: seq<Call>, replies: seq<Reply>, ops: seq<Op>, i: nat)
    requires Explained(c, calls, replies, ops) && i < |ops| && calls[i].CallGet? && replies[i].status == Ok
    ensures (exists j: nat :: LastPut(calls, replies, j, i, calls[i].key) && replies[i].data == calls[j].blob)
            || (calls[i].key in c && Quiet(calls, replies, i, calls[i].key) && replies[i].data == c[calls[i].key])
  {
    var k, front := calls[i].key, ops[..i];
    assert Answers(Run(c, ops[..i]), calls[i], replies[i]);
    HoldsLatest(c, front, k);
    forall l | 0 <= l < i && replies[l].status == Ok ensures Names(front[l], k) <==> Changes(calls[l], k) {
      assert Did(calls[l], replies[l], ops[l]);
    }
    if j: nat :| PutLast(front, j, k) && Run(c, front)[k] == front[j].blob {
      assert Did(calls[j], replies[j], ops[j]);
      assert LastPut(calls, replies, j, i, k);
    }
  }
}
