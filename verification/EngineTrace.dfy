/** What the trace of a run shows: while DRAM has room nothing is lost, and the policy always knows
    each key in DRAM by the chunk of the key and the cost of its entry. */
module EngineTrace {
  import opened Common
  import opened Checkpoint
  import opened EngineModel
  import opened EngineHistory
  import opened EnginePolicy
  import opened EngineRun
  import Engine
  import Slru

  // ---- Runs with room ----

  /** Every put that succeeded found DRAM at most 95% full, its own slot included. */
  predicate AlwaysRoomy(calls: seq<Call>, replies: seq<Reply>, trace: seq<Snap>) {
    forall i :: 0 <= i < |calls| && i < |replies| && i < |trace| && calls[i].CallPut? && replies[i].status == Ok ==>
      Roomy(trace[i].view.classes, |calls[i].blob|)
  }

  lemma RoomyAt(r: Regime, calls: seq<Call>, replies: seq<Reply>, ops: seq<Op>, trace: seq<Snap>, c: Contents, i: nat)
    requires Traced(r, calls, replies, ops, trace) && Explained(c, calls, replies, ops) && AlwaysRoomy(calls, replies, trace) && i < |ops|
    ensures ops[i].OpPut? ==> ops[i].lost == {}
  {
    assert TracedIf(r, calls, replies, ops, trace, true);
    assert Did(calls[i], replies[i], ops[i]) && Moved(r, calls[i], replies[i], ops[i], trace[i], trace[i + 1]);
    if ops[i].OpPut? {
      var call := calls[i];
      assert MovedIf(r, call, replies[i], ops[i], trace[i], trace[i + 1], true);
      assert GentleIf(trace[i], trace[i + 1], call.key, call.blob, call.opts.cost, ops[i].lost, true);
    }
  }

  /** As long as every put finds room no key is ever lost, whatever the blobs and with or without a
      blob store: the engine is the simple map. */
  lemma RoomyRun(r: Regime, calls: seq<Call>, replies: seq<Reply>, ops: seq<Op>, trace: seq<Snap>, c: Contents)
    requires Traced(r, calls, replies, ops, trace) && Explained(c, calls, replies, ops) && AlwaysRoomy(calls, replies, trace)
    ensures Run(c, ops) == Latest(c, ops)
  {
    forall i | 0 <= i < |ops| ensures ops[i].OpPut? ==> ops[i].lost == {} {
      RoomyAt(r, calls, replies, ops, trace, c, i);
    }
    NothingLost(c, ops);
  }

  // ---- What the policy knows ----

  predicate AgreesAt(s: Snap, x: Slru.Item) {
    Slru.Listed(s.policy, x) ==> x.chunk == x.key.chunkIndex && (InDram(s.view.index, x.key) ==> x.cost == s.view.index[x.key].cost)
  }

  ghost predicate AgreeingIf(s: Snap, asked: bool) {
    Slru.WellFormed(s.policy) && forall x :: AgreesAt(s, x)
  }

  /** The policy files each key once, under the chunk of the key, and under the cost of its entry if
      it is in DRAM; unfolded on demand. */
  ghost predicate Agreeing(s: Snap) {
    forall asked :: AgreeingIf(s, asked)
  }

  predicate ChunkOfKey(op: Slru.Op) {
    op.OnInsert? ==> op.chunk == op.key.chunkIndex
  }

  /** A DRAM entry of `t` has the cost that the operation gives its key, or was there at the same cost. */
  predicate CostKept(s: Snap, t: Snap, op: Slru.Op, k: StorageKey) {
    InDram(t.view.index, k) ==>
      if Slru.Prices(op, k) then t.view.index[k].cost == Slru.Price(op)
      else InDram(s.view.index, k) && t.view.index[k].cost == s.view.index[k].cost
  }

  lemma OpAgrees(c: Slru.Config, s: Snap, t: Snap, op: Slru.Op)
    requires Slru.GoodConfig(c) && Agreeing(s) && t.policy == Slru.Step(c, s.policy, op) && ChunkOfKey(op)
    requires forall k :: CostKept(s, t, op, k)
    ensures Agreeing(t)
  {
    assert AgreeingIf(s, true);
    Slru.StepKeepsKeys(c, s.policy, op);
    forall x ensures AgreesAt(t, x) {
      if Slru.Listed(t.policy, x) {
        StepAgreesAt(c, s, t, op, x);
      }
    }
  }

  lemma StepAgreesAt(c: Slru.Config, s: Snap, t: Snap, op: Slru.Op, x: Slru.Item)
    requires Slru.GoodConfig(c) && AgreeingIf(s, true) && t.policy == Slru.Step(c, s.policy, op) && ChunkOfKey(op)
    requires Slru.Listed(t.policy, x) && CostKept(s, t, op, x.key)
    ensures AgreesAt(t, x)
  {
    Slru.StepStems(c, s.policy, op, x);
    if x.key in Slru.Tracked(s.policy) {
      var y := Slru.StemOf(s.policy, op, x);
      assert AgreesAt(s, y);
    }
  }

  lemma SameAgrees(s: Snap, t: Snap)
    requires Agreeing(s) && t.policy == s.policy
    requires forall k :: InDram(t.view.index, k) ==> InDram(s.view.index, k) && t.view.index[k].cost == s.view.index[k].cost
    ensures Agreeing(t)
  {
    assert AgreeingIf(s, true);
    forall x ensures AgreesAt(t, x) {
      assert AgreesAt(s, x);
    }
  }

  const ANY: Slru.Config := Slru.Config(0, 1, 0, 0)

  lemma StoreAgrees(s: Snap, m: Snap, key: StorageKey, blob: Bytes, entry: IndexEntry)
    requires Agreeing(s) && Stores(s.view, m.view, key, blob, entry) && Filled(s, m, key, |blob|, entry.cost)
    ensures Agreeing(m)
  {
    assert FilledIf(s, m, key, |blob|, entry.cost, true);
    if InDram(m.view.index, key) {
      var op := Slru.OnInsert(key, entry.cost, key.chunkIndex);
      forall k ensures CostKept(s, m, op, k) {
        if k != key { assert EntryKept(s.view, m.view, k); }
      }
      OpAgrees(ANY, s, m, op);
    } else {
      forall k | InDram(m.view.index, k) ensures InDram(s.view.index, k) && m.view.index[k].cost == s.view.index[k].cost {
        if k != key { assert EntryKept(s.view, m.view, k); }
      }
      SameAgrees(s, m);
    }
  }

  lemma TurnAgrees(rule: Rule, s: Snap, t: Snap, victim: StorageKey)
    requires Agreeing(s) && Turn(rule, s, t, victim)
    ensures Agreeing(t)
  {
    assert TurnIf(rule, s, t, victim, true);
    forall k ensures CostKept(s, t, Slru.OnEvict, k) {
      if InDram(s.view.index, victim) && k != victim {
        assert k in t.view.index - {victim} <==> k in s.view.index - {victim};
      }
    }
    OpAgrees(ANY, s, t, Slru.OnEvict);
  }

  lemma {:induction false} TurnsAgree(rule: Rule, n: nat, s: Snap, t: Snap, lost: set<StorageKey>)
    requires Agreeing(s) && Turns(rule, n, s, t, lost)
    ensures Agreeing(t)
    decreases n
  {
    if n > 0 {
      var u, k, before :| Turns(rule, n - 1, s, u, before) && Turn(rule, u, t, k) && lost == before + LostBy(rule, u.view, k);
      TurnsAgree(rule, n - 1, s, u, before);
      TurnAgrees(rule, u, t, k);
    }
  }

  lemma PutAgrees(rule: Rule, s: Snap, t: Snap, key: StorageKey, blob: Bytes, entry: IndexEntry, lost: set<StorageKey>)
    requires Agreeing(s) && PutsTo(rule, s, t, key, blob, entry, lost)
    ensures Agreeing(t)
  {
    assert PutsToIf(rule, s, t, key, blob, entry, lost, true);
    var m: Snap :| Stores(s.view, m.view, key, blob, entry) && Filled(s, m, key, |blob|, entry.cost) && EvictsTo(rule, m, t, lost);
    StoreAgrees(s, m, key, blob, entry);
    var n :| Turns(rule, n, m, t, lost);
    TurnsAgree(rule, n, m, t, lost);
  }

  lemma GetAgrees(r: Regime, call: Call, reply: Reply, op: Op, s: Snap, t: Snap)
    requires Agreeing(s) && MovedIf(r, call, reply, op, s, t, true) && call.CallGet?
    ensures Agreeing(t)
  {
    if r.isOpen && InDram(s.view.index, call.key) && s.view.index[call.key].length <= call.bufLen {
      var o := Slru.OnAccess(call.key, s.view.index[call.key].cost);
      forall k ensures CostKept(s, t, o, k) {
      }
      OpAgrees(r.policy, s, t, o);
    } else {
      SameAgrees(s, t);
    }
  }

  lemma DelAgrees(r: Regime, call: Call, reply: Reply, op: Op, s: Snap, t: Snap)
    requires Agreeing(s) && MovedIf(r, call, reply, op, s, t, true) && call.CallDel?
    ensures Agreeing(t)
  {
    if reply.status == Ok {
      forall k ensures CostKept(s, t, Slru.OnRemove(call.key), k) {
      }
      OpAgrees(ANY, s, t, Slru.OnRemove(call.key));
    } else {
      SameAgrees(s, t);
    }
  }

  lemma MoveAgrees(r: Regime, call: Call, reply: Reply, op: Op, s: Snap, t: Snap)
    requires Agreeing(s) && Moved(r, call, reply, op, s, t)
    ensures Agreeing(t)
  {
    assert MovedIf(r, call, reply, op, s, t, true);
    match call
    case CallPut(k, blob, opts, now) =>
      if reply.status == Ok { PutAgrees(r.rule, s, t, k, blob, Engine.FreshEntry(blob, opts, now), op.lost); }
    case CallGet(_, _, _) => GetAgrees(r, call, reply, op, s, t);
    case CallDel(_) => DelAgrees(r, call, reply, op, s, t);
    case _ =>
  }

  /** In every state of a run the policy files the keys in DRAM under the chunk of the key and the cost
      of its entry, if it did at first: so the victims are chosen by what the puts said. */
  lemma {:induction false} RunAgrees(r: Regime, calls: seq<Call>, replies: seq<Reply>, ops: seq<Op>, trace: seq<Snap>, i: nat)
    requires Traced(r, calls, replies, ops, trace) && i < |trace| && Agreeing(trace[0])
    ensures Agreeing(trace[i])
  {
    if i > 0 {
      var j := i - 1;
      RunAgrees(r, calls, replies, ops, trace, j);
      assert TracedIf(r, calls, replies, ops, trace, true);
      MoveAgrees(r, calls[j], replies[j], ops[j], trace[j], trace[j + 1]);
    }
  }

  /** A get that finds its key in DRAM, where the policy lists it at place `i` of a segment: a protected
      key heads its segment; a probationary one does too if its cost is below the threshold, and else
      heads the whole order, promoted. Either way under its own chunk and the cost of its entry, with
      all other entries in their order. */
  lemma HitMovesToFront(r: Regime, call: Call, reply: Reply, op: Op, s: Snap, t: Snap, i: nat)
    requires Agreeing(s) && Moved(r, call, reply, op, s, t) && call.CallGet? && r.isOpen
    requires InDram(s.view.index, call.key) && s.view.index[call.key].length <= call.bufLen
    ensures var x, p, q := Slru.Item(call.key, s.view.index[call.key].cost, call.key.chunkIndex), s.policy, t.policy;
            && (i < |p.prot| && p.prot[i].key == call.key ==> q == Slru.Lists([x] + p.prot[..i] + p.prot[i + 1..], p.prob))
            && (i < |p.prob| && p.prob[i].key == call.key ==>
                  if x.cost < r.policy.threshold then q == Slru.Lists(p.prot, [x] + p.prob[..i] + p.prob[i + 1..])
                  else q.prot + q.prob == [x] + p.prot + p.prob[..i] + p.prob[i + 1..])
  {
    assert MovedIf(r, call, reply, op, s, t, true) && AgreeingIf(s, true);
    var p, cost := s.policy, s.view.index[call.key].cost;
    if i < |p.prot| && p.prot[i].key == call.key {
      assert AgreesAt(s, p.prot[i]);
      Slru.TouchesProtected(r.policy, p, i, cost, 0);
    }
    if i < |p.prob| && p.prob[i].key == call.key {
      assert AgreesAt(s, p.prob[i]);
      if cost < r.policy.threshold {
        Slru.TouchesProbationary(r.policy, p, i, cost, 0);
      } else {
        var _ := Slru.Promotes(r.policy, p, i, cost);
      }
    }
  }

  /** No other get touches the policy, whatever it answers. */
  lemma MissLeavesPolicy(r: Regime, call: Call, reply: Reply, op: Op, s: Snap, t: Snap)
    requires Moved(r, call, reply, op, s, t) && call.CallGet?
    requires !r.isOpen || !InDram(s.view.index, call.key) || s.view.index[call.key].length > call.bufLen
    ensures t.policy == s.policy
  {
    assert MovedIf(r, call, reply, op, s, t, true);
  }

  /** An engine just opened tracks nothing. */
  lemma OpenAgrees(s: Snap)
    requires s.policy == Slru.Lists([], [])
    ensures Agreeing(s)
  {
  }
}
