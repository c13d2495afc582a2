/** The engine together with its eviction policy: what a store, a turn of the eviction loop and a
    whole put do to both, exactly. */
module EnginePolicy {
  import opened Common
  import opened Segment
  import opened Checkpoint
  import opened EngineModel
  import B = BlobProtocol
  import Slab
  import Slru

  datatype Snap = Snap(view: View, policy: Slru.Lists)

  /** Whether there is a blob store, and the cost below which nothing is demoted to it. */
  datatype Rule = Rule(stored: bool, minCost: U32)

  /** More than 95% of the DRAM capacity is handed out. */
  predicate Full(classes: seq<Slab.SizeClass>) {
    Slab.AllOk(classes) && Slab.Used(classes) * 20 > Slab.Capacity(classes) * 19
  }

  // ---- One turn of the eviction loop ----

  /** A DRAM entry is lost when it is evicted: there is nowhere to demote it to, it is not worth the
      write, or the blob store refuses its length. */
  predicate Loses(rule: Rule, v: View, k: StorageKey) {
    InDram(v.index, k) && (!rule.stored || v.index[k].cost < rule.minCost || v.index[k].length > U32_MAX - ENTRY_HEADER_SIZE)
  }

  function LostBy(rule: Rule, v: View, k: StorageKey): set<StorageKey> {
    if Loses(rule, v, k) then {k} else {}
  }

  /** Only this key's entry, bytes and slot have changed. */
  predicate Leaves(v: View, w: View, k: StorageKey) {
    && k in v.owner && v.owner[k].cls < |v.classes| && w.classes == Slab.Release(v.classes, v.owner[k])
    && w.index - {k} == v.index - {k} && w.contents - {k} == v.contents - {k} && w.tracked == v.tracked - {k}
  }

  /** What becomes of the victim: nothing but that it is no longer tracked if it has left DRAM
      already; it goes, slot and all, if it is lost; and otherwise it stands for the same bytes,
      now in the blob store as its last record. */
  predicate Evacuated(rule: Rule, v: View, w: View, k: StorageKey) {
    if !InDram(v.index, k) then w == Forgotten(v, k)
    else
      && Leaves(v, w, k)
      && if Loses(rule, v, k) then k !in w.index && k !in w.contents && w.log == v.log
         else && k in v.contents && k in w.contents && w.contents[k] == v.contents[k]
              && InNvme(w.index, k) && SameMeta(v.index[k], w.index[k])
              && |w.log| == |v.log| + 1 && w.log[..|v.log|] == v.log && w.log[|v.log|].loc == EntryLocation(w.index[k])
  }

  lemma DropEvacuates(rule: Rule, v: View, k: StorageKey)
    requires InDram(v.index, k) && Loses(rule, v, k) && k in v.owner && v.owner[k].cls < |v.classes|
    ensures Evacuated(rule, v, FreedFromDram(v, k), k)
  {
  }

  lemma DemoteEvacuates(rule: Rule, v: View, k: StorageKey, e: IndexEntry, log: seq<B.Rec>)
    requires InDram(v.index, k) && !Loses(rule, v, k) && k in v.owner && v.owner[k].cls < |v.classes|
    requires k in v.contents && Recorded(v, k, v.contents[k], e, log) && SameMeta(v.index[k], e)
    ensures Evacuated(rule, v, Demoted(v, k, e, log), k)
  {
    var w := Demoted(v, k, e, log);
    assert w.index - {k} == v.index - {k};
  }

  predicate TurnIf(rule: Rule, s: Snap, t: Snap, k: StorageKey, asked: bool) {
    Full(s.view.classes) && (t.policy, Some(k)) == Slru.Evict(s.policy) && Evacuated(rule, s.view, t.view, k)
  }

  /** One turn of the eviction loop: DRAM is more than 95% full, `k` is the policy's victim, and
      leaves; unfolded on demand. */
  predicate Turn(rule: Rule, s: Snap, t: Snap, k: StorageKey) {
    forall asked :: TurnIf(rule, s, t, k, asked)
  }

  /** `n` turns of the eviction loop, which lose the keys of `lost`. */
  ghost predicate Turns(rule: Rule, n: nat, s: Snap, t: Snap, lost: set<StorageKey>)
    decreases n
  {
    if n == 0 then t == s && lost == {}
    else exists u, k, before :: Turns(rule, n - 1, s, u, before) && Turn(rule, u, t, k) && lost == before + LostBy(rule, u.view, k)
  }

  lemma NoTurns(rule: Rule, s: Snap)
    ensures Turns(rule, 0, s, s, {})
  {
  }

  lemma OneMoreTurn(rule: Rule, n: nat, s: Snap, u: Snap, before: set<StorageKey>, t: Snap, k: StorageKey)
    requires Turns(rule, n, s, u, before) && Turn(rule, u, t, k)
    ensures Turns(rule, n + 1, s, t, before + LostBy(rule, u.view, k))
  {
  }

  /** No turn is taken unless DRAM is more than 95% full. */
  lemma {:induction false} TurnsWhenFull(rule: Rule, n: nat, s: Snap, t: Snap, lost: set<StorageKey>)
    requires Turns(rule, n, s, t, lost)
    ensures n > 0 ==> Full(s.view.classes)
    decreases n
  {
    if n > 0 {
      var u, k, before :| Turns(rule, n - 1, s, u, before) && Turn(rule, u, t, k) && lost == before + LostBy(rule, u.view, k);
      TurnsWhenFull(rule, n - 1, s, u, before);
      assert TurnIf(rule, u, t, k, true);
    }
  }

  /** The eviction loop from `s` to `t`: so many turns that DRAM is no longer too full, or the policy
      has no victim. */
  ghost predicate EvictsTo(rule: Rule, s: Snap, t: Snap, lost: set<StorageKey>) {
    && (exists n :: Turns(rule, n, s, t, lost))
    && (!Full(t.view.classes) || Slru.Tracked(t.policy) == {})
  }

  /** Below the limit the eviction loop changes nothing at all. */
  lemma EvictsNoneBelow(rule: Rule, s: Snap, t: Snap, lost: set<StorageKey>)
    requires EvictsTo(rule, s, t, lost) && !Full(s.view.classes)
    ensures t == s && lost == {}
  {
    var n :| Turns(rule, n, s, t, lost);
    TurnsWhenFull(rule, n, s, t, lost);
  }

  // ---- A put ----

  predicate FilledIf(s: Snap, m: Snap, key: StorageKey, size: nat, cost: U32, asked: bool) {
    match Slab.Choice(s.view.classes, size, 0)
    case Some(i) =>
      && InDram(m.view.index, key) && m.view.classes == Slab.Take(s.view.classes, i)
      && m.policy == Slru.Insert(s.policy, key, cost, key.chunkIndex)
    case None => InNvme(m.view.index, key) && m.view.classes == s.view.classes && m.policy == s.policy
  }

  /** The slot and the policy once the blob of a put is in its place: the smallest slot that fits is
      taken, and the policy has the key with its cost and chunk; or the blob is in the blob store,
      and DRAM and policy are as they were; unfolded on demand. */
  predicate Filled(s: Snap, m: Snap, key: StorageKey, size: nat, cost: U32) {
    forall asked :: FilledIf(s, m, key, size, cost, asked)
  }

  ghost predicate PutsToIf(rule: Rule, s: Snap, t: Snap, key: StorageKey, blob: Bytes, entry: IndexEntry, lost: set<StorageKey>, asked: bool) {
    exists m: Snap :: Stores(s.view, m.view, key, blob, entry) && Filled(s, m, key, |blob|, entry.cost) && EvictsTo(rule, m, t, lost)
  }

  /** A whole put: the blob is stored, and then the eviction loop runs; unfolded on demand. */
  ghost predicate PutsTo(rule: Rule, s: Snap, t: Snap, key: StorageKey, blob: Bytes, entry: IndexEntry, lost: set<StorageKey>) {
    forall asked :: PutsToIf(rule, s, t, key, blob, entry, lost, asked)
  }

  lemma StoreThenEvictions(rule: Rule, s: Snap, m: Snap, t: Snap, key: StorageKey, blob: Bytes, entry: IndexEntry, lost: set<StorageKey>)
    requires Stores(s.view, m.view, key, blob, entry) && Filled(s, m, key, |blob|, entry.cost) && EvictsTo(rule, m, t, lost)
    ensures PutsTo(rule, s, t, key, blob, entry, lost)
  {
  }

  /** With a slot for a blob of this size handed out, DRAM is at most 95% full. */
  predicate Roomy(classes: seq<Slab.SizeClass>, size: nat) {
    && Slab.AllOk(classes)
    && match Slab.Choice(classes, size, 0)
       case Some(i) => (Slab.Used(classes) + classes[i].slotSize) * 20 <= Slab.Capacity(classes) * 19
       case None => Slab.Used(classes) * 20 <= Slab.Capacity(classes) * 19
  }

  lemma FilledFits(s: Snap, m: Snap, key: StorageKey, size: nat, cost: U32)
    requires Slab.WellFormed(s.view.classes) && Roomy(s.view.classes, size) && Filled(s, m, key, size, cost)
    ensures !Full(m.view.classes)
  {
    assert FilledIf(s, m, key, size, cost, true);
    match Slab.Choice(s.view.classes, size, 0)
    case Some(i) =>
      Slab.TakeEffect(s.view.classes, i);
      Slab.TakeCapacity(s.view.classes, i, s.view.classes[i].free[..|s.view.classes[i].free| - 1]);
    case None =>
  }

  /** What a put with room is: a map update, one more entry of the index, and nothing else. No key is
      lost and none is demoted; the policy has the key added if it is in DRAM, and is otherwise as
      it was. */
  predicate Updates(s: Snap, t: Snap, key: StorageKey, blob: Bytes, cost: U32) {
    && t.view.contents == s.view.contents[key := blob]
    && key in t.view.index && t.view.index - {key} == s.view.index - {key}
    && Filled(s, t, key, |blob|, cost)
  }

  ghost predicate GentleIf(s: Snap, t: Snap, key: StorageKey, blob: Bytes, cost: U32, lost: set<StorageKey>, asked: bool) {
    Roomy(s.view.classes, |blob|) ==> lost == {} && Updates(s, t, key, blob, cost)
  }

  /** A put that finds room is only a map update; unfolded on demand. */
  ghost predicate Gentle(s: Snap, t: Snap, key: StorageKey, blob: Bytes, cost: U32, lost: set<StorageKey>) {
    forall asked :: GentleIf(s, t, key, blob, cost, lost, asked)
  }

  /** As long as DRAM is at most 95% full with the slot of the put, the put loses no key, demotes
      none, and is a map update. */
  lemma RoomyPut(rule: Rule, s: Snap, t: Snap, key: StorageKey, blob: Bytes, entry: IndexEntry, lost: set<StorageKey>)
    requires PutsTo(rule, s, t, key, blob, entry, lost) && Slab.WellFormed(s.view.classes)
    ensures Gentle(s, t, key, blob, entry.cost, lost)
  {
    if Roomy(s.view.classes, |blob|) {
      assert PutsToIf(rule, s, t, key, blob, entry, lost, true);
      var m: Snap :| Stores(s.view, m.view, key, blob, entry) && Filled(s, m, key, |blob|, entry.cost) && EvictsTo(rule, m, t, lost);
      FilledFits(s, m, key, |blob|, entry.cost);
      EvictsNoneBelow(rule, m, t, lost);
      forall j | j != key ensures (j in t.view.index <==> j in s.view.index) && (j in s.view.index ==> t.view.index[j] == s.view.index[j]) {
        assert EntryKept(s.view, m.view, j);
      }
    }
  }

  // ---- A get, and a delete ----

  /** The policy after a get: the access counts if the engine is open and the bytes come from DRAM,
      at the cost of the key's entry; nothing else touches the policy. */
  function AfterGet(config: Slru.Config, isOpen: bool, s: Snap, key: StorageKey, bufLen: nat): Slru.Lists
    requires Slru.GoodConfig(config)
  {
    if isOpen && InDram(s.view.index, key) && s.view.index[key].length <= bufLen
    then Slru.Access(config, s.policy, key, s.view.index[key].cost) else s.policy
  }

  /** The policy after a delete, which takes the key's entry out if it succeeds. */
  function AfterDelete(s: Snap, key: StorageKey, done: bool): Slru.Lists {
    if done then Slru.Remove(s.policy, key) else s.policy
  }
}
