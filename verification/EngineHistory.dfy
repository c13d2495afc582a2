/** Whole histories of the engine, seen through the contracts of its operations: what a get may
    return is the latest put of its key, and a key is missing only if some put lost it. */
module EngineHistory {
  import opened Common
  import opened EngineModel

  /** A successful put with the keys it lost, a successful delete, or anything else: a get, a
      rejected or failed put, a failed delete, a checkpoint. */
  datatype Op = OpPut(key: StorageKey, blob: Bytes, lost: set<StorageKey>) | OpDel(key: StorageKey) | OpOther

  function Apply(c: Contents, op: Op): Contents {
    match op
    case OpPut(k, blob, lost) => c[k := blob] - lost
    case OpDel(k) => c - {k}
    case OpOther => c
  }

  function Run(c: Contents, ops: seq<Op>): Contents {
    if ops == [] then c else Apply(Run(c, ops[..|ops| - 1]), ops[|ops| - 1])
  }

  /** The simple map: every put overwrites, every delete removes, and nothing is ever lost. */
  function Latest(c: Contents, ops: seq<Op>): Contents {
    if ops == [] then c
    else
      var prior := Latest(c, ops[..|ops| - 1]);
      match ops[|ops| - 1]
      case OpPut(k, blob, _) => prior[k := blob]
      case OpDel(k) => prior - {k}
      case OpOther => prior
  }

  predicate Names(op: Op, k: StorageKey) {
    (op.OpPut? || op.OpDel?) && op.key == k
  }

  /** No put or delete of `k` from position `i` on. */
  predicate QuietFrom(ops: seq<Op>, i: nat, k: StorageKey) {
    forall j :: i <= j < |ops| ==> !Names(ops[j], k)
  }

  /** Position `i` of the history put the bytes that are the latest of `k`. */
  predicate PutLast(ops: seq<Op>, i: nat, k: StorageKey) {
    i < |ops| && ops[i].OpPut? && ops[i].key == k && QuietFrom(ops, i + 1, k)
  }

  lemma {:induction false} LatestIsLatest(c: Contents, ops: seq<Op>, k: StorageKey)
    ensures k in Latest(c, ops) <==> (exists i: nat :: PutLast(ops, i, k)) || (k in c && QuietFrom(ops, 0, k))
    ensures forall i: nat :: PutLast(ops, i, k) ==> k in Latest(c, ops) && Latest(c, ops)[k] == ops[i].blob
    ensures k in c && QuietFrom(ops, 0, k) ==> k in Latest(c, ops) && Latest(c, ops)[k] == c[k]
  {
    if ops != [] {
      var n := |ops| - 1;
      var front := ops[..n];
      LatestIsLatest(c, front, k);
      assert !Names(ops[n], k) ==> (QuietFrom(front, 0, k) <==> QuietFrom(ops, 0, k));
      forall i: nat | i < n ensures PutLast(ops, i, k) <==> PutLast(front, i, k) && !Names(ops[n], k) {
        assert forall j :: 0 <= j < n ==> front[j] == ops[j];
      }
      if ops[n].OpPut? && ops[n].key == k {
        assert PutLast(ops, n, k);
      }
      if i: nat :| PutLast(front, i, k) && !Names(ops[n], k) {
        assert PutLast(ops, i, k);
      }
      forall i: nat | PutLast(ops, i, k) ensures k in Latest(c, ops) && Latest(c, ops)[k] == ops[i].blob {
        if i < n { assert PutLast(front, i, k); }
      }
    }
  }

  /** Whatever the engine still holds for a key is the latest put of that key, or what it stood
      for before the history began. */
  lemma {:induction false} HoldsLatest(c: Contents, ops: seq<Op>, k: StorageKey)
    requires k in Run(c, ops)
    ensures k in Latest(c, ops) && Run(c, ops)[k] == Latest(c, ops)[k]
    ensures (exists i: nat :: PutLast(ops, i, k) && Run(c, ops)[k] == ops[i].blob)
            || (k in c && QuietFrom(ops, 0, k) && Run(c, ops)[k] == c[k])
  {
    if ops != [] {
      var n := |ops| - 1;
      if !(ops[n].OpPut? && ops[n].key == k) {
        HoldsLatest(c, ops[..n], k);
      }
      LatestIsLatest(c, ops, k);
    }
  }

  /** The put at position `j` lost `k`, and `k` has not been put or deleted since. */
  predicate LostAt(ops: seq<Op>, j: nat, k: StorageKey) {
    j < |ops| && ops[j].OpPut? && k in ops[j].lost && QuietFrom(ops, j + 1, k)
  }

  /** A key that was put and not deleted is missing exactly if a put since then lost it. */
  lemma {:induction false} MissingWasLost(c: Contents, ops: seq<Op>, k: StorageKey)
    requires k in Latest(c, ops)
    ensures k !in Run(c, ops) <==> exists j: nat :: LostAt(ops, j, k)
  {
    if ops != [] {
      var n := |ops| - 1;
      var front := ops[..n];
      forall j: nat | j < n ensures LostAt(ops, j, k) <==> LostAt(front, j, k) && !Names(ops[n], k) {
        assert forall i :: 0 <= i < n ==> front[i] == ops[i];
      }
      if ops[n].OpPut? && k in ops[n].lost {
        assert LostAt(ops, n, k);
      } else if !Names(ops[n], k) {
        MissingWasLost(c, front, k);
        if j: nat :| LostAt(front, j, k) {
          assert LostAt(ops, j, k);
        }
      }
    }
  }

  /** A history in which no put loses a key is a history of the simple map. */
  lemma {:induction false} NothingLost(c: Contents, ops: seq<Op>)
    requires forall i :: 0 <= i < |ops| && ops[i].OpPut? ==> ops[i].lost == {}
    ensures Run(c, ops) == Latest(c, ops)
  {
    if ops != [] {
      NothingLost(c, ops[..|ops| - 1]);
    }
  }
}
