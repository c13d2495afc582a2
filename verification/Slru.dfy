/** The order the cost-weighted segmented LRU keeps: two sequences, most recent first. */
module Slru {
  import opened Common

  datatype Item = Item(key: StorageKey, cost: U32, chunk: U32)

  datatype Lists = Lists(prot: seq<Item>, prob: seq<Item>)

  /** The share of the protected segment is the fraction `num / den`. */
  datatype Config = Config(num: nat, den: nat, threshold: U32, maxEntries: nat)

  const SCAN_WINDOW: nat := 8

  predicate GoodConfig(c: Config) {
    c.den > 0
  }

  // ---- Finding and moving entries ----

  function KeySet(q: seq<Item>): (r: set<StorageKey>)
    ensures forall k :: k in r <==> Has(q, k)
  {
    set i | 0 <= i < |q| :: q[i].key
  }

  predicate Has(q: seq<Item>, k: StorageKey) {
    exists i :: 0 <= i < |q| && q[i].key == k
  }

  predicate NoDup(q: seq<Item>) {
    forall i, j :: 0 <= i < j < |q| ==> q[i].key != q[j].key
  }

  function Find(q: seq<Item>, k: StorageKey): (i: nat)
    requires Has(q, k)
    ensures i < |q| && q[i].key == k
    ensures forall j :: 0 <= j < i ==> q[j].key != k
  {
    if q[0].key == k then 0 else
      assert Has(q[1..], k) by {
        var i :| 0 <= i < |q| && q[i].key == k;
        assert q[1..][i - 1].key == k;
      }
      1 + Find(q[1..], k)
  }

  function Without<T>(q: seq<T>, i: nat): (r: seq<T>)
    requires i < |q|
    ensures |r| == |q| - 1
  {
    q[..i] + q[i + 1..]
  }

  /** The entry of `k`, with a new cost, in front of the others. */
  function Touch(q: seq<Item>, k: StorageKey, cost: U32): seq<Item>
    requires Has(q, k)
  {
    var i := Find(q, k);
    [q[i].(cost := cost)] + Without(q, i)
  }

  function Combined(l: Lists): seq<Item> {
    l.prot + l.prob
  }

  function Tracked(l: Lists): set<StorageKey> {
    KeySet(l.prot) + KeySet(l.prob)
  }

  /** Every tracked key has exactly one entry, in one of the segments. */
  predicate WellFormed(l: Lists) {
    NoDup(l.prot) && NoDup(l.prob) && KeySet(l.prot) !! KeySet(l.prob)
  }

  // ---- Operations ----

  function MaxProtected(c: Config, l: Lists): nat
    requires GoodConfig(c)
  {
    if c.maxEntries > 0 then c.maxEntries * c.num / c.den
    else (|l.prot| + |l.prob|) * c.num / c.den
  }

  /** One turn of the demotion loop: the coldest protected entry becomes the hottest probationary one. */
  function DemoteOne(l: Lists): Lists
    requires |l.prot| > 0
  {
    Lists(l.prot[..|l.prot| - 1], [l.prot[|l.prot| - 1]] + l.prob)
  }

  function Demote(l: Lists, limit: nat): Lists
    decreases |l.prot|
  {
    if |l.prot| > limit then Demote(DemoteOne(l), limit) else l
  }

  function Promote(l: Lists, k: StorageKey, cost: U32): Lists
    requires Has(l.prob, k)
  {
    var i := Find(l.prob, k);
    Lists([l.prob[i].(cost := cost)] + l.prot, Without(l.prob, i))
  }

  function Access(c: Config, l: Lists, k: StorageKey, cost: U32): Lists
    requires GoodConfig(c)
  {
    if Has(l.prot, k) then l.(prot := Touch(l.prot, k, cost))
    else if !Has(l.prob, k) then l
    else if cost >= c.threshold then
      var p := Promote(l, k, cost);
      Demote(p, MaxProtected(c, p))
    else l.(prob := Touch(l.prob, k, cost))
  }

  function Insert(l: Lists, k: StorageKey, cost: U32, chunk: U32): Lists {
    if Has(l.prot, k) then l.(prot := Touch(l.prot, k, cost))
    else if Has(l.prob, k) then l.(prob := Touch(l.prob, k, cost))
    else l.(prob := [Item(k, cost, chunk)] + l.prob)
  }

  function Remove(l: Lists, k: StorageKey): Lists {
    if Has(l.prot, k) then l.(prot := Without(l.prot, Find(l.prot, k)))
    else if Has(l.prob, k) then l.(prob := Without(l.prob, Find(l.prob, k)))
    else l
  }

  predicate Beats(a: Item, b: Item) {
    a.chunk > b.chunk || (a.chunk == b.chunk && a.cost < b.cost)
  }

  /** The best of `best` and the `n` entries ending at `i`, walking from the cold end. */
  function ScanFrom(q: seq<Item>, i: nat, n: nat, best: nat): (r: nat)
    requires i < |q| && best < |q|
    ensures r < |q|
    decreases n
  {
    if n == 0 then best
    else
      var b := if Beats(q[i], q[best]) then i else best;
      if i == 0 then b else ScanFrom(q, i - 1, n - 1, b)
  }

  function BestVictim(q: seq<Item>): (r: nat)
    requires |q| > 0
    ensures r < |q|
  {
    ScanFrom(q, |q| - 1, SCAN_WINDOW, |q| - 1)
  }

  function Evict(l: Lists): (Lists, Option<StorageKey>) {
    if |l.prob| > 0 then
      var v := BestVictim(l.prob);
      (l.(prob := Without(l.prob, v)), Some(l.prob[v].key))
    else if |l.prot| > 0 then
      var v := BestVictim(l.prot);
      (l.(prot := Without(l.prot, v)), Some(l.prot[v].key))
    else (l, None)
  }

  // ---- The victim ----

  function WindowStart(q: seq<Item>): nat {
    if |q| <= SCAN_WINDOW then 0 else |q| - SCAN_WINDOW
  }

  /** `v` is the entry of the scan window with the highest chunk, then the lowest cost, then
      the place nearest the cold end. */
  predicate IsVictim(q: seq<Item>, v: nat) {
    && WindowStart(q) <= v < |q|
    && (forall j :: WindowStart(q) <= j < |q| ==> !Beats(q[j], q[v]))
    && (forall j :: v < j < |q| ==> Beats(q[v], q[j]))
  }

  lemma BeatsOrder(a: Item, b: Item, c: Item)
    ensures Beats(a, b) ==> !Beats(b, a)
    ensures Beats(a, b) && Beats(b, c) ==> Beats(a, c)
    ensures Beats(a, b) && !Beats(c, b) ==> Beats(a, c)
  {
  }

  lemma {:induction false} ScanFinds(q: seq<Item>, i: nat, n: nat, best: nat)
    requires i < best < |q| || i == best == |q| - 1
    requires forall j :: i < j < |q| ==> !Beats(q[j], q[best])
    requires forall j :: best < j < |q| ==> Beats(q[best], q[j])
    ensures var r := ScanFrom(q, i, n, best); var low := if n <= i then i + 1 - n else 0;
            && (low <= r || r == best)
            && (forall j :: low <= j < |q| ==> !Beats(q[j], q[r]))
            && (forall j :: r < j < |q| ==> Beats(q[r], q[j]))
    decreases n
  {
    if n > 0 {
      var b := if Beats(q[i], q[best]) then i else best;
      if b == i {
        forall j | i < j < |q| ensures !Beats(q[j], q[b]) && (i != best ==> Beats(q[b], q[j])) {
          BeatsOrder(q[i], q[best], q[j]);
          BeatsOrder(q[b], q[j], q[b]);
        }
      }
      if i > 0 {
        assert i - 1 < b;
        ScanFinds(q, i - 1, n - 1, b);
      }
    }
  }

  /** The scan returns the best entry among the coldest eight. */
  lemma VictimIsBest(q: seq<Item>)
    requires |q| > 0
    ensures IsVictim(q, BestVictim(q))
  {
    ScanFinds(q, |q| - 1, SCAN_WINDOW, |q| - 1);
  }

  lemma VictimBeats(q: seq<Item>, v: nat, j: nat)
    requires IsVictim(q, v) && v < j < |q|
    ensures WindowStart(q) <= v < |q| && Beats(q[v], q[j]) && !IsVictim(q, j)
  {
    assert Beats(q[v], q[j]);
  }

  /** No other entry meets that description. */
  lemma VictimIsUnique(q: seq<Item>, v: nat, w: nat)
    requires IsVictim(q, v) && IsVictim(q, w)
    ensures v == w
  {
    if v < w {
      VictimBeats(q, v, w);
    } else if w < v {
      VictimBeats(q, w, v);
    }
  }

  // ---- What the operations do to keys ----

  lemma WithoutKeys(q: seq<Item>, i: nat)
    requires i < |q| && NoDup(q)
    ensures NoDup(Without(q, i)) && KeySet(Without(q, i)) == KeySet(q) - {q[i].key}
  {
    var r := Without(q, i);
    assert forall j :: 0 <= j < |r| ==> r[j] == if j < i then q[j] else q[j + 1];
    forall k ensures Has(r, k) <==> Has(q, k) && k != q[i].key {
      if Has(q, k) && k != q[i].key {
        var j :| 0 <= j < |q| && q[j].key == k;
        assert r[if j < i then j else j - 1].key == k;
      }
    }
  }

  lemma ConsKeys(e: Item, q: seq<Item>)
    ensures KeySet([e] + q) == {e.key} + KeySet(q)
    ensures NoDup(q) && e.key !in KeySet(q) ==> NoDup([e] + q)
  {
    var r := [e] + q;
    forall k ensures Has(r, k) <==> k == e.key || Has(q, k) {
      assert r[0].key == e.key;
      if Has(q, k) {
        var j :| 0 <= j < |q| && q[j].key == k;
        assert r[j + 1].key == k;
      }
    }
  }

  lemma TouchKeys(q: seq<Item>, k: StorageKey, cost: U32)
    requires Has(q, k) && NoDup(q)
    ensures NoDup(Touch(q, k, cost)) && KeySet(Touch(q, k, cost)) == KeySet(q)
  {
    var i := Find(q, k);
    WithoutKeys(q, i);
    ConsKeys(q[i].(cost := cost), Without(q, i));
  }

  lemma SplitKeySet(q: seq<Item>, n: nat)
    requires n <= |q|
    ensures KeySet(q) == KeySet(q[..n]) + KeySet(q[n..])
  {
    var a, b := q[..n], q[n..];
    forall k ensures Has(q, k) <==> Has(a, k) || Has(b, k) {
      if Has(q, k) {
        var i :| 0 <= i < |q| && q[i].key == k;
        assert if i < n then a[i].key == k else b[i - n].key == k;
      }
    }
  }

  lemma JoinNoDup(a: seq<Item>, b: seq<Item>)
    requires NoDup(a) && NoDup(b) && KeySet(a) !! KeySet(b)
    ensures NoDup(a + b)
  {
    var q := a + b;
    forall i, j | 0 <= i < j < |q| ensures q[i].key != q[j].key {
      if i < |a| <= j {
        assert a[i].key in KeySet(a) && b[j - |a|].key in KeySet(b);
      } else if j < |a| {
        assert a[i].key != a[j].key;
      } else {
        assert b[i - |a|].key != b[j - |a|].key;
      }
    }
  }

  lemma PartNoDup(a: seq<Item>, b: seq<Item>)
    requires NoDup(a + b)
    ensures NoDup(a) && NoDup(b) && KeySet(a) !! KeySet(b)
  {
    var q := a + b;
    assert forall i :: 0 <= i < |a| ==> q[i] == a[i];
    assert forall i :: 0 <= i < |b| ==> q[|a| + i] == b[i];
    forall k | k in KeySet(a) ensures k !in KeySet(b) {
      var i :| 0 <= i < |a| && a[i].key == k;
    }
    forall i, j | 0 <= i < j < |b| ensures b[i].key != b[j].key {
      assert q[|a| + i].key != q[|a| + j].key;
    }
  }

  /** A state is well formed exactly when the combined order names no key twice. */
  lemma WellFormedCombined(l: Lists)
    ensures WellFormed(l) <==> NoDup(Combined(l))
    ensures Tracked(l) == KeySet(Combined(l))
  {
    var q := Combined(l);
    assert q[..|l.prot|] == l.prot && q[|l.prot|..] == l.prob;
    SplitKeySet(q, |l.prot|);
    if WellFormed(l) {
      JoinNoDup(l.prot, l.prob);
    } else if NoDup(q) {
      PartNoDup(l.prot, l.prob);
    }
  }

  // ---- Demotion ----

  /** Demotion moves the split point of the combined order, and nothing else. */
  lemma {:induction false} DemoteMovesSplit(l: Lists, limit: nat)
    ensures Combined(Demote(l, limit)) == Combined(l)
    ensures |Demote(l, limit).prot| == if |l.prot| > limit then limit else |l.prot|
    decreases |l.prot|
  {
    if |l.prot| > limit {
      var m := DemoteOne(l);
      DemoteMovesSplit(m, limit);
      assert Combined(m) == Combined(l);
    }
  }

  lemma DemoteKeys(l: Lists, limit: nat)
    requires WellFormed(l)
    ensures WellFormed(Demote(l, limit)) && Tracked(Demote(l, limit)) == Tracked(l)
  {
    DemoteMovesSplit(l, limit);
    WellFormedCombined(l);
    WellFormedCombined(Demote(l, limit));
  }

  lemma PromoteKeys(l: Lists, k: StorageKey, cost: U32)
    requires WellFormed(l) && Has(l.prob, k)
    ensures WellFormed(Promote(l, k, cost)) && Tracked(Promote(l, k, cost)) == Tracked(l)
  {
    var i := Find(l.prob, k);
    assert k in KeySet(l.prob);
    WithoutKeys(l.prob, i);
    ConsKeys(l.prob[i].(cost := cost), l.prot);
  }

  lemma AccessKeys(c: Config, l: Lists, k: StorageKey, cost: U32)
    requires GoodConfig(c) && WellFormed(l)
    ensures WellFormed(Access(c, l, k, cost)) && Tracked(Access(c, l, k, cost)) == Tracked(l)
  {
    if Has(l.prot, k) {
      TouchKeys(l.prot, k, cost);
    } else if Has(l.prob, k) {
      if cost >= c.threshold {
        PromoteKeys(l, k, cost);
        var p := Promote(l, k, cost);
        DemoteKeys(p, MaxProtected(c, p));
      } else {
        TouchKeys(l.prob, k, cost);
      }
    }
  }

  lemma InsertKeys(l: Lists, k: StorageKey, cost: U32, chunk: U32)
    requires WellFormed(l)
    ensures WellFormed(Insert(l, k, cost, chunk)) && Tracked(Insert(l, k, cost, chunk)) == Tracked(l) + {k}
  {
    if Has(l.prot, k) {
      TouchKeys(l.prot, k, cost);
    } else if Has(l.prob, k) {
      TouchKeys(l.prob, k, cost);
    } else {
      ConsKeys(Item(k, cost, chunk), l.prob);
    }
  }

  lemma RemoveKeys(l: Lists, k: StorageKey)
    requires WellFormed(l)
    ensures WellFormed(Remove(l, k)) && Tracked(Remove(l, k)) == Tracked(l) - {k}
  {
    if Has(l.prot, k) {
      assert k in KeySet(l.prot);
      WithoutKeys(l.prot, Find(l.prot, k));
    } else if Has(l.prob, k) {
      WithoutKeys(l.prob, Find(l.prob, k));
    }
  }

  /** Eviction takes away one tracked key, and finds one whenever any key is tracked. */
  lemma EvictKeys(l: Lists)
    requires WellFormed(l)
    ensures var (m, victim) := Evict(l);
            && WellFormed(m)
            && (victim.None? <==> Tracked(l) == {})
            && (victim.None? ==> m == l)
            && (victim.Some? ==> victim.value in Tracked(l) && Tracked(m) == Tracked(l) - {victim.value})
  {
    if |l.prob| > 0 {
      var v := BestVictim(l.prob);
      assert l.prob[v].key in KeySet(l.prob);
      WithoutKeys(l.prob, v);
    } else if |l.prot| > 0 {
      var v := BestVictim(l.prot);
      assert l.prot[v].key in KeySet(l.prot);
      WithoutKeys(l.prot, v);
    }
  }

  /** The protected segment is untouched while a probationary entry is left. */
  lemma EvictSparesProtected(l: Lists)
    requires |l.prob| > 0
    ensures var (m, victim) := Evict(l);
            m.prot == l.prot && victim.Some? && Has(l.prob, victim.value)
            && exists v: nat :: IsVictim(l.prob, v) && l.prob[v].key == victim.value && m.prob == Without(l.prob, v)
  {
    VictimIsBest(l.prob);
  }

  // ---- A promoting access ----

  lemma FindInCombined(l: Lists, k: StorageKey)
    requires Has(l.prob, k) && !Has(l.prot, k)
    ensures Has(Combined(l), k) && Find(Combined(l), k) == |l.prot| + Find(l.prob, k)
  {
    var q := Combined(l);
    var i := |l.prot| + Find(l.prob, k);
    assert q[i].key == k;
    assert forall j :: 0 <= j < i ==> q[j] == if j < |l.prot| then l.prot[j] else l.prob[j - |l.prot|];
  }

  lemma TouchInCombined(l: Lists, k: StorageKey, cost: U32)
    requires Has(l.prot, k)
    ensures Has(Combined(l), k) && Touch(l.prot, k, cost) + l.prob == Touch(Combined(l), k, cost)
  {
    var q := Combined(l);
    var i := Find(l.prot, k);
    assert q[i].key == k;
    assert forall j :: 0 <= j < |l.prot| ==> q[j] == l.prot[j];
    assert Find(q, k) == i;
    assert Without(q, i) == Without(l.prot, i) + l.prob;
  }

  lemma DropFromSecond(a: seq<Item>, b: seq<Item>, i: nat)
    requires i < |b|
    ensures (a + b)[|a| + i] == b[i] && Without(a + b, |a| + i) == a + Without(b, i)
  {
  }

  lemma PromoteInCombined(l: Lists, k: StorageKey, cost: U32)
    requires Has(l.prob, k) && !Has(l.prot, k)
    ensures Has(Combined(l), k) && Combined(Promote(l, k, cost)) == Touch(Combined(l), k, cost)
  {
    FindInCombined(l, k);
    var i := Find(l.prob, k);
    var e, rest := l.prob[i].(cost := cost), Without(l.prob, i);
    DropFromSecond(l.prot, l.prob, i);
    ConsAssociates(e, l.prot, rest);
  }

  lemma ConsAssociates(e: Item, a: seq<Item>, b: seq<Item>)
    ensures ([e] + a) + b == [e] + (a + b)
  {
  }

  /** An access that promotes, or finds its key protected, is move-to-front on the combined
      order; whatever it demotes keeps its place. The protected segment ends within its bound. */
  lemma AccessIsMoveToFront(c: Config, l: Lists, k: StorageKey, cost: U32)
    requires GoodConfig(c) && (Has(l.prot, k) || (Has(l.prob, k) && cost >= c.threshold))
    ensures Has(Combined(l), k) && Combined(Access(c, l, k, cost)) == Touch(Combined(l), k, cost)
    ensures var m := Access(c, l, k, cost); !Has(l.prot, k) ==> |m.prot| <= MaxProtected(c, m)
  {
    if Has(l.prot, k) {
      TouchInCombined(l, k, cost);
    } else {
      PromoteInCombined(l, k, cost);
      var p := Promote(l, k, cost);
      var limit := MaxProtected(c, p);
      DemoteMovesSplit(p, limit);
      SameTotal(Demote(p, limit), p);
    }
  }

  lemma SameTotal(l: Lists, m: Lists)
    requires Combined(l) == Combined(m)
    ensures |l.prot| + |l.prob| == |m.prot| + |m.prob|
  {
    assert |Combined(l)| == |l.prot| + |l.prob|;
  }
  // ---- What each operation does, entry by entry ----

  lemma FoundAt(q: seq<Item>, k: StorageKey, i: nat)
    requires NoDup(q) && i < |q| && q[i].key == k
    ensures Has(q, k) && Find(q, k) == i
  {
    var f := Find(q, k);
    assert !(f < i) && !(i < f);
  }

  /** An entry of one segment is in no other. */
  lemma OnlyIn(l: Lists, k: StorageKey)
    requires WellFormed(l)
    ensures !(Has(l.prot, k) && Has(l.prob, k))
  {
    assert k in KeySet(l.prot) <==> Has(l.prot, k);
    assert k in KeySet(l.prob) <==> Has(l.prob, k);
  }

  /** The entry of a new key heads the probationary segment, with the cost and the chunk given,
      and every other entry stays where it is. */
  lemma InsertsNew(l: Lists, k: StorageKey, cost: U32, chunk: U32)
    requires k !in Tracked(l)
    ensures Insert(l, k, cost, chunk) == Lists(l.prot, [Item(k, cost, chunk)] + l.prob)
  {
    assert k !in KeySet(l.prot) && k !in KeySet(l.prob);
  }

  /** The entry of a protected key moves to the front of its segment, with the cost given and the
      chunk it had; whether it is inserted again or accessed is all the same. */
  lemma TouchesProtected(c: Config, l: Lists, i: nat, cost: U32, chunk: U32)
    requires GoodConfig(c) && WellFormed(l) && i < |l.prot|
    ensures var m := Lists([Item(l.prot[i].key, cost, l.prot[i].chunk)] + l.prot[..i] + l.prot[i + 1..], l.prob);
            Insert(l, l.prot[i].key, cost, chunk) == m && Access(c, l, l.prot[i].key, cost) == m
  {
    FoundAt(l.prot, l.prot[i].key, i);
  }

  /** So does that of a probationary key when it is inserted again, whatever the cost, or accessed
      at a cost below the threshold: it stays probationary. */
  lemma TouchesProbationary(c: Config, l: Lists, i: nat, cost: U32, chunk: U32)
    requires GoodConfig(c) && WellFormed(l) && i < |l.prob|
    ensures var m := Lists(l.prot, [Item(l.prob[i].key, cost, l.prob[i].chunk)] + l.prob[..i] + l.prob[i + 1..]);
            Insert(l, l.prob[i].key, cost, chunk) == m && (cost < c.threshold ==> Access(c, l, l.prob[i].key, cost) == m)
  {
    FoundAt(l.prob, l.prob[i].key, i);
    OnlyIn(l, l.prob[i].key);
  }

  lemma IgnoresUntracked(c: Config, l: Lists, k: StorageKey, cost: U32)
    requires GoodConfig(c) && k !in Tracked(l)
    ensures Access(c, l, k, cost) == l && Remove(l, k) == l
  {
    assert k !in KeySet(l.prot) && k !in KeySet(l.prob);
  }

  /** `b` is the share of `total` that the configuration allows, rounded down. */
  predicate IsShare(c: Config, total: nat, b: nat) {
    b * c.den <= total * c.num < (b + 1) * c.den
  }

  lemma ShareOf(x: nat, d: nat)
    requires d > 0
    ensures (x / d) * d <= x < (x / d + 1) * d
  {
    assert x == (x / d) * d + x % d;
    assert (x / d + 1) * d == (x / d) * d + d;
  }

  /** A probationary entry accessed at or above the threshold heads the protected segment; if that
      then exceeds its share of the configured maximum, or of the entries tracked if there is
      none, its coldest entries head the probationary segment, in their order; no other moves. */
  lemma Promotes(c: Config, l: Lists, i: nat, cost: U32) returns (b: nat)
    requires GoodConfig(c) && WellFormed(l) && i < |l.prob| && cost >= c.threshold
    ensures IsShare(c, if c.maxEntries > 0 then c.maxEntries else |l.prot| + |l.prob|, b)
    ensures var m := Access(c, l, l.prob[i].key, cost);
            && m.prot + m.prob == [Item(l.prob[i].key, cost, l.prob[i].chunk)] + l.prot + l.prob[..i] + l.prob[i + 1..]
            && |m.prot| == if |l.prot| + 1 > b then b else |l.prot| + 1
  {
    var k := l.prob[i].key;
    FoundAt(l.prob, k, i);
    OnlyIn(l, k);
    var p := Promote(l, k, cost);
    b := MaxProtected(c, p);
    ShareOf((if c.maxEntries > 0 then c.maxEntries else |l.prot| + |l.prob|) * c.num, c.den);
    DemoteMovesSplit(p, b);
    var e, rest := Item(k, cost, l.prob[i].chunk), l.prob[..i] + l.prob[i + 1..];
    assert p == Lists([e] + l.prot, rest);
    assert Combined(p) == [e] + l.prot + l.prob[..i] + l.prob[i + 1..];
  }

  /** A removal takes the key's entry out of whichever segment holds it. */
  lemma RemovesOne(l: Lists, i: nat)
    requires WellFormed(l)
    ensures i < |l.prot| ==> Remove(l, l.prot[i].key) == Lists(l.prot[..i] + l.prot[i + 1..], l.prob)
    ensures i < |l.prob| ==> Remove(l, l.prob[i].key) == Lists(l.prot, l.prob[..i] + l.prob[i + 1..])
  {
    if i < |l.prot| { FoundAt(l.prot, l.prot[i].key, i); }
    if i < |l.prob| {
      FoundAt(l.prob, l.prob[i].key, i);
      OnlyIn(l, l.prob[i].key);
    }
  }

  /** An eviction takes out the victim of the probationary segment, or of the protected one if the
      other is empty, and every other entry stays where it is. */
  lemma Evicts(l: Lists) returns (v: nat)
    requires Combined(l) != []
    ensures var q := if l.prob != [] then l.prob else l.prot;
            && IsVictim(q, v) && Evict(l).1 == Some(q[v].key)
            && Evict(l).0 == if l.prob != [] then Lists(l.prot, q[..v] + q[v + 1..]) else Lists(q[..v] + q[v + 1..], [])
  {
    var q := if l.prob != [] then l.prob else l.prot;
    v := BestVictim(q);
    VictimIsBest(q);
  }

  // ---- Whole runs ----

  datatype Op = OnAccess(key: StorageKey, cost: U32) | OnInsert(key: StorageKey, cost: U32, chunk: U32)
              | OnRemove(key: StorageKey) | OnEvict

  function Step(c: Config, l: Lists, op: Op): Lists
    requires GoodConfig(c)
  {
    match op
    case OnAccess(k, cost) => Access(c, l, k, cost)
    case OnInsert(k, cost, chunk) => Insert(l, k, cost, chunk)
    case OnRemove(k) => Remove(l, k)
    case OnEvict => Evict(l).0
  }

  function StepTracked(l: Lists, op: Op, tracked: set<StorageKey>): set<StorageKey> {
    match op
    case OnAccess(_, _) => tracked
    case OnInsert(k, _, _) => tracked + {k}
    case OnRemove(k) => tracked - {k}
    case OnEvict => if Evict(l).1.Some? then tracked - {Evict(l).1.value} else tracked
  }

  function Run(c: Config, l: Lists, ops: seq<Op>): Lists
    requires GoodConfig(c)
    decreases |ops|
  {
    if ops == [] then l else Run(c, Step(c, l, ops[0]), ops[1..])
  }

  function RunTracked(c: Config, l: Lists, ops: seq<Op>, tracked: set<StorageKey>): set<StorageKey>
    requires GoodConfig(c)
    decreases |ops|
  {
    if ops == [] then tracked
    else RunTracked(c, Step(c, l, ops[0]), ops[1..], StepTracked(l, ops[0], tracked))
  }

  lemma StepKeepsKeys(c: Config, l: Lists, op: Op)
    requires GoodConfig(c) && WellFormed(l)
    ensures WellFormed(Step(c, l, op)) && Tracked(Step(c, l, op)) == StepTracked(l, op, Tracked(l))
  {
    match op
    case OnAccess(k, cost) => AccessKeys(c, l, k, cost);
    case OnInsert(k, cost, chunk) => InsertKeys(l, k, cost, chunk);
    case OnRemove(k) => RemoveKeys(l, k);
    case OnEvict => EvictKeys(l);
  }

  /** After any run no key is listed twice, and the tracked keys are those inserted and since
      then neither removed nor evicted. */
  lemma {:induction false} RunKeepsKeys(c: Config, l: Lists, ops: seq<Op>)
    requires GoodConfig(c) && WellFormed(l)
    ensures WellFormed(Run(c, l, ops)) && Tracked(Run(c, l, ops)) == RunTracked(c, l, ops, Tracked(l))
    decreases |ops|
  {
    if ops != [] {
      StepKeepsKeys(c, l, ops[0]);
      RunKeepsKeys(c, Step(c, l, ops[0]), ops[1..]);
    }
  }

  // ---- Costs and chunks over a run ----

  predicate Listed(l: Lists, x: Item) {
    x in l.prot || x in l.prob
  }

  /** The operation gives the cost of `k`. */
  predicate Prices(op: Op, k: StorageKey) {
    match op
    case OnAccess(j, _) => j == k
    case OnInsert(j, _, _) => j == k
    case _ => false
  }

  function Price(op: Op): U32 {
    match op
    case OnAccess(_, cost) => cost
    case OnInsert(_, cost, _) => cost
    case _ => 0
  }

  /** Where the entry `x` comes from: it is new, or was there with the same chunk, and with the same
      cost unless the operation gives it one. */
  ghost predicate Stems(l: Lists, op: Op, x: Item) {
    if x.key !in Tracked(l) then op == OnInsert(x.key, x.cost, x.chunk)
    else exists y :: Listed(l, y) && y.key == x.key && y.chunk == x.chunk && x.cost == (if Prices(op, x.key) then Price(op) else y.cost)
  }

  lemma ListedIsTracked(l: Lists, x: Item)
    requires Listed(l, x)
    ensures x.key in Tracked(l)
  {
    if x in l.prot {
      var i :| 0 <= i < |l.prot| && l.prot[i] == x;
      assert Has(l.prot, x.key);
    } else {
      var i :| 0 <= i < |l.prob| && l.prob[i] == x;
      assert Has(l.prob, x.key);
    }
  }

  lemma StaysStems(l: Lists, op: Op, x: Item)
    requires Listed(l, x) && (Prices(op, x.key) ==> Price(op) == x.cost)
    ensures Stems(l, op, x)
  {
    ListedIsTracked(l, x);
  }

  lemma TouchedStems(l: Lists, op: Op, y: Item)
    requires Listed(l, y) && Prices(op, y.key)
    ensures Stems(l, op, Item(y.key, Price(op), y.chunk))
  {
    ListedIsTracked(l, y);
    var x := Item(y.key, Price(op), y.chunk);
    assert Listed(l, y) && y.key == x.key && y.chunk == x.chunk && x.cost == Price(op);
  }

  /** Two entries of one key are one entry. */
  lemma OneEntry(l: Lists, x: Item, y: Item)
    requires WellFormed(l) && Listed(l, x) && Listed(l, y) && x.key == y.key
    ensures x == y
  {
    WellFormedCombined(l);
    var q := Combined(l);
    assert x in q && y in q;
    var i :| 0 <= i < |q| && q[i] == x;
    var j :| 0 <= j < |q| && q[j] == y;
    assert i == j;
  }

  /** What is listed after the entry at hand has moved to the front of its segment. */
  lemma MovedStems(l: Lists, m: Lists, op: Op, y: Item, x: Item)
    requires WellFormed(l) && WellFormed(m) && Listed(l, y) && Prices(op, y.key) && Listed(m, x) && Listed(m, Item(y.key, Price(op), y.chunk))
    requires x == Item(y.key, Price(op), y.chunk) || Listed(l, x)
    ensures Stems(l, op, x)
  {
    if x.key == y.key {
      OneEntry(m, x, Item(y.key, Price(op), y.chunk));
      TouchedStems(l, op, y);
    } else {
      assert !Prices(op, x.key);
      StaysStems(l, op, x);
    }
  }

  lemma WhereListed(l: Lists, k: StorageKey) returns (inProt: bool, i: nat)
    requires k in Tracked(l)
    ensures if inProt then i < |l.prot| && l.prot[i].key == k else i < |l.prob| && l.prob[i].key == k
  {
    inProt := k in KeySet(l.prot);
    if inProt {
      assert Has(l.prot, k);
      i :| 0 <= i < |l.prot| && l.prot[i].key == k;
    } else {
      assert Has(l.prob, k);
      i :| 0 <= i < |l.prob| && l.prob[i].key == k;
    }
  }

  lemma ProtectedStems(c: Config, l: Lists, op: Op, i: nat, x: Item)
    requires GoodConfig(c) && WellFormed(l) && i < |l.prot| && Prices(op, l.prot[i].key) && Listed(Step(c, l, op), x)
    ensures Stems(l, op, x)
  {
    StepKeepsKeys(c, l, op);
    var e := Item(l.prot[i].key, Price(op), l.prot[i].chunk);
    TouchesProtected(c, l, i, Price(op), if op.OnInsert? then op.chunk else 0);
    var m := Step(c, l, op);
    assert m.prot == [e] + l.prot[..i] + l.prot[i + 1..] && m.prob == l.prob && m.prot[0] == e;
    MovedStems(l, m, op, l.prot[i], x);
  }

  lemma ProbationaryStems(c: Config, l: Lists, op: Op, i: nat, x: Item)
    requires GoodConfig(c) && WellFormed(l) && i < |l.prob| && Prices(op, l.prob[i].key) && Listed(Step(c, l, op), x)
    requires op.OnInsert? || Price(op) < c.threshold
    ensures Stems(l, op, x)
  {
    StepKeepsKeys(c, l, op);
    var e := Item(l.prob[i].key, Price(op), l.prob[i].chunk);
    TouchesProbationary(c, l, i, Price(op), if op.OnInsert? then op.chunk else 0);
    var m := Step(c, l, op);
    assert m.prob == [e] + l.prob[..i] + l.prob[i + 1..] && m.prot == l.prot && m.prob[0] == e;
    MovedStems(l, m, op, l.prob[i], x);
  }

  lemma PromotedStems(c: Config, l: Lists, op: Op, i: nat, x: Item)
    requires GoodConfig(c) && WellFormed(l) && i < |l.prob| && Prices(op, l.prob[i].key) && Listed(Step(c, l, op), x)
    requires op.OnAccess? && Price(op) >= c.threshold
    ensures Stems(l, op, x)
  {
    StepKeepsKeys(c, l, op);
    var e := Item(l.prob[i].key, Price(op), l.prob[i].chunk);
    var b := Promotes(c, l, i, Price(op));
    var m := Step(c, l, op);
    var q := [e] + l.prot + l.prob[..i] + l.prob[i + 1..];
    assert m.prot + m.prob == q && q[0] == e;
    assert e in m.prot + m.prob && x in m.prot + m.prob;
    MovedStems(l, m, op, l.prob[i], x);
  }

  lemma PricedStems(c: Config, l: Lists, op: Op, k: StorageKey, x: Item)
    requires GoodConfig(c) && WellFormed(l) && Prices(op, k) && k in Tracked(l) && Listed(Step(c, l, op), x)
    ensures Stems(l, op, x)
  {
    var inProt, i := WhereListed(l, k);
    if inProt {
      ProtectedStems(c, l, op, i, x);
    } else if op.OnInsert? || Price(op) < c.threshold {
      ProbationaryStems(c, l, op, i, x);
    } else {
      PromotedStems(c, l, op, i, x);
    }
  }

  lemma {:induction false} StepStems(c: Config, l: Lists, op: Op, x: Item)
    requires GoodConfig(c) && WellFormed(l) && Listed(Step(c, l, op), x)
    ensures Stems(l, op, x)
  {
    match op
    case OnAccess(k, cost) =>
      if k in Tracked(l) { PricedStems(c, l, op, k, x); } else { IgnoresUntracked(c, l, k, cost); ListedIsTracked(l, x); StaysStems(l, op, x); }
    case OnInsert(k, cost, chunk) =>
      if k in Tracked(l) {
        PricedStems(c, l, op, k, x);
      } else {
        InsertsNew(l, k, cost, chunk);
        if Listed(l, x) { ListedIsTracked(l, x); StaysStems(l, op, x); }
      }
    case OnRemove(k) => StaysStems(l, op, x);
    case OnEvict => StaysStems(l, op, x);
  }

  lemma {:induction false} RunSnoc(c: Config, l: Lists, ops: seq<Op>, n: nat)
    requires GoodConfig(c) && n < |ops|
    ensures Run(c, l, ops[..n + 1]) == Step(c, Run(c, l, ops[..n]), ops[n])
    decreases n
  {
    if n == 0 {
      assert ops[..1][1..] == [] && ops[..1][0] == ops[0];
    } else {
      var rest := ops[1..];
      RunSnoc(c, Step(c, l, ops[0]), rest, n - 1);
      assert ops[..n + 1][1..] == rest[..n] && ops[..n][1..] == rest[..n - 1];
    }
  }

  /** The insert at `i` brought the key in, and it has been tracked until `n`. */
  predicate BroughtIn(c: Config, l: Lists, ops: seq<Op>, i: nat, n: nat, k: StorageKey, chunk: U32)
    requires GoodConfig(c)
  {
    && i < n <= |ops| && ops[i].OnInsert? && ops[i].key == k && ops[i].chunk == chunk && k !in Tracked(Run(c, l, ops[..i]))
    && forall j :: i < j <= n ==> k in Tracked(Run(c, l, ops[..j]))
  }

  /** The last operation before `n` to give the key a cost is that at `i`. */
  predicate LastPriced(ops: seq<Op>, i: nat, n: nat, k: StorageKey, cost: U32) {
    i < n <= |ops| && Prices(ops[i], k) && Price(ops[i]) == cost && forall j :: i < j < n ==> !Prices(ops[j], k)
  }

  lemma BroughtInMore(c: Config, l: Lists, ops: seq<Op>, i: nat, n: nat, k: StorageKey, chunk: U32)
    requires GoodConfig(c) && BroughtIn(c, l, ops, i, n, k, chunk) && n < |ops| && k in Tracked(Run(c, l, ops[..n + 1]))
    ensures BroughtIn(c, l, ops, i, n + 1, k, chunk)
  {
  }

  lemma BroughtInNow(c: Config, l: Lists, ops: seq<Op>, n: nat, k: StorageKey, cost: U32, chunk: U32)
    requires GoodConfig(c) && n < |ops| && ops[n] == OnInsert(k, cost, chunk)
    requires k !in Tracked(Run(c, l, ops[..n])) && k in Tracked(Run(c, l, ops[..n + 1]))
    ensures BroughtIn(c, l, ops, n, n + 1, k, chunk)
  {
  }

  /** The last step of a run: it has brought the entry in, or the entry stems from one before it. */
  lemma LastStep(c: Config, l: Lists, ops: seq<Op>, n: nat, x: Item) returns (y: Item)
    requires GoodConfig(c) && WellFormed(l) && n < |ops| && Listed(Run(c, l, ops[..n + 1]), x)
    ensures x.key in Tracked(Run(c, l, ops[..n + 1]))
    ensures if x.key !in Tracked(Run(c, l, ops[..n])) then ops[n] == OnInsert(x.key, x.cost, x.chunk)
            else Listed(Run(c, l, ops[..n]), y) && y.key == x.key && y.chunk == x.chunk
                 && x.cost == (if Prices(ops[n], x.key) then Price(ops[n]) else y.cost)
  {
    RunKeepsKeys(c, l, ops[..n]);
    RunSnoc(c, l, ops, n);
    ListedIsTracked(Run(c, l, ops[..n + 1]), x);
    StepStems(c, Run(c, l, ops[..n]), ops[n], x);
    y := x;
    if x.key in Tracked(Run(c, l, ops[..n])) {
      y := StemOf(Run(c, l, ops[..n]), ops[n], x);
    }
  }

  lemma StemOf(l: Lists, op: Op, x: Item) returns (y: Item)
    requires Stems(l, op, x) && x.key in Tracked(l)
    ensures Listed(l, y) && y.key == x.key && y.chunk == x.chunk && x.cost == (if Prices(op, x.key) then Price(op) else y.cost)
  {
    y :| Listed(l, y) && y.key == x.key && y.chunk == x.chunk && x.cost == (if Prices(op, x.key) then Price(op) else y.cost);
  }

  /** Over any run from an empty policy: an entry carries the chunk of the insert that brought its
      key in, since when the key has been tracked, and the cost of the last insert or access of its
      key. */
  lemma {:induction false} RunEntries(c: Config, l: Lists, ops: seq<Op>, n: nat, x: Item) returns (i: nat, j: nat)
    requires GoodConfig(c) && l == Lists([], []) && n <= |ops| && Listed(Run(c, l, ops[..n]), x)
    ensures BroughtIn(c, l, ops, i, n, x.key, x.chunk) && LastPriced(ops, j, n, x.key, x.cost)
    decreases n
  {
    if n == 0 {
      assert false;
    } else {
      var m := n - 1;
      var y := LastStep(c, l, ops, m, x);
      if x.key !in Tracked(Run(c, l, ops[..m])) {
        BroughtInNow(c, l, ops, m, x.key, x.cost, x.chunk);
        i, j := m, m;
      } else {
        i, j := RunEntries(c, l, ops, m, y);
        BroughtInMore(c, l, ops, i, m, x.key, x.chunk);
        if Prices(ops[m], x.key) { j := m; }
      }
    }
  }
}
