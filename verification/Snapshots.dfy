/** Snapshots of a map as sequences of pairs: sorting them by key, and loading them back. */
module Snapshots {
  datatype Pair<K, V> = Pair(key: K, value: V)

  // ---- The order of keys, as a parameter ----

  predicate OrderAt<K(==)>(less: (K, K) -> bool, a: K, b: K) {
    && (less(a, b) || less(b, a) || a == b)
    && !(less(a, b) && less(b, a)) && !less(a, a)
  }

  predicate ChainAt<K>(less: (K, K) -> bool, a: K, b: K, c: K) {
    less(a, b) && less(b, c) ==> less(a, c)
  }

  ghost predicate TotalOrder<K(!new)>(less: (K, K) -> bool) {
    (forall a, b :: OrderAt(less, a, b)) && (forall a, b, c :: ChainAt(less, a, b, c))
  }

  // ---- Sorting ----

  function InsertPair<K, V>(less: (K, K) -> bool, e: Pair<K, V>, q: seq<Pair<K, V>>): (r: seq<Pair<K, V>>)
    ensures |r| == |q| + 1
  {
    if q == [] then [e]
    else if less(e.key, q[0].key) then [e] + q
    else [q[0]] + InsertPair(less, e, q[1..])
  }

  function SortPairs<K, V>(less: (K, K) -> bool, q: seq<Pair<K, V>>): (r: seq<Pair<K, V>>)
    ensures |r| == |q|
  {
    if q == [] then [] else InsertPair(less, q[0], SortPairs(less, q[1..]))
  }

  predicate Before<K, V>(less: (K, K) -> bool, q: seq<Pair<K, V>>, i: nat, j: nat) {
    i < |q| && j < |q| && less(q[i].key, q[j].key)
  }

  predicate InOrder<K, V>(less: (K, K) -> bool, q: seq<Pair<K, V>>) {
    forall i: nat, j: nat :: i < j < |q| ==> Before(less, q, i, j)
  }

  predicate Differ<K(==), V>(q: seq<Pair<K, V>>, i: nat, j: nat) {
    i < |q| && j < |q| && q[i].key != q[j].key
  }

  predicate KeysOnce<K(==), V>(q: seq<Pair<K, V>>) {
    forall i: nat, j: nat :: i < j < |q| ==> Differ(q, i, j)
  }

  lemma {:induction false} InsertKeeps<K, V>(less: (K, K) -> bool, e: Pair<K, V>, q: seq<Pair<K, V>>)
    ensures multiset(InsertPair(less, e, q)) == multiset{e} + multiset(q)
  {
    if q != [] && !less(e.key, q[0].key) {
      InsertKeeps(less, e, q[1..]);
      assert q == [q[0]] + q[1..];
    }
  }

  lemma {:induction false} SortKeeps<K, V>(less: (K, K) -> bool, q: seq<Pair<K, V>>)
    ensures multiset(SortPairs(less, q)) == multiset(q)
  {
    if q != [] {
      SortKeeps(less, q[1..]);
      InsertKeeps(less, q[0], SortPairs(less, q[1..]));
      assert q == [q[0]] + q[1..];
    }
  }

  lemma InsertMember<K, V>(less: (K, K) -> bool, e: Pair<K, V>, q: seq<Pair<K, V>>, i: nat)
    requires i <= |q|
    ensures InsertPair(less, e, q)[i] == e || InsertPair(less, e, q)[i] in q
  {
    InsertKeeps(less, e, q);
    assert InsertPair(less, e, q)[i] in multiset(InsertPair(less, e, q));
  }

  lemma ConsInOrder<K, V>(less: (K, K) -> bool, e: Pair<K, V>, q: seq<Pair<K, V>>)
    requires InOrder(less, q) && forall i :: 0 <= i < |q| ==> less(e.key, q[i].key)
    ensures InOrder(less, [e] + q)
  {
    var r := [e] + q;
    forall i: nat, j: nat | i < j < |r| ensures Before(less, r, i, j) {
      if i > 0 { assert Before(less, q, i - 1, j - 1); }
    }
  }

  lemma TailInOrder<K, V>(less: (K, K) -> bool, q: seq<Pair<K, V>>)
    requires InOrder(less, q) && |q| > 0
    ensures InOrder(less, q[1..]) && forall i :: 0 < i < |q| ==> less(q[0].key, q[i].key)
  {
    var r := q[1..];
    forall i: nat, j: nat | i < j < |r| ensures Before(less, r, i, j) {
      assert Before(less, q, i + 1, j + 1);
    }
    forall i | 0 < i < |q| ensures less(q[0].key, q[i].key) {
      assert Before(less, q, 0, i);
    }
  }

  lemma {:induction false} InsertOrders<K(!new), V>(less: (K, K) -> bool, e: Pair<K, V>, q: seq<Pair<K, V>>)
    requires TotalOrder(less) && InOrder(less, q) && forall i :: 0 <= i < |q| ==> q[i].key != e.key
    ensures InOrder(less, InsertPair(less, e, q))
  {
    if q == [] {
      ConsInOrder(less, e, q);
    } else {
      TailInOrder(less, q);
      assert OrderAt(less, e.key, q[0].key);
      if less(e.key, q[0].key) {
        forall i | 0 <= i < |q| ensures less(e.key, q[i].key) {
          assert ChainAt(less, e.key, q[0].key, q[i].key);
        }
        ConsInOrder(less, e, q);
      } else {
        var t := InsertPair(less, e, q[1..]);
        InsertOrders(less, e, q[1..]);
        forall i | 0 <= i < |t| ensures less(q[0].key, t[i].key) {
          InsertMember(less, e, q[1..], i);
        }
        ConsInOrder(less, q[0], t);
      }
    }
  }

  lemma TailOnce<K, V>(q: seq<Pair<K, V>>)
    requires KeysOnce(q) && |q| > 0
    ensures KeysOnce(q[1..]) && forall x :: x in q[1..] ==> x.key != q[0].key
  {
    var r := q[1..];
    forall i: nat, j: nat | i < j < |r| ensures Differ(r, i, j) {
      assert Differ(q, i + 1, j + 1);
    }
    forall i | 0 < i < |q| ensures q[i].key != q[0].key {
      assert Differ(q, 0, i);
    }
  }

  /** Sorting keeps the pairs and puts their keys in strictly ascending order. */
  lemma {:induction false} Sorts<K(!new), V>(less: (K, K) -> bool, q: seq<Pair<K, V>>)
    requires TotalOrder(less) && KeysOnce(q)
    ensures InOrder(less, SortPairs(less, q)) && multiset(SortPairs(less, q)) == multiset(q)
  {
    SortKeeps(less, q);
    if q != [] {
      TailOnce(q);
      Sorts(less, q[1..]);
      var t := SortPairs(less, q[1..]);
      forall i | 0 <= i < |t| ensures t[i].key != q[0].key {
        assert t[i] in multiset(t);
        assert t[i] in q[1..];
      }
      InsertOrders(less, q[0], t);
    }
  }

  lemma FirstIsLeast<K(!new), V>(less: (K, K) -> bool, a: seq<Pair<K, V>>, x: Pair<K, V>)
    requires TotalOrder(less) && InOrder(less, a) && x in a
    ensures x == a[0] || less(a[0].key, x.key)
  {
    TailInOrder(less, a);
  }

  lemma SameFirst<K(!new), V>(less: (K, K) -> bool, a: seq<Pair<K, V>>, b: seq<Pair<K, V>>)
    requires TotalOrder(less) && InOrder(less, a) && InOrder(less, b) && multiset(a) == multiset(b) && |a| > 0
    ensures |b| > 0 && a[0] == b[0]
  {
    assert a[0] in multiset(b) && |multiset(a)| == |a| && |multiset(b)| == |b|;
    assert b[0] in multiset(a);
    FirstIsLeast(less, a, b[0]);
    FirstIsLeast(less, b, a[0]);
    assert OrderAt(less, a[0].key, b[0].key);
  }

  /** Only one order of the same pairs is strictly ascending. */
  lemma {:induction false} OrderIsUnique<K(!new), V>(less: (K, K) -> bool, a: seq<Pair<K, V>>, b: seq<Pair<K, V>>)
    requires TotalOrder(less) && InOrder(less, a) && InOrder(less, b) && multiset(a) == multiset(b)
    ensures a == b
  {
    if a == [] {
      assert |multiset(b)| == |b|;
    } else {
      SameFirst(less, a, b);
      TailInOrder(less, a);
      TailInOrder(less, b);
      assert a == [a[0]] + a[1..] && b == [b[0]] + b[1..];
      assert multiset(a[1..]) == multiset(a) - multiset{a[0]} == multiset(b[1..]);
      OrderIsUnique(less, a[1..], b[1..]);
    }
  }

  // ---- Snapshots ----

  /** The pairs of the map, each once, in whatever order the hash table yields them. */
  predicate IsSnapshot<K(==), V(==)>(es: seq<Pair<K, V>>, m: map<K, V>) {
    && KeysOnce(es) && |es| == |m|
    && forall i :: 0 <= i < |es| ==> es[i].key in m && m[es[i].key] == es[i].value
  }

  /** Inserts the pairs whose keys are not there yet. */
  function BulkLoad<K, V>(m: map<K, V>, es: seq<Pair<K, V>>): map<K, V>
    decreases |es|
  {
    if es == [] then m
    else
      var prior := BulkLoad(m, es[..|es| - 1]);
      var last := es[|es| - 1];
      if last.key in prior then prior else prior[last.key := last.value]
  }

  lemma {:induction false} LoadedSize<K, V>(es: seq<Pair<K, V>>)
    ensures |BulkLoad(map[], es)| <= |es|
  {
    if es != [] {
      LoadedSize(es[..|es| - 1]);
    }
  }

  predicate Listed<K(==), V>(es: seq<Pair<K, V>>, k: K) {
    exists i :: 0 <= i < |es| && es[i].key == k
  }

  lemma FrontOnce<K, V>(q: seq<Pair<K, V>>)
    requires KeysOnce(q) && |q| > 0
    ensures var n := |q| - 1; KeysOnce(q[..n]) && !Listed(q[..n], q[n].key)
  {
    var n := |q| - 1;
    var r := q[..n];
    forall i: nat, j: nat | i < j < |r| ensures Differ(r, i, j) {
      assert Differ(q, i, j);
    }
    forall i | 0 <= i < n ensures r[i].key != q[n].key {
      assert Differ(q, i, n);
    }
  }

  lemma {:induction false} LoadedKeys<K, V>(es: seq<Pair<K, V>>, k: K)
    ensures k in BulkLoad(map[], es) <==> Listed(es, k)
    decreases |es|
  {
    if es != [] {
      var n := |es| - 1;
      LoadedKeys(es[..n], k);
      if Listed(es, k) {
        var i :| 0 <= i < |es| && es[i].key == k;
        if i < n { assert es[..n][i].key == k; }
      }
      if Listed(es[..n], k) {
        var i :| 0 <= i < n && es[..n][i].key == k;
        assert es[i].key == k;
      }
    }
  }

  lemma {:induction false} LoadedValues<K, V>(es: seq<Pair<K, V>>)
    requires KeysOnce(es)
    ensures forall i :: 0 <= i < |es| ==> es[i].key in BulkLoad(map[], es) && BulkLoad(map[], es)[es[i].key] == es[i].value
    ensures |BulkLoad(map[], es)| == |es|
    decreases |es|
  {
    if es != [] {
      var n := |es| - 1;
      FrontOnce(es);
      LoadedValues(es[..n]);
      var prior := BulkLoad(map[], es[..n]);
      LoadedKeys(es[..n], es[n].key);
      forall i | 0 <= i < n ensures es[i].key in prior && prior[es[i].key] == es[i].value && es[i].key != es[n].key {
        assert es[..n][i] == es[i] && Differ(es, i, n);
      }
    }
  }

  /** Loading a snapshot into an empty map restores the map. */
  lemma SnapshotRestores<K, V>(es: seq<Pair<K, V>>, m: map<K, V>)
    requires IsSnapshot(es, m)
    ensures BulkLoad(map[], es) == m
  {
    LoadedValues(es);
    var r := BulkLoad(map[], es);
    forall k | k in r ensures k in m && r[k] == m[k] {
      LoadedKeys(es, k);
      var i :| 0 <= i < |es| && es[i].key == k;
    }
    SubsetSameSize(r.Keys, m.Keys);
  }

  lemma SubsetSameSize<T>(a: set<T>, b: set<T>)
    requires a <= b && |a| == |b|
    ensures a == b
  {
    if x :| x in b && x !in a {
      assert a <= b - {x};
      SubsetSize(a, b - {x});
    }
  }

  lemma {:induction false} SubsetSize<T>(a: set<T>, b: set<T>)
    requires a <= b
    ensures |a| <= |b|
  {
    if x :| x in a {
      SubsetSize(a - {x}, b - {x});
    }
  }

  lemma OrderedOnce<K(!new), V>(less: (K, K) -> bool, q: seq<Pair<K, V>>)
    requires TotalOrder(less) && InOrder(less, q)
    ensures KeysOnce(q)
  {
    forall i: nat, j: nat | i < j < |q| ensures Differ(q, i, j) {
      assert Before(less, q, i, j) && OrderAt(less, q[i].key, q[j].key);
    }
  }

  /** A sorted snapshot is a snapshot of the same map. */
  lemma SortedSnapshot<K(!new), V>(less: (K, K) -> bool, es: seq<Pair<K, V>>, m: map<K, V>)
    requires TotalOrder(less) && IsSnapshot(es, m)
    ensures IsSnapshot(SortPairs(less, es), m)
  {
    Sorts(less, es);
    var fs := SortPairs(less, es);
    OrderedOnce(less, fs);
    forall i | 0 <= i < |fs| ensures fs[i].key in m && m[fs[i].key] == fs[i].value {
      assert fs[i] in multiset(fs);
      assert fs[i] in es;
    }
  }

  /** A snapshot lists a pair once if the map holds it, and not at all otherwise. */
  lemma CountOnce<K, V>(es: seq<Pair<K, V>>, m: map<K, V>, x: Pair<K, V>)
    requires IsSnapshot(es, m)
    ensures multiset(es)[x] == if x.key in m && m[x.key] == x.value then 1 else 0
  {
    if x.key in m && m[x.key] == x.value {
      SnapshotRestores(es, m);
      LoadedKeys(es, x.key);
      var i :| 0 <= i < |es| && es[i].key == x.key;
      RestDiffers(es, i);
      assert es == es[..i] + [x] + es[i + 1..];
      assert multiset(es) == multiset(es[..i]) + multiset{x} + multiset(es[i + 1..]);
    } else {
      assert x !in es;
    }
  }

  lemma RestDiffers<K, V>(es: seq<Pair<K, V>>, i: nat)
    requires KeysOnce(es) && i < |es|
    ensures es[i] !in es[..i] && es[i] !in es[i + 1..]
  {
    forall j | 0 <= j < |es| && j != i ensures es[j].key != es[i].key {
      assert j < i ==> Differ(es, j, i);
      assert i < j ==> Differ(es, i, j);
    }
  }

  /** What a sorted snapshot lists depends on the map alone, not on the order of the hash table. */
  lemma SortedIsCanonical<K(!new), V>(less: (K, K) -> bool, es: seq<Pair<K, V>>, fs: seq<Pair<K, V>>, m: map<K, V>)
    requires TotalOrder(less) && IsSnapshot(es, m) && IsSnapshot(fs, m)
    ensures SortPairs(less, es) == SortPairs(less, fs)
  {
    forall x ensures multiset(es)[x] == multiset(fs)[x] {
      CountOnce(es, m, x);
      CountOnce(fs, m, x);
    }
    Sorts(less, es);
    Sorts(less, fs);
    OrderIsUnique(less, SortPairs(less, es), SortPairs(less, fs));
  }

  // ---- Fixed-size records, one after another ----

  /** The records of the sequence, encoded one behind the other. */
  function Records<T, B>(encode: T -> seq<B>, es: seq<T>): seq<B> {
    if es == [] then [] else Records(encode, es[..|es| - 1]) + encode(es[|es| - 1])
  }

  /** The records found in a buffer, decoded one by one. */
  function Decoded<T, B>(decode: seq<B> -> T, s: seq<B>, size: nat, n: nat): (r: seq<T>)
    requires n * size <= |s|
    ensures |r| == n
    decreases n
  {
    if n == 0 then []
    else
      PieceFits(n - 1, size);
      Decoded(decode, s, size, n - 1) + [decode(s[(n - 1) * size..(n - 1) * size + size])]
  }

  lemma PieceFits(n: nat, size: nat)
    ensures n * size >= 0 && n * size + size == (n + 1) * size
  {
  }

  ghost predicate SizeAt<T, B>(encode: T -> seq<B>, size: nat, e: T) {
    |encode(e)| == size
  }

  predicate InverseAt<T(==), B>(encode: T -> seq<B>, decode: seq<B> -> T, e: T) {
    decode(encode(e)) == e
  }

  lemma {:induction false} RecordsSize<T, B>(encode: T -> seq<B>, size: nat, es: seq<T>)
    requires forall i :: 0 <= i < |es| ==> SizeAt(encode, size, es[i])
    ensures |Records(encode, es)| == |es| * size
  {
    if es != [] {
      var n := |es| - 1;
      RecordsSize(encode, size, es[..n]);
      assert SizeAt(encode, size, es[n]);
      PieceFits(n, size);
    }
  }

  /** Decoding the records of a sequence gives back the sequence, whatever follows them. */
  lemma {:induction false} RecordsRoundTrip<T, B>(encode: T -> seq<B>, decode: seq<B> -> T, size: nat, es: seq<T>, rest: seq<B>)
    requires forall i :: 0 <= i < |es| ==> SizeAt(encode, size, es[i]) && InverseAt(encode, decode, es[i])
    ensures |es| * size <= |Records(encode, es) + rest|
    ensures Decoded(decode, Records(encode, es) + rest, size, |es|) == es
    decreases |es|
  {
    RecordsSize(encode, size, es);
    if es != [] {
      var n := |es| - 1;
      var front, last := Records(encode, es[..n]), encode(es[n]);
      RecordsSize(encode, size, es[..n]);
      RecordsRoundTrip(encode, decode, size, es[..n], last + rest);
      assert SizeAt(encode, size, es[n]) && InverseAt(encode, decode, es[n]);
      PieceFits(n, size);
      assert (front + last) + rest == front + (last + rest);
      assert (front + (last + rest))[n * size..n * size + size] == last;
    }
  }

  // ---- The loops over entries and records ----

  /** Writes the records one by one; the stream takes `limit` of them and fails on the next. */
  method WriteRecords<T, B>(encode: T -> seq<B>, es: seq<T>, limit: nat) returns (ok: bool, body: seq<B>)
    ensures ok == (|es| <= limit)
    ensures body == Records(encode, if ok then es else es[..limit])
  {
    body := [];
    for i := 0 to |es|
      invariant i <= limit && body == Records(encode, es[..i])
    {
      if i == limit {
        return false, body;
      }
      assert es[..i + 1][..i] == es[..i];
      body := body + encode(es[i]);
    }
    assert es[..|es|] == es;
    return true, body;
  }

  /** Reads the records one by one, and collects the bytes they were read from. */
  method ReadRecords<T, B>(decode: seq<B> -> T, s: seq<B>, size: nat, n: nat) returns (es: seq<T>, seen: seq<B>)
    requires n * size <= |s|
    ensures es == Decoded(decode, s, size, n) && seen == s[..n * size]
  {
    es, seen := [], [];
    for i := 0 to n
      invariant 0 <= i * size <= |s| && es == Decoded(decode, s, size, i) && seen == s[..i * size]
    {
      PieceFits(i, size);
      MulMonotone(i + 1, n, size);
      var record := s[i * size..i * size + size];
      assert s[..(i + 1) * size] == s[..i * size] + record;
      es := es + [decode(record)];
      seen := seen + record;
    }
  }

  lemma MulMonotone(a: nat, b: nat, size: nat)
    requires a <= b
    ensures a * size <= b * size
  {
  }

  /** Inserts every pair whose key is not there yet. */
  method InsertAll<K(==), V>(m: map<K, V>, es: seq<Pair<K, V>>) returns (r: map<K, V>)
    ensures r == BulkLoad(m, es)
  {
    r := m;
    for i := 0 to |es|
      invariant r == BulkLoad(m, es[..i])
    {
      assert es[..i + 1][..i] == es[..i];
      if es[i].key !in r {
        r := r[es[i].key := es[i].value];
      }
    }
    assert es[..|es|] == es;
  }
}
