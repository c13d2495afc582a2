module ShiftRegister {
  /** Feed a message of bits, first bit first: add the bit, then step. */
  function Feed<S>(f: S -> S, add: (S, S) -> S, bit: bool -> S, s: S, bits: seq<bool>): S
    decreases |bits|
  {
    if bits == [] then s else Feed(f, add, bit, f(add(s, bit(bits[0]))), bits[1..])
  }

  function Times<S>(f: S -> S, s: S, k: nat): S
    decreases k
  {
    if k == 0 then s else Times(f, f(s), k - 1)
  }

  function XorBits(a: seq<bool>, b: seq<bool>): (r: seq<bool>)
    requires |a| == |b|
    ensures |r| == |a| && forall i :: 0 <= i < |a| ==> r[i] == (a[i] != b[i])
  {
    seq(|a|, i requires 0 <= i < |a| => a[i] != b[i])
  }

  predicate LinearAt<S(==)>(f: S -> S, add: (S, S) -> S, x: S, y: S) {
    f(add(x, y)) == add(f(x), f(y))
  }

  ghost predicate Linear<S(!new)>(f: S -> S, add: (S, S) -> S) {
    forall x, y :: LinearAt(f, add, x, y)
  }

  predicate MedialAt<S(==)>(add: (S, S) -> S, x: S, y: S, u: S, v: S) {
    add(add(x, u), add(y, v)) == add(add(x, y), add(u, v))
  }

  ghost predicate Medial<S(!new)>(add: (S, S) -> S) {
    forall x, y, u, v :: MedialAt(add, x, y, u, v)
  }

  lemma MedialFrom<S>(add: (S, S) -> S, x: S, y: S, u: S, v: S)
    requires add(add(x, u), add(y, v)) == add(x, add(u, add(y, v)))
    requires add(u, add(y, v)) == add(add(u, y), v) && add(u, y) == add(y, u)
    requires add(y, add(u, v)) == add(add(y, u), v)
    requires add(x, add(y, add(u, v))) == add(add(x, y), add(u, v))
    ensures MedialAt(add, x, y, u, v)
  {
  }

  /** A step that halves and then adds a feedback depending on the lost bit is linear. */
  lemma LinearFrom<S>(f: S -> S, add: (S, S) -> S, half: S -> S, low: S -> bool, feedback: bool -> S, x: S, y: S)
    requires f(x) == add(half(x), feedback(low(x))) && f(y) == add(half(y), feedback(low(y)))
    requires f(add(x, y)) == add(half(add(x, y)), feedback(low(add(x, y))))
    requires half(add(x, y)) == add(half(x), half(y)) && low(add(x, y)) == (low(x) != low(y))
    requires feedback(low(x) != low(y)) == add(feedback(low(x)), feedback(low(y)))
    requires MedialAt(add, half(x), half(y), feedback(low(x)), feedback(low(y)))
    ensures LinearAt(f, add, x, y)
  {
  }

  predicate BitLinearAt<S(==)>(add: (S, S) -> S, bit: bool -> S, c: bool, d: bool) {
    add(bit(c), bit(d)) == bit(c != d)
  }

  ghost predicate BitLinear<S(!new)>(add: (S, S) -> S, bit: bool -> S) {
    forall c, d :: BitLinearAt(add, bit, c, d)
  }

  ghost predicate Injective<S(!new)>(f: S -> S) {
    forall x, y :: f(x) == f(y) ==> x == y
  }

  ghost predicate Cancels<S(!new)>(add: (S, S) -> S) {
    forall x, y, z :: add(x, z) == add(y, z) ==> x == y
  }

  lemma {:induction false} FeedConcat<S>(f: S -> S, add: (S, S) -> S, bit: bool -> S, s: S, a: seq<bool>, b: seq<bool>)
    ensures Feed(f, add, bit, s, a + b) == Feed(f, add, bit, Feed(f, add, bit, s, a), b)
    decreases |a|
  {
    if a == [] {
      assert a + b == b;
    } else {
      assert (a + b)[1..] == a[1..] + b;
      FeedConcat(f, add, bit, f(add(s, bit(a[0]))), a[1..], b);
    }
  }

  lemma {:induction false} FeedInjective<S(!new)>(f: S -> S, add: (S, S) -> S, bit: bool -> S, s: S, t: S, bits: seq<bool>)
    requires Injective(f) && Cancels(add)
    ensures Feed(f, add, bit, s, bits) == Feed(f, add, bit, t, bits) <==> s == t
    decreases |bits|
  {
    if bits != [] {
      FeedInjective(f, add, bit, f(add(s, bit(bits[0]))), f(add(t, bit(bits[0]))), bits[1..]);
    }
  }

  predicate StepLinearAt<S(==)>(f: S -> S, add: (S, S) -> S, bit: bool -> S, s: S, t: S, c: bool, d: bool) {
    add(f(add(s, bit(c))), f(add(t, bit(d)))) == f(add(add(s, t), bit(c != d)))
  }

  lemma StepIsLinear<S(!new)>(f: S -> S, add: (S, S) -> S, bit: bool -> S, s: S, t: S, c: bool, d: bool)
    requires Linear(f, add) && Medial(add) && BitLinear(add, bit)
    ensures StepLinearAt(f, add, bit, s, t, c, d)
  {
    assert LinearAt(f, add, add(s, bit(c)), add(t, bit(d)));
    assert MedialAt(add, s, t, bit(c), bit(d));
    assert BitLinearAt(add, bit, c, d);
  }

  /** The register of a sum is the sum of the registers. */
  lemma {:induction false} FeedLinear<S(!new)>(f: S -> S, add: (S, S) -> S, bit: bool -> S, s: S, t: S, a: seq<bool>, b: seq<bool>)
    requires Linear(f, add) && Medial(add) && BitLinear(add, bit) && |a| == |b|
    ensures add(Feed(f, add, bit, s, a), Feed(f, add, bit, t, b)) == Feed(f, add, bit, add(s, t), XorBits(a, b))
    decreases |a|
  {
    if a != [] {
      StepIsLinear(f, add, bit, s, t, a[0], b[0]);
      FeedLinear(f, add, bit, f(add(s, bit(a[0]))), f(add(t, bit(b[0]))), a[1..], b[1..]);
      assert XorBits(a, b)[1..] == XorBits(a[1..], b[1..]);
    }
  }

  lemma {:induction false} TimesLinear<S(!new)>(f: S -> S, add: (S, S) -> S, x: S, y: S, k: nat)
    requires Linear(f, add)
    ensures Times(f, add(x, y), k) == add(Times(f, x, k), Times(f, y, k))
    decreases k
  {
    if k > 0 {
      assert LinearAt(f, add, x, y);
      TimesLinear(f, add, f(x), f(y), k - 1);
    }
  }

  /** The low `k` bits of a word, lowest first. */
  function WordBits<S>(low: S -> bool, half: S -> S, m: S, k: nat): (r: seq<bool>)
    ensures |r| == k
    decreases k
  {
    if k == 0 then [] else [low(m)] + WordBits(low, half, half(m), k - 1)
  }

  ghost predicate Assoc<S(!new)>(add: (S, S) -> S) {
    forall x, y, z :: add(add(x, y), z) == add(x, add(y, z))
  }

  ghost predicate Sheds<S(!new)>(f: S -> S, add: (S, S) -> S, bit: bool -> S, low: S -> bool, half: S -> S) {
    forall m :: f(m) == add(f(bit(low(m))), half(m))
  }

  lemma Absorb<S(!new)>(f: S -> S, add: (S, S) -> S, bit: bool -> S, low: S -> bool, half: S -> S, s: S, m: S)
    requires Linear(f, add) && Assoc(add) && Sheds(f, add, bit, low, half)
    ensures f(add(s, m)) == add(f(add(s, bit(low(m)))), half(m))
  {
    assert LinearAt(f, add, s, m) && LinearAt(f, add, s, bit(low(m)));
    assert add(add(f(s), f(bit(low(m)))), half(m)) == add(f(s), add(f(bit(low(m))), half(m)));
  }

  /** Feeding the bits of a word one by one is adding the whole word at once. */
  lemma {:induction false} FeedWord<S(!new)>(f: S -> S, add: (S, S) -> S, bit: bool -> S, low: S -> bool, half: S -> S, s: S, m: S, k: nat)
    requires Linear(f, add) && Assoc(add) && Sheds(f, add, bit, low, half)
    ensures add(Feed(f, add, bit, s, WordBits(low, half, m, k)), Times(half, m, k)) == Times(f, add(s, m), k)
    decreases k
  {
    if k > 0 {
      Absorb(f, add, bit, low, half, s, m);
      FeedWord(f, add, bit, low, half, f(add(s, bit(low(m)))), half(m), k - 1);
      assert WordBits(low, half, m, k)[1..] == WordBits(low, half, half(m), k - 1);
    }
  }

  lemma EightTimes<S>(f: S -> S, s: S)
    ensures Times(f, s, 8) == f(f(f(f(f(f(f(f(s))))))))
  {
    assert Times(f, s, 8) == Times(f, f(f(s)), 6);
    assert Times(f, f(f(s)), 6) == Times(f, f(f(f(f(s)))), 4);
    assert Times(f, f(f(f(f(s)))), 4) == Times(f, f(f(f(f(f(f(s)))))), 2);
  }

  lemma TwoBits<S>(low: S -> bool, half: S -> S, m: S, k: nat)
    ensures WordBits(low, half, m, k + 2) == [low(m), low(half(m))] + WordBits(low, half, half(half(m)), k)
  {
    assert WordBits(low, half, m, k + 2) == [low(m)] + WordBits(low, half, half(m), k + 1);
  }

  lemma EightBits<S>(low: S -> bool, half: S -> S, m: S)
    ensures var m2 := half(half(m)); var m4 := half(half(m2)); var m6 := half(half(m4));
      WordBits(low, half, m, 8) == [low(m), low(half(m)), low(m2), low(half(m2)), low(m4), low(half(m4)), low(m6), low(half(m6))]
  {
    var m2 := half(half(m));
    var m4 := half(half(m2));
    var m6 := half(half(m4));
    TwoBits(low, half, m, 6);
    TwoBits(low, half, m2, 4);
    TwoBits(low, half, m4, 2);
    TwoBits(low, half, m6, 0);
    assert WordBits(low, half, m6, 2) == [low(m6), low(half(m6))];
    assert WordBits(low, half, m4, 4) == [low(m4), low(half(m4)), low(m6), low(half(m6))];
    assert WordBits(low, half, m2, 6) == [low(m2), low(half(m2)), low(m4), low(half(m4)), low(m6), low(half(m6))];
  }

  predicate RelaxAt<S>(f: S -> S, add: (S, S) -> S, bit: bool -> S, ge: (S, S) -> bool, bound: nat -> S, k: nat, x: S, b: bool) {
    ge(x, bound(k + 1)) ==> ge(f(add(x, bit(b))), bound(k))
  }

  lemma RelaxFrom<S>(f: S -> S, add: (S, S) -> S, bit: bool -> S, ge: (S, S) -> bool, bound: nat -> S, half: S -> S, k: nat, x: S, b: bool)
    requires ge(x, bound(k + 1)) ==> ge(f(add(x, bit(b))), half(bound(k + 1)))
    requires half(bound(k + 1)) == bound(k)
    ensures RelaxAt(f, add, bit, ge, bound, k, x, b)
  {
  }

  /** A bound that every step relaxes by one level keeps the register within the level it has reached. */
  lemma {:induction false} FeedAbove<S(!new)>(f: S -> S, add: (S, S) -> S, bit: bool -> S, ge: (S, S) -> bool, bound: nat -> S,
      s: S, n: nat, bits: seq<bool>)
    requires forall k: nat, x, b :: k < n ==> RelaxAt(f, add, bit, ge, bound, k, x, b)
    requires |bits| <= n && ge(s, bound(n))
    ensures ge(Feed(f, add, bit, s, bits), bound(n - |bits|))
    decreases |bits|
  {
    if bits != [] {
      assert RelaxAt(f, add, bit, ge, bound, n - 1, s, bits[0]);
      FeedAbove(f, add, bit, ge, bound, f(add(s, bit(bits[0]))), n - 1, bits[1..]);
    }
  }

  /** A turn of a table-driven loop. */
  function TurnWith<S, I, B>(look: I -> S, add: (S, S) -> S, index: (S, B) -> I, shift: S -> S, s: S, b: B): S {
    add(look(index(s, b)), shift(s))
  }

  /** A turn on a register of two parts, with an input that cancels the low end of the second: that
      part is only shifted, and the first becomes `k`. */
  lemma TurnSheds<S, I, B>(look: I -> S, add: (S, S) -> S, index: (S, B) -> I, shift: S -> S, c: S, left: S, b: B, i: I, k: S)
    requires index(add(c, left), b) == i && shift(add(c, left)) == add(shift(c), shift(left))
    requires add(look(i), shift(c)) == k
    requires add(look(i), add(shift(c), shift(left))) == add(add(look(i), shift(c)), shift(left))
    ensures TurnWith(look, add, index, shift, add(c, left), b) == add(k, shift(left))
  {
  }
}
