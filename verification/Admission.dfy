/** Admission control: which puts are turned away, and the threshold that rises with use. */
module Admission {
  import opened Common

  datatype EntryType = Conversation | SystemPrompt | RagContext

  datatype PutOpts = PutOpts(numTokens: U32, cost: U32, entryType: EntryType)

  datatype Config = Config(minCost: U32, baseThreshold: U32)

  datatype Verdict = Admit | RejectLowCost | RejectDynamicThreshold

  const LOW_MARK: real := 0.7
  const HIGH_MARK: real := 0.9

  /** Zero below 70% use, twice the base (in 32 bits) above 90%, and linear in between. */
  function DynamicThreshold(base: U32, use: real): (t: U32)
  {
    if use < LOW_MARK then 0
    else if use > HIGH_MARK then (if base < 0x8000_0000 then base * 2 else base * 2 - 0x1_0000_0000)
    else
      FractionBounds(base, use);
      (base as real * ((use - LOW_MARK) / 0.2)).Floor
  }

  lemma FractionBounds(base: U32, use: real)
    requires LOW_MARK <= use <= HIGH_MARK
    ensures 0.0 <= base as real * ((use - LOW_MARK) / 0.2) <= base as real
  {
    var f := (use - LOW_MARK) / 0.2;
    assert 0.0 <= f <= 1.0;
    ScaleBounds(base as real, f);
  }

  lemma ScaleBounds(b: real, f: real)
    requires b >= 0.0 && 0.0 <= f <= 1.0
    ensures 0.0 <= b * f <= b
  {
  }

  function Evaluate(c: Config, opts: PutOpts, use: real): Verdict {
    if opts.entryType.SystemPrompt? then Admit
    else if opts.cost < c.minCost then RejectLowCost
    else
      var threshold := DynamicThreshold(c.baseThreshold, use);
      if threshold > 0 && opts.cost < threshold then RejectDynamicThreshold else Admit
  }

  /** Anything admitted other than a system prompt is worth keeping: it reaches both the
      minimum cost and the threshold of the moment; the verdict names the first it misses. */
  lemma AdmittedIsWorth(c: Config, opts: PutOpts, use: real)
    ensures Evaluate(c, opts, use) == Admit <==>
              opts.entryType.SystemPrompt? || (opts.cost >= c.minCost && opts.cost >= DynamicThreshold(c.baseThreshold, use))
    ensures Evaluate(c, opts, use) == RejectLowCost <==> !opts.entryType.SystemPrompt? && opts.cost < c.minCost
  {
  }

  lemma ScaleMonotone(b: real, f: real, g: real)
    requires b >= 0.0 && f <= g
    ensures b * f <= b * g
  {
  }

  lemma FloorMonotone(x: real, y: real)
    requires x <= y
    ensures x.Floor <= y.Floor
  {
  }

  /** Up to 90% use the threshold never falls as use grows, and it stays within the base. */
  lemma ThresholdRises(base: U32, u: real, v: real)
    requires u <= v <= HIGH_MARK
    ensures DynamicThreshold(base, u) <= DynamicThreshold(base, v) <= base
  {
    if LOW_MARK <= v {
      FractionBounds(base, v);
      FloorMonotone(base as real * ((v - LOW_MARK) / 0.2), base as real);
      if LOW_MARK <= u {
        FractionBounds(base, u);
        assert (u - LOW_MARK) / 0.2 <= (v - LOW_MARK) / 0.2;
        ScaleMonotone(base as real, (u - LOW_MARK) / 0.2, (v - LOW_MARK) / 0.2);
        FloorMonotone(base as real * ((u - LOW_MARK) / 0.2), base as real * ((v - LOW_MARK) / 0.2));
      }
    }
  }

  lemma Fifth(b: real, w: real)
    ensures b * (w / 0.2) == 5.0 * (b * w)
  {
    assert w / 0.2 == 5.0 * w;
    Regroup(b, w);
  }

  lemma Regroup(b: real, w: real)
    ensures b * (5.0 * w) == 5.0 * (b * w)
  {
  }

  lemma Between(t: real, x: real, y: real)
    requires t <= y < t + 1.0 && y == 5.0 * x
    ensures t * 0.2 <= x < (t + 1.0) * 0.2
  {
  }

  /** The threshold asks nothing below 70% use; from there to 90% it is the whole number at or just
      below the line from zero to the base; above 90% it is twice the base, in 32 bits. */
  lemma ThresholdLine(base: U32, use: real)
    ensures var t := DynamicThreshold(base, use) as real;
            && (use < 0.7 ==> t == 0.0)
            && (0.7 <= use <= 0.9 ==> t * 0.2 <= base as real * (use - 0.7) < (t + 1.0) * 0.2)
            && (use > 0.9 ==> DynamicThreshold(base, use) == (2 * base) % 0x1_0000_0000)
  {
    if 0.7 <= use <= 0.9 {
      Fifth(base as real, use - 0.7);
      var y := base as real * ((use - LOW_MARK) / 0.2);
      var t := y.Floor as real;
      assert t <= y < t + 1.0;
      Between(t, base as real * (use - 0.7), y);
      assert DynamicThreshold(base, use) as real == t;
    }
  }

  predicate RisesAt(base: U32, u: real, v: real) {
    u <= v ==> DynamicThreshold(base, u) <= DynamicThreshold(base, v)
  }

  /** The threshold rises with use everywhere exactly when its double fits 32 bits; otherwise
      the doubling wraps, and a nearly full store admits what a less full one rejects. */
  lemma RisesExactly(base: U32)
    ensures (forall u, v :: RisesAt(base, u, v)) <==> base < 0x8000_0000
  {
    if base < 0x8000_0000 {
      forall u, v ensures RisesAt(base, u, v) {
        if u <= v <= HIGH_MARK {
          ThresholdRises(base, u, v);
        } else if u <= HIGH_MARK < v {
          ThresholdRises(base, u, HIGH_MARK);
        }
      }
    } else {
      AtHighMark(base);
      assert DynamicThreshold(base, 1.0) == base * 2 - 0x1_0000_0000 < base;
      assert !RisesAt(base, HIGH_MARK, 1.0);
    }
  }

  lemma AtHighMark(base: U32)
    ensures DynamicThreshold(base, HIGH_MARK) == base
  {
    assert (HIGH_MARK - LOW_MARK) / 0.2 == 1.0;
    assert (base as real * 1.0).Floor == base;
  }

  class AdmissionControl {
    const config: Config
    var evaluated: nat
    var rejected: nat

    ghost predicate Valid()
      reads this
    {
      rejected <= evaluated
    }

    constructor (config: Config)
      ensures Valid() && this.config == config && evaluated == 0
    {
      this.config := config;
      evaluated, rejected := 0, 0;
    }

    method RecordEvaluation(v: Verdict)
      requires Valid()
      modifies this
      ensures Valid() && evaluated == old(evaluated) + 1
      ensures rejected == old(rejected) + if v.Admit? then 0 else 1
    {
      evaluated := evaluated + 1;
      if !v.Admit? {
        rejected := rejected + 1;
      }
    }
  }
}
