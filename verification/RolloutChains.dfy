/**
 * What the rollout gate guarantees over a whole chain of rollouts, each of which passed it against
 * the one before.
 */
module RolloutChains {
  import opened Wrappers
  import opened RolloutGate

  /** Every record passed the gate against the one before it. */
  predicate Chain(records: seq<Record>, t: Tolerance) {
    forall i :: 0 < i < |records| ==> Passes(records[i - 1], records[i], t, None)
  }

  function Pow(x: real, k: nat): real {
    if k == 0 then 1.0 else Pow(x, k - 1) * x
  }

  /** Each measurement is at most `ratio` times the one before it. */
  predicate Steps(xs: seq<real>, ratio: real) {
    forall i :: 0 < i < |xs| ==> xs[i] <= xs[i - 1] * ratio
  }

  /** The ratio and some measurement are not both negative. */
  ghost predicate Compounds(xs: seq<real>, ratio: real) {
    ratio >= 0.0 || forall i :: 0 <= i < |xs| ==> xs[i] >= 0.0
  }

  lemma OneMoreRatio(start: real, previous: real, value: real, ratio: real, power: real)
    requires ratio >= 0.0 && previous <= start * power && value <= previous * ratio
    ensures value <= start * (power * ratio)
  {
    assert previous * ratio <= start * power * ratio;
    assert start * power * ratio == start * (power * ratio);
  }

  lemma SignOfProduct(x: real, y: real)
    requires x > 0.0 && y < 0.0
    ensures x * y < 0.0
  {
  }

  /** Under a negative ratio only a run of zeros is free of negative measurements. */
  lemma NegativeRatioMeansZero(previous: real, value: real, ratio: real)
    requires ratio < 0.0 && previous >= 0.0 && value >= 0.0 && value <= previous * ratio
    ensures previous == 0.0 && value == 0.0
  {
    if previous > 0.0 {
      SignOfProduct(previous, ratio);
    }
  }

  lemma {:induction false} AllZero(xs: seq<real>, ratio: real, k: nat)
    requires Steps(xs, ratio) && ratio < 0.0 && 0 < k < |xs| && forall i :: 0 <= i < |xs| ==> xs[i] >= 0.0
    ensures xs[0] == 0.0 && xs[k] == 0.0
  {
    NegativeRatioMeansZero(xs[k - 1], xs[k], ratio);
    if k > 1 {
      AllZero(xs, ratio, k - 1);
    }
  }

  /** k steps multiply by at most the k-th power, unless the ratio and some measurement are both negative. */
  lemma {:induction false} StepsCompound(xs: seq<real>, ratio: real, k: nat)
    requires Steps(xs, ratio) && k < |xs|
    requires Compounds(xs, ratio)
    ensures xs[k] <= xs[0] * Pow(ratio, k)
  {
    if k > 0 {
      if ratio >= 0.0 {
        StepsCompound(xs, ratio, k - 1);
        OneMoreRatio(xs[0], xs[k - 1], xs[k], ratio, Pow(ratio, k - 1));
      } else {
        AllZero(xs, ratio, k);
      }
    }
  }

  /** What k passed gates in a row still say about the distance to the first record. */
  lemma {:induction false} DriftIsBounded(records: seq<Record>, t: Tolerance, k: nat)
    requires Chain(records, t) && k < |records|
    ensures var first, last := records[0].summary, records[k].summary;
      && last.successRate >= first.successRate - k as real * t.successDrop
      && last.fallbackRate <= first.fallbackRate + k as real * t.fallbackIncrease
      && last.challengeRate <= first.challengeRate + k as real * t.challengeIncrease
      && last.recoveryRate >= first.recoveryRate
      && last.sources == first.sources && Targets(records[k].scenarios) == Targets(records[0].scenarios)
      && (k > 0 ==> last.cleanupFailures == 0)
  {
    if k > 0 {
      DriftIsBounded(records, t, k - 1);
      assert Passes(records[k - 1], records[k], t, None);
      assert k as real * t.successDrop == (k - 1) as real * t.successDrop + t.successDrop;
      assert k as real * t.fallbackIncrease == (k - 1) as real * t.fallbackIncrease + t.fallbackIncrease;
      assert k as real * t.challengeIncrease == (k - 1) as real * t.challengeIncrease + t.challengeIncrease;
    }
  }

  function Latencies(records: seq<Record>): seq<real> {
    seq(|records|, i requires 0 <= i < |records| => records[i].summary.meanLatency)
  }

  function Counts(records: seq<Record>, f: Summary -> Option<int>): seq<real> {
    seq(|records|, i requires 0 <= i < |records| => OrDefault(f(records[i].summary), 0) as real)
  }

  function MemoryOf(s: Summary): Option<int> { s.maxMemory }

  function PidsOf(s: Summary): Option<int> { s.maxPids }

  /** Every record keeps metric `f` within `ratio` of the one before. */
  predicate KeepsWithin(records: seq<Record>, f: Summary -> Option<int>, ratio: real) {
    forall i :: 0 < i < |records| ==>
      WithinRatio(Measured(f(records[i - 1].summary)), Measured(f(records[i].summary)), ratio)
  }

  lemma CountSteps(records: seq<Record>, f: Summary -> Option<int>, ratio: real)
    requires KeepsWithin(records, f, ratio)
    ensures Steps(Counts(records, f), ratio)
    ensures |records| > 1 ==> forall r :: r in records ==> f(r.summary).Some?
  {
    var xs := Counts(records, f);
    forall i | 0 < i < |records|
      ensures xs[i] <= xs[i - 1] * ratio
    {
      var before, after := Measured(f(records[i - 1].summary)), Measured(f(records[i].summary));
      assert WithinRatio(before, after, ratio);
      assert xs[i - 1] == before.value && xs[i] == after.value;
    }
    forall i | 0 <= i < |records| && |records| > 1
      ensures f(records[i].summary).Some?
    {
      var j := if i == 0 then 1 else i;
      assert WithinRatio(Measured(f(records[j - 1].summary)), Measured(f(records[j].summary)), ratio);
    }
  }

  lemma LatencySteps(records: seq<Record>, t: Tolerance)
    requires Chain(records, t)
    ensures Steps(Latencies(records), t.latencyRatio)
  {
    var xs := Latencies(records);
    forall i | 0 < i < |records|
      ensures xs[i] <= xs[i - 1] * t.latencyRatio
    {
      assert Passes(records[i - 1], records[i], t, None);
    }
  }

  lemma ResourceSteps(records: seq<Record>, t: Tolerance, i: nat)
    requires Chain(records, t) && 0 < i < |records|
    ensures var b, a := records[i - 1].summary, records[i].summary;
      && WithinRatio(Measured(MemoryOf(b)), Measured(MemoryOf(a)), t.resourceRatio)
      && WithinRatio(Measured(PidsOf(b)), Measured(PidsOf(a)), t.resourceRatio)
  {
    assert Passes(records[i - 1], records[i], t, None);
  }

  lemma CountGrowth(records: seq<Record>, f: Summary -> Option<int>, ratio: real, k: nat)
    requires KeepsWithin(records, f, ratio) && 0 < k < |records| && Compounds(Counts(records, f), ratio)
    ensures var first, last := f(records[0].summary), f(records[k].summary);
      first.Some? && last.Some? && last.value as real <= first.value as real * Pow(ratio, k)
  {
    CountSteps(records, f, ratio);
    StepsCompound(Counts(records, f), ratio, k);
    assert records[0] in records && records[k] in records;
    assert Counts(records, f)[0] == f(records[0].summary).value as real;
    assert Counts(records, f)[k] == f(records[k].summary).value as real;
  }

  lemma LatencyGrowth(records: seq<Record>, t: Tolerance, k: nat)
    requires Chain(records, t) && k < |records| && Compounds(Latencies(records), t.latencyRatio)
    ensures records[k].summary.meanLatency <= records[0].summary.meanLatency * Pow(t.latencyRatio, k)
  {
    LatencySteps(records, t);
    StepsCompound(Latencies(records), t.latencyRatio, k);
  }

  /** Latency and resources grew at most by the k-th power of their ratio, and stayed measured. */
  predicate GrewWithin(records: seq<Record>, t: Tolerance, k: nat)
    requires k < |records|
  {
    var first, last := records[0].summary, records[k].summary;
    && last.meanLatency <= first.meanLatency * Pow(t.latencyRatio, k)
    && (k > 0 ==>
         && first.maxMemory.Some? && last.maxMemory.Some? && first.maxPids.Some? && last.maxPids.Some?
         && last.maxMemory.value as real <= first.maxMemory.value as real * Pow(t.resourceRatio, k)
         && last.maxPids.value as real <= first.maxPids.value as real * Pow(t.resourceRatio, k))
  }

  /** Growth is bounded whenever no ratio is negative together with one of its measurements. */
  lemma GrowthIsBounded(records: seq<Record>, t: Tolerance, k: nat)
    requires Chain(records, t) && k < |records|
    requires Compounds(Latencies(records), t.latencyRatio)
    requires Compounds(Counts(records, MemoryOf), t.resourceRatio)
    requires Compounds(Counts(records, PidsOf), t.resourceRatio)
    ensures GrewWithin(records, t, k)
  {
    LatencyGrowth(records, t, k);
    if k > 0 {
      forall i | 0 < i < |records|
        ensures WithinRatio(Measured(MemoryOf(records[i - 1].summary)), Measured(MemoryOf(records[i].summary)),
                            t.resourceRatio)
        ensures WithinRatio(Measured(PidsOf(records[i - 1].summary)), Measured(PidsOf(records[i].summary)),
                            t.resourceRatio)
      {
        ResourceSteps(records, t, i);
      }
      CountGrowth(records, MemoryOf, t.resourceRatio, k);
      CountGrowth(records, PidsOf, t.resourceRatio, k);
    }
  }

  // ---------------------------------------------------------------- negative ratios

  /** A passed scenario with the given time, memory and number of processes. */
  function Sample(time: real, count: int): Scenario {
    Scenario("normal", "u", true, time, None, None, None, false, None, None, None, Some(count), Some(count), None)
  }

  /** A record of one scenario, with its own summary. */
  function Single(time: real, count: int): Record {
    Record(SCHEMA, [Sample(time, count)], true, SummaryOf([Sample(time, count)]))
  }

  lemma CountOfOne(s: Scenario, p: Scenario -> bool)
    ensures CountIf([s], p) == if p(s) then 1 else 0
  {
    assert [s][..0] == [];
  }

  lemma MaxOfOne(s: Scenario, f: Scenario -> Option<int>)
    ensures MaxOf([s], f) == f(s)
  {
    assert [s][..0] == [];
  }

  lemma MeasurementsOfSingle(time: real, count: int)
    ensures var s := Single(time, count).summary;
      s.meanLatency == time && s.maxMemory == Some(count) && s.maxPids == Some(count)
  {
    var s := Sample(time, count);
    assert [s][..0] == [] && TotalTime([]) == 0.0;
    MaxOfOne(s, Memory);
    MaxOfOne(s, Pids);
  }

  lemma RatesOfSingle(time: real, count: int)
    ensures var s := Single(time, count).summary;
      && s.successRate == 1.0 && s.fallbackRate == 0.0 && s.challengeRate == 0.0 && s.recoveryRate == 1.0
      && s.cleanupFailures == 0 && s.sources == {"process_tree"}
  {
    var s := Sample(time, count);
    CountOfOne(s, Passed);
    CountOfOne(s, UsedFallback);
    CountOfOne(s, Challenged);
    CountOfOne(s, Recovered);
    CountOfOne(s, LeftBehind);
    assert Sources([s]) == {Source(s)};
  }

  /** Nothing may get worse but latency and resources, and those only by the given ratios. */
  function OnlyRatios(latencyRatio: real, resourceRatio: real): Tolerance {
    Tolerance(0.0, latencyRatio, resourceRatio, 0.0, 0.0)
  }

  lemma SinglesPass(time: real, count: int, time': real, count': int, t: Tolerance)
    requires t == OnlyRatios(t.latencyRatio, t.resourceRatio)
    requires time' <= time * t.latencyRatio && count' as real <= count as real * t.resourceRatio
    ensures Passes(Single(time, count), Single(time', count'), t, None)
  {
    MeasurementsOfSingle(time, count);
    MeasurementsOfSingle(time', count');
    RatesOfSingle(time, count);
    RatesOfSingle(time', count');
    assert Targets(Single(time, count).scenarios) == [("normal", "u")] == Targets(Single(time', count').scenarios);
  }

  lemma PowerOfTwo(x: real)
    ensures 0.0 * Pow(x, 2) == 0.0
  {
  }

  /** Three records that each pass the gate against the one before, although latency only ever grew. */
  lemma NegativeLatencyRatioFails(t: Tolerance) returns (records: seq<Record>)
    requires t == OnlyRatios(t.latencyRatio, t.resourceRatio) && t.latencyRatio < 0.0
    ensures Chain(records, t) && |records| == 3 && !GrewWithin(records, t, 2)
    ensures forall r :: r in records ==> IsRolloutRecord(r) && r.summary == SummaryOf(r.scenarios)
  {
    hide SummaryOf, Passes;
    var x := t.latencyRatio;
    records := [Single(0.0, 0), Single(-1.0, 0), Single(-x, 0)];
    SinglesPass(0.0, 0, -1.0, 0, t);
    SinglesPass(-1.0, 0, -x, 0, t);
    MeasurementsOfSingle(0.0, 0);
    MeasurementsOfSingle(-x, 0);
    PowerOfTwo(x);
  }

  lemma LargeEnough(x: real) returns (n: int)
    requires x > 0.0
    ensures n as real * x >= 1.0
  {
    n := (1.0 / x).Floor + 1;
    assert n as real >= 1.0 / x;
    assert 1.0 / x * x == 1.0;
    assert (n as real - 1.0 / x) * x >= 0.0;
  }

  lemma NegativeResourceRatioFails(t: Tolerance) returns (records: seq<Record>)
    requires t == OnlyRatios(t.latencyRatio, t.resourceRatio) && t.resourceRatio < 0.0
    ensures Chain(records, t) && |records| == 3 && !GrewWithin(records, t, 2)
    ensures forall r :: r in records ==> IsRolloutRecord(r) && r.summary == SummaryOf(r.scenarios)
  {
    hide SummaryOf, Passes;
    var x := t.resourceRatio;
    var n := LargeEnough(-x);
    var below := -n;
    assert below as real * x == n as real * -x;
    records := [Single(0.0, 0), Single(0.0, below), Single(0.0, 1)];
    SinglesPass(0.0, 0, 0.0, below, t);
    SinglesPass(0.0, below, 0.0, 1, t);
    MeasurementsOfSingle(0.0, 0);
    MeasurementsOfSingle(0.0, 1);
    PowerOfTwo(x);
  }

  /**
   * The compound bound holds of every chain of rollouts, whatever they measured, if and only if
   * neither ratio is negative.
   */
  lemma GrowthIsBoundedExactly(latencyRatio: real, resourceRatio: real)
    ensures (forall records: seq<Record>, t: Tolerance, k: nat |
               t.latencyRatio == latencyRatio && t.resourceRatio == resourceRatio && Chain(records, t) && k < |records|
               :: GrewWithin(records, t, k))
      <==> latencyRatio >= 0.0 && resourceRatio >= 0.0
  {
    if latencyRatio >= 0.0 && resourceRatio >= 0.0 {
      forall records: seq<Record>, t: Tolerance, k: nat |
        t.latencyRatio == latencyRatio && t.resourceRatio == resourceRatio && Chain(records, t) && k < |records|
        ensures GrewWithin(records, t, k)
      {
        GrowthIsBounded(records, t, k);
      }
    } else {
      var t := OnlyRatios(latencyRatio, resourceRatio);
      var records;
      if latencyRatio < 0.0 {
        records := NegativeLatencyRatioFails(t);
      } else {
        records := NegativeResourceRatioFails(t);
      }
      assert Chain(records, t) && !GrewWithin(records, t, 2);
    }
  }
}
