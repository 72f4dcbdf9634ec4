/** What the numbers of a rollout summary count, read off the scenarios, and what the gate lets through. */
module RolloutLaws {
  import opened Wrappers
  import opened RolloutGate

  // ---------------------------------------------------------------- counters

  ghost function Where(scenarios: seq<Scenario>, p: Scenario -> bool): set<int> {
    set i | 0 <= i < |scenarios| && p(scenarios[i])
  }

  lemma OneMoreWhere(scenarios: seq<Scenario>, s: Scenario, p: Scenario -> bool)
    ensures |Where(scenarios + [s], p)| == |Where(scenarios, p)| + if p(s) then 1 else 0
  {
    var before := Where(scenarios, p);
    assert |scenarios| !in before;
    if p(s) {
      assert Where(scenarios + [s], p) == before + {|scenarios|};
    } else {
      assert Where(scenarios + [s], p) == before;
    }
  }

  /** Each scenario that qualifies is counted once. */
  lemma {:induction false} CountIsCardinality(scenarios: seq<Scenario>, p: Scenario -> bool)
    ensures CountIf(scenarios, p) == |Where(scenarios, p)|
  {
    if scenarios == [] {
      assert Where(scenarios, p) == {};
    } else {
      var n := |scenarios| - 1;
      CountIsCardinality(scenarios[..n], p);
      OneMoreWhere(scenarios[..n], scenarios[n], p);
      assert scenarios == scenarios[..n] + [scenarios[n]];
    }
  }

  predicate Succeeded(s: Scenario) { s.passed }

  predicate RanScrapling(s: Scenario) { Some("scrapling") in {s.sessionlessEngine, s.retainedEngine} }

  predicate SawChallenge(s: Scenario) {
    match s.challenge
    case None => false
    case Some(kind) => kind != "none"
  }

  predicate GotThrough(s: Scenario) { SawChallenge(s) && s.challengeRecovered }

  /** A cleanup report is fine when the session is closed, its owner has none left and nothing failed. */
  predicate LeftDirt(s: Scenario) {
    match s.cleanup
    case None => false
    case Some(report) => !(report.closed && report.ownerSessions == Some(0) && report.failures <= 0)
  }

  /** The counters of a summary are the numbers of scenarios that say so. */
  lemma CountersCountScenarios(scenarios: seq<Scenario>)
    ensures var summary := SummaryOf(scenarios);
      && summary.samples == |scenarios|
      && summary.successes == |Where(scenarios, Succeeded)|
      && summary.fallbacks == |Where(scenarios, RanScrapling)|
      && summary.challenges == |Where(scenarios, SawChallenge)|
      && summary.cleanupFailures == |Where(scenarios, LeftDirt)|
  {
    CountIsCardinality(scenarios, Passed);
    CountIsCardinality(scenarios, UsedFallback);
    CountIsCardinality(scenarios, Challenged);
    CountIsCardinality(scenarios, LeftBehind);
    assert Where(scenarios, Passed) == Where(scenarios, Succeeded);
    assert Where(scenarios, UsedFallback) == Where(scenarios, RanScrapling);
    assert Where(scenarios, Challenged) == Where(scenarios, SawChallenge);
    assert Where(scenarios, LeftBehind) == Where(scenarios, LeftDirt);
  }

  /** `rate` of the whole is the part; of nothing, the rate is the given one. */
  predicate IsShare(rate: real, part: nat, whole: nat, ofNothing: real) {
    if whole > 0 then rate * whole as real == part as real else rate == ofNothing
  }

  lemma RateIsShare(part: nat, whole: nat, ofNothing: real)
    ensures IsShare(Rate(part, whole, ofNothing), part, whole, ofNothing)
  {
    if whole > 0 {
      QuotientTimesWhole(part as real, whole as real);
    }
  }

  /** Rates are shares of all samples, and the recovery rate one of the challenges; without any it is 1. */
  lemma RatesAreShares(scenarios: seq<Scenario>)
    ensures var summary := SummaryOf(scenarios);
      && IsShare(summary.successRate, summary.successes, summary.samples, 0.0)
      && IsShare(summary.fallbackRate, summary.fallbacks, summary.samples, 0.0)
      && IsShare(summary.challengeRate, summary.challenges, summary.samples, 0.0)
      && IsShare(summary.recoveryRate, |Where(scenarios, GotThrough)|, summary.challenges, 1.0)
  {
    var n, challenges := |scenarios|, CountIf(scenarios, Challenged);
    assert Where(scenarios, Recovered) == Where(scenarios, GotThrough);
    hide Rate, CountIf, Where, IsShare;
    RateIsShare(CountIf(scenarios, Passed), n, 0.0);
    RateIsShare(CountIf(scenarios, UsedFallback), n, 0.0);
    RateIsShare(challenges, n, 0.0);
    RateIsShare(CountIf(scenarios, Recovered), challenges, 1.0);
    CountIsCardinality(scenarios, Recovered);
  }

  // ---------------------------------------------------------------- extremes and means

  /** The largest number that some scenario gives, or None when none gives one. */
  ghost predicate IsMaximum(scenarios: seq<Scenario>, f: Scenario -> Option<int>, m: Option<int>) {
    && (forall s :: s in scenarios && f(s).Some? ==> m.Some? && f(s).value <= m.value)
    && (m.Some? ==> exists s :: s in scenarios && f(s) == m)
  }

  lemma {:induction false} MaxOfIsMaximum(scenarios: seq<Scenario>, f: Scenario -> Option<int>)
    ensures IsMaximum(scenarios, f, MaxOf(scenarios, f))
  {
    if scenarios != [] {
      var n := |scenarios| - 1;
      MaxOfIsMaximum(scenarios[..n], f);
      assert scenarios == scenarios[..n] + [scenarios[n]];
      assert scenarios[n] in scenarios;
    }
  }

  /** Container numbers count where both are there; where one is missing, those of the process tree do. */
  function MemoryRead(s: Scenario): Option<int> {
    match (s.cgroupMemory, s.cgroupPids)
    case (Some(memory), Some(_)) => Some(memory)
    case _ => s.treeMemory
  }

  function PidsRead(s: Scenario): Option<int> {
    match (s.cgroupMemory, s.cgroupPids)
    case (Some(_), Some(pids)) => Some(pids)
    case _ => s.treePids
  }

  lemma ExtremesAreAttained(scenarios: seq<Scenario>)
    ensures var summary := SummaryOf(scenarios);
      && IsMaximum(scenarios, MemoryRead, summary.maxMemory) && IsMaximum(scenarios, PidsRead, summary.maxPids)
      && ("cgroup" in summary.sources <==>
           exists s :: s in scenarios && s.cgroupMemory.Some? && s.cgroupPids.Some?)
      && ("process_tree" in summary.sources <==>
           exists s :: s in scenarios && (s.cgroupMemory.None? || s.cgroupPids.None?))
      && summary.sources <= {"cgroup", "process_tree"}
  {
    MaxOfIsMaximum(scenarios, Memory);
    MaxOfIsMaximum(scenarios, Pids);
  }

  lemma {:induction false} LongestIsAttained(scenarios: seq<Scenario>)
    requires scenarios != []
    ensures forall s :: s in scenarios ==> s.wallTime <= SummaryOf(scenarios).maxLatency
    ensures exists s :: s in scenarios && s.wallTime == SummaryOf(scenarios).maxLatency
  {
    var n := |scenarios| - 1;
    assert scenarios[n] in scenarios;
    if n > 0 {
      LongestIsAttained(scenarios[..n]);
      assert scenarios == scenarios[..n] + [scenarios[n]];
    }
  }

  lemma {:induction false} TotalIsBetween(scenarios: seq<Scenario>, low: real, high: real)
    requires forall s :: s in scenarios ==> low <= s.wallTime <= high
    ensures Times(low, |scenarios|) <= TotalTime(scenarios) <= Times(high, |scenarios|)
  {
    if scenarios != [] {
      var n := |scenarios| - 1;
      assert scenarios[n] in scenarios;
      TotalIsBetween(scenarios[..n], low, high);
    }
  }

  /** The mean latency lies between any bounds of the latencies. */
  lemma MeanIsBetween(scenarios: seq<Scenario>, low: real, high: real)
    requires scenarios != [] && forall s :: s in scenarios ==> low <= s.wallTime <= high
    ensures low <= SummaryOf(scenarios).meanLatency <= high
  {
    var n := |scenarios|;
    TotalIsBetween(scenarios, low, high);
    TimesIsProduct(low, n);
    TimesIsProduct(high, n);
    QuotientAsProduct(TotalTime(scenarios), n as real, low);
    QuotientAsProduct(TotalTime(scenarios), n as real, high);
    hide TotalTime, Times;
  }

  // ---------------------------------------------------------------- merging

  /** Merged scenarios are those of the records, record after record, each in its order. */
  lemma {:induction false} MergingKeepsTheOrder(parts: seq<seq<Scenario>>, i: nat, j: nat)
    requires i < |parts| && j < |parts[i]|
    ensures |Concat(parts[..i])| + j < |Concat(parts)| && Concat(parts)[|Concat(parts[..i])| + j] == parts[i][j]
    decreases |parts|
  {
    var n := |parts| - 1;
    if i < n {
      MergingKeepsTheOrder(parts[..n], i, j);
      assert parts[..n][..i] == parts[..i];
    }
  }

  /** Nothing else gets in. */
  lemma {:induction false} MergingAddsNothing(parts: seq<seq<Scenario>>, s: Scenario)
    ensures s in Concat(parts) <==> exists part :: part in parts && s in part
  {
    if parts != [] {
      var n := |parts| - 1;
      MergingAddsNothing(parts[..n], s);
      assert parts == parts[..n] + [parts[n]];
    }
  }

  // ---------------------------------------------------------------- the gate

  /** Both runs measured it, and it did not grow past the ratio. */
  predicate GrewWithin(before: Option<int>, after: Option<int>, ratio: real) {
    match (before, after)
    case (Some(b), Some(a)) => b as real * ratio >= a as real
    case _ => false
  }

  lemma SameTargetsExactly(a: seq<Scenario>, b: seq<Scenario>)
    ensures Targets(a) == Targets(b) <==>
      |a| == |b| && forall i :: 0 <= i < |a| ==> a[i].kind == b[i].kind && a[i].url == b[i].url
  {
    if Targets(a) == Targets(b) {
      assert |Targets(a)| == |Targets(b)|;
      forall i | 0 <= i < |a| ensures a[i].kind == b[i].kind && a[i].url == b[i].url {
        assert Targets(a)[i] == Targets(b)[i];
      }
    }
  }

  lemma OnlyReleaseExactly(summary: Summary, expected: string)
    requires expected != ""
    ensures ReleaseIds(summary) == {expected} <==>
      && (exists r :: r in summary.releases && r.id == expected)
      && (forall r :: r in summary.releases ==> r.id == "" || r.id == expected)
  {
    var ids := ReleaseIds(summary);
    if ids == {expected} {
      assert expected in ids;
      forall r | r in summary.releases && r.id != "" ensures r.id == expected {
        assert r.id in ids;
      }
    }
  }

  /** The gate passes exactly when scenarios, sources and releases agree and every number is within its tolerance. */
  lemma PassesExactly(before: Record, after: Record, t: Tolerance, expectedRelease: Option<string>)
    ensures var b, a := before.summary, after.summary;
      Passes(before, after, t, expectedRelease) <==>
      && |after.scenarios| == |before.scenarios|
      && (forall i :: 0 <= i < |after.scenarios| ==>
            && after.scenarios[i].kind == before.scenarios[i].kind && after.scenarios[i].url == before.scenarios[i].url)
      && a.sources == b.sources
      && b.successRate - a.successRate <= t.successDrop
      && a.fallbackRate - b.fallbackRate <= t.fallbackIncrease
      && a.challengeRate - b.challengeRate <= t.challengeIncrease
      && b.recoveryRate <= a.recoveryRate && a.cleanupFailures == 0
      && a.meanLatency <= b.meanLatency * t.latencyRatio
      && GrewWithin(b.maxMemory, a.maxMemory, t.resourceRatio) && GrewWithin(b.maxPids, a.maxPids, t.resourceRatio)
      && (expectedRelease.Some? && expectedRelease.value != "" ==>
            && (exists r :: r in a.releases && r.id == expectedRelease.value)
            && (forall r :: r in a.releases ==> r.id == "" || r.id == expectedRelease.value))
  {
    SameTargetsExactly(after.scenarios, before.scenarios);
    if ExpectsRelease(expectedRelease) {
      OnlyReleaseExactly(after.summary, expectedRelease.value);
    }
    hide Targets, ReleaseIds;
  }

  lemma Stretch(x: real, ratio: real)
    requires x >= 0.0 && ratio >= 1.0
    ensures x <= x * ratio
  {
  }

  /** A clean and measured run passes against itself, whatever is tolerated. */
  lemma ARunPassesAgainstItself(record: Record, t: Tolerance)
    requires t.successDrop >= 0.0 && t.fallbackIncrease >= 0.0 && t.challengeIncrease >= 0.0
    requires t.latencyRatio >= 1.0 && t.resourceRatio >= 1.0
    requires var s := record.summary;
      && s.cleanupFailures == 0 && s.meanLatency >= 0.0
      && s.maxMemory.Some? && s.maxMemory.value >= 0 && s.maxPids.Some? && s.maxPids.value >= 0
    ensures Passes(record, record, t, None)
  {
    PassesExactly(record, record, t, None);
    Stretch(record.summary.meanLatency, t.latencyRatio);
    Stretch(record.summary.maxMemory.value as real, t.resourceRatio);
    Stretch(record.summary.maxPids.value as real, t.resourceRatio);
    hide Passes;
  }
}
