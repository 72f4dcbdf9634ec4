/**
 * Rollout evidence: what a record summarises, how records merge, and what the gate that compares a
 * candidate with a baseline guarantees over a whole chain of rollouts.  Numbers are exact; the
 * rounding of printed latencies is not modelled.
 */
module RolloutGate {
  import opened Wrappers

  const SCHEMA := "agency.browser.rollout.v1"

  datatype Cleanup = Cleanup(closed: bool, ownerSessions: Option<int>, failures: int)

  /** What a runtime says of its release; `id` is "" when it does not say, `rest` is everything else. */
  datatype Release = Release(id: string, rest: string)

  datatype Scenario = Scenario(
    kind: string,
    url: string,
    passed: bool,
    wallTime: real,
    sessionlessEngine: Option<string>,
    retainedEngine: Option<string>,
    challenge: Option<string>,
    challengeRecovered: bool,
    cleanup: Option<Cleanup>,
    cgroupMemory: Option<int>,
    cgroupPids: Option<int>,
    treeMemory: Option<int>,
    treePids: Option<int>,
    release: Option<Release>)

  predicate Passed(s: Scenario) { s.passed }

  predicate UsedFallback(s: Scenario) {
    s.sessionlessEngine == Some("scrapling") || s.retainedEngine == Some("scrapling")
  }

  predicate Challenged(s: Scenario) { s.challenge.Some? && s.challenge.value != "none" }

  predicate Recovered(s: Scenario) { Challenged(s) && s.challengeRecovered }

  predicate LeftBehind(s: Scenario) {
    s.cleanup.Some? &&
    (!s.cleanup.value.closed || s.cleanup.value.ownerSessions != Some(0) || s.cleanup.value.failures > 0)
  }

  /** Container counters count only when both are there. */
  predicate FromCgroup(s: Scenario) { s.cgroupMemory.Some? && s.cgroupPids.Some? }

  function Memory(s: Scenario): Option<int> { if FromCgroup(s) then s.cgroupMemory else s.treeMemory }

  function Pids(s: Scenario): Option<int> { if FromCgroup(s) then s.cgroupPids else s.treePids }

  function Source(s: Scenario): string { if FromCgroup(s) then "cgroup" else "process_tree" }

  datatype Summary = Summary(
    samples: nat,
    successes: nat,
    successRate: real,
    meanLatency: real,
    maxLatency: real,
    fallbacks: nat,
    fallbackRate: real,
    challenges: nat,
    challengeRate: real,
    recoveryRate: real,
    cleanupFailures: nat,
    maxMemory: Option<int>,
    maxPids: Option<int>,
    sources: set<string>,
    releases: seq<Release>)

  // ---------------------------------------------------------------- what a summary should say

  function CountIf(scenarios: seq<Scenario>, p: Scenario -> bool): nat {
    if scenarios == [] then 0
    else CountIf(scenarios[..|scenarios| - 1], p) + if p(scenarios[|scenarios| - 1]) then 1 else 0
  }

  function Larger(a: Option<int>, b: Option<int>): Option<int> {
    if a.None? then b else if b.None? then a else Some(Max(a.value, b.value))
  }

  function MaxOf(scenarios: seq<Scenario>, f: Scenario -> Option<int>): Option<int> {
    if scenarios == [] then None
    else Larger(MaxOf(scenarios[..|scenarios| - 1], f), f(scenarios[|scenarios| - 1]))
  }

  function TotalTime(scenarios: seq<Scenario>): real {
    if scenarios == [] then 0.0
    else TotalTime(scenarios[..|scenarios| - 1]) + scenarios[|scenarios| - 1].wallTime
  }

  function LongestTime(scenarios: seq<Scenario>): real {
    if |scenarios| == 0 then 0.0
    else if |scenarios| == 1 then scenarios[0].wallTime
    else MaxReal(LongestTime(scenarios[..|scenarios| - 1]), scenarios[|scenarios| - 1].wallTime)
  }

  function Sources(scenarios: seq<Scenario>): set<string> {
    set s | s in scenarios :: Source(s)
  }

  function WithRelease(releases: seq<Release>, release: Option<Release>): seq<Release> {
    if release.Some? && release.value !in releases then releases + [release.value] else releases
  }

  /** The releases seen, each once, in the order of their first appearance. */
  function Releases(scenarios: seq<Scenario>): seq<Release> {
    if scenarios == [] then []
    else WithRelease(Releases(scenarios[..|scenarios| - 1]), scenarios[|scenarios| - 1].release)
  }

  function Rate(part: nat, whole: nat, otherwise: real): real {
    if whole == 0 then otherwise else part as real / whole as real
  }

  function Mean(total: real, n: nat): real {
    if n == 0 then 0.0 else total / n as real
  }

  function MeanTime(scenarios: seq<Scenario>): real { Mean(TotalTime(scenarios), |scenarios|) }

  function SummaryOf(scenarios: seq<Scenario>): Summary {
    var n := |scenarios|;
    var challenges := CountIf(scenarios, Challenged);
    Summary(
      n,
      CountIf(scenarios, Passed),
      Rate(CountIf(scenarios, Passed), n, 0.0),
      MeanTime(scenarios),
      LongestTime(scenarios),
      CountIf(scenarios, UsedFallback),
      Rate(CountIf(scenarios, UsedFallback), n, 0.0),
      challenges,
      Rate(challenges, n, 0.0),
      Rate(CountIf(scenarios, Recovered), challenges, 1.0),
      CountIf(scenarios, LeftBehind),
      MaxOf(scenarios, Memory),
      MaxOf(scenarios, Pids),
      Sources(scenarios),
      Releases(scenarios))
  }

  /** The counters of the loop over scenarios. */
  datatype Tally = Tally(
    passed: nat,
    fallbacks: nat,
    challenges: nat,
    recovered: nat,
    leftBehind: nat,
    time: real,
    longest: real,
    memory: Option<int>,
    pids: Option<int>,
    sources: set<string>,
    releases: seq<Release>)

  function TallyOf(scenarios: seq<Scenario>): Tally {
    Tally(
      CountIf(scenarios, Passed), CountIf(scenarios, UsedFallback), CountIf(scenarios, Challenged),
      CountIf(scenarios, Recovered), CountIf(scenarios, LeftBehind), TotalTime(scenarios), LongestTime(scenarios),
      MaxOf(scenarios, Memory), MaxOf(scenarios, Pids), Sources(scenarios), Releases(scenarios))
  }

  /** One more scenario counts where it should and nowhere else. */
  ghost predicate Tallied(before: Tally, earlier: nat, s: Scenario, t: Tally) {
    && t.passed == before.passed + (if Passed(s) then 1 else 0)
    && t.fallbacks == before.fallbacks + (if UsedFallback(s) then 1 else 0)
    && t.challenges == before.challenges + (if Challenged(s) then 1 else 0)
    && t.recovered == before.recovered + (if Recovered(s) then 1 else 0)
    && t.leftBehind == before.leftBehind + (if LeftBehind(s) then 1 else 0)
    && t.time == before.time + s.wallTime
    && t.longest == (if earlier == 0 then s.wallTime else MaxReal(before.longest, s.wallTime))
    && t.memory == Larger(before.memory, Memory(s)) && t.pids == Larger(before.pids, Pids(s))
    && t.sources == before.sources + {Source(s)}
    && t.releases == WithRelease(before.releases, s.release)
  }

  method TallyScenario(before: Tally, earlier: nat, s: Scenario) returns (t: Tally)
    ensures Tallied(before, earlier, s, t)
  {
    var passed := before.passed + if s.passed then 1 else 0;
    var longest := if earlier == 0 then s.wallTime else MaxReal(before.longest, s.wallTime);
    var fallbacks := before.fallbacks;
    if s.sessionlessEngine == Some("scrapling") || s.retainedEngine == Some("scrapling") {
      fallbacks := fallbacks + 1;
    }
    var challenges, recovered := before.challenges, before.recovered;
    if s.challenge.Some? && s.challenge.value != "none" {
      challenges := challenges + 1;
      if s.challengeRecovered {
        recovered := recovered + 1;
      }
    }
    var leftBehind := before.leftBehind;
    if s.cleanup.Some? {
      var cleanup := s.cleanup.value;
      if !cleanup.closed || cleanup.ownerSessions != Some(0) || cleanup.failures > 0 {
        leftBehind := leftBehind + 1;
      }
    }
    var memory, pids, source := s.cgroupMemory, s.cgroupPids, "cgroup";
    if memory.None? || pids.None? {
      memory, pids, source := s.treeMemory, s.treePids, "process_tree";
    }
    var releases := before.releases;
    if s.release.Some? && s.release.value !in releases {
      releases := releases + [s.release.value];
    }
    t := Tally(passed, fallbacks, challenges, recovered, leftBehind, before.time + s.wallTime, longest,
               Larger(before.memory, memory), Larger(before.pids, pids), before.sources + {source}, releases);
  }

  method Summarize(scenarios: seq<Scenario>) returns (summary: Summary)
    ensures summary == SummaryOf(scenarios)
  {
    var n := |scenarios|;
    var t := Tally(0, 0, 0, 0, 0, 0.0, 0.0, None, None, {}, []);
    for i := 0 to n
      invariant t == TallyOf(scenarios[..i])
    {
      ghost var before := t;
      t := TallyScenario(t, i, scenarios[i]);
      assert scenarios[..i + 1] == scenarios[..i] + [scenarios[i]];
      OneMoreTallied(scenarios[..i], before, scenarios[i], t);
    }
    assert scenarios[..n] == scenarios;
    summary := Summary(
      n, t.passed, Rate(t.passed, n, 0.0), Mean(t.time, n), t.longest,
      t.fallbacks, Rate(t.fallbacks, n, 0.0), t.challenges, Rate(t.challenges, n, 0.0),
      Rate(t.recovered, t.challenges, 1.0), t.leftBehind, t.memory, t.pids, t.sources, t.releases);
  }

  lemma OneMoreScenario(scenarios: seq<Scenario>, s: Scenario)
    ensures forall p: Scenario -> bool ::
      CountIf(scenarios + [s], p) == CountIf(scenarios, p) + if p(s) then 1 else 0
    ensures forall f: Scenario -> Option<int> :: MaxOf(scenarios + [s], f) == Larger(MaxOf(scenarios, f), f(s))
    ensures TotalTime(scenarios + [s]) == TotalTime(scenarios) + s.wallTime
    ensures LongestTime(scenarios + [s]) ==
      if scenarios == [] then s.wallTime else MaxReal(LongestTime(scenarios), s.wallTime)
    ensures Sources(scenarios + [s]) == Sources(scenarios) + {Source(s)}
    ensures Releases(scenarios + [s]) == WithRelease(Releases(scenarios), s.release)
  {
    assert (scenarios + [s])[..|scenarios|] == scenarios;
  }

  lemma OneMoreTallied(scenarios: seq<Scenario>, before: Tally, s: Scenario, t: Tally)
    requires before == TallyOf(scenarios) && Tallied(before, |scenarios|, s, t)
    ensures t == TallyOf(scenarios + [s])
  {
    OneMoreScenario(scenarios, s);
  }

  // ---------------------------------------------------------------- merging

  /** `summarised` is false when the summary is missing or no object; its value is then meaningless. */
  datatype Record = Record(schema: string, scenarios: seq<Scenario>, summarised: bool, summary: Summary)

  predicate IsRolloutRecord(record: Record) { record.schema == SCHEMA && record.summarised }

  function Concat(parts: seq<seq<Scenario>>): seq<Scenario> {
    if parts == [] then [] else Concat(parts[..|parts| - 1]) + parts[|parts| - 1]
  }

  datatype Error = NoRecords | NotARecord

  method MergeRecords(records: seq<Record>) returns (merged: Result<Record, Error>)
    ensures match merged
      case Err(NoRecords) => records == []
      case Err(NotARecord) => exists r :: r in records && !IsRolloutRecord(r)
      case Ok(record) =>
        && records != [] && (forall r :: r in records ==> IsRolloutRecord(r))
        && IsRolloutRecord(record) && record.summary == SummaryOf(record.scenarios)
        && record.scenarios == Concat(seq(|records|, i requires 0 <= i < |records| => records[i].scenarios))
  {
    if records == [] {
      return Err(NoRecords);
    }
    var scenarios: seq<Scenario> := [];
    ghost var parts := seq(|records|, i requires 0 <= i < |records| => records[i].scenarios);
    for i := 0 to |records|
      invariant forall k :: 0 <= k < i ==> IsRolloutRecord(records[k])
      invariant scenarios == Concat(parts[..i])
    {
      if !IsRolloutRecord(records[i]) {
        return Err(NotARecord);
      }
      assert parts[..i + 1][..i] == parts[..i];
      scenarios := scenarios + records[i].scenarios;
    }
    assert parts[..|records|] == parts;
    var summary := Summarize(scenarios);
    return Ok(Record(SCHEMA, scenarios, true, summary));
  }

  lemma {:induction false} CountOfBoth(a: seq<Scenario>, b: seq<Scenario>, p: Scenario -> bool)
    ensures CountIf(a + b, p) == CountIf(a, p) + CountIf(b, p)
  {
    if b == [] {
      assert a + b == a;
    } else {
      assert (a + b)[..|a + b| - 1] == a + b[..|b| - 1];
      CountOfBoth(a, b[..|b| - 1], p);
    }
  }

  lemma {:induction false} MaxOfBoth(a: seq<Scenario>, b: seq<Scenario>, f: Scenario -> Option<int>)
    ensures MaxOf(a + b, f) == Larger(MaxOf(a, f), MaxOf(b, f))
  {
    if b == [] {
      assert a + b == a;
    } else {
      assert (a + b)[..|a + b| - 1] == a + b[..|b| - 1];
      MaxOfBoth(a, b[..|b| - 1], f);
    }
  }

  lemma {:induction false} LongestOfBoth(a: seq<Scenario>, b: seq<Scenario>)
    ensures LongestTime(a + b) ==
      if a == [] then LongestTime(b) else if b == [] then LongestTime(a) else MaxReal(LongestTime(a), LongestTime(b))
  {
    if b == [] {
      assert a + b == a;
    } else if a == [] {
      assert a + b == b;
    } else {
      assert (a + b)[..|a + b| - 1] == a + b[..|b| - 1];
      LongestOfBoth(a, b[..|b| - 1]);
    }
  }

  function SetOf(releases: seq<Release>): set<Release> {
    set r | r in releases
  }

  lemma SetOfWithRelease(releases: seq<Release>, release: Option<Release>)
    ensures SetOf(WithRelease(releases, release)) == SetOf(releases) + if release.Some? then {release.value} else {}
  {
  }

  lemma {:induction false} ReleasesOfBoth(a: seq<Scenario>, b: seq<Scenario>)
    ensures SetOf(Releases(a + b)) == SetOf(Releases(a)) + SetOf(Releases(b))
    ensures Releases(a) <= Releases(a + b)
  {
    if b == [] {
      assert a + b == a;
    } else {
      var n := |b| - 1;
      assert (a + b)[..|a + b| - 1] == a + b[..n];
      ReleasesOfBoth(a, b[..n]);
      SetOfWithRelease(Releases(b[..n]), b[n].release);
      SetOfWithRelease(Releases(a + b[..n]), b[n].release);
    }
  }

  /** No release is listed twice, and exactly those the scenarios name are listed. */
  lemma {:induction false} ReleasesAreDistinct(scenarios: seq<Scenario>)
    ensures forall i, j :: 0 <= i < j < |Releases(scenarios)| ==> Releases(scenarios)[i] != Releases(scenarios)[j]
    ensures forall r :: r in Releases(scenarios) <==> exists s :: s in scenarios && s.release == Some(r)
  {
    if scenarios != [] {
      var n := |scenarios| - 1;
      ReleasesAreDistinct(scenarios[..n]);
      assert scenarios == scenarios[..n] + [scenarios[n]];
    }
  }

  lemma {:induction false} TimeOfBoth(a: seq<Scenario>, b: seq<Scenario>)
    ensures TotalTime(a + b) == TotalTime(a) + TotalTime(b)
  {
    if b == [] {
      assert a + b == a;
    } else {
      assert (a + b)[..|a + b| - 1] == a + b[..|b| - 1];
      TimeOfBoth(a, b[..|b| - 1]);
    }
  }

  lemma QuotientTimesWhole(part: real, whole: real)
    requires whole != 0.0
    ensures part / whole * whole == part
  {
  }

  lemma NoTimeInNothing(a: seq<Scenario>)
    ensures |a| == 0 ==> TotalTime(a) == 0.0
  {
  }

  lemma MeanTimesCount(total: real, n: nat)
    requires n == 0 ==> total == 0.0
    ensures Mean(total, n) * n as real == total
  {
    if n > 0 {
      QuotientTimesWhole(total, n as real);
    }
  }

  /** The mean latency of a merged record is the mean of its parts, weighted by their samples. */
  lemma MergedMeanIsWeighted(a: seq<Scenario>, b: seq<Scenario>)
    ensures MeanTime(a + b) * |a + b| as real == MeanTime(a) * |a| as real + MeanTime(b) * |b| as real
  {
    TimeOfBoth(a, b);
    NoTimeInNothing(a);
    NoTimeInNothing(b);
    NoTimeInNothing(a + b);
    hide Mean, TotalTime;
    MeanTimesCount(TotalTime(a), |a|);
    MeanTimesCount(TotalTime(b), |b|);
    MeanTimesCount(TotalTime(a + b), |a + b|);
  }

  /** A merged summary adds the counters and takes the larger of the maxima. */
  lemma MergingAddsCountersAndTakesMaxima(a: seq<Scenario>, b: seq<Scenario>)
    ensures var left, right, both := SummaryOf(a), SummaryOf(b), SummaryOf(a + b);
      && both.samples == left.samples + right.samples
      && both.successes == left.successes + right.successes
      && both.fallbacks == left.fallbacks + right.fallbacks
      && both.challenges == left.challenges + right.challenges
      && both.cleanupFailures == left.cleanupFailures + right.cleanupFailures
      && both.maxMemory == Larger(left.maxMemory, right.maxMemory)
      && both.maxPids == Larger(left.maxPids, right.maxPids)
      && both.sources == left.sources + right.sources
      && SetOf(both.releases) == SetOf(left.releases) + SetOf(right.releases) && left.releases <= both.releases
      && both.maxLatency == (if a == [] then right.maxLatency else if b == [] then left.maxLatency
                             else MaxReal(left.maxLatency, right.maxLatency))
  {
    LongestOfBoth(a, b);
    ReleasesOfBoth(a, b);
    CountOfBoth(a, b, Passed);
    CountOfBoth(a, b, UsedFallback);
    CountOfBoth(a, b, Challenged);
    CountOfBoth(a, b, LeftBehind);
    MaxOfBoth(a, b, Memory);
    MaxOfBoth(a, b, Pids);
  }

  /** `rate` bounds the share of `p` in every non-empty part from below. */
  ghost predicate SharesAtLeast(parts: seq<seq<Scenario>>, p: Scenario -> bool, rate: real) {
    forall i :: 0 <= i < |parts| && parts[i] != [] ==> Rate(CountIf(parts[i], p), |parts[i]|, 0.0) >= rate
  }

  ghost predicate SharesAtMost(parts: seq<seq<Scenario>>, p: Scenario -> bool, rate: real) {
    forall i :: 0 <= i < |parts| && parts[i] != [] ==> Rate(CountIf(parts[i], p), |parts[i]|, 0.0) <= rate
  }

  /** `rate` times `n`, by repeated addition. */
  function Times(rate: real, n: nat): real {
    if n == 0 then 0.0 else Times(rate, n - 1) + rate
  }

  lemma {:induction false} TimesIsProduct(rate: real, n: nat)
    ensures Times(rate, n) == rate * n as real
  {
    if n > 0 {
      TimesIsProduct(rate, n - 1);
      assert n as real == (n - 1) as real + 1.0;
      assert rate * n as real == rate * (n - 1) as real + rate;
    }
  }

  lemma {:induction false} TimesAdds(rate: real, a: nat, b: nat)
    ensures Times(rate, a + b) == Times(rate, a) + Times(rate, b)
  {
    if b > 0 {
      TimesAdds(rate, a, b - 1);
    }
  }

  lemma QuotientAsProduct(part: real, whole: real, rate: real)
    requires whole > 0.0
    ensures part / whole >= rate <==> part >= rate * whole
    ensures part / whole <= rate <==> part <= rate * whole
  {
    var x := part / whole;
    assert x * whole == part;
    if x >= rate {
      assert x * whole >= rate * whole;
    }
    if x <= rate {
      assert x * whole <= rate * whole;
    }
  }

  lemma ShareAsProduct(part: nat, whole: nat, rate: real)
    requires whole > 0
    ensures Rate(part, whole, 0.0) >= rate <==> part as real >= Times(rate, whole)
    ensures Rate(part, whole, 0.0) <= rate <==> part as real <= Times(rate, whole)
  {
    TimesIsProduct(rate, whole);
    QuotientAsProduct(part as real, whole as real, rate);
  }

  lemma {:induction false} PartsBoundTheWhole(parts: seq<seq<Scenario>>, p: Scenario -> bool, rate: real)
    ensures SharesAtLeast(parts, p, rate) ==> CountIf(Concat(parts), p) as real >= Times(rate, |Concat(parts)|)
    ensures SharesAtMost(parts, p, rate) ==> CountIf(Concat(parts), p) as real <= Times(rate, |Concat(parts)|)
  {
    if parts != [] {
      var n := |parts| - 1;
      var earlier, last := Concat(parts[..n]), parts[n];
      PartsBoundTheWhole(parts[..n], p, rate);
      CountOfBoth(earlier, last, p);
      TimesAdds(rate, |earlier|, |last|);
      if last != [] {
        ShareAsProduct(CountIf(last, p), |last|, rate);
      }
    }
  }

  /** The success rate of a merged record lies between the lowest and the highest of its parts. */
  lemma MergedSuccessRateIsBetween(parts: seq<seq<Scenario>>, low: real, high: real)
    requires Concat(parts) != []
    requires SharesAtLeast(parts, Passed, low) && SharesAtMost(parts, Passed, high)
    ensures low <= SummaryOf(Concat(parts)).successRate <= high
  {
    var all := Concat(parts);
    PartsBoundTheWhole(parts, Passed, low);
    PartsBoundTheWhole(parts, Passed, high);
    ShareAsProduct(CountIf(all, Passed), |all|, low);
    ShareAsProduct(CountIf(all, Passed), |all|, high);
  }

  // ---------------------------------------------------------------- the gate

  datatype Tolerance = Tolerance(
    successDrop: real,
    latencyRatio: real,
    resourceRatio: real,
    fallbackIncrease: real,
    challengeIncrease: real)

  datatype Check = Check(name: string, passed: bool)

  function Targets(scenarios: seq<Scenario>): seq<(string, string)> {
    seq(|scenarios|, i requires 0 <= i < |scenarios| => (scenarios[i].kind, scenarios[i].url))
  }

  function Measured(count: Option<int>): Option<real> {
    if count.None? then None else Some(count.value as real)
  }

  /** A metric that either side did not measure fails its check. */
  predicate WithinRatio(before: Option<real>, after: Option<real>, ratio: real) {
    before.Some? && after.Some? && after.value <= before.value * ratio
  }

  function ReleaseIds(summary: Summary): set<string> {
    set r | r in summary.releases && r.id != "" :: r.id
  }

  /** The runs are comparable, and latency and resources grew within their ratios. */
  predicate ComparableAndWithin(before: Record, after: Record, t: Tolerance) {
    var b, a := before.summary, after.summary;
    && Targets(after.scenarios) == Targets(before.scenarios)
    && a.sources == b.sources
    && a.successRate >= b.successRate - t.successDrop
    && WithinRatio(Some(b.meanLatency), Some(a.meanLatency), t.latencyRatio)
    && WithinRatio(Measured(b.maxMemory), Measured(a.maxMemory), t.resourceRatio)
    && WithinRatio(Measured(b.maxPids), Measured(a.maxPids), t.resourceRatio)
  }

  predicate RatesHold(before: Record, after: Record, t: Tolerance) {
    var b, a := before.summary, after.summary;
    && a.fallbackRate <= b.fallbackRate + t.fallbackIncrease
    && a.challengeRate <= b.challengeRate + t.challengeIncrease
    && a.recoveryRate >= b.recoveryRate
    && a.cleanupFailures == 0
  }

  predicate ExpectsRelease(expectedRelease: Option<string>) {
    expectedRelease.Some? && expectedRelease.value != ""
  }

  predicate Passes(before: Record, after: Record, t: Tolerance, expectedRelease: Option<string>) {
    && ComparableAndWithin(before, after, t) && RatesHold(before, after, t)
    && (ExpectsRelease(expectedRelease) ==> ReleaseIds(after.summary) == {expectedRelease.value})
  }

  const COMPARABLE_CHECKS :=
    ["same_scenarios", "same_resource_source", "success_rate", "mean_latency_ms", "memory_bytes", "pids"]
  const RATE_CHECKS := ["fallback_rate", "challenge_rate", "challenge_recovery_rate", "cleanup_failures"]
  const RELEASE_CHECK := "expected_release"

  function Names(checks: seq<Check>): seq<string> {
    seq(|checks|, i requires 0 <= i < |checks| => checks[i].name)
  }

  predicate AllPassed(checks: seq<Check>) {
    forall c :: c in checks ==> c.passed
  }

  method AddCheck(checks: seq<Check>, name: string, passed: bool) returns (more: seq<Check>)
    ensures more == checks + [Check(name, passed)] && Names(more) == Names(checks) + [name]
    ensures AllPassed(more) <==> AllPassed(checks) && passed
  {
    more := checks + [Check(name, passed)];
    assert passed ==> forall c :: c in more ==> c in checks || c == more[|checks|];
    assert more[|checks|] in more && forall c :: c in checks ==> c in more;
  }

  method AddRatioCheck(checks: seq<Check>, name: string, before: Option<real>, after: Option<real>, ratio: real)
    returns (more: seq<Check>)
    ensures more == checks + [Check(name, WithinRatio(before, after, ratio))] && Names(more) == Names(checks) + [name]
    ensures AllPassed(more) <==> AllPassed(checks) && WithinRatio(before, after, ratio)
  {
    if before.None? || after.None? {
      more := AddCheck(checks, name, false);
      return;
    }
    var maximum := before.value * ratio;
    more := AddCheck(checks, name, after.value <= maximum);
  }

  method CheckComparable(before: Record, after: Record, t: Tolerance) returns (checks: seq<Check>)
    ensures AllPassed(checks) <==> ComparableAndWithin(before, after, t)
    ensures Names(checks) == COMPARABLE_CHECKS
  {
    var b, a := before.summary, after.summary;
    checks := AddCheck([], "same_scenarios", Targets(after.scenarios) == Targets(before.scenarios));
    checks := AddCheck(checks, "same_resource_source", a.sources == b.sources);
    checks := AddCheck(checks, "success_rate", a.successRate >= b.successRate - t.successDrop);
    checks := AddRatioCheck(checks, "mean_latency_ms", Some(b.meanLatency), Some(a.meanLatency), t.latencyRatio);
    checks := AddRatioCheck(checks, "memory_bytes", Measured(b.maxMemory), Measured(a.maxMemory), t.resourceRatio);
    checks := AddRatioCheck(checks, "pids", Measured(b.maxPids), Measured(a.maxPids), t.resourceRatio);
  }

  method CheckRates(earlier: seq<Check>, before: Record, after: Record, t: Tolerance) returns (checks: seq<Check>)
    ensures AllPassed(checks) <==> AllPassed(earlier) && RatesHold(before, after, t)
    ensures Names(checks) == Names(earlier) + RATE_CHECKS
  {
    var b, a := before.summary, after.summary;
    checks := AddCheck(earlier, "fallback_rate", a.fallbackRate <= b.fallbackRate + t.fallbackIncrease);
    checks := AddCheck(checks, "challenge_rate", a.challengeRate <= b.challengeRate + t.challengeIncrease);
    checks := AddCheck(checks, "challenge_recovery_rate", a.recoveryRate >= b.recoveryRate);
    checks := AddCheck(checks, "cleanup_failures", a.cleanupFailures == 0);
  }

  /** The gate reports an error exactly on a foreign record, and passes exactly when every check it lists passed. */
  method CompareRecords(before: Record, after: Record, t: Tolerance, expectedRelease: Option<string>)
    returns (result: Result<(bool, seq<Check>), Error>)
    ensures result.Err? <==> !IsRolloutRecord(before) || !IsRolloutRecord(after)
    ensures result.Ok? ==>
      && (result.value.0 <==> Passes(before, after, t, expectedRelease))
      && (result.value.0 <==> AllPassed(result.value.1))
      && Names(result.value.1) ==
           COMPARABLE_CHECKS + RATE_CHECKS + if ExpectsRelease(expectedRelease) then [RELEASE_CHECK] else []
  {
    if !IsRolloutRecord(before) || !IsRolloutRecord(after) {
      return Err(NotARecord);
    }
    var checks := CheckComparable(before, after, t);
    checks := CheckRates(checks, before, after, t);
    if ExpectsRelease(expectedRelease) {
      checks := AddCheck(checks, RELEASE_CHECK, ReleaseIds(after.summary) == {expectedRelease.value});
    }
    var passed := AllPassed(checks);
    return Ok((passed, checks));
  }
}
