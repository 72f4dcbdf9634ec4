/**
 * Pacing of navigation starts.  One timing lock serialises all visits, so a run is a sequence of
 * visits; `now` and `wake` are the two clock readings of a visit.
 */
module DomainPacing {
  import opened Wrappers

  datatype Visit = Visit(domain: string, requested: Option<real>, now: real, wake: real, cancelled: bool)

  type Starts = map<string, real>

  function Interval(minimum: real, requested: Option<real>): real {
    MaxReal(minimum, if requested.None? || requested.value == 0.0 then minimum else requested.value)
  }

  function Delay(minimum: real, last: Starts, v: Visit): real {
    Interval(minimum, v.requested) - (v.now - if v.domain in last then last[v.domain] else 0.0)
  }

  /** Cancellation can only strike the sleep. */
  predicate Records(minimum: real, last: Starts, v: Visit) {
    !(Delay(minimum, last, v) > 0.0 && v.cancelled)
  }

  /** The clock does not run backwards within a visit, and sleep(d) advances it by at least d. */
  predicate ClockHonest(minimum: real, last: Starts, v: Visit) {
    v.wake >= v.now && (Delay(minimum, last, v) > 0.0 ==> v.wake >= v.now + Delay(minimum, last, v))
  }

  function Paced(minimum: real, last: Starts, v: Visit): Starts {
    if Records(minimum, last, v) then last[v.domain := v.wake] else last
  }

  class Pacer {
    const minimumInterval: real
    var lastStarted: Starts

    constructor (configured: real)
      ensures minimumInterval == (if configured >= 0.0 then configured else 0.0) && lastStarted == map[]
    {
      minimumInterval, lastStarted := MaxReal(0.0, configured), map[];
    }

    /** The section under the timing lock; `started` is false when the sleep was cancelled. */
    method Pace(v: Visit) returns (started: bool)
      modifies this
      ensures started == Records(minimumInterval, old(lastStarted), v)
      ensures lastStarted == Paced(minimumInterval, old(lastStarted), v)
    {
      var requestedInterval := MaxReal(minimumInterval,
        if v.requested.None? || v.requested.value == 0.0 then minimumInterval else v.requested.value);
      var last := if v.domain in lastStarted then lastStarted[v.domain] else 0.0;
      var delay := requestedInterval - (v.now - last);
      if delay > 0.0 && v.cancelled {
        return false;
      }
      lastStarted := lastStarted[v.domain := v.wake];
      return true;
    }
  }

  // ---------------------------------------------------------------- runs

  function LastAfter(minimum: real, visits: seq<Visit>): Starts {
    if visits == [] then map[]
    else Paced(minimum, LastAfter(minimum, visits[..|visits| - 1]), visits[|visits| - 1])
  }

  predicate AllHonest(minimum: real, visits: seq<Visit>) {
    visits == [] ||
    var n := |visits| - 1;
    AllHonest(minimum, visits[..n]) && ClockHonest(minimum, LastAfter(minimum, visits[..n]), visits[n])
  }

  /** The times of the starts recorded on one domain, in order. */
  function StartTimes(minimum: real, visits: seq<Visit>, domain: string): seq<real> {
    if visits == [] then []
    else
      var n := |visits| - 1;
      var v := visits[n];
      StartTimes(minimum, visits[..n], domain) +
      if v.domain == domain && Records(minimum, LastAfter(minimum, visits[..n]), v) then [v.wake] else []
  }

  lemma {:induction false} LastIsTheLastStart(minimum: real, visits: seq<Visit>, domain: string)
    ensures var times, last := StartTimes(minimum, visits, domain), LastAfter(minimum, visits);
      && (domain in last <==> times != [])
      && (domain in last ==> last[domain] == times[|times| - 1])
  {
    if visits != [] {
      LastIsTheLastStart(minimum, visits[..|visits| - 1], domain);
    }
  }

  /** A recorded start keeps its own requested distance, and the configured one, from the previous start. */
  lemma NextStartKeepsItsDistance(minimum: real, last: Starts, v: Visit)
    requires minimum >= 0.0 && ClockHonest(minimum, last, v) && Records(minimum, last, v) && v.domain in last
    ensures v.wake - last[v.domain] >= minimum
    ensures v.requested.Some? ==> v.wake - last[v.domain] >= v.requested.value
  {
  }

  /** A visit sleeps exactly while either interval is short; only then can it be cancelled. */
  lemma VisitsWaitExactly(minimum: real, last: Starts, v: Visit)
    requires minimum >= 0.0 && v.domain in last
    ensures var passed := v.now - last[v.domain];
      var short := passed < minimum || (v.requested.Some? && passed < v.requested.value);
      && (Delay(minimum, last, v) > 0.0 <==> short)
      && (Records(minimum, last, v) <==> !(short && v.cancelled))
  {
  }

  /** The sleep asked for ends exactly when the longer of both intervals has passed. */
  lemma SleepIsTheShortfall(minimum: real, last: Starts, v: Visit)
    requires minimum >= 0.0 && v.domain in last
    ensures var spaced := v.now + Delay(minimum, last, v) - last[v.domain];
      && spaced >= minimum && (v.requested.Some? ==> spaced >= v.requested.value)
      && (spaced == minimum || (v.requested.Some? && spaced == v.requested.value))
  {
  }

  /** On a domain without a start, time is measured from zero. */
  lemma FirstVisitWaitsExactly(minimum: real, last: Starts, v: Visit)
    requires minimum >= 0.0 && v.domain !in last
    ensures Delay(minimum, last, v) > 0.0 <==> v.now < minimum || (v.requested.Some? && v.now < v.requested.value)
  {
  }

  /** What the visits behind the recorded starts of a domain asked for, in order. */
  function Requests(minimum: real, visits: seq<Visit>, domain: string): seq<Option<real>> {
    if visits == [] then []
    else
      var n := |visits| - 1;
      var v := visits[n];
      Requests(minimum, visits[..n], domain) +
      if v.domain == domain && Records(minimum, LastAfter(minimum, visits[..n]), v) then [v.requested] else []
  }

  lemma NewestStartKeepsItsRequest(minimum: real, visits: seq<Visit>, v: Visit, domain: string)
    requires minimum >= 0.0 && AllHonest(minimum, visits + [v])
    requires |Requests(minimum, visits, domain)| == |StartTimes(minimum, visits, domain)|
    ensures var times, all := StartTimes(minimum, visits, domain), StartTimes(minimum, visits + [v], domain);
      var asked := Requests(minimum, visits + [v], domain);
      && |asked| == |all| && Requests(minimum, visits, domain) <= asked
      && (times != [] && |all| == |times| + 1 && asked[|times|].Some? ==>
           all[|times|] - times[|times| - 1] >= asked[|times|].value)
  {
    assert (visits + [v])[..|visits|] == visits;
    LastIsTheLastStart(minimum, visits, domain);
  }

  /** In every run, each start of a domain keeps the distance its own visit asked for from the one before. */
  lemma {:induction false} StartsKeepTheirRequests(minimum: real, visits: seq<Visit>, domain: string, i: nat)
    requires minimum >= 0.0 && AllHonest(minimum, visits)
    ensures |Requests(minimum, visits, domain)| == |StartTimes(minimum, visits, domain)|
    ensures 0 < i < |StartTimes(minimum, visits, domain)| ==>
      var times, asked := StartTimes(minimum, visits, domain), Requests(minimum, visits, domain);
      asked[i].Some? ==> times[i] - times[i - 1] >= asked[i].value
  {
    if visits != [] {
      var n := |visits| - 1;
      assert visits == visits[..n] + [visits[n]];
      StartsKeepTheirRequests(minimum, visits[..n], domain, i);
      NewestStartIsSpaced(minimum, visits[..n], visits[n], domain);
      NewestStartKeepsItsRequest(minimum, visits[..n], visits[n], domain);
    }
  }

  /** k intervals, one after the other. */
  function Intervals(k: nat, minimum: real): real {
    if k == 0 then 0.0 else Intervals(k - 1, minimum) + minimum
  }

  lemma {:induction false} IntervalsMultiply(k: nat, minimum: real)
    ensures Intervals(k, minimum) == k as real * minimum
  {
    if k > 0 {
      IntervalsMultiply(k - 1, minimum);
      assert k as real * minimum == (k - 1) as real * minimum + minimum;
    }
  }

  lemma NewestStartIsSpaced(minimum: real, visits: seq<Visit>, v: Visit, domain: string)
    requires AllHonest(minimum, visits + [v])
    ensures var times, all := StartTimes(minimum, visits, domain), StartTimes(minimum, visits + [v], domain);
      && times <= all && |all| <= |times| + 1
      && (times != [] && |all| == |times| + 1 ==> all[|times|] - times[|times| - 1] >= minimum)
  {
    assert (visits + [v])[..|visits|] == visits;
    LastIsTheLastStart(minimum, visits, domain);
  }

  lemma {:induction false} StartsAreIntervalsApart(minimum: real, visits: seq<Visit>, domain: string, i: nat, j: nat)
    requires AllHonest(minimum, visits)
    requires i <= j < |StartTimes(minimum, visits, domain)|
    ensures StartTimes(minimum, visits, domain)[j] - StartTimes(minimum, visits, domain)[i] >= Intervals(j - i, minimum)
  {
    var n := |visits| - 1;
    var before := StartTimes(minimum, visits[..n], domain);
    assert visits == visits[..n] + [visits[n]];
    NewestStartIsSpaced(minimum, visits[..n], visits[n], domain);
    if j < |before| {
      StartsAreIntervalsApart(minimum, visits[..n], domain, i, j);
    } else if i < j {
      StartsAreIntervalsApart(minimum, visits[..n], domain, i, j - 1);
    }
  }

  /**
   * Starts number i and j of one domain lie at least (j - i) minimum intervals apart, whatever
   * other domains and cancelled visits interleave.
   */
  lemma StartsAreSpaced(minimum: real, visits: seq<Visit>, domain: string, i: nat, j: nat)
    requires AllHonest(minimum, visits)
    requires i <= j < |StartTimes(minimum, visits, domain)|
    ensures var times := StartTimes(minimum, visits, domain);
      times[j] - times[i] >= (j - i) as real * minimum
  {
    StartsAreIntervalsApart(minimum, visits, domain, i, j);
    IntervalsMultiply(j - i, minimum);
  }
}
