/** Success and challenge history per domain: counters that are pruned after a period of silence. */
module DomainHistory {
  import opened Wrappers

  datatype Settings = Settings(historyTtl: int, cooldown: int, cooldownCap: int)

  datatype History = History(
    successes: nat,
    failures: nat,
    challenges: nat,
    fallbackSuccesses: nat,
    lastEngine: Option<string>,
    lastChallenge: Option<string>,
    cooldownUntil: real,
    lastSuccessAt: Option<real>,
    updatedAt: real,
    engineSuccesses: map<string, nat>,
    engineFailures: map<string, nat>,
    strategySuccesses: map<string, nat>)

  const BLANK := History(0, 0, 0, 0, None, None, 0.0, None, 0.0, map[], map[], map[])

  datatype Report = Report(
    now: real,
    domain: string,
    engine: string,
    success: bool,
    challenge: string,
    fallback: bool,
    cooldown: Option<int>)

  datatype Event = Record(report: Report) | Prune(now: real)

  type Table = map<string, History>

  function Get(m: map<string, nat>, key: string): nat {
    if key in m then m[key] else 0
  }

  function Bump(m: map<string, nat>, key: string): map<string, nat> {
    m[key := Get(m, key) + 1]
  }

  predicate StaleEntry(s: Settings, item: History, now: real) {
    item.updatedAt != 0.0 && now - item.updatedAt >= s.historyTtl as real
  }

  function Pruned(s: Settings, table: Table, now: real): Table {
    map d | d in table && !StaleEntry(s, table[d], now) :: table[d]
  }

  function Strategy(r: Report): string {
    if r.fallback then "fallback" else "primary"
  }

  function Cooldown(s: Settings, r: Report): int {
    var requested := if r.cooldown.Some? then r.cooldown.value else s.cooldown;
    Min(Max(s.cooldown, requested), Max(s.cooldown, s.cooldownCap))
  }

  function Counted(item: History, r: Report): History {
    if r.success then
      item.(successes := item.successes + 1, lastSuccessAt := Some(r.now),
            engineSuccesses := Bump(item.engineSuccesses, r.engine),
            strategySuccesses := Bump(item.strategySuccesses, Strategy(r)),
            fallbackSuccesses := item.fallbackSuccesses + if r.fallback then 1 else 0)
    else
      item.(failures := item.failures + 1, engineFailures := Bump(item.engineFailures, r.engine))
  }

  function Challenge(s: Settings, item: History, r: Report): History {
    if r.challenge == "none" then item
    else
      item.(challenges := item.challenges + 1, lastChallenge := Some(r.challenge),
            cooldownUntil := r.now + Cooldown(s, r) as real)
  }

  function Updated(s: Settings, item: History, r: Report): History {
    Challenge(s, Counted(item, r), r).(updatedAt := r.now, lastEngine := Some(r.engine))
  }

  function Apply(s: Settings, table: Table, e: Event): Table {
    match e
    case Prune(now) => Pruned(s, table, now)
    case Record(r) =>
      var kept := Pruned(s, table, r.now);
      kept[r.domain := Updated(s, if r.domain in kept then kept[r.domain] else BLANK, r)]
  }

  class DomainHistoryStore {
    const settings: Settings
    var history: Table

    constructor (configured: Settings)
      ensures history == map[]
      ensures settings.historyTtl == if configured.historyTtl < 300 then 300 else configured.historyTtl
      ensures settings.cooldown == if configured.cooldown < 1 then 1 else configured.cooldown
      ensures settings.cooldownCap == configured.cooldownCap
    {
      settings := Settings(Max(300, configured.historyTtl), Max(1, configured.cooldown), configured.cooldownCap);
      history := map[];
    }

    method PruneAt(now: real) returns (dropped: nat)
      modifies this
      ensures history == Apply(settings, old(history), Prune(now))
      ensures dropped == |old(history).Keys - history.Keys|
    {
      var stale := set d | d in history && StaleEntry(settings, history[d], now);
      history := map d | d in history && d !in stale :: history[d];
      assert old(history).Keys - history.Keys == stale;
      dropped := |stale|;
    }

    method Lookup(domain: string, now: real) returns (item: Option<History>)
      modifies this
      ensures history == Apply(settings, old(history), Prune(now))
      ensures item == if domain in history then Some(history[domain]) else None
    {
      var _ := PruneAt(now);
      return if domain in history then Some(history[domain]) else None;
    }

    method CountOutcome(before: History, r: Report) returns (item: History)
      ensures item == Counted(before, r)
    {
      item := before;
      if r.success {
        item := item.(successes := item.successes + 1, lastSuccessAt := Some(r.now));
        item := item.(engineSuccesses := Bump(item.engineSuccesses, r.engine));
        var strategy := if r.fallback then "fallback" else "primary";
        item := item.(strategySuccesses := Bump(item.strategySuccesses, strategy));
        if r.fallback {
          item := item.(fallbackSuccesses := item.fallbackSuccesses + 1);
        }
      } else {
        item := item.(failures := item.failures + 1);
        item := item.(engineFailures := Bump(item.engineFailures, r.engine));
      }
    }

    method NoteChallenge(before: History, r: Report) returns (item: History)
      ensures item == Challenge(settings, before, r)
    {
      item := before;
      if r.challenge != "none" {
        item := item.(challenges := item.challenges + 1, lastChallenge := Some(r.challenge));
        var requested := if r.cooldown.Some? then r.cooldown.value else settings.cooldown;
        var cap := Max(settings.cooldown, settings.cooldownCap);
        item := item.(cooldownUntil := r.now + Min(Max(settings.cooldown, requested), cap) as real);
      }
    }

    method RecordOutcome(r: Report)
      modifies this
      ensures history == Apply(settings, old(history), Record(r))
    {
      var _ := PruneAt(r.now);
      var item := if r.domain in history then history[r.domain] else BLANK;
      item := CountOutcome(item, r);
      item := NoteChallenge(item, r);
      history := history[r.domain := item.(updatedAt := r.now, lastEngine := Some(r.engine))];
    }
  }

  // ---------------------------------------------------------------- the reports an entry stands for

  function After(s: Settings, events: seq<Event>): Table {
    if events == [] then map[]
    else Apply(s, After(s, events[..|events| - 1]), events[|events| - 1])
  }

  function TimeOf(e: Event): real {
    match e case Record(r) => r.now case Prune(now) => now
  }

  /** The reports on `domain` since its entry was last (re)created. */
  function Live(s: Settings, events: seq<Event>, domain: string): seq<Report> {
    if events == [] then []
    else
      var e := events[|events| - 1];
      var before := Live(s, events[..|events| - 1], domain);
      var silent := before != [] && before[|before| - 1].now != 0.0
        && TimeOf(e) - before[|before| - 1].now >= s.historyTtl as real;
      (if silent then [] else before) + if e.Record? && e.report.domain == domain then [e.report] else []
  }

  datatype Kind =
    | Success
    | Failure
    | Challenged
    | FallbackSuccess
    | EngineSuccess(engine: string)
    | EngineFailure(engine: string)
    | StrategySuccess(strategy: string)

  predicate IsOf(r: Report, kind: Kind) {
    match kind
    case Success => r.success
    case Failure => !r.success
    case Challenged => r.challenge != "none"
    case FallbackSuccess => r.success && r.fallback
    case EngineSuccess(engine) => r.success && r.engine == engine
    case EngineFailure(engine) => !r.success && r.engine == engine
    case StrategySuccess(strategy) => r.success && Strategy(r) == strategy
  }

  function CountOf(reports: seq<Report>, kind: Kind): nat {
    if reports == [] then 0
    else
      var n := |reports| - 1;
      CountOf(reports[..n], kind) + if IsOf(reports[n], kind) then 1 else 0
  }

  function LastOf(reports: seq<Report>, kind: Kind): Option<Report> {
    if reports == [] then None
    else
      var n := |reports| - 1;
      if IsOf(reports[n], kind) then Some(reports[n]) else LastOf(reports[..n], kind)
  }

  /** Every total counts its kind of report, and every `last` field tells of the last such report. */
  predicate Totals(s: Settings, item: History, reports: seq<Report>) {
    && reports != []
    && item.successes == CountOf(reports, Success)
    && item.failures == CountOf(reports, Failure)
    && item.challenges == CountOf(reports, Challenged)
    && item.fallbackSuccesses == CountOf(reports, FallbackSuccess)
    && item.lastEngine == Some(reports[|reports| - 1].engine)
    && item.updatedAt == reports[|reports| - 1].now
    && item.lastSuccessAt == (match LastOf(reports, Success) case None => None case Some(r) => Some(r.now))
    && item.lastChallenge == (match LastOf(reports, Challenged) case None => None case Some(r) => Some(r.challenge))
    && item.cooldownUntil ==
         (match LastOf(reports, Challenged) case None => 0.0 case Some(r) => r.now + Cooldown(s, r) as real)
  }

  ghost predicate Breakdowns(item: History, reports: seq<Report>) {
    && (forall e :: Get(item.engineSuccesses, e) == CountOf(reports, EngineSuccess(e)))
    && (forall e :: Get(item.engineFailures, e) == CountOf(reports, EngineFailure(e)))
    && (forall t :: Get(item.strategySuccesses, t) == CountOf(reports, StrategySuccess(t)))
  }

  lemma OneMoreReport(reports: seq<Report>, r: Report, kind: Kind)
    ensures CountOf(reports + [r], kind) == CountOf(reports, kind) + if IsOf(r, kind) then 1 else 0
    ensures LastOf(reports + [r], kind) == if IsOf(r, kind) then Some(r) else LastOf(reports, kind)
  {
    assert (reports + [r])[..|reports|] == reports;
  }

  lemma TotalsFollow(s: Settings, item: History, reports: seq<Report>, r: Report)
    requires if reports == [] then item == BLANK else Totals(s, item, reports)
    ensures Totals(s, Updated(s, item, r), reports + [r])
  {
    OneMoreReport(reports, r, Success);
    OneMoreReport(reports, r, Failure);
    OneMoreReport(reports, r, Challenged);
    OneMoreReport(reports, r, FallbackSuccess);
  }

  lemma SuccessesFollow(item: History, reports: seq<Report>, r: Report, e: string)
    requires Get(item.engineSuccesses, e) == CountOf(reports, EngineSuccess(e))
    ensures Get(Counted(item, r).engineSuccesses, e) == CountOf(reports + [r], EngineSuccess(e))
  {
    OneMoreReport(reports, r, EngineSuccess(e));
  }

  lemma FailuresFollow(item: History, reports: seq<Report>, r: Report, e: string)
    requires Get(item.engineFailures, e) == CountOf(reports, EngineFailure(e))
    ensures Get(Counted(item, r).engineFailures, e) == CountOf(reports + [r], EngineFailure(e))
  {
    OneMoreReport(reports, r, EngineFailure(e));
  }

  lemma EngineBreakdownFollows(item: History, reports: seq<Report>, r: Report)
    requires if reports == [] then item == BLANK else Breakdowns(item, reports)
    ensures var item' := Counted(item, r);
      && (forall e :: Get(item'.engineSuccesses, e) == CountOf(reports + [r], EngineSuccess(e)))
      && (forall e :: Get(item'.engineFailures, e) == CountOf(reports + [r], EngineFailure(e)))
  {
    var item' := Counted(item, r);
    forall e ensures Get(item'.engineSuccesses, e) == CountOf(reports + [r], EngineSuccess(e)) {
      SuccessesFollow(item, reports, r, e);
    }
    forall e ensures Get(item'.engineFailures, e) == CountOf(reports + [r], EngineFailure(e)) {
      FailuresFollow(item, reports, r, e);
    }
  }

  lemma StrategyBreakdownFollows(item: History, reports: seq<Report>, r: Report)
    requires if reports == [] then item == BLANK else Breakdowns(item, reports)
    ensures forall t :: Get(Counted(item, r).strategySuccesses, t) == CountOf(reports + [r], StrategySuccess(t))
  {
    forall t ensures Get(Counted(item, r).strategySuccesses, t) == CountOf(reports + [r], StrategySuccess(t)) {
      OneMoreReport(reports, r, StrategySuccess(t));
    }
  }

  lemma BreakdownsFollow(s: Settings, item: History, reports: seq<Report>, r: Report)
    requires if reports == [] then item == BLANK else Breakdowns(item, reports)
    ensures Breakdowns(Updated(s, item, r), reports + [r])
  {
    EngineBreakdownFollows(item, reports, r);
    StrategyBreakdownFollows(item, reports, r);
  }

  /** After any events, the table has an entry exactly for the domains with live reports, and it describes them. */
  lemma {:induction false} EntriesDescribeLiveReports(s: Settings, events: seq<Event>, domain: string)
    ensures domain in After(s, events) <==> Live(s, events, domain) != []
    ensures domain in After(s, events) ==>
      && Totals(s, After(s, events)[domain], Live(s, events, domain))
      && Breakdowns(After(s, events)[domain], Live(s, events, domain))
  {
    if events != [] {
      var prefix, e := events[..|events| - 1], events[|events| - 1];
      EntriesDescribeLiveReports(s, prefix, domain);
      var live := Live(s, prefix, domain);
      var kept := Pruned(s, After(s, prefix), TimeOf(e));
      if e.Record? && e.report.domain == domain {
        var item, reports := if domain in kept then kept[domain] else BLANK, if domain in kept then live else [];
        TotalsFollow(s, item, reports, e.report);
        BreakdownsFollow(s, item, reports, e.report);
        assert Live(s, events, domain) == reports + [e.report];
      } else {
        assert Live(s, events, domain) == (if domain in kept then live else []);
      }
    }
  }

  // ---------------------------------------------------------------- sums

  ghost function Sum(m: map<string, nat>): nat {
    if m == map[] then 0 else
      var k :| k in m;
      m[k] + Sum(m - {k})
  }

  lemma {:induction false} SumWithout(m: map<string, nat>, k: string)
    requires k in m
    ensures Sum(m) == m[k] + Sum(m - {k})
    decreases |m|
  {
    var j :| j in m && Sum(m) == m[j] + Sum(m - {j});
    if j != k {
      SumWithout(m - {j}, k);
      SumWithout(m - {k}, j);
      assert m - {j} - {k} == m - {k} - {j};
    }
  }

  lemma SumOfBump(m: map<string, nat>, k: string)
    ensures Sum(Bump(m, k)) == Sum(m) + 1
  {
    SumWithout(Bump(m, k), k);
    if k in m {
      SumWithout(m, k);
      assert Bump(m, k) - {k} == m - {k};
    } else {
      assert Bump(m, k) - {k} == m;
    }
  }

  ghost predicate Balanced(item: History) {
    && Sum(item.engineSuccesses) == item.successes == Sum(item.strategySuccesses)
    && Sum(item.engineFailures) == item.failures
    && item.fallbackSuccesses == Get(item.strategySuccesses, "fallback")
  }

  lemma UpdateBalances(s: Settings, item: History, r: Report)
    requires Balanced(item)
    ensures Balanced(Updated(s, item, r))
  {
    SumOfBump(item.engineSuccesses, r.engine);
    SumOfBump(item.engineFailures, r.engine);
    SumOfBump(item.strategySuccesses, Strategy(r));
  }

  lemma {:induction false} EntriesAreBalanced(s: Settings, events: seq<Event>, domain: string)
    requires domain in After(s, events)
    ensures Balanced(After(s, events)[domain])
  {
    var prefix, e := events[..|events| - 1], events[|events| - 1];
    var kept := Pruned(s, After(s, prefix), TimeOf(e));
    if domain in After(s, prefix) {
      EntriesAreBalanced(s, prefix, domain);
    }
    if e.Record? && e.report.domain == domain {
      UpdateBalances(s, if domain in kept then kept[domain] else BLANK, e.report);
    }
  }

  lemma {:induction false} OutcomesPartitionReports(reports: seq<Report>)
    ensures CountOf(reports, Success) + CountOf(reports, Failure) == |reports|
  {
    if reports != [] {
      OutcomesPartitionReports(reports[..|reports| - 1]);
    }
  }

  /** Outcomes add up to the live reports, and every breakdown adds up to its total. */
  lemma CountersAddUp(s: Settings, events: seq<Event>, domain: string)
    requires domain in After(s, events)
    ensures var item := After(s, events)[domain];
      && item.successes + item.failures == |Live(s, events, domain)|
      && Sum(item.engineSuccesses) == item.successes == Sum(item.strategySuccesses)
      && Sum(item.engineFailures) == item.failures
      && item.fallbackSuccesses == Get(item.strategySuccesses, "fallback")
  {
    EntriesDescribeLiveReports(s, events, domain);
    OutcomesPartitionReports(Live(s, events, domain));
    EntriesAreBalanced(s, events, domain);
  }

  /** A challenge blocks its domain for at least the configured cooldown and never past the cap. */
  lemma CooldownIsBounded(s: Settings, events: seq<Event>, domain: string)
    requires domain in After(s, events)
    ensures var item := After(s, events)[domain];
      match LastOf(Live(s, events, domain), Challenged)
      case None => item.cooldownUntil == 0.0
      case Some(r) =>
        r.now + s.cooldown as real <= item.cooldownUntil <= r.now + Max(s.cooldown, s.cooldownCap) as real
  {
    EntriesDescribeLiveReports(s, events, domain);
  }

  /** A challenge blocks its domain for the time asked for, between the configured cooldown and the cap. */
  lemma CooldownExactly(s: Settings, events: seq<Event>, r: Report)
    requires r.challenge != "none"
    ensures r.domain in After(s, events + [Record(r)])
    ensures var blocked := After(s, events + [Record(r)])[r.domain].cooldownUntil - r.now;
      match r.cooldown
      case None => blocked == s.cooldown as real
      case Some(asked) =>
        if asked <= s.cooldown || s.cooldownCap <= s.cooldown then blocked == s.cooldown as real
        else if asked <= s.cooldownCap then blocked == asked as real
        else blocked == s.cooldownCap as real
  {
    assert (events + [Record(r)])[..|events|] == events;
  }

  /** The entry a report is added to: the one of its domain, unless that was silent for the history TTL. */
  predicate IsFresh(s: Settings, table: Table, domain: string, now: real) {
    domain in table && (table[domain].updatedAt == 0.0 || now < table[domain].updatedAt + s.historyTtl as real)
  }

  /** What one report does to the table: the fresh entries stay, and the one of its domain counts it. */
  lemma ReportsCountOnce(s: Settings, table: Table, r: Report)
    ensures var after := Apply(s, table, Record(r));
      && (forall d :: d != r.domain ==>
            (d in after <==> IsFresh(s, table, d, r.now)) && (d in after ==> after[d] == table[d]))
      && r.domain in after
      && var before := if IsFresh(s, table, r.domain, r.now) then table[r.domain] else BLANK;
         var item := after[r.domain];
         && item.successes == before.successes + (if r.success then 1 else 0)
         && item.failures == before.failures + (if r.success then 0 else 1)
         && item.challenges == before.challenges + (if r.challenge == "none" then 0 else 1)
         && item.fallbackSuccesses == before.fallbackSuccesses + (if r.success && r.fallback then 1 else 0)
         && item.lastSuccessAt == (if r.success then Some(r.now) else before.lastSuccessAt)
         && item.lastChallenge == (if r.challenge == "none" then before.lastChallenge else Some(r.challenge))
         && item.lastEngine == Some(r.engine) && item.updatedAt == r.now
  {
  }

  lemma BreakdownsCountOnce(s: Settings, table: Table, r: Report, key: string)
    requires r.domain in Apply(s, table, Record(r))
    ensures var before := if IsFresh(s, table, r.domain, r.now) then table[r.domain] else BLANK;
      var item := Apply(s, table, Record(r))[r.domain];
      && Get(item.engineSuccesses, key) ==
           Get(before.engineSuccesses, key) + (if r.success && key == r.engine then 1 else 0)
      && Get(item.engineFailures, key) ==
           Get(before.engineFailures, key) + (if !r.success && key == r.engine then 1 else 0)
      && Get(item.strategySuccesses, key) ==
           Get(before.strategySuccesses, key)
           + (if r.success && key == (if r.fallback then "fallback" else "primary") then 1 else 0)
  {
  }
}
