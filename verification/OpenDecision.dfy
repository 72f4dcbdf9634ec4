/**
 * Which answer an `open` call gives, as a function of what the engines do.
 *
 * Engines are foreign code: a Script says, for every engine this call may start, whether starting
 * it fails and otherwise how its navigation goes.
 */
module OpenDecision {
  import opened Wrappers

  /** `kind` None is the challenge kind "none". */
  datatype Challenge = Challenge(kind: Option<string>, retryable: bool, terminal: bool, humanAction: bool)

  datatype Cookie = Cookie(name: string, value: string, domain: string, path: string)
  datatype StorageItem = StorageItem(name: string, value: string)
  datatype Origin = Origin(url: string, items: seq<StorageItem>)
  datatype BrowserState = BrowserState(cookies: seq<Cookie>, origins: seq<Origin>)

  datatype Navigation =
    | Raises
    | Loaded(first: Challenge,
             recovery: Option<Challenge>,  // the second reading, when recovery reports success
             admitted: bool,               // whether the registry accepts the session, if it is asked to
             evicted: bool)                // whether another task pops the new record right away

  datatype Attempt = StartFails | Started(navigation: Navigation)

  datatype Script = Script(
    urlAccepted: bool,
    proxyResolves: bool,
    primary: seq<Attempt>,
    fallback: Attempt,
    fallbackState: Option<BrowserState>,
    handoffProxyResolves: bool,
    handoff: Attempt,
    stateReader: Option<Result<Option<BrowserState>, string>>)  // None: the engine has no state reader

  datatype Adapter = Adapter(interactive: bool, recovers: bool)

  datatype Setup = Setup(
    primary: Adapter,
    fallback: Adapter,
    challengeHandling: bool,
    retryAttempts: nat,
    keepOpen: bool)

  datatype Status = Fine | Failed | HumanActionRequired

  /** What `_navigate_and_build` reports, apart from the identity of the retained session. */
  datatype Page = Page(status: Status, challenge: Challenge, retained: bool)

  datatype Engine = Primary | Fallback

  datatype Verdict =
    | Answer(engine: Engine, page: Page)
    | Exhausted  // the error response after all bounded attempts

  function SettledChallenge(setup: Setup, adapter: Adapter, n: Navigation): Challenge
    requires n.Loaded?
  {
    if setup.challengeHandling && n.first.kind.Some? && adapter.recovers && !n.first.terminal && n.recovery.Some? then
      n.recovery.value
    else
      n.first
  }

  /** None when navigation, or the registry, raises. */
  function Built(setup: Setup, adapter: Adapter, keepOpen: bool, n: Navigation): Option<Page> {
    if n.Raises? || (keepOpen && adapter.interactive && !n.admitted) then
      None
    else
      var challenge := SettledChallenge(setup, adapter, n);
      var retained := keepOpen && adapter.interactive;
      var status :=
        if challenge.humanAction then (if retained then HumanActionRequired else Failed)
        else if challenge.kind.Some? then Failed
        else Fine;
      Some(Page(status, challenge, retained))
  }

  function Tried(setup: Setup, adapter: Adapter, keepOpen: bool, attempt: Attempt): Option<Page> {
    if attempt.StartFails? then None else Built(setup, adapter, keepOpen, attempt.navigation)
  }

  /** A page that ends the primary attempts. */
  predicate Conclusive(page: Page) {
    page.challenge.kind.None? || page.status.HumanActionRequired? || !page.challenge.retryable
  }

  function PrimaryAnswer(page: Page): Verdict {
    if page.challenge.kind.None? || page.status.HumanActionRequired? then Answer(Primary, page)
    else Answer(Primary, page.(retained := false))
  }

  function CookieEntries(state: Option<BrowserState>): set<Cookie> {
    if state.None? then {} else
      set c | c in state.value.cookies && c.name != "" ::
        c.(path := if c.path == "" then "/" else c.path)
  }

  function OriginEntries(origin: Origin): set<(string, string, string)> {
    set item | item in origin.items :: (origin.url, item.name, item.value)
  }

  function StorageEntries(state: Option<BrowserState>): set<(string, string, string)> {
    if state.None? then {} else
      set origin, entry | origin in state.value.origins && entry in OriginEntries(origin) :: entry
  }

  predicate Preserves(before: Option<BrowserState>, after: Option<BrowserState>) {
    CookieEntries(before) <= CookieEntries(after) && StorageEntries(before) <= StorageEntries(after)
  }

  function HandoffVerdict(setup: Setup, script: Script): Verdict {
    var tried := Tried(setup, setup.primary, true, script.handoff);
    if !script.handoffProxyResolves || tried.None? then
      Exhausted
    else if tried.value.challenge.kind.Some? then
      Answer(Primary, tried.value.(status := Failed, retained := false))
    else if script.stateReader.Some? && script.stateReader.value.Err? then
      Exhausted
    else
      var after := if script.stateReader.None? then None else script.stateReader.value.value;
      if Preserves(script.fallbackState, after) then Answer(Primary, tried.value)
      else Answer(Primary, tried.value.(status := Failed, retained := false))
  }

  function FallbackVerdict(setup: Setup, script: Script): Verdict {
    match Tried(setup, setup.fallback, false, script.fallback)
    case None => Exhausted
    case Some(page) =>
      if !setup.keepOpen then
        Answer(Fallback, page)
      else if page.challenge.kind.Some? then
        Answer(Fallback, page.(status := if page.challenge.humanAction then HumanActionRequired else Failed))
      else
        HandoffVerdict(setup, script)
  }

  /** The verdict when attempts 1 .. i were inconclusive. */
  function VerdictAfter(setup: Setup, script: Script, i: nat): Verdict
    requires |script.primary| == setup.retryAttempts
    decreases setup.retryAttempts - i
  {
    if i >= setup.retryAttempts then
      FallbackVerdict(setup, script)
    else
      match Tried(setup, setup.primary, setup.keepOpen, script.primary[i])
      case Some(page) => if Conclusive(page) then PrimaryAnswer(page) else VerdictAfter(setup, script, i + 1)
      case None => VerdictAfter(setup, script, i + 1)
  }

  predicate Inconclusive(setup: Setup, attempt: Attempt) {
    var tried := Tried(setup, setup.primary, setup.keepOpen, attempt);
    tried.None? || !Conclusive(tried.value)
  }

  // ---------------------------------------------------------------- what an answer means

  predicate FirstConclusive(setup: Setup, script: Script, i: nat, k: nat)
    requires |script.primary| == setup.retryAttempts
  {
    && i <= k < setup.retryAttempts && !Inconclusive(setup, script.primary[k])
    && forall j :: i <= j < k ==> Inconclusive(setup, script.primary[j])
  }

  /**
   * The first conclusive primary attempt gives the answer; the fallback engine is consulted exactly
   * when there is none.
   */
  lemma {:induction false} FirstConclusiveAttemptDecides(setup: Setup, script: Script, i: nat)
    requires |script.primary| == setup.retryAttempts && i <= setup.retryAttempts
    ensures forall k: nat :: FirstConclusive(setup, script, i, k) ==>
      VerdictAfter(setup, script, i) ==
      PrimaryAnswer(Tried(setup, setup.primary, setup.keepOpen, script.primary[k]).value)
    ensures (forall k :: i <= k < setup.retryAttempts ==> Inconclusive(setup, script.primary[k])) ==>
      VerdictAfter(setup, script, i) == FallbackVerdict(setup, script)
    decreases setup.retryAttempts - i
  {
    if i < setup.retryAttempts && Inconclusive(setup, script.primary[i]) {
      FirstConclusiveAttemptDecides(setup, script, i + 1);
      forall k: nat | FirstConclusive(setup, script, i, k)
        ensures FirstConclusive(setup, script, i + 1, k)
      {
      }
    }
  }

  /** A blocked page is never reported as success. */
  lemma {:induction false} SuccessIsUnblocked(setup: Setup, script: Script, i: nat)
    requires |script.primary| == setup.retryAttempts
    requires VerdictAfter(setup, script, i).Answer? && VerdictAfter(setup, script, i).page.status.Fine?
    ensures VerdictAfter(setup, script, i).page.challenge.kind.None?
    ensures !VerdictAfter(setup, script, i).page.challenge.humanAction
    decreases setup.retryAttempts - i
  {
    if i < setup.retryAttempts && Inconclusive(setup, script.primary[i]) {
      SuccessIsUnblocked(setup, script, i + 1);
    }
  }

  /**
   * With an interactive primary engine, a successful open retains a session exactly when it was
   * asked to, and then the session runs in the primary engine.
   */
  lemma {:induction false} SuccessRetainsExactlyOnRequest(setup: Setup, script: Script, i: nat)
    requires |script.primary| == setup.retryAttempts && setup.primary.interactive
    requires VerdictAfter(setup, script, i).Answer? && VerdictAfter(setup, script, i).page.status.Fine?
    ensures VerdictAfter(setup, script, i).page.retained <==> setup.keepOpen
    ensures setup.keepOpen ==> VerdictAfter(setup, script, i).engine.Primary?
    decreases setup.retryAttempts - i
  {
    if i < setup.retryAttempts && Inconclusive(setup, script.primary[i]) {
      SuccessRetainsExactlyOnRequest(setup, script, i + 1);
    }
  }

  /** Every primary attempt from i on is inconclusive, so the fallback engine is consulted. */
  predicate AllInconclusive(setup: Setup, script: Script, i: nat)
    requires |script.primary| == setup.retryAttempts
  {
    forall k :: i <= k < setup.retryAttempts ==> Inconclusive(setup, script.primary[k])
  }

  /** The fallback engine loads the page. */
  predicate FallbackLoads(script: Script) {
    script.fallback.Started? && script.fallback.navigation.Loaded?
  }

  function FallbackChallenge(setup: Setup, script: Script): Challenge
    requires FallbackLoads(script)
  {
    SettledChallenge(setup, setup.fallback, script.fallback.navigation)
  }

  /**
   * An answer asks for human action without a session to act on exactly when the session was to be
   * kept, no primary attempt was conclusive, and the fallback loads a page whose challenge needs a
   * human.
   */
  lemma {:induction false} HumanActionWithoutSessionExactly(setup: Setup, script: Script, i: nat)
    requires |script.primary| == setup.retryAttempts
    ensures var v := VerdictAfter(setup, script, i);
      v.Answer? && v.page.status.HumanActionRequired? && !v.page.retained <==>
      && setup.keepOpen && AllInconclusive(setup, script, i) && FallbackLoads(script)
      && FallbackChallenge(setup, script).kind.Some? && FallbackChallenge(setup, script).humanAction
    decreases setup.retryAttempts - i
  {
    if i < setup.retryAttempts && Inconclusive(setup, script.primary[i]) {
      HumanActionWithoutSessionExactly(setup, script, i + 1);
      assert AllInconclusive(setup, script, i) <==> AllInconclusive(setup, script, i + 1);
    }
  }

  // ---------------------------------------------------------------- a record without an engine

  /**
   * The hand-off registers its session, then cannot read the state of its engine: the engine is
   * closed, and nobody takes the record out of the registry.
   */
  predicate HandoffStrandsRecord(setup: Setup, script: Script) {
    && script.handoffProxyResolves && script.handoff.Started? && setup.primary.interactive
    && script.handoff.navigation.Loaded?
    && script.handoff.navigation.admitted && !script.handoff.navigation.evicted
    && SettledChallenge(setup, setup.primary, script.handoff.navigation).kind.None?
    && script.stateReader.Some? && script.stateReader.value.Err?
  }

  /** The call gets as far as such a hand-off, once the primary attempts from i on are to be made. */
  predicate FallbackStrandsRecord(setup: Setup, script: Script) {
    && setup.keepOpen && FallbackLoads(script) && FallbackChallenge(setup, script).kind.None?
    && HandoffStrandsRecord(setup, script)
  }

  /** No other task pops a session of this call before it returns. */
  predicate Undisturbed(script: Script) {
    && (forall k :: 0 <= k < |script.primary| ==> !Evicts(script.primary[k]))
    && !Evicts(script.fallback) && !Evicts(script.handoff)
  }

  predicate Evicts(attempt: Attempt) {
    attempt.Started? && attempt.navigation.Loaded? && attempt.navigation.evicted
  }

  // ---------------------------------------------------------------- scripts that show both

  const CLEAR := Challenge(None, false, false, false)
  const VERIFY_HUMAN := Challenge(Some("captcha"), true, false, true)
  const INTERACTIVE := Adapter(true, false)
  const BACKGROUND := Adapter(false, false)

  /** One primary attempt that fails to start, then the given fallback and hand-off. */
  function AfterFailedStart(fallback: Challenge, reader: Option<Result<Option<BrowserState>, string>>): Script {
    Script(true, true, [StartFails], Started(Loaded(fallback, None, true, false)), None,
           true, Started(Loaded(CLEAR, None, true, false)), reader)
  }

  const KEEPING := Setup(INTERACTIVE, BACKGROUND, true, 1, true)

  lemma HumanActionMayLackASession()
    ensures var v := VerdictAfter(KEEPING, AfterFailedStart(VERIFY_HUMAN, None), 0);
      v.Answer? && v.page.status.HumanActionRequired? && !v.page.retained
  {
    HumanActionWithoutSessionExactly(KEEPING, AfterFailedStart(VERIFY_HUMAN, None), 0);
  }

  /** Nobody who did not ask for it gets a session. */
  lemma {:induction false} SessionlessStaysSessionless(setup: Setup, script: Script, i: nat)
    requires |script.primary| == setup.retryAttempts && !setup.keepOpen
    ensures VerdictAfter(setup, script, i).Answer? ==>
      !VerdictAfter(setup, script, i).page.retained && !VerdictAfter(setup, script, i).page.status.HumanActionRequired?
    decreases setup.retryAttempts - i
  {
    if i < setup.retryAttempts && Inconclusive(setup, script.primary[i]) {
      SessionlessStaysSessionless(setup, script, i + 1);
    }
  }
}
