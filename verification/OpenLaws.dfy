/**
 * What an `open` call answers, read off the fields of its script: which attempt decides, what its
 * page says, and what a hand-off must not lose.
 */
module OpenLaws {
  import opened Wrappers
  import opened OpenDecision

  // ---------------------------------------------------------------- one engine

  /** The engine starts, loads the page, and the registry takes the session if it is to be kept. */
  predicate GivesPage(adapter: Adapter, keepOpen: bool, attempt: Attempt) {
    && attempt.Started? && attempt.navigation.Loaded?
    && (keepOpen && adapter.interactive ==> attempt.navigation.admitted)
  }

  /** Recovery is tried on challenges that are not terminal, by engines that can, where it is enabled. */
  predicate TriesRecovery(setup: Setup, adapter: Adapter, first: Challenge) {
    setup.challengeHandling && adapter.recovers && first.kind.Some? && !first.terminal
  }

  /** The last reading of the page: the second one exactly after a recovery that reports success. */
  ghost predicate LastReading(setup: Setup, adapter: Adapter, attempt: Attempt, c: Challenge) {
    && attempt.Started? && attempt.navigation.Loaded?
    && match attempt.navigation.recovery
       case None => c == attempt.navigation.first
       case Some(second) =>
         c == if TriesRecovery(setup, adapter, attempt.navigation.first) then second else attempt.navigation.first
  }

  lemma PageExactly(setup: Setup, adapter: Adapter, keepOpen: bool, attempt: Attempt, c: Challenge)
    requires GivesPage(adapter, keepOpen, attempt) ==> LastReading(setup, adapter, attempt, c)
    ensures var tried := Tried(setup, adapter, keepOpen, attempt);
      && (tried.Some? <==> GivesPage(adapter, keepOpen, attempt))
      && (tried.Some? ==>
            && tried.value.challenge == c && (tried.value.retained <==> keepOpen && adapter.interactive)
            && (tried.value.status.Fine? <==> c.kind.None? && !c.humanAction)
            && (tried.value.status.HumanActionRequired? <==> c.humanAction && keepOpen && adapter.interactive))
  {
  }

  // ---------------------------------------------------------------- the attempts

  /** A primary attempt ends the loop: clear, not worth a retry, or waiting for a human in its session. */
  ghost predicate Settles(setup: Setup, attempt: Attempt, c: Challenge) {
    && GivesPage(setup.primary, setup.keepOpen, attempt) && LastReading(setup, setup.primary, attempt, c)
    && (c.kind.None? || !c.retryable || (c.humanAction && setup.keepOpen && setup.primary.interactive))
  }

  ghost predicate NoneSettles(setup: Setup, script: Script, i: nat, end: nat)
    requires end <= |script.primary|
  {
    forall k, c :: i <= k < end ==> !Settles(setup, script.primary[k], c)
  }

  lemma InconclusiveExactly(setup: Setup, attempt: Attempt)
    ensures Inconclusive(setup, attempt) <==> forall c :: !Settles(setup, attempt, c)
  {
    if GivesPage(setup.primary, setup.keepOpen, attempt) {
      var n := attempt.navigation;
      var c := if n.recovery.Some? && TriesRecovery(setup, setup.primary, n.first) then n.recovery.value else n.first;
      assert LastReading(setup, setup.primary, attempt, c);
      PageExactly(setup, setup.primary, setup.keepOpen, attempt, c);
      assert !Inconclusive(setup, attempt) <==> Settles(setup, attempt, c);
    }
  }

  /** The first attempt that settles answers; its session is kept if it is clear or waits for a human. */
  lemma {:induction false} PrimaryAnswersExactly(setup: Setup, script: Script, i: nat, k: nat, c: Challenge)
    requires |script.primary| == setup.retryAttempts && i <= k < setup.retryAttempts
    requires NoneSettles(setup, script, i, k) && Settles(setup, script.primary[k], c)
    ensures var v := VerdictAfter(setup, script, i);
      && v.Answer? && v.engine.Primary? && v.page.challenge == c
      && (v.page.retained <==> setup.keepOpen && setup.primary.interactive && (c.kind.None? || c.humanAction))
      && (v.page.status.Fine? <==> c.kind.None? && !c.humanAction)
      && (v.page.status.HumanActionRequired? <==> c.humanAction && setup.keepOpen && setup.primary.interactive)
    decreases k - i
  {
    InconclusiveExactly(setup, script.primary[i]);
    if i < k {
      PrimaryAnswersExactly(setup, script, i + 1, k, c);
    } else {
      PageExactly(setup, setup.primary, setup.keepOpen, script.primary[k], c);
    }
  }

  lemma {:induction false} NoAttemptAnswers(setup: Setup, script: Script, i: nat)
    requires |script.primary| == setup.retryAttempts && NoneSettles(setup, script, i, setup.retryAttempts)
    ensures AllInconclusive(setup, script, i)
    ensures i <= setup.retryAttempts ==> VerdictAfter(setup, script, i) == FallbackVerdict(setup, script)
  {
    forall k | i <= k < setup.retryAttempts ensures Inconclusive(setup, script.primary[k]) {
      InconclusiveExactly(setup, script.primary[k]);
    }
    if i <= setup.retryAttempts {
      FirstConclusiveAttemptDecides(setup, script, i);
    }
  }

  /**
   * Where no attempt settles, the fallback engine answers: its page as it is for a caller without a
   * session, and a challenged page for every caller, who is then asked to act if a human can.
   */
  lemma FallbackAnswersExactly(setup: Setup, script: Script, i: nat, c: Challenge)
    requires |script.primary| == setup.retryAttempts && i <= setup.retryAttempts
    requires NoneSettles(setup, script, i, setup.retryAttempts)
    requires GivesPage(setup.fallback, false, script.fallback) ==>
      LastReading(setup, setup.fallback, script.fallback, c)
    ensures var v := VerdictAfter(setup, script, i);
      if !GivesPage(setup.fallback, false, script.fallback) then v.Exhausted?
      else if setup.keepOpen && c.kind.None? then v.Answer? ==> v.engine.Primary?
      else
        && v.Answer? && v.engine.Fallback? && v.page.challenge == c && !v.page.retained
        && (v.page.status.Fine? <==> c.kind.None? && !c.humanAction)
        && (v.page.status.HumanActionRequired? <==> c.humanAction && setup.keepOpen)
  {
    NoAttemptAnswers(setup, script, i);
    PageExactly(setup, setup.fallback, false, script.fallback, c);
  }

  // ---------------------------------------------------------------- the hand-off

  /** A cookie without a path has path "/". */
  predicate SameCookie(d: Cookie, c: Cookie) {
    && d.name == c.name && d.value == c.value && d.domain == c.domain
    && (d.path == c.path || (d.path in ["", "/"] && c.path in ["", "/"]))
  }

  ghost predicate HasCookie(state: Option<BrowserState>, c: Cookie) {
    state.Some? && exists d :: d in state.value.cookies && SameCookie(d, c)
  }

  ghost predicate HasItem(state: Option<BrowserState>, url: string, item: StorageItem) {
    state.Some? && exists origin :: origin in state.value.origins && origin.url == url && item in origin.items
  }

  /** Every named cookie and every local-storage item of `before` is in `after`. */
  ghost predicate NothingLost(before: Option<BrowserState>, after: Option<BrowserState>) {
    before.Some? ==>
      && (forall c :: c in before.value.cookies && c.name != "" ==> HasCookie(after, c))
      && (forall origin, item :: origin in before.value.origins && item in origin.items ==>
            HasItem(after, origin.url, item))
  }

  lemma CookieIsAnEntry(state: Option<BrowserState>, c: Cookie)
    requires c.name != ""
    ensures c.(path := if c.path == "" then "/" else c.path) in CookieEntries(state) <==> HasCookie(state, c)
  {
    var entry := c.(path := if c.path == "" then "/" else c.path);
    if entry in CookieEntries(state) {
      var d :| d in state.value.cookies && d.name != "" && entry == d.(path := if d.path == "" then "/" else d.path);
      assert SameCookie(d, c);
    }
    if HasCookie(state, c) {
      var d :| d in state.value.cookies && SameCookie(d, c);
      assert entry == d.(path := if d.path == "" then "/" else d.path);
    }
  }

  lemma ItemIsAnEntry(state: Option<BrowserState>, url: string, item: StorageItem)
    ensures (url, item.name, item.value) in StorageEntries(state) <==> HasItem(state, url, item)
  {
    var entry := (url, item.name, item.value);
    if entry in StorageEntries(state) {
      var origin :| origin in state.value.origins && entry in OriginEntries(origin);
      var found :| found in origin.items && entry == (origin.url, found.name, found.value);
      assert found == item;
    }
    if HasItem(state, url, item) {
      var origin :| origin in state.value.origins && origin.url == url && item in origin.items;
      assert entry in OriginEntries(origin);
    }
  }

  lemma PreservesExactly(before: Option<BrowserState>, after: Option<BrowserState>)
    ensures Preserves(before, after) <==> NothingLost(before, after)
  {
    if Preserves(before, after) && before.Some? {
      forall c | c in before.value.cookies && c.name != "" ensures HasCookie(after, c) {
        assert HasCookie(before, c);
        CookieIsAnEntry(before, c);
        CookieIsAnEntry(after, c);
      }
      forall origin, item | origin in before.value.origins && item in origin.items
        ensures HasItem(after, origin.url, item)
      {
        assert HasItem(before, origin.url, item);
        ItemIsAnEntry(before, origin.url, item);
        ItemIsAnEntry(after, origin.url, item);
      }
    }
    if NothingLost(before, after) {
      forall entry | entry in CookieEntries(before) ensures entry in CookieEntries(after) {
        var c :| c in before.value.cookies && c.name != "" && entry == c.(path := if c.path == "" then "/" else c.path);
        CookieIsAnEntry(after, c);
      }
      forall entry | entry in StorageEntries(before) ensures entry in StorageEntries(after) {
        var origin :| origin in before.value.origins && entry in OriginEntries(origin);
        var item :| item in origin.items && entry == (origin.url, item.name, item.value);
        ItemIsAnEntry(after, origin.url, item);
      }
    }
  }

  /** No attempt settles, the session is to be kept, and the fallback engine shows a clear page. */
  ghost predicate ReachesHandoff(setup: Setup, script: Script, i: nat) {
    && |script.primary| == setup.retryAttempts && i <= setup.retryAttempts
    && NoneSettles(setup, script, i, setup.retryAttempts)
    && setup.keepOpen && GivesPage(setup.fallback, false, script.fallback)
    && forall c :: LastReading(setup, setup.fallback, script.fallback, c) ==> c.kind.None?
  }

  /** The state that the primary engine holds after the hand-off; an engine without a reader has none. */
  predicate Reads(script: Script, state: Option<BrowserState>) {
    match script.stateReader
    case None => state.None?
    case Some(reader) => reader == Ok(state)
  }

  lemma HandoffDecides(setup: Setup, script: Script, i: nat)
    requires ReachesHandoff(setup, script, i)
    ensures VerdictAfter(setup, script, i) == HandoffVerdict(setup, script)
  {
    NoAttemptAnswers(setup, script, i);
    var n := script.fallback.navigation;
    var c := if n.recovery.Some? && TriesRecovery(setup, setup.fallback, n.first) then n.recovery.value else n.first;
    assert LastReading(setup, setup.fallback, script.fallback, c);
    PageExactly(setup, setup.fallback, false, script.fallback, c);
  }

  /** A hand-off to an engine that cannot be started, loaded or read back ends in the error response. */
  lemma HandoffFailsExactly(setup: Setup, script: Script, i: nat, c: Challenge)
    requires ReachesHandoff(setup, script, i)
    requires GivesPage(setup.primary, true, script.handoff) ==> LastReading(setup, setup.primary, script.handoff, c)
    ensures VerdictAfter(setup, script, i).Exhausted? <==>
      || !script.handoffProxyResolves || !GivesPage(setup.primary, true, script.handoff)
      || (c.kind.None? && forall state :: !Reads(script, state))
  {
    HandoffDecides(setup, script, i);
    PageExactly(setup, setup.primary, true, script.handoff, c);
    if script.stateReader.None? {
      assert Reads(script, None);
    } else if script.stateReader.value.Ok? {
      assert Reads(script, script.stateReader.value.value);
    }
  }

  /**
   * A hand-off succeeds exactly when the page stays clear and no cookie and no local-storage item of
   * the fallback engine got lost; otherwise it is an error, without a session.
   */
  lemma HandoffKeepsStateExactly(
    setup: Setup, script: Script, i: nat, c: Challenge, state: Option<BrowserState>)
    requires ReachesHandoff(setup, script, i) && script.handoffProxyResolves
    requires GivesPage(setup.primary, true, script.handoff) && LastReading(setup, setup.primary, script.handoff, c)
    requires c.kind.None? ==> Reads(script, state)
    ensures var v := VerdictAfter(setup, script, i);
      && v.Answer? && v.engine.Primary? && v.page.challenge == c
      && if c.kind.None? && NothingLost(script.fallbackState, state) then
           && (v.page.retained <==> setup.primary.interactive)
           && (v.page.status.Fine? <==> !c.humanAction)
           && (v.page.status.HumanActionRequired? <==> c.humanAction && setup.primary.interactive)
         else v.page.status.Failed? && !v.page.retained
  {
    HandoffDecides(setup, script, i);
    PageExactly(setup, setup.primary, true, script.handoff, c);
    PreservesExactly(script.fallbackState, state);
  }

  /** Whoever asked for a session and is told of success has everything the fallback engine collected. */
  lemma SuccessLosesNothing(setup: Setup, script: Script, i: nat, state: Option<BrowserState>)
    requires |script.primary| == setup.retryAttempts && i <= setup.retryAttempts
    requires NoneSettles(setup, script, i, setup.retryAttempts) && setup.keepOpen
    requires VerdictAfter(setup, script, i).Answer? && VerdictAfter(setup, script, i).page.status.Fine?
    requires Reads(script, state)
    ensures NothingLost(script.fallbackState, state)
  {
    NoAttemptAnswers(setup, script, i);
    PreservesExactly(script.fallbackState, state);
  }
}
