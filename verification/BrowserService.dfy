/**
 * The orchestration of one `open` call: bounded primary attempts, then the fallback engine, then a
 * hand-off back to the primary.  What is at stake is that every engine session this call starts is
 * closed again, except the one it returns.
 *
 * Engine sessions are numbered in the order they start.  A session is registered at most once, so
 * its number also serves as the id under which the registry knows it.  `taken` holds the sessions
 * that another task popped from the registry, which leaves closing them to that task.
 * `offered` are the sessions ever handed to the registry; that none is offered twice is what the runs
 * of the registry start from.
 */
module BrowserService {
  import opened Wrappers
  import opened OpenDecision

  type Handle = nat

  datatype Response = Response(engine: Engine, page: Page, sessionId: Option<Handle>, interactive: bool)

  datatype Failure = UrlRejected | ProxyConfiguration

  class BrowserRuntimeService {
    var started: nat
    var registered: set<Handle>
    var closed: set<Handle>
    var taken: set<Handle>
    ghost var offered: set<Handle>

    constructor ()
      ensures started == 0 && Valid()
    {
      started, registered, closed, taken := 0, {}, {}, {};
      offered := {};
    }

    ghost predicate Valid()
      reads this
    {
      && registered <= offered && taken <= offered
      && forall h :: h in offered || h in closed ==> h < started
    }

    /** Every session from number `first` on is closed or in other hands; only `keep` may be open. */
    ghost predicate ClosedExcept(first: nat, keep: Option<Handle>)
      reads this
    {
      && (forall h :: first <= h < started && keep != Some(h) ==> h in closed || h in taken)
      && (forall h :: h in registered && first <= h && keep != Some(h) ==> h in closed)
      && (keep.Some? ==>
           && first <= keep.value < started && keep.value !in closed
           && (keep.value in registered || keep.value in taken))
    }

    /** Some session from number `first` on is closed and still in the registry. */
    ghost predicate StrandedSince(first: nat)
      reads this
    {
      exists h :: first <= h && h in registered && h in closed
    }

    /** Sessions numbered below `first` are as they were. */
    twostate predicate OlderUntouched(first: nat)
      reads this
    {
      forall h :: h < first ==>
        && (h in closed <==> h in old(closed))
        && (h in taken <==> h in old(taken))
        && (h in registered <==> h in old(registered))
        && (h in offered <==> h in old(offered))
    }

    method StartEngine() returns (session: Handle)
      requires Valid()
      modifies this`started
      ensures Valid() && session == old(started) && started == session + 1
    {
      session := started;
      started := started + 1;
    }

    method CloseSession(session: Handle)
      requires Valid() && session < started
      modifies this`closed
      ensures Valid() && closed == old(closed) + {session}
    {
      closed := closed + {session};
    }

    /** False when the session is no longer registered. */
    method CloseRegistered(session: Handle) returns (existed: bool)
      requires Valid()
      modifies this`registered, this`closed
      ensures Valid() && existed == (session in old(registered))
      ensures registered == old(registered) - {session}
      ensures closed == old(closed) + if existed then {session} else {}
    {
      existed := session in registered;
      if existed {
        registered := registered - {session};
        CloseSession(session);
      }
    }

    /** Nobody offers a session to the registry twice; another task may pop it again right away. */
    method Register(session: Handle, evicted: bool)
      requires Valid() && session < started && session !in offered
      modifies this`registered, this`taken, this`offered
      ensures Valid() && offered == old(offered) + {session}
      ensures registered == old(registered) + (if evicted then {} else {session})
      ensures taken == old(taken) + (if evicted then {session} else {})
    {
      offered := offered + {session};
      if evicted {
        taken := taken + {session};
      } else {
        registered := registered + {session};
      }
    }

    method NavigateAndBuild(setup: Setup, engine: Engine, session: Handle, keepOpen: bool, navigation: Navigation)
      returns (response: Option<Response>)
      requires Valid() && session < started && session !in offered
      modifies this`registered, this`closed, this`taken, this`offered
      ensures Valid()
      ensures offered == old(offered) + if response.Some? && response.value.page.retained then {session} else {}
      ensures var built := Built(setup, AdapterOf(setup, engine), keepOpen, navigation);
        match response
        case None => built.None? && registered == old(registered) && closed == old(closed) && taken == old(taken)
        case Some(r) =>
          && built == Some(r.page) && r.engine == engine
          && r.interactive == r.page.retained
          && if r.page.retained then
               && r.sessionId == Some(session) && closed == old(closed)
               && registered == old(registered) + (if navigation.evicted then {} else {session})
               && taken == old(taken) + (if navigation.evicted then {session} else {})
             else
               && r.sessionId == None && registered == old(registered) && taken == old(taken)
               && closed == old(closed) + {session}
    {
      var adapter := AdapterOf(setup, engine);
      if navigation.Raises? {
        return None;
      }
      var challenge := navigation.first;
      if setup.challengeHandling && challenge.kind.Some? && adapter.recovers && !challenge.terminal {
        if navigation.recovery.Some? {
          challenge := navigation.recovery.value;
        }
      }
      var record: Option<Handle> := None;
      var status := if challenge.humanAction then HumanActionRequired
                    else if challenge.kind.Some? then Failed
                    else Fine;
      if keepOpen && adapter.interactive {
        if !navigation.admitted {
          return None;
        }
        record := Some(session);
        Register(session, navigation.evicted);
      } else {
        CloseSession(session);
      }
      if challenge.humanAction && record.None? {
        status := Failed;
      }
      return Some(Response(engine, Page(status, challenge, record.Some?), record, record.Some?));
    }

    /** Gives the session of a response back, as the response will no longer offer it. */
    method Withdraw(response: Response, status: Status) returns (withdrawn: Response)
      requires Valid()
      modifies this`registered, this`closed
      ensures Valid()
      ensures withdrawn == response.(page := response.page.(status := status, retained := false),
                                     sessionId := None, interactive := false)
      ensures match response.sessionId
        case None => registered == old(registered) && closed == old(closed)
        case Some(id) =>
          && registered == old(registered) - {id}
          && closed == old(closed) + (if id in old(registered) then {id} else {})
    {
      if response.sessionId.Some? {
        var _ := CloseRegistered(response.sessionId.value);
      }
      withdrawn := response.(page := response.page.(status := status, retained := false),
                             sessionId := None, interactive := false);
    }

    /** One round of the attempt loop: Some when its answer ends the loop. */
    method PrimaryAttempt(setup: Setup, attempt: Attempt) returns (answer: Option<Response>)
      requires Valid()
      modifies this
      ensures Valid() && OlderUntouched(old(started)) && old(started) <= started <= old(started) + 1
      ensures var tried := Tried(setup, setup.primary, setup.keepOpen, attempt);
        match answer
        case None => Inconclusive(setup, attempt) && ClosedExcept(old(started), None)
        case Some(r) => !Inconclusive(setup, attempt) && Delivers(r, old(started), PrimaryAnswer(tried.value))
      ensures !StrandedSince(old(started)) && (!Evicts(attempt) ==> taken == old(taken))
    {
      if attempt.StartFails? {
        return None;
      }
      var session := StartEngine();
      var built := NavigateAndBuild(setup, Primary, session, setup.keepOpen, attempt.navigation);
      if built.None? {
        CloseSession(session);
        return None;
      }
      var response := built.value;
      if response.page.challenge.kind.None? || response.page.status.HumanActionRequired? {
        return Some(response);
      }
      if !response.page.challenge.retryable {
        response := Withdraw(response, response.page.status);
        return Some(response);
      }
      if response.sessionId.Some? {
        var _ := CloseRegistered(response.sessionId.value);
      } else {
        CloseSession(session);
      }
      return None;
    }

    /** The response says what the verdict says, and offers exactly the one session left open. */
    ghost predicate Delivers(r: Response, first: nat, verdict: Verdict)
      reads this
    {
      && verdict == Answer(r.engine, r.page)
      && (r.interactive <==> r.sessionId.Some?) && (r.interactive <==> r.page.retained)
      && ClosedExcept(first, r.sessionId)
    }

    /** The local-storage entries of a saved browser state. */
    method CollectStorage(state: Option<BrowserState>) returns (entries: set<(string, string, string)>)
      ensures entries == StorageEntries(state)
    {
      entries := {};
      if state.None? {
        return;
      }
      var origins := state.value.origins;
      for i := 0 to |origins|
        invariant entries == set origin, e | origin in origins[..i] && e in OriginEntries(origin) :: e
      {
        ghost var before := entries;
        var items := origins[i].items;
        for j := 0 to |items|
          invariant entries == before + set item | item in items[..j] :: (origins[i].url, item.name, item.value)
        {
          entries := entries + {(origins[i].url, items[j].name, items[j].value)};
          assert items[..j + 1] == items[..j] + [items[j]];
        }
        assert items[..|items|] == items;
        assert entries == before + OriginEntries(origins[i]);
        assert origins[..i + 1] == origins[..i] + [origins[i]];
      }
      assert origins[..|origins|] == origins;
    }

    /** Whether no cookie and no local-storage entry got lost on the way. */
    method StatePreserved(before: Option<BrowserState>, after: Option<BrowserState>) returns (preserved: bool)
      ensures preserved == Preserves(before, after)
    {
      var expectedStorage := CollectStorage(before);
      var actualStorage := CollectStorage(after);
      preserved := CookieEntries(before) <= CookieEntries(after) && expectedStorage <= actualStorage;
    }

    /** None when the hand-off raises. */
    method HandoffToPrimary(setup: Setup, script: Script) returns (answer: Option<Response>)
      requires Valid()
      modifies this
      ensures Valid() && OlderUntouched(old(started)) && old(started) <= started <= old(started) + 1
      ensures match answer
        case None => HandoffVerdict(setup, script).Exhausted? && ClosedExcept(old(started), None)
        case Some(r) => Delivers(r, old(started), HandoffVerdict(setup, script))
      ensures StrandedSince(old(started)) <==> HandoffStrandsRecord(setup, script)
      ensures !Evicts(script.handoff) ==> taken == old(taken)
    {
      if !script.handoffProxyResolves || script.handoff.StartFails? {
        return None;
      }
      var session := StartEngine();
      var built := NavigateAndBuild(setup, Primary, session, true, script.handoff.navigation);
      if built.None? {
        CloseSession(session);
        return None;
      }
      var response := built.value;
      if response.page.challenge.kind.Some? {
        response := Withdraw(response, Failed);
        return Some(response);
      }
      if script.stateReader.Some? && script.stateReader.value.Err? {
        CloseSession(session);
        return None;
      }
      var primaryState := if script.stateReader.Some? then script.stateReader.value.value else None;
      var preserved := StatePreserved(script.fallbackState, primaryState);
      if !preserved {
        response := Withdraw(response, Failed);
      }
      return Some(response);
    }

    /** None when the fallback, or the hand-off after it, raises. */
    method FallbackAttempt(setup: Setup, script: Script) returns (answer: Option<Response>)
      requires Valid()
      modifies this
      ensures Valid() && OlderUntouched(old(started)) && old(started) <= started <= old(started) + 2
      ensures match answer
        case None => FallbackVerdict(setup, script).Exhausted? && ClosedExcept(old(started), None)
        case Some(r) => Delivers(r, old(started), FallbackVerdict(setup, script))
      ensures StrandedSince(old(started)) <==> FallbackStrandsRecord(setup, script)
      ensures !Evicts(script.fallback) && !Evicts(script.handoff) ==> taken == old(taken)
    {
      if script.fallback.StartFails? {
        return None;
      }
      var session := StartEngine();
      var built := NavigateAndBuild(setup, Fallback, session, false, script.fallback.navigation);
      if built.None? {
        answer := None;
      } else if !setup.keepOpen {
        answer := built;
      } else if built.value.page.challenge.kind.Some? {
        var page := built.value.page;
        var status := if page.challenge.humanAction then HumanActionRequired else Failed;
        answer := Some(built.value.(page := page.(status := status)));
      } else {
        answer := HandoffToPrimary(setup, script);
      }
      CloseSession(session);
    }

    /** A call that opens a new session; it starts at most two engines more than it has attempts. */
    method OpenLocked(setup: Setup, script: Script) returns (result: Result<Response, Failure>)
      requires Valid() && |script.primary| == setup.retryAttempts
      modifies this
      ensures Valid() && OlderUntouched(old(started))
      ensures old(started) <= started <= old(started) + setup.retryAttempts + 2
      ensures match result
        case Err(failure) =>
          && started == old(started)
          && failure == (if !script.urlAccepted then UrlRejected else ProxyConfiguration)
        case Ok(r) =>
          && script.urlAccepted && script.proxyResolves
          && match VerdictAfter(setup, script, 0)
             case Exhausted => r == ErrorResponse() && ClosedExcept(old(started), None)
             case Answer(_, _) => Delivers(r, old(started), VerdictAfter(setup, script, 0))
      ensures StrandedSince(old(started)) <==>
        && script.urlAccepted && script.proxyResolves
        && AllInconclusive(setup, script, 0) && FallbackStrandsRecord(setup, script)
      ensures Undisturbed(script) ==> taken == old(taken)
    {
      if !script.urlAccepted {
        return Err(UrlRejected);
      }
      if !script.proxyResolves {
        return Err(ProxyConfiguration);
      }
      for i := 0 to setup.retryAttempts
        invariant Valid() && OlderUntouched(old(started)) && ClosedExcept(old(started), None)
        invariant old(started) <= started <= old(started) + i
        invariant VerdictAfter(setup, script, i) == VerdictAfter(setup, script, 0)
        invariant !StrandedSince(old(started)) && (Undisturbed(script) ==> taken == old(taken))
        invariant forall k :: 0 <= k < i ==> Inconclusive(setup, script.primary[k])
      {
        var answer := PrimaryAttempt(setup, script.primary[i]);
        if answer.Some? {
          return Ok(answer.value);
        }
      }
      var answer := FallbackAttempt(setup, script);
      if answer.Some? {
        return Ok(answer.value);
      }
      return Ok(ErrorResponse());
    }
  }

  /** A call that leaves a closed session in the registry. */
  method StrandARecord() returns (service: BrowserRuntimeService, response: Result<Response, Failure>)
    ensures service.StrandedSince(0) && response == Ok(ErrorResponse())
  {
    service := new BrowserRuntimeService();
    response := service.OpenLocked(KEEPING, AfterFailedStart(CLEAR, Some(Err("target closed"))));
  }

  function ErrorResponse(): Response {
    Response(Primary, Page(Failed, Challenge(None, false, false, false), false), None, false)
  }

  function AdapterOf(setup: Setup, engine: Engine): Adapter {
    if engine.Primary? then setup.primary else setup.fallback
  }
}
