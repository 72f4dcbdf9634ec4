# Verified model of the Agency browser runtime

A Dafny model of the state machines and algorithms of the browser runtime, with proofs of what they guarantee over
whole runs: sessions are closed once, quotas and leases hold in every interleaving, an `open` call closes every engine
it starts but the one it returns, tokens verify exactly when they should and are accepted once. Beside them stand the
algorithms whose correctness the runtime's reports rest on: evaluation matching, the process tree, proxy rotation, the
rollout gate, graph deltas and the event broker.

`dafny verify dfyconfig.toml` checks everything.

## How the model is laid out

| modules | what they are about |
|---|---|
| `Owners`, `SessionStore`, `SessionRegistry`, `SessionRuns`, `SessionLaws`, `SessionTheorems` | The retained-session registry. `SessionStore` says what one lock section does to the table, `SessionRegistry` is the class with its records updated in place, `SessionRuns` interleaves lock sections and `close()` calls of any number of tasks, `SessionLaws` reads every operation off the fields of the records and says how long a session in use lasts, `SessionTheorems` holds the results about closing, quotas and time. |
| `DomainLeases`, `DomainPolicy`, `DomainPacing`, `DomainHistory` | Concurrency slots per domain (as runs of any number of tasks, and as the shared objects), pacing of starts, and the pruned success history. |
| `OpenDecision`, `OpenLaws`, `BrowserService`, `RuntimePolicy` | One `open` call: which answer it gives, when each answer is given and what a hand-off must not lose, what it does with the engine sessions it starts, and how a caller's wishes are clamped. |
| `Base64Url`, `Capabilities`, `ReplayGuard` | Capability tokens: codec, issue and verification, replay check with pruning. |
| `ItemMatching`, `EventOrder` | Greedy item matching with its scores, and ordered occurrence of events. |
| `ProcessTree`, `ProxyPool`, `RolloutGate`, `RolloutLaws`, `RolloutChains` | Descendant fixpoint, sticky proxy pools, rollout summaries, merging and gating, what the numbers of a summary count, and what the gate says over a chain of rollouts. |
| `GraphPayload`, `GraphDelta`, `GraphDeltaBuilder`, `GraphArcs`, `GraphRunArcs`, `GraphKnowledgeArcs`, `GraphEdgeIds`, `GraphNodes`, `GraphKnowledgeNodes`, `GraphLinks` | The delta of a projection event, the builder that appends it, which edges and nodes each kind of event calls for and how they are named, and what link deltas do to a graph. |
| `EventBroker` | Publish and subscribe per conversation. |

Code that changes state step by step is a class or a method with loops, proved equal to a specification function; the
theorems are about runs of those functions. In particular a whole registry operation changes the table by exactly one
section of `SessionStore`, which is what the interleavings are made of.

Clock readings, random tokens, engine outcomes and failing `close()` calls are parameters, so every theorem is about all
of them. HMAC, JSON, hashing and lower-casing are function values of which only the stated facts are used (JSON reads
back what it wrote, digests are 32 bytes long). Times and rates are reals.

## Where the code differs from the obvious claim

Each of these is modelled as the code has it. A run or an input that shows the difference is constructed, and the exact
condition under which the claim holds is proved.

- `create` takes expired records out of the table and may then raise its limit error without closing them
  (`app/browser_runtime/session_registry.py:120-127`). A run closes every handle exactly once if and only if no `create`
  in it did that (`QuiescentRunsCloseEverythingExactly`), a handle lost this way is never closed later
  (`DroppedIsNeverClosed`), and such a run exists (`AHandleMayBeDropped`).
- Ownership is not symmetric, so "every owner owns at most the limit" fails (`AnOwnerMayOwnMoreThanTheLimit`). It holds
  throughout a run if and only if no successful create was made by an owner who belongs to somebody already at the limit
  (`OwnersStayWithinExactly`), where only the owners put together from recorded claims need to be looked at
  (`Candidates`); the limit per identity key holds always.
- A request may extend the idle TTL beyond the operator's default, up to the maximum TTL
  (`app/browser_runtime/service.py:746-753`); every other wish only tightens. `IdleTtlIsKeptExactly` says when the default
  is a ceiling, `AWishMayExtendTheIdleTtl` shows a wish that passes it.
- `CapabilityVerifier.verify` reads the clock twice. A replay gets through if and only if the expiry falls between the
  two readings of the second call (`ReplayGetsThroughExactly`, `AReplayMayGetThrough`).
- The decrement of `remaining_requests` is overwritten by a fresh assignment (`app/browser_runtime/proxy.py:70`, `:84-88`),
  so a request count of two or more never ends stickiness and a count of one ends it at once (`StickinessNeverRunsOut`);
  `AStickyBudgetIsNeverUsedUp` sends four requests on a budget of two.
- An answer may ask for human action without a session to act on: exactly when the session was to be kept, no primary
  attempt was conclusive, and the fallback loads a page whose challenge needs a human (`HumanActionWithoutSessionExactly`,
  `HumanActionMayLackASession`).
- When reading the primary's state raises during a hand-off, the engine session is closed but its record stays registered
  until the next sweep (`app/browser_runtime/service.py:711-740`). `HandoffToPrimary` and `OpenLocked` state exactly for
  which scripts that happens, `StrandARecord` is such a call.
- Over a chain of rollouts the bound start times ratio to the k-th power holds of all measurements if and only if no ratio
  is negative (`GrowthIsBoundedExactly`); with a negative ratio it still holds of measurements that are not negative
  (`GrowthIsBounded`).
- Edge ids are joined with colons, so a deletion can take the edge of another link (`ADeletionMayTakeAnotherLinksEdge`).
  Two links can share an edge if and only if the stem that one's workflow and memory make equals the other's or continues
  it after a colon (`IdsCollideExactly`, `MemoriesCollideExactly`); otherwise a deletion spares every other link
  (`DeletionSparesOtherLinks`).

Two guarantees rest on where a task can be suspended. As the code stands it cannot be suspended there, so both hold; the
model also says exactly what would happen if it could.

- `DomainLease.release` marks the lease before it takes the condition (`app/browser_runtime/domain_policy.py:167-171`).
  No task keeps the condition's lock while it is suspended, so taking it never suspends, and a release once begun runs
  through: no slot leaks (`NoSlotLeaks`). Were the lock contended, slots would leak if and only if a release is cancelled
  in between (`NoSlotLeaksExactly`, `ACancelledReleaseLeaks`), and then forever (`ALeakIsForever`).
- Publishing holds the lock only for the snapshot of subscribers (`app/conversation_streaming.py:15-19`). `put` on an
  unbounded queue does not suspend, so the deliveries of a publish are not interrupted and queues are in publish order
  (`QueuesHoldWhatIsDue`). Were they interrupted, as with bounded queues, nothing would be lost or duplicated
  (`NothingIsLostOrDuplicated`), and a queue that nothing is under way to would be in order if and only if it was handed
  its oldest event each time (`QueueHoldsWhatIsDueExactly`, `OvertakingBreaksOrder`).

## Model

| member | source | states |
|---|---|---|
| Owners.OwnsIsReflexive | app/browser_runtime/contracts.py:31-35 | every owner owns what it recorded itself |
| Owners.OwnsIsTransitive | app/browser_runtime/contracts.py:31-35 | ownership is transitive over all owners, identified or not |
| Owners.MutualOwnershipIsEqualKeys | app/browser_runtime/contracts.py:23-35 | identified owners own each other exactly when their identity keys are equal |
| Owners.OwnsExactly | app/browser_runtime/contracts.py:31-35 | an identified owner owns an identified record exactly when it makes every claim that the record makes |
| Owners.UnidentifiedOwnsExactly | app/browser_runtime/contracts.py:31-35 | without identification only the very same claims own |
| Owners.IdentifiedExactly | app/browser_runtime/contracts.py:23-29 | an owner is identified by any one claim of its key that is not empty |
| SessionRegistry.AsyncSessionRegistry.constructor | app/browser_runtime/session_registry.py:84-99 | whatever is configured, the limits are sane: idle TTL within maximum TTL, per-owner limit within the total, all at least 1; a usable setting is taken as it is |
| SessionRegistry.AsyncSessionRegistry.RemoveExpired | app/browser_runtime/session_registry.py:210-221 | takes exactly the expired, closed or crashed records out of the table and hands over the same record objects |
| SessionRegistry.AsyncSessionRegistry.CloseRecords | app/browser_runtime/session_registry.py:223-229 | one close call per popped record, made one at a time and even when some raise; failures counted; statuses set on these records and no others |
| SessionRegistry.AsyncSessionRegistry.Admit | app/browser_runtime/session_registry.py:121-145 | after the sweep: refuses by the first limit reached, else registers exactly the clamped record |
| SessionRegistry.AsyncSessionRegistry.Create | app/browser_runtime/session_registry.py:101-147 | the whole effect of `create`: the new table, the outcome, which handles it closes - none when it raises -, their status and the failures counted |
| SessionRegistry.AsyncSessionRegistry.Resolve | app/browser_runtime/session_registry.py:149-168 | the whole effect of `resolve`: sweep, lookup, ownership, touch, and the closes, statuses and failures it makes even when it raises |
| SessionRegistry.AsyncSessionRegistry.Close | app/browser_runtime/session_registry.py:170-179 | closes exactly the owned session under the given status, reports a missing one, refuses a foreign one |
| SessionRegistry.AsyncSessionRegistry.CloseAllForExecution | app/browser_runtime/session_registry.py:181-187 | pops and closes exactly the sessions recorded under the execution, with their status and failures |
| SessionRegistry.AsyncSessionRegistry.Expire | app/browser_runtime/session_registry.py:189-193 | pops, closes and counts exactly the stale sessions, with their status and failures |
| SessionRegistry.AsyncSessionRegistry.CloseAll | app/browser_runtime/session_registry.py:195-200 | empties the table, closes every session once, gives each record its status and counts failures |
| SessionStore.HandlesSplit | app/browser_runtime/session_registry.py:210-221 | splitting a table splits its handles without loss or overlap |
| SessionRuns.SectionConservesHandles | app/browser_runtime/session_registry.py:118-221 | in every lock section, handles kept plus handles popped are the handles before, plus the one a successful create adds |
| SessionRuns.SectionKeepsTiming | app/browser_runtime/session_registry.py:128-142 | every section keeps idle deadline = min(last use + idle TTL, maximum), and maximum within creation + maximum TTL |
| SessionRuns.SectionKeepsQuota | app/browser_runtime/session_registry.py:121-145 | every section keeps the per-identity and total quotas |
| SessionLaws.CreateAnswersExactly | app/browser_runtime/session_registry.py:115-127 | create is admitted exactly when the live sessions the caller owns, and all live ones, are below its limits; otherwise which limit is told |
| SessionLaws.CreatedSessionExactly | app/browser_runtime/session_registry.py:128-145 | the new session starts now and has the wished TTLs as far as the limits allow |
| SessionLaws.CreateKeepsTheOthers | app/browser_runtime/session_registry.py:118-127 | a create sweeps exactly the sessions that are not live and leaves the others as they were |
| SessionLaws.ResolveAnswersExactly | app/browser_runtime/session_registry.py:149-168 | resolve answers the session exactly when it is live and owned; a stale or unknown one is not found, a foreign one denied |
| SessionLaws.TouchingExtendsTheDeadline | app/browser_runtime/session_registry.py:161-163 | with touch the last use is now and the idle deadline min(now + idle TTL, maximum); nothing else of the record changes |
| SessionLaws.ResolvingWithoutTouchChangesNothing | app/browser_runtime/session_registry.py:149-168 | without touch every live record stays as it was |
| SessionLaws.ResolveKeepsTheOthers | app/browser_runtime/session_registry.py:149-168 | with or without touch the other live sessions stay as they were, the rest is closed |
| SessionLaws.CloseExactly | app/browser_runtime/session_registry.py:170-179 | close takes exactly the session named, from exactly the callers who own it |
| SessionLaws.CloseExecutionExactly | app/browser_runtime/session_registry.py:181-187 | takes exactly the sessions recorded under the execution |
| SessionLaws.ExpireExactly | app/browser_runtime/session_registry.py:189-193 | takes exactly the sessions that are not live |
| SessionLaws.CloseAllExactly | app/browser_runtime/session_registry.py:195-200 | takes every session |
| SessionLaws.TouchedSessionResolves | app/browser_runtime/session_registry.py:149-168 | in every run a session touched at t resolves for its owner before t + idle TTL and its maximum, whatever else happens, unless somebody closes it or its handle dies |
| SessionLaws.CreatedSessionResolves | app/browser_runtime/session_registry.py:101-168 | the same from its creation on |
| SessionTheorems.ReachableInvariant | app/browser_runtime/session_registry.py:101-229 | handle conservation, timing and quotas hold after every interleaving of lock sections and close calls |
| SessionTheorems.NoHandleIsClosedTwice | app/browser_runtime/session_registry.py:118-147 | no handle is closed twice; created = active + awaiting close + closed + dropped |
| SessionTheorems.QuotasHoldInEveryRun | app/browser_runtime/session_registry.py:115-145 | in every run, sessions of one identity key and all sessions stay within their limits |
| SessionTheorems.ExpiryIsTheIdleTest | app/browser_runtime/session_registry.py:57-58 | for reachable records `expired` is the idle test alone |
| SessionTheorems.NoResolveAfterMaximumTtl | app/browser_runtime/session_registry.py:149-163 | no resolve succeeds at or after creation + maximum TTL, however often the session was touched |
| SessionTheorems.ResolvedHandleIsOpen | app/browser_runtime/session_registry.py:149-168 | a resolved session's handle was neither closed nor is about to be |
| SessionTheorems.DroppedGrowsExactlyOnLoss | app/browser_runtime/session_registry.py:120-127 | a step loses handles exactly when it is a create that swept something out and then hit a limit |
| SessionTheorems.QuiescentRunsCloseEverythingExactly | app/browser_runtime/session_registry.py:118-147 | with no close pending, every created handle is active or closed once if and only if no such create occurred |
| SessionTheorems.DroppedIsNeverClosed | app/browser_runtime/session_registry.py:120-127 | no continuation of a run closes a handle that was dropped |
| SessionTheorems.WhoExceedsTheOwnerLimit | app/browser_runtime/session_registry.py:121-125 | after a create the creator is within the limit; another owner is past it exactly when it owns the creator and had reached the limit |
| SessionTheorems.OwnersStayWithinExactly | app/browser_runtime/session_registry.py:121-145 | every owner stays within the limit throughout a run if and only if no create in it pushes past it one of the finitely many owners made of recorded claims |
| SessionTheorems.AnOwnerMayOwnMoreThanTheLimit | app/browser_runtime/contracts.py:31-35 | a run in which one owner owns more sessions than the limit |
| SessionTheorems.AHandleMayBeDropped | app/browser_runtime/session_registry.py:120-127 | a run that drops a handle |
| RuntimePolicy.RegistryClampIsANoOp | app/browser_runtime/service.py:742-784 | the registry's second clamp changes nothing: records and limits are exactly the service's policy |
| RuntimePolicy.WishesStayWithinTheEnvelope | app/browser_runtime/service.py:742-784 | accepted wishes leave every limit usable and within the operator's - the idle TTL within the maximum TTL -, at most five engines per call |
| RuntimePolicy.WishesAreHonoured | app/browser_runtime/service.py:742-784 | every wish for less is granted, and so is one for longer pauses; where nothing is wished the operator's number stands |
| RuntimePolicy.IdleTtlIsKeptExactly | app/browser_runtime/service.py:746-753 | exactly when the policy keeps the operator's idle TTL |
| RuntimePolicy.AWishMayExtendTheIdleTtl | app/browser_runtime/contracts.py:66-93 | an accepted wish that raises the idle TTL from 900 to 3000 seconds |
| DomainPolicy.DomainConcurrencyState.TryEnter | app/browser_runtime/domain_policy.py:61-71 | enters with a new token exactly when one more holder is within the caller's and every holder's limit, else changes nothing |
| DomainPolicy.DomainLease.Release | app/browser_runtime/domain_policy.py:166-171 | frees the token once; a second release changes nothing |
| DomainLeases.CheckEntersExactly | app/browser_runtime/domain_policy.py:61-71 | a task that looks is let in if and only if one more holder is within its limit and every active one |
| DomainLeases.ArrivalLimitExactly | app/browser_runtime/domain_policy.py:61 | the limit a task brings is the one it asks for, up to the configured maximum |
| DomainLeases.FreeingWakesEveryWaiter | app/browser_runtime/domain_policy.py:166-171 | when a slot is freed every waiting task gets to look again |
| DomainLeases.LeasesStayWithinEveryLimit | app/browser_runtime/domain_policy.py:61-71 | in every reachable state: active leases within every holder's own limit and the maximum, equal to acquired minus released, tokens unique |
| DomainLeases.WaitersCouldNotEnter | app/browser_runtime/domain_policy.py:63-67 | no lost wake-up: while a task waits, one more holder would exceed its own limit or some holder's, and somebody holds a slot |
| DomainLeases.NoSlotLeaks | app/browser_runtime/domain_policy.py:166-171 | releases run through, so slots taken are always those of tasks that pace, hold or release them, and all are free when every task has finished |
| DomainLeases.RunningThroughCancelsNoRelease | app/browser_runtime/domain_policy.py:166-171 | a release that runs through cannot be cancelled between its flag and its pop |
| DomainLeases.NoSlotLeaksExactly | app/browser_runtime/domain_policy.py:84-87 | were the lock contended: when all tasks have ended, all slots are free if and only if no release was cancelled midway |
| DomainLeases.ACancelledReleaseLeaks | app/browser_runtime/domain_policy.py:166-171 | were the lock contended: a run that ends with every task done and a slot taken |
| DomainLeases.LeaksExactlyOnCancelledRelease | app/browser_runtime/domain_policy.py:166-171 | a lease would be leaked in a run exactly when the run cancels a release |
| DomainLeases.ALeakIsForever | app/browser_runtime/domain_policy.py:166-171 | a leaked slot would stay taken in every continuation |
| DomainPacing.Pacer.Pace | app/browser_runtime/domain_policy.py:73-87 | records the second clock reading unless the sleep was cancelled |
| DomainPacing.NextStartKeepsItsDistance | app/browser_runtime/domain_policy.py:74-82 | a recorded start lies at least the requested interval, and at least the configured one, after the previous start of its domain |
| DomainPacing.VisitsWaitExactly | app/browser_runtime/domain_policy.py:72-82 | a visit sleeps exactly when one of the two intervals has not passed, and is recorded unless that sleep is cancelled |
| DomainPacing.SleepIsTheShortfall | app/browser_runtime/domain_policy.py:76-81 | it sleeps for exactly what is missing of the larger interval |
| DomainPacing.FirstVisitWaitsExactly | app/browser_runtime/domain_policy.py:79 | on a domain without a start, time is measured from zero |
| DomainPacing.StartsKeepTheirRequests | app/browser_runtime/domain_policy.py:72-87 | in every run consecutive starts of a domain keep the interval the later one requested |
| DomainPacing.StartsAreSpaced | app/browser_runtime/domain_policy.py:72-87 | starts i and j of a domain lie at least (j - i) minimum intervals apart, whatever interleaves |
| DomainHistory.DomainHistoryStore.RecordOutcome | app/browser_runtime/domain_policy.py:89-126 | the whole effect of `record`, including the prune before it |
| DomainHistory.DomainHistoryStore.PruneAt | app/browser_runtime/domain_policy.py:132-140 | drops exactly the entries silent for the history TTL and counts them |
| DomainHistory.DomainHistoryStore.Lookup | app/browser_runtime/domain_policy.py:128-130 | prunes, then finds the entry |
| DomainHistory.ReportsCountOnce | app/browser_runtime/domain_policy.py:89-126 | what one report does: fresh entries stay, its own entry counts it once in the right counters and remembers its last fields |
| DomainHistory.BreakdownsCountOnce | app/browser_runtime/domain_policy.py:107-117 | and once under its engine and its strategy |
| DomainHistory.EntriesDescribeLiveReports | app/browser_runtime/domain_policy.py:89-140 | after any events an entry exists exactly for domains with live reports, and each counter and `last` field describes those |
| DomainHistory.CountersAddUp | app/browser_runtime/domain_policy.py:107-117 | successes + failures = records since (re)creation; each breakdown sums to its total; fallback successes = the "fallback" strategy |
| DomainHistory.CooldownIsBounded | app/browser_runtime/domain_policy.py:118-125 | a challenge blocks its domain for at least the cooldown and never past the cap |
| DomainHistory.CooldownExactly | app/browser_runtime/domain_policy.py:118-125 | a challenge blocks its domain for the time asked for, cut to between the configured cooldown and the cap |
| BrowserService.BrowserRuntimeService.NavigateAndBuild | app/browser_runtime/service.py:424-563 | the page reported, and whether the session was registered - never a second time -, taken by another task, or closed |
| BrowserService.BrowserRuntimeService.PrimaryAttempt | app/browser_runtime/service.py:120-209 | an attempt ends the loop exactly when conclusive; otherwise its engine is closed |
| BrowserService.BrowserRuntimeService.HandoffToPrimary | app/browser_runtime/service.py:674-740 | the answer that HandoffKeepsStateExactly and HandoffFailsExactly describe; every engine closed except the one returned; a closed session stays registered exactly when the clean, registered page's state cannot be read |
| BrowserService.BrowserRuntimeService.FallbackAttempt | app/browser_runtime/service.py:210-252 | the fallback engine is always closed, at most two engines started, the answer as specified |
| BrowserService.BrowserRuntimeService.OpenLocked | app/browser_runtime/service.py:92-263 | every engine started is closed except at most the returned session; interactive if and only if a session id is returned; at most attempts + 2 engines; the answer is the verdict that the rows of OpenLaws describe; exactly which scripts leave a closed session registered; without eviction nothing is left to other tasks |
| BrowserService.StrandARecord | app/browser_runtime/service.py:711-740 | a call that leaves a closed session registered |
| BrowserService.BrowserRuntimeService.CollectStorage | app/browser_runtime/service.py:793-800 | the loop collects exactly the (origin, name, value) entries |
| OpenDecision.FirstConclusiveAttemptDecides | app/browser_runtime/service.py:120-252 | the first conclusive attempt gives the answer; the fallback is consulted exactly when there is none |
| OpenDecision.SuccessIsUnblocked | app/browser_runtime/service.py:463-469 | a blocked page is never reported as success |
| OpenDecision.SuccessRetainsExactlyOnRequest | app/browser_runtime/service.py:229-246 | a successful open retains a session exactly on request, and then in the primary engine |
| OpenDecision.HumanActionWithoutSessionExactly | app/browser_runtime/service.py:210-234 | human action without a session is asked for exactly when the session was to be kept, all primary attempts were inconclusive and the fallback's page needs a human |
| OpenDecision.HumanActionMayLackASession | app/browser_runtime/service.py:231-234 | such a script |
| OpenDecision.SessionlessStaysSessionless | app/browser_runtime/service.py:472-518 | a caller who did not ask for a session gets none, and is never asked for human action |
| OpenLaws.PageExactly | app/browser_runtime/service.py:443-518 | when an engine gives a page, with which reading of the challenge, and when it is fine, asks for a human or keeps its session |
| OpenLaws.PrimaryAnswersExactly | app/browser_runtime/service.py:120-209 | the first attempt that is clear, not worth a retry or waiting for a human in its session answers, with exactly its page |
| OpenLaws.FallbackAnswersExactly | app/browser_runtime/service.py:210-234 | where no attempt settles, when the fallback's page is the answer and what it says |
| OpenLaws.HandoffFailsExactly | app/browser_runtime/service.py:235-252 | a hand-off ends in the error response if and only if the proxy, the engine or the reading of its state fails |
| OpenLaws.HandoffKeepsStateExactly | app/browser_runtime/service.py:704-735 | a hand-off keeps its session and succeeds if and only if the page is clear and every named cookie and local-storage item of the fallback is in the state read; otherwise it is an error without a session |
| OpenLaws.SuccessLosesNothing | app/browser_runtime/service.py:714-735 | a caller who asked for a session and is told of success through a hand-off has everything the fallback engine collected |
| Base64Url.RoundTrip | app/browser_runtime/security.py:24-29 | decoding undoes encoding for every byte string (sections 5 and 3.2 of RFC 4648) |
| Base64Url.PaddingIsRecovered | app/browser_runtime/security.py:28-29 | the length of the encoded text tells how much padding was stripped |
| Base64Url.EncodeIsInjective | app/browser_runtime/security.py:24-25 | different byte strings encode differently |
| Base64Url.EncodedShape | app/browser_runtime/security.py:24-25 | no '.' in an encoded string; 32 bytes become 43 characters |
| Base64Url.SymbolsAreTheAlphabet | app/browser_runtime/security.py:24-25 | the 64 symbols are those of table 2 of RFC 4648, in order |
| Base64Url.ValuesAreOfSymbols | app/browser_runtime/security.py:28-29 | a character is read as the number whose symbol it is; '+' and '/' stand for '-' and '_' |
| Base64Url.EncodingKeepsTheBits | app/browser_runtime/security.py:24-25 | bit k of symbol i is bit 6 i + k of the bytes, zeros after the last (section 4 of RFC 4648) |
| Base64Url.ForeignCharactersAreSkipped | app/browser_runtime/security.py:28-29 | characters outside both alphabets do not change what is decoded from padded text |
| Capabilities.SplitUndoesJoin | app/browser_runtime/security.py:102 | splitting at the first '.' recovers both parts when the first has none |
| Capabilities.TokenReadsBack | app/browser_runtime/security.py:89-106 | reading a token gives exactly the payload and signature joined in it |
| Capabilities.DerivedSecretsAreLongEnough | app/browser_runtime/security.py:43-52 | a derived secret is 43 characters, so it passes the 32-character check |
| Capabilities.ExecutionsHaveTheirOwnKeys | app/browser_runtime/security.py:43-52 | two executions have different keys wherever the digests of their names differ |
| Capabilities.IssueAnswersExactly | app/browser_runtime/security.py:75-78 | issuing fails exactly on a short key, told first, and on an owner without identity |
| Capabilities.TrailingDotsComeOff | app/browser_runtime/security.py:66-91 | exactly the dots at the end of a granted host come off |
| Capabilities.SignedPayloadsAreAcceptedExactly | app/browser_runtime/security.py:94-127 | a payload signed with the verifier's key is accepted if and only if it is complete, for this audience, on time and grants the operation, and then says what it says |
| Capabilities.IssuedTokensVerifyExactly | app/browser_runtime/client.py:141-149 | a token issued with the client's key choice verifies under the server's exactly when iat - 30 <= now < exp and the operation was granted, with the same owner and grants |
| Capabilities.AcceptanceNeedsTheOwnersKey | app/browser_runtime/server.py:38-43 | an accepted token carries the digest under the key of the owner it names |
| Capabilities.IssuedTokensAreShortLived | app/browser_runtime/security.py:79-83 | issued tokens live between 1 and 300 seconds |
| ReplayGuard.CapabilityVerifier.Verify | app/browser_runtime/server.py:31-51 | the answer and the new nonce table of one call |
| ReplayGuard.TableKnowsExactly | app/browser_runtime/server.py:46-50 | over any run the table holds exactly the nonces of accepted calls whose expiry no pruning since has passed |
| ReplayGuard.AcceptedExactly | app/browser_runtime/server.py:43-51 | over any run a call is accepted if and only if it is authenticated and no earlier accepted call carried its nonce with an expiry past every pruning since |
| ReplayGuard.FreshNonceIsAccepted | app/browser_runtime/server.py:46-51 | an authenticated call whose nonce was never accepted before is accepted |
| ReplayGuard.RefusalsExactly | app/browser_runtime/server.py:31-51 | which refusal a call gets |
| ReplayGuard.IssuedTokenIsAcceptedOnFirstUse | app/browser_runtime/server.py:31-51 | an issued token with a new nonce is accepted on first use, whatever else has run |
| ReplayGuard.RememberedUntilExpiry | app/browser_runtime/server.py:46-50 | an accepted nonce stays in the table until a pruning past its expiry |
| ReplayGuard.SecondAcceptanceNeedsExpiry | app/browser_runtime/server.py:46-51 | a nonce is accepted again only after a pruning past the first acceptance's expiry |
| ReplayGuard.NoTokenIsAcceptedTwice | app/browser_runtime/server.py:46-51 | with a forward clock read once per call, no token is accepted twice over any run |
| ReplayGuard.ReplayGetsThroughExactly | app/browser_runtime/server.py:43-51 | with two readings a replay succeeds if and only if the expiry lies between the replay's readings |
| ReplayGuard.AReplayMayGetThrough | app/browser_runtime/server.py:43-51 | two accepted calls with one issued token |
| ReplayGuard.TableHoldsOnlyTheNearFuture | app/browser_runtime/server.py:46-50 | after an authenticated call the table only holds expiries in (now, now + 330] |
| ItemMatching.MatchItems | scripts/run_evals.py:802-827 | the nested loops compute the greedy matching |
| ItemMatching.TheScanFindsTheBest | scripts/run_evals.py:806-814 | the scan finds the first unused item of the highest positive score |
| ItemMatching.GreedyIsProper | scripts/run_evals.py:804-827 | no item on either side is matched twice, indices are in range, every pair scores |
| ItemMatching.EveryChoiceIsBest | scripts/run_evals.py:805-817 | each match is the best of what earlier items left over |
| ItemMatching.GreedyIsMaximal | scripts/run_evals.py:802-827 | no scoring pair is left with both ends unmatched |
| ItemMatching.GreedyFindsHalfOfAnyMatching | scripts/run_evals.py:802-827 | at least half as many pairs as any matching of scoring pairs |
| ItemMatching.HalfIsTight | scripts/run_evals.py:802-827 | a case where greedy finds exactly half |
| ItemMatching.MatchesCountBothSides | scripts/run_evals.py:770-774 | distinct matched indices on each side number the matches |
| ItemMatching.ScoresAreShares | scripts/run_evals.py:773-774 | precision is the share of the items and recall the share of the expected items that are matched; of nothing, everything is |
| ItemMatching.F1IsTheDiceCoefficient | scripts/run_evals.py:770-775 | before rounding F1 = 2m / (expected + items), within [0, 1] |
| ItemMatching.FieldAccuracy | scripts/run_evals.py:892-905 | the share of matches that agree on a field, 0 without matches |
| ItemMatching.AgreementsCountMatches | scripts/run_evals.py:892-905 | each match whose two items agree counts once |
| ItemMatching.AccuracyIsAProportion | scripts/run_evals.py:892-905 | accuracy lies in [0, 1] and is 1 exactly when every match agrees |
| EventOrder.IsSubsequence | scripts/run_evals.py:1263-1272 | true exactly when a strictly increasing embedding exists |
| ProcessTree.Descendants | app/browser_runtime/events.py:80-87 | for every parent map, cyclic ones too, and every visiting order: exactly the processes whose parent links lead to the root |
| ProcessTree.TreeResources | app/browser_runtime/events.py:80-92 | counts and sums exactly the measured descendants |
| ProxyPool.ProxyResolver.Resolve | app/browser_runtime/proxy.py:65-89 | the answer and the new assignments of one request |
| ProxyPool.ProxyResolver.Invalidate | app/browser_runtime/proxy.py:91-93 | drops the assignment and rotates the domain by one |
| ProxyPool.RotationCountsInvalidations | app/browser_runtime/proxy.py:91-93 | after any run a domain's rotation is its number of invalidations |
| ProxyPool.NamedEndpointIsDetermined | app/browser_runtime/proxy.py:65-89 | a named binding's endpoint depends only on binding, domain and invalidations |
| ProxyPool.EndpointExactly | app/browser_runtime/proxy.py:72-83 | its place in the pool is hash plus invalidations modulo the pool; which of the three errors it raises, and when |
| ProxyPool.AssignmentIsTheLastAnswer | app/browser_runtime/proxy.py:65-93 | in every run an assignment is what the last step on its domain left: the binding answered, from then on for the time to live |
| ProxyPool.UnnamedRequestsAreServedExactly | app/browser_runtime/proxy.py:65-73 | a request without a binding is served if and only if the last step on its domain was a proxied request within the time to live and the count is at least two |
| ProxyPool.DirectMeansDirect | app/browser_runtime/proxy.py:72-73 | asking for a direct connection gives one, whatever is assigned |
| ProxyPool.InvalidationsAreCounted | app/browser_runtime/proxy.py:91-93 | invalidations are counted one by one |
| ProxyPool.StickinessNeverRunsOut | app/browser_runtime/proxy.py:68-88 | the request counter is always the fresh one: stickiness ends only by time or invalidation, or at once when the count is 1 |
| ProxyPool.AStickyBudgetIsNeverUsedUp | app/browser_runtime/proxy.py:68-88 | four requests served by one assignment with a budget of two |
| ProxyPool.RotationVisitsEverySlotOnce | app/browser_runtime/proxy.py:81-82 | any pool-size consecutive invalidations visit every slot exactly once |
| ProxyPool.EveryEndpointGetsItsTurn | app/browser_runtime/proxy.py:79-83 | every endpoint of a pool gets its turn, and is served then if it parses |
| RolloutGate.Summarize | scripts/browser_rollout_check.py:88-151 | the loop's counters, maxima and releases are those of the whole list |
| RolloutLaws.CountersCountScenarios | scripts/browser_rollout_check.py:88-117 | each counter is the number of scenarios that succeeded, ran the fallback, met a challenge or left something behind |
| RolloutLaws.RatesAreShares | scripts/browser_rollout_check.py:136-147 | rates are shares of all samples, the recovery rate one of the challenges; of no samples 0, of no challenges 1 |
| RolloutLaws.ExtremesAreAttained | scripts/browser_rollout_check.py:118-151 | memory and pids are the largest that a scenario gives, from the container where it has both numbers; which sources are listed |
| RolloutLaws.LongestIsAttained | scripts/browser_rollout_check.py:139-142 | the maximum latency is one of the latencies and none is larger |
| RolloutLaws.MeanIsBetween | scripts/browser_rollout_check.py:139-142 | before rounding the mean latency lies between any bounds of the latencies |
| RolloutGate.ReleasesAreDistinct | scripts/browser_rollout_check.py:131-133 | exactly the releases the scenarios name are listed, each once |
| RolloutGate.MergeRecords | scripts/browser_rollout_check.py:154-170 | rejects no records and foreign records, else concatenates and summarises |
| RolloutLaws.MergingKeepsTheOrder | scripts/browser_rollout_check.py:159-162 | merged scenarios stand record after record, each in its order |
| RolloutGate.MergingAddsCountersAndTakesMaxima | scripts/browser_rollout_check.py:154-170 | merging adds every counter and takes the larger maxima, latency included |
| RolloutGate.MergedMeanIsWeighted | scripts/browser_rollout_check.py:139-140 | before rounding, the merged mean latency is the mean of its parts weighted by their samples |
| RolloutGate.MergedSuccessRateIsBetween | scripts/browser_rollout_check.py:154-170 | the merged success rate lies between those of its parts |
| RolloutGate.CompareRecords | scripts/browser_rollout_check.py:173-251 | errors exactly on foreign records; lists the named checks in order; passes exactly when every listed check does, and that is exactly when the tolerances hold |
| RolloutLaws.PassesExactly | scripts/browser_rollout_check.py:173-251 | the gate passes if and only if scenarios and sources agree, every difference is within its tolerance and every measurement within its ratio, nothing was left behind and only the expected release ran |
| RolloutLaws.ARunPassesAgainstItself | scripts/browser_rollout_check.py:173-251 | a clean and measured run passes against itself |
| RolloutGate.AddRatioCheck | scripts/browser_rollout_check.py:281-286 | a metric missing on either side fails its check |
| RolloutChains.DriftIsBounded | scripts/browser_rollout_check.py:186-248 | after k passed gates: success within start - k * drop, rates within start + k * increase, recovery not lower, no cleanup failure |
| RolloutChains.GrowthIsBoundedExactly | scripts/browser_rollout_check.py:208-222 | after k passed gates latency, memory and pids are within start * ratio^k and still measured - for all chains if and only if no ratio is negative |
| RolloutChains.GrowthIsBounded | scripts/browser_rollout_check.py:208-222 | with a negative ratio the same for measurements that are not negative |
| RolloutChains.NegativeLatencyRatioFails | scripts/browser_rollout_check.py:281-286 | for every negative latency ratio, a chain of passed records that breaks the bound |
| RolloutChains.NegativeResourceRatioFails | scripts/browser_rollout_check.py:281-286 | the same for every negative resource ratio |
| GraphDelta.DeltaOf | app/graph/delta.py:13-271 | for every event outside the device branch, and there too if the optional module's own delta is closed, every edge has both ends among the delta's nodes |
| GraphPayload.StripExactly | app/graph/delta.py:686-687 | stripping takes the white space off both ends and nothing else |
| GraphPayload.ListsAreReadExactly | app/graph/delta.py:680-693 | which texts and objects a field yields: those of its list that say something |
| GraphDelta.AnywhereExactly | app/graph/delta.py:119-127 | the outermost name wins, then the inner one in snake case, then in camel case |
| GraphNodes.DetailsExactly | app/graph/delta.py:704-715 | details of a run are told by the first word of their type, tool calls by the first two |
| GraphNodes.IdsAreReadExactly | app/graph/delta.py:79-81 | which texts the ids of a run, a detail and a link are |
| GraphDelta.WorkflowDefinition | app/graph/delta.py:322-414 | a definition brings along every tool, agent, model and task its edges name |
| GraphArcs.WorkflowEdgesAreTheDefinition | app/graph/delta.py:322-414 | the edges of a workflow event are exactly those its listed tools, agents and tasks call for, and none when it is deleted |
| GraphRunArcs.DetailEdgesExactly | app/graph/delta.py:78-143 | the edges of a detail event are exactly those its parent, agent, task, tool call, model and observation call for |
| GraphRunArcs.ObservabilityAdds | app/graph/delta.py:417-545 | which observation each event type makes, and its edges to run and event; a compaction also to the memory it created |
| GraphKnowledgeArcs.MemoryEdgesExactly | app/graph/delta.py:145-198 | a memory's edges are exactly its working set, visited and selected nodes and anchors, unless it is deleted |
| GraphKnowledgeArcs.DocumentEdgesExactly | app/graph/delta.py:200-215 | a document's edges are exactly one to and one from each listed memory |
| GraphKnowledgeArcs.LinkEdgesExactly | app/graph/delta.py:217-249 | a link's edges are exactly those to its memories, unless it is deleted or has no workflow |
| GraphKnowledgeArcs.PersonaEdgesExactly | app/graph/delta.py:548-677 | a persona's edges are exactly those its run, version, item, sources, contents, agent and conversation call for |
| GraphKnowledgeArcs.EdgesAreWhatTheEventSays | app/graph/delta.py:13-271 | for every event outside the device branch, the delta's edges are exactly those the event says |
| GraphEdgeIds.EdgeIdsExactly | app/graph/delta.py:306-310 | for every event outside the device branch, an edge's id is made of source, relation, target and the workflow or link that qualifies it |
| GraphNodes.WorkflowNodesExactly | app/graph/delta.py:322-414 | a workflow event brings the workflow and exactly the tools, agents, models and tasks its definition names, by kind, with their captions |
| GraphNodes.DetailNodesExactly | app/graph/delta.py:78-143 | a detail event brings its run and itself and exactly the records its fields and its observation name, by kind, with their captions |
| GraphKnowledgeNodes.PersonaNodesExactly | app/graph/delta.py:548-677 | a persona event brings exactly the persona and the records its fields name, by kind, with their captions |
| GraphKnowledgeNodes.NodesAreWhatTheEventNames | app/graph/delta.py:13-271 | for every event outside the device branch, the delta's nodes are exactly the records the event names, by kind, each captioned with the first of its names that says something |
| GraphDelta.Observability | app/graph/delta.py:417-545 | the signals of an event only connect nodes that are there |
| GraphDelta.PersonaDelta | app/graph/delta.py:548-677 | the persona branch is closed under edges |
| GraphDeltaBuilder.DeltaFor | app/graph/delta.py:13-271 | the branches, tried in order and appending step by step, build exactly the delta that EdgesAreWhatTheEventSays and NodesAreWhatTheEventNames characterise |
| GraphDeltaBuilder.DeltaBuilder.AppendWorkflowDefinition | app/graph/delta.py:322-414 | the loops over tools, agents and tasks append exactly the specified nodes and edges, in order |
| GraphDeltaBuilder.DeltaBuilder.AppendObservability | app/graph/delta.py:417-545 | at most one of the five signal guards holds, and it appends the specified signal |
| GraphDeltaBuilder.DeltaBuilder.AppendPersona | app/graph/delta.py:548-677 | the persona's lineage, contents and targets are appended in order; what they are is PersonaEdgesExactly |
| GraphLinks.LinkDeltaLists | app/graph/delta.py:217-249 | a link event upserts, or removes, exactly one edge per listed memory |
| GraphLinks.DeletionUndoesUpdate | app/graph/delta.py:217-249 | an update followed by its delete leaves none of the link's edges and every other edge as it was |
| GraphLinks.IdsCollideExactly | app/graph/delta.py:306-310 | two workflow-memory pairs have links that share an id if and only if their stems are equal or one continues the other after a colon |
| GraphLinks.MemoriesCollideExactly | app/graph/delta.py:306-310 | within one workflow: if and only if one memory id continues the other after a colon |
| GraphLinks.PlainPartsMakeUniqueIds | app/graph/delta.py:306-310 | without colons in workflow and memory an edge id determines workflow, memory and link |
| GraphLinks.DeletionRemovesExactly | app/graph/delta.py:226-230 | a deletion removes an edge exactly when one of its memories makes the same id |
| GraphLinks.DeletionSparesOtherLinks | app/graph/delta.py:226-230 | where stems do not collide, a delete removes a link edge exactly when it is its own, whatever the link ids |
| GraphLinks.ADeletionMayTakeAnotherLinksEdge | app/graph/delta.py:217-249 | an update and a deletion of different links after which the first link's edge is gone |
| EventBroker.ConversationEventBroker.Publish | app/conversation_streaming.py:15-19 | every subscriber gets the event at the end of its queue, nobody else does |
| EventBroker.ConversationEventBroker.Subscribe | app/conversation_streaming.py:21-25 | a new empty queue joins the conversation |
| EventBroker.ConversationEventBroker.Unsubscribe | app/conversation_streaming.py:27-34 | the queue leaves, and an empty conversation is forgotten |
| EventBroker.MembershipIsTracked | app/conversation_streaming.py:21-34 | after any run the subscribers are those the steps say |
| EventBroker.NoEmptyConversation | app/conversation_streaming.py:27-34 | no conversation maps to an empty set |
| EventBroker.NothingIsLostOrDuplicated | app/conversation_streaming.py:15-19 | in every interleaving, received plus under way are exactly the events due to a queue |
| EventBroker.QueueHoldsWhatIsDueExactly | app/conversation_streaming.py:15-34 | interrupted or not: with nothing under way to it, a queue holds its due events in order if and only if it was handed the oldest each time |
| EventBroker.OvertakingBreaksOrder | app/conversation_streaming.py:15-19 | were deliveries interrupted: a run of overtaking deliveries that ends out of order |
| EventBroker.QueuesHoldWhatIsDue | app/conversation_streaming.py:15-34 | with uninterrupted publishes a queue holds exactly the events between its subscribe and unsubscribe, in order |

## Left out

- Engine adapters, DOM extraction, screenshots and artifact files: foreign calls; an engine is a script of outcomes.
- HTTP transport, DNS and address checks, telemetry and `/proc` or cgroup reading: input and output.
- `_navigate_existing`, `extract` and `action` on a retained session: single calls on a resolved record.
- BrowserService.BrowserRuntimeService.OpenLocked: no task cancellation and no exception from telemetry or `close()`; the accounting of engine sessions is for calls that run to their end. A session popped by another task in the meantime counts as that task's to close, although a `create` that hits a limit then drops it; without such a pop (`Undisturbed`) nothing is left to others.
- Proxy invalidation within `open`: the proxy is an outcome there, `ProxyPool` treats every order of requests and invalidations.
- Recording the outcome of an `open` in the domain history and releasing its lease: `DomainHistory` and `DomainLeases` are about any order of such calls.
- Session records: the immutable and the updated fields form one value held by the record object; `challenge`, `current_url`, artifacts and the correlation id are not kept.
- Session ids, engine handles, queues and tasks are numbers: only their equality matters.
- `list_for_owner` and `active_count`: read-only views.
- Domain history entries and sticky assignments are values in a map, so a caller that holds on to a returned live object is not captured.
- JSON persistence of the domain history and its error fallback: the table starts empty.
- HMAC, SHA-256, JSON text, lower-casing and Unicode tables: foreign functions with the stated properties.
- Parsing and normalising proxy endpoints: a predicate says whether an endpoint parses.
- `_persona_item_match_score` and text normalisation: the score is an arbitrary function; evidence grounding and conflict quality rest on the same text processing.
- Rounding of scores and latencies, and floating-point arithmetic: exact reals instead.
- RolloutGate.Summarize: the mean and the maximum latency are not rounded; what a release says besides its id is one opaque value.
- RolloutGate.CompareRecords: the expected and actual values printed with each check are not kept.
- Capturing rollout scenarios, `_scenario_succeeded`, files and the command line: input and output, and one boolean formula.
- GraphDelta.DeltaOf: node and edge data, times and metadata are not kept; they are copied from the payload without influence on structure. In which order the nodes and edges stand, and how often a repeated one, is only in the specification functions.
- The optional device module and `_graph_projection_label`: a given delta and a given function on strings.
- `redact` and the challenge tables: regular expressions.
