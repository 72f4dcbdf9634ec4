/**
 * Each registry operation read off the records' own fields: who is answered what, which sessions stay
 * and how, and which leave.
 */
module SessionLaws {
  import opened Wrappers
  import opened Owners
  import opened SessionStore
  import opened SessionRuns

  /** Before both deadlines, with a handle that is neither closed nor crashed. */
  predicate Live(r: Record, now: real, dead: set<nat>) {
    now < r.idleExpiresAt && now < r.maximumExpiresAt && r.handle !in dead
  }

  function LiveIds(store: Store, now: real, dead: set<nat>): set<SessionId> {
    set id | id in store && Live(store[id], now, dead)
  }

  /** Exactly the live sessions stay, as they were; the others leave. */
  predicate KeepsTheLive(store: Store, now: real, dead: set<nat>, after: Store, popped: Store) {
    && after.Keys == LiveIds(store, now, dead) && popped.Keys == store.Keys - after.Keys
    && (forall id :: id in after ==> after[id] == store[id])
    && (forall id :: id in popped ==> popped[id] == store[id])
  }

  /** The smaller of a wish and the registry's own number; no wish, or 0, is none. */
  function AtMost(wish: Option<int>, own: int): int {
    if wish.Some? && wish.value != 0 && wish.value < own then wish.value else own
  }

  // ---------------------------------------------------------------- resolve

  /** A session resolves exactly when it is live and the caller owns it; unknown is told before foreign. */
  lemma ResolveAnswersExactly(limits: Limits, store: Store, op: Op, now: real, dead: set<nat>)
    requires op.Resolve?
    ensures var outcome := RunSection(limits, store, op, now, dead).outcome;
      if op.sid !in store || !Live(store[op.sid], now, dead) then outcome == Raised(NotFound)
      else if !op.owner.Owns(store[op.sid].owner) then outcome == Raised(AccessDenied)
      else outcome.Resolved? && op.sid in RunSection(limits, store, op, now, dead).store
           && outcome.record == RunSection(limits, store, op, now, dead).store[op.sid]
  {
  }

  /** Touching moves last use and idle deadline of the resolved session; nothing else about it changes. */
  lemma TouchingExtendsTheDeadline(limits: Limits, store: Store, op: Op, now: real, dead: set<nat>)
    requires op.Resolve? && op.touch && RunSection(limits, store, op, now, dead).outcome.Resolved?
    ensures var before, after := store[op.sid], RunSection(limits, store, op, now, dead).store[op.sid];
      && after.lastUsedAt == now
      && after.idleExpiresAt == (if now + before.idleTtl as real <= before.maximumExpiresAt
                                 then now + before.idleTtl as real else before.maximumExpiresAt)
      && after.owner == before.owner && after.handle == before.handle && after.createdAt == before.createdAt
      && after.maximumExpiresAt == before.maximumExpiresAt && after.idleTtl == before.idleTtl
  {
  }

  lemma ResolvingWithoutTouchChangesNothing(limits: Limits, store: Store, op: Op, now: real, dead: set<nat>)
    requires op.Resolve? && !op.touch
    ensures var s := RunSection(limits, store, op, now, dead);
      KeepsTheLive(store, now, dead, s.store, s.popped)
  {
  }

  /** Whatever it answers, a resolve sweeps and closes, and leaves the other sessions alone. */
  lemma ResolveKeepsTheOthers(limits: Limits, store: Store, op: Op, now: real, dead: set<nat>)
    requires op.Resolve?
    ensures var s := RunSection(limits, store, op, now, dead);
      && s.closes && s.store.Keys == LiveIds(store, now, dead)
      && s.popped.Keys == store.Keys - LiveIds(store, now, dead)
      && forall id :: id in s.store && id != op.sid ==> s.store[id] == store[id]
  {
  }

  // ---------------------------------------------------------------- create

  /** A create is admitted exactly below both limits; the limit of the owner is told first. */
  lemma CreateAnswersExactly(limits: Limits, store: Store, op: Op, now: real, dead: set<nat>)
    requires op.Create?
    ensures var outcome := RunSection(limits, store, op, now, dead).outcome;
      var live := LiveIds(store, now, dead);
      var owned := set id | id in live && op.owner.Owns(store[id].owner);
      var perOwner, total := AtMost(op.wishes.perOwner, limits.perOwner), AtMost(op.wishes.total, limits.total);
      if !op.owner.IsIdentified() then outcome == Raised(AccessDenied)
      else if |owned| >= perOwner then outcome == Raised(OwnerLimit(perOwner))
      else if |live| >= total then outcome == Raised(RuntimeLimit(total))
      else outcome.Created?
  {
    var kept := Kept(store, now, dead);
    var live := LiveIds(store, now, dead);
    assert kept.Keys == live && |kept| == |kept.Keys|;
    assert OwnedBy(kept, op.owner) == set id | id in live && op.owner.Owns(store[id].owner);
  }

  /** The new session starts now, and lives as long as the wishes and the limits let it. */
  lemma CreatedSessionExactly(limits: Limits, store: Store, op: Op, now: real, dead: set<nat>)
    requires op.Create? && RunSection(limits, store, op, now, dead).outcome.Created?
    ensures var after := RunSection(limits, store, op, now, dead).store;
      var maximum := AtMost(op.wishes.maximumTtl, limits.maximumTtl);
      var wished := if op.wishes.idleTtl.Some? && op.wishes.idleTtl.value != 0 then op.wishes.idleTtl.value
                    else limits.idleTtl;
      var idle := if wished <= maximum then wished else maximum;
      && op.sid in after && RunSection(limits, store, op, now, dead).outcome.record == after[op.sid]
      && after[op.sid].owner == op.owner && after[op.sid].handle == op.handle
      && after[op.sid].createdAt == now && after[op.sid].lastUsedAt == now && after[op.sid].idleTtl == idle
      && after[op.sid].idleExpiresAt == now + idle as real
      && after[op.sid].maximumExpiresAt == now + maximum as real
  {
  }

  /** Creating sweeps, and closes what it swept unless a limit refuses it. */
  lemma CreateKeepsTheOthers(limits: Limits, store: Store, op: Op, now: real, dead: set<nat>)
    requires op.Create? && op.sid !in store
    ensures var s := RunSection(limits, store, op, now, dead);
      if !op.owner.IsIdentified() then s.store == store && s.popped == map[]
      else
        && KeepsTheLive(store, now, dead, s.store - {op.sid}, s.popped)
        && (s.closes <==> s.outcome.Created?) && (op.sid in s.store <==> s.outcome.Created?)
  {
    hide RefusalFor, NewRecord;
    var kept := Kept(store, now, dead);
    assert kept.Keys == LiveIds(store, now, dead) && Swept(store, now, dead).Keys == store.Keys - kept.Keys;
    assert kept - {op.sid} == kept;
  }

  // ---------------------------------------------------------------- closing

  lemma CloseExactly(limits: Limits, store: Store, op: Op, now: real, dead: set<nat>)
    requires op.Close?
    ensures var s := RunSection(limits, store, op, now, dead);
      && s.closes
      && if op.sid !in store then s.outcome == Closed(false) && s.store == store && s.popped == map[]
         else if op.owner.Owns(store[op.sid].owner) then
           && s.outcome == Closed(true) && s.popped == map[op.sid := store[op.sid]]
           && s.store.Keys == store.Keys - {op.sid} && forall id :: id in s.store ==> s.store[id] == store[id]
         else s.outcome == Raised(AccessDenied) && s.store == store && s.popped == map[]
  {
  }

  /** Exactly the sessions that a predicate picks leave, are counted and are closed. */
  ghost predicate Takes(store: Store, s: Section, picked: set<SessionId>) {
    && s.closes && s.outcome == Count(|picked|)
    && picked <= store.Keys && s.popped.Keys == picked && s.store.Keys == store.Keys - picked
    && (forall id :: id in s.store ==> s.store[id] == store[id])
    && (forall id :: id in s.popped ==> s.popped[id] == store[id])
  }

  function RecordedUnder(store: Store, executionId: string): set<SessionId> {
    set id | id in store && store[id].owner.executionId == Some(executionId)
  }

  lemma CloseExecutionExactly(limits: Limits, store: Store, op: Op, now: real, dead: set<nat>)
    requires op.CloseExecution?
    ensures Takes(store, RunSection(limits, store, op, now, dead), RecordedUnder(store, op.executionId))
  {
    var s := RunSection(limits, store, op, now, dead);
    assert s == CloseExecutionSection(store, op.executionId);
    hide RunSection;
    assert s.popped.Keys == RecordedUnder(store, op.executionId);
    assert |s.popped| == |s.popped.Keys|;
  }

  lemma ExpireExactly(limits: Limits, store: Store, now: real, dead: set<nat>)
    ensures Takes(store, RunSection(limits, store, Expire, now, dead), store.Keys - LiveIds(store, now, dead))
  {
    var s := RunSection(limits, store, Expire, now, dead);
    assert s.popped.Keys == store.Keys - LiveIds(store, now, dead);
    assert |s.popped| == |s.popped.Keys|;
  }

  lemma CloseAllExactly(limits: Limits, store: Store, now: real, dead: set<nat>)
    ensures Takes(store, RunSection(limits, store, CloseAll, now, dead), store.Keys)
  {
    assert |store| == |store.Keys|;
  }

  // ---------------------------------------------------------------- a session that is used stays

  /** The record is there, unchanged but for later use, and idle no earlier than `deadline`. */
  predicate LastsUntil(store: Store, sid: SessionId, r: Record, deadline: real) {
    && sid in store
    && store[sid].owner == r.owner && store[sid].handle == r.handle && store[sid].idleTtl == r.idleTtl
    && store[sid].maximumExpiresAt == r.maximumExpiresAt
    && store[sid].idleExpiresAt >= deadline
  }

  /** A step that neither closes the session nor happens outside `since` and `deadline`, while its handle lives. */
  predicate Spares(step: Step, sid: SessionId, r: Record, since: real, deadline: real) {
    step.Lock? ==>
      && since <= step.now < deadline && r.handle !in step.dead
      && !step.op.CloseAll?
      && !(step.op.Close? && step.op.sid == sid && step.op.owner.Owns(r.owner))
      && !(step.op.CloseExecution? && r.owner.executionId == Some(step.op.executionId))
  }

  lemma TouchNeverShortens(r: Record, since: real, now: real, deadline: real)
    requires since <= now && deadline <= since + r.idleTtl as real && deadline <= r.maximumExpiresAt
    ensures Touched(r, now).idleExpiresAt >= deadline
  {
  }

  lemma SparingStepKeeps(limits: Limits, w: World, step: Step, sid: SessionId, r: Record, since: real, deadline: real)
    requires Enabled(w, step) && Spares(step, sid, r, since, deadline) && LastsUntil(w.store, sid, r, deadline)
    requires deadline <= since + r.idleTtl as real && deadline <= r.maximumExpiresAt
    ensures LastsUntil(Next(limits, w, step).store, sid, r, deadline)
  {
    if step.Lock? {
      assert step.op.Create? || step.op.Resolve? || step.op.Expire? ==> !Stale(w.store[sid], step.now, step.dead);
      if step.op.Resolve? && step.op.sid == sid {
        TouchNeverShortens(w.store[sid], since, step.now, deadline);
      }
    }
  }

  predicate AllSpare(steps: seq<Step>, sid: SessionId, r: Record, since: real, deadline: real) {
    forall i :: 0 <= i < |steps| ==> Spares(steps[i], sid, r, since, deadline)
  }

  lemma {:induction false} SparedSessionLasts(limits: Limits, steps: seq<Step>, more: seq<Step>, w: World, later: World,
                                              sid: SessionId, r: Record, since: real, deadline: real)
    requires Run(limits, steps) == Some(w) && Run(limits, steps + more) == Some(later)
    requires LastsUntil(w.store, sid, r, deadline) && AllSpare(more, sid, r, since, deadline)
    requires deadline <= since + r.idleTtl as real && deadline <= r.maximumExpiresAt
    ensures LastsUntil(later.store, sid, r, deadline)
    decreases |more|
  {
    hide Next, LastsUntil, Spares;
    if more == [] {
      assert steps + more == steps;
    } else {
      var all := steps + more;
      var n := |all| - 1;
      assert all[..n] == steps + more[..|more| - 1] && all[n] == more[|more| - 1];
      var before := Run(limits, all[..n]).value;
      SparedSessionLasts(limits, steps, more[..|more| - 1], w, before, sid, r, since, deadline);
      SparingStepKeeps(limits, before, all[n], sid, r, since, deadline);
    }
  }

  /**
   * A session touched at `now` resolves for its owner at any time before its TTL has passed since and
   * before its maximum, whatever others do in between, as long as nobody closes it and its handle lives.
   */
  lemma TouchedSessionResolves(limits: Limits, steps: seq<Step>, w: World, touch: Step, more: seq<Step>, later: World,
                               again: Op, at: real, dead: set<nat>)
    requires Run(limits, steps) == Some(w) && Run(limits, steps + [touch] + more) == Some(later)
    requires touch.Lock? && touch.op.Resolve? && touch.op.touch
    requires RunSection(limits, w.store, touch.op, touch.now, touch.dead).outcome.Resolved?
    requires again.Resolve? && again.sid == touch.op.sid
    requires var r := RunSection(limits, w.store, touch.op, touch.now, touch.dead).outcome.record;
      && AllSpare(more, again.sid, r, touch.now, at)
      && again.owner.Owns(r.owner) && r.handle !in dead
      && touch.now <= at < touch.now + r.idleTtl as real && at < r.maximumExpiresAt
    ensures RunSection(limits, later.store, again, at, dead).outcome.Resolved?
  {
    hide CreateSection, ResolveSection, Spares;
    var r := RunSection(limits, w.store, touch.op, touch.now, touch.dead).outcome.record;
    assert (steps + [touch])[..|steps|] == steps;
    var touched := Next(limits, w, touch);
    TouchingExtendsTheDeadline(limits, w.store, touch.op, touch.now, touch.dead);
    ResolveAnswersExactly(limits, w.store, touch.op, touch.now, touch.dead);
    SparedSessionOutlasts(limits, steps + [touch], more, touched, later, again.sid, r, touch.now, at);
    ResolveAnswersExactly(limits, later.store, again, at, dead);
  }

  /** As SparedSessionLasts, up to a moment strictly before both deadlines. */
  lemma SparedSessionOutlasts(limits: Limits, steps: seq<Step>, more: seq<Step>, w: World, later: World,
                              sid: SessionId, r: Record, since: real, at: real)
    requires Run(limits, steps) == Some(w) && Run(limits, steps + more) == Some(later)
    requires sid in w.store && w.store[sid] == r && at < r.idleExpiresAt
    requires AllSpare(more, sid, r, since, at)
    requires at < since + r.idleTtl as real && at < r.maximumExpiresAt
    ensures sid in later.store && later.store[sid].owner == r.owner && later.store[sid].handle == r.handle
    ensures later.store[sid].maximumExpiresAt == r.maximumExpiresAt && at < later.store[sid].idleExpiresAt
  {
    var last := MinReal(r.idleExpiresAt, MinReal(since + r.idleTtl as real, r.maximumExpiresAt));
    forall i | 0 <= i < |more| ensures Spares(more[i], sid, r, since, last) {
      assert Spares(more[i], sid, r, since, at);
    }
    SparedSessionLasts(limits, steps, more, w, later, sid, r, since, last);
  }

  lemma {:induction false} EveryPrefixRuns(limits: Limits, steps: seq<Step>, more: seq<Step>)
    requires Run(limits, steps + more).Some?
    ensures Run(limits, steps).Some?
    decreases |more|
  {
    hide Next, Enabled;
    var all := steps + more;
    if more == [] {
      assert all == steps;
    } else {
      assert all[..|all| - 1] == steps + more[..|more| - 1];
      EveryPrefixRuns(limits, steps, more[..|more| - 1]);
    }
  }

  /** The same for a session that was just created. */
  lemma CreatedSessionResolves(limits: Limits, steps: seq<Step>, w: World, create: Step, more: seq<Step>, later: World,
                               again: Op, at: real, dead: set<nat>)
    requires Run(limits, steps) == Some(w) && Run(limits, steps + [create] + more) == Some(later)
    requires create.Lock? && create.op.Create?
    requires RunSection(limits, w.store, create.op, create.now, create.dead).outcome.Created?
    requires again.Resolve? && again.sid == create.op.sid
    requires var r := RunSection(limits, w.store, create.op, create.now, create.dead).outcome.record;
      && AllSpare(more, again.sid, r, create.now, at)
      && again.owner.Owns(create.op.owner) && create.op.handle !in dead
      && create.now <= at < create.now + r.idleTtl as real && at < r.maximumExpiresAt
    ensures RunSection(limits, later.store, again, at, dead).outcome.Resolved?
  {
    hide CreateSection, ResolveSection, Spares;
    var r := RunSection(limits, w.store, create.op, create.now, create.dead).outcome.record;
    EveryPrefixRuns(limits, steps + [create], more);
    assert (steps + [create])[..|steps|] == steps;
    CreatedSessionExactly(limits, w.store, create.op, create.now, create.dead);
    SparedSessionOutlasts(limits, steps + [create], more, Next(limits, w, create), later, again.sid, r, create.now, at);
    ResolveAnswersExactly(limits, later.store, again, at, dead);
  }
}
