/** What holds after every run of the session registry. */
module SessionTheorems {
  import opened Wrappers
  import opened Owners
  import opened SessionStore
  import opened SessionRuns

  lemma AfterSectionConserves(w: World, op: Op, s: Section)
    requires Conserved(w) && HandlesConserved(w.store, op, s)
    requires op.Create? ==> op.handle !in w.created
    ensures Conserved(AfterSection(w, op, s))
  {
    var w' := AfterSection(w, op, s);
    forall h ensures
      && w'.created[h] == multiset(Handles(w'.store))[h] + w'.pending[h] + w'.closed[h] + w'.dropped[h]
      && w'.created[h] <= 1
    {
      var added := if op.Create? && s.outcome.Created? then multiset{op.handle} else multiset{};
      assert (multiset(Handles(s.store)) + multiset(Handles(s.popped)))[h] == (multiset(Handles(w.store)) + added)[h];
      assert w.created[h] == multiset(Handles(w.store))[h] + w.pending[h] + w.closed[h] + w.dropped[h];
    }
  }

  lemma StepKeepsConservation(limits: Limits, w: World, step: Step)
    requires Enabled(w, step) && Conserved(w)
    ensures Conserved(Next(limits, w, step))
  {
    if step.Lock? {
      assert step.op.Create? ==> step.op.handle !in Handles(w.store);
      SectionConservesHandles(limits, w.store, step.op, step.now, step.dead);
      AfterSectionConserves(w, step.op, RunSection(limits, w.store, step.op, step.now, step.dead));
    }
  }

  lemma {:induction false} ReachableInvariant(limits: Limits, steps: seq<Step>, w: World)
    requires limits.Sane() && Run(limits, steps) == Some(w)
    ensures Conserved(w) && AllTimed(limits, w.store) && WithinQuota(limits, w.store)
  {
    if steps == [] {
      assert Handles(w.store) == {};
      assert forall key :: SameKey(w.store, key) == {};
    } else {
      var before := Run(limits, steps[..|steps| - 1]).value;
      var step := steps[|steps| - 1];
      ReachableInvariant(limits, steps[..|steps| - 1], before);
      StepKeepsConservation(limits, before, step);
      if step.Lock? {
        SectionKeepsTiming(limits, before.store, step.op, step.now, step.dead);
        SectionKeepsQuota(limits, before.store, step.op, step.now, step.dead);
      }
    }
  }

  /**
   * In every interleaving each handle is closed at most once, and every created handle is active,
   * awaiting its close, closed or dropped.
   */
  lemma NoHandleIsClosedTwice(limits: Limits, steps: seq<Step>, w: World)
    requires limits.Sane() && Run(limits, steps) == Some(w)
    ensures forall h :: w.closed[h] <= 1
    ensures |w.created| == |w.store| + |w.pending| + |w.closed| + |w.dropped|
  {
    ReachableInvariant(limits, steps, w);
    HandleCount(w.store);
    forall h ensures w.closed[h] <= 1 {
      assert w.created[h] <= 1;
    }
  }

  /** Sessions under one identity key and sessions in all stay within the configured limits. */
  lemma QuotasHoldInEveryRun(limits: Limits, steps: seq<Step>, w: World, key: IdentityKey)
    requires limits.Sane() && Run(limits, steps) == Some(w)
    ensures |SameKey(w.store, key)| <= limits.perOwner && |w.store| <= limits.total
  {
    ReachableInvariant(limits, steps, w);
  }

  /** A record's idle deadline never passes its maximum, so expiry is the idle test alone. */
  lemma ExpiryIsTheIdleTest(limits: Limits, steps: seq<Step>, w: World, id: SessionId, now: real)
    requires limits.Sane() && Run(limits, steps) == Some(w) && id in w.store
    ensures w.store[id].Expired(now) <==> now >= w.store[id].idleExpiresAt
  {
    ReachableInvariant(limits, steps, w);
    assert Timed(limits, w.store[id]);
  }

  /** No amount of touching keeps a session usable past its creation plus the maximum TTL. */
  lemma NoResolveAfterMaximumTtl(limits: Limits, steps: seq<Step>, w: World, op: Op, now: real, dead: set<nat>)
    requires limits.Sane() && Run(limits, steps) == Some(w)
    requires op.Resolve? && ResolveSection(w.store, op, now, dead).outcome.Resolved?
    ensures var r := ResolveSection(w.store, op, now, dead).outcome.record;
      now < r.createdAt + limits.maximumTtl as real && op.owner.Owns(r.owner)
  {
    ReachableInvariant(limits, steps, w);
    assert Timed(limits, w.store[op.sid]);
  }

  /** A resolved session's handle has not been closed, and nobody is about to close it. */
  lemma ResolvedHandleIsOpen(limits: Limits, steps: seq<Step>, w: World, op: Op, now: real, dead: set<nat>)
    requires limits.Sane() && Run(limits, steps) == Some(w)
    requires op.Resolve? && ResolveSection(w.store, op, now, dead).outcome.Resolved?
    ensures var h := ResolveSection(w.store, op, now, dead).outcome.record.handle;
      h !in w.closed && h !in w.pending && h !in w.dropped && h !in dead
  {
    ReachableInvariant(limits, steps, w);
    var h := w.store[op.sid].handle;
    assert h in Handles(w.store);
    assert w.created[h] == multiset(Handles(w.store))[h] + w.pending[h] + w.closed[h] + w.dropped[h] <= 1;
  }

  // ---------------------------------------------------------------- handles that nobody closes

  /** A create that sweeps something out and is then refused for a limit. */
  predicate LosesHandles(limits: Limits, w: World, step: Step) {
    && step.Lock? && step.op.Create? && step.op.owner.IsIdentified()
    && Swept(w.store, step.now, step.dead) != map[]
    && RefusalFor(limits, Kept(w.store, step.now, step.dead), step.op.owner, step.op.wishes).Some?
  }

  /** No step of the run loses handles. */
  predicate NeverLosesHandles(limits: Limits, steps: seq<Step>) {
    steps == [] ||
    var n := |steps| - 1;
    && NeverLosesHandles(limits, steps[..n])
    && (Run(limits, steps[..n]).Some? ==> !LosesHandles(limits, Run(limits, steps[..n]).value, steps[n]))
  }

  lemma DroppedGrowsExactlyOnLoss(limits: Limits, w: World, step: Step)
    requires Enabled(w, step)
    ensures w.dropped <= Next(limits, w, step).dropped
    ensures Next(limits, w, step).dropped != w.dropped <==> LosesHandles(limits, w, step)
  {
    if step.Lock? && step.op.Create? {
      var s := CreateSection(limits, w.store, step.op, step.now, step.dead);
      if s.popped == map[] {
        assert Handles(s.popped) == {};
      } else {
        var id :| id in s.popped;
        assert s.popped[id].handle in Handles(s.popped);
        assert multiset(Handles(s.popped))[s.popped[id].handle] == 1;
      }
      if !s.closes {
        assert Next(limits, w, step).dropped == w.dropped + multiset(Handles(s.popped));
      }
    }
  }

  lemma {:induction false} NothingDroppedExactly(limits: Limits, steps: seq<Step>, w: World)
    requires Run(limits, steps) == Some(w)
    ensures w.dropped == multiset{} <==> NeverLosesHandles(limits, steps)
  {
    if steps != [] {
      var n := |steps| - 1;
      var before := Run(limits, steps[..n]).value;
      NothingDroppedExactly(limits, steps[..n], before);
      DroppedGrowsExactlyOnLoss(limits, before, steps[n]);
    }
  }

  /**
   * Once no close is awaited, every created handle is active or closed exactly once - if and only
   * if no create in the run swept records out and was then refused for a limit.
   */
  lemma QuiescentRunsCloseEverythingExactly(limits: Limits, steps: seq<Step>, w: World)
    requires limits.Sane() && Run(limits, steps) == Some(w) && w.pending == multiset{}
    ensures (forall h :: h in w.created ==> h in Handles(w.store) || w.closed[h] == 1)
      <==> NeverLosesHandles(limits, steps)
  {
    ReachableInvariant(limits, steps, w);
    NothingDroppedExactly(limits, steps, w);
    if w.dropped == multiset{} {
      forall h | h in w.created ensures h in Handles(w.store) || w.closed[h] == 1 {
        assert w.created[h] == multiset(Handles(w.store))[h] + w.closed[h];
      }
    } else {
      var h :| h in w.dropped;
      assert w.created[h] == multiset(Handles(w.store))[h] + w.closed[h] + w.dropped[h] <= 1;
      assert h in w.created && h !in Handles(w.store) && w.closed[h] == 0;
    }
  }

  lemma {:induction false} DroppedOnlyGrows(limits: Limits, steps: seq<Step>, more: seq<Step>, w: World, later: World)
    requires Run(limits, steps) == Some(w) && Run(limits, steps + more) == Some(later)
    ensures w.dropped <= later.dropped
    decreases |more|
  {
    if more == [] {
      assert steps + more == steps;
    } else {
      var all := steps + more;
      var n := |all| - 1;
      assert all[..n] == steps + more[..|more| - 1];
      var before := Run(limits, all[..n]).value;
      DroppedOnlyGrows(limits, steps, more[..|more| - 1], w, before);
      DroppedGrowsExactlyOnLoss(limits, before, all[n]);
    }
  }

  /** A dropped handle stays open: no continuation of the run ever closes it. */
  lemma DroppedIsNeverClosed(limits: Limits, steps: seq<Step>, more: seq<Step>, w: World, later: World, h: nat)
    requires limits.Sane()
    requires Run(limits, steps) == Some(w) && Run(limits, steps + more) == Some(later)
    requires h in w.dropped
    ensures later.closed[h] == 0 && h !in Handles(later.store) && h !in later.pending
  {
    DroppedOnlyGrows(limits, steps, more, w, later);
    ReachableInvariant(limits, steps + more, later);
    assert later.dropped[h] >= w.dropped[h] >= 1;
    assert later.created[h] ==
      multiset(Handles(later.store))[h] + later.pending[h] + later.closed[h] + later.dropped[h] <= 1;
  }

  // ---------------------------------------------------------------- the limit per owner

  lemma OwnedAfterAdding(kept: Store, sid: SessionId, record: Record, q: OwnerClaims)
    requires sid !in kept
    ensures |OwnedBy(kept[sid := record], q)| == |OwnedBy(kept, q)| + if q.Owns(record.owner) then 1 else 0
  {
    assert OwnedBy(kept[sid := record], q) == OwnedBy(kept, q) + if q.Owns(record.owner) then {sid} else {};
  }

  /**
   * The owner limit binds the creator.  Some other owner q is pushed past it exactly when q owns
   * the creator and had already reached the limit, because ownership is not symmetric.
   */
  lemma WhoExceedsTheOwnerLimit(limits: Limits, store: Store, op: Op, now: real, dead: set<nat>, q: OwnerClaims)
    requires op.Create? && op.sid !in store
    requires CreateSection(limits, store, op, now, dead).outcome.Created?
    requires |OwnedBy(Kept(store, now, dead), q)| <= limits.perOwner
    ensures var after := CreateSection(limits, store, op, now, dead).store;
      && |OwnedBy(after, op.owner)| <= limits.perOwner
      && (|OwnedBy(after, q)| > limits.perOwner <==>
           q.Owns(op.owner) && |OwnedBy(Kept(store, now, dead), q)| == limits.perOwner)
  {
    var kept := Kept(store, now, dead);
    var record := NewRecord(limits, op.owner, op.handle, op.wishes, now);
    OwnedAfterAdding(kept, op.sid, record, op.owner);
    OwnedAfterAdding(kept, op.sid, record, q);
  }

  ghost predicate OwnersWithin(limits: Limits, store: Store) {
    forall q :: |OwnedBy(store, q)| <= limits.perOwner
  }

  /** The values of one claim among the recorded owners and a new one, and its absence. */
  function Executions(kept: Store, owner: OwnerClaims): set<Option<string>> {
    {None, owner.executionId} + set id | id in kept :: kept[id].owner.executionId
  }

  function Workspaces(kept: Store, owner: OwnerClaims): set<Option<string>> {
    {None, owner.workspaceId} + set id | id in kept :: kept[id].owner.workspaceId
  }

  function Users(kept: Store, owner: OwnerClaims): set<Option<string>> {
    {None, owner.userId} + set id | id in kept :: kept[id].owner.userId
  }

  function Actors(kept: Store, owner: OwnerClaims): set<Option<string>> {
    {None, owner.actor} + set id | id in kept :: kept[id].owner.actor
  }

  /** The owners that can be put together from claims already recorded and those of a new owner. */
  function Candidates(kept: Store, owner: OwnerClaims): set<OwnerClaims> {
    set e, w, u, a |
      && e in Executions(kept, owner) && w in Workspaces(kept, owner)
      && u in Users(kept, owner) && a in Actors(kept, owner)
      :: OwnerClaims(e, None, None, None, w, u, a)
  }

  /** A successful create whose owner belongs to one of finitely many who have reached the limit already. */
  predicate Overflows(limits: Limits, w: World, step: Step) {
    && step.Lock? && step.op.Create?
    && CreateSection(limits, w.store, step.op, step.now, step.dead).outcome.Created?
    && AddingOverflows(limits, Kept(w.store, step.now, step.dead), step.op.owner)
  }

  predicate AddingOverflows(limits: Limits, kept: Store, owner: OwnerClaims) {
    exists q :: q in Candidates(kept, owner) && OwnsFull(limits, kept, q, owner)
  }

  predicate OwnsFull(limits: Limits, kept: Store, q: OwnerClaims, owner: OwnerClaims) {
    q.Owns(owner) && |OwnedBy(kept, q)| >= limits.perOwner
  }

  function Only(claims: set<Option<string>>, claim: Option<string>): Option<string> {
    if claim in claims then claim else None
  }

  /** An owner without the claims that nobody recorded makes. */
  function Trimmed(q: OwnerClaims, kept: Store, owner: OwnerClaims): OwnerClaims {
    OwnerClaims(
      Only(Executions(kept, owner), q.executionId), None, None, None,
      Only(Workspaces(kept, owner), q.workspaceId), Only(Users(kept, owner), q.userId),
      Only(Actors(kept, owner), q.actor))
  }

  lemma TrimmedIsACandidate(q: OwnerClaims, kept: Store, owner: OwnerClaims)
    ensures Trimmed(q, kept, owner) in Candidates(kept, owner)
  {
    assert None in Executions(kept, owner) && None in Workspaces(kept, owner);
    assert None in Users(kept, owner) && None in Actors(kept, owner);
  }

  /** Trimming loses nothing that q owned: whatever an identified record demands was recorded. */
  lemma TrimmedOwns(q: OwnerClaims, kept: Store, owner: OwnerClaims, recorded: OwnerClaims)
    requires q.Owns(recorded) && q.IsIdentified() && recorded.IsIdentified()
    requires recorded.executionId in Executions(kept, owner) && recorded.workspaceId in Workspaces(kept, owner)
    requires recorded.userId in Users(kept, owner) && recorded.actor in Actors(kept, owner)
    ensures Trimmed(q, kept, owner).Owns(recorded)
  {
    hide Executions, Workspaces, Users, Actors;
  }

  lemma TrimmedOwnsFull(limits: Limits, kept: Store, q: OwnerClaims, owner: OwnerClaims)
    requires AllTimed(limits, kept) && owner.IsIdentified() && OwnsFull(limits, kept, q, owner)
    ensures OwnsFull(limits, kept, Trimmed(q, kept, owner), owner)
  {
    var p := Trimmed(q, kept, owner);
    TrimmedOwns(q, kept, owner, owner);
    forall id | id in OwnedBy(kept, q) ensures id in OwnedBy(kept, p) {
      assert Timed(limits, kept[id]);
      TrimmedOwns(q, kept, owner, kept[id].owner);
    }
    SubsetCount(OwnedBy(kept, q), OwnedBy(kept, p));
  }

  lemma ShrinkingKeepsOwnersWithin(limits: Limits, small: Store, large: Store)
    requires OwnersWithin(limits, large) && Within(small, large)
    ensures OwnersWithin(limits, small)
  {
    forall q ensures |OwnedBy(small, q)| <= limits.perOwner {
      SubsetCount(OwnedBy(small, q), OwnedBy(large, q));
    }
  }

  lemma AddingOverflowsExactly(limits: Limits, kept: Store, sid: SessionId, record: Record)
    requires OwnersWithin(limits, kept) && AllTimed(limits, kept) && sid !in kept && record.owner.IsIdentified()
    ensures OwnersWithin(limits, kept[sid := record]) <==> !AddingOverflows(limits, kept, record.owner)
  {
    hide Candidates, Trimmed;
    var after := kept[sid := record];
    if q :| q in Candidates(kept, record.owner) && OwnsFull(limits, kept, q, record.owner) {
      OwnedAfterAdding(kept, sid, record, q);
      assert |OwnedBy(after, q)| > limits.perOwner;
    } else {
      forall q ensures |OwnedBy(after, q)| <= limits.perOwner {
        OwnedAfterAdding(kept, sid, record, q);
        if OwnsFull(limits, kept, q, record.owner) {
          TrimmedOwnsFull(limits, kept, q, record.owner);
          TrimmedIsACandidate(q, kept, record.owner);
        }
      }
    }
  }

  lemma CreateOverflowsExactly(limits: Limits, w: World, step: Step)
    requires Enabled(w, step) && OwnersWithin(limits, w.store) && AllTimed(limits, w.store)
    requires step.Lock? && step.op.Create?
    ensures OwnersWithin(limits, Next(limits, w, step).store) <==> !Overflows(limits, w, step)
  {
    hide AddingOverflows;
    var s := CreateSection(limits, w.store, step.op, step.now, step.dead);
    var kept := Kept(w.store, step.now, step.dead);
    assert Within(kept, w.store);
    ShrinkingKeepsOwnersWithin(limits, kept, w.store);
    if s.outcome.Created? {
      AddingOverflowsExactly(limits, kept, step.op.sid, s.outcome.record);
    }
  }

  lemma StepOverflowsExactly(limits: Limits, w: World, step: Step)
    requires Enabled(w, step) && OwnersWithin(limits, w.store) && AllTimed(limits, w.store)
    ensures OwnersWithin(limits, Next(limits, w, step).store) <==> !Overflows(limits, w, step)
  {
    if step.Lock? && step.op.Create? {
      CreateOverflowsExactly(limits, w, step);
    } else if step.Lock? {
      OtherSectionsShrink(limits, w.store, step.op, step.now, step.dead);
      ShrinkingKeepsOwnersWithin(limits, Next(limits, w, step).store, w.store);
    }
  }

  /** No step of the run overflows. */
  predicate NeverOverflows(limits: Limits, steps: seq<Step>) {
    steps == [] ||
    var n := |steps| - 1;
    && NeverOverflows(limits, steps[..n])
    && (Run(limits, steps[..n]).Some? ==> !Overflows(limits, Run(limits, steps[..n]).value, steps[n]))
  }

  /** After every step of the run, every owner is within the limit. */
  ghost predicate OwnersAlwaysWithin(limits: Limits, steps: seq<Step>) {
    && (Run(limits, steps).Some? ==> OwnersWithin(limits, Run(limits, steps).value.store))
    && (steps == [] || OwnersAlwaysWithin(limits, steps[..|steps| - 1]))
  }

  /** Every owner stays within the limit throughout a run if and only if no create in it overflows. */
  lemma {:induction false} OwnersStayWithinExactly(limits: Limits, steps: seq<Step>, w: World)
    requires limits.Sane() && Run(limits, steps) == Some(w)
    ensures OwnersAlwaysWithin(limits, steps) <==> NeverOverflows(limits, steps)
  {
    if steps == [] {
      assert forall q :: OwnedBy(w.store, q) == {};
    } else {
      var n := |steps| - 1;
      var before := Run(limits, steps[..n]).value;
      OwnersStayWithinExactly(limits, steps[..n], before);
      if NeverOverflows(limits, steps[..n]) {
        assert OwnersWithin(limits, before.store);
        ReachableInvariant(limits, steps[..n], before);
        StepOverflowsExactly(limits, before, steps[n]);
      }
    }
  }

  // ---------------------------------------------------------------- two runs that show the limits

  const PLAIN := Wishes(None, None, None, None)
  const SMALL := Limits(10, 10, 1, 2)

  function Actor(execution: Option<string>, user: string): OwnerClaims {
    OwnerClaims(execution, None, None, None, None, Some(user), None)
  }

  lemma ActorOwns(execution: Option<string>, user: string, execution': Option<string>, user': string)
    requires user != "" && user' != ""
    ensures Actor(execution, user).IsIdentified()
    ensures Actor(execution, user).Owns(Actor(execution', user')) <==>
      (execution' == None || execution' == execution) && user' == user
  {
  }

  /** An admitted create by someone who owns nothing yet. */
  lemma FirstCreate(steps: seq<Step>, w: World, owner: OwnerClaims, sid: SessionId, handle: nat, now: real)
    returns (after: World)
    requires Run(SMALL, steps) == Some(w)
    requires owner.IsIdentified() && sid !in w.store && handle !in w.created
    requires |w.store| < 2
    requires forall id :: id in w.store ==> !owner.Owns(w.store[id].owner) && !w.store[id].Expired(now)
    ensures Run(SMALL, steps + [Lock(Create(owner, sid, handle, PLAIN), now, {})]) == Some(after)
    ensures after.store == w.store[sid := NewRecord(SMALL, owner, handle, PLAIN, now)]
    ensures after.created == w.created + multiset{handle} && after.dropped == w.dropped
  {
    var step := Lock(Create(owner, sid, handle, PLAIN), now, {});
    assert Kept(w.store, now, {}) == w.store && Swept(w.store, now, {}) == map[];
    assert OwnedBy(w.store, owner) == {};
    assert (steps + [step])[..|steps|] == steps;
    after := Next(SMALL, w, step);
  }

  /** One owner may own two sessions although the limit is one: it created one, a wider owner the other. */
  lemma AnOwnerMayOwnMoreThanTheLimit() returns (steps: seq<Step>, q: OwnerClaims, w: World)
    ensures SMALL.Sane() && Run(SMALL, steps) == Some(w)
    ensures |OwnedBy(w.store, q)| > SMALL.perOwner
  {
    q := Actor(Some("e"), "u");
    var wide := Actor(None, "u");
    ActorOwns(Some("e"), "u", None, "u");
    ActorOwns(None, "u", Some("e"), "u");
    OwnsIsReflexive(q);
    var w1 := FirstCreate([], START, q, 1, 1, 0.0);
    steps := [] + [Lock(Create(q, 1, 1, PLAIN), 0.0, {})];
    OwnedAfterAdding(START.store, 1, w1.store[1], q);
    w := FirstCreate(steps, w1, wide, 2, 2, 1.0);
    OwnedAfterAdding(w1.store, 2, w.store[2], q);
    steps := steps + [Lock(Create(wide, 2, 2, PLAIN), 1.0, {})];
  }

  /** A run that drops a handle: a crashed session is swept out by a create that hits the owner limit. */
  lemma AHandleMayBeDropped() returns (steps: seq<Step>, w: World)
    ensures SMALL.Sane() && Run(SMALL, steps) == Some(w)
    ensures w.dropped != multiset{}
  {
    var a, b := Actor(None, "a"), Actor(None, "b");
    ActorOwns(None, "a", None, "b");
    ActorOwns(None, "b", None, "a");
    OwnsIsReflexive(b);
    var w1 := FirstCreate([], START, a, 1, 1, 0.0);
    steps := [] + [Lock(Create(a, 1, 1, PLAIN), 0.0, {})];
    var w2 := FirstCreate(steps, w1, b, 2, 2, 1.0);
    steps := steps + [Lock(Create(b, 2, 2, PLAIN), 1.0, {})];
    w := RefusedCreate(steps, w2, b, 1, 2);
    steps := steps + [Lock(Create(b, 3, 3, PLAIN), 2.0, {w2.store[1].handle})];
  }

  /** `b` already has the session `mine` when its next create sweeps out the crashed session `crashed`. */
  lemma RefusedCreate(steps: seq<Step>, w: World, b: OwnerClaims, crashed: SessionId, mine: SessionId)
    returns (after: World)
    requires Run(SMALL, steps) == Some(w)
    requires b.IsIdentified() && 3 !in w.store && 3 !in w.created
    requires crashed in w.store && mine in w.store && w.store[crashed].handle != w.store[mine].handle
    requires b.Owns(w.store[mine].owner) && !w.store[mine].Expired(2.0)
    ensures Run(SMALL, steps + [Lock(Create(b, 3, 3, PLAIN), 2.0, {w.store[crashed].handle})]) == Some(after)
    ensures after.dropped != multiset{}
  {
    var dead := {w.store[crashed].handle};
    var step := Lock(Create(b, 3, 3, PLAIN), 2.0, dead);
    assert crashed in Swept(w.store, 2.0, dead);
    SubsetCount({mine}, OwnedBy(Kept(w.store, 2.0, dead), b));
    assert LosesHandles(SMALL, w, step);
    DroppedGrowsExactlyOnLoss(SMALL, w, step);
    assert (steps + [step])[..|steps|] == steps;
    after := Next(SMALL, w, step);
  }
}
