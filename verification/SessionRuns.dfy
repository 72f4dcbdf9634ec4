/**
 * Every interleaving of registry operations.
 *
 * An operation pops records in one lock section and awaits their `close()` calls after it has let
 * the lock go, so sections and close calls of different tasks interleave freely.  A run is any
 * sequence of enabled steps; `World` also keeps the history that accounts for every handle.
 */
module SessionRuns {
  import opened Wrappers
  import opened Owners
  import opened SessionStore

  datatype World = World(
    store: Store,
    pending: multiset<nat>,   // popped, their close() still awaited
    closed: multiset<nat>,    // one entry per close() call made
    dropped: multiset<nat>,   // popped by an operation that then raised
    created: multiset<nat>)   // registered by a successful create

  datatype Step =
    | Lock(op: Op, now: real, dead: set<nat>)
    | CloseCall(handle: nat)

  const START := World(map[], multiset{}, multiset{}, multiset{}, multiset{})

  /** Session ids are drawn at random and a handle is registered at most once. */
  predicate Enabled(w: World, step: Step) {
    match step
    case Lock(op, _, _) => op.Create? ==> op.sid !in w.store && op.handle !in w.created
    case CloseCall(handle) => handle in w.pending
  }

  function AfterSection(w: World, op: Op, s: Section): World {
    var popped := multiset(Handles(s.popped));
    World(
      s.store,
      if s.closes then w.pending + popped else w.pending,
      w.closed,
      if s.closes then w.dropped else w.dropped + popped,
      if op.Create? && s.outcome.Created? then w.created + multiset{op.handle} else w.created)
  }

  function Next(limits: Limits, w: World, step: Step): World
    requires Enabled(w, step)
  {
    match step
    case Lock(op, now, dead) => AfterSection(w, op, RunSection(limits, w.store, op, now, dead))
    case CloseCall(handle) =>
      w.(pending := w.pending - multiset{handle}, closed := w.closed + multiset{handle})
  }

  /** The world after `steps`, or None when some step was not enabled. */
  function Run(limits: Limits, steps: seq<Step>): Option<World> {
    if steps == [] then
      Some(START)
    else
      var before := Run(limits, steps[..|steps| - 1]);
      var step := steps[|steps| - 1];
      if before.None? || !Enabled(before.value, step) then None
      else Some(Next(limits, before.value, step))
  }

  // ---------------------------------------------------------------- invariants

  function SameKey(store: Store, key: IdentityKey): set<SessionId> {
    set id | id in store && store[id].owner.IdentityKey() == key
  }

  ghost predicate Conserved(w: World) {
    && Injective(w.store)
    && w.created == multiset(Handles(w.store)) + w.pending + w.closed + w.dropped
    && forall h :: w.created[h] <= 1
  }

  ghost predicate WithinQuota(limits: Limits, store: Store) {
    && |store| <= limits.total
    && forall key :: |SameKey(store, key)| <= limits.perOwner
  }

  predicate Timed(limits: Limits, r: Record) {
    && r.owner.IsIdentified()
    && r.idleExpiresAt == MinReal(r.lastUsedAt + r.idleTtl as real, r.maximumExpiresAt)
    && r.maximumExpiresAt <= r.createdAt + limits.maximumTtl as real
  }

  ghost predicate AllTimed(limits: Limits, store: Store) {
    forall id :: id in store ==> Timed(limits, store[id])
  }

  // ---------------------------------------------------------------- one section

  lemma SweepSplits(store: Store, now: real, dead: set<nat>)
    requires Injective(store)
    ensures Injective(Kept(store, now, dead)) && Injective(Swept(store, now, dead))
    ensures multiset(Handles(store)) ==
      multiset(Handles(Kept(store, now, dead))) + multiset(Handles(Swept(store, now, dead)))
  {
    HandlesSplit(store, Kept(store, now, dead), Swept(store, now, dead));
  }

  lemma AddingAFreshHandle(store: Store, sid: SessionId, record: Record)
    requires Injective(store) && sid !in store && record.handle !in Handles(store)
    ensures Injective(store[sid := record])
    ensures multiset(Handles(store[sid := record])) == multiset(Handles(store)) + multiset{record.handle}
  {
    var single: Store := map[sid := record];
    var whole := store[sid := record];
    forall i | i in store ensures store[i].handle != record.handle {
      assert store[i].handle in Handles(store);
    }
    assert whole == store + single;
    HandlesSplit(whole, store, single);
    assert Handles(single) == {single[sid].handle};
  }

  lemma ReplacingKeepsHandles(store: Store, sid: SessionId, record: Record)
    requires Injective(store) && sid in store && store[sid].handle == record.handle
    ensures Injective(store[sid := record]) && Handles(store[sid := record]) == Handles(store)
  {
    var whole := store[sid := record];
    forall h | h in Handles(store) ensures h in Handles(whole) {
      var i :| i in store && store[i].handle == h;
      assert whole[i].handle == h;
    }
  }

  /** What left the table is what was popped; only a successful create brings a handle in. */
  ghost predicate HandlesConserved(store: Store, op: Op, s: Section) {
    && Injective(s.store)
    && multiset(Handles(s.store)) + multiset(Handles(s.popped)) ==
       multiset(Handles(store)) + if op.Create? && s.outcome.Created? then multiset{op.handle} else multiset{}
  }

  lemma CreateConservesHandles(limits: Limits, store: Store, op: Op, now: real, dead: set<nat>)
    requires Injective(store) && op.Create? && op.sid !in store && op.handle !in Handles(store)
    ensures HandlesConserved(store, op, CreateSection(limits, store, op, now, dead))
  {
    var s := CreateSection(limits, store, op, now, dead);
    var kept := Kept(store, now, dead);
    SweepSplits(store, now, dead);
    assert Handles(map[]) == {};
    if s.outcome.Created? {
      assert op.handle !in Handles(kept) by {
        assert multiset(Handles(kept)) <= multiset(Handles(store));
      }
      AddingAFreshHandle(kept, op.sid, s.outcome.record);
    }
  }

  lemma ResolveConservesHandles(store: Store, op: Op, now: real, dead: set<nat>)
    requires Injective(store) && op.Resolve?
    ensures HandlesConserved(store, op, ResolveSection(store, op, now, dead))
  {
    var s := ResolveSection(store, op, now, dead);
    SweepSplits(store, now, dead);
    if s.outcome.Resolved? && op.touch {
      ReplacingKeepsHandles(Kept(store, now, dead), op.sid, s.outcome.record);
    }
  }

  lemma CloseConservesHandles(store: Store, op: Op)
    requires Injective(store) && op.Close?
    ensures HandlesConserved(store, op, CloseSection(store, op))
  {
    var s := CloseSection(store, op);
    assert store == s.store + s.popped;
    HandlesSplit(store, s.store, s.popped);
  }

  lemma CloseExecutionConservesHandles(store: Store, op: Op)
    requires Injective(store) && op.CloseExecution?
    ensures HandlesConserved(store, op, CloseExecutionSection(store, op.executionId))
  {
    var s := CloseExecutionSection(store, op.executionId);
    assert store == s.store + s.popped;
    HandlesSplit(store, s.store, s.popped);
  }

  /** No section loses or duplicates a handle: what was in the table is still there or popped. */
  lemma SectionConservesHandles(limits: Limits, store: Store, op: Op, now: real, dead: set<nat>)
    requires Injective(store)
    requires op.Create? ==> op.sid !in store && op.handle !in Handles(store)
    ensures HandlesConserved(store, op, RunSection(limits, store, op, now, dead))
  {
    var s := RunSection(limits, store, op, now, dead);
    match op {
      case Create(_, _, _, _) => CreateConservesHandles(limits, store, op, now, dead);
      case Resolve(_, _, _) => ResolveConservesHandles(store, op, now, dead);
      case Close(_, _) => CloseConservesHandles(store, op);
      case CloseExecution(_) => CloseExecutionConservesHandles(store, op);
      case Expire => SweepSplits(store, now, dead);
      case CloseAll => assert Handles(s.store) == {};
    }
  }

  lemma SectionKeepsTiming(limits: Limits, store: Store, op: Op, now: real, dead: set<nat>)
    requires limits.Sane() && AllTimed(limits, store)
    ensures AllTimed(limits, RunSection(limits, store, op, now, dead).store)
  {
  }

  lemma {:induction false} SubsetCount<T>(small: set<T>, large: set<T>)
    requires small <= large
    ensures |small| <= |large|
    decreases small
  {
    if small != {} {
      var x :| x in small;
      SubsetCount(small - {x}, large - {x});
    }
  }

  /** The ids and owners of `small` all come from `large`. */
  predicate Within(small: Store, large: Store) {
    forall id :: id in small ==> id in large && small[id].owner == large[id].owner
  }

  lemma ShrinkingKeepsQuota(limits: Limits, small: Store, large: Store)
    requires WithinQuota(limits, large) && Within(small, large)
    ensures WithinQuota(limits, small)
  {
    SubsetCount(small.Keys, large.Keys);
    forall key ensures |SameKey(small, key)| <= limits.perOwner {
      SubsetCount(SameKey(small, key), SameKey(large, key));
    }
  }

  lemma OtherSectionsShrink(limits: Limits, store: Store, op: Op, now: real, dead: set<nat>)
    requires !op.Create?
    ensures Within(RunSection(limits, store, op, now, dead).store, store)
  {
  }

  /** Everyone with the caller's identity key is among the sessions counted against the caller. */
  lemma SameKeyIsOwned(limits: Limits, store: Store, owner: OwnerClaims)
    requires AllTimed(limits, store) && owner.IsIdentified()
    ensures |SameKey(store, owner.IdentityKey())| <= |OwnedBy(store, owner)|
  {
    forall id | id in SameKey(store, owner.IdentityKey()) ensures id in OwnedBy(store, owner) {
      MutualOwnershipIsEqualKeys(owner, store[id].owner);
    }
    SubsetCount(SameKey(store, owner.IdentityKey()), OwnedBy(store, owner));
  }

  lemma SameKeyAfterAdding(kept: Store, sid: SessionId, record: Record, key: IdentityKey)
    requires sid !in kept
    ensures |SameKey(kept[sid := record], key)| ==
      |SameKey(kept, key)| + if record.owner.IdentityKey() == key then 1 else 0
  {
    assert SameKey(kept[sid := record], key) ==
      SameKey(kept, key) + if record.owner.IdentityKey() == key then {sid} else {};
  }

  lemma AddingKeepsQuota(limits: Limits, kept: Store, sid: SessionId, record: Record)
    requires WithinQuota(limits, kept) && sid !in kept && |kept| < limits.total
    requires |SameKey(kept, record.owner.IdentityKey())| < limits.perOwner
    ensures WithinQuota(limits, kept[sid := record])
  {
    var store := kept[sid := record];
    assert store.Keys == kept.Keys + {sid};
    forall key ensures |SameKey(store, key)| <= limits.perOwner {
      SameKeyAfterAdding(kept, sid, record, key);
    }
  }

  lemma CreateKeepsQuota(limits: Limits, store: Store, op: Op, now: real, dead: set<nat>)
    requires AllTimed(limits, store) && WithinQuota(limits, store)
    requires op.Create? && op.sid !in store
    ensures WithinQuota(limits, CreateSection(limits, store, op, now, dead).store)
  {
    var s := CreateSection(limits, store, op, now, dead);
    var kept := Kept(store, now, dead);
    assert Within(kept, store);
    ShrinkingKeepsQuota(limits, kept, store);
    if s.outcome.Created? {
      SameKeyIsOwned(limits, kept, op.owner);
      AddingKeepsQuota(limits, kept, op.sid, s.outcome.record);
    }
  }

  lemma SectionKeepsQuota(limits: Limits, store: Store, op: Op, now: real, dead: set<nat>)
    requires AllTimed(limits, store) && WithinQuota(limits, store)
    requires op.Create? ==> op.sid !in store
    ensures WithinQuota(limits, RunSection(limits, store, op, now, dead).store)
  {
    if op.Create? {
      CreateKeepsQuota(limits, store, op, now, dead);
    } else {
      OtherSectionsShrink(limits, store, op, now, dead);
      ShrinkingKeepsQuota(limits, RunSection(limits, store, op, now, dead).store, store);
    }
  }
}
