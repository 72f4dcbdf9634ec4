/**
 * What one lock section of the session registry does to the table of retained sessions.
 *
 * Engine handles are foreign objects and are represented by their identity.  The handles whose
 * `closed` or `crashed` flag is up when a section runs are given as the set `dead`; the clock
 * reading is given as `now`.
 */
module SessionStore {
  import opened Wrappers
  import opened Owners

  type SessionId = nat  // a random token; only equality of tokens matters

  datatype Record = Record(
    owner: OwnerClaims,
    handle: nat,
    createdAt: real,
    lastUsedAt: real,
    idleExpiresAt: real,
    maximumExpiresAt: real,
    idleTtl: int)
  {
    predicate Expired(now: real) {
      now >= idleExpiresAt || now >= maximumExpiresAt
    }
  }

  type Store = map<SessionId, Record>

  datatype Limits = Limits(idleTtl: int, maximumTtl: int, perOwner: int, total: int)
  {
    predicate Sane() {
      1 <= idleTtl <= maximumTtl && 1 <= perOwner <= total
    }
  }

  /** What a caller of `create` may ask for; None and 0 select the registry's own limits. */
  datatype Wishes = Wishes(
    idleTtl: Option<int>,
    maximumTtl: Option<int>,
    perOwner: Option<int>,
    total: Option<int>)

  datatype Op =
    | Create(owner: OwnerClaims, sid: SessionId, handle: nat, wishes: Wishes)
    | Resolve(owner: OwnerClaims, sid: SessionId, touch: bool)
    | Close(owner: OwnerClaims, sid: SessionId)
    | CloseExecution(executionId: string)
    | Expire
    | CloseAll

  datatype Error = NotFound | AccessDenied | OwnerLimit(limit: int) | RuntimeLimit(limit: int)

  datatype Outcome =
    | Created(record: Record)
    | Resolved(record: Record)
    | Closed(existed: bool)
    | Count(count: nat)
    | Raised(error: Error)

  /** `popped` left the table; the operation goes on to close them exactly when `closes`. */
  datatype Section = Section(store: Store, popped: Store, outcome: Outcome, closes: bool)

  predicate Stale(record: Record, now: real, dead: set<nat>) {
    record.Expired(now) || record.handle in dead
  }

  function Kept(store: Store, now: real, dead: set<nat>): Store {
    map id | id in store && !Stale(store[id], now, dead) :: store[id]
  }

  function Swept(store: Store, now: real, dead: set<nat>): Store {
    map id | id in store && Stale(store[id], now, dead) :: store[id]
  }

  function OwnedBy(store: Store, owner: OwnerClaims): set<SessionId> {
    set id | id in store && owner.Owns(store[id].owner)
  }

  function OwnerLimitFor(limits: Limits, wishes: Wishes): int {
    Min(OrDefault(wishes.perOwner, limits.perOwner), limits.perOwner)
  }

  function TotalLimitFor(limits: Limits, wishes: Wishes): int {
    Min(OrDefault(wishes.total, limits.total), limits.total)
  }

  function MaximumTtlFor(limits: Limits, wishes: Wishes): int {
    Min(OrDefault(wishes.maximumTtl, limits.maximumTtl), limits.maximumTtl)
  }

  function IdleTtlFor(limits: Limits, wishes: Wishes): int {
    Min(OrDefault(wishes.idleTtl, limits.idleTtl), MaximumTtlFor(limits, wishes))
  }

  function NewRecord(limits: Limits, owner: OwnerClaims, handle: nat, wishes: Wishes, now: real): Record {
    var idle, maximum := IdleTtlFor(limits, wishes), MaximumTtlFor(limits, wishes);
    Record(owner, handle, now, now, now + idle as real, now + maximum as real, idle)
  }

  function Touched(record: Record, now: real): Record {
    record.(lastUsedAt := now, idleExpiresAt := MinReal(now + record.idleTtl as real, record.maximumExpiresAt))
  }

  /** The limit that refuses one more session of `owner`, if any; the owner's limit is looked at first. */
  function RefusalFor(limits: Limits, kept: Store, owner: OwnerClaims, wishes: Wishes): Option<Error> {
    if |OwnedBy(kept, owner)| >= OwnerLimitFor(limits, wishes) then
      Some(OwnerLimit(OwnerLimitFor(limits, wishes)))
    else if |kept| >= TotalLimitFor(limits, wishes) then
      Some(RuntimeLimit(TotalLimitFor(limits, wishes)))
    else
      None
  }

  function CreateSection(limits: Limits, store: Store, op: Op, now: real, dead: set<nat>): Section
    requires op.Create?
  {
    if !op.owner.IsIdentified() then
      Section(store, map[], Raised(AccessDenied), true)
    else
      var kept, swept := Kept(store, now, dead), Swept(store, now, dead);
      match RefusalFor(limits, kept, op.owner, op.wishes)
      case Some(refusal) => Section(kept, swept, Raised(refusal), false)
      case None =>
        var record := NewRecord(limits, op.owner, op.handle, op.wishes, now);
        Section(kept[op.sid := record], swept, Created(record), true)
  }

  function ResolveSection(store: Store, op: Op, now: real, dead: set<nat>): Section
    requires op.Resolve?
  {
    var kept, swept := Kept(store, now, dead), Swept(store, now, dead);
    if op.sid !in kept then
      Section(kept, swept, Raised(NotFound), true)
    else if !op.owner.Owns(kept[op.sid].owner) then
      Section(kept, swept, Raised(AccessDenied), true)
    else if op.touch then
      var record := Touched(kept[op.sid], now);
      Section(kept[op.sid := record], swept, Resolved(record), true)
    else
      Section(kept, swept, Resolved(kept[op.sid]), true)
  }

  function CloseSection(store: Store, op: Op): Section
    requires op.Close?
  {
    if op.sid !in store then
      Section(store, map[], Closed(false), true)
    else if !op.owner.Owns(store[op.sid].owner) then
      Section(store, map[], Raised(AccessDenied), true)
    else
      Section(store - {op.sid}, map[op.sid := store[op.sid]], Closed(true), true)
  }

  predicate RunsIn(record: Record, executionId: string) {
    record.owner.executionId == Some(executionId)
  }

  function CloseExecutionSection(store: Store, executionId: string): Section {
    var popped := map id | id in store && RunsIn(store[id], executionId) :: store[id];
    Section(store - popped.Keys, popped, Count(|popped|), true)
  }

  function RunSection(limits: Limits, store: Store, op: Op, now: real, dead: set<nat>): Section {
    match op
    case Create(_, _, _, _) => CreateSection(limits, store, op, now, dead)
    case Resolve(_, _, _) => ResolveSection(store, op, now, dead)
    case Close(_, _) => CloseSection(store, op)
    case CloseExecution(executionId) => CloseExecutionSection(store, executionId)
    case Expire =>
      var swept := Swept(store, now, dead);
      Section(Kept(store, now, dead), swept, Count(|swept|), true)
    case CloseAll => Section(map[], store, Count(|store|), true)
  }

  // ---------------------------------------------------------------- handles in a table

  function Handles(store: Store): set<nat> {
    set id | id in store :: store[id].handle
  }

  /** No two records hold the same handle. */
  ghost predicate Injective(store: Store) {
    forall i, j :: i in store && j in store && store[i].handle == store[j].handle ==> i == j
  }

  /** Splitting an injective table splits its handles without loss or overlap. */
  lemma HandlesSplit(whole: Store, left: Store, right: Store)
    requires Injective(whole)
    requires left.Keys !! right.Keys && whole == left + right
    ensures Injective(left) && Injective(right)
    ensures Handles(left) !! Handles(right)
    ensures multiset(Handles(whole)) == multiset(Handles(left)) + multiset(Handles(right))
  {
    forall i | i in left ensures i in whole && whole[i] == left[i] {
      assert i !in right;
    }
    assert forall i | i in right :: i in whole && whole[i] == right[i];
    assert Handles(whole) == Handles(left) + Handles(right) by {
      forall h | h in Handles(left) ensures h in Handles(whole) {
        var i :| i in left && left[i].handle == h;
        assert whole[i].handle == h;
      }
      forall h | h in Handles(right) ensures h in Handles(whole) {
        var i :| i in right && right[i].handle == h;
        assert whole[i].handle == h;
      }
    }
  }

  lemma HandlesOfOneMore(store: Store, rest: Store, id: SessionId)
    requires Injective(store) && id in store && rest == store - {id}
    ensures |Handles(store)| == |Handles(rest)| + 1 && |store| == |rest| + 1
  {
    var single: Store := map[id := store[id]];
    assert store == rest + single;
    HandlesSplit(store, rest, single);
    assert Handles(single) == {single[id].handle};
    assert |multiset(Handles(store))| == |multiset(Handles(rest))| + 1;
    assert store.Keys == rest.Keys + {id};
  }

  /** An injective table has as many handles as records. */
  lemma {:induction false} HandleCount(store: Store)
    requires Injective(store)
    ensures |Handles(store)| == |store|
    decreases |store|
  {
    if store == map[] {
      assert Handles(store) == {};
    } else {
      var id :| id in store;
      var rest := store - {id};
      HandleCount(rest);
      HandlesOfOneMore(store, rest, id);
    }
  }
}
