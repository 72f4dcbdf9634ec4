/**
 * The registry object.  Each method is one whole operation: its lock section, then the `close()`
 * calls on whatever the section popped.  Its effect on the table is the section of SessionStore,
 * so what SessionRuns proves about interleaved sections is about these methods.
 */
module SessionRegistry {
  import opened Wrappers
  import opened Owners
  import opened SessionStore

  class SessionRecord {
    const sessionId: SessionId
    var fields: Record
    var status: string

    constructor (sid: SessionId, record: Record)
      ensures sessionId == sid && fields == record && status == "active"
    {
      sessionId, fields, status := sid, record, "active";
    }
  }

  /** The sessions whose handles an operation closes: all its section popped, unless it raised first. */
  function Closes(s: Section): set<SessionId> {
    if s.closes then s.popped.Keys else {}
  }

  type Records = map<SessionId, SessionRecord>

  /** The record objects are among `repr` and hold exactly the values of `store`. */
  ghost predicate Shows(records: Records, store: Store, repr: set<SessionRecord>)
    reads repr`fields
  {
    && records.Keys == store.Keys
    && forall id :: id in records ==>
         records[id] in repr && records[id].sessionId == id && records[id].fields == store[id]
  }

  /** The same record objects under the same ids. */
  predicate Part(part: Records, whole: Records) {
    forall id :: id in part ==> id in whole && part[id] == whole[id]
  }

  lemma OneMoreClosed(done: set<SessionId>, id: SessionId, failing: set<SessionId>)
    requires id !in done
    ensures multiset(done + {id}) == multiset(done) + multiset{id}
    ensures |failing * (done + {id})| == |failing * done| + if id in failing then 1 else 0
  {
    assert failing * (done + {id}) == failing * done + if id in failing then {id} else {};
  }

  class AsyncSessionRegistry {
    const limits: Limits
    var records: Records
    var cleanupFailures: nat
    ghost var closeCalls: multiset<SessionId>  // one entry per close() call: the session whose handle it was
    ghost var Contents: Store            // the value of the table
    ghost var Repr: set<SessionRecord>   // every record object this registry made

    /** Unset (None or 0) settings fall back to the environment's values. */
    constructor (settings: Wishes, environment: Limits)
      ensures Valid() && Contents == map[] && cleanupFailures == 0 && closeCalls == multiset{}
      ensures limits.Sane()
      ensures environment.Sane() && settings == Wishes(None, None, None, None) ==> limits == environment
      ensures settings.idleTtl.Some? && settings.idleTtl.value >= 1 ==> limits.idleTtl == settings.idleTtl.value
      ensures settings.maximumTtl.Some? && settings.maximumTtl.value >= limits.idleTtl >= 1 ==>
        limits.maximumTtl == settings.maximumTtl.value
      ensures settings.perOwner.Some? && settings.perOwner.value >= 1 ==> limits.perOwner == settings.perOwner.value
      ensures settings.total.Some? && settings.total.value >= limits.perOwner >= 1 ==>
        limits.total == settings.total.value
    {
      var idle := Max(1, OrDefault(settings.idleTtl, environment.idleTtl));
      var perOwner := Max(1, OrDefault(settings.perOwner, environment.perOwner));
      limits := Limits(
        idle,
        Max(idle, OrDefault(settings.maximumTtl, environment.maximumTtl)),
        perOwner,
        Max(perOwner, OrDefault(settings.total, environment.total)));
      records := map[];
      cleanupFailures := 0;
      closeCalls := multiset{};
      Contents := map[];
      Repr := {};
    }

    ghost predicate Valid()
      reads this`records, this`Contents, this`Repr, Repr`fields
    {
      Shows(records, Contents, Repr)
    }

    /**
     * Exactly the sessions `ids` were closed: one close() call each, as many failures as were
     * among `failing`, and `status` for their records and no others.
     */
    twostate predicate Retired(ids: set<SessionId>, status: string, failing: set<SessionId>)
      reads this, Repr
    {
      && closeCalls == old(closeCalls) + multiset(ids)
      && cleanupFailures == old(cleanupFailures) + |failing * ids|
      && old(Repr) <= Repr && ids <= old(records).Keys
      && forall r :: r in old(Repr) ==>
           r.status == if r.sessionId in ids && old(records)[r.sessionId] == r then status else old(r.status)
    }

    /** Record objects this registry made, under their own ids. */
    ghost predicate Ours(popped: Records)
      reads this`Repr
    {
      forall id :: id in popped ==> popped[id] in Repr && popped[id].sessionId == id
    }

    method RemoveExpired(now: real, dead: set<nat>) returns (expired: Records)
      requires Valid()
      modifies this`records, this`Contents
      ensures Valid() && Contents == Kept(old(Contents), now, dead)
      ensures expired.Keys == Swept(old(Contents), now, dead).Keys && Ours(expired) && Part(expired, old(records))
    {
      expired := map id | id in records && Stale(records[id].fields, now, dead) :: records[id];
      records := map id | id in records && id !in expired :: records[id];
      Contents := Kept(Contents, now, dead);
    }

    /** `failing` are the ids of the records whose close() raised; gather lets the others finish. */
    method CloseRecords(popped: Records, status: string, failing: set<SessionId>)
      requires Valid()
      requires Ours(popped)
      modifies this`cleanupFailures, this`closeCalls, Repr`status
      ensures Valid()
      ensures closeCalls == old(closeCalls) + multiset(popped.Keys)
      ensures cleanupFailures == old(cleanupFailures) + |failing * popped.Keys|
      ensures forall id :: id in popped ==> popped[id].status == status
      ensures forall r :: r in Repr && (r.sessionId !in popped || popped[r.sessionId] != r) ==>
                r.status == old(r.status)
    {
      if popped == map[] {
        assert failing * popped.Keys == {} && multiset(popped.Keys) == multiset{};
        return;
      }
      forall id | id in popped {
        popped[id].status := status;
      }
      var failures := CloseHandles(popped.Keys, failing);
      cleanupFailures := cleanupFailures + failures;
    }

    /** One close() call for each session, in any order; counts those that raise. */
    method CloseHandles(ids: set<SessionId>, failing: set<SessionId>) returns (failures: nat)
      modifies this`closeCalls
      ensures closeCalls == old(closeCalls) + multiset(ids) && failures == |failing * ids|
    {
      var waiting := ids;
      failures := 0;
      ghost var done: set<SessionId> := {};
      while waiting != {}
        invariant done !! waiting && done + waiting == ids
        invariant closeCalls == old(closeCalls) + multiset(done) && failures == |failing * done|
      {
        var id :| id in waiting;
        CloseHandle(id);
        if id in failing {
          failures := failures + 1;
        }
        OneMoreClosed(done, id, failing);
        waiting, done := waiting - {id}, done + {id};
      }
    }

    /** One close() call. */
    method CloseHandle(sid: SessionId)
      modifies this`closeCalls
      ensures closeCalls == old(closeCalls) + multiset{sid}
    {
      closeCalls := closeCalls + multiset{sid};
    }

    /** How many sessions count against `owner`. */
    method CountOwned(owner: OwnerClaims) returns (owned: nat)
      requires Valid()
      ensures owned == |OwnedBy(Contents, owner)|
    {
      var ids := set id | id in records && owner.Owns(records[id].fields.owner);
      assert ids == OwnedBy(Contents, owner);
      owned := |ids|;
    }

    method Refusal(owner: OwnerClaims, wishes: Wishes) returns (refusal: Option<Error>)
      requires Valid()
      ensures refusal == RefusalFor(limits, Contents, owner, wishes)
    {
      var owned := CountOwned(owner);
      var ownerLimit := Min(OrDefault(wishes.perOwner, limits.perOwner), limits.perOwner);
      var totalLimit := Min(OrDefault(wishes.total, limits.total), limits.total);
      if owned >= ownerLimit {
        return Some(OwnerLimit(ownerLimit));
      }
      assert |records.Keys| == |Contents.Keys|;
      if |records| >= totalLimit {
        return Some(RuntimeLimit(totalLimit));
      }
      return None;
    }

    method Insert(sid: SessionId, value: Record) returns (record: SessionRecord)
      requires Valid() && sid !in records
      modifies this`records, this`Contents, this`Repr
      ensures Valid() && Contents == old(Contents)[sid := value] && Repr == old(Repr) + {record}
      ensures fresh(record) && records == old(records)[sid := record]
      ensures record.fields == value && record.status == "active"
    {
      record := new SessionRecord(sid, value);
      records := records[sid := record];
      Contents := Contents[sid := value];
      Repr := Repr + {record};
    }

    method Use(sid: SessionId, now: real)
      requires Valid() && sid in records
      modifies this`Contents, Repr`fields
      ensures Valid() && Contents == old(Contents)[sid := Touched(old(Contents)[sid], now)]
      ensures forall r :: r in Repr && r != records[sid] ==> r.fields == old(r.fields)
    {
      var record := records[sid];
      record.fields := record.fields.(
        lastUsedAt := now,
        idleExpiresAt := MinReal(now + record.fields.idleTtl as real, record.fields.maximumExpiresAt));
      Contents := Contents[sid := record.fields];
    }

    // -------------------------------------------------------------- lock sections

    /** Limits and registration, once the table is swept. */
    method Admit(owner: OwnerClaims, sid: SessionId, handle: nat, wishes: Wishes, now: real)
      returns (result: Result<SessionRecord, Error>)
      requires Valid() && sid !in records
      modifies this`records, this`Contents, this`Repr
      ensures Valid()
      ensures match RefusalFor(limits, old(Contents), owner, wishes)
        case Some(refusal) => result == Err(refusal) && Contents == old(Contents) && Repr == old(Repr)
        case None =>
          && result.Ok? && Contents == old(Contents)[sid := NewRecord(limits, owner, handle, wishes, now)]
          && sid in records && result.value == records[sid] && fresh(result.value)
          && result.value.status == "active" && Repr == old(Repr) + {result.value}
    {
      var refusal := Refusal(owner, wishes);
      if refusal.Some? {
        return Err(refusal.value);
      }
      var maximum := Min(OrDefault(wishes.maximumTtl, limits.maximumTtl), limits.maximumTtl);
      var idle := Min(OrDefault(wishes.idleTtl, limits.idleTtl), maximum);
      var record := Insert(sid, Record(owner, handle, now, now, now + idle as real, now + maximum as real, idle));
      return Ok(record);
    }

    method CreateUnderLock(owner: OwnerClaims, sid: SessionId, handle: nat, wishes: Wishes, now: real, dead: set<nat>)
      returns (result: Result<SessionRecord, Error>, expired: Records)
      requires Valid() && sid !in records
      modifies this`records, this`Contents, this`Repr
      ensures Valid() && Part(expired, old(records))
      ensures result.Ok? ==>
        && sid in records && result.value == records[sid] && fresh(result.value)
        && result.value.status == "active" && Repr == old(Repr) + {result.value}
      ensures result.Err? ==> Repr == old(Repr)
      ensures var s := CreateSection(limits, old(Contents), SessionStore.Create(owner, sid, handle, wishes), now, dead);
        && Contents == s.store && Ours(expired)
        && Closes(s) == (if result.Ok? then expired.Keys else {})
        && s.outcome == if result.Ok? then Created(Contents[sid]) else Raised(result.error)
    {
      expired := map[];
      if !owner.IsIdentified() {
        return Err(AccessDenied), expired;
      }
      expired := RemoveExpired(now, dead);
      result := Admit(owner, sid, handle, wishes, now);
    }

    method ResolveUnderLock(owner: OwnerClaims, sid: SessionId, touch: bool, now: real, dead: set<nat>)
      returns (result: Result<SessionRecord, Error>, expired: Records)
      requires Valid()
      modifies this`records, this`Contents, Repr`fields
      ensures Valid() && Part(expired, old(records))
      ensures result.Ok? ==> sid in records && result.value == records[sid]
      ensures var s := ResolveSection(old(Contents), SessionStore.Resolve(owner, sid, touch), now, dead);
        && Contents == s.store && Ours(expired) && Closes(s) == expired.Keys
        && s.outcome == if result.Ok? then Resolved(Contents[sid]) else Raised(result.error)
    {
      expired := RemoveExpired(now, dead);
      if sid !in records {
        return Err(NotFound), expired;
      }
      if !owner.Owns(records[sid].fields.owner) {
        return Err(AccessDenied), expired;
      }
      if touch {
        Use(sid, now);
      }
      return Ok(records[sid]), expired;
    }

    method CloseUnderLock(owner: OwnerClaims, sid: SessionId) returns (result: Result<bool, Error>, popped: Records)
      requires Valid()
      modifies this`records, this`Contents
      ensures Valid() && Part(popped, old(records))
      ensures var s := CloseSection(old(Contents), SessionStore.Close(owner, sid));
        && Contents == s.store && Ours(popped) && Closes(s) == popped.Keys
        && s.outcome == if result.Ok? then Closed(result.value) else Raised(result.error)
    {
      popped := map[];
      if sid !in records {
        return Ok(false), popped;
      }
      if !owner.Owns(records[sid].fields.owner) {
        return Err(AccessDenied), popped;
      }
      popped := map[sid := records[sid]];
      records := records - {sid};
      Contents := Contents - {sid};
      return Ok(true), popped;
    }

    method CloseExecutionUnderLock(executionId: string) returns (popped: Records)
      requires Valid()
      modifies this`records, this`Contents
      ensures Valid() && Part(popped, old(records))
      ensures var s := CloseExecutionSection(old(Contents), executionId);
        && Contents == s.store && Ours(popped) && s.outcome == Count(|popped|)
        && Closes(s) == popped.Keys
    {
      popped := map id | id in records && RunsIn(records[id].fields, executionId) :: records[id];
      ghost var s := CloseExecutionSection(Contents, executionId);
      assert popped.Keys == s.popped.Keys;
      records := map id | id in records && id !in popped :: records[id];
      Contents := s.store;
    }

    // -------------------------------------------------------------- whole operations

    method Create(owner: OwnerClaims, sid: SessionId, handle: nat, wishes: Wishes,
                  now: real, dead: set<nat>, failing: set<SessionId>)
      returns (result: Result<SessionRecord, Error>)
      requires Valid() && sid !in records
      modifies this, Repr`status
      ensures Valid()
      ensures result.Ok? ==>
        && sid in records && result.value == records[sid] && fresh(result.value) && result.value.status == "active"
        && Repr == old(Repr) + {result.value}
      ensures result.Err? ==> Repr == old(Repr)
      ensures var s := CreateSection(limits, old(Contents), SessionStore.Create(owner, sid, handle, wishes), now, dead);
        && Contents == s.store && Retired(Closes(s), "expired", failing)
        && s.outcome == if result.Ok? then Created(Contents[sid]) else Raised(result.error)
    {
      hide CreateSection, Closes, Shows, Part;
      var expired;
      result, expired := CreateUnderLock(owner, sid, handle, wishes, now, dead);
      if result.Err? {
        assert failing * {} == {};
        return;
      }
      CloseRecords(expired, "expired", failing);
    }

    method Resolve(owner: OwnerClaims, sid: SessionId, touch: bool, now: real, dead: set<nat>, failing: set<SessionId>)
      returns (result: Result<SessionRecord, Error>)
      requires Valid()
      modifies this, Repr
      ensures Valid()
      ensures result.Ok? ==> sid in records && result.value == records[sid]
      ensures var s := ResolveSection(old(Contents), SessionStore.Resolve(owner, sid, touch), now, dead);
        && Contents == s.store && Retired(Closes(s), "expired", failing)
        && s.outcome == if result.Ok? then Resolved(Contents[sid]) else Raised(result.error)
    {
      var expired;
      result, expired := ResolveUnderLock(owner, sid, touch, now, dead);
      CloseRecords(expired, "expired", failing);
    }

    method Close(owner: OwnerClaims, sid: SessionId, status: string, failing: set<SessionId>)
      returns (result: Result<bool, Error>)
      requires Valid()
      modifies this, Repr`status
      ensures Valid()
      ensures var s := CloseSection(old(Contents), SessionStore.Close(owner, sid));
        && Contents == s.store && Retired(Closes(s), status, failing)
        && s.outcome == if result.Ok? then Closed(result.value) else Raised(result.error)
    {
      var popped;
      result, popped := CloseUnderLock(owner, sid);
      CloseRecords(popped, status, failing);
    }

    method CloseAllForExecution(executionId: string, status: string, failing: set<SessionId>) returns (count: nat)
      requires Valid()
      modifies this, Repr`status
      ensures Valid()
      ensures var s := CloseExecutionSection(old(Contents), executionId);
        Contents == s.store && Retired(Closes(s), status, failing) && s.outcome == Count(count)
    {
      var popped := CloseExecutionUnderLock(executionId);
      CloseRecords(popped, status, failing);
      return |popped|;
    }

    method Expire(now: real, dead: set<nat>, failing: set<SessionId>) returns (count: nat)
      requires Valid()
      modifies this, Repr`status
      ensures Valid()
      ensures var s := RunSection(limits, old(Contents), SessionStore.Expire, now, dead);
        Contents == s.store && Retired(Closes(s), "expired", failing) && s.outcome == Count(count)
    {
      var expired := RemoveExpired(now, dead);
      assert |expired.Keys| == |Swept(old(Contents), now, dead).Keys|;
      CloseRecords(expired, "expired", failing);
      return |expired|;
    }

    method CloseAll(status: string, failing: set<SessionId>) returns (count: nat)
      requires Valid()
      modifies this, Repr`status
      ensures Valid() && records == map[] && Contents == map[]
      ensures Retired(old(Contents).Keys, status, failing) && count == |old(Contents)|
    {
      var all := records;
      records, Contents := map[], map[];
      CloseRecords(all, status, failing);
      assert |all.Keys| == |old(Contents).Keys|;
      return |all|;
    }
  }
}
