/**
 * The server's replay check.  It remembers the nonces of accepted tokens and forgets them once
 * they have expired, so that each token is accepted at most once although the table stays small.
 *
 * One call reads the clock twice: `checkedAt` when the token is verified and `prunedAt` when the
 * table is pruned.
 */
module ReplayGuard {
  import opened Wrappers
  import opened Owners
  import opened Capabilities

  datatype HttpError = NotConfigured503 | Unauthorized401 | Replayed409 | Crash500

  datatype Call = Call(authorization: Option<string>, operation: string, checkedAt: int, prunedAt: int)

  type Nonces = map<string, int>

  function BearerToken(authorization: Option<string>): Option<string> {
    if authorization.Some? && "Bearer " <= authorization.value then Some(authorization.value[7..]) else None
  }

  /** The part of a call before the table is looked at. */
  function Authenticate(c: Primitives, master: string, call: Call): Result<Capability, HttpError> {
    if |master| < MINIMUM_SECRET then Err(NotConfigured503)
    else if BearerToken(call.authorization).None? then Err(Unauthorized401)
    else
      match VerifyAsServer(c, master, BearerToken(call.authorization).value, call.operation, call.checkedAt)
      case Ok(capability) => Ok(capability)
      case Err(error) => Err(if error.Incomplete? then Crash500 else Unauthorized401)
  }

  function Pruned(nonces: Nonces, now: int): Nonces {
    map n | n in nonces && nonces[n] > now :: nonces[n]
  }

  /** What a call answers, given the table it finds. */
  function Answer(c: Primitives, master: string, nonces: Nonces, call: Call): Result<Capability, HttpError> {
    match Authenticate(c, master, call)
    case Err(error) => Err(error)
    case Ok(capability) =>
      if capability.nonce in Pruned(nonces, call.prunedAt) then Err(Replayed409) else Ok(capability)
  }

  function TableAfter(c: Primitives, master: string, nonces: Nonces, call: Call): Nonces {
    if Authenticate(c, master, call).Err? then nonces
    else
      match Answer(c, master, nonces, call)
      case Err(_) => Pruned(nonces, call.prunedAt)
      case Ok(capability) => Pruned(nonces, call.prunedAt)[capability.nonce := capability.expiresAt]
  }

  class CapabilityVerifier {
    const primitives: Primitives
    const secret: string
    var usedNonces: Nonces

    constructor (primitives: Primitives, secret: string)
      ensures this.primitives == primitives && this.secret == secret && usedNonces == map[]
    {
      this.primitives, this.secret, usedNonces := primitives, secret, map[];
    }

    method Verify(call: Call) returns (answer: Result<Capability, HttpError>)
      modifies this
      ensures answer == Answer(primitives, secret, old(usedNonces), call)
      ensures usedNonces == TableAfter(primitives, secret, old(usedNonces), call)
    {
      if |secret| < MINIMUM_SECRET {
        return Err(NotConfigured503);
      }
      if call.authorization.None? || !("Bearer " <= call.authorization.value) {
        return Err(Unauthorized401);
      }
      var token := call.authorization.value[7..];
      var verified := VerifyAsServer(primitives, secret, token, call.operation, call.checkedAt);
      if verified.Err? {
        return Err(if verified.error.Incomplete? then Crash500 else Unauthorized401);
      }
      var capability := verified.value;
      usedNonces := map n | n in usedNonces && usedNonces[n] > call.prunedAt :: usedNonces[n];
      if capability.nonce in usedNonces {
        return Err(Replayed409);
      }
      usedNonces := usedNonces[capability.nonce := capability.expiresAt];
      return Ok(capability);
    }
  }

  // ---------------------------------------------------------------- runs

  function Table(c: Primitives, master: string, calls: seq<Call>): Nonces {
    if calls == [] then map[]
    else TableAfter(c, master, Table(c, master, calls[..|calls| - 1]), calls[|calls| - 1])
  }

  function AnswerAt(c: Primitives, master: string, calls: seq<Call>, i: nat): Result<Capability, HttpError>
    requires i < |calls|
  {
    Answer(c, master, Table(c, master, calls[..i]), calls[i])
  }

  /** Within a call and from call to call the clock never runs backwards. */
  predicate ClockMovesForward(calls: seq<Call>) {
    && (forall i :: 0 <= i < |calls| ==> calls[i].checkedAt <= calls[i].prunedAt)
    && (forall i, j :: 0 <= i < j < |calls| ==> calls[i].prunedAt <= calls[j].checkedAt)
  }

  predicate OneReadingPerCall(calls: seq<Call>) {
    forall i :: 0 <= i < |calls| ==> calls[i].checkedAt == calls[i].prunedAt
  }

  /** Some pruning from after call i up to call j comes at or past `expiry`. */
  predicate PrunedPast(calls: seq<Call>, i: nat, j: nat, expiry: int)
    requires j < |calls|
  {
    exists k :: i < k <= j && calls[k].prunedAt >= expiry
  }

  lemma TableOfPrefix(c: Primitives, master: string, calls: seq<Call>, i: nat)
    requires i < |calls|
    ensures Table(c, master, calls[..i + 1]) == TableAfter(c, master, Table(c, master, calls[..i]), calls[i])
  {
    assert calls[..i + 1][..i] == calls[..i];
  }

  lemma AcceptedIsRemembered(c: Primitives, master: string, table: Nonces, call: Call)
    requires Answer(c, master, table, call).Ok?
    ensures var capability := Answer(c, master, table, call).value;
      && capability.nonce in TableAfter(c, master, table, call)
      && TableAfter(c, master, table, call)[capability.nonce] == capability.expiresAt
  {
  }

  lemma KeptUnlessPruned(c: Primitives, master: string, table: Nonces, call: Call, nonce: string)
    requires nonce in table && table[nonce] > call.prunedAt
    ensures nonce in TableAfter(c, master, table, call) && TableAfter(c, master, table, call)[nonce] == table[nonce]
  {
  }

  lemma AcceptanceNeedsUnknownNonce(c: Primitives, master: string, table: Nonces, call: Call)
    requires Answer(c, master, table, call).Ok?
    ensures var nonce := Answer(c, master, table, call).value.nonce; nonce in table ==> table[nonce] <= call.prunedAt
  {
  }

  predicate Remembers(table: Nonces, nonce: string, expiry: int) {
    nonce in table && table[nonce] == expiry
  }

  /** An accepted nonce is remembered until some pruning comes past its expiry. */
  lemma {:induction false} RememberedUntilExpiry(c: Primitives, master: string, calls: seq<Call>, i: nat, j: nat)
    requires i <= j < |calls| && AnswerAt(c, master, calls, i).Ok?
    ensures var capability := AnswerAt(c, master, calls, i).value;
      || PrunedPast(calls, i, j, capability.expiresAt)
      || Remembers(Table(c, master, calls[..j + 1]), capability.nonce, capability.expiresAt)
    decreases j - i
  {
    hide Answer, Authenticate, TableAfter, Table;
    TableOfPrefix(c, master, calls, j);
    if i == j {
      AcceptedIsRemembered(c, master, Table(c, master, calls[..j]), calls[j]);
    } else {
      RememberedUntilExpiry(c, master, calls, i, j - 1);
      var capability := AnswerAt(c, master, calls, i).value;
      if k :| i < k <= j - 1 && calls[k].prunedAt >= capability.expiresAt {
        assert i < k <= j && calls[k].prunedAt >= capability.expiresAt;
      } else if calls[j].prunedAt < capability.expiresAt {
        KeptUnlessPruned(c, master, Table(c, master, calls[..j]), calls[j], capability.nonce);
      } else {
        assert PrunedPast(calls, i, j, capability.expiresAt);
      }
    }
  }

  /** A nonce is accepted again only after a pruning past the expiry of its first acceptance. */
  lemma SecondAcceptanceNeedsExpiry(c: Primitives, master: string, calls: seq<Call>, i: nat, j: nat)
    requires i < j < |calls|
    requires AnswerAt(c, master, calls, i).Ok? && AnswerAt(c, master, calls, j).Ok?
    requires AnswerAt(c, master, calls, i).value.nonce == AnswerAt(c, master, calls, j).value.nonce
    ensures PrunedPast(calls, i, j, AnswerAt(c, master, calls, i).value.expiresAt)
  {
    hide Answer, Authenticate, TableAfter, Table;
    RememberedUntilExpiry(c, master, calls, i, j - 1);
    AcceptanceNeedsUnknownNonce(c, master, Table(c, master, calls[..j]), calls[j]);
    var expiry := AnswerAt(c, master, calls, i).value.expiresAt;
    if k :| i < k <= j - 1 && calls[k].prunedAt >= expiry {
      assert i < k <= j && calls[k].prunedAt >= expiry;
    } else {
      assert calls[..j - 1 + 1] == calls[..j];
      assert calls[j].prunedAt >= expiry;
    }
  }

  /** Call k authenticated, and so pruned away what expires by `expiry`. */
  predicate Forgets(c: Primitives, master: string, call: Call, expiry: int) {
    Authenticate(c, master, call).Ok? && call.prunedAt >= expiry
  }

  /** Call i accepted the nonce with this expiry, and no call before n has forgotten it since. */
  predicate Blocks(c: Primitives, master: string, calls: seq<Call>, i: nat, n: nat, nonce: string, expiry: int)
    requires i < n <= |calls|
  {
    && AnswerAt(c, master, calls, i).Ok?
    && AnswerAt(c, master, calls, i).value.nonce == nonce && AnswerAt(c, master, calls, i).value.expiresAt == expiry
    && forall k :: i < k < n ==> !Forgets(c, master, calls[k], expiry)
  }

  ghost predicate Blocked(c: Primitives, master: string, calls: seq<Call>, n: nat, nonce: string, expiry: int)
    requires n <= |calls|
  {
    exists i: nat :: i < n && Blocks(c, master, calls, i, n, nonce, expiry)
  }

  lemma BlockedStep(c: Primitives, master: string, calls: seq<Call>, n: nat, nonce: string, expiry: int)
    requires n < |calls|
    ensures Blocked(c, master, calls, n + 1, nonce, expiry) <==>
      || Blocks(c, master, calls, n, n + 1, nonce, expiry)
      || (Blocked(c, master, calls, n, nonce, expiry) && !Forgets(c, master, calls[n], expiry))
  {
    hide Forgets, AnswerAt;
    var m := n + 1;
    if Blocked(c, master, calls, n, nonce, expiry) && !Forgets(c, master, calls[n], expiry) {
      var i: nat :| i < n && Blocks(c, master, calls, i, n, nonce, expiry);
      assert Blocks(c, master, calls, i, m, nonce, expiry);
    }
    if i: nat :| i < n && Blocks(c, master, calls, i, m, nonce, expiry) {
      assert Blocks(c, master, calls, i, n, nonce, expiry);
    }
  }

  /** How one call changes what the table knows of a nonce. */
  lemma TableStep(c: Primitives, master: string, table: Nonces, call: Call, nonce: string, expiry: int)
    ensures var answer, after := Answer(c, master, table, call), TableAfter(c, master, table, call);
      Remembers(after, nonce, expiry) <==>
      || (answer.Ok? && answer.value.nonce == nonce && answer.value.expiresAt == expiry)
      || (Remembers(table, nonce, expiry) && !Forgets(c, master, call, expiry))
  {
  }

  /** The table knows exactly the nonces of accepted calls that no later call has forgotten. */
  lemma {:induction false} TableKnowsExactly(c: Primitives, master: string, calls: seq<Call>, n: nat,
                                             nonce: string, expiry: int)
    requires n <= |calls|
    ensures Remembers(Table(c, master, calls[..n]), nonce, expiry) <==> Blocked(c, master, calls, n, nonce, expiry)
  {
    if n == 0 {
      assert calls[..0] == [];
    } else {
      hide Answer, TableAfter, Forgets, Blocked, Remembers, Table;
      TableKnowsExactly(c, master, calls, n - 1, nonce, expiry);
      BlockedStep(c, master, calls, n - 1, nonce, expiry);
      TableOfPrefix(c, master, calls, n - 1);
      TableStep(c, master, Table(c, master, calls[..n - 1]), calls[n - 1], nonce, expiry);
    }
  }

  lemma AcceptsUnlessRemembered(c: Primitives, master: string, table: Nonces, call: Call)
    requires Authenticate(c, master, call).Ok?
    ensures var capability := Authenticate(c, master, call).value;
      var known := capability.nonce in table && table[capability.nonce] > call.prunedAt;
      Answer(c, master, table, call) == if known then Err(Replayed409) else Ok(capability)
  {
  }

  /**
   * An authenticated call is accepted, in any run, if and only if no earlier accepted call carried its
   * nonce with an expiry past every pruning since, its own included; otherwise it is a replay.
   */
  lemma AcceptedExactly(c: Primitives, master: string, calls: seq<Call>, j: nat)
    requires j < |calls| && Authenticate(c, master, calls[j]).Ok?
    ensures var capability := Authenticate(c, master, calls[j]).value;
      AnswerAt(c, master, calls, j) ==
      if exists expiry :: Blocked(c, master, calls, j, capability.nonce, expiry) && expiry > calls[j].prunedAt
      then Err(Replayed409) else Ok(capability)
  {
    hide Answer, TableAfter, Table, Blocked, Authenticate;
    var capability := Authenticate(c, master, calls[j]).value;
    var table := Table(c, master, calls[..j]);
    AcceptsUnlessRemembered(c, master, table, calls[j]);
    if capability.nonce in table && table[capability.nonce] > calls[j].prunedAt {
      TableKnowsExactly(c, master, calls, j, capability.nonce, table[capability.nonce]);
    }
    if expiry :| Blocked(c, master, calls, j, capability.nonce, expiry) && expiry > calls[j].prunedAt {
      TableKnowsExactly(c, master, calls, j, capability.nonce, expiry);
    }
  }

  /** So a nonce that no earlier call was accepted with is accepted, whatever else has run. */
  lemma FreshNonceIsAccepted(c: Primitives, master: string, calls: seq<Call>, j: nat)
    requires j < |calls| && Authenticate(c, master, calls[j]).Ok?
    requires forall i :: 0 <= i < j && AnswerAt(c, master, calls, i).Ok? ==>
               AnswerAt(c, master, calls, i).value.nonce != Authenticate(c, master, calls[j]).value.nonce
    ensures AnswerAt(c, master, calls, j) == Ok(Authenticate(c, master, calls[j]).value)
  {
    AcceptedExactly(c, master, calls, j);
    hide AnswerAt, Authenticate, Forgets;
  }

  /** What a call that does not authenticate is told, and that it leaves the table alone. */
  lemma RefusalsExactly(c: Primitives, master: string, table: Nonces, call: Call)
    requires Authenticate(c, master, call).Err?
    ensures TableAfter(c, master, table, call) == table
    ensures var token := if call.authorization.Some? && |call.authorization.value| >= 7
                            && call.authorization.value[..7] == "Bearer "
                         then Some(call.authorization.value[7..]) else None;
      Answer(c, master, table, call) == Err(
        if |master| < 32 then NotConfigured503
        else if token.None? then Unauthorized401
        else if VerifyAsServer(c, master, token.value, call.operation, call.checkedAt) == Err(Incomplete) then Crash500
        else Unauthorized401)
  {
  }

  lemma AcceptedWithinWindow(c: Primitives, master: string, call: Call)
    requires Authenticate(c, master, call).Ok?
    ensures var capability := Authenticate(c, master, call).value;
      capability.issuedAt - 30 <= call.checkedAt < capability.expiresAt
  {
  }

  /** The capability a token stands for does not depend on when and for what it is presented. */
  lemma SameTokenSameCapability(c: Primitives, master: string, a: Call, b: Call)
    requires a.authorization == b.authorization
    requires Authenticate(c, master, a).Ok? && Authenticate(c, master, b).Ok?
    ensures Authenticate(c, master, a) == Authenticate(c, master, b)
  {
  }

  /** With a forward clock read once per call, no token is accepted twice, however long the run. */
  lemma NoTokenIsAcceptedTwice(c: Primitives, master: string, calls: seq<Call>, i: nat, j: nat)
    requires ClockMovesForward(calls) && OneReadingPerCall(calls)
    requires i < j < |calls| && calls[i].authorization == calls[j].authorization
    ensures AnswerAt(c, master, calls, i).Err? || AnswerAt(c, master, calls, j).Err?
  {
    if AnswerAt(c, master, calls, i).Ok? && AnswerAt(c, master, calls, j).Ok? {
      SameTokenSameCapability(c, master, calls[i], calls[j]);
      SecondAcceptanceNeedsExpiry(c, master, calls, i, j);
      AcceptedWithinWindow(c, master, calls[j]);
    }
  }

  /** Every authenticated capability with this nonce has this expiry: nonces are random. */
  predicate NonceIsUnique(c: Primitives, master: string, calls: seq<Call>, nonce: string, expiry: int) {
    forall i :: 0 <= i < |calls| && Authenticate(c, master, calls[i]).Ok? ==>
      var capability := Authenticate(c, master, calls[i]).value;
      capability.nonce == nonce ==> capability.expiresAt == expiry
  }

  lemma {:induction false} RememberedExpiriesAreTrue(c: Primitives, master: string, calls: seq<Call>,
                                                     nonce: string, expiry: int)
    requires NonceIsUnique(c, master, calls, nonce, expiry)
    ensures nonce in Table(c, master, calls) ==> Table(c, master, calls)[nonce] == expiry
  {
    if calls != [] {
      var prefix := calls[..|calls| - 1];
      assert NonceIsUnique(c, master, prefix, nonce, expiry) by {
        assert forall i :: 0 <= i < |prefix| ==> prefix[i] == calls[i];
      }
      RememberedExpiriesAreTrue(c, master, prefix, nonce, expiry);
    }
  }

  /**
   * With two readings per call the guarantee fails in exactly one way: a replayed token gets through
   * if and only if the call verified it before its expiry and pruned the table at or after it.
   */
  lemma ReplayGetsThroughExactly(c: Primitives, master: string, calls: seq<Call>, i: nat, j: nat)
    requires ClockMovesForward(calls)
    requires i < j < |calls| && calls[i].authorization == calls[j].authorization
    requires AnswerAt(c, master, calls, i).Ok? && Authenticate(c, master, calls[j]).Ok?
    requires var first := AnswerAt(c, master, calls, i).value;
      NonceIsUnique(c, master, calls[..j], first.nonce, first.expiresAt)
    ensures var expiry := AnswerAt(c, master, calls, i).value.expiresAt;
      AnswerAt(c, master, calls, j).Ok? <==> calls[j].checkedAt < expiry <= calls[j].prunedAt
  {
    var first := AnswerAt(c, master, calls, i).value;
    SameTokenSameCapability(c, master, calls[i], calls[j]);
    AcceptedWithinWindow(c, master, calls[j]);
    if AnswerAt(c, master, calls, j).Ok? {
      SecondAcceptanceNeedsExpiry(c, master, calls, i, j);
    } else {
      RememberedExpiriesAreTrue(c, master, calls[..j], first.nonce, first.expiresAt);
    }
  }

  lemma BearerReadsBack(token: string)
    ensures BearerToken(Some("Bearer " + token)) == Some(token)
  {
    assert ("Bearer " + token)[..7] == "Bearer " && ("Bearer " + token)[7..] == token;
  }

  /** Every token a client issues without a worker key of its own is authenticated while it is valid. */
  lemma IssuedTokenIsAuthenticated(c: Primitives, master: string, owner: OwnerClaims, nonce: string,
                                   token: string, now: int, later: int)
    requires c.Sound() && |master| >= MINIMUM_SECRET && owner.IsIdentified()
    requires ClientSecret(c, None, Some(master), owner).Ok?
    requires Issue(c, ClientSecret(c, None, Some(master), owner).value, owner, {"open"}, {}, 30, 0, nonce) == Ok(token)
    requires 0 <= now < 30
    ensures Authenticate(c, master, Call(Some("Bearer " + token), "open", now, later)) ==
      Ok(Granted(c, owner, {"open"}, {}, 30, 0, nonce))
  {
    BearerReadsBack(token);
    IssuedTokensVerifyExactly(c, None, master, owner, {"open"}, {}, 30, 0, nonce, "open", now);
  }

  /** An issued token is accepted on its first use, whatever other tokens were used before it. */
  lemma IssuedTokenIsAcceptedOnFirstUse(c: Primitives, worker: Option<string>, master: string, owner: OwnerClaims,
                                        operations: set<string>, hosts: set<string>, ttl: int, iat: int,
                                        nonce: string, calls: seq<Call>, j: nat)
    requires c.Sound() && |master| >= MINIMUM_SECRET && owner.IsIdentified() && j < |calls|
    requires Truthy(worker) ==>
      Truthy(owner.executionId) && DeriveExecutionSecret(c, master, owner.executionId.value) == Ok(worker.value)
    requires var secret := ClientSecret(c, worker, Some(master), owner);
      && secret.Ok?
      && var token := Issue(c, secret.value, owner, operations, hosts, ttl, iat, nonce);
         token.Ok? && calls[j].authorization == Some("Bearer " + token.value)
    requires iat - 30 <= calls[j].checkedAt < iat + Max(1, Min(ttl, 300)) && calls[j].operation in operations
    requires forall i :: 0 <= i < j && AnswerAt(c, master, calls, i).Ok? ==>
               AnswerAt(c, master, calls, i).value.nonce != nonce
    ensures AnswerAt(c, master, calls, j) == Ok(Granted(c, owner, operations, hosts, ttl, iat, nonce))
  {
    var secret := ClientSecret(c, worker, Some(master), owner).value;
    var token := Issue(c, secret, owner, operations, hosts, ttl, iat, nonce).value;
    BearerReadsBack(token);
    IssuedTokensVerifyExactly(c, worker, master, owner, operations, hosts, ttl, iat, nonce,
                              calls[j].operation, calls[j].checkedAt);
    assert Authenticate(c, master, calls[j]) == Ok(Granted(c, owner, operations, hosts, ttl, iat, nonce));
    hide AnswerAt, Authenticate, Issue, VerifyAsServer, ClientSecret;
    FreshNonceIsAccepted(c, master, calls, j);
  }

  /** A token accepted at its issue and again one second before its expiry, by a call that prunes a second later. */
  lemma AReplayMayGetThrough(c: Primitives, master: string, owner: OwnerClaims, nonce: string)
    returns (calls: seq<Call>)
    requires c.Sound() && |master| >= MINIMUM_SECRET && owner.IsIdentified()
    ensures ClockMovesForward(calls) && |calls| == 2 && calls[0].authorization == calls[1].authorization
    ensures AnswerAt(c, master, calls, 0).Ok? && AnswerAt(c, master, calls, 1).Ok?
  {
    IssuedTokensVerifyExactly(c, None, master, owner, {"open"}, {}, 30, 0, nonce, "open", 0);
    var secret := ClientSecret(c, None, Some(master), owner).value;
    var token := Issue(c, secret, owner, {"open"}, {}, 30, 0, nonce).value;
    hide Authenticate, Issue, ClientSecret, VerifyAsServer;
    var first, second :=
      Call(Some("Bearer " + token), "open", 0, 0), Call(Some("Bearer " + token), "open", 29, 30);
    IssuedTokenIsAuthenticated(c, master, owner, nonce, token, 0, 0);
    IssuedTokenIsAuthenticated(c, master, owner, nonce, token, 29, 30);
    calls := [first, second];
    assert calls[..0] == [] && calls[..1] == [first] && [first][..0] == [];
    TableOfPrefix(c, master, calls, 0);
  }

  /** No payload of the run claims a longer life than the client ever issues. */
  predicate ShortLived(c: Primitives, master: string, calls: seq<Call>) {
    forall i :: 0 <= i < |calls| && Authenticate(c, master, calls[i]).Ok? ==>
      Authenticate(c, master, calls[i]).value.expiresAt <= Authenticate(c, master, calls[i]).value.issuedAt + 300
  }

  /** After every authenticated call the table holds only expiries of the coming 330 seconds. */
  lemma {:induction false} TableHoldsOnlyTheNearFuture(c: Primitives, master: string, calls: seq<Call>,
                                                       now: int, nonce: string)
    requires ClockMovesForward(calls) && OneReadingPerCall(calls) && ShortLived(c, master, calls)
    requires calls != [] ==> calls[|calls| - 1].prunedAt <= now
    requires nonce in Table(c, master, calls)
    ensures Table(c, master, calls)[nonce] <= now + 330
    ensures calls[|calls| - 1].prunedAt == now && Authenticate(c, master, calls[|calls| - 1]).Ok? ==>
      Table(c, master, calls)[nonce] > now
  {
    var n := |calls| - 1;
    var prefix := calls[..n];
    if nonce in Table(c, master, prefix) {
      assert ShortLived(c, master, prefix) by {
        assert forall i :: 0 <= i < |prefix| ==> prefix[i] == calls[i];
      }
      TableHoldsOnlyTheNearFuture(c, master, prefix, now, nonce);
    }
    if Authenticate(c, master, calls[n]).Ok? {
      AcceptedWithinWindow(c, master, calls[n]);
    }
  }
}
