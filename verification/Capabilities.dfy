/**
 * Capability tokens: `payload.signature`, both URL-safe base64, signed with HMAC-SHA-256 under a
 * key that depends on the execution the token is for.
 *
 * HMAC, JSON and lower-casing are foreign: a Primitives value stands for them, and the proofs use
 * only that JSON reads back what it wrote and that digests are 32 bytes long.  The sorted lists of
 * the payload are given as the sets they list.
 */
module Capabilities {
  import opened Wrappers
  import opened Owners
  import opened Base64Url

  const AUDIENCE := "agency-browser-runtime"
  const MINIMUM_SECRET := 32

  /** A JSON payload; a field is None when its key is missing. */
  datatype Payload = Payload(
    aud: Option<string>,
    iat: Option<int>,
    exp: Option<int>,
    jti: Option<string>,
    owner: Option<OwnerClaims>,
    operations: set<string>,
    allowedHosts: set<string>)

  datatype Primitives = Primitives(
    hmac: (string, string) -> seq<byte>,
    dump: Payload -> seq<byte>,
    parse: seq<byte> -> Option<Payload>,
    lower: string -> string)
  {
    ghost predicate Sound() {
      && (forall p :: parse(dump(p)) == Some(p))
      && (forall key, message :: |hmac(key, message)| == 32)
    }

    function Sign(secret: string, encoded: string): string {
      Encode(hmac(secret, encoded))
    }
  }

  datatype Capability = Capability(
    expiresAt: int,
    issuedAt: int,
    nonce: string,
    owner: OwnerClaims,
    operations: set<string>,
    allowedHosts: set<string>)

  datatype Error =
    | ShortSecret
    | Unidentified
    | Malformed
    | BadSignature
    | BadAudience
    | OutsideWindow
    | NotGranted
    | Incomplete  // a signed payload without a required key: not a capability error, but a crash

  function DeriveExecutionSecret(c: Primitives, master: string, executionId: string): Result<string, Error> {
    if |master| < MINIMUM_SECRET then Err(ShortSecret)
    else Ok(c.Sign(master, "agency-browser-execution:" + executionId))
  }

  function WithoutTrailingDots(host: string): string {
    if host != "" && host[|host| - 1] == '.' then WithoutTrailingDots(host[..|host| - 1]) else host
  }

  function NewPayload(c: Primitives, owner: OwnerClaims, operations: set<string>, hosts: set<string>,
                      ttl: int, now: int, nonce: string): Payload {
    Payload(
      Some(AUDIENCE), Some(now), Some(now + Max(1, Min(ttl, 300))), Some(nonce), Some(owner),
      operations, set h | h in hosts :: WithoutTrailingDots(c.lower(h)))
  }

  function Issue(c: Primitives, secret: string, owner: OwnerClaims, operations: set<string>, hosts: set<string>,
                 ttl: int, now: int, nonce: string): Result<string, Error> {
    if |secret| < MINIMUM_SECRET then Err(ShortSecret)
    else if !owner.IsIdentified() then Err(Unidentified)
    else
      var encoded := Encode(c.dump(NewPayload(c, owner, operations, hosts, ttl, now, nonce)));
      Ok(encoded + "." + c.Sign(secret, encoded))
  }

  /** Everything before and after the first '.', or None when there is none. */
  function Split(token: string): Option<(string, string)> {
    if token == "" then None
    else if token[0] == '.' then Some(("", token[1..]))
    else
      match Split(token[1..])
      case None => None
      case Some((left, right)) => Some(([token[0]] + left, right))
  }

  predicate Ascii(s: string) {
    forall i :: 0 <= i < |s| ==> s[i] < 128 as char
  }

  function ReadPayload(c: Primitives, encoded: string): Option<Payload> {
    match Decode(encoded)
    case None => None
    case Some(bytes) => c.parse(bytes)
  }

  function PeekOwner(c: Primitives, token: string): Result<OwnerClaims, Error> {
    match Split(token)
    case None => Err(Malformed)
    case Some((encoded, _)) =>
      match ReadPayload(c, encoded)
      case None => Err(Malformed)
      case Some(payload) => if payload.owner.None? then Err(Malformed) else Ok(payload.owner.value)
  }

  function CheckPayload(payload: Payload, operation: string, now: int): Result<Capability, Error> {
    var iat := if payload.iat.Some? then payload.iat.value else 0;
    var exp := if payload.exp.Some? then payload.exp.value else 0;
    if payload.aud != Some(AUDIENCE) then Err(BadAudience)
    else if now < iat - 30 || now >= exp then Err(OutsideWindow)
    else if operation !in payload.operations then Err(NotGranted)
    else if payload.iat.None? || payload.exp.None? || payload.jti.None? || payload.owner.None? then Err(Incomplete)
    else Ok(Capability(exp, iat, payload.jti.value, payload.owner.value, payload.operations, payload.allowedHosts))
  }

  function Verify(c: Primitives, secret: string, token: string, operation: string, now: int)
    : Result<Capability, Error>
  {
    match Split(token)
    case None => Err(Malformed)
    case Some((encoded, supplied)) =>
      if !Ascii(encoded) || !Ascii(supplied) then Err(Malformed)
      else if supplied != c.Sign(secret, encoded) then Err(BadSignature)
      else
        match ReadPayload(c, encoded)
        case None => Err(Malformed)
        case Some(payload) => CheckPayload(payload, operation, now)
  }

  /** The key the server verifies an owner's tokens with. */
  function VerificationSecret(c: Primitives, master: string, owner: OwnerClaims): Result<string, Error> {
    if Truthy(owner.executionId) then DeriveExecutionSecret(c, master, owner.executionId.value) else Ok(master)
  }

  function VerifyAsServer(c: Primitives, master: string, token: string, operation: string, now: int)
    : Result<Capability, Error>
  {
    match PeekOwner(c, token)
    case Err(error) => Err(error)
    case Ok(owner) =>
      match VerificationSecret(c, master, owner)
      case Err(error) => Err(error)
      case Ok(secret) => Verify(c, secret, token, operation, now)
  }

  /** The key a client signs with: the worker's own, else the derived one, else the master. */
  function ClientSecret(c: Primitives, worker: Option<string>, master: Option<string>, owner: OwnerClaims)
    : Result<string, Error>
  {
    if Truthy(worker) then Ok(worker.value)
    else if !Truthy(master) then Err(ShortSecret)
    else if Truthy(owner.executionId) then DeriveExecutionSecret(c, master.value, owner.executionId.value)
    else Ok(master.value)
  }

  /** What a token issued with these arguments grants. */
  function Granted(c: Primitives, owner: OwnerClaims, operations: set<string>, hosts: set<string>,
                   ttl: int, iat: int, nonce: string): Capability {
    Capability(iat + Max(1, Min(ttl, 300)), iat, nonce, owner, operations,
               set h | h in hosts :: WithoutTrailingDots(c.lower(h)))
  }

  // ---------------------------------------------------------------- the token format

  lemma {:induction false} SplitUndoesJoin(left: string, right: string)
    requires forall i :: 0 <= i < |left| ==> left[i] != '.'
    ensures Split(left + "." + right) == Some((left, right))
  {
    var token := left + "." + right;
    if left == "" {
      assert token[0] == '.' && token[1..] == right;
    } else {
      assert token[1..] == left[1..] + "." + right;
      SplitUndoesJoin(left[1..], right);
      assert [left[0]] + left[1..] == left;
    }
  }

  lemma EncodedIsAscii(b: seq<byte>)
    ensures Ascii(Encode(b))
  {
    EncodeIsSymbols(b);
    AllSymbols(b);
  }

  /** Whoever reads a token gets exactly the payload and the signature that were joined in it. */
  lemma TokenReadsBack(c: Primitives, payload: Payload, signature: seq<byte>)
    requires c.Sound()
    ensures var encoded := Encode(c.dump(payload));
      && Split(encoded + "." + Encode(signature)) == Some((encoded, Encode(signature)))
      && Ascii(encoded) && Ascii(Encode(signature))
      && ReadPayload(c, encoded) == Some(payload)
  {
    var bytes := c.dump(payload);
    EncodedShape(bytes);
    SplitUndoesJoin(Encode(bytes), Encode(signature));
    EncodedIsAscii(bytes);
    EncodedIsAscii(signature);
    RoundTrip(bytes);
  }

  /** A derived key is long enough to sign with. */
  lemma DerivedSecretsAreLongEnough(c: Primitives, master: string, executionId: string)
    requires c.Sound() && |master| >= MINIMUM_SECRET
    ensures DeriveExecutionSecret(c, master, executionId).Ok?
    ensures |DeriveExecutionSecret(c, master, executionId).value| == 43 >= MINIMUM_SECRET
  {
    EncodedShape(c.hmac(master, "agency-browser-execution:" + executionId));
  }

  /** Keys of two executions differ wherever the digests of their two names do. */
  lemma ExecutionsHaveTheirOwnKeys(c: Primitives, master: string, one: string, other: string)
    requires |master| >= 32
    requires c.hmac(master, "agency-browser-execution:" + one) != c.hmac(master, "agency-browser-execution:" + other)
    ensures DeriveExecutionSecret(c, master, one).Ok? && DeriveExecutionSecret(c, master, other).Ok?
    ensures DeriveExecutionSecret(c, master, one) != DeriveExecutionSecret(c, master, other)
  {
    var a, b := "agency-browser-execution:" + one, "agency-browser-execution:" + other;
    if Encode(c.hmac(master, a)) == Encode(c.hmac(master, b)) {
      EncodeIsInjective(c.hmac(master, a), c.hmac(master, b));
    }
  }

  /** Exactly the dots at the end of a host come off. */
  lemma {:induction false} TrailingDotsComeOff(host: string)
    ensures var kept := WithoutTrailingDots(host);
      && kept <= host && (forall i :: |kept| <= i < |host| ==> host[i] == '.')
      && (kept == "" || kept[|kept| - 1] != '.')
  {
    if host != "" && host[|host| - 1] == '.' {
      TrailingDotsComeOff(host[..|host| - 1]);
    }
  }

  /** A key must have 32 characters, and the owner an identity; the key is told of first. */
  lemma IssueAnswersExactly(c: Primitives, secret: string, owner: OwnerClaims, operations: set<string>,
                            hosts: set<string>, ttl: int, now: int, nonce: string)
    ensures var token := Issue(c, secret, owner, operations, hosts, ttl, now, nonce);
      if |secret| < 32 then token == Err(ShortSecret)
      else if !owner.IsIdentified() then token == Err(Unidentified)
      else token.Ok?
  {
  }

  /** A payload signed with the verifier's key is accepted exactly when complete, for us, on time and granting it. */
  lemma SignedPayloadsAreAcceptedExactly(c: Primitives, secret: string, payload: Payload, operation: string, now: int)
    requires c.Sound()
    ensures var encoded := Encode(c.dump(payload));
      var verified := Verify(c, secret, encoded + "." + c.Sign(secret, encoded), operation, now);
      && (verified.Ok? <==>
           && payload.aud == Some("agency-browser-runtime") && operation in payload.operations
           && payload.iat.Some? && payload.exp.Some? && payload.jti.Some? && payload.owner.Some?
           && payload.iat.value - 30 <= now < payload.exp.value)
      && (verified.Ok? ==>
           verified.value == Capability(payload.exp.value, payload.iat.value, payload.jti.value, payload.owner.value,
                                        payload.operations, payload.allowedHosts))
  {
    TokenReadsBack(c, payload, c.hmac(secret, Encode(c.dump(payload))));
  }

  // ---------------------------------------------------------------- end to end

  /**
   * A token that the client issues for an identified owner is accepted by the server exactly from
   * 30 seconds before its issue until its expiry, for the granted operations, and tells the owner,
   * nonce and grants it was issued with.  A worker's own key must be the one derived for the
   * execution it acts for.
   */
  lemma IssuedTokensVerifyExactly(c: Primitives, worker: Option<string>, master: string, owner: OwnerClaims,
                                  operations: set<string>, hosts: set<string>, ttl: int, iat: int, nonce: string,
                                  operation: string, now: int)
    requires c.Sound() && |master| >= MINIMUM_SECRET && owner.IsIdentified()
    requires Truthy(worker) ==>
      Truthy(owner.executionId) && DeriveExecutionSecret(c, master, owner.executionId.value) == Ok(worker.value)
    ensures var secret := ClientSecret(c, worker, Some(master), owner);
      && secret.Ok?
      && var token := Issue(c, secret.value, owner, operations, hosts, ttl, iat, nonce);
         && token.Ok?
         && var verified := VerifyAsServer(c, master, token.value, operation, now);
            && (verified.Ok? <==> iat - 30 <= now < iat + Max(1, Min(ttl, 300)) && operation in operations)
            && (verified.Ok? ==> verified.value == Granted(c, owner, operations, hosts, ttl, iat, nonce))
  {
    if Truthy(owner.executionId) {
      DerivedSecretsAreLongEnough(c, master, owner.executionId.value);
    }
    var secret := ClientSecret(c, worker, Some(master), owner).value;
    assert VerificationSecret(c, master, owner) == Ok(secret);
    var payload := NewPayload(c, owner, operations, hosts, ttl, iat, nonce);
    TokenReadsBack(c, payload, c.hmac(secret, Encode(c.dump(payload))));
  }

  /**
   * The server accepts a token only under the signature of the key for the owner it names, so a
   * signature made with another key is accepted only if the two digests coincide.
   */
  lemma AcceptanceNeedsTheOwnersKey(c: Primitives, master: string, encoded: string, other: string,
                                    operation: string, now: int)
    requires forall i :: 0 <= i < |encoded| ==> encoded[i] != '.'
    requires VerifyAsServer(c, master, encoded + "." + c.Sign(other, encoded), operation, now).Ok?
    ensures var owner := VerifyAsServer(c, master, encoded + "." + c.Sign(other, encoded), operation, now).value.owner;
      var key := VerificationSecret(c, master, owner);
      key.Ok? && c.hmac(key.value, encoded) == c.hmac(other, encoded)
  {
    SplitUndoesJoin(encoded, c.Sign(other, encoded));
    var owner := PeekOwner(c, encoded + "." + c.Sign(other, encoded)).value;
    var key := VerificationSecret(c, master, owner).value;
    EncodeIsInjective(c.hmac(key, encoded), c.hmac(other, encoded));
  }

  /** Tokens live at most 300 seconds. */
  lemma IssuedTokensAreShortLived(c: Primitives, owner: OwnerClaims, operations: set<string>, hosts: set<string>,
                                  ttl: int, now: int, nonce: string)
    ensures var p := NewPayload(c, owner, operations, hosts, ttl, now, nonce);
      p.iat.value + 1 <= p.exp.value <= p.iat.value + 300
  {
  }
}
