/** How a caller's resource wishes are clamped to the operator's envelope. */
module RuntimePolicy {
  import opened Wrappers
  import opened Owners
  import opened SessionStore

  datatype Requested = Requested(
    idleTtl: Option<int>,
    maximumTtl: Option<int>,
    perOwner: Option<int>,
    total: Option<int>,
    navigationTimeout: Option<int>,
    retryAttempts: Option<int>,
    domainConcurrency: Option<int>,
    domainInterval: Option<real>,
    retention: Option<int>)
  {
    /** The field ranges of the request model and its two cross-field rules. */
    predicate Accepted() {
      && InRange(idleTtl, 30, 86_400) && InRange(maximumTtl, 60, 604_800)
      && InRange(perOwner, 1, 32) && InRange(total, 1, 128)
      && InRange(navigationTimeout, 5_000, 300_000) && InRange(retryAttempts, 1, 3)
      && InRange(domainConcurrency, 1, 16) && InRange(retention, 60, 604_800)
      && (domainInterval.Some? ==> 0.0 <= domainInterval.value <= 60.0)
      && (idleTtl.Some? && maximumTtl.Some? ==> idleTtl.value <= maximumTtl.value)
      && (perOwner.Some? && total.Some? ==> perOwner.value <= total.value)
    }
  }

  predicate InRange(value: Option<int>, low: int, high: int) {
    value.Some? ==> low <= value.value <= high
  }

  datatype Operator = Operator(
    limits: Limits,
    navigationTimeout: int,
    retryBudget: int,
    domainConcurrency: int,
    domainInterval: real,
    retention: int)
  {
    predicate Configured() {
      && limits.Sane() && navigationTimeout >= 5_000 && 1 <= retryBudget <= 3
      && domainConcurrency >= 1 && domainInterval >= 0.0 && retention >= 60
    }
  }

  datatype Policy = Policy(
    idleTtl: int,
    maximumTtl: int,
    perOwner: int,
    total: int,
    navigationTimeout: int,
    retryAttempts: int,
    domainConcurrency: int,
    domainInterval: real,
    retention: int)

  function Effective(operator: Operator, requested: Requested): Policy {
    var limits := operator.limits;
    var maximumTtl := Min(OrDefault(requested.maximumTtl, limits.maximumTtl), limits.maximumTtl);
    Policy(
      Min(OrDefault(requested.idleTtl, limits.idleTtl), maximumTtl),
      maximumTtl,
      Min(OrDefault(requested.perOwner, limits.perOwner), limits.perOwner),
      Min(OrDefault(requested.total, limits.total), limits.total),
      Min(OrDefault(requested.navigationTimeout, operator.navigationTimeout), operator.navigationTimeout),
      Min(OrDefault(requested.retryAttempts, operator.retryBudget), operator.retryBudget),
      Min(OrDefault(requested.domainConcurrency, operator.domainConcurrency), operator.domainConcurrency),
      MaxReal(if requested.domainInterval.Some? then requested.domainInterval.value else operator.domainInterval,
              operator.domainInterval),
      Min(OrDefault(requested.retention, operator.retention), operator.retention))
  }

  function WishesOf(policy: Policy): Wishes {
    Wishes(Some(policy.idleTtl), Some(policy.maximumTtl), Some(policy.perOwner), Some(policy.total))
  }

  /** The registry clamps once more, and that changes nothing: sessions get exactly the service's policy. */
  lemma RegistryClampIsANoOp(operator: Operator, requested: Requested, owner: OwnerClaims, handle: nat, now: real)
    requires operator.Configured() && requested.Accepted()
    ensures var policy := Effective(operator, requested);
      var wishes := WishesOf(policy);
      && OwnerLimitFor(operator.limits, wishes) == policy.perOwner
      && TotalLimitFor(operator.limits, wishes) == policy.total
      && NewRecord(operator.limits, owner, handle, wishes, now) ==
           Record(owner, handle, now, now, now + policy.idleTtl as real, now + policy.maximumTtl as real,
                  policy.idleTtl)
  {
  }

  /**
   * Every limit of the policy stays usable and within the operator's, and one open tries at most
   * five engines.  The one limit that a caller may raise is the idle TTL.
   */
  lemma WishesStayWithinTheEnvelope(operator: Operator, requested: Requested)
    requires operator.Configured() && requested.Accepted()
    ensures var policy := Effective(operator, requested);
      && 1 <= policy.idleTtl <= policy.maximumTtl <= operator.limits.maximumTtl
      && 1 <= policy.perOwner <= operator.limits.perOwner
      && 1 <= policy.total <= operator.limits.total
      && 1 <= policy.domainConcurrency <= operator.domainConcurrency
      && policy.domainInterval >= operator.domainInterval
      && 5_000 <= policy.navigationTimeout <= operator.navigationTimeout
      && 60 <= policy.retention <= operator.retention
      && 1 <= policy.retryAttempts && policy.retryAttempts + 2 <= 5
  {
  }

  /** A wish below the operator's number is granted; otherwise the operator's number stands. */
  predicate LowersTo(wish: Option<int>, own: int, granted: int) {
    match wish
    case None => granted == own
    case Some(w) => if w < own then granted == w else granted == own
  }

  /**
   * Every wish for less is honoured, and so is a wish for longer pauses; the idle TTL is the one wished
   * for, or the operator's, cut at the maximum TTL.
   */
  lemma WishesAreHonoured(operator: Operator, requested: Requested)
    requires requested.Accepted()
    ensures var own, policy := operator.limits, Effective(operator, requested);
      && LowersTo(requested.maximumTtl, own.maximumTtl, policy.maximumTtl)
      && LowersTo(Some(if requested.idleTtl.Some? then requested.idleTtl.value else own.idleTtl),
                  policy.maximumTtl, policy.idleTtl)
      && LowersTo(requested.perOwner, own.perOwner, policy.perOwner)
      && LowersTo(requested.total, own.total, policy.total)
      && LowersTo(requested.navigationTimeout, operator.navigationTimeout, policy.navigationTimeout)
      && LowersTo(requested.retryAttempts, operator.retryBudget, policy.retryAttempts)
      && LowersTo(requested.domainConcurrency, operator.domainConcurrency, policy.domainConcurrency)
      && LowersTo(requested.retention, operator.retention, policy.retention)
      && match requested.domainInterval
         case None => policy.domainInterval == operator.domainInterval
         case Some(w) => policy.domainInterval == if w > operator.domainInterval then w else operator.domainInterval
  {
  }

  /** Exactly when the policy keeps the operator's idle TTL. */
  lemma IdleTtlIsKeptExactly(operator: Operator, requested: Requested)
    requires operator.Configured() && requested.Accepted()
    ensures var own := operator.limits.idleTtl;
      Effective(operator, requested).idleTtl <= own <==>
      || requested.idleTtl.None? || requested.idleTtl.value <= own
      || (requested.maximumTtl.Some? && requested.maximumTtl.value <= own)
      || operator.limits.maximumTtl <= own
  {
  }

  const NO_WISHES := Requested(None, None, None, None, None, None, None, None, None)

  /** A wish for 50 minutes of idling outlives the operator's 15, within the maximum of an hour. */
  lemma AWishMayExtendTheIdleTtl() returns (operator: Operator, requested: Requested)
    ensures operator.Configured() && requested.Accepted()
    ensures Effective(operator, requested).idleTtl == 3000 > operator.limits.idleTtl == 900
  {
    operator := Operator(Limits(900, 3600, 3, 8), 45_000, 3, 2, 0.25, 86_400);
    requested := NO_WISHES.(idleTtl := Some(3000));
  }
}
