/**
 * Proxy endpoints behind named bindings, with per-domain stickiness and rotation.
 *
 * SHA-256 and endpoint parsing are foreign: `stable` is the hash of a domain, `wellFormed` says
 * whether an endpoint parses.  A binding's pool is a list: a binding given as a plain string has one
 * endpoint, or none when the string is empty.
 */
module ProxyPool {
  import opened Wrappers

  datatype Sticky = Sticky(binding: string, expiresAt: real, remainingRequests: int)

  datatype Config = Config(
    bindings: map<string, seq<string>>,
    stable: string -> nat,
    wellFormed: string -> bool,
    stickyTtl: int,
    stickyRequests: int)

  datatype State = State(sticky: map<string, Sticky>, rotation: map<string, nat>)

  datatype Proxy = Proxy(endpoint: string, binding: string)

  datatype Error = UnknownBinding | EmptyEndpoint | InvalidEndpoint

  function Rotation(s: State, domain: string): nat {
    if domain in s.rotation then s.rotation[domain] else 0
  }

  predicate KnownBinding(c: Config, binding: string) {
    binding in c.bindings && c.bindings[binding] != []
  }

  /** What a binding stands for on a domain after so many rotations. */
  function Lookup(c: Config, binding: string, domain: string, rotations: nat): Result<Proxy, Error> {
    if !KnownBinding(c, binding) then Err(UnknownBinding)
    else
      var pool := c.bindings[binding];
      if "" in pool then Err(EmptyEndpoint)
      else
        var raw := pool[Slot(c.stable(domain) % |pool|, rotations, |pool|)];
        if c.wellFormed(raw) then Ok(Proxy(raw, binding)) else Err(InvalidEndpoint)
  }

  /** The assignment still speaks for this request. */
  predicate Sticks(s: State, binding: Option<string>, domain: string, now: real) {
    && domain in s.sticky
    && s.sticky[domain].expiresAt > now
    && s.sticky[domain].remainingRequests > 0
    && (binding == None || binding == Some(s.sticky[domain].binding))
  }

  /** The binding a request is served with; None and "" and "direct" mean no proxy. */
  function BindingFor(s: State, binding: Option<string>, domain: string, now: real): Option<string> {
    var chosen := if Sticks(s, binding, domain, now) then Some(s.sticky[domain].binding) else binding;
    if chosen == Some("") || chosen == Some("direct") then None else chosen
  }

  function Answer(c: Config, s: State, binding: Option<string>, domain: string, now: real)
    : Result<Option<Proxy>, Error>
  {
    match BindingFor(s, binding, domain, now)
    case None => Ok(None)
    case Some(chosen) =>
      match Lookup(c, chosen, domain, Rotation(s, domain))
      case Ok(proxy) => Ok(Some(proxy))
      case Err(error) => Err(error)
  }

  /** One request of an assignment that sticks is used up; one that does not stick is dropped. */
  function UsedUp(s: State, binding: Option<string>, domain: string, now: real): map<string, Sticky> {
    if Sticks(s, binding, domain, now) then
      s.sticky[domain := s.sticky[domain].(remainingRequests := s.sticky[domain].remainingRequests - 1)]
    else
      s.sticky - {domain}
  }

  /** A proxied request then makes a fresh assignment. */
  function AfterResolve(c: Config, s: State, binding: Option<string>, domain: string, now: real): State {
    var answer := Answer(c, s, binding, domain, now);
    var used := UsedUp(s, binding, domain, now);
    if answer.Ok? && answer.value.Some? then
      s.(sticky := used[domain := Sticky(answer.value.value.binding, now + c.stickyTtl as real, c.stickyRequests - 1)])
    else
      s.(sticky := used)
  }

  function Rotated(s: State, domain: string): State {
    State(s.sticky - {domain}, s.rotation[domain := Rotation(s, domain) + 1])
  }

  class ProxyResolver {
    const config: Config
    var sticky: map<string, Sticky>
    var rotation: map<string, nat>

    constructor (config: Config)
      ensures this.config == config && View() == State(map[], map[])
    {
      this.config, sticky, rotation := config, map[], map[];
    }

    function View(): State
      reads this
    {
      State(sticky, rotation)
    }

    /** Uses up one request of an assignment that still sticks, and drops one that does not. */
    method Choose(binding: Option<string>, domain: string, now: real) returns (chosen: Option<string>)
      modifies this`sticky
      ensures chosen == if Sticks(old(View()), binding, domain, now) then Some(old(sticky)[domain].binding) else binding
      ensures sticky == UsedUp(old(View()), binding, domain, now)
    {
      chosen := binding;
      if domain in sticky {
        var assignment := sticky[domain];
        if assignment.expiresAt > now && assignment.remainingRequests > 0
          && (binding == None || binding == Some(assignment.binding))
        {
          chosen := Some(assignment.binding);
          sticky := sticky[domain := assignment.(remainingRequests := assignment.remainingRequests - 1)];
        } else {
          sticky := sticky - {domain};
        }
      }
    }

    method Endpoint(binding: string, domain: string) returns (result: Result<Proxy, Error>)
      ensures result == Lookup(config, binding, domain, Rotation(View(), domain))
    {
      if binding !in config.bindings || config.bindings[binding] == [] {
        return Err(UnknownBinding);
      }
      var pool := config.bindings[binding];
      if "" in pool {
        return Err(EmptyEndpoint);
      }
      var stableIndex := config.stable(domain) % |pool|;
      var turns := if domain in rotation then rotation[domain] else 0;
      var raw := pool[(stableIndex + turns) % |pool|];
      if !config.wellFormed(raw) {
        return Err(InvalidEndpoint);
      }
      return Ok(Proxy(raw, binding));
    }

    /** Ok(None) is a direct connection. */
    method Resolve(binding: Option<string>, domain: string, now: real) returns (result: Result<Option<Proxy>, Error>)
      modifies this`sticky
      ensures result == Answer(config, old(View()), binding, domain, now)
      ensures View() == AfterResolve(config, old(View()), binding, domain, now)
    {
      var chosen := Choose(binding, domain, now);
      if chosen == None || chosen == Some("") || chosen == Some("direct") {
        return Ok(None);
      }
      var found := Endpoint(chosen.value, domain);
      if found.Err? {
        return Err(found.error);
      }
      sticky := sticky[domain := Sticky(chosen.value, now + config.stickyTtl as real, config.stickyRequests - 1)];
      return Ok(Some(found.value));
    }

    method Invalidate(domain: string)
      modifies this
      ensures View() == Rotated(old(View()), domain)
    {
      sticky := sticky - {domain};
      rotation := rotation[domain := (if domain in rotation then rotation[domain] else 0) + 1];
    }
  }

  /**
   * A domain's assignment came from a successful lookup at the present rotation, and its request
   * counter is the fresh one: the decrement never outlives the request that made it.
   */
  predicate HealthyAt(c: Config, s: State, d: string) {
    d in s.sticky ==>
      && s.sticky[d].remainingRequests == c.stickyRequests - 1
      && s.sticky[d].binding != "" && s.sticky[d].binding != "direct"
      && Lookup(c, s.sticky[d].binding, d, Rotation(s, d)).Ok?
  }

  ghost predicate Healthy(c: Config, s: State) {
    forall d :: HealthyAt(c, s, d)
  }

  /** An assignment that sticks always serves its request, so only fresh assignments remain. */
  lemma ResolveKeepsDomainHealth(c: Config, s: State, binding: Option<string>, domain: string, now: real)
    requires HealthyAt(c, s, domain)
    ensures HealthyAt(c, AfterResolve(c, s, binding, domain, now), domain)
  {
  }

  lemma ResolveLeavesOtherDomains(c: Config, s: State, binding: Option<string>, domain: string, now: real, d: string)
    requires d != domain && HealthyAt(c, s, d)
    ensures HealthyAt(c, AfterResolve(c, s, binding, domain, now), d)
  {
  }

  lemma ResolveKeepsHealth(c: Config, s: State, binding: Option<string>, domain: string, now: real)
    requires Healthy(c, s)
    ensures Healthy(c, AfterResolve(c, s, binding, domain, now))
  {
    forall d ensures HealthyAt(c, AfterResolve(c, s, binding, domain, now), d) {
      if d == domain {
        ResolveKeepsDomainHealth(c, s, binding, domain, now);
      } else {
        ResolveLeavesOtherDomains(c, s, binding, domain, now, d);
      }
    }
  }

  // ---------------------------------------------------------------- runs

  datatype Step = Request(binding: Option<string>, domain: string, now: real) | Invalidation(domain: string)

  function Next(c: Config, s: State, step: Step): State {
    match step
    case Request(binding, domain, now) => AfterResolve(c, s, binding, domain, now)
    case Invalidation(domain) => Rotated(s, domain)
  }

  function Run(c: Config, steps: seq<Step>): State {
    if steps == [] then State(map[], map[])
    else Next(c, Run(c, steps[..|steps| - 1]), steps[|steps| - 1])
  }

  function Invalidations(steps: seq<Step>, domain: string): nat {
    if steps == [] then 0
    else
      Invalidations(steps[..|steps| - 1], domain)
      + if steps[|steps| - 1] == Invalidation(domain) then 1 else 0
  }

  lemma {:induction false} RotationCountsInvalidations(c: Config, steps: seq<Step>, domain: string)
    ensures Rotation(Run(c, steps), domain) == Invalidations(steps, domain)
  {
    if steps != [] {
      RotationCountsInvalidations(c, steps[..|steps| - 1], domain);
    }
  }

  lemma RotatingKeepsHealth(c: Config, s: State, domain: string)
    requires Healthy(c, s)
    ensures Healthy(c, Rotated(s, domain))
  {
    forall d ensures HealthyAt(c, Rotated(s, domain), d) {
      assert HealthyAt(c, s, d);
    }
  }

  lemma {:induction false} RunsAreHealthy(c: Config, steps: seq<Step>)
    ensures Healthy(c, Run(c, steps))
  {
    if steps != [] {
      var before := Run(c, steps[..|steps| - 1]);
      RunsAreHealthy(c, steps[..|steps| - 1]);
      match steps[|steps| - 1] {
        case Request(binding, domain, now) => ResolveKeepsHealth(c, before, binding, domain, now);
        case Invalidation(domain) => RotatingKeepsHealth(c, before, domain);
      }
    }
  }

  /**
   * After any run, a request that names a usable binding gets the endpoint that the binding, the
   * domain and the number of invalidations of that domain determine - stickiness and time play no
   * part.
   */
  lemma NamedEndpointIsDetermined(c: Config, steps: seq<Step>, binding: string, domain: string, now: real)
    requires binding != "" && binding != "direct"
    ensures Answer(c, Run(c, steps), Some(binding), domain, now) ==
      match Lookup(c, binding, domain, Invalidations(steps, domain))
      case Ok(proxy) => Ok(Some(proxy))
      case Err(error) => Err(error)
  {
    RotationCountsInvalidations(c, steps, domain);
  }

  /**
   * The request budget of an assignment is never used up: in every run an unnamed request within
   * the time to live is served by the assigned binding exactly when the budget is at least two.
   */
  lemma {:induction false} StickinessNeverRunsOut(c: Config, steps: seq<Step>, domain: string, now: real)
    requires domain in Run(c, steps).sticky && now < Run(c, steps).sticky[domain].expiresAt
    ensures Run(c, steps).sticky[domain].remainingRequests == c.stickyRequests - 1
    ensures var served := Run(c, steps).sticky[domain].binding;
      var answer := Answer(c, Run(c, steps), None, domain, now);
      if c.stickyRequests >= 2 then answer.Ok? && answer.value.Some? && answer.value.value.binding == served
      else answer == Ok(None)
  {
    RunsAreHealthy(c, steps);
    assert HealthyAt(c, Run(c, steps), domain);
  }

  /** The request at k was answered with a proxy. */
  predicate Proxied(c: Config, steps: seq<Step>, k: nat)
    requires k < |steps|
  {
    steps[k].Request? &&
    match Answer(c, Run(c, steps[..k]), steps[k].binding, steps[k].domain, steps[k].now)
    case Ok(proxy) => proxy.Some?
    case Err(_) => false
  }

  function ProxyAt(c: Config, steps: seq<Step>, k: nat): Proxy
    requires k < |steps| && Proxied(c, steps, k)
  {
    Answer(c, Run(c, steps[..k]), steps[k].binding, steps[k].domain, steps[k].now).value.value
  }

  predicate LastOn(steps: seq<Step>, domain: string, k: nat) {
    k < |steps| && steps[k].domain == domain && forall j :: k < j < |steps| ==> steps[j].domain != domain
  }

  lemma {:induction false} UnknownDomainsHaveNoAssignment(c: Config, steps: seq<Step>, domain: string)
    requires forall j :: 0 <= j < |steps| ==> steps[j].domain != domain
    ensures domain !in Run(c, steps).sticky
  {
    if steps != [] {
      UnknownDomainsHaveNoAssignment(c, steps[..|steps| - 1], domain);
    }
  }

  lemma OneRequestAssigns(c: Config, s: State, binding: Option<string>, domain: string, now: real)
    requires HealthyAt(c, s, domain)
    ensures var answer := Answer(c, s, binding, domain, now);
      var after := AfterResolve(c, s, binding, domain, now).sticky;
      && (domain in after <==> answer.Ok? && answer.value.Some?)
      && (domain in after ==>
           after[domain].binding == answer.value.value.binding && after[domain].expiresAt == now + c.stickyTtl as real)
  {
  }

  /** An assignment is what the last step on its domain left: the proxy it was answered with, from then on. */
  lemma {:induction false} AssignmentIsTheLastAnswer(c: Config, steps: seq<Step>, domain: string, k: nat)
    requires LastOn(steps, domain, k)
    ensures domain in Run(c, steps).sticky <==> Proxied(c, steps, k)
    ensures Proxied(c, steps, k) ==>
      && Run(c, steps).sticky[domain].binding == ProxyAt(c, steps, k).binding
      && Run(c, steps).sticky[domain].expiresAt == steps[k].now + c.stickyTtl as real
  {
    var n := |steps| - 1;
    var before := steps[..n];
    if k < n {
      AssignmentIsTheLastAnswer(c, before, domain, k);
      assert before[..k] == steps[..k];
    } else if steps[k].Request? {
      RunsAreHealthy(c, before);
      assert HealthyAt(c, Run(c, before), domain);
      OneRequestAssigns(c, Run(c, before), steps[k].binding, domain, steps[k].now);
      hide Answer, AfterResolve, HealthyAt;
    }
  }

  /**
   * A request without a binding is served exactly when the last step on its domain was a request
   * answered with a proxy, no longer ago than the time to live, and the budget is at least two; it then
   * gets the same binding.
   */
  lemma UnnamedRequestsAreServedExactly(c: Config, steps: seq<Step>, domain: string, now: real, k: nat)
    requires LastOn(steps, domain, k)
    ensures var answer := Answer(c, Run(c, steps), None, domain, now);
      if c.stickyRequests >= 2 && Proxied(c, steps, k) && now < steps[k].now + c.stickyTtl as real then
        answer.Ok? && answer.value.Some? && answer.value.value.binding == ProxyAt(c, steps, k).binding
      else
        answer == Ok(None)
  {
    AssignmentIsTheLastAnswer(c, steps, domain, k);
    RunsAreHealthy(c, steps);
    assert HealthyAt(c, Run(c, steps), domain);
  }

  /** Asking for a direct connection gives one, whatever is assigned. */
  lemma DirectMeansDirect(c: Config, steps: seq<Step>, binding: string, domain: string, now: real)
    requires binding == "" || binding == "direct"
    ensures Answer(c, Run(c, steps), Some(binding), domain, now) == Ok(None)
  {
    RunsAreHealthy(c, steps);
    assert HealthyAt(c, Run(c, steps), domain);
  }

  ghost function InvalidationsOf(steps: seq<Step>, domain: string): set<int> {
    set k | 0 <= k < |steps| && steps[k] == Invalidation(domain)
  }

  lemma OneMoreInvalidation(steps: seq<Step>, step: Step, domain: string)
    ensures |InvalidationsOf(steps + [step], domain)| ==
      |InvalidationsOf(steps, domain)| + if step == Invalidation(domain) then 1 else 0
  {
    var before := InvalidationsOf(steps, domain);
    assert |steps| !in before;
    if step == Invalidation(domain) {
      assert InvalidationsOf(steps + [step], domain) == before + {|steps|};
    } else {
      assert InvalidationsOf(steps + [step], domain) == before;
    }
  }

  /** A domain's invalidations are counted one by one. */
  lemma {:induction false} InvalidationsAreCounted(steps: seq<Step>, domain: string)
    ensures Invalidations(steps, domain) == |InvalidationsOf(steps, domain)|
  {
    if steps == [] {
      assert InvalidationsOf(steps, domain) == {};
    } else {
      var n := |steps| - 1;
      InvalidationsAreCounted(steps[..n], domain);
      OneMoreInvalidation(steps[..n], steps[n], domain);
      assert steps == steps[..n] + [steps[n]];
    }
  }

  /** One endpoint, kept for ten seconds and for two requests. */
  const TWO_REQUESTS := Config(map["b" := ["e"]], domain => 0, endpoint => true, 10, 2)

  lemma OneMoreStep(c: Config, steps: seq<Step>, step: Step)
    ensures Run(c, steps + [step]) == Next(c, Run(c, steps), step)
  {
    assert (steps + [step])[..|steps|] == steps;
  }

  /** With a budget of two requests, the fourth still sticks. */
  lemma AStickyBudgetIsNeverUsedUp() returns (steps: seq<Step>)
    ensures |steps| == 3 && forall step :: step in steps ==> step.Request? && step.domain == "d"
    ensures |steps| > TWO_REQUESTS.stickyRequests
    ensures Answer(TWO_REQUESTS, Run(TWO_REQUESTS, steps), None, "d", 3.0) == Ok(Some(Proxy("e", "b")))
  {
    var c := TWO_REQUESTS;
    var first, second, third := Request(Some("b"), "d", 0.0), Request(None, "d", 1.0), Request(None, "d", 2.0);
    OneMoreStep(c, [], first);
    OneMoreStep(c, [first], second);
    OneMoreStep(c, [first, second], third);
    steps := [first] + [second] + [third];
    assert [] + [first] == [first] && [first] + [second] == [first, second];
  }

  // ---------------------------------------------------------------- rotation through a pool

  function Slot(start: nat, rotations: nat, size: nat): nat
    requires size > 0
  {
    (start + rotations) % size
  }

  lemma Multiple(n: int, size: nat)
    requires n >= 1
    ensures n * size >= size
  {
  }

  lemma Remainder(a: nat, q: nat, r: nat, size: nat)
    requires size > 0 && r < size && a == q * size + r
    ensures a % size == r
  {
    var q', r' := a / size, a % size;
    assert a == q' * size + r';
    assert (q - q') * size == q * size - q' * size == r' - r;
    if q > q' {
      Multiple(q - q', size);
    } else if q < q' {
      assert (q' - q) * size == q' * size - q * size;
      Multiple(q' - q, size);
    }
  }

  lemma ModularStep(a: nat, k: nat, size: nat)
    requires size > 0 && k < size
    ensures (a + k) % size == if a % size + k < size then a % size + k else a % size + k - size
  {
    var q, r := a / size, a % size;
    assert a == q * size + r;
    if r + k < size {
      Remainder(a + k, q, r + k, size);
    } else {
      assert (q + 1) * size == q * size + size;
      Remainder(a + k, q + 1, r + k - size, size);
    }
  }

  lemma Distribute(q: nat, p: nat, size: nat)
    ensures (q + p) * size == q * size + p * size
  {
  }

  lemma Division(a: nat, size: nat)
    requires size > 0
    ensures a == a / size * size + a % size && a % size < size
  {
  }

  lemma MultipleAway(q: nat, p: nat, r: nat, size: nat)
    requires size > 0 && r < size
    ensures (q * size + (p * size + r)) % size == r
  {
    Distribute(q, p, size);
    Remainder(q * size + (p * size + r), q + p, r, size);
  }

  lemma ModularSum(a: nat, k: nat, size: nat)
    requires size > 0
    ensures (a % size + k) % size == (a + k) % size
  {
    var b := a % size + k;
    Division(a, size);
    Division(b, size);
    MultipleAway(a / size, b / size, b % size, size);
    assert a + k == a / size * size + b;
  }

  /**
   * A named binding is served with the endpoint whose place in the pool is the hash of the domain plus
   * its invalidations, modulo the pool; it fails exactly on an unknown or empty pool, an empty
   * endpoint, or one that does not parse.
   */
  lemma EndpointExactly(c: Config, steps: seq<Step>, binding: string, domain: string, now: real)
    requires binding != "" && binding != "direct"
    ensures var answer := Answer(c, Run(c, steps), Some(binding), domain, now);
      if binding !in c.bindings || |c.bindings[binding]| == 0 then answer == Err(UnknownBinding)
      else
        var pool := c.bindings[binding];
        var endpoint := pool[(c.stable(domain) + Invalidations(steps, domain)) % |pool|];
        if exists i :: 0 <= i < |pool| && pool[i] == "" then answer == Err(EmptyEndpoint)
        else if !c.wellFormed(endpoint) then answer == Err(InvalidEndpoint)
        else answer == Ok(Some(Proxy(endpoint, binding)))
  {
    hide Answer, Run, Invalidations;
    NamedEndpointIsDetermined(c, steps, binding, domain, now);
    if KnownBinding(c, binding) {
      ModularSum(c.stable(domain), Invalidations(steps, domain), |c.bindings[binding]|);
    }
  }

  /** The turn, counted from now, at which a slot comes up. */
  function TurnOf(start: nat, rotations: nat, size: nat, slot: nat): (k: nat)
    requires slot < size
    ensures k < size
  {
    var r := (start + rotations) % size;
    if slot >= r then slot - r else slot + size - r
  }

  /** Any `size` consecutive rotations visit every slot of the pool exactly once, each at its turn. */
  lemma RotationVisitsEverySlotOnce(start: nat, rotations: nat, size: nat, slot: nat, k: nat)
    requires slot < size && k < size
    ensures Slot(start, rotations + k, size) == slot <==> k == TurnOf(start, rotations, size, slot)
  {
    ModularStep(start + rotations, k, size);
  }

  /**
   * So every endpoint of a pool gets its turn within one round of invalidations, and is served then
   * if it parses.
   */
  lemma EveryEndpointGetsItsTurn(c: Config, binding: string, domain: string, rotations: nat, slot: nat)
    requires KnownBinding(c, binding) && slot < |c.bindings[binding]| && "" !in c.bindings[binding]
    ensures var pool := c.bindings[binding];
      var k := TurnOf(c.stable(domain) % |pool|, rotations, |pool|, slot);
      Lookup(c, binding, domain, rotations + k) ==
        if c.wellFormed(pool[slot]) then Ok(Proxy(pool[slot], binding)) else Err(InvalidEndpoint)
  {
    var pool := c.bindings[binding];
    var start := c.stable(domain) % |pool|;
    RotationVisitsEverySlotOnce(start, rotations, |pool|, slot, TurnOf(start, rotations, |pool|, slot));
  }
}
