/**
 * Concurrency slots of one domain.  Every holder brings its own limit, and a task may enter only
 * while one more holder fits the limits of all.
 *
 * Tasks move one step at a time, in any order.  A task that was notified, or that has just arrived,
 * is Ready and looks at the condition again when it gets the lock.  A release is two steps, marking
 * the lease and freeing the slot, although nothing can come between them as the code stands: no task
 * keeps the lock while it is suspended, so taking it never suspends (RunsThrough).
 */
module DomainLeases {
  import opened Wrappers

  type Task = nat
  type Token = nat

  /** One more holder fits under `limit` and under the limit of every present holder. */
  predicate Fits(limit: int, active: map<Token, int>) {
    && |active| + 1 <= limit
    && forall k :: k in active ==> |active| + 1 <= active[k]
  }

  datatype Phase =
    | Ready(limit: int)
    | Waiting(limit: int)
    | Pacing(token: Token)     // holds a slot, not yet handed to the caller
    | Holding(token: Token)
    | Releasing(token: Token)  // the lease is marked released, its slot still taken
    | Leaked(token: Token)     // cancelled in between, which would take a contended lock
    | Finished

  datatype Slots = Slots(active: map<Token, int>, nextToken: nat)

  function Granted(slots: Slots, limit: int): Slots {
    Slots(slots.active[slots.nextToken + 1 := limit], slots.nextToken + 1)
  }

  function Freed(slots: Slots, token: Token): Slots {
    slots.(active := slots.active - {token})
  }

  /** `holder`, `acquired` and `released` are history: who took each token, and how often that happened. */
  datatype Domain = Domain(
    slots: Slots,
    tasks: map<Task, Phase>,
    holder: map<Token, Task>,
    acquired: nat,
    released: nat)

  datatype Step =
    | Arrive(task: Task, requested: Option<int>)
    | Check(task: Task)          // evaluates the condition under the lock: enters or waits
    | Paced(task: Task)          // pacing is over, the caller gets the lease
    | Cancel(task: Task)         // cancelled while arriving, waiting or pacing
    | Release(task: Task)        // the holder calls release
    | Free(task: Task)           // release pops the token and notifies everybody
    | CancelRelease(task: Task)  // would be cancelled between marking the lease and popping the token

  const START := Domain(Slots(map[], 0), map[], map[], 0, 0)

  predicate Enabled(d: Domain, step: Step) {
    match step
    case Arrive(t, _) => t !in d.tasks
    case Check(t) => t in d.tasks && d.tasks[t].Ready?
    case Paced(t) => t in d.tasks && d.tasks[t].Pacing?
    case Cancel(t) => t in d.tasks && (d.tasks[t].Ready? || d.tasks[t].Waiting? || d.tasks[t].Pacing?)
    case Release(t) => t in d.tasks && d.tasks[t].Holding?
    case Free(t) => t in d.tasks && d.tasks[t].Releasing?
    case CancelRelease(t) => t in d.tasks && d.tasks[t].Releasing?
  }

  function Notified(phase: Phase): Phase {
    if phase.Waiting? then Ready(phase.limit) else phase
  }

  function NotifyAll(tasks: map<Task, Phase>): map<Task, Phase> {
    map t | t in tasks :: Notified(tasks[t])
  }

  function Next(maximum: int, d: Domain, step: Step): Domain
    requires Enabled(d, step)
  {
    match step
    case Arrive(t, requested) =>
      d.(tasks := d.tasks[t := Ready(Min(OrDefault(requested, maximum), maximum))])
    case Check(t) =>
      var limit := d.tasks[t].limit;
      if Fits(limit, d.slots.active) then
        var token := d.slots.nextToken + 1;
        Domain(Granted(d.slots, limit), d.tasks[t := Pacing(token)], d.holder[token := t], d.acquired + 1, d.released)
      else
        d.(tasks := d.tasks[t := Waiting(limit)])
    case Paced(t) => d.(tasks := d.tasks[t := Holding(d.tasks[t].token)])
    case Cancel(t) =>
      d.(tasks := d.tasks[t := if d.tasks[t].Pacing? then Releasing(d.tasks[t].token) else Finished])
    case Release(t) => d.(tasks := d.tasks[t := Releasing(d.tasks[t].token)])
    case Free(t) =>
      d.(slots := Freed(d.slots, d.tasks[t].token), tasks := NotifyAll(d.tasks[t := Finished]),
         released := d.released + 1)
    case CancelRelease(t) => d.(tasks := d.tasks[t := Leaked(d.tasks[t].token)])
  }

  function Run(maximum: int, steps: seq<Step>): Option<Domain> {
    if steps == [] then
      Some(START)
    else
      var before := Run(maximum, steps[..|steps| - 1]);
      var step := steps[|steps| - 1];
      if before.None? || !Enabled(before.value, step) then None
      else Some(Next(maximum, before.value, step))
  }

  // ---------------------------------------------------------------- invariant

  predicate HasToken(phase: Phase) {
    phase.Pacing? || phase.Holding? || phase.Releasing? || phase.Leaked?
  }

  /**
   * A task that checks enters exactly when one more holder is within its limit and within the limit of
   * every present holder; it takes the next token under its limit, or waits and changes no slot.
   */
  lemma CheckEntersExactly(maximum: int, d: Domain, t: Task)
    requires Enabled(d, Check(t))
    ensures var d', active, limit := Next(maximum, d, Check(t)), d.slots.active, d.tasks[t].limit;
      if |active| + 1 <= limit && (forall k :: k in active ==> |active| + 1 <= active[k]) then
        && d'.tasks[t] == Pacing(d'.slots.nextToken) && d'.slots.nextToken == d.slots.nextToken + 1
        && d'.slots.active == active[d'.slots.nextToken := limit]
      else
        d'.tasks[t] == Waiting(limit) && d'.slots == d.slots
  {
  }

  /** A task brings the limit it asked for, up to the configured maximum; none, or 0, asks for the maximum. */
  lemma ArrivalLimitExactly(maximum: int, d: Domain, t: Task, requested: Option<int>)
    requires Enabled(d, Arrive(t, requested))
    ensures Next(maximum, d, Arrive(t, requested)).tasks[t] ==
      Ready(if requested.Some? && requested.value != 0 && requested.value < maximum then requested.value else maximum)
    ensures Next(maximum, d, Arrive(t, requested)).slots == d.slots
  {
  }

  /** Freeing gives back exactly the task's own slot and lets every waiting task look again. */
  lemma FreeingWakesEveryWaiter(maximum: int, d: Domain, t: Task)
    requires Enabled(d, Free(t))
    ensures var d' := Next(maximum, d, Free(t));
      && d'.slots.active.Keys == d.slots.active.Keys - {d.tasks[t].token}
      && (forall k :: k in d'.slots.active ==> d'.slots.active[k] == d.slots.active[k])
      && (forall u :: u in d.tasks && d.tasks[u].Waiting? ==> u in d'.tasks && d'.tasks[u] == Ready(d.tasks[u].limit))
  {
  }

  /** Every holder's own limit, and the configured maximum, allow the present number of holders. */
  predicate LimitsRespected(maximum: int, active: map<Token, int>) {
    forall k :: k in active ==> |active| <= active[k] <= maximum
  }

  /** Tokens in use are exactly the tokens of the tasks that hold one, each with one task. */
  predicate TokensMatch(d: Domain) {
    && (forall k :: k in d.slots.active ==>
          k <= d.slots.nextToken && k in d.holder && Holds(d.tasks, d.holder[k], k))
    && (forall t :: t in d.tasks && HasToken(d.tasks[t]) ==>
          d.tasks[t].token in d.slots.active && d.holder[d.tasks[t].token] == t)
  }

  predicate Holds(tasks: map<Task, Phase>, t: Task, token: Token) {
    t in tasks && HasToken(tasks[t]) && tasks[t].token == token
  }

  /** A waiting task whose condition holds would have been woken. */
  predicate NoLostWakeup(d: Domain) {
    forall t :: t in d.tasks && d.tasks[t].Waiting? ==> !Fits(d.tasks[t].limit, d.slots.active)
  }

  predicate Inv(maximum: int, d: Domain) {
    && TokensMatch(d)
    && LimitsRespected(maximum, d.slots.active)
    && NoLostWakeup(d)
    && |d.slots.active| == d.acquired - d.released
    && forall t :: t in d.tasks && (d.tasks[t].Ready? || d.tasks[t].Waiting?) ==> d.tasks[t].limit <= maximum
  }

  lemma GrantAddsOne(slots: Slots, limit: int)
    requires slots.nextToken + 1 !in slots.active
    ensures |Granted(slots, limit).active| == |slots.active| + 1
  {
    assert Granted(slots, limit).active.Keys == slots.active.Keys + {slots.nextToken + 1};
  }

  lemma GrantKeepsLimits(maximum: int, slots: Slots, limit: int)
    requires LimitsRespected(maximum, slots.active) && Fits(limit, slots.active) && limit <= maximum
    requires slots.nextToken + 1 !in slots.active
    ensures LimitsRespected(maximum, Granted(slots, limit).active)
    ensures |Granted(slots, limit).active| == |slots.active| + 1
  {
    GrantAddsOne(slots, limit);
    var active := Granted(slots, limit).active;
    forall k | k in active ensures |active| <= active[k] <= maximum {
      if k != slots.nextToken + 1 {
        assert k in slots.active;
      }
    }
  }

  lemma FreeingKeepsLimits(maximum: int, slots: Slots, token: Token)
    requires LimitsRespected(maximum, slots.active) && token in slots.active
    ensures LimitsRespected(maximum, Freed(slots, token).active)
    ensures |Freed(slots, token).active| == |slots.active| - 1
  {
    assert slots.active.Keys == Freed(slots, token).active.Keys + {token};
  }

  /** What did not fit before a grant does not fit after it. */
  lemma GrantHelpsNobody(slots: Slots, limit: int, other: int)
    requires slots.nextToken + 1 !in slots.active && !Fits(other, slots.active)
    ensures !Fits(other, Granted(slots, limit).active)
  {
    var active := Granted(slots, limit).active;
    assert active.Keys == slots.active.Keys + {slots.nextToken + 1};
    if k :| k in slots.active && |slots.active| + 1 > slots.active[k] {
      assert active[k] == slots.active[k];
    }
  }

  lemma GrantKeepsTokens(maximum: int, d: Domain, t: Task)
    requires TokensMatch(d) && Enabled(d, Check(t)) && Fits(d.tasks[t].limit, d.slots.active)
    ensures TokensMatch(Next(maximum, d, Check(t)))
  {
    hide Fits;
  }

  lemma GrantKeepsWaiters(maximum: int, d: Domain, t: Task)
    requires NoLostWakeup(d) && Enabled(d, Check(t)) && Fits(d.tasks[t].limit, d.slots.active)
    requires d.slots.nextToken + 1 !in d.slots.active
    ensures NoLostWakeup(Next(maximum, d, Check(t)))
  {
    var limit := d.tasks[t].limit;
    var d' := Next(maximum, d, Check(t));
    forall u | u in d'.tasks && d'.tasks[u].Waiting? ensures !Fits(d'.tasks[u].limit, d'.slots.active) {
      GrantHelpsNobody(d.slots, limit, d.tasks[u].limit);
    }
  }

  lemma CheckKeepsInv(maximum: int, d: Domain, t: Task)
    requires Inv(maximum, d) && Enabled(d, Check(t)) && Fits(d.tasks[t].limit, d.slots.active)
    ensures Inv(maximum, Next(maximum, d, Check(t)))
  {
    GrantKeepsTokens(maximum, d, t);
    GrantKeepsWaiters(maximum, d, t);
    GrantKeepsLimits(maximum, d.slots, d.tasks[t].limit);
    hide Fits, LimitsRespected, TokensMatch, NoLostWakeup;
  }

  lemma FreeKeepsTokens(maximum: int, d: Domain, t: Task)
    requires TokensMatch(d) && Enabled(d, Free(t))
    ensures TokensMatch(Next(maximum, d, Free(t)))
  {
  }

  lemma FreeKeepsInv(maximum: int, d: Domain, t: Task)
    requires Inv(maximum, d) && Enabled(d, Free(t))
    ensures Inv(maximum, Next(maximum, d, Free(t)))
  {
    FreeKeepsTokens(maximum, d, t);
    FreeingKeepsLimits(maximum, d.slots, d.tasks[t].token);
    hide Fits, LimitsRespected;
  }

  /** The remaining steps move one task to another phase and leave the slots alone. */
  lemma MoveKeepsInv(maximum: int, d: Domain, t: Task, phase: Phase)
    requires Inv(maximum, d)
    requires (if HasToken(phase) then Holds(d.tasks, t, phase.token) else t in d.tasks ==> !HasToken(d.tasks[t]))
    requires phase.Ready? || phase.Waiting? ==> phase.limit <= maximum
    requires phase.Waiting? ==> !Fits(phase.limit, d.slots.active)
    ensures Inv(maximum, d.(tasks := d.tasks[t := phase]))
  {
  }

  lemma StepKeepsInv(maximum: int, d: Domain, step: Step)
    requires Inv(maximum, d) && Enabled(d, step)
    ensures Inv(maximum, Next(maximum, d, step))
  {
    var t := step.task;
    if step.Free? {
      FreeKeepsInv(maximum, d, t);
    } else if step.Check? && Fits(d.tasks[t].limit, d.slots.active) {
      CheckKeepsInv(maximum, d, t);
    } else {
      MoveKeepsInv(maximum, d, t, Next(maximum, d, step).tasks[t]);
    }
  }

  lemma {:induction false} ReachableInv(maximum: int, steps: seq<Step>, d: Domain)
    requires Run(maximum, steps) == Some(d)
    ensures Inv(maximum, d)
  {
    if steps != [] {
      var before := Run(maximum, steps[..|steps| - 1]).value;
      ReachableInv(maximum, steps[..|steps| - 1], before);
      StepKeepsInv(maximum, before, steps[|steps| - 1]);
    }
  }

  // ---------------------------------------------------------------- what every run guarantees

  /**
   * In every reachable state the active leases are within every holder's own limit and within the
   * configured maximum, and they are the leases acquired and not yet freed.
   */
  lemma LeasesStayWithinEveryLimit(maximum: int, steps: seq<Step>, d: Domain, t: Task)
    requires Run(maximum, steps) == Some(d) && t in d.tasks && HasToken(d.tasks[t])
    ensures d.tasks[t].token in d.slots.active
    ensures |d.slots.active| <= d.slots.active[d.tasks[t].token] <= maximum
    ensures |d.slots.active| == d.acquired - d.released
    ensures forall u :: u in d.tasks && u != t && HasToken(d.tasks[u]) ==> d.tasks[u].token != d.tasks[t].token
  {
    ReachableInv(maximum, steps, d);
  }

  /** No wake-up is lost: a task still waiting could not enter if it looked again. */
  lemma WaitersCouldNotEnter(maximum: int, steps: seq<Step>, d: Domain, t: Task)
    requires Run(maximum, steps) == Some(d) && t in d.tasks && d.tasks[t].Waiting?
    ensures |d.slots.active| + 1 > d.tasks[t].limit ||
            exists k :: k in d.slots.active && |d.slots.active| + 1 > d.slots.active[k]
    ensures d.tasks[t].limit >= 1 ==> exists u :: u in d.tasks && HasToken(d.tasks[u])
  {
    ReachableInv(maximum, steps, d);
    if d.tasks[t].limit >= 1 {
      var k :| k in d.slots.active;
      assert Holds(d.tasks, d.holder[k], k);
    }
  }

  predicate CancelsARelease(steps: seq<Step>) {
    exists i :: 0 <= i < |steps| && steps[i].CancelRelease?
  }

  lemma {:induction false} LeaksExactlyOnCancelledRelease(maximum: int, steps: seq<Step>, d: Domain)
    requires Run(maximum, steps) == Some(d)
    ensures (exists t :: t in d.tasks && d.tasks[t].Leaked?) <==> CancelsARelease(steps)
  {
    if steps != [] {
      var n := |steps| - 1;
      var before := Run(maximum, steps[..n]).value;
      LeaksExactlyOnCancelledRelease(maximum, steps[..n], before);
      if CancelsARelease(steps[..n]) {
        var t :| t in before.tasks && before.tasks[t].Leaked?;
        assert t in d.tasks && d.tasks[t].Leaked?;
        var i :| 0 <= i < n && steps[..n][i].CancelRelease?;
        assert steps[i].CancelRelease?;
      } else if steps[n].CancelRelease? {
        assert d.tasks[steps[n].task].Leaked?;
      } else {
        forall i | 0 <= i < |steps| ensures !steps[i].CancelRelease? {
          if i < n {
            assert steps[..n][i] == steps[i];
          }
        }
      }
    }
  }

  /** A release once begun runs through: when some task is releasing, the next step frees its slot. */
  predicate RunsThrough(maximum: int, steps: seq<Step>) {
    steps == [] ||
    var n := |steps| - 1;
    && RunsThrough(maximum, steps[..n])
    && (Run(maximum, steps[..n]).Some? ==> FreesFirst(Run(maximum, steps[..n]).value, steps[n]))
  }

  predicate FreesFirst(d: Domain, next: Step) {
    forall t :: t in d.tasks && d.tasks[t].Releasing? ==> next == Free(t)
  }

  lemma {:induction false} RunningThroughCancelsNoRelease(maximum: int, steps: seq<Step>, d: Domain)
    requires Run(maximum, steps) == Some(d) && RunsThrough(maximum, steps)
    ensures !CancelsARelease(steps)
  {
    if steps != [] {
      var n := |steps| - 1;
      var before := Run(maximum, steps[..n]).value;
      RunningThroughCancelsNoRelease(maximum, steps[..n], before);
      if i :| 0 <= i < |steps| && steps[i].CancelRelease? {
        assert i < n ==> steps[..n][i].CancelRelease?;
      }
    }
  }

  /**
   * Releases that run through leak nothing: at any time the slots taken are those of tasks that pace,
   * hold or release them, and when every task has finished, all slots are free.
   */
  lemma NoSlotLeaks(maximum: int, steps: seq<Step>, d: Domain)
    requires Run(maximum, steps) == Some(d) && RunsThrough(maximum, steps)
    ensures forall k :: k in d.slots.active ==>
              k in d.holder && Holds(d.tasks, d.holder[k], k) && !d.tasks[d.holder[k]].Leaked?
    ensures (forall t :: t in d.tasks ==> d.tasks[t].Finished?) ==> d.slots.active == map[]
  {
    ReachableInv(maximum, steps, d);
    RunningThroughCancelsNoRelease(maximum, steps, d);
    LeaksExactlyOnCancelledRelease(maximum, steps, d);
  }

  /**
   * When every task has ended, all slots are free again if and only if no release was cancelled
   * between marking its lease and popping its token.
   */
  lemma NoSlotLeaksExactly(maximum: int, steps: seq<Step>, d: Domain)
    requires Run(maximum, steps) == Some(d)
    requires forall t :: t in d.tasks ==> d.tasks[t].Finished? || d.tasks[t].Leaked?
    ensures d.slots.active == map[] <==> !CancelsARelease(steps)
  {
    ReachableInv(maximum, steps, d);
    LeaksExactlyOnCancelledRelease(maximum, steps, d);
    if k :| k in d.slots.active {
      assert Holds(d.tasks, d.holder[k], k);
    }
  }

  /** Were a task cancelled inside its release, its slot would stay taken. */
  lemma ACancelledReleaseLeaks() returns (steps: seq<Step>, d: Domain)
    ensures Run(1, steps) == Some(d) && CancelsARelease(steps)
    ensures (forall t :: t in d.tasks ==> d.tasks[t].Leaked?) && |d.slots.active| == 1
  {
    var s0 := Extended(1, [], START, Arrive(0, None));
    var s1 := Extended(1, s0.0, s0.1, Check(0));
    var s2 := Extended(1, s1.0, s1.1, Paced(0));
    var s3 := Extended(1, s2.0, s2.1, Release(0));
    var s4 := Extended(1, s3.0, s3.1, CancelRelease(0));
    steps, d := s4.0, s4.1;
    assert steps[4].CancelRelease?;
  }

  lemma Extended(maximum: int, steps: seq<Step>, d: Domain, step: Step) returns (longer: (seq<Step>, Domain))
    requires Run(maximum, steps) == Some(d) && Enabled(d, step)
    ensures longer == (steps + [step], Next(maximum, d, step)) && Run(maximum, longer.0) == Some(longer.1)
  {
    longer := (steps + [step], Next(maximum, d, step));
    assert longer.0[..|steps|] == steps;
  }

  lemma {:induction false} LeakedStaysLeaked(maximum: int, steps: seq<Step>, more: seq<Step>,
                                             d: Domain, later: Domain, t: Task)
    requires Run(maximum, steps) == Some(d) && Run(maximum, steps + more) == Some(later)
    requires t in d.tasks && d.tasks[t].Leaked?
    ensures t in later.tasks && later.tasks[t] == d.tasks[t]
    decreases |more|
  {
    var all := steps + more;
    if more == [] {
      assert all == steps;
    } else {
      var n := |all| - 1;
      assert all[..n] == steps + more[..|more| - 1];
      LeakedStaysLeaked(maximum, steps, more[..|more| - 1], d, Run(maximum, all[..n]).value, t);
    }
  }

  /** A leaked token stays taken in every continuation, and keeps out every task that wants to be alone. */
  lemma ALeakIsForever(maximum: int, steps: seq<Step>, more: seq<Step>, d: Domain, later: Domain, t: Task)
    requires Run(maximum, steps) == Some(d) && Run(maximum, steps + more) == Some(later)
    requires t in d.tasks && d.tasks[t].Leaked?
    ensures d.tasks[t].token in later.slots.active && !Fits(1, later.slots.active)
  {
    LeakedStaysLeaked(maximum, steps, more, d, later, t);
    ReachableInv(maximum, steps + more, later);
    assert Holds(later.tasks, t, d.tasks[t].token);
  }
}
