/** Publish and subscribe per conversation, with one unbounded queue per subscriber. */
module EventBroker {
  import opened Wrappers

  type Event = string

  type Subscriptions<Q> = map<string, set<Q>>

  function Members<Q>(subs: Subscriptions<Q>, conversation: string): set<Q> {
    if conversation in subs then subs[conversation] else {}
  }

  function Subscribed<Q>(subs: Subscriptions<Q>, conversation: string, queue: Q): Subscriptions<Q> {
    subs[conversation := Members(subs, conversation) + {queue}]
  }

  /** A conversation whose last subscriber leaves is forgotten. */
  function Unsubscribed<Q(==)>(subs: Subscriptions<Q>, conversation: string, queue: Q): Subscriptions<Q> {
    var rest := Members(subs, conversation) - {queue};
    if Members(subs, conversation) == {} then subs
    else if rest == {} then subs - {conversation}
    else subs[conversation := rest]
  }

  class Queue {
    var items: seq<Event>

    constructor ()
      ensures items == []
    {
      items := [];
    }

    method Put(event: Event)
      modifies this
      ensures items == old(items) + [event]
    {
      items := items + [event];
    }
  }

  class ConversationEventBroker {
    var subscriptions: Subscriptions<Queue>

    constructor ()
      ensures subscriptions == map[]
    {
      subscriptions := map[];
    }

    /** Every subscriber of the conversation gets the event at the end of its queue, nobody else does. */
    method Publish(conversation: string, event: Event)
      modifies Members(subscriptions, conversation)
      ensures forall q :: q in Members(subscriptions, conversation) ==> q.items == old(q.items) + [event]
    {
      var subscribers := Members(subscriptions, conversation);
      var rest := subscribers;
      while rest != {}
        invariant rest <= subscribers
        invariant forall q :: q in subscribers - rest ==> q.items == old(q.items) + [event]
        invariant forall q :: q in rest ==> q.items == old(q.items)
        decreases rest
      {
        var queue :| queue in rest;
        queue.Put(event);
        rest := rest - {queue};
      }
    }

    method Subscribe(conversation: string) returns (queue: Queue)
      modifies this
      ensures fresh(queue) && queue.items == []
      ensures subscriptions == Subscribed(old(subscriptions), conversation, queue)
    {
      queue := new Queue();
      if conversation !in subscriptions {
        subscriptions := subscriptions[conversation := {}];
      }
      subscriptions := subscriptions[conversation := subscriptions[conversation] + {queue}];
    }

    method Unsubscribe(conversation: string, queue: Queue)
      modifies this
      ensures subscriptions == Unsubscribed(old(subscriptions), conversation, queue)
    {
      if conversation !in subscriptions || subscriptions[conversation] == {} {
        return;
      }
      var subscribers := subscriptions[conversation] - {queue};
      subscriptions := subscriptions[conversation := subscribers];
      if subscribers == {} {
        subscriptions := subscriptions - {conversation};
      }
    }
  }

  // ---------------------------------------------------------------- runs

  /** Queues are numbered.  `inFlight` holds, per queue, the events snapshotted but not yet put. */
  datatype World = World(subs: Subscriptions<nat>, queues: map<nat, seq<Event>>, inFlight: map<nat, multiset<Event>>)

  datatype Step =
    | Subscribe(conversation: string, queue: nat)
    | Unsubscribe(conversation: string, queue: nat)
    | Publish(conversation: string, event: Event)  // the snapshot under the lock
    | Deliver(event: Event, queue: nat)            // one put of a publish under way

  const START := World(map[], map[], map[])

  predicate Enabled(w: World, step: Step) {
    match step
    case Subscribe(_, q) => q !in w.queues
    case Deliver(e, q) => q in w.inFlight && e in w.inFlight[q] && q in w.queues
    case _ => true
  }

  function Next(w: World, step: Step): World
    requires Enabled(w, step)
  {
    match step
    case Subscribe(c, q) =>
      World(Subscribed(w.subs, c, q), w.queues[q := []], w.inFlight[q := multiset{}])
    case Unsubscribe(c, q) =>
      w.(subs := Unsubscribed(w.subs, c, q))
    case Publish(c, e) =>
      w.(inFlight := map q | q in w.inFlight ::
           w.inFlight[q] + if q in Members(w.subs, c) then multiset{e} else multiset{})
    case Deliver(e, q) =>
      w.(queues := w.queues[q := w.queues[q] + [e]], inFlight := w.inFlight[q := w.inFlight[q] - multiset{e}])
  }

  function Run(steps: seq<Step>): Option<World> {
    if steps == [] then Some(START)
    else
      var before := Run(steps[..|steps| - 1]);
      var step := steps[|steps| - 1];
      if before.None? || !Enabled(before.value, step) then None else Some(Next(before.value, step))
  }

  // ---------------------------------------------------------------- what a subscriber should get

  /** The conversation a queue is subscribed to, read off the steps alone. */
  function SubscribedTo(steps: seq<Step>, queue: nat): Option<string> {
    if steps == [] then None
    else
      var before := SubscribedTo(steps[..|steps| - 1], queue);
      match steps[|steps| - 1]
      case Subscribe(c, q) => if q == queue then Some(c) else before
      case Unsubscribe(c, q) => if q == queue && before == Some(c) then None else before
      case _ => before
  }

  /** The events published on a queue's conversation between its subscribe and its unsubscribe, in order. */
  function Due(steps: seq<Step>, queue: nat): seq<Event> {
    if steps == [] then []
    else
      var before := Due(steps[..|steps| - 1], queue);
      match steps[|steps| - 1]
      case Publish(c, e) => if SubscribedTo(steps[..|steps| - 1], queue) == Some(c) then before + [e] else before
      case _ => before
  }

  lemma SubscribingAdds(subs: Subscriptions<nat>, c: string, q: nat, d: string, r: nat)
    ensures r in Members(Subscribed(subs, c, q), d) <==> r in Members(subs, d) || (r == q && d == c)
    ensures r in Members(Unsubscribed(subs, c, q), d) <==> r in Members(subs, d) && !(r == q && d == c)
  {
  }

  /** The subscriber sets and the queues are what the steps say. */
  lemma {:induction false} MembershipIsTracked(steps: seq<Step>, w: World, c: string, queue: nat)
    requires Run(steps) == Some(w)
    ensures queue in Members(w.subs, c) <==> SubscribedTo(steps, queue) == Some(c)
    ensures SubscribedTo(steps, queue).Some? ==> queue in w.queues
    ensures queue !in w.queues ==> Due(steps, queue) == []
    ensures queue in w.queues <==> queue in w.inFlight
  {
    if steps != [] {
      var step := steps[|steps| - 1];
      var before := Run(steps[..|steps| - 1]).value;
      MembershipIsTracked(steps[..|steps| - 1], before, c, queue);
      match step {
        case Subscribe(d, q) => SubscribingAdds(before.subs, d, q, c, queue);
        case Unsubscribe(d, q) => SubscribingAdds(before.subs, d, q, c, queue);
        case Publish(_, _) =>
        case Deliver(_, _) =>
      }
    }
  }

  /** No conversation maps to an empty set of subscribers. */
  lemma {:induction false} NoEmptyConversation(steps: seq<Step>, w: World, conversation: string)
    requires Run(steps) == Some(w) && conversation in w.subs
    ensures w.subs[conversation] != {}
  {
    var before := Run(steps[..|steps| - 1]).value;
    if conversation in before.subs {
      NoEmptyConversation(steps[..|steps| - 1], before, conversation);
    }
  }

  /** A publish makes its event due, and under way, to exactly the queues subscribed by then. */
  lemma PublishStep(prefix: seq<Step>, before: World, c: string, e: Event, queue: nat)
    requires Run(prefix) == Some(before) && queue in before.queues
    ensures var w := Next(before, Publish(c, e));
      var subscribed := SubscribedTo(prefix, queue) == Some(c);
      && queue in before.inFlight && queue in w.queues && queue in w.inFlight
      && w.queues[queue] == before.queues[queue]
      && Due(prefix + [Publish(c, e)], queue) == Due(prefix, queue) + (if subscribed then [e] else [])
      && w.inFlight[queue] == before.inFlight[queue] + if subscribed then multiset{e} else multiset{}
  {
    assert (prefix + [Publish(c, e)])[..|prefix|] == prefix;
    MembershipIsTracked(prefix, before, c, queue);
  }

  lemma DeliverStep(prefix: seq<Step>, before: World, e: Event, q: nat, queue: nat)
    requires Run(prefix) == Some(before) && queue in before.queues && Enabled(before, Deliver(e, q))
    ensures var w := Next(before, Deliver(e, q));
      && queue in before.inFlight && queue in w.queues && queue in w.inFlight
      && Due(prefix + [Deliver(e, q)], queue) == Due(prefix, queue)
      && w.queues[queue] == before.queues[queue] + (if q == queue then [e] else [])
      && w.inFlight[queue] == before.inFlight[queue] - if q == queue then multiset{e} else multiset{}
  {
    assert (prefix + [Deliver(e, q)])[..|prefix|] == prefix;
    MembershipIsTracked(prefix, before, "", queue);
  }

  lemma OtherStep(prefix: seq<Step>, before: World, step: Step, queue: nat)
    requires Run(prefix) == Some(before) && queue in before.queues && Enabled(before, step)
    requires step.Subscribe? || step.Unsubscribe?
    ensures var w := Next(before, step);
      && queue in before.inFlight && queue in w.queues && queue in w.inFlight
      && Due(prefix + [step], queue) == Due(prefix, queue)
      && w.queues[queue] == before.queues[queue] && w.inFlight[queue] == before.inFlight[queue]
  {
    assert (prefix + [step])[..|prefix|] == prefix;
    MembershipIsTracked(prefix, before, "", queue);
  }

  lemma FreshQueue(prefix: seq<Step>, before: World, step: Step, queue: nat)
    requires Run(prefix) == Some(before) && Enabled(before, step)
    requires queue !in before.queues && queue in Next(before, step).queues
    ensures var w := Next(before, step);
      queue in w.inFlight && w.queues[queue] == [] && w.inFlight[queue] == multiset{}
    ensures Due(prefix + [step], queue) == []
  {
    assert (prefix + [step])[..|prefix|] == prefix;
    MembershipIsTracked(prefix, before, "", queue);
  }

  /** Received and under way make up what is due. */
  predicate Balanced(received: seq<Event>, inFlight: multiset<Event>, due: seq<Event>) {
    multiset(received) + inFlight == multiset(due)
  }

  lemma PublishBalances(received: seq<Event>, inFlight: multiset<Event>, due: seq<Event>, e: Event)
    requires Balanced(received, inFlight, due)
    ensures Balanced(received, inFlight + multiset{e}, due + [e])
  {
  }

  lemma DeliveryBalances(received: seq<Event>, inFlight: multiset<Event>, due: seq<Event>, e: Event)
    requires Balanced(received, inFlight, due) && e in inFlight
    ensures Balanced(received + [e], inFlight - multiset{e}, due)
  {
  }

  ghost predicate QueueBalanced(steps: seq<Step>, w: World, queue: nat) {
    queue in w.queues && queue in w.inFlight && Balanced(w.queues[queue], w.inFlight[queue], Due(steps, queue))
  }

  lemma PublishKeepsBalance(prefix: seq<Step>, before: World, c: string, e: Event, queue: nat)
    requires Run(prefix) == Some(before) && QueueBalanced(prefix, before, queue)
    ensures QueueBalanced(prefix + [Publish(c, e)], Next(before, Publish(c, e)), queue)
  {
    PublishStep(prefix, before, c, e, queue);
    PublishBalances(before.queues[queue], before.inFlight[queue], Due(prefix, queue), e);
    assert before.inFlight[queue] + multiset{} == before.inFlight[queue];
  }

  lemma DeliveryKeepsBalance(prefix: seq<Step>, before: World, e: Event, q: nat, queue: nat)
    requires Run(prefix) == Some(before) && QueueBalanced(prefix, before, queue) && Enabled(before, Deliver(e, q))
    ensures QueueBalanced(prefix + [Deliver(e, q)], Next(before, Deliver(e, q)), queue)
  {
    DeliverStep(prefix, before, e, q, queue);
    if q == queue {
      DeliveryBalances(before.queues[queue], before.inFlight[queue], Due(prefix, queue), e);
    } else {
      assert before.inFlight[queue] - multiset{} == before.inFlight[queue];
    }
  }

  /**
   * However publishes, subscribes and unsubscribes interleave, a queue has received, or is about to
   * receive, exactly the events due to it, each as often as it was published.
   */
  lemma {:induction false} NothingIsLostOrDuplicated(steps: seq<Step>, w: World, queue: nat)
    requires Run(steps) == Some(w) && queue in w.queues
    ensures QueueBalanced(steps, w, queue)
  {
    var prefix, step := steps[..|steps| - 1], steps[|steps| - 1];
    var before := Run(prefix).value;
    assert steps == prefix + [step];
    if queue !in before.queues {
      FreshQueue(prefix, before, step, queue);
    } else {
      NothingIsLostOrDuplicated(prefix, before, queue);
      match step {
        case Publish(c, e) => PublishKeepsBalance(prefix, before, c, e, queue);
        case Deliver(e, q) => DeliveryKeepsBalance(prefix, before, e, q, queue);
        case _ => OtherStep(prefix, before, step, queue);
      }
    }
  }

  // ---------------------------------------------------------------- order

  /** How many events a queue was handed. */
  function Delivered(steps: seq<Step>, queue: nat): nat {
    if steps == [] then 0
    else
      var step := steps[|steps| - 1];
      Delivered(steps[..|steps| - 1], queue) + if step.Deliver? && step.queue == queue then 1 else 0
  }

  /** Every delivery hands the queue the oldest event due to it that it does not have. */
  predicate OldestFirst(steps: seq<Step>, queue: nat) {
    steps == [] ||
    var prefix, step := steps[..|steps| - 1], steps[|steps| - 1];
    && OldestFirst(prefix, queue)
    && (step.Deliver? && step.queue == queue ==>
          Delivered(prefix, queue) < |Due(prefix, queue)| && Due(prefix, queue)[Delivered(prefix, queue)] == step.event)
  }

  lemma {:induction false} DeliveredIsReceived(steps: seq<Step>, w: World, queue: nat)
    requires Run(steps) == Some(w)
    ensures Delivered(steps, queue) == if queue in w.queues then |w.queues[queue]| else 0
    ensures queue !in w.queues ==> OldestFirst(steps, queue)
  {
    if steps != [] {
      DeliveredIsReceived(steps[..|steps| - 1], Run(steps[..|steps| - 1]).value, queue);
    }
  }

  lemma ExtendedPrefix(received: seq<Event>, due: seq<Event>, e: Event)
    ensures received + [e] <= due <==> received <= due && |received| < |due| && due[|received|] == e
    ensures |received| <= |due| ==> (received <= due + [e] <==> received <= due)
  {
    if received <= due && |received| < |due| && due[|received|] == e {
      assert due[..|received| + 1] == received + [e];
    }
    if received + [e] <= due {
      assert due[..|received|] == received && due[|received|] == (received + [e])[|received|];
    }
  }

  lemma OrderAfterStep(prefix: seq<Step>, before: World, step: Step, queue: nat)
    requires Run(prefix) == Some(before) && Enabled(before, step) && queue in before.queues
    requires before.queues[queue] <= Due(prefix, queue) <==> OldestFirst(prefix, queue)
    requires |before.queues[queue]| <= |Due(prefix, queue)|
    ensures queue in Next(before, step).queues
    ensures Next(before, step).queues[queue] <= Due(prefix + [step], queue) <==> OldestFirst(prefix + [step], queue)
  {
    assert (prefix + [step])[..|prefix|] == prefix;
    DeliveredIsReceived(prefix, before, queue);
    match step {
      case Publish(c, e) =>
        PublishStep(prefix, before, c, e, queue);
        ExtendedPrefix(before.queues[queue], Due(prefix, queue), e);
      case Deliver(e, q) =>
        DeliverStep(prefix, before, e, q, queue);
        ExtendedPrefix(before.queues[queue], Due(prefix, queue), e);
      case _ => OtherStep(prefix, before, step, queue);
    }
  }

  lemma ReceivedIsNoMoreThanDue(steps: seq<Step>, w: World, queue: nat)
    requires QueueBalanced(steps, w, queue)
    ensures |w.queues[queue]| <= |Due(steps, queue)|
    ensures w.inFlight[queue] == multiset{} ==> |w.queues[queue]| == |Due(steps, queue)|
  {
    assert |multiset(w.queues[queue])| + |w.inFlight[queue]| == |multiset(Due(steps, queue))|;
  }

  /** A queue holds a beginning of what is due to it exactly when it was handed the oldest event each time. */
  lemma {:induction false} OrderIsKeptExactly(steps: seq<Step>, w: World, queue: nat)
    requires Run(steps) == Some(w) && queue in w.queues
    ensures w.queues[queue] <= Due(steps, queue) <==> OldestFirst(steps, queue)
  {
    var prefix, step := steps[..|steps| - 1], steps[|steps| - 1];
    var before := Run(prefix).value;
    assert steps == prefix + [step];
    if queue !in before.queues {
      FreshQueue(prefix, before, step, queue);
      DeliveredIsReceived(prefix, before, queue);
    } else {
      OrderIsKeptExactly(prefix, before, queue);
      NothingIsLostOrDuplicated(prefix, before, queue);
      ReceivedIsNoMoreThanDue(prefix, before, queue);
      OrderAfterStep(prefix, before, step, queue);
    }
  }

  /**
   * With nothing under way to it, a queue holds exactly the events published on its conversation
   * while it was subscribed, in publish order, if and only if it was handed the oldest each time.
   */
  lemma QueueHoldsWhatIsDueExactly(steps: seq<Step>, w: World, queue: nat)
    requires Run(steps) == Some(w) && queue in w.queues && queue in w.inFlight && w.inFlight[queue] == multiset{}
    ensures w.queues[queue] == Due(steps, queue) <==> OldestFirst(steps, queue)
  {
    OrderIsKeptExactly(steps, w, queue);
    NothingIsLostOrDuplicated(steps, w, queue);
    ReceivedIsNoMoreThanDue(steps, w, queue);
  }

  lemma Extended(steps: seq<Step>, w: World, step: Step) returns (longer: (seq<Step>, World))
    requires Run(steps) == Some(w) && Enabled(w, step)
    ensures longer == (steps + [step], Next(w, step)) && Run(longer.0) == Some(longer.1)
    ensures longer.0[..|steps|] == steps
  {
    longer := (steps + [step], Next(w, step));
    assert longer.0[..|steps|] == steps;
  }

  /** Events received by queue 0, under way to it - and to no other - and due to it. */
  ghost predicate Holds(steps: seq<Step>, w: World, received: seq<Event>, inFlight: multiset<Event>, due: seq<Event>) {
    && Run(steps) == Some(w) && 0 in w.queues && w.queues[0] == received && Due(steps, 0) == due
    && w.inFlight.Keys == {0} && w.inFlight[0] == inFlight
  }

  lemma OneSubscriber(c: string) returns (steps: seq<Step>, w: World)
    ensures Holds(steps, w, [], multiset{}, []) && SubscribedTo(steps, 0) == Some(c)
  {
    var s := Extended([], START, Subscribe(c, 0));
    steps, w := s.0, s.1;
  }

  lemma OneMorePublish(prefix: seq<Step>, before: World, c: string, e: Event,
                       received: seq<Event>, inFlight: multiset<Event>, due: seq<Event>)
    returns (steps: seq<Step>, w: World)
    requires Holds(prefix, before, received, inFlight, due) && SubscribedTo(prefix, 0) == Some(c)
    ensures Holds(steps, w, received, inFlight + multiset{e}, due + [e]) && SubscribedTo(steps, 0) == Some(c)
  {
    PublishStep(prefix, before, c, e, 0);
    var s := Extended(prefix, before, Publish(c, e));
    steps, w := s.0, s.1;
  }

  lemma OneMoreDelivery(prefix: seq<Step>, before: World, e: Event, received: seq<Event>, more: seq<Event>,
                        rest: multiset<Event>, due: seq<Event>)
    returns (steps: seq<Step>, w: World)
    requires Holds(prefix, before, received, rest + multiset{e}, due) && more == received + [e]
    ensures Holds(steps, w, more, rest, due)
  {
    var s := Extended(prefix, before, Deliver(e, 0));
    steps, w := s.0, s.1;
    assert rest + multiset{e} - multiset{e} == rest;
    assert Due(steps, 0) == Due(steps[..|prefix|], 0);
  }

  lemma NothingUnderWay(steps: seq<Step>, w: World, received: seq<Event>, due: seq<Event>)
    requires Holds(steps, w, received, multiset{}, due)
    ensures Settled(w)
  {
  }

  lemma TwoPublished(c: string, a: Event, b: Event) returns (steps: seq<Step>, w: World)
    ensures Holds(steps, w, [], multiset{a, b}, [a, b])
  {
    var s0, w0 := OneSubscriber(c);
    var s1, w1 := OneMorePublish(s0, w0, c, a, [], multiset{}, []);
    steps, w := OneMorePublish(s1, w1, c, b, [], multiset{} + multiset{a}, [] + [a]);
    assert multiset{} + multiset{a} + multiset{b} == multiset{a, b} && [] + [a] + [b] == [a, b];
  }

  /** Two publishes whose deliveries overtake each other leave a queue in the wrong order. */
  lemma OvertakingBreaksOrder(c: string, a: Event, b: Event) returns (steps: seq<Step>, w: World)
    ensures Holds(steps, w, [b, a], multiset{}, [a, b]) && Settled(w)
  {
    var s0, w0 := TwoPublished(c, a, b);
    assert multiset{a} + multiset{b} == multiset{a, b} && multiset{} + multiset{a} == multiset{a};
    var s1, w1 := OneMoreDelivery(s0, w0, b, [], [b], multiset{a}, [a, b]);
    steps, w := OneMoreDelivery(s1, w1, a, [b], [b, a], multiset{}, [a, b]);
    NothingUnderWay(steps, w, [b, a], [a, b]);
  }

  /** A publish runs through its deliveries before anything else happens. */
  predicate Uninterrupted(steps: seq<Step>) {
    steps == [] ||
    var n := |steps| - 1;
    && Uninterrupted(steps[..n])
    && (!steps[n].Deliver? && Run(steps[..n]).Some? ==> Settled(Run(steps[..n]).value))
  }

  predicate Settled(w: World) {
    forall q :: q in w.inFlight ==> w.inFlight[q] == multiset{}
  }

  /** At most the newest event is under way to a queue, and the queue holds all the others in order. */
  predicate InStep(received: seq<Event>, inFlight: multiset<Event>, due: seq<Event>) {
    || (inFlight == multiset{} && received == due)
    || (due != [] && inFlight == multiset{due[|due| - 1]} && received == due[..|due| - 1])
  }

  lemma DeliveryCompletes(received: seq<Event>, inFlight: multiset<Event>, due: seq<Event>, e: Event)
    requires InStep(received, inFlight, due) && e in inFlight
    ensures InStep(received + [e], inFlight - multiset{e}, due)
  {
    assert due == due[..|due| - 1] + [due[|due| - 1]];
  }

  lemma PublishStarts(received: seq<Event>, due: seq<Event>, e: Event)
    requires received == due
    ensures InStep(received, multiset{} + multiset{e}, due + [e])
  {
    assert (due + [e])[..|due|] == due;
  }

  lemma {:induction false} UninterruptedRunsStayInStep(steps: seq<Step>, w: World, queue: nat)
    requires Run(steps) == Some(w) && Uninterrupted(steps) && queue in w.queues
    ensures queue in w.inFlight && InStep(w.queues[queue], w.inFlight[queue], Due(steps, queue))
  {
    var prefix, step := steps[..|steps| - 1], steps[|steps| - 1];
    var before := Run(prefix).value;
    assert steps == prefix + [step];
    if queue in before.queues {
      UninterruptedRunsStayInStep(prefix, before, queue);
      match step {
        case Publish(c, e) =>
          PublishStep(prefix, before, c, e, queue);
          PublishStarts(before.queues[queue], Due(prefix, queue), e);
        case Deliver(e, q) =>
          DeliverStep(prefix, before, e, q, queue);
          if q == queue {
            DeliveryCompletes(before.queues[queue], before.inFlight[queue], Due(prefix, queue), e);
          }
        case _ =>
          OtherStep(prefix, before, step, queue);
      }
    } else {
      FreshQueue(prefix, before, step, queue);
    }
  }

  /**
   * When deliveries are not interrupted, a settled queue holds exactly the events published on its
   * conversation while it was subscribed, in publish order.
   */
  lemma QueuesHoldWhatIsDue(steps: seq<Step>, w: World, queue: nat)
    requires Run(steps) == Some(w) && Uninterrupted(steps) && Settled(w) && queue in w.queues
    ensures w.queues[queue] == Due(steps, queue)
  {
    UninterruptedRunsStayInStep(steps, w, queue);
  }
}
