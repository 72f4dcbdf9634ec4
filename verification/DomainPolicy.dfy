/** The concurrency state of a domain and its leases, as the objects the runtime shares. */
module DomainPolicy {
  import opened Wrappers
  import opened DomainLeases

  class DomainConcurrencyState {
    var activeLimits: map<Token, int>
    var nextToken: nat

    constructor ()
      ensures View() == START.slots
    {
      activeLimits, nextToken := map[], 0;
    }

    function View(): Slots
      reads this
    {
      Slots(activeLimits, nextToken)
    }

    /** One evaluation of the waiting task's condition, and the entry that follows when it holds. */
    method TryEnter(requested: Option<int>, maximum: int) returns (lease: Option<DomainLease>)
      modifies this
      ensures var limit := Min(OrDefault(requested, maximum), maximum);
        if Fits(limit, old(View()).active) then
          && View() == Granted(old(View()), limit) && lease.Some? && fresh(lease.value)
          && lease.value.state == this && lease.value.token == View().nextToken && !lease.value.released
        else
          View() == old(View()) && lease == None
      ensures var active := old(activeLimits);
        var limit := if requested.Some? && requested.value != 0 && requested.value < maximum then requested.value
                     else maximum;
        lease.Some? <==> |active| + 1 <= limit && forall k :: k in active ==> |active| + 1 <= active[k]
    {
      var limit := Min(OrDefault(requested, maximum), maximum);
      if |activeLimits| + 1 > limit || exists k :: k in activeLimits && |activeLimits| + 1 > activeLimits[k] {
        return None;
      }
      nextToken := nextToken + 1;
      activeLimits := activeLimits[nextToken := limit];
      var entered := new DomainLease(this, nextToken);
      return Some(entered);
    }
  }

  class DomainLease {
    const state: DomainConcurrencyState
    const token: Token
    var released: bool

    constructor (state: DomainConcurrencyState, token: Token)
      ensures this.state == state && this.token == token && !released
    {
      this.state, this.token, released := state, token, false;
    }

    /** Frees the token once; releasing again changes nothing. */
    method Release()
      modifies this, state
      ensures released
      ensures state.View() == if old(released) then old(state.View()) else Freed(old(state.View()), token)
    {
      if !released {
        released := true;
        state.activeLimits := state.activeLimits - {token};
      }
    }
  }
}
