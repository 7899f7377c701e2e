/** The breaker objects: one per domain, created lazily, updated in place. */
module CircuitBreakers {
  import opened Wrappers
  import opened Circuit

  class CircuitBreaker {
    const policy: CircuitPolicy
    ghost const domain: string  // the registry key, which tells the breakers of a registry apart
    var state: CircuitState
    var failures: nat
    var openedAt: Option<real>

    ghost predicate Valid()
      reads this
    {
      Sound(Snapshot(state, failures, openedAt))
    }

    function View(): Breaker
      requires Valid()
      reads this
    {
      Snapshot(state, failures, openedAt)
    }

    constructor (policy: CircuitPolicy, ghost domain: string)
      ensures Valid() && View() == FRESH && this.policy == policy && this.domain == domain
    {
      this.policy := policy;
      this.domain := domain;
      state, failures, openedAt := Closed, 0, None;
    }

    method Allow(now: real) returns (ok: bool)
      requires Valid()
      modifies this
      ensures Valid() && (View(), ok) == Circuit.Allow(policy, old(View()), now)
    {
      if state == Open {
        assert openedAt != None;
        if now - openedAt.value >= policy.cooldownSeconds {
          state := HalfOpen;
          return true;
        }
        return false;
      }
      return true;
    }

    method RecordSuccess()
      modifies this
      ensures Valid() && View() == FRESH
    {
      state := Closed;
      failures := 0;
      openedAt := None;
    }

    method RecordFailure(now: real)
      requires Valid()
      modifies this
      ensures Valid() && View() == Circuit.RecordFailure(policy, old(View()), now)
    {
      if state == HalfOpen {
        Trip(now);
        return;
      }
      failures := failures + 1;
      if failures >= policy.failureThreshold {
        Trip(now);
      }
    }

    method Trip(now: real)
      modifies this
      ensures Valid() && View() == Snapshot(Open, 0, Some(now))
    {
      state := Open;
      openedAt := Some(now);
      failures := 0;
    }
  }

  /** A domain never seen has a fresh breaker. */
  function BreakerAt(breakers: map<string, Breaker>, domain: string): Breaker {
    if domain in breakers then breakers[domain] else FRESH
  }

  class CircuitBreakerRegistry {
    const policy: CircuitPolicy
    var breakers: map<string, CircuitBreaker>

    ghost predicate Valid()
      reads this, breakers.Values
    {
      forall d <- breakers :: breakers[d].Valid() && breakers[d].policy == policy && breakers[d].domain == d
    }

    ghost function View(): map<string, Breaker>
      requires Valid()
      reads this, breakers.Values
    {
      map d <- breakers :: breakers[d].View()
    }

    constructor (policy: CircuitPolicy)
      ensures Valid() && View() == map[] && this.policy == policy && fresh(breakers.Values)
    {
      this.policy := policy;
      breakers := map[];
    }

    /** The domain's breaker, created closed on first use; no other domain is touched. */
    method ForDomain(domain: string) returns (breaker: CircuitBreaker)
      requires Valid()
      modifies this
      ensures Valid()
      ensures domain in breakers && breakers[domain] == breaker
      ensures fresh(breakers.Values - old(breakers.Values))
      ensures View() == old(View())[domain := BreakerAt(old(View()), domain)]
    {
      if domain in breakers {
        breaker := breakers[domain];
      } else {
        breaker := new CircuitBreaker(policy, domain);
        breakers := breakers[domain := breaker];
      }
    }
  }
}
