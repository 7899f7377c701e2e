/** The four downloader middlewares as objects over shared mutable state, each proved to do its part
    of the value-level stack, and the chain that runs them in priority order. */
module Middleware {
  import opened Wrappers
  import opened Classifier
  import opened Backoff
  import opened Circuit
  import opened CircuitBreakers
  import opened Proxies
  import opened ProxyPools
  import opened Identities
  import opened IdentityPools
  import opened Stack

  class StatsCollector {
    var counts: Stats

    constructor ()
      ensures counts == NOTHING
    {
      counts := NOTHING;
    }
  }

  /** The spider's ban-event sink, which the runner shares with the ledger. */
  class Spider {
    var banEvents: seq<BanEvent>

    constructor ()
      ensures banEvents == []
    {
      banEvents := [];
    }
  }

  class BackoffRetryMiddleware {
    const policy: BackoffPolicy
    const stats: StatsCollector

    constructor (policy: BackoffPolicy, stats: StatsCollector)
      ensures this.policy == policy && this.stats == stats
    {
      this.policy := policy;
      this.stats := stats;
    }

    /** `jitter` is the draw from `uniform(0, cap)`. */
    method PlanRetry(request: Request, response: Response, jitter: real) returns (plan: Option<(Wait, Request)>)
      modifies stats
      ensures plan == Stack.PlanRetry(policy, old(stats.counts), request, response, jitter).1
      ensures plan.Some? ==> stats.counts == old(stats.counts)
      ensures plan.None? ==> stats.counts == Stack.PlanRetry(policy, old(stats.counts), request, response, jitter).0
    {
      if request.infra || !Retryable(response.status) {
        return None;
      }
      var attempt := request.backoffRetries;
      if attempt >= policy.maxRetries {
        stats.counts := stats.counts.(backoffExhausted := stats.counts.backoffExhausted + 1);
        return None;
      }
      var delay := ComputeDelay(policy, attempt, response.retryAfter, jitter);
      return Some((Wait(response.retryAfter, jitter, delay), request.(backoffRetries := attempt + 1)));
    }

    method ProcessResponse(request: Request, response: Response, jitter: real) returns (plan: Option<(Wait, Request)>)
      modifies stats
      ensures (stats.counts, plan) == Stack.PlanRetry(policy, old(stats.counts), request, response, jitter)
    {
      plan := PlanRetry(request, response, jitter);
      if plan.Some? {
        stats.counts := stats.counts.(backoffRetries := stats.counts.backoffRetries + 1);
      }
    }
  }

  class CircuitBreakerMiddleware {
    const registry: CircuitBreakerRegistry
    const stats: StatsCollector

    constructor (registry: CircuitBreakerRegistry, stats: StatsCollector)
      ensures this.registry == registry && this.stats == stats
    {
      this.registry := registry;
      this.stats := stats;
    }

    /** What this middleware sees of the stack state. */
    ghost predicate Sees(s: StackState)
      reads registry, registry.breakers.Values, stats
    {
      registry.Valid() && s.breakers == registry.View() && s.stats == stats.counts
    }

    method ProcessRequest(request: Request, now: real, ghost before: StackState) returns (ok: bool)
      requires Sees(before)
      modifies registry, registry.breakers.Values, stats
      ensures fresh(registry.breakers.Values - old(registry.breakers.Values))
      ensures Sees(Stack.AskBreaker(registry.policy, before, request, now).0)
      ensures ok == Stack.AskBreaker(registry.policy, before, request, now).1
    {
      if request.infra {
        return true;
      }
      ok := Ask(request.domain, now);
      if !ok {
        stats.counts := stats.counts.(circuitSkipped := stats.counts.circuitSkipped + 1);
      }
    }

    method Ask(domain: string, now: real) returns (ok: bool)
      requires registry.Valid()
      modifies registry, registry.breakers.Values
      ensures registry.Valid() && fresh(registry.breakers.Values - old(registry.breakers.Values))
      ensures var (b', admitted) := Circuit.Allow(registry.policy, BreakerAt(old(registry.View()), domain), now);
              registry.View() == old(registry.View())[domain := b'] && ok == admitted
    {
      var breaker := registry.ForDomain(domain);
      ghost var found := registry.View();
      ok := AskFound(domain, breaker, now);
      assert registry.View() == found[domain := registry.View()[domain]];
    }

    method AskFound(domain: string, breaker: CircuitBreaker, now: real) returns (ok: bool)
      requires registry.Valid() && domain in registry.breakers && registry.breakers[domain] == breaker
      modifies breaker
      ensures registry.Valid()
      ensures var (b', admitted) := Circuit.Allow(registry.policy, old(registry.View())[domain], now);
              registry.View() == old(registry.View())[domain := b'] && ok == admitted
    {
      ghost var view := registry.View();
      ok := breaker.Allow(now);
      forall d | d in registry.breakers && d != domain
        ensures registry.breakers[d].Valid() && registry.breakers[d].View() == view[d]
      {
        assert registry.breakers[d].domain == d;
      }
      assert registry.View() == view[domain := breaker.View()];
    }

    method ProcessResponse(request: Request, response: Response, now: real, ghost before: StackState)
      requires Sees(before)
      modifies registry, registry.breakers.Values, stats
      ensures fresh(registry.breakers.Values - old(registry.breakers.Values))
      ensures Sees(RecordOutcome(registry.policy, before, request, Classify(response), now))
    {
      if request.infra {
        return;
      }
      var tripped := Note(request.domain, Classify(response), now);
      if tripped {
        stats.counts := stats.counts.(circuitTripped := stats.counts.circuitTripped + 1);
      }
    }

    method Note(domain: string, classification: Classification, now: real) returns (tripped: bool)
      requires registry.Valid()
      modifies registry, registry.breakers.Values
      ensures registry.Valid() && fresh(registry.breakers.Values - old(registry.breakers.Values))
      ensures var was := BreakerAt(old(registry.View()), domain);
              var b' := Noted(registry.policy, was, classification, now);
              registry.View() == old(registry.View())[domain := b'] && tripped == Tripped(was, b')
    {
      var breaker := registry.ForDomain(domain);
      ghost var found := registry.View();
      tripped := NoteFound(domain, breaker, classification, now);
      assert registry.View() == found[domain := registry.View()[domain]];
    }

    method NoteFound(domain: string, breaker: CircuitBreaker, classification: Classification, now: real)
      returns (tripped: bool)
      requires registry.Valid() && domain in registry.breakers && registry.breakers[domain] == breaker
      modifies breaker
      ensures registry.Valid()
      ensures var was := old(registry.View())[domain];
              var b' := Noted(registry.policy, was, classification, now);
              registry.View() == old(registry.View())[domain := b'] && tripped == Tripped(was, b')
    {
      ghost var view := registry.View();
      var wasOpen := breaker.state == Open;
      if PersistentBlock(classification) {
        breaker.RecordFailure(now);
      } else if classification == Ok {
        breaker.RecordSuccess();
      }
      tripped := !wasOpen && breaker.state == Open;
      forall d | d in registry.breakers && d != domain
        ensures registry.breakers[d].Valid() && registry.breakers[d].View() == view[d]
      {
        assert registry.breakers[d].domain == d;
      }
      assert registry.View() == view[domain := breaker.View()];
    }
  }

  class IdentityRotationMiddleware {
    const identities: IdentityPool
    const proxies: ProxyPool
    const maxAttempts: int
    const stats: StatsCollector
    var escalated: bool
    var proxy: Option<string>

    /** Starts on the contact User-Agent, with the first proxy of the pool. */
    constructor (identities: IdentityPool, proxies: ProxyPool, maxAttempts: int, stats: StatsCollector, now: real)
      requires proxies.Valid()
      modifies proxies
      ensures this.identities == identities && this.proxies == proxies
      ensures this.maxAttempts == maxAttempts && this.stats == stats
      ensures !escalated && proxies.Valid() && (proxies.View(), proxy) == Proxies.Acquire(old(proxies.View()), now)
      ensures proxy.Some? ==> proxy.value in proxies.ordered
    {
      this.identities := identities;
      this.proxies := proxies;
      this.maxAttempts := maxAttempts;
      this.stats := stats;
      escalated := false;
      new;
      AcquireSelects(proxies.View(), now);
      proxy := proxies.Acquire(now);
    }

    ghost predicate Configured(cfg: Config) {
      && cfg.profiles == identities.profiles && cfg.maxAttempts == maxAttempts
      && cfg.proxyCooldown == proxies.cooldownSeconds
    }

    /** What this middleware sees of the stack state. */
    ghost predicate Sees(s: StackState)
      reads this, identities, proxies, stats
    {
      && identities.Valid() && proxies.Valid()
      && s.identities == identities.View() && s.proxies == proxies.View()
      && s.escalated == escalated && s.proxy == proxy && s.stats == stats.counts
    }

    /** `request` has passed the default User-Agent middleware, which runs before. */
    method ProcessRequest(cfg: Config, request: Request, ghost before: StackState) returns (stamped: Request)
      requires Configured(cfg) && Sees(before) && request.userAgent.Some?
      ensures stamped == Stamp(cfg, before, request)
    {
      stamped := request;
      if request.infra {
        return;
      }
      if escalated {
        var identity := identities.current;
        stamped := stamped.(userAgent := Some(identity.profile.userAgent),
                            headers := stamped.headers + identity.profile.headers,
                            cookiejar := Some(identity.key));
      }
      if proxy.Some? {
        stamped := stamped.(proxy := proxy);
      }
    }

    method ProcessResponse(cfg: Config, request: Request, response: Response, now: real, ghost before: StackState)
      returns (retry: Option<Request>)
      requires Configured(cfg) && Sees(before)
      modifies this, identities, proxies, stats
      ensures Sees(Stack.Recover(cfg, before, request, response, now).0)
      ensures retry == Stack.Recover(cfg, before, request, response, now).1
    {
      if request.infra {
        return None;
      }
      var classification := Classify(response);
      if classification == Ok {
        proxies.RecordSuccess(proxy);
        return None;
      }
      if classification == Blocked && response.setCookie {
        retry := BoundedRetry(maxAttempts, request);
        if retry.Some? {
          stats.counts := stats.counts.(cookieRetries := stats.counts.cookieRetries + 1);
        }
        return retry;
      }
      if PersistentBlock(classification) {
        retry := BoundedRetry(maxAttempts, request);
        if retry.Some? {
          stats.counts := stats.counts.(identityRotations := stats.counts.identityRotations + 1);
          Switch(cfg, now, before.(stats := stats.counts));
          return retry;
        }
        stats.counts := stats.counts.(rotationExhausted := stats.counts.rotationExhausted + 1);
      }
      return None;
    }

    method Switch(cfg: Config, now: real, ghost before: StackState)
      requires Configured(cfg) && Sees(before)
      modifies this, identities, proxies
      ensures Sees(SwitchIdentity(cfg, before, now))
    {
      proxies.RecordBan(proxy, now);
      Escalate();
      proxy := proxies.Acquire(now);
    }

    /** A first block puts the current identity to use, each later one the next in turn. */
    method Escalate()
      requires identities.Valid()
      modifies this`escalated, identities
      ensures identities.Valid() && escalated
      ensures identities.View() ==
              if old(escalated) then Identities.Rotate(identities.profiles, old(identities.View()))
              else old(identities.View())
    {
      if !escalated {
        escalated := true;
      } else {
        var _ := identities.Rotate();
      }
    }
  }

  /** The rotation stage leaves breakers and sink alone. */
  lemma RecoverLeavesRest(cfg: Config, s: StackState, request: Request, response: Response, now: real)
    requires ValidStack(cfg, s)
    ensures var s' := Stack.Recover(cfg, s, request, response, now).0; s'.breakers == s.breakers && s'.sink == s.sink
  {
    hide Proxies.Acquire, Proxies.RecordBan, Proxies.RecordSuccess;
  }

  lemma AdmitIs(cfg: Config, s: StackState, request: Request, now: real)
    requires ValidStack(cfg, s)
    ensures var (s', ok) := Stack.AskBreaker(cfg.circuit, s, request, now);
      Admit(cfg, s, request, now) == (s', if ok then Admitted(Stamp(cfg, s, request)) else Refused)
  {
  }

  /** The gate changes nothing but statistics and sink. */
  lemma GateMovesBooks(s: StackState, request: Request, response: Response, now: real)
    ensures var s' := Stack.Gate(s, request, response, now).0; s' == s.(stats := s'.stats, sink := s'.sink)
  {
  }

  class BanDetectionMiddleware {
    const stats: StatsCollector

    constructor (stats: StatsCollector)
      ensures this.stats == stats
    {
      this.stats := stats;
    }

    /** Only a response labelled OK survives; every other one is recorded and dropped. */
    method ProcessResponse(request: Request, response: Response, spider: Spider, now: real, ghost before: StackState)
      returns (outcome: Outcome)
      requires before.stats == stats.counts && before.sink == spider.banEvents
      modifies stats, spider
      ensures var (s', o) := Stack.Gate(before, request, response, now);
        stats.counts == s'.stats && spider.banEvents == s'.sink && outcome == o
    {
      if request.infra {
        return Delivered;
      }
      var classification := Classify(response);
      if classification == Ok {
        return Delivered;
      }
      var event := EventOf(classification, response.status, now);
      stats.counts := stats.counts.(banEvents := stats.counts.banEvents + 1,
                                    bans := stats.counts.bans + multiset{event.kind});
      spider.banEvents := spider.banEvents + [event];
      return Dropped(event);
    }
  }

  /** The chain in priority order: requests pass rotation then breaker, responses pass backoff, breaker,
      rotation, ban gate. */
  class DownloaderChain {
    const cfg: Config
    const stats: StatsCollector
    const spider: Spider
    const registry: CircuitBreakerRegistry
    const proxies: ProxyPool
    const identities: IdentityPool
    const backoff: BackoffRetryMiddleware
    const circuit: CircuitBreakerMiddleware
    const rotation: IdentityRotationMiddleware
    const gate: BanDetectionMiddleware

    ghost predicate Valid()
      reads registry, registry.breakers.Values, proxies, identities
    {
      && registry.Valid() && proxies.Valid() && identities.Valid()
      && backoff.stats == circuit.stats == rotation.stats == gate.stats == stats
      && backoff.policy == cfg.backoff
      && circuit.registry == registry && registry.policy == cfg.circuit
      && rotation.identities == identities && rotation.proxies == proxies && rotation.Configured(cfg)
    }

    /** The shared state the chain's objects hold. */
    ghost function View(): StackState
      requires Valid()
      reads registry, registry.breakers.Values, proxies, identities, rotation, stats, spider
    {
      StackState(registry.View(), proxies.View(), identities.View(), rotation.escalated, rotation.proxy,
                 stats.counts, spider.banEvents)
    }

    constructor (cfg: Config, proxyUrls: seq<string>, now: real)
      requires cfg.profiles != []
      ensures Valid() && this.cfg == cfg && ValidStack(cfg, View())
      ensures View().breakers == map[] && View().identities == FIRST && !View().escalated
      ensures View().stats == NOTHING && View().sink == []
      ensures View().proxies.ordered == Cleaned(proxyUrls)
      ensures View().proxy.Some? ==> View().proxy.value in View().proxies.ordered
    {
      hide FirstFree, Proxies.Acquire, Cleaned, ValidPool, ValidStack;
      this.cfg := cfg;
      var sharedStats := new StatsCollector();
      var sink := new Spider();
      var breakers := new CircuitBreakerRegistry(cfg.circuit);
      var pool := new ProxyPool(proxyUrls, cfg.proxyCooldown);
      var names := new IdentityPool(cfg.profiles);
      stats, spider, registry, proxies, identities := sharedStats, sink, breakers, pool, names;
      backoff := new BackoffRetryMiddleware(cfg.backoff, sharedStats);
      circuit := new CircuitBreakerMiddleware(breakers, sharedStats);
      rotation := new IdentityRotationMiddleware(names, pool, cfg.maxAttempts, sharedStats, now);
      gate := new BanDetectionMiddleware(sharedStats);
      new;
      ViewIsValid();
    }

    lemma ViewIsValid()
      requires Valid()
      ensures ValidStack(cfg, View())
    {
    }

    /** One request passes down: the result and the new shared state are those of Stack.Admit. */
    method ProcessRequest(request: Request, now: real) returns (admission: Admission)
      requires Valid()
      modifies registry, registry.breakers.Values, stats
      ensures Valid() && fresh(registry.breakers.Values - old(registry.breakers.Values))
      ensures View() == Admit(cfg, old(View()), request, now).0
      ensures admission == Admit(cfg, old(View()), request, now).1
    {
      hide *;
      ghost var before := View();
      ViewIsValid();
      var stamped := StampRequest(request);
      var ok := AskBreaker(request, now);
      AdmitIs(cfg, before, request, now);
      admission := if ok then Admitted(stamped) else Refused;
    }

    method AskBreaker(request: Request, now: real) returns (ok: bool)
      requires Valid()
      modifies registry, registry.breakers.Values, stats
      ensures Valid() && fresh(registry.breakers.Values - old(registry.breakers.Values))
      ensures View() == Stack.AskBreaker(cfg.circuit, old(View()), request, now).0
      ensures ok == Stack.AskBreaker(cfg.circuit, old(View()), request, now).1
    {
      ok := circuit.ProcessRequest(request, now, View());
    }

    method StampRequest(request: Request) returns (stamped: Request)
      requires Valid()
      ensures stamped == Stamp(cfg, View(), request)
    {
      var named := if request.userAgent.None? then request.(userAgent := Some(cfg.contact)) else request;
      stamped := rotation.ProcessRequest(cfg, named, View());
    }

    /** One response passes up: the outcome and the new shared state are those of Stack.Receive. */
    method ProcessResponse(request: Request, response: Response, now: real, jitter: real) returns (outcome: Outcome)
      requires Valid()
      modifies registry, registry.breakers.Values, proxies, identities, rotation, stats, spider
      ensures Valid() && fresh(registry.breakers.Values - old(registry.breakers.Values))
      ensures View() == Receive(cfg, old(View()), request, response, now, jitter).0
      ensures outcome == Receive(cfg, old(View()), request, response, now, jitter).1
    {
      hide Stack.CountAndRecover;
      ghost var before := View();
      var plan := backoff.ProcessResponse(request, response, jitter);
      assert View() == before.(stats := Stack.PlanRetry(cfg.backoff, before.stats, request, response, jitter).0);
      if plan.Some? {
        return Waiting(plan.value.0, plan.value.1);
      }
      outcome := CountAndRecover(request, response, now);
    }

    method CountAndRecover(request: Request, response: Response, now: real) returns (outcome: Outcome)
      requires Valid()
      modifies registry, registry.breakers.Values, proxies, identities, rotation, stats, spider
      ensures Valid() && fresh(registry.breakers.Values - old(registry.breakers.Values))
      ensures View() == Stack.CountAndRecover(cfg, old(View()), request, response, now).0
      ensures outcome == Stack.CountAndRecover(cfg, old(View()), request, response, now).1
    {
      ghost var before := View();
      circuit.ProcessResponse(request, response, now, before);
      assert View() == RecordOutcome(cfg.circuit, before, request, Classify(response), now);
      outcome := RecoverOrGate(request, response, now);
    }

    method RecoverOrGate(request: Request, response: Response, now: real) returns (outcome: Outcome)
      requires Valid()
      modifies proxies, identities, rotation, stats, spider
      ensures Valid()
      ensures View() == Stack.RecoverOrGate(cfg, old(View()), request, response, now).0
      ensures outcome == Stack.RecoverOrGate(cfg, old(View()), request, response, now).1
    {
      hide Stack.Recover, Stack.Gate;
      var retry := Recover(request, response, now);
      if retry.Some? {
        return Requeued(retry.value);
      }
      outcome := Gate(request, response, now);
    }

    method Gate(request: Request, response: Response, now: real) returns (outcome: Outcome)
      requires Valid()
      modifies stats, spider
      ensures Valid()
      ensures View() == Stack.Gate(old(View()), request, response, now).0
      ensures outcome == Stack.Gate(old(View()), request, response, now).1
    {
      ghost var before := View();
      outcome := gate.ProcessResponse(request, response, spider, now, before);
      GateMovesBooks(before, request, response, now);
    }

    method Recover(request: Request, response: Response, now: real) returns (retry: Option<Request>)
      requires Valid()
      modifies proxies, identities, rotation, stats
      ensures Valid()
      ensures View() == Stack.Recover(cfg, old(View()), request, response, now).0
      ensures retry == Stack.Recover(cfg, old(View()), request, response, now).1
    {
      hide Stack.Recover;
      ghost var before := View();
      retry := rotation.ProcessResponse(cfg, request, response, now, before);
      RecoverLeavesRest(cfg, before, request, response, now);
    }
  }
}
