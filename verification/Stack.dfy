/** The four downloader middlewares composed, on values: what one request passing down and one
    response passing up do to the shared resilience state. */
module Stack {
  import opened Wrappers
  import opened Classifier
  import opened Backoff
  import opened Circuit
  import opened CircuitBreakers
  import opened Proxies
  import opened Identities

  // ----- Requests, statistics, ban events -----

  /** A request with the meta and header fields the stack reads or writes. `infra` marks robots.txt
      and similar fetches, which bypass every recovery. */
  datatype Request = Request(
    domain: string, page: nat, infra: bool,
    backoffRetries: nat, rotationAttempts: nat,
    userAgent: Option<string>, headers: map<string, string>,
    cookiejar: Option<string>, proxy: Option<string>)

  /** The crawl's counters; `bans` counts the ban events by kind. */
  datatype Stats = Stats(
    banEvents: nat, bans: multiset<BanKind>,
    backoffRetries: nat, backoffExhausted: nat,
    circuitTripped: nat, circuitSkipped: nat,
    identityRotations: nat, cookieRetries: nat, rotationExhausted: nat)

  const NOTHING := Stats(0, multiset{}, 0, 0, 0, 0, 0, 0, 0)

  datatype BanEvent = BanEvent(kind: BanKind, actionTaken: BanAction, httpStatus: int, occurredAt: real)

  function EventOf(c: Classification, status: int, now: real): BanEvent
    requires c != Ok
  {
    BanEvent(BanKindOf(c), RecommendedAction(c), status, now)
  }

  datatype Config = Config(
    backoff: BackoffPolicy, circuit: CircuitPolicy, maxAttempts: int,
    profiles: seq<BrowserProfile>, proxyCooldown: real, contact: string)

  datatype StackState = StackState(
    breakers: map<string, Breaker>, proxies: Pool, identities: IdentityState,
    escalated: bool, proxy: Option<string>, stats: Stats, sink: seq<BanEvent>)

  ghost predicate ValidStack(cfg: Config, s: StackState) {
    ValidPool(s.proxies) && s.identities.index < |cfg.profiles|
  }

  // ----- A request passes down -----

  /** The contact User-Agent is only a default; an escalated stack overlays the current identity and
      its cookie jar; a pool proxy is attached when there is one. */
  function Stamp(cfg: Config, s: StackState, req: Request): Request
    requires ValidStack(cfg, s)
  {
    var named := if req.userAgent.None? then req.(userAgent := Some(cfg.contact)) else req;
    if req.infra then named
    else
      var dressed :=
        if s.escalated then
          var identity := Build(cfg.profiles, s.identities);
          named.(userAgent := Some(identity.profile.userAgent),
                 headers := named.headers + identity.profile.headers,
                 cookiejar := Some(identity.key))
        else named;
      if s.proxy.Some? then dressed.(proxy := s.proxy) else dressed
  }

  datatype Admission = Admitted(request: Request) | Refused

  /** The breaker of the request's domain lets it through, or the skip is counted. */
  function AskBreaker(policy: CircuitPolicy, s: StackState, req: Request, now: real): (StackState, bool) {
    if req.infra then (s, true)
    else
      var (breaker, ok) := Circuit.Allow(policy, BreakerAt(s.breakers, req.domain), now);
      (s.(breakers := s.breakers[req.domain := breaker],
          stats := if ok then s.stats else s.stats.(circuitSkipped := s.stats.circuitSkipped + 1)),
       ok)
  }

  function Admit(cfg: Config, s: StackState, req: Request, now: real): (r: (StackState, Admission))
    requires ValidStack(cfg, s)
    ensures ValidStack(cfg, r.0)
  {
    var (s', ok) := AskBreaker(cfg.circuit, s, req, now);
    (s', if ok then Admitted(Stamp(cfg, s, req)) else Refused)
  }

  // ----- A response passes up -----

  /** Delivered to the spider; dropped by the ban gate; put back in the queue; or put back after a wait. */
  datatype Outcome =
    | Delivered
    | Dropped(event: BanEvent)
    | Requeued(request: Request)
    | Waiting(wait: Wait, request: Request)

  function PlanRetry(policy: BackoffPolicy, stats: Stats, req: Request, resp: Response, jitter: real)
    : (Stats, Option<(Wait, Request)>)
  {
    if req.infra || !Retryable(resp.status) then (stats, None)
    else if req.backoffRetries >= policy.maxRetries then (stats.(backoffExhausted := stats.backoffExhausted + 1), None)
    else
      var delay := ComputeDelay(policy, req.backoffRetries, resp.retryAfter, jitter);
      (stats.(backoffRetries := stats.backoffRetries + 1),
       Some((Wait(resp.retryAfter, jitter, delay), req.(backoffRetries := req.backoffRetries + 1))))
  }

  /** A persistent block is a failure, an OK response a success; a rate limit leaves the breaker alone. */
  function Noted(policy: CircuitPolicy, b: Breaker, c: Classification, now: real): Breaker {
    if PersistentBlock(c) then Circuit.RecordFailure(policy, b, now) else if c == Ok then FRESH else b
  }

  predicate Tripped(before: Breaker, after: Breaker) {
    before.state != Open && after.state == Open
  }

  function RecordOutcome(policy: CircuitPolicy, s: StackState, req: Request, c: Classification, now: real): StackState {
    if req.infra then s
    else
      var before := BreakerAt(s.breakers, req.domain);
      var after := Noted(policy, before, c, now);
      s.(breakers := s.breakers[req.domain := after],
         stats := if Tripped(before, after) then s.stats.(circuitTripped := s.stats.circuitTripped + 1) else s.stats)
  }

  function BoundedRetry(maxAttempts: int, req: Request): Option<Request> {
    if req.rotationAttempts >= maxAttempts then None
    else Some(req.(rotationAttempts := req.rotationAttempts + 1))
  }

  /** Ban the proxy in use, escalate or advance the identity, take another proxy. */
  function SwitchIdentity(cfg: Config, s: StackState, now: real): (s': StackState)
    requires ValidStack(cfg, s)
    ensures ValidStack(cfg, s')
  {
    var (proxies, proxy) := Proxies.Acquire(Proxies.RecordBan(s.proxies, s.proxy, now + cfg.proxyCooldown), now);
    s.(proxies := proxies, proxy := proxy, escalated := true,
       identities := if s.escalated then Identities.Rotate(cfg.profiles, s.identities) else s.identities)
  }

  /** The rotation middleware: recover from a cookie wall or a persistent block, or let the response on. */
  function Recover(cfg: Config, s: StackState, req: Request, resp: Response, now: real)
    : (r: (StackState, Option<Request>))
    requires ValidStack(cfg, s)
    ensures ValidStack(cfg, r.0)
  {
    var c := Classify(resp);
    if req.infra then (s, None)
    else if c == Ok then (s.(proxies := Proxies.RecordSuccess(s.proxies, s.proxy)), None)
    else if c == Blocked && resp.setCookie then
      var retry := BoundedRetry(cfg.maxAttempts, req);
      (if retry.Some? then s.(stats := s.stats.(cookieRetries := s.stats.cookieRetries + 1)) else s, retry)
    else if PersistentBlock(c) then
      var retry := BoundedRetry(cfg.maxAttempts, req);
      if retry.Some? then
        (SwitchIdentity(cfg, s.(stats := s.stats.(identityRotations := s.stats.identityRotations + 1)), now), retry)
      else (s.(stats := s.stats.(rotationExhausted := s.stats.rotationExhausted + 1)), None)
    else (s, None)
  }

  function Gate(s: StackState, req: Request, resp: Response, now: real): (StackState, Outcome) {
    var c := Classify(resp);
    if req.infra || c == Ok then (s, Delivered)
    else
      var event := EventOf(c, resp.status, now);
      (s.(stats := s.stats.(banEvents := s.stats.banEvents + 1, bans := s.stats.bans + multiset{event.kind}),
          sink := s.sink + [event]),
       Dropped(event))
  }

  /** Rotation, then the ban gate: a retry ends the pass. */
  function RecoverOrGate(cfg: Config, s: StackState, req: Request, resp: Response, now: real)
    : (r: (StackState, Outcome))
    requires ValidStack(cfg, s)
    ensures ValidStack(cfg, r.0)
  {
    var (recovered, retry) := Recover(cfg, s, req, resp, now);
    if retry.Some? then (recovered, Requeued(retry.value)) else Gate(recovered, req, resp, now)
  }

  /** The breaker counts the response before rotation and gate see it. */
  function CountAndRecover(cfg: Config, s: StackState, req: Request, resp: Response, now: real)
    : (r: (StackState, Outcome))
    requires ValidStack(cfg, s)
    ensures ValidStack(cfg, r.0)
  {
    RecoverOrGate(cfg, RecordOutcome(cfg.circuit, s, req, Classify(resp), now), req, resp, now)
  }

  /** Backoff, breaker, rotation, ban gate, in the order responses pass them. */
  function Receive(cfg: Config, s: StackState, req: Request, resp: Response, now: real, jitter: real)
    : (r: (StackState, Outcome))
    requires ValidStack(cfg, s)
    ensures ValidStack(cfg, r.0)
  {
    var (stats, plan) := PlanRetry(cfg.backoff, s.stats, req, resp, jitter);
    if plan.Some? then (s.(stats := stats), Waiting(plan.value.0, plan.value.1))
    else CountAndRecover(cfg, s.(stats := stats), req, resp, now)
  }

  // ----- What every response changes in the books -----

  /** The backoff middleware takes this response: a delay is drawn and the request waits. */
  predicate BacksOff(policy: BackoffPolicy, req: Request, resp: Response) {
    !req.infra && Retryable(resp.status) && req.backoffRetries < policy.maxRetries
  }

  /** A block that hands out a session cookie: the same identity tries again. */
  predicate CookieWallMet(resp: Response) {
    Classify(resp) == Blocked && resp.setCookie
  }

  /** Exactly one of four things happens to a response, each for its own reason, and the request's
      counters move with it: a wait or a requeue uses up one attempt of its own budget. */
  lemma ReceiveOutcome(cfg: Config, s: StackState, req: Request, resp: Response, now: real, jitter: real)
    requires ValidStack(cfg, s) && !req.infra
    ensures match Receive(cfg, s, req, resp, now, jitter).1
      case Delivered => Classify(resp) == Ok
      case Dropped(e) => Classify(resp) != Ok && e == EventOf(Classify(resp), resp.status, now)
      case Requeued(req') =>
        && PersistentBlock(Classify(resp)) && req.rotationAttempts < cfg.maxAttempts
        && req' == req.(rotationAttempts := req.rotationAttempts + 1)
      case Waiting(w, req') =>
        && Retryable(resp.status) && req.backoffRetries < cfg.backoff.maxRetries
        && req' == req.(backoffRetries := req.backoffRetries + 1)
        && w == Wait(resp.retryAfter, jitter, ComputeDelay(cfg.backoff, req.backoffRetries, resp.retryAfter, jitter))
  {
  }

  /** The statistics say which: a wait counts one backoff retry, a requeue one rotation or cookie
      retry, a drop one ban event of its kind and that event in the sink, a delivery nothing. */
  ghost predicate Booked(s: StackState, s': StackState, o: Outcome) {
    var (st, st') := (s.stats, s'.stats);
    && st'.circuitSkipped == st.circuitSkipped
    && st'.backoffRetries == st.backoffRetries + (if o.Waiting? then 1 else 0)
    && st'.identityRotations + st'.cookieRetries
       == st.identityRotations + st.cookieRetries + (if o.Requeued? then 1 else 0)
    && st'.banEvents == st.banEvents + (if o.Dropped? then 1 else 0)
    && st'.bans == (if o.Dropped? then st.bans + multiset{o.event.kind} else st.bans)
    && s'.sink == (if o.Dropped? then s.sink + [o.event] else s.sink)
  }

  /** The remaining counters record why: which of the two retries it was, which budget was used up, and
      whether the domain's breaker went from not open to open. */
  ghost predicate BookedReasons(cfg: Config, s: StackState, s': StackState, req: Request, resp: Response, o: Outcome) {
    var (st, st') := (s.stats, s'.stats);
    && st'.identityRotations == st.identityRotations + (if o.Requeued? && !CookieWallMet(resp) then 1 else 0)
    && st'.backoffExhausted == st.backoffExhausted +
       (if Retryable(resp.status) && req.backoffRetries >= cfg.backoff.maxRetries then 1 else 0)
    && st'.rotationExhausted == st.rotationExhausted +
       (if PersistentBlock(Classify(resp)) && o.Dropped? && !CookieWallMet(resp) then 1 else 0)
    && st'.circuitTripped == st.circuitTripped +
       (if Tripped(BreakerAt(s.breakers, req.domain), BreakerAt(s'.breakers, req.domain)) then 1 else 0)
  }

  lemma RecoverBooked(cfg: Config, s: StackState, req: Request, resp: Response, now: real)
    requires ValidStack(cfg, s) && !req.infra
    ensures var (s', retry) := Recover(cfg, s, req, resp, now);
      Booked(s, s', if retry.Some? then Requeued(retry.value) else Delivered)
  {
  }

  lemma RecoverReasons(cfg: Config, s: StackState, req: Request, resp: Response, now: real)
    requires ValidStack(cfg, s) && !req.infra
    ensures var (st, st', retry) :=
        (s.stats, Recover(cfg, s, req, resp, now).0.stats, Recover(cfg, s, req, resp, now).1);
      && st'.identityRotations == st.identityRotations + (if retry.Some? && !CookieWallMet(resp) then 1 else 0)
      && st'.rotationExhausted == st.rotationExhausted +
         (if PersistentBlock(Classify(resp)) && retry.None? && !CookieWallMet(resp) then 1 else 0)
      && st'.backoffExhausted == st.backoffExhausted && st'.circuitTripped == st.circuitTripped
    ensures Recover(cfg, s, req, resp, now).0.breakers == s.breakers
  {
    hide Proxies.Acquire, Proxies.RecordBan, Proxies.RecordSuccess;
  }

  lemma ReceiveCounted(cfg: Config, s: StackState, req: Request, resp: Response, now: real, jitter: real)
    requires ValidStack(cfg, s) && !req.infra
    ensures Booked(s, Receive(cfg, s, req, resp, now, jitter).0, Receive(cfg, s, req, resp, now, jitter).1)
  {
    hide Recover;
    var (stats, plan) := PlanRetry(cfg.backoff, s.stats, req, resp, jitter);
    var counted := RecordOutcome(cfg.circuit, s.(stats := stats), req, Classify(resp), now);
    RecoverBooked(cfg, counted, req, resp, now);
    if Classify(resp) == Ok {
      OkIsNotRetried(cfg, counted, req, resp, now);
    }
  }

  lemma ReceiveReasons(cfg: Config, s: StackState, req: Request, resp: Response, now: real, jitter: real)
    requires ValidStack(cfg, s) && !req.infra
    ensures BookedReasons(cfg, s, Receive(cfg, s, req, resp, now, jitter).0, req, resp,
            Receive(cfg, s, req, resp, now, jitter).1)
  {
    hide Recover, Circuit.RecordFailure, ComputeDelay;
    var (stats, plan) := PlanRetry(cfg.backoff, s.stats, req, resp, jitter);
    var counted := RecordOutcome(cfg.circuit, s.(stats := stats), req, Classify(resp), now);
    RecoverReasons(cfg, counted, req, resp, now);
  }

  lemma ReceiveBooked(cfg: Config, s: StackState, req: Request, resp: Response, now: real, jitter: real)
    requires ValidStack(cfg, s) && !req.infra
    ensures var (s', o) := Receive(cfg, s, req, resp, now, jitter);
      Booked(s, s', o) && BookedReasons(cfg, s, s', req, resp, o)
  {
    hide Receive, Booked, BookedReasons;
    ReceiveCounted(cfg, s, req, resp, now, jitter);
    ReceiveReasons(cfg, s, req, resp, now, jitter);
  }

  /** The breaker of the response's domain sees at most one event, and no other breaker moves. */
  function EventSeen(cfg: Config, req: Request, resp: Response, now: real): seq<Event> {
    if req.infra || BacksOff(cfg.backoff, req, resp) then []
    else if PersistentBlock(Classify(resp)) then [Failed(now)]
    else if Classify(resp) == Ok then [Succeeded]
    else []
  }

  lemma RecordOutcomeApplies(policy: CircuitPolicy, s: StackState, req: Request, c: Classification, now: real)
    requires !req.infra
    ensures var s' := RecordOutcome(policy, s, req, c, now);
      s'.breakers == s.breakers[req.domain :=
        if PersistentBlock(c) then Circuit.Apply(policy, BreakerAt(s.breakers, req.domain), Failed(now))
        else if c == Ok then Circuit.Apply(policy, BreakerAt(s.breakers, req.domain), Succeeded)
        else BreakerAt(s.breakers, req.domain)]
  {
  }

  lemma ReceiveBreakers(cfg: Config, s: StackState, req: Request, resp: Response, now: real, jitter: real)
    requires ValidStack(cfg, s)
    ensures var (s', seen) := (Receive(cfg, s, req, resp, now, jitter).0, EventSeen(cfg, req, resp, now));
      && (forall d :: d != req.domain ==> BreakerAt(s'.breakers, d) == BreakerAt(s.breakers, d))
      && BreakerAt(s'.breakers, req.domain) ==
         if seen == [] then BreakerAt(s.breakers, req.domain)
         else Circuit.Apply(cfg.circuit, BreakerAt(s.breakers, req.domain), seen[0])
  {
    var (stats, plan) := PlanRetry(cfg.backoff, s.stats, req, resp, jitter);
    var entered := s.(stats := stats);
    var counted := RecordOutcome(cfg.circuit, entered, req, Classify(resp), now);
    assert Recover(cfg, counted, req, resp, now).0.breakers == counted.breakers;
    if plan.None? {
      assert Receive(cfg, s, req, resp, now, jitter).0.breakers == counted.breakers;
      if !req.infra {
        RecordOutcomeApplies(cfg.circuit, entered, req, Classify(resp), now);
      }
    }
  }

  lemma AdmitBreakers(cfg: Config, s: StackState, req: Request, now: real)
    requires ValidStack(cfg, s)
    ensures var s' := Admit(cfg, s, req, now).0;
      && (forall d :: d != req.domain ==> BreakerAt(s'.breakers, d) == BreakerAt(s.breakers, d))
      && BreakerAt(s'.breakers, req.domain) ==
         if req.infra then BreakerAt(s.breakers, req.domain)
         else Circuit.Apply(cfg.circuit, BreakerAt(s.breakers, req.domain), Asked(now))
  {
  }

  /** Infra fetches pass both ways untouched: no breaker, no statistic, no retry, no ban. */
  lemma InfraPassesThrough(cfg: Config, s: StackState, req: Request, resp: Response, now: real, jitter: real)
    requires ValidStack(cfg, s) && req.infra
    ensures Admit(cfg, s, req, now).0 == s && Admit(cfg, s, req, now).1.Admitted?
    ensures Admit(cfg, s, req, now).1.request.(userAgent := req.userAgent) == req
    ensures Receive(cfg, s, req, resp, now, jitter) == (s, Delivered)
  {
  }

  /** How pool and proxy move: a delivery credits the proxy in use, a rotation bans it and takes another,
      anything else leaves both alone. */
  ghost predicate ProxiesMove(cfg: Config, s: StackState, s': StackState, delivered: bool, now: real)
    requires ValidStack(cfg, s)
  {
    if delivered then s'.proxies == Proxies.RecordSuccess(s.proxies, s.proxy) && s'.proxy == s.proxy
    else if s'.stats.identityRotations > s.stats.identityRotations
    then (s'.proxies, s'.proxy) == Proxies.Acquire(Proxies.RecordBan(s.proxies, s.proxy, now + cfg.proxyCooldown), now)
    else s'.proxies == s.proxies && s'.proxy == s.proxy
  }

  lemma RecoverProxies(cfg: Config, s: StackState, req: Request, resp: Response, now: real)
    requires ValidStack(cfg, s) && !req.infra
    ensures ProxiesMove(cfg, s, Recover(cfg, s, req, resp, now).0, Classify(resp) == Ok, now)
  {
  }

  lemma ReceiveProxies(cfg: Config, s: StackState, req: Request, resp: Response, now: real, jitter: real)
    requires ValidStack(cfg, s) && !req.infra
    ensures var (s', o) := Receive(cfg, s, req, resp, now, jitter); ProxiesMove(cfg, s, s', o.Delivered?, now)
  {
    hide Recover, Proxies.Acquire, Proxies.RecordBan, Proxies.RecordSuccess;
    var (stats, plan) := PlanRetry(cfg.backoff, s.stats, req, resp, jitter);
    var counted := RecordOutcome(cfg.circuit, s.(stats := stats), req, Classify(resp), now);
    RecoverProxies(cfg, counted, req, resp, now);
    if Classify(resp) == Ok {
      OkIsNotRetried(cfg, counted, req, resp, now);
    }
  }

  lemma AdmitLeavesPool(cfg: Config, s: StackState, req: Request, now: real)
    requires ValidStack(cfg, s)
    ensures var s' := Admit(cfg, s, req, now).0;
      s'.proxies == s.proxies && s'.proxy == s.proxy && s'.stats.identityRotations == s.stats.identityRotations
  {
  }

  lemma OkIsNotRetried(cfg: Config, s: StackState, req: Request, resp: Response, now: real)
    requires ValidStack(cfg, s) && Classify(resp) == Ok
    ensures Recover(cfg, s, req, resp, now).1.None?
  {
  }

  // ----- Identity freshness -----

  /** The stack is escalated exactly when an identity rotation was counted; the first rotation adopts
      the first profile, each later one the next in turn. */
  ghost predicate IdentityInStep(cfg: Config, s: StackState) {
    var rotations := s.stats.identityRotations;
    && cfg.profiles != []
    && (s.escalated <==> rotations > 0)
    && s.identities == Nth(cfg.profiles, if rotations == 0 then 0 else rotations - 1)
  }

  lemma RecoverKeepsIdentityInStep(cfg: Config, s: StackState, req: Request, resp: Response, now: real)
    requires ValidStack(cfg, s) && IdentityInStep(cfg, s)
    ensures IdentityInStep(cfg, Recover(cfg, s, req, resp, now).0)
  {
    NextInTurn(cfg.profiles, s.identities.generation);
  }

  lemma ReceiveKeepsIdentityInStep(cfg: Config, s: StackState, req: Request, resp: Response, now: real, jitter: real)
    requires ValidStack(cfg, s) && IdentityInStep(cfg, s)
    ensures IdentityInStep(cfg, Receive(cfg, s, req, resp, now, jitter).0)
  {
    var (stats, plan) := PlanRetry(cfg.backoff, s.stats, req, resp, jitter);
    assert IdentityInStep(cfg, s.(stats := stats));
    var counted := RecordOutcome(cfg.circuit, s.(stats := stats), req, Classify(resp), now);
    assert IdentityInStep(cfg, counted);
    RecoverKeepsIdentityInStep(cfg, counted, req, resp, now);
  }

  lemma AdmitKeepsIdentityInStep(cfg: Config, s: StackState, req: Request, now: real)
    requires ValidStack(cfg, s) && IdentityInStep(cfg, s)
    ensures IdentityInStep(cfg, Admit(cfg, s, req, now).0)
  {
  }

  // ----- The two outcomes a sequential crawl lives on -----

  /** An OK response closes its breaker and changes no statistic and no identity. */
  lemma ReceiveOk(cfg: Config, s: StackState, req: Request, resp: Response, now: real, jitter: real)
    requires ValidStack(cfg, s) && !req.infra && Classify(resp) == Ok
    ensures var (s', o) := Receive(cfg, s, req, resp, now, jitter);
      && o == Delivered && s'.stats == s.stats
      && s'.identities == s.identities && s'.escalated == s.escalated
      && BreakerAt(s'.breakers, req.domain) == FRESH
  {
  }

  /** A trip of the domain's breaker is counted. */
  function CountTrip(st: Stats, before: Breaker, after: Breaker): Stats {
    st.(circuitTripped := st.circuitTripped + (if Tripped(before, after) then 1 else 0))
  }

  /** A persistent block without a cookie, with an attempt left, is requeued under the next identity, and one
      rotation is counted; to the breaker it is a failure like any other. */
  lemma ReceiveRotates(cfg: Config, s: StackState, req: Request, resp: Response, now: real, jitter: real)
    requires ValidStack(cfg, s) && !req.infra && req.rotationAttempts < cfg.maxAttempts
    requires PersistentBlock(Classify(resp)) && !Retryable(resp.status) && !CookieWallMet(resp)
    ensures var (s', o) := Receive(cfg, s, req, resp, now, jitter);
      var (before, after) := (BreakerAt(s.breakers, req.domain), BreakerAt(s'.breakers, req.domain));
      && o == Requeued(req.(rotationAttempts := req.rotationAttempts + 1))
      && s'.stats == CountTrip(s.stats, before, after).(identityRotations := s.stats.identityRotations + 1)
      && s'.escalated && s'.identities ==
        (if s.escalated then Identities.Rotate(cfg.profiles, s.identities) else s.identities)
      && after == Circuit.RecordFailure(cfg.circuit, before, now)
  {
    hide Proxies.Acquire, Proxies.RecordBan, Circuit.RecordFailure;
  }

  /** A cookie wall is retried under the same identity and proxy while attempts are left; then it is a ban
      event, and the identity still stays. To the breaker it is a failure like any other. */
  lemma ReceiveCookieWall(cfg: Config, s: StackState, req: Request, resp: Response, now: real, jitter: real)
    requires ValidStack(cfg, s) && !req.infra && CookieWallMet(resp) && !Retryable(resp.status)
    ensures var (s', o) := Receive(cfg, s, req, resp, now, jitter);
      var (before, after) := (BreakerAt(s.breakers, req.domain), BreakerAt(s'.breakers, req.domain));
      var counted := CountTrip(s.stats, before, after);
      && s'.identities == s.identities && s'.escalated == s.escalated && s'.proxy == s.proxy && s'.proxies == s.proxies
      && after == Circuit.RecordFailure(cfg.circuit, before, now)
      && if req.rotationAttempts < cfg.maxAttempts
         then o == Requeued(req.(rotationAttempts := req.rotationAttempts + 1))
              && s'.stats == counted.(cookieRetries := s.stats.cookieRetries + 1)
         else o.Dropped? && o.event.kind == BlockedBan
              && s'.stats == counted.(banEvents := s.stats.banEvents + 1, bans := s.stats.bans + multiset{BlockedBan})
  {
    hide Circuit.RecordFailure;
  }

  /** A plain 429 waits while retries are left; then it is a ban event of its kind, and nothing else. */
  lemma ReceiveRateLimited(cfg: Config, s: StackState, req: Request, resp: Response, now: real, jitter: real)
    requires ValidStack(cfg, s) && !req.infra && resp.status == 429 && !resp.marked
    ensures var (s', o) := Receive(cfg, s, req, resp, now, jitter);
      && s'.identities == s.identities && s'.escalated == s.escalated
      && BreakerAt(s'.breakers, req.domain) == BreakerAt(s.breakers, req.domain)
      && if req.backoffRetries < cfg.backoff.maxRetries
         then o.Waiting? && o.request == req.(backoffRetries := req.backoffRetries + 1)
              && s'.stats == s.stats.(backoffRetries := s.stats.backoffRetries + 1)
         else o.Dropped? && o.event.kind == RateLimitedBan
              && s'.stats == s.stats.(backoffExhausted := s.stats.backoffExhausted + 1,
                                      banEvents := s.stats.banEvents + 1,
                                      bans := s.stats.bans + multiset{RateLimitedBan})
  {
  }

  /** Escalation is for good. */
  lemma StaysEscalated(cfg: Config, s: StackState, req: Request, resp: Response, now: real, jitter: real)
    requires ValidStack(cfg, s) && s.escalated
    ensures Receive(cfg, s, req, resp, now, jitter).0.escalated
  {
  }

  /** With a positive cool-down, a rotation never adopts the proxy it just banned. */
  lemma SwitchLeavesProxy(cfg: Config, s: StackState, now: real)
    requires ValidStack(cfg, s) && cfg.proxyCooldown > 0.0
    requires s.proxy.Some? && s.proxy.value in s.proxies.ordered
    ensures SwitchIdentity(cfg, s, now).proxy != s.proxy
  {
    BannedProxyRests(s.proxies, s.proxy.value, now + cfg.proxyCooldown, now);
  }

  // ----- Where the documented promises stop -----

  lemma StampedHeaders(cfg: Config, s: StackState, req: Request)
    requires ValidStack(cfg, s) && s.escalated && !req.infra
    ensures Stamp(cfg, s, req).headers == req.headers + cfg.profiles[s.identities.index].headers
    ensures !Stamp(cfg, s, req).infra
    ensures Stamp(cfg, s, req).userAgent == Some(cfg.profiles[s.identities.index].userAgent)
  {
  }

  lemma OverlaysAgree(own: map<string, string>, was: map<string, string>, bundle: map<string, string>)
    ensures own + was + bundle == own + bundle <==>
            forall h :: h in was && h !in bundle ==> h in own && own[h] == was[h]
  {
    var (stale, swapped) := (own + was + bundle, own + bundle);
    if forall h :: h in was && h !in bundle ==> h in own && own[h] == was[h] {
      assert stale == swapped;
    }
  }

  /** A rotation swaps the whole header bundle, that is, the retry goes out with the headers it would have
      had if it had never been stamped under the old identity, if and only if every header of the old bundle
      that the new one lacks was the request's own: stamping overlays, it never removes. */
  lemma StampedHeadersCoherent(cfg: Config, s: StackState, s': StackState, req: Request)
    requires ValidStack(cfg, s) && ValidStack(cfg, s') && s.escalated && s'.escalated && !req.infra
    ensures var (was, bundle) :=
        (Build(cfg.profiles, s.identities).profile.headers, Build(cfg.profiles, s'.identities).profile.headers);
      Stamp(cfg, s', Stamp(cfg, s, req)).headers == Stamp(cfg, s', req).headers <==>
      forall h :: h in was && h !in bundle ==> h in req.headers && req.headers[h] == was[h]
  {
    hide Stamp;
    StampedHeaders(cfg, s, req);
    StampedHeaders(cfg, s', req);
    StampedHeaders(cfg, s', Stamp(cfg, s, req));
    OverlaysAgree(req.headers, cfg.profiles[s.identities.index].headers, cfg.profiles[s'.identities.index].headers);
  }

  /** With the built-in catalogue, every request blocked under chrome-mac is retried with the User-Agent of
      firefox-win and the client hints of Chrome. */
  lemma HintsSurviveRotation(cfg: Config, s: StackState, req: Request, resp: Response, now: real, jitter: real)
    requires ValidStack(cfg, s) && cfg.profiles == CATALOGUE && s.escalated && s.identities.index == 1
    requires !req.infra && req.rotationAttempts < cfg.maxAttempts
    requires PersistentBlock(Classify(resp)) && !Retryable(resp.status) && !CookieWallMet(resp)
    ensures var (s', o) := Receive(cfg, s, Stamp(cfg, s, req), resp, now, jitter);
      && o.Requeued?
      && var again := Stamp(cfg, s', o.request);
         && again.userAgent == Some(FIREFOX_WIN.userAgent)
         && "sec-ch-ua" in again.headers && again.headers["sec-ch-ua"] == CHROME_MAC.headers["sec-ch-ua"]
  {
    hide Receive, Classify;
    var sent := Stamp(cfg, s, req);
    ReceiveRotates(cfg, s, sent, resp, now, jitter);
    StampedHeaders(cfg, s, req);
    StampedHeaders(cfg, Receive(cfg, s, sent, resp, now, jitter).0,
      sent.(rotationAttempts := sent.rotationAttempts + 1));
    assert Identities.Rotate(CATALOGUE, s.identities).index == 2;
    HintsOfChrome();
  }

  /** A request goes out on the stack's current proxy, the direct connection included, if and only if
      the stack has one or the request never carried one: a pool that degrades to direct leaves the
      banned proxy on a retried request. */
  lemma StampedProxyCurrent(cfg: Config, s: StackState, req: Request)
    requires ValidStack(cfg, s) && !req.infra
    ensures Stamp(cfg, s, req).proxy == s.proxy <==> s.proxy.Some? || req.proxy.None?
  {
  }

  /** Instance: with a single proxy and a positive cool-down the first rotation leaves the stack without a
      proxy, yet the blocked request goes out again on the banned one. */
  lemma RetriedOnBannedProxy(
    cfg: Config, s: StackState, url: string, req: Request, resp: Response, now: real, jitter: real)
    requires ValidStack(cfg, s) && cfg.proxyCooldown > 0.0 && s.proxies.ordered == [url] && s.proxy == Some(url)
    requires !req.infra && req.rotationAttempts < cfg.maxAttempts
    requires PersistentBlock(Classify(resp)) && !Retryable(resp.status) && !CookieWallMet(resp)
    ensures var (s', o) := Receive(cfg, s, Stamp(cfg, s, req), resp, now, jitter);
      && o.Requeued? && s'.proxy == None
      && Quarantined(s'.proxies.health[url], now) && Stamp(cfg, s', o.request).proxy == Some(url)
  {
    hide Proxies.Acquire, Classify, Receive;
    var sent := Stamp(cfg, s, req);
    var s', o := Receive(cfg, s, sent, resp, now, jitter).0, Receive(cfg, s, sent, resp, now, jitter).1;
    ReceiveRotates(cfg, s, sent, resp, now, jitter);
    ReceiveProxies(cfg, s, sent, resp, now, jitter);
    ReceiveReasons(cfg, s, sent, resp, now, jitter);
    assert url in s.proxies.ordered;
    AcquireSelects(Proxies.RecordBan(s.proxies, s.proxy, now + cfg.proxyCooldown), now);
  }
}
