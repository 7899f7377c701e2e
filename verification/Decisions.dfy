/** What one request and one response do to the stack, in raw terms: statuses, body facts and counters only. */
module Decisions {
  import opened Wrappers
  import opened Classifier
  import opened Backoff
  import opened Circuit
  import opened CircuitBreakers
  import opened Proxies
  import opened Identities
  import opened Stack

  /** The labels that the stages go by, spelled out. */
  lemma RawLabels(resp: Response)
    ensures Retryable(resp.status) <==> resp.status == 429 || resp.status == 503
    ensures Classify(resp) == Ok <==> 200 <= resp.status < 300 && !resp.marked && !resp.blank
    ensures PersistentBlock(Classify(resp)) <==>
            !(200 <= resp.status < 300 && !resp.marked && !resp.blank) && !(resp.status == 429 && !resp.marked)
    ensures CookieWallMet(resp) <==>
            resp.setCookie && !resp.marked && resp.status != 429 && !(200 <= resp.status < 300)
  {
  }

  /** The ban event of a response that is dropped. */
  lemma RawEvent(resp: Response, now: real)
    requires Classify(resp) != Ok
    ensures EventOf(Classify(resp), resp.status, now) == BanEvent(
      if resp.marked then CaptchaBan
      else if resp.status == 429 then RateLimitedBan
      else if 200 <= resp.status < 300 then EmptyBan else BlockedBan,
      if resp.status == 429 && !resp.marked then BanAction.Backoff else RotateIdentity,
      resp.status, now)
  {
  }

  /** A response, seen with the request's counters. `waits`: slow down, retries left; `good`: fit to parse;
      `limited`: a plain 429; `wall`: a block that hands out a cookie; `left`: a rotation attempt left. */
  datatype Facts = Facts(waits: bool, good: bool, limited: bool, wall: bool, left: bool)

  function FactsOf(cfg: Config, req: Request, resp: Response): Facts {
    Facts((resp.status == 429 || resp.status == 503) && req.backoffRetries < cfg.backoff.maxRetries,
          200 <= resp.status < 300 && !resp.marked && !resp.blank,
          resp.status == 429 && !resp.marked,
          resp.setCookie && !resp.marked && resp.status != 429 && !(200 <= resp.status < 300),
          req.rotationAttempts < cfg.maxAttempts)
  }

  /** Exactly what becomes of the request, for every response. */
  lemma OutcomeDecided(cfg: Config, s: StackState, req: Request, resp: Response, now: real, jitter: real)
    requires ValidStack(cfg, s) && !req.infra
    ensures var (o, f) := (Receive(cfg, s, req, resp, now, jitter).1, FactsOf(cfg, req, resp));
      && (o.Waiting? <==> f.waits)
      && (o.Delivered? <==> !f.waits && f.good)
      && (o.Requeued? <==> !f.waits && !f.good && !f.limited && f.left)
      && (o.Dropped? <==> !f.waits && !f.good && (f.limited || !f.left))
      && (o.Waiting? ==>
            && o.request == req.(backoffRetries := req.backoffRetries + 1)
            && o.wait == Wait(resp.retryAfter, jitter,
                              ComputeDelay(cfg.backoff, req.backoffRetries, resp.retryAfter, jitter)))
      && (o.Requeued? ==> o.request == req.(rotationAttempts := req.rotationAttempts + 1))
      && (o.Dropped? ==> o.event == EventOf(Classify(resp), resp.status, now))
  {
    RawLabels(resp);
    OutcomeByLabel(cfg, s, req, resp, now, jitter);
    hide Receive, Classify, Retryable, PersistentBlock, CookieWallMet;
    ReceiveOutcome(cfg, s, req, resp, now, jitter);
  }

  lemma OutcomeByLabel(cfg: Config, s: StackState, req: Request, resp: Response, now: real, jitter: real)
    requires ValidStack(cfg, s) && !req.infra
    ensures var (o, waits) := (Receive(cfg, s, req, resp, now, jitter).1, BacksOff(cfg.backoff, req, resp));
      && (o.Waiting? <==> waits)
      && (!waits && Classify(resp) == Ok ==> o.Delivered?)
      && (!waits && PersistentBlock(Classify(resp)) && req.rotationAttempts < cfg.maxAttempts ==> o.Requeued?)
      && (!waits && PersistentBlock(Classify(resp)) && req.rotationAttempts >= cfg.maxAttempts ==> o.Dropped?)
      && (!waits && Classify(resp) == RateLimited ==> o.Dropped?)
  {
    hide Classify, ComputeDelay, Circuit.RecordFailure, Proxies.Acquire, Proxies.RecordBan, Proxies.RecordSuccess;
  }

  /** Exactly what the response adds to each counter and to the sink. */
  lemma CountersDecided(cfg: Config, s: StackState, req: Request, resp: Response, now: real, jitter: real)
    requires ValidStack(cfg, s) && !req.infra
    ensures var (s', f) := (Receive(cfg, s, req, resp, now, jitter).0, FactsOf(cfg, req, resp));
      var failed := !f.waits && !f.good && !f.limited;
      var dropped := !f.waits && !f.good && (f.limited || !f.left);
      var (before, after) := (BreakerAt(s.breakers, req.domain), BreakerAt(s'.breakers, req.domain));
      var slow := resp.status == 429 || resp.status == 503;
      && s'.stats == s.stats.(
           backoffRetries := s.stats.backoffRetries + One(f.waits),
           backoffExhausted := s.stats.backoffExhausted + One(slow && !f.waits),
           identityRotations := s.stats.identityRotations + One(failed && f.left && !f.wall),
           cookieRetries := s.stats.cookieRetries + One(failed && f.left && f.wall),
           rotationExhausted := s.stats.rotationExhausted + One(failed && !f.left && !f.wall),
           circuitTripped := s.stats.circuitTripped + One(before.state != Open && after.state == Open),
           banEvents := s.stats.banEvents + One(dropped),
           bans := s'.stats.bans)
      && (if dropped
          then var e := EventOf(Classify(resp), resp.status, now);
               s'.stats.bans == s.stats.bans + multiset{e.kind} && s'.sink == s.sink + [e]
          else s'.stats.bans == s.stats.bans && s'.sink == s.sink)
  {
    RawLabels(resp);
    OutcomeDecided(cfg, s, req, resp, now, jitter);
    hide Receive, Classify, Retryable, PersistentBlock, CookieWallMet, EventOf, ComputeDelay, Circuit.RecordFailure;
    ReceiveBooked(cfg, s, req, resp, now, jitter);
  }

  function One(b: bool): nat { if b then 1 else 0 }

  /** Exactly what the response does to breaker, identity and proxies. */
  lemma StateDecided(cfg: Config, s: StackState, req: Request, resp: Response, now: real, jitter: real)
    requires ValidStack(cfg, s) && !req.infra
    ensures var (s', f) := (Receive(cfg, s, req, resp, now, jitter).0, FactsOf(cfg, req, resp));
      var failed := !f.waits && !f.good && !f.limited;
      var rotates := failed && f.left && !f.wall;
      && BreakerAt(s'.breakers, req.domain) ==
         (if failed then Circuit.RecordFailure(cfg.circuit, BreakerAt(s.breakers, req.domain), now)
          else if f.good && !f.waits then FRESH else BreakerAt(s.breakers, req.domain))
      && s'.escalated == (s.escalated || rotates)
      && s'.identities ==
         (if rotates && s.escalated then Identities.Rotate(cfg.profiles, s.identities) else s.identities)
      && (s'.proxies, s'.proxy) ==
         if rotates then Proxies.Acquire(Proxies.RecordBan(s.proxies, s.proxy, now + cfg.proxyCooldown), now)
         else (if f.good && !f.waits then Proxies.RecordSuccess(s.proxies, s.proxy) else s.proxies, s.proxy)
  {
    RawLabels(resp);
    OutcomeDecided(cfg, s, req, resp, now, jitter);
    hide Receive, Classify, Retryable, PersistentBlock, CookieWallMet, ComputeDelay, Circuit.RecordFailure,
      Proxies.Acquire, Proxies.RecordBan, Proxies.RecordSuccess, Identities.Rotate, EventOf;
    ReceiveReasons(cfg, s, req, resp, now, jitter);
    ReceiveBreakers(cfg, s, req, resp, now, jitter);
    ReceiveProxies(cfg, s, req, resp, now, jitter);
    ReceiveIdentities(cfg, s, req, resp, now, jitter);
  }

  lemma ReceiveIdentities(cfg: Config, s: StackState, req: Request, resp: Response, now: real, jitter: real)
    requires ValidStack(cfg, s)
    ensures var s' := Receive(cfg, s, req, resp, now, jitter).0;
      if s'.stats.identityRotations > s.stats.identityRotations
      then s'.escalated
           && s'.identities == if s.escalated then Identities.Rotate(cfg.profiles, s.identities) else s.identities
      else s'.escalated == s.escalated && s'.identities == s.identities
  {
    hide Classify, Circuit.RecordFailure, Proxies.Acquire, Proxies.RecordBan, Proxies.RecordSuccess, Identities.Rotate;
  }

  /** Exactly how a request is stamped: a named one keeps its User-Agent until the stack escalates; from then
      on it speaks as the current profile, with the profile's headers over its own and the jar of that
      profile and generation; the stack's proxy replaces its own where there is one. */
  lemma StampDecided(cfg: Config, s: StackState, req: Request, h: string)
    requires ValidStack(cfg, s)
    ensures var (r, p) := (Stamp(cfg, s, req), cfg.profiles[s.identities.index]);
      var dressed := s.escalated && !req.infra;
      && r.(userAgent := req.userAgent, headers := req.headers, cookiejar := req.cookiejar, proxy := req.proxy) == req
      && r.userAgent == (if dressed then Some(p.userAgent)
                         else if req.userAgent.None? then Some(cfg.contact) else req.userAgent)
      && r.cookiejar == (if dressed then Some(p.name + "#" + Decimal(s.identities.generation)) else req.cookiejar)
      && r.proxy == (if s.proxy.Some? && !req.infra then s.proxy else req.proxy)
      && (h in r.headers <==> h in req.headers || (dressed && h in p.headers))
      && (h in r.headers ==> r.headers[h] == if dressed && h in p.headers then p.headers[h] else req.headers[h])
  {
  }

  /** Exactly when a request is refused: not as an infra fetch, and only by its own domain's open breaker
      within the cool-down. */
  lemma AdmissionDecided(cfg: Config, s: StackState, req: Request, now: real)
    requires ValidStack(cfg, s)
    ensures var ((s', a), b) := (Admit(cfg, s, req, now), BreakerAt(s.breakers, req.domain));
      && (a.Refused? <==> !req.infra && b.state == Open && now - b.openedAt.value < cfg.circuit.cooldownSeconds)
      && (a.Admitted? ==> a.request == Stamp(cfg, s, req))
      && s'.stats == s.stats.(circuitSkipped := s.stats.circuitSkipped + One(a.Refused?))
      && (s'.proxies, s'.identities, s'.escalated, s'.proxy, s'.sink) ==
         (s.proxies, s.identities, s.escalated, s.proxy, s.sink)
      && BreakerAt(s'.breakers, req.domain) ==
         if req.infra || a.Refused? || b.state != Open then b else b.(state := HalfOpen)
  {
    hide Stamp;
  }
}
