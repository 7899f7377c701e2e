/** A spider that asks for one page at a time, driven through the stack against a server. */
module Crawl {
  import opened Wrappers
  import opened Classifier
  import opened Circuit
  import opened CircuitBreakers
  import opened Identities
  import opened Stack
  import opened Runs
  import opened RunTheorems
  import opened Harness
  import opened Spider

  /** The configuration, the server as a function of its state and the request it receives, any clock
      readings, any jitter draws, and the domain crawled. */
  datatype Setting<!S> = Setting(
    cfg: Config, serve: (S, Request) -> (S, Response), clock: nat -> real, jitter: nat -> real, domain: string)

  datatype FetchEnd = Page(entries: seq<Entry>) | Banned(event: BanEvent) | Refusal

  /** How one request ended, after all its retries. */
  datatype Fetched<S> = Fetched(stack: StackState, server: S, tick: nat, downloads: nat, end: FetchEnd)

  ghost function Remaining(cfg: Config, req: Request): nat {
    Left(cfg.backoff.maxRetries, req.backoffRetries) + Left(cfg.maxAttempts, req.rotationAttempts)
  }

  /** Ask, download, process; a retry copy asks again. */
  ghost function Fetch<S>(x: Setting<S>, s: StackState, server: S, req: Request, tick: nat): (f: Fetched<S>)
    requires ValidStack(x.cfg, s) && !req.infra
    ensures ValidStack(x.cfg, f.stack)
    decreases Remaining(x.cfg, req)
  {
    var (asked, a) := Admit(x.cfg, s, req, x.clock(tick));
    if a.Refused? then Fetched(asked, server, tick + 1, 0, Refusal)
    else
      var (server', resp) := x.serve(server, a.request);
      ReceiveOutcome(x.cfg, asked, a.request, resp, x.clock(tick + 1), x.jitter(tick));
      var (s', o) := Receive(x.cfg, asked, a.request, resp, x.clock(tick + 1), x.jitter(tick));
      match o
      case Delivered => Fetched(s', server', tick + 2, 1, Page(resp.entries))
      case Dropped(event) => Fetched(s', server', tick + 2, 1, Banned(event))
      case Requeued(retry) => OneMore(Fetch(x, s', server', retry, tick + 2))
      case Waiting(_, retry) => OneMore(Fetch(x, s', server', retry, tick + 2))
  }

  function OneMore<S>(f: Fetched<S>): Fetched<S> {
    f.(downloads := f.downloads + 1)
  }

  function Retries(st: Stats): nat { st.identityRotations + st.cookieRetries }

  function AllRetries(st: Stats): nat { st.backoffRetries + Retries(st) }

  lemma StampKeepsAttempts(cfg: Config, s: StackState, req: Request)
    requires ValidStack(cfg, s)
    ensures var stamped := Stamp(cfg, s, req);
      && stamped.infra == req.infra && stamped.domain == req.domain && stamped.page == req.page
      && stamped.backoffRetries == req.backoffRetries && stamped.rotationAttempts == req.rotationAttempts
  {
  }

  /** Whatever the server does, a page leaves no ban event and no skip behind, a ban exactly one ban
      event, in the statistics and in the sink, a refusal exactly one skip; every download but the last is
      counted as a retry, by one of the three retry counters. */
  lemma {:induction false} FetchBooked<S>(x: Setting<S>, s: StackState, server: S, req: Request, tick: nat)
    requires ValidStack(x.cfg, s) && !req.infra
    ensures var f := Fetch(x, s, server, req, tick);
      && f.stack.stats.banEvents == s.stats.banEvents + (if f.end.Banned? then 1 else 0)
      && |f.stack.sink| == |s.sink| + (if f.end.Banned? then 1 else 0)
      && f.stack.stats.circuitSkipped == s.stats.circuitSkipped + (if f.end.Refusal? then 1 else 0)
      && f.downloads + AllRetries(s.stats) == AllRetries(f.stack.stats) + (if f.end.Refusal? then 0 else 1)
    decreases Remaining(x.cfg, req)
  {
    hide Receive, Classify, Stamp, BookedReasons;
    StampKeepsAttempts(x.cfg, s, req);
    var (asked, a) := Admit(x.cfg, s, req, x.clock(tick));
    if a.Admitted? {
      var (server', resp) := x.serve(server, a.request);
      var now, jitter := x.clock(tick + 1), x.jitter(tick);
      ReceiveOutcome(x.cfg, asked, a.request, resp, now, jitter);
      ReceiveBooked(x.cfg, asked, a.request, resp, now, jitter);
      var (s', o) := Receive(x.cfg, asked, a.request, resp, now, jitter);
      if o.Requeued? || o.Waiting? {
        FetchBooked(x, s', server', o.request, tick + 2);
      }
    }
  }

  /** An admitted request whose first download is OK is delivered at once and leaves the statistics alone. */
  lemma DeliveredAtOnce<S>(x: Setting<S>, s: StackState, server: S, req: Request, tick: nat)
    requires ValidStack(x.cfg, s) && !req.infra
    requires Circuit.Allow(x.cfg.circuit, BreakerAt(s.breakers, req.domain), x.clock(tick)).1
    requires Classify(x.serve(server, Stamp(x.cfg, s, req)).1) == Ok
    ensures var (f, answer) := (Fetch(x, s, server, req, tick), x.serve(server, Stamp(x.cfg, s, req)));
      && f.end == Page(answer.1.entries) && f.server == answer.0 && f.downloads == 1 && f.tick == tick + 2
      && f.stack.stats == s.stats && f.stack.identities == s.identities && f.stack.escalated == s.escalated
      && BreakerAt(f.stack.breakers, req.domain) == FRESH
  {
    var (asked, a) := Admit(x.cfg, s, req, x.clock(tick));
    ReceiveOk(x.cfg, asked, a.request, x.serve(server, a.request).1, x.clock(tick + 1), x.jitter(tick));
  }

  /** An admitted request whose first download is a persistent block, with an attempt left, goes on as its
      retry under the next identity; whether the breaker lets that retry through is another matter. */
  lemma RotatedOnce<S>(x: Setting<S>, s: StackState, server: S, req: Request, tick: nat)
    returns (s': StackState, retry: Request)
    requires ValidStack(x.cfg, s) && !req.infra && req.rotationAttempts < x.cfg.maxAttempts
    requires BreakerAt(s.breakers, req.domain).state == Closed
    requires var resp := x.serve(server, Stamp(x.cfg, s, req)).1;
      PersistentBlock(Classify(resp)) && !Retryable(resp.status) && !CookieWallMet(resp)
    ensures ValidStack(x.cfg, s')
    ensures var (before, after) := (BreakerAt(s.breakers, req.domain), BreakerAt(s'.breakers, req.domain));
      && after == Circuit.RecordFailure(x.cfg.circuit, before, x.clock(tick + 1))
      && s'.stats == CountTrip(s.stats, before, after).(identityRotations := s.stats.identityRotations + 1)
    ensures retry == Stamp(x.cfg, s, req).(rotationAttempts := req.rotationAttempts + 1) && !retry.infra
    ensures s'.escalated && s'.identities ==
            (if s.escalated then Rotate(x.cfg.profiles, s.identities) else s.identities)
    ensures Fetch(x, s, server, req, tick) ==
            OneMore(Fetch(x, s', x.serve(server, Stamp(x.cfg, s, req)).0, retry, tick + 2))
  {
    hide Receive, Classify, Circuit.RecordFailure, Rotate;
    var (asked, a) := Admit(x.cfg, s, req, x.clock(tick));
    var resp := x.serve(server, a.request).1;
    ReceiveRotates(x.cfg, asked, a.request, resp, x.clock(tick + 1), x.jitter(tick));
    var (received, o) := Receive(x.cfg, asked, a.request, resp, x.clock(tick + 1), x.jitter(tick));
    s', retry := received, o.request;
  }

  /** The breaker refuses the request. */
  lemma RefusedAtTheBreaker<S>(x: Setting<S>, s: StackState, server: S, req: Request, tick: nat)
    requires ValidStack(x.cfg, s) && !req.infra
    requires !Circuit.Allow(x.cfg.circuit, BreakerAt(s.breakers, req.domain), x.clock(tick)).1
    ensures var f := Fetch(x, s, server, req, tick);
      f.end == Refusal && f.downloads == 0 && f.stack.stats == s.stats.(circuitSkipped := s.stats.circuitSkipped + 1)
  {
  }

  // ----- A permanent blocker -----

  /** The server answers every request with a block, a challenge or an empty page that is not the
      backoff's business; which one, and with or without a cookie, is up to it. */
  ghost predicate AlwaysBlocks<S(!new)>(serve: (S, Request) -> (S, Response)) {
    forall server, req ::
      var resp := serve(server, req).1; PersistentBlock(Classify(resp)) && !Retryable(resp.status)
  }

  /** The challenge and the soft-ban scenarios block every identity for good; so does the cookie wall
      towards a caller that never presents the cookie. */
  lemma HopelessScenarios(h: Harness)
    requires h.scenario == CaptchaPage || h.scenario == SoftBan || h.scenario == CookieWall
    ensures AlwaysBlocks(Serve(h))
  {
  }

  function Least(a: nat, b: nat): nat { if a <= b then a else b }

  /** Every download of this fetch is answered with a persistent block that is not the backoff's business. */
  ghost predicate BlockedAlong<S>(x: Setting<S>, s: StackState, server: S, req: Request, tick: nat)
    requires ValidStack(x.cfg, s) && !req.infra
    decreases Remaining(x.cfg, req)
  {
    var (asked, a) := Admit(x.cfg, s, req, x.clock(tick));
    a.Admitted? ==>
      var (server', resp) := x.serve(server, a.request);
      ReceiveOutcome(x.cfg, asked, a.request, resp, x.clock(tick + 1), x.jitter(tick));
      var (s', o) := Receive(x.cfg, asked, a.request, resp, x.clock(tick + 1), x.jitter(tick));
      && PersistentBlock(Classify(resp)) && !Retryable(resp.status)
      && (o.Requeued? ==> BlockedAlong(x, s', server', o.request, tick + 2))
  }

  lemma {:induction false} AlwaysIsAlong<S(!new)>(x: Setting<S>, s: StackState, server: S, req: Request, tick: nat)
    requires ValidStack(x.cfg, s) && !req.infra && AlwaysBlocks(x.serve)
    ensures BlockedAlong(x, s, server, req, tick)
    decreases Remaining(x.cfg, req)
  {
    hide Receive, Classify, Stamp;
    var (asked, a) := Admit(x.cfg, s, req, x.clock(tick));
    if a.Admitted? {
      StampKeepsAttempts(x.cfg, s, req);
      var (server', resp) := x.serve(server, a.request);
      ReceiveOutcome(x.cfg, asked, a.request, resp, x.clock(tick + 1), x.jitter(tick));
      var (s', o) := Receive(x.cfg, asked, a.request, resp, x.clock(tick + 1), x.jitter(tick));
      if o.Requeued? {
        AlwaysIsAlong(x, s', server', o.request, tick + 2);
      }
    }
  }

  /** One blocked download, and no retry or one that the breaker refuses. */
  lemma BlockedThenRefused<S>(x: Setting<S>, s: StackState, server: S, req: Request, tick: nat)
    requires ValidStack(x.cfg, s) && !req.infra
    requires Circuit.Allow(x.cfg.circuit, BreakerAt(s.breakers, req.domain), x.clock(tick)).1
    requires var resp := x.serve(server, Stamp(x.cfg, s, req)).1;
      PersistentBlock(Classify(resp)) && !Retryable(resp.status)
    requires req.rotationAttempts < x.cfg.maxAttempts ==>
      !Circuit.Allow(x.cfg.circuit, FailedOnce(x, BreakerAt(s.breakers, req.domain), tick), x.clock(tick + 2)).1
    ensures BlockedAlong(x, s, server, req, tick)
    ensures req.rotationAttempts < x.cfg.maxAttempts ==> Fetch(x, s, server, req, tick).end == Refusal
  {
    hide Receive, Classify, Circuit.RecordFailure, Stamp;
    StampKeepsAttempts(x.cfg, s, req);
    var (asked, a) := Admit(x.cfg, s, req, x.clock(tick));
    var (server', resp) := x.serve(server, a.request);
    BlockedOnce(x.cfg, asked, a.request, resp, x.clock(tick + 1), x.jitter(tick));
    var (s', o) := Receive(x.cfg, asked, a.request, resp, x.clock(tick + 1), x.jitter(tick));
    if req.rotationAttempts < x.cfg.maxAttempts {
      RefusedAtTheBreaker(x, s', server', o.request, tick + 2);
    }
  }

  lemma BlockedOnce(cfg: Config, s: StackState, req: Request, resp: Response, now: real, jitter: real)
    requires ValidStack(cfg, s) && !req.infra && BreakerAt(s.breakers, req.domain).state != Open
    requires PersistentBlock(Classify(resp)) && !Retryable(resp.status)
    ensures var (s', o) := Receive(cfg, s, req, resp, now, jitter);
      var after := BreakerAt(s'.breakers, req.domain);
      && after == Circuit.RecordFailure(cfg.circuit, BreakerAt(s.breakers, req.domain), now)
      && s'.stats.circuitTripped == s.stats.circuitTripped + (if after.state == Open then 1 else 0)
      && Retries(s'.stats) == Retries(s.stats) + (if o.Requeued? then 1 else 0)
      && (if req.rotationAttempts < cfg.maxAttempts
          then o == Requeued(req.(rotationAttempts := req.rotationAttempts + 1))
          else o.Dropped?)
  {
    BlockedOutcome(cfg, s, req, resp, now, jitter);
    hide Receive, Classify;
    ReceiveOutcome(cfg, s, req, resp, now, jitter);
    ReceiveBreakers(cfg, s, req, resp, now, jitter);
    ReceiveBooked(cfg, s, req, resp, now, jitter);
  }

  lemma BlockedOutcome(cfg: Config, s: StackState, req: Request, resp: Response, now: real, jitter: real)
    requires ValidStack(cfg, s) && !req.infra && PersistentBlock(Classify(resp)) && !Retryable(resp.status)
    ensures var o := Receive(cfg, s, req, resp, now, jitter).1;
      if req.rotationAttempts < cfg.maxAttempts then o.Requeued? else o.Dropped?
  {
    hide Classify, Circuit.RecordFailure, Proxies.Acquire, Proxies.RecordBan;
  }

  /** One blocked download of an admitted request: the attempts are used up and it is banned, or a
      retry with one attempt more follows; the breaker counts the failure either way. */
  lemma BlockedStep<S>(x: Setting<S>, s: StackState, server: S, req: Request, tick: nat)
    returns (s': StackState, server': S, retry: Request)
    requires ValidStack(x.cfg, s) && !req.infra && BlockedAlong(x, s, server, req, tick)
    requires Circuit.Allow(x.cfg.circuit, BreakerAt(s.breakers, req.domain), x.clock(tick)).1
    ensures ValidStack(x.cfg, s') && retry.domain == req.domain && !retry.infra
    ensures var after := BreakerAt(s'.breakers, req.domain);
      && after == FailedOnce(x, BreakerAt(s.breakers, req.domain), tick)
      && s'.stats.circuitTripped == s.stats.circuitTripped + (if after.state == Open then 1 else 0)
    ensures var f := Fetch(x, s, server, req, tick);
      if req.rotationAttempts < x.cfg.maxAttempts
      then retry.rotationAttempts == req.rotationAttempts + 1 && Remaining(x.cfg, retry) < Remaining(x.cfg, req)
           && f == OneMore(Fetch(x, s', server', retry, tick + 2)) && BlockedAlong(x, s', server', retry, tick + 2)
           && Retries(s'.stats) == Retries(s.stats) + 1
      else f.downloads == 1 && f.end.Banned? && f.stack == s' && Retries(s'.stats) == Retries(s.stats)
  {
    hide Receive, Classify, Circuit.RecordFailure, Stamp;
    StampKeepsAttempts(x.cfg, s, req);
    var (asked, a) := Admit(x.cfg, s, req, x.clock(tick));
    var (served, resp) := x.serve(server, a.request);
    BlockedOnce(x.cfg, asked, a.request, resp, x.clock(tick + 1), x.jitter(tick));
    var (received, o) := Receive(x.cfg, asked, a.request, resp, x.clock(tick + 1), x.jitter(tick));
    s', server', retry := received, served, if o.Requeued? then o.request else req;
  }

  /** What one blocked download leaves of an admitting breaker. */
  function FailedOnce<S>(x: Setting<S>, b: Breaker, tick: nat): Breaker {
    Circuit.RecordFailure(x.cfg.circuit, Circuit.Allow(x.cfg.circuit, b, x.clock(tick)).0, x.clock(tick + 1))
  }

  /** A fetch that starts at `tick` with breaker b asks for its download number j (from 0) in vain: the
      failures before it have tripped the breaker, and it asks before the cool-down is over. */
  predicate RefusedAt<S>(x: Setting<S>, b: Breaker, tick: nat, j: nat) {
    if j == 0 then !Circuit.Allow(x.cfg.circuit, b, x.clock(tick)).1
    else
      && j >= Spare(x.cfg.circuit, b)
      && x.clock(tick + 2 * j) - x.clock(tick + 2 * j - 1) < x.cfg.circuit.cooldownSeconds
  }

  /** The first download from number j on that is refused; beyond the attempts if there is none. */
  function FirstRefusal<S>(x: Setting<S>, b: Breaker, tick: nat, attempts: nat, j: nat): (r: nat)
    requires j <= attempts + 1
    ensures j <= r <= attempts + 1
    ensures forall i :: j <= i < r ==> !RefusedAt(x, b, tick, i)
    ensures r <= attempts ==> RefusedAt(x, b, tick, r)
    decreases attempts + 1 - j
  {
    if j == attempts + 1 || RefusedAt(x, b, tick, j) then j else FirstRefusal(x, b, tick, attempts, j + 1)
  }

  lemma RefusedNext<S>(x: Setting<S>, b: Breaker, tick: nat, j: nat)
    requires Circuit.Allow(x.cfg.circuit, b, x.clock(tick)).1
    ensures RefusedAt(x, FailedOnce(x, b, tick), tick + 2, j) <==> RefusedAt(x, b, tick, j + 1)
  {
    assert tick + 2 + 2 * j == tick + 2 * (j + 1);
  }

  lemma {:induction false} RefusalNext<S>(x: Setting<S>, b: Breaker, tick: nat, attempts: nat, j: nat)
    requires Circuit.Allow(x.cfg.circuit, b, x.clock(tick)).1 && attempts >= 1 && 1 <= j <= attempts + 1
    ensures FirstRefusal(x, b, tick, attempts, j) ==
            FirstRefusal(x, FailedOnce(x, b, tick), tick + 2, attempts - 1, j - 1) + 1
    decreases attempts + 1 - j
  {
    if j <= attempts {
      hide RefusedAt, FailedOnce;
      RefusedNext(x, b, tick, j - 1);
      RefusalNext(x, b, tick, attempts, j + 1);
    }
  }

  /** How often r blocked downloads trip the breaker: at the last spare failure and at each one after it. */
  function TripsIn(policy: CircuitPolicy, b: Breaker, r: nat): nat {
    if r >= Spare(policy, b) then r - Spare(policy, b) + 1 else 0
  }

  lemma OneTripLess<S>(x: Setting<S>, b: Breaker, tick: nat, r: nat)
    requires Circuit.Allow(x.cfg.circuit, b, x.clock(tick)).1
    ensures var b' := FailedOnce(x, b, tick);
      TripsIn(x.cfg.circuit, b, r + 1) == TripsIn(x.cfg.circuit, b', r) + (if b'.state == Open then 1 else 0)
  {
  }

  /** How a fetch that is only ever blocked ends, whatever breaker it starts with and whatever the clock
      does: it downloads until the first refusal, or until the attempts run out; a refusal is a skip, the
      last attempt a ban event; every download but a banned one is retried, and all trips are counted. */
  ghost predicate EndsBlocked<S>(x: Setting<S>, s: StackState, b: Breaker, attempts: nat, tick: nat, f: Fetched<S>) {
    var r := FirstRefusal(x, b, tick, attempts, 0);
    && f.downloads == r && (if r <= attempts then f.end.Refusal? else f.end.Banned?)
    && f.stack.stats.circuitTripped == s.stats.circuitTripped + TripsIn(x.cfg.circuit, b, r)
    && Retries(f.stack.stats) == Retries(s.stats) + Least(r, attempts)
  }

  lemma OneMoreBlocked<S>(
    x: Setting<S>, s: StackState, s': StackState, b: Breaker, attempts: nat, tick: nat, f: Fetched<S>)
    requires Circuit.Allow(x.cfg.circuit, b, x.clock(tick)).1 && attempts > 0
    requires EndsBlocked(x, s', FailedOnce(x, b, tick), attempts - 1, tick + 2, f)
    requires s'.stats.circuitTripped ==
             s.stats.circuitTripped + (if FailedOnce(x, b, tick).state == Open then 1 else 0)
    requires Retries(s'.stats) == Retries(s.stats) + 1
    ensures EndsBlocked(x, s, b, attempts, tick, OneMore(f))
  {
    hide TripsIn, FailedOnce, Circuit.Allow;
    RefusalNext(x, b, tick, attempts, 1);
    OneTripLess(x, b, tick, f.downloads);
  }

  lemma RefusedAtOnce<S>(x: Setting<S>, s: StackState, b: Breaker, attempts: nat, tick: nat, f: Fetched<S>)
    requires !Circuit.Allow(x.cfg.circuit, b, x.clock(tick)).1
    requires f.downloads == 0 && f.end == Refusal
    requires f.stack.stats == s.stats.(circuitSkipped := s.stats.circuitSkipped + 1)
    ensures EndsBlocked(x, s, b, attempts, tick, f)
  {
  }

  lemma LastBlocked<S>(x: Setting<S>, s: StackState, b: Breaker, tick: nat, f: Fetched<S>)
    requires Circuit.Allow(x.cfg.circuit, b, x.clock(tick)).1 && f.downloads == 1 && f.end.Banned?
    requires f.stack.stats.circuitTripped ==
             s.stats.circuitTripped + (if FailedOnce(x, b, tick).state == Open then 1 else 0)
    requires Retries(f.stack.stats) == Retries(s.stats)
    ensures EndsBlocked(x, s, b, 0, tick, f)
  {
    OneTripLess(x, b, tick, 0);
  }

  lemma {:induction false} BlockedFetch<S>(x: Setting<S>, s: StackState, server: S, req: Request, tick: nat)
    requires ValidStack(x.cfg, s) && !req.infra && BlockedAlong(x, s, server, req, tick)
    ensures EndsBlocked(x, s, BreakerAt(s.breakers, req.domain), Left(x.cfg.maxAttempts, req.rotationAttempts), tick,
                        Fetch(x, s, server, req, tick))
    decreases Remaining(x.cfg, req)
  {
    hide Fetch, BlockedAlong, EndsBlocked, FailedOnce, Circuit.Allow;
    var b, attempts := BreakerAt(s.breakers, req.domain), Left(x.cfg.maxAttempts, req.rotationAttempts);
    if !Circuit.Allow(x.cfg.circuit, b, x.clock(tick)).1 {
      RefusedAtTheBreaker(x, s, server, req, tick);
      RefusedAtOnce(x, s, b, attempts, tick, Fetch(x, s, server, req, tick));
    } else {
      var s', server', retry := BlockedStep(x, s, server, req, tick);
      if attempts > 0 {
        BlockedFetch(x, s', server', retry, tick + 2);
        OneMoreBlocked(x, s, s', b, attempts, tick, Fetch(x, s', server', retry, tick + 2));
      } else {
        LastBlocked(x, s, b, tick, Fetch(x, s, server, req, tick));
      }
    }
  }

  function NewRequest(domain: string, page: nat): Request {
    Request(domain, page, false, 0, 0, None, map[], None, None)
  }

  /** Against a permanent blocker one request ends as `EndsBlocked` says, whatever the breaker and the clock;
      the statistics record one skip or one ban event. */
  lemma PermanentBlocker<S(!new)>(x: Setting<S>, s: StackState, server: S, page: nat, tick: nat)
    requires ValidStack(x.cfg, s) && AlwaysBlocks(x.serve)
    ensures var (f, b, attempts) :=
        (Fetch(x, s, server, NewRequest(x.domain, page), tick), BreakerAt(s.breakers, x.domain),
          Budget(x.cfg.maxAttempts));
      var refused := FirstRefusal(x, b, tick, attempts, 0) <= attempts;
      && EndsBlocked(x, s, b, attempts, tick, f)
      && f.stack.stats.banEvents == s.stats.banEvents + (if refused then 0 else 1)
      && f.stack.stats.circuitSkipped == s.stats.circuitSkipped + (if refused then 1 else 0)
  {
    hide Fetch, BlockedAlong;
    AlwaysIsAlong(x, s, server, NewRequest(x.domain, page), tick);
    BlockedFetch(x, s, server, NewRequest(x.domain, page), tick);
    FetchBooked(x, s, server, NewRequest(x.domain, page), tick);
  }

  /** From a fresh breaker the downloads are exactly min(threshold, max_attempts + 1) if and only if the
      attempts run out before the trip or the retry after the trip asks before the cool-down is over. */
  lemma FreshBreaker<S(!new)>(x: Setting<S>, s: StackState, server: S, page: nat, tick: nat)
    requires ValidStack(x.cfg, s) && AlwaysBlocks(x.serve) && BreakerAt(s.breakers, x.domain) == FRESH
    ensures var (limit, attempts) := (Limit(x.cfg.circuit), Budget(x.cfg.maxAttempts));
      Fetch(x, s, server, NewRequest(x.domain, page), tick).downloads == Least(limit, attempts + 1) <==>
      attempts < limit || x.clock(tick + 2 * limit) - x.clock(tick + 2 * limit - 1) < x.cfg.circuit.cooldownSeconds
  {
    hide Fetch;
    PermanentBlocker(x, s, server, page, tick);
    var limit, attempts := Limit(x.cfg.circuit), Budget(x.cfg.maxAttempts);
    assert forall j: nat :: j < limit ==> !RefusedAt(x, FRESH, tick, j);
    if limit <= attempts {
      assert RefusedAt(x, FRESH, tick, limit) <==>
             x.clock(tick + 2 * limit) - x.clock(tick + 2 * limit - 1) < x.cfg.circuit.cooldownSeconds;
    }
  }

  // ----- The crawl -----

  /** Where the crawl stands: `next` is the page to fetch, none once it is over; `seen` counts the entries of the
      pages delivered, mappable or not. */
  datatype Walk<S> = Walk(
    stack: StackState, server: S, tick: nat, next: Option<nat>, items: seq<RawProduct>,
    pages: nat, seen: nat, downloads: nat)

  function Start<S>(s: StackState, server: S): Walk<S> {
    Walk(s, server, 0, Some(1), [], 0, 0, 0)
  }

  /** Fetch the next page, take its items, follow it if it had entries; a ban or a skip ends the crawl. */
  ghost function Advance<S>(x: Setting<S>, w: Walk<S>): (w': Walk<S>)
    requires ValidStack(x.cfg, w.stack)
    ensures ValidStack(x.cfg, w'.stack)
  {
    if w.next.None? then w
    else
      var f := Fetch(x, w.stack, w.server, NewRequest(x.domain, w.next.value), w.tick);
      if f.end.Page?
      then Walk(f.stack, f.server, f.tick,
                if f.end.entries == [] then None else Some(w.next.value + 1),
                w.items + Mapped(f.end.entries), w.pages + 1, w.seen + |f.end.entries|, w.downloads + f.downloads)
      else Walk(f.stack, f.server, f.tick, None, w.items, w.pages, w.seen, w.downloads + f.downloads)
  }

  /** A delivered page advances the crawl; anything else ends it where it is. */
  lemma Advanced<S>(x: Setting<S>, w: Walk<S>)
    requires ValidStack(x.cfg, w.stack) && w.next.Some?
    ensures var f := Fetch(x, w.stack, w.server, NewRequest(x.domain, w.next.value), w.tick);
      Advance(x, w) == if f.end.Page?
        then Walk(f.stack, f.server, f.tick, if f.end.entries == [] then None else Some(w.next.value + 1),
                  w.items + Mapped(f.end.entries), w.pages + 1, w.seen + |f.end.entries|, w.downloads + f.downloads)
        else Walk(f.stack, f.server, f.tick, None, w.items, w.pages, w.seen, w.downloads + f.downloads)
  {
    hide Fetch;
  }

  lemma StaysPut<S>(x: Setting<S>, w: Walk<S>)
    requires ValidStack(x.cfg, w.stack) && w.next.None?
    ensures Advance(x, w) == w
  {
  }

  /** The crawl after k steps; once it is over it stays as it is. */
  ghost function Crawled<S>(x: Setting<S>, s: StackState, server: S, k: nat): (w: Walk<S>)
    requires ValidStack(x.cfg, s)
    ensures ValidStack(x.cfg, w.stack)
  {
    if k == 0 then Start(s, server) else Advance(x, Crawled(x, s, server, k - 1))
  }

  lemma NothingCrawled<S>(x: Setting<S>, s: StackState, server: S)
    requires ValidStack(x.cfg, s)
    ensures Crawled(x, s, server, 0) == Start(s, server)
  {
  }

  lemma NextStep<S>(x: Setting<S>, s: StackState, server: S, k: nat)
    requires ValidStack(x.cfg, s)
    ensures Crawled(x, s, server, k + 1) == Advance(x, Crawled(x, s, server, k))
  {
    hide Advance;
  }

  lemma {:induction false} OverStaysOver<S>(x: Setting<S>, s: StackState, server: S, k: nat, m: nat)
    requires ValidStack(x.cfg, s) && k <= m
    requires Crawled(x, s, server, k).next.None?
    ensures Crawled(x, s, server, m) == Crawled(x, s, server, k)
    decreases m
  {
    hide Advance;
    if k < m {
      OverStaysOver(x, s, server, k, m - 1);
      StaysPut(x, Crawled(x, s, server, m - 1));
    }
  }

  /** The crawl's sink holds an event for each ban counted, and its downloads are the pages collected, the
      bans and the retries counted. */
  lemma {:induction false} CrawlBooked<S>(x: Setting<S>, s0: StackState, server: S, k: nat)
    requires ValidStack(x.cfg, s0)
    ensures var w := Crawled(x, s0, server, k);
      && |w.stack.sink| + s0.stats.banEvents == |s0.sink| + w.stack.stats.banEvents
      && w.downloads + AllRetries(s0.stats) + s0.stats.banEvents ==
         w.pages + AllRetries(w.stack.stats) + w.stack.stats.banEvents
  {
    hide Advance;
    if k > 0 {
      CrawlBooked(x, s0, server, k - 1);
      AdvanceBooked(x, Crawled(x, s0, server, k - 1));
    }
  }

  lemma AdvanceBooked<S>(x: Setting<S>, w: Walk<S>)
    requires ValidStack(x.cfg, w.stack)
    ensures var (s, w') := (w.stack, Advance(x, w));
      && |w'.stack.sink| + s.stats.banEvents == |s.sink| + w'.stack.stats.banEvents
      && w'.downloads + w.pages + AllRetries(s.stats) + s.stats.banEvents ==
         w.downloads + w'.pages + AllRetries(w'.stack.stats) + w'.stack.stats.banEvents
  {
    hide Fetch;
    if w.next.Some? {
      FetchBooked(x, w.stack, w.server, NewRequest(x.domain, w.next.value), w.tick);
      Advanced(x, w);
    }
  }
}
