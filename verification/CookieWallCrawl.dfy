/** The crawl through a cookie wall: one retry under the same identity, which then carries the cookie. */
module CookieWallCrawl {
  import opened Wrappers
  import opened Classifier
  import opened Circuit
  import opened CircuitBreakers
  import opened Stack
  import opened Harness
  import opened Spider
  import opened Crawl

  /** The cookie jars that hold the session cookie, by jar key. */
  type Jars = set<Option<string>>

  /** The cookie middleware keeps the cookie of a blocked response in the request's jar and presents it
      with every later request of that jar. */
  function ServeWithCookies(h: Harness): (Jars, Request) -> (Jars, Response) {
    (jars: Jars, req: Request) =>
      var resp := Respond(h, 0, req.page, req.cookiejar in jars);
      (if resp.setCookie then jars + {req.cookiejar} else jars, resp)
  }

  ghost predicate Walled(x: Setting<Jars>, h: Harness) {
    h.scenario == CookieWall && h.cfg.pageSize >= 1 && x.serve == ServeWithCookies(h)
  }

  /** The fetch that starts at this clock reading gets a second download: one attempt is allowed, and the
      breaker either tolerates the first 403 or has cooled down by the time the retry asks. */
  predicate Through(x: Setting<Jars>, tick: nat) {
    && x.cfg.maxAttempts >= 1
    && (TripsAtOnce(x.cfg.circuit) ==> x.clock(tick + 2) - x.clock(tick + 1) >= x.cfg.circuit.cooldownSeconds)
  }

  /** The statistics after the first 403: the trip, if there is one, and the retry or the ban. */
  function Met(x: Setting<Jars>, st: Stats): Stats {
    var counted := st.(circuitTripped := st.circuitTripped + (if TripsAtOnce(x.cfg.circuit) then 1 else 0));
    if x.cfg.maxAttempts >= 1 then counted.(cookieRetries := st.cookieRetries + 1)
    else counted.(banEvents := st.banEvents + 1, bans := st.bans + multiset{BlockedBan})
  }

  /** ... and after a retry that its own domain's breaker refused. */
  function TurnedAway(x: Setting<Jars>, st: Stats): Stats {
    if x.cfg.maxAttempts >= 1 then Met(x, st).(circuitSkipped := st.circuitSkipped + 1) else Met(x, st)
  }

  ghost predicate Honest(x: Setting<Jars>, s: StackState, domain: string) {
    ValidStack(x.cfg, s) && !s.escalated && BreakerAt(s.breakers, domain) == FRESH
  }

  /** The request passes the breaker, as the contact identity and with nothing of its own. */
  ghost predicate PassesPlain(x: Setting<Jars>, s: StackState, req: Request, tick: nat) {
    && ValidStack(x.cfg, s) && !s.escalated && !req.infra && req.cookiejar == None
    && Circuit.Allow(x.cfg.circuit, BreakerAt(s.breakers, req.domain), x.clock(tick)).1
  }

  /** With the cookie in the default jar, each page is delivered by its first download. */
  lemma WithCookie(x: Setting<Jars>, h: Harness, s: StackState, jars: Jars, req: Request, tick: nat)
    requires Walled(x, h) && PassesPlain(x, s, req, tick) && None in jars
    ensures var f := Fetch(x, s, jars, req, tick);
      && f.end == Page(HappyPage(h.catalogue, req.page, h.cfg.pageSize)) && f.downloads == 1
      && Honest(x, f.stack, req.domain) && None in f.server && f.stack.stats == s.stats
  {
    DeliveredAtOnce(x, s, jars, req, tick);
  }

  /** Without it, the first download is blocked and counted. */
  lemma FirstDownload(x: Setting<Jars>, h: Harness, s: StackState, req: Request, tick: nat)
    returns (s': StackState, jars: Jars, retry: Request)
    requires Walled(x, h) && Honest(x, s, req.domain) && !req.infra && req.cookiejar == None
    requires req.rotationAttempts == 0
    ensures ValidStack(x.cfg, s') && !s'.escalated && s'.stats == Met(x, s.stats)
    ensures BreakerAt(s'.breakers, req.domain) == Circuit.RecordFailure(x.cfg.circuit, FRESH, x.clock(tick + 1))
    ensures None in jars && !retry.infra && retry.cookiejar == None && retry.domain == req.domain
    ensures retry.page == req.page
    ensures var f := Fetch(x, s, {}, req, tick);
      if x.cfg.maxAttempts >= 1 then f == OneMore(Fetch(x, s', jars, retry, tick + 2))
      else f.end.Banned? && f.downloads == 1 && f.stack == s'
  {
    hide Receive, HappyPage;
    var (asked, a) := Admit(x.cfg, s, req, x.clock(tick));
    var (served, resp) := x.serve({}, a.request);
    ReceiveCookieWall(x.cfg, asked, a.request, resp, x.clock(tick + 1), x.jitter(tick));
    var (received, o) := Receive(x.cfg, asked, a.request, resp, x.clock(tick + 1), x.jitter(tick));
    s', jars, retry := received, served, if o.Requeued? then o.request else req;
  }

  /** The retry, if one is allowed, gets through unless the breaker refuses it. */
  lemma WithoutCookie(x: Setting<Jars>, h: Harness, s: StackState, req: Request, tick: nat)
    requires Walled(x, h) && Honest(x, s, req.domain) && !req.infra && req.cookiejar == None
    requires req.rotationAttempts == 0
    ensures var f := Fetch(x, s, {}, req, tick);
      if Through(x, tick)
      then && f.end == Page(HappyPage(h.catalogue, req.page, h.cfg.pageSize)) && f.downloads == 2
           && Honest(x, f.stack, req.domain) && None in f.server && f.stack.stats == Met(x, s.stats)
      else && (if x.cfg.maxAttempts >= 1 then f.end.Refusal? else f.end.Banned?)
           && f.downloads == 1 && f.stack.stats == TurnedAway(x, s.stats)
  {
    hide Fetch, Stamp, HappyPage, ServeWithCookies;
    var s', jars, retry := FirstDownload(x, h, s, req, tick);
    if Through(x, tick) {
      WithCookie(x, h, s', jars, retry, tick + 2);
    } else if x.cfg.maxAttempts >= 1 {
      RefusedAtTheBreaker(x, s', jars, retry, tick + 2);
    }
  }

  /** After k >= 1 delivered pages: what the first 403 cost was counted, nothing else. */
  ghost predicate Standing(x: Setting<Jars>, h: Harness, s0: StackState, w: Walk<Jars>, k: nat) {
    && Honest(x, w.stack, x.domain) && None in w.server
    && w.stack.stats == Met(x, s0.stats)
    && w.pages == k && w.items == Mapped(h.catalogue[..Covered(|h.catalogue|, k, h.cfg.pageSize)])
    && w.seen == Covered(|h.catalogue|, k, h.cfg.pageSize)
  }

  ghost predicate AtStart(x: Setting<Jars>, s0: StackState) {
    Honest(x, s0, x.domain)
  }

  lemma FirstPage(x: Setting<Jars>, h: Harness, s0: StackState)
    requires Walled(x, h) && AtStart(x, s0)
    ensures var w := Advance(x, Start(s0, {}));
      if Through(x, 0)
      then Standing(x, h, s0, w, 1)
           && w.next == if HappyPage(h.catalogue, 1, h.cfg.pageSize) == [] then None else Some(2)
      else w.next == None && w.pages == 0 && w.items == [] && w.seen == 0 && w.stack.stats == TurnedAway(x, s0.stats)
  {
    hide Advance, Fetch;
    WithoutCookie(x, h, s0, NewRequest(x.domain, 1), 0);
    Advanced(x, Start(s0, {}));
    ItemsCollected(h.catalogue, 0, h.cfg.pageSize);
    assert h.catalogue[..Covered(|h.catalogue|, 0, h.cfg.pageSize)] == [];
  }

  lemma NextPage(x: Setting<Jars>, h: Harness, s0: StackState, w: Walk<Jars>, k: nat)
    requires Walled(x, h) && Standing(x, h, s0, w, k) && w.next == Some(k + 1)
    ensures Standing(x, h, s0, Advance(x, w), k + 1)
    ensures Advance(x, w).next == if HappyPage(h.catalogue, k + 1, h.cfg.pageSize) == [] then None else Some(k + 2)
  {
    hide Advance, Fetch;
    WithCookie(x, h, w.stack, w.server, NewRequest(x.domain, k + 1), w.tick);
    Advanced(x, w);
    ItemsCollected(h.catalogue, k, h.cfg.pageSize);
  }

  lemma {:induction false} Reaches(x: Setting<Jars>, h: Harness, s0: StackState, k: nat)
    requires Walled(x, h) && AtStart(x, s0) && Through(x, 0)
    requires 1 <= k <= Pages(|h.catalogue|, h.cfg.pageSize)
    ensures Standing(x, h, s0, Crawled(x, s0, {}, k), k)
    ensures Crawled(x, s0, {}, k).next == if k == Pages(|h.catalogue|, h.cfg.pageSize) then None else Some(k + 1)
  {
    hide Crawled, Advance, Fetch, HappyPage, Mapped, Covered;
    NextStep(x, s0, {}, k - 1);
    PageHasEntries(h.catalogue, k - 1, h.cfg.pageSize);
    if k == 1 {
      FirstPage(x, h, s0);
      NothingCrawled(x, s0, {});
    } else {
      Reaches(x, h, s0, k - 1);
      NextPage(x, h, s0, Crawled(x, s0, {}, k - 1), k - 1);
    }
  }

  /** The crawl gets through the wall if and only if one attempt is allowed and the first 403 does not leave
      the breaker open for the retry: then it collects every item, once and in order, at the price of
      exactly one cookie retry (and the trip, if the threshold is one), without rotation and without a ban.
      Otherwise it collects nothing and ends in one skip, or in one ban event when no attempt is allowed. */
  lemma ThroughTheWall(x: Setting<Jars>, h: Harness, s0: StackState, k: nat)
    requires Walled(x, h) && AtStart(x, s0) && k >= Pages(|h.catalogue|, h.cfg.pageSize)
    ensures var w := Crawled(x, s0, {}, k);
      && w.next == None
      && if Through(x, 0)
         then w.pages == Pages(|h.catalogue|, h.cfg.pageSize) && w.items == Mapped(h.catalogue)
              && w.seen == |h.catalogue| && w.stack.stats == Met(x, s0.stats) && w.downloads == w.pages + 1
         else w.pages == 0 && w.items == [] && w.seen == 0 && w.downloads == 1
              && w.stack.stats == TurnedAway(x, s0.stats)
  {
    hide Crawled, Advance, Fetch, HappyPage, Pages;
    CrawlBooked(x, s0, {}, k);
    if Through(x, 0) {
      var pages := Pages(|h.catalogue|, h.cfg.pageSize);
      Reaches(x, h, s0, pages);
      LastPageCovers(|h.catalogue|, h.cfg.pageSize);
      assert h.catalogue[..|h.catalogue|] == h.catalogue;
      OverStaysOver(x, s0, {}, pages, k);
    } else {
      FirstPage(x, h, s0);
      NothingCrawled(x, s0, {});
      NextStep(x, s0, {}, 0);
      OverStaysOver(x, s0, {}, 1, k);
    }
  }
}
