/** The happy crawl, and the crawl against the server that rate-limits a burst: recovered exactly when
    the burst fits the retries. */
module RateLimitedCrawl {
  import opened Wrappers
  import opened Classifier
  import opened Circuit
  import opened CircuitBreakers
  import opened Stack
  import opened Runs
  import opened Harness
  import opened Spider
  import opened Crawl
  import BlockedCrawl

  /** How many requests of one identity are answered 429 before the pages come. */
  function Burst(h: Harness): nat {
    if h.scenario == RateLimit then Budget(h.cfg.rateLimitedBurst) else 0
  }

  ghost predicate Lenient(x: Setting<Counts>, h: Harness) {
    && (h.scenario == Happy || h.scenario == RateLimit) && h.cfg.pageSize >= 1
    && x.serve == Serve(h) && x.cfg.contact != ""
  }

  /** The stack presents the contact identity and its breaker is closed. */
  ghost predicate Honest(x: Setting<Counts>, s: StackState, domain: string) {
    ValidStack(x.cfg, s) && !s.escalated && BreakerAt(s.breakers, domain).state == Closed
  }

  ghost predicate Plain(x: Setting<Counts>, req: Request) {
    && !req.infra && IDENTITY_HEADER !in req.headers
    && (req.userAgent == None || req.userAgent == Some(x.cfg.contact))
  }

  function Seen(x: Setting<Counts>, h: Harness, counts: Counts): nat {
    CountOf(counts, h.scenario, x.cfg.contact)
  }

  /** After the burst, each page is delivered by its first download. */
  lemma AfterBurst(x: Setting<Counts>, h: Harness, s: StackState, counts: Counts, req: Request, tick: nat)
    requires Lenient(x, h) && Honest(x, s, req.domain) && Plain(x, req) && Seen(x, h, counts) >= Burst(h)
    ensures var f := Fetch(x, s, counts, req, tick);
      && f.end == Page(HappyPage(h.catalogue, req.page, h.cfg.pageSize)) && f.downloads == 1
      && Honest(x, f.stack, req.domain) && Seen(x, h, f.server) >= Burst(h) && f.stack.stats == s.stats
  {
    DeliveredAtOnce(x, s, counts, req, tick);
  }

  /** One 429: the wait and its retry, or the ban event. */
  lemma LimitedOnce(x: Setting<Counts>, h: Harness, s: StackState, counts: Counts, req: Request, tick: nat)
    returns (s': StackState, counts': Counts, retry: Request)
    requires Lenient(x, h) && Honest(x, s, req.domain) && Plain(x, req) && Seen(x, h, counts) < Burst(h)
    ensures Honest(x, s', req.domain) && Plain(x, retry) && Seen(x, h, counts') == Seen(x, h, counts) + 1
    ensures req.backoffRetries < x.cfg.backoff.maxRetries ==>
      && s'.stats == s.stats.(backoffRetries := s.stats.backoffRetries + 1)
      && retry.backoffRetries == req.backoffRetries + 1 && retry.rotationAttempts == req.rotationAttempts
      && retry.page == req.page && retry.domain == req.domain
      && Fetch(x, s, counts, req, tick) == OneMore(Fetch(x, s', counts', retry, tick + 2))
    ensures req.backoffRetries >= x.cfg.backoff.maxRetries ==>
      var f := Fetch(x, s, counts, req, tick);
      && f.end.Banned? && f.end.event.kind == RateLimitedBan && f.downloads == 1
      && f.stack.stats == GivenUp(s.stats, 0)
  {
    hide Receive;
    var (asked, a) := Admit(x.cfg, s, req, x.clock(tick));
    var (served, resp) := x.serve(counts, a.request);
    ReceiveRateLimited(x.cfg, asked, a.request, resp, x.clock(tick + 1), x.jitter(tick));
    var (received, o) := Receive(x.cfg, asked, a.request, resp, x.clock(tick + 1), x.jitter(tick));
    s', counts', retry := received, served, if o.Waiting? then o.request else req;
  }

  /** The statistics after `waits` backoff retries and one rate-limit ban event. */
  function GivenUp(st: Stats, waits: nat): Stats {
    st.(backoffRetries := st.backoffRetries + waits, backoffExhausted := st.backoffExhausted + 1,
        banEvents := st.banEvents + 1, bans := st.bans + multiset{RateLimitedBan})
  }

  /** A request that has used exactly as many retries as the server has counted requests. */
  lemma {:induction false} ThroughBurst(
    x: Setting<Counts>, h: Harness, s: StackState, counts: Counts, req: Request, tick: nat)
    requires Lenient(x, h) && Honest(x, s, req.domain) && Plain(x, req)
    requires req.backoffRetries == Seen(x, h, counts) <= Burst(h)
    requires req.backoffRetries <= Budget(x.cfg.backoff.maxRetries)
    ensures var f := Fetch(x, s, counts, req, tick);
      if Burst(h) <= Budget(x.cfg.backoff.maxRetries)
      then && f.end == Page(HappyPage(h.catalogue, req.page, h.cfg.pageSize))
           && f.downloads == Burst(h) - req.backoffRetries + 1
           && Honest(x, f.stack, req.domain) && Seen(x, h, f.server) >= Burst(h)
           && f.stack.stats == s.stats.(backoffRetries := s.stats.backoffRetries + (Burst(h) - req.backoffRetries))
      else && f.end.Banned? && f.end.event.kind == RateLimitedBan
           && f.downloads == Budget(x.cfg.backoff.maxRetries) - req.backoffRetries + 1
           && f.stack.stats == GivenUp(s.stats, Budget(x.cfg.backoff.maxRetries) - req.backoffRetries)
    decreases Burst(h) - req.backoffRetries
  {
    hide Fetch;
    if req.backoffRetries == Burst(h) {
      AfterBurst(x, h, s, counts, req, tick);
    } else {
      var s', counts', retry := LimitedOnce(x, h, s, counts, req, tick);
      if req.backoffRetries < x.cfg.backoff.maxRetries {
        ThroughBurst(x, h, s', counts', retry, tick + 2);
      }
    }
  }

  // ----- The whole crawl -----

  ghost predicate AtStart(x: Setting<Counts>, h: Harness, s0: StackState, counts: Counts) {
    ValidStack(x.cfg, s0) && Honest(x, s0, x.domain) && Seen(x, h, counts) == 0
  }

  /** After k >= 1 delivered pages: only the burst's backoffs were counted. */
  ghost predicate Standing(x: Setting<Counts>, h: Harness, s0: StackState, w: Walk<Counts>, k: nat) {
    && Honest(x, w.stack, x.domain) && Seen(x, h, w.server) >= Burst(h)
    && w.stack.stats == s0.stats.(backoffRetries := s0.stats.backoffRetries + Burst(h))
    && w.pages == k && w.items == Mapped(h.catalogue[..Covered(|h.catalogue|, k, h.cfg.pageSize)])
    && w.seen == Covered(|h.catalogue|, k, h.cfg.pageSize)
  }

  lemma FirstPage(x: Setting<Counts>, h: Harness, s0: StackState, counts: Counts)
    requires Lenient(x, h) && AtStart(x, h, s0, counts)
    ensures var w := Advance(x, Start(s0, counts));
      if Burst(h) <= Budget(x.cfg.backoff.maxRetries)
      then Standing(x, h, s0, w, 1)
           && w.next == if HappyPage(h.catalogue, 1, h.cfg.pageSize) == [] then None else Some(2)
      else w.next == None && w.pages == 0 && w.items == [] && w.seen == 0
           && w.stack.stats == GivenUp(s0.stats, Budget(x.cfg.backoff.maxRetries))
  {
    hide Advance, Fetch;
    ThroughBurst(x, h, s0, counts, NewRequest(x.domain, 1), 0);
    Advanced(x, Start(s0, counts));
    ItemsCollected(h.catalogue, 0, h.cfg.pageSize);
    assert h.catalogue[..Covered(|h.catalogue|, 0, h.cfg.pageSize)] == [];
  }

  lemma NextPage(x: Setting<Counts>, h: Harness, s0: StackState, w: Walk<Counts>, k: nat)
    requires Lenient(x, h) && Standing(x, h, s0, w, k) && w.next == Some(k + 1)
    ensures Standing(x, h, s0, Advance(x, w), k + 1)
    ensures Advance(x, w).next == if HappyPage(h.catalogue, k + 1, h.cfg.pageSize) == [] then None else Some(k + 2)
  {
    hide Advance, Fetch;
    AfterBurst(x, h, w.stack, w.server, NewRequest(x.domain, k + 1), w.tick);
    Advanced(x, w);
    ItemsCollected(h.catalogue, k, h.cfg.pageSize);
  }

  lemma {:induction false} Reaches(x: Setting<Counts>, h: Harness, s0: StackState, counts: Counts, k: nat)
    requires Lenient(x, h) && AtStart(x, h, s0, counts) && Burst(h) <= Budget(x.cfg.backoff.maxRetries)
    requires 1 <= k <= Pages(|h.catalogue|, h.cfg.pageSize)
    ensures Standing(x, h, s0, Crawled(x, s0, counts, k), k)
    ensures Crawled(x, s0, counts, k).next == if k == Pages(|h.catalogue|, h.cfg.pageSize) then None else Some(k + 1)
  {
    hide Crawled, Advance, Fetch, HappyPage, Mapped, Covered;
    NextStep(x, s0, counts, k - 1);
    PageHasEntries(h.catalogue, k - 1, h.cfg.pageSize);
    if k == 1 {
      FirstPage(x, h, s0, counts);
      NothingCrawled(x, s0, counts);
    } else {
      Reaches(x, h, s0, counts, k - 1);
      NextPage(x, h, s0, Crawled(x, s0, counts, k - 1), k - 1);
    }
  }

  /** The rate-limited crawl recovers if and only if the burst fits the retries: then it collects every
      item, once and in order, at the price of exactly `burst` backoff retries; otherwise it collects
      nothing and records exactly one ban event, of the rate-limit kind, after max_retries waits. A happy
      server has a burst of none, so its crawl always collects everything and counts nothing. */
  lemma RateLimitRecovery(x: Setting<Counts>, h: Harness, s0: StackState, counts: Counts, k: nat)
    requires Lenient(x, h) && AtStart(x, h, s0, counts) && k >= Pages(|h.catalogue|, h.cfg.pageSize)
    ensures var w := Crawled(x, s0, counts, k);
      && w.next == None
      && if Burst(h) <= Budget(x.cfg.backoff.maxRetries)
         then w.pages == Pages(|h.catalogue|, h.cfg.pageSize) && w.items == Mapped(h.catalogue)
              && w.seen == |h.catalogue| && w.downloads == w.pages + Burst(h)
              && w.stack.stats == s0.stats.(backoffRetries := s0.stats.backoffRetries + Burst(h))
         else w.pages == 0 && w.items == [] && w.seen == 0 && w.downloads == Budget(x.cfg.backoff.maxRetries) + 1
              && w.stack.stats == GivenUp(s0.stats, Budget(x.cfg.backoff.maxRetries))
  {
    hide Crawled, Advance, Fetch, HappyPage, Pages;
    CrawlBooked(x, s0, counts, k);
    if Burst(h) <= Budget(x.cfg.backoff.maxRetries) {
      var pages := Pages(|h.catalogue|, h.cfg.pageSize);
      Reaches(x, h, s0, counts, pages);
      LastPageCovers(|h.catalogue|, h.cfg.pageSize);
      assert h.catalogue[..|h.catalogue|] == h.catalogue;
      OverStaysOver(x, s0, counts, pages, k);
    } else {
      FirstPage(x, h, s0, counts);
      NothingCrawled(x, s0, counts);
      NextStep(x, s0, counts, 0);
      OverStaysOver(x, s0, counts, 1, k);
    }
  }

  /** The refinement: over the same catalogue and page size, the crawl against the blocking server
      collects exactly what the happy crawl collects, as long as the budgets last. */
  lemma BlockedRefinesHappy(
    x: Setting<Counts>, h: Harness, s: StackState, counts: Counts,
    x': Setting<Counts>, h': Harness, s': StackState, counts': Counts, k: nat)
    requires BlockedCrawl.Blocking(x, h) && BlockedCrawl.AtStart(x, h, s, counts)
    requires Lenient(x', h') && h'.scenario == Happy && AtStart(x', h', s', counts')
    requires h'.catalogue == h.catalogue && h'.cfg.pageSize == h.cfg.pageSize
    requires Pages(|h.catalogue|, h.cfg.pageSize) <= BlockedCrawl.Allowance(x, h)
    requires k >= Pages(|h.catalogue|, h.cfg.pageSize)
    ensures Crawled(x, s, counts, k).items == Crawled(x', s', counts', k).items
    ensures Crawled(x, s, counts, k).pages == Crawled(x', s', counts', k).pages
  {
    hide Crawled, Pages;
    BlockedCrawl.EndToEnd(x, h, s, counts, k);
    RateLimitRecovery(x', h', s', counts', k);
  }
}
