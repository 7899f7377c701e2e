/** The crawl of a site whose item fields were renamed: every page is delivered and nothing is mapped. */
module DriftCrawl {
  import opened Wrappers
  import opened Circuit
  import opened CircuitBreakers
  import opened Stack
  import opened Harness
  import opened Spider
  import opened Crawl

  ghost predicate Drifting(x: Setting<Counts>, h: Harness) {
    h.scenario == Drift && h.cfg.pageSize >= 1 && x.serve == Serve(h)
  }

  ghost predicate AtStart(x: Setting<Counts>, s0: StackState) {
    ValidStack(x.cfg, s0) && BreakerAt(s0.breakers, x.domain) == FRESH
  }

  /** After k pages: as many entries seen as on the happy site's pages, none mapped, nothing counted. */
  ghost predicate Standing(x: Setting<Counts>, h: Harness, s0: StackState, w: Walk<Counts>, k: nat) {
    && ValidStack(x.cfg, w.stack) && BreakerAt(w.stack.breakers, x.domain) == FRESH
    && w.stack.stats == s0.stats && w.pages == k && w.items == []
    && w.seen == Covered(|h.catalogue|, k, h.cfg.pageSize)
  }

  /** Each page is delivered by its first download. */
  lemma OnePage(x: Setting<Counts>, h: Harness, s: StackState, counts: Counts, req: Request, tick: nat)
    requires Drifting(x, h) && ValidStack(x.cfg, s) && !req.infra && BreakerAt(s.breakers, req.domain) == FRESH
    ensures var f := Fetch(x, s, counts, req, tick);
      && f.end == Page(DriftPage(h.catalogue, req.page, h.cfg.pageSize)) && f.downloads == 1
      && BreakerAt(f.stack.breakers, req.domain) == FRESH && f.stack.stats == s.stats
  {
    hide Fetch, Stamp, DriftPage, IdentityOf;
    StampKeepsAttempts(x.cfg, s, req);
    DeliveredAtOnce(x, s, counts, req, tick);
  }

  lemma NextPage(x: Setting<Counts>, h: Harness, s0: StackState, w: Walk<Counts>, k: nat)
    requires Drifting(x, h) && Standing(x, h, s0, w, k) && w.next == Some(k + 1)
    ensures Standing(x, h, s0, Advance(x, w), k + 1)
    ensures Advance(x, w).next == if HappyPage(h.catalogue, k + 1, h.cfg.pageSize) == [] then None else Some(k + 2)
  {
    hide Advance, Fetch, DriftPage, HappyPage, Mapped, Covered;
    OnePage(x, h, w.stack, w.server, NewRequest(x.domain, k + 1), w.tick);
    Advanced(x, w);
    DriftYieldsNothing(h.catalogue, k + 1, h.cfg.pageSize);
    ItemsCollected(h.catalogue, k, h.cfg.pageSize);
  }

  lemma NothingSeen(x: Setting<Counts>, h: Harness, s0: StackState, counts: Counts)
    requires AtStart(x, s0)
    ensures Standing(x, h, s0, Start(s0, counts), 0)
  {
  }

  lemma {:induction false} Reaches(x: Setting<Counts>, h: Harness, s0: StackState, counts: Counts, k: nat)
    requires Drifting(x, h) && AtStart(x, s0) && k <= Pages(|h.catalogue|, h.cfg.pageSize)
    ensures Standing(x, h, s0, Crawled(x, s0, counts, k), k)
    ensures Crawled(x, s0, counts, k).next == if k == Pages(|h.catalogue|, h.cfg.pageSize) then None else Some(k + 1)
  {
    hide Crawled, Advance, Fetch, HappyPage, Covered;
    if k == 0 {
      NothingSeen(x, h, s0, counts);
      NothingCrawled(x, s0, counts);
    } else {
      Reaches(x, h, s0, counts, k - 1);
      NextStep(x, s0, counts, k - 1);
      NextPage(x, h, s0, Crawled(x, s0, counts, k - 1), k - 1);
      PageHasEntries(h.catalogue, k - 1, h.cfg.pageSize);
    }
  }

  /** The drift crawl fetches as many pages as the happy one, with one download each, sees every entry of the
      catalogue, collects no item and counts nothing. */
  lemma SeesAndMapsNothing(x: Setting<Counts>, h: Harness, s0: StackState, counts: Counts, k: nat)
    requires Drifting(x, h) && AtStart(x, s0) && k >= Pages(|h.catalogue|, h.cfg.pageSize)
    ensures var w := Crawled(x, s0, counts, k);
      && w.next == None && w.pages == w.downloads == Pages(|h.catalogue|, h.cfg.pageSize)
      && w.items == [] && w.seen == |h.catalogue| && w.stack.stats == s0.stats
  {
    hide Crawled, Pages;
    var pages := Pages(|h.catalogue|, h.cfg.pageSize);
    Reaches(x, h, s0, counts, pages);
    LastPageCovers(|h.catalogue|, h.cfg.pageSize);
    OverStaysOver(x, s0, counts, pages, k);
    CrawlBooked(x, s0, counts, k);
  }
}
