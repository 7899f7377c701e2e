/** The end-to-end theorem: a crawl through the stack against the server that blocks every identity
    after a budget of requests. */
module BlockedCrawl {
  import opened Wrappers
  import opened Division
  import opened Classifier
  import opened Circuit
  import opened CircuitBreakers
  import opened Identities
  import opened Stack
  import opened Runs
  import opened Harness
  import opened Spider
  import opened Crawl

  /** The User-Agent the server sees after `slot` rotations. */
  function Caller(cfg: Config, slot: nat): string
    requires slot <= |cfg.profiles|
  {
    if slot == 0 then cfg.contact else cfg.profiles[slot - 1].userAgent
  }

  /** The contact address and the catalogue's browsers are told apart by their User-Agents, and none
      sends the harness's own identity header. */
  ghost predicate ToldApart(cfg: Config) {
    && cfg.profiles != []
    && (forall i :: 0 <= i <= |cfg.profiles| ==> Caller(cfg, i) != "")
    && (forall i, j :: 0 <= i < j <= |cfg.profiles| ==> Caller(cfg, i) != Caller(cfg, j))
    && (forall p :: p in cfg.profiles ==> IDENTITY_HEADER !in p.headers)
  }

  const DEFAULT_CONTACT := "AcquireIntelBot/0.1 (+contact@example.com)"

  /** The built-in catalogue is told apart with any contact address that is none of its User-Agents, the
      default one for instance. */
  lemma CatalogueToldApart(cfg: Config)
    requires cfg.profiles == CATALOGUE && cfg.contact != ""
    ensures (forall p :: p in CATALOGUE ==> p.userAgent != cfg.contact) <==> ToldApart(cfg)
    ensures cfg.contact == DEFAULT_CONTACT ==> ToldApart(cfg)
  {
    AgentsDiffer();
    NoIdentityHeaders();
    if ToldApart(cfg) {
      forall p | p in CATALOGUE ensures p.userAgent != cfg.contact {
        var i :| 0 <= i < |CATALOGUE| && CATALOGUE[i] == p;
        assert Caller(cfg, 0) != Caller(cfg, i + 1);
      }
    }
    assert |DEFAULT_CONTACT| == 42;
  }

  lemma NoIdentityHeaders()
    ensures forall p :: p in CATALOGUE ==> IDENTITY_HEADER !in p.headers
  {
  }

  /** A crawl of the blocking scenario. */
  ghost predicate Blocking(x: Setting<Counts>, h: Harness) {
    && h.scenario == BlockAfterN && h.cfg.blockAfter >= 1 && h.cfg.pageSize >= 1
    && x.serve == Serve(h) && ToldApart(x.cfg)
  }

  /** A retry after a first block at this clock reading passes the breaker: it did not trip, or has cooled
      down by then. */
  predicate RetryPasses(x: Setting<Counts>, tick: nat) {
    TripsAtOnce(x.cfg.circuit) ==> x.clock(tick + 2) - x.clock(tick + 1) >= x.cfg.circuit.cooldownSeconds
  }

  /** The clock reading at which the request after the budget of `slot` asks: two readings for each page and
      for each rotation before it. */
  function BudgetEnd(h: Harness, slot: nat): nat {
    2 * ((slot + 1) * Budget(h.cfg.blockAfter) + slot)
  }

  /** From `slot` on, how many identities the crawl gets to: each change needs its retry to pass the breaker. */
  function RotationsFrom(x: Setting<Counts>, h: Harness, slot: nat): (r: nat)
    requires slot <= |x.cfg.profiles|
    ensures slot <= r <= |x.cfg.profiles|
    ensures forall i :: slot <= i < r ==> RetryPasses(x, BudgetEnd(h, i))
    ensures r < |x.cfg.profiles| ==> !RetryPasses(x, BudgetEnd(h, r))
    decreases |x.cfg.profiles| - slot
  {
    if slot == |x.cfg.profiles| || !RetryPasses(x, BudgetEnd(h, slot)) then slot else RotationsFrom(x, h, slot + 1)
  }

  /** How often the stack gets to change to an identity the server has not seen: as often as there are
      profiles, unless no attempt is allowed or a tripped breaker refuses a retry before that. */
  function Rotations(x: Setting<Counts>, h: Harness): nat {
    if x.cfg.maxAttempts >= 1 then RotationsFrom(x, h, 0) else 0
  }

  /** With a threshold of two or more every profile gets its turn. */
  lemma ToleratesOneFailure(x: Setting<Counts>, h: Harness, slot: nat)
    requires x.cfg.circuit.failureThreshold >= 2 && slot <= |x.cfg.profiles|
    ensures RotationsFrom(x, h, slot) == |x.cfg.profiles|
  {
  }

  /** The statistics after so many rotations. */
  function Rotated(x: Setting<Counts>, st: Stats, rotations: nat): Stats {
    st.(identityRotations := st.identityRotations + rotations,
        circuitTripped := st.circuitTripped + (if TripsAtOnce(x.cfg.circuit) then rotations else 0))
  }

  ghost predicate AtSlot(cfg: Config, s: StackState, slot: nat) {
    && ValidStack(cfg, s) && slot <= |cfg.profiles|
    && (s.escalated <==> slot > 0)
    && s.identities == (if slot == 0 then FIRST else IdentityState(slot - 1, slot - 1))
  }

  function Seen(h: Harness, counts: Counts, caller: string): nat {
    CountOf(counts, h.scenario, caller)
  }

  /** Identities before `slot` have used up their budget, this one has used `used` of it, later ones none. */
  ghost predicate Budgets(x: Setting<Counts>, h: Harness, counts: Counts, slot: nat, used: nat)
    requires slot <= |x.cfg.profiles|
  {
    && (forall j :: 0 <= j < slot ==> Seen(h, counts, Caller(x.cfg, j)) >= h.cfg.blockAfter)
    && Seen(h, counts, Caller(x.cfg, slot)) == used
    && (forall j :: slot < j <= |x.cfg.profiles| ==> Seen(h, counts, Caller(x.cfg, j)) == 0)
  }

  /** The request carries nothing that would hide the stack's identity. */
  ghost predicate Plain(cfg: Config, req: Request, slot: nat) {
    && !req.infra && IDENTITY_HEADER !in req.headers
    && (slot == 0 ==> req.userAgent == None || req.userAgent == Some(cfg.contact))
  }

  lemma SeenAs(x: Setting<Counts>, h: Harness, s: StackState, req: Request, slot: nat)
    requires Blocking(x, h) && AtSlot(x.cfg, s, slot) && Plain(x.cfg, req, slot)
    ensures IdentityOf(h, Stamp(x.cfg, s, req)) == Caller(x.cfg, slot)
    ensures Plain(x.cfg, Stamp(x.cfg, s, req), slot)
  {
    assert Caller(x.cfg, slot) != "";
    if slot > 0 {
      var p := x.cfg.profiles[slot - 1];
      assert p in x.cfg.profiles;
      assert Build(x.cfg.profiles, s.identities).profile == p;
    }
  }

  lemma OneMoreSeen(x: Setting<Counts>, h: Harness, counts: Counts, slot: nat, used: nat)
    requires ToldApart(x.cfg) && slot <= |x.cfg.profiles| && Budgets(x, h, counts, slot, used)
    ensures Budgets(x, h, Bumped(counts, h.scenario, Caller(x.cfg, slot)), slot, used + 1)
  {
  }

  /** Within the budget, the page is delivered by the first download. */
  lemma WithinBudget(
    x: Setting<Counts>, h: Harness, s: StackState, counts: Counts, req: Request, tick: nat, slot: nat, used: nat)
    requires Blocking(x, h) && AtSlot(x.cfg, s, slot) && Plain(x.cfg, req, slot) && Budgets(x, h, counts, slot, used)
    requires Circuit.Allow(x.cfg.circuit, BreakerAt(s.breakers, req.domain), x.clock(tick)).1 && used < h.cfg.blockAfter
    ensures var f := Fetch(x, s, counts, req, tick);
      && f.end == Page(HappyPage(h.catalogue, req.page, h.cfg.pageSize))
      && AtSlot(x.cfg, f.stack, slot) && Budgets(x, h, f.server, slot, used + 1)
      && BreakerAt(f.stack.breakers, req.domain) == FRESH && f.stack.stats == s.stats && f.tick == tick + 2
  {
    SeenAs(x, h, s, req, slot);
    OneMoreSeen(x, h, counts, slot, used);
    DeliveredAtOnce(x, s, counts, req, tick);
  }

  /** At the budget's end, one blocked download makes the stack present the next identity. */
  lemma BlockedAtBudgetsEnd(
    x: Setting<Counts>, h: Harness, s: StackState, counts: Counts, req: Request, tick: nat, slot: nat)
    returns (s': StackState, counts': Counts, retry: Request)
    requires Blocking(x, h) && AtSlot(x.cfg, s, slot) && Plain(x.cfg, req, slot)
    requires Budgets(x, h, counts, slot, h.cfg.blockAfter)
    requires x.cfg.maxAttempts >= 1 && slot < |x.cfg.profiles| && req.rotationAttempts == 0
    requires BreakerAt(s.breakers, req.domain) == FRESH
    ensures AtSlot(x.cfg, s', slot + 1) && Budgets(x, h, counts', slot + 1, 0) && Plain(x.cfg, retry, slot + 1)
    ensures retry.domain == req.domain && retry.page == req.page
    ensures Circuit.Allow(x.cfg.circuit, BreakerAt(s'.breakers, req.domain), x.clock(tick + 2)).1 <==>
            RetryPasses(x, tick)
    ensures s'.stats == Rotated(x, s.stats, 1)
    ensures Fetch(x, s, counts, req, tick) == OneMore(Fetch(x, s', counts', retry, tick + 2))
  {
    hide Fetch, IdentityOf, HappyPage;
    SeenAs(x, h, s, req, slot);
    OneMoreSeen(x, h, counts, slot, h.cfg.blockAfter);
    s', retry := RotatedOnce(x, s, counts, req, tick);
    counts' := Bumped(counts, h.scenario, Caller(x.cfg, slot));
    NextSlot(x.cfg, s, s', slot);
  }

  /** ... and the retry delivers the page. */
  lemma AtBudgetsEnd(x: Setting<Counts>, h: Harness, s: StackState, counts: Counts, req: Request, tick: nat, slot: nat)
    requires Blocking(x, h) && AtSlot(x.cfg, s, slot) && Plain(x.cfg, req, slot)
    requires Budgets(x, h, counts, slot, h.cfg.blockAfter)
    requires x.cfg.maxAttempts >= 1 && slot < |x.cfg.profiles| && req.rotationAttempts == 0
    requires BreakerAt(s.breakers, req.domain) == FRESH && RetryPasses(x, tick)
    ensures var f := Fetch(x, s, counts, req, tick);
      && f.end == Page(HappyPage(h.catalogue, req.page, h.cfg.pageSize))
      && AtSlot(x.cfg, f.stack, slot + 1) && Budgets(x, h, f.server, slot + 1, 1)
      && BreakerAt(f.stack.breakers, req.domain) == FRESH
      && f.stack.stats == Rotated(x, s.stats, 1) && f.tick == tick + 4
  {
    hide Fetch, Stamp, Budgets, AtSlot, Plain, HappyPage, RetryPasses;
    var s', counts', retry := BlockedAtBudgetsEnd(x, h, s, counts, req, tick, slot);
    WithinBudget(x, h, s', counts', retry, tick + 2, slot + 1, 0);
  }

  /** ... unless the breaker refuses it: then nothing but blocks came. */
  lemma StuckAtBudgetsEnd(
    x: Setting<Counts>, h: Harness, s: StackState, counts: Counts, req: Request, tick: nat, slot: nat)
    requires Blocking(x, h) && AtSlot(x.cfg, s, slot) && Plain(x.cfg, req, slot)
    requires Budgets(x, h, counts, slot, h.cfg.blockAfter) && req.rotationAttempts == 0
    requires x.cfg.maxAttempts >= 1 ==> slot < |x.cfg.profiles| && !RetryPasses(x, tick)
    requires BreakerAt(s.breakers, req.domain) == FRESH
    ensures BlockedAlong(x, s, counts, req, tick)
    ensures x.cfg.maxAttempts >= 1 ==> Fetch(x, s, counts, req, tick).end == Refusal
  {
    hide Fetch, Stamp, BlockedAlong, Budgets, IdentityOf, AtSlot;
    SeenAs(x, h, s, req, slot);
    StackAtSlot(x.cfg, s, slot);
    UsedInSlot(x, h, counts, slot, h.cfg.blockAfter);
    BlockedThenRefused(x, s, counts, req, tick);
  }

  lemma StackAtSlot(cfg: Config, s: StackState, slot: nat)
    requires AtSlot(cfg, s, slot)
    ensures ValidStack(cfg, s) && slot <= |cfg.profiles|
  {
  }

  lemma UsedInSlot(x: Setting<Counts>, h: Harness, counts: Counts, slot: nat, used: nat)
    requires slot <= |x.cfg.profiles| && Budgets(x, h, counts, slot, used)
    ensures Seen(h, counts, Caller(x.cfg, slot)) == used
  {
  }

  lemma NextSlot(cfg: Config, s: StackState, s': StackState, slot: nat)
    requires AtSlot(cfg, s, slot) && slot < |cfg.profiles| && ValidStack(cfg, s')
    requires s'.escalated
    requires s'.identities == if s.escalated then Identities.Rotate(cfg.profiles, s.identities) else s.identities
    ensures AtSlot(cfg, s', slot + 1)
  {
    if slot > 0 {
      DivisionIs(slot, 0, slot, |cfg.profiles|);
    }
  }

  // ----- All identities used up -----

  ghost predicate AllUsedUp(x: Setting<Counts>, h: Harness, counts: Counts) {
    forall j :: 1 <= j <= |x.cfg.profiles| ==> Seen(h, counts, Caller(x.cfg, j)) >= h.cfg.blockAfter
  }

  lemma SeenAsSomeProfile(x: Setting<Counts>, h: Harness, s: StackState, req: Request)
    requires Blocking(x, h) && ValidStack(x.cfg, s) && s.escalated
    requires !req.infra && IDENTITY_HEADER !in req.headers
    ensures IdentityOf(h, Stamp(x.cfg, s, req)) == Caller(x.cfg, s.identities.index + 1)
    ensures IDENTITY_HEADER !in Stamp(x.cfg, s, req).headers
  {
    var p := x.cfg.profiles[s.identities.index];
    assert p in x.cfg.profiles && p.userAgent == Caller(x.cfg, s.identities.index + 1) != "";
  }

  /** Then no retry helps: nothing but blocks comes, and the request ends as a ban or a skip. */
  lemma {:induction false} NeverDelivered(
    x: Setting<Counts>, h: Harness, s: StackState, counts: Counts, req: Request, tick: nat)
    requires Blocking(x, h) && ValidStack(x.cfg, s) && s.escalated && AllUsedUp(x, h, counts)
    requires !req.infra && IDENTITY_HEADER !in req.headers
    ensures BlockedAlong(x, s, counts, req, tick) && !Fetch(x, s, counts, req, tick).end.Page?
    decreases Remaining(x.cfg, req)
  {
    SeenAsSomeProfile(x, h, s, req);
    var (asked, a) := Admit(x.cfg, s, req, x.clock(tick));
    if a.Admitted? {
      var (counts', resp) := x.serve(counts, a.request);
      assert Classify(resp) == Blocked && resp.status == 403;
      var now, jitter := x.clock(tick + 1), x.jitter(tick);
      ReceiveOutcome(x.cfg, asked, a.request, resp, now, jitter);
      StaysEscalated(x.cfg, asked, a.request, resp, now, jitter);
      var (s', o) := Receive(x.cfg, asked, a.request, resp, now, jitter);
      if o.Requeued? {
        NeverDelivered(x, h, s', counts', o.request, tick + 2);
      }
    }
  }

  // ----- The whole crawl -----

  /** After k delivered pages: which identity is in use, how much of its budget is gone, what has been
      collected, and that nothing but rotations was counted. */
  ghost predicate Standing(
    x: Setting<Counts>, h: Harness, s0: StackState, w: Walk<Counts>, k: nat, slot: nat, used: nat)
  {
    && AtSlot(x.cfg, w.stack, slot) && Budgets(x, h, w.server, slot, used) && slot <= Rotations(x, h)
    && k == slot * h.cfg.blockAfter + used && used <= h.cfg.blockAfter && (used == 0 ==> slot == 0)
    && BreakerAt(w.stack.breakers, x.domain) == FRESH
    && w.stack.stats == Rotated(x, s0.stats, slot) && w.tick == 2 * (k + slot)
    && w.pages == k && w.items == Mapped(h.catalogue[..Covered(|h.catalogue|, k, h.cfg.pageSize)])
    && w.seen == Covered(|h.catalogue|, k, h.cfg.pageSize)
  }

  /** The stack is at its start, the server has seen none of its identities. */
  ghost predicate AtStart(x: Setting<Counts>, h: Harness, s0: StackState, counts: Counts) {
    && ValidStack(x.cfg, s0) && AtSlot(x.cfg, s0, 0) && Budgets(x, h, counts, 0, 0)
    && BreakerAt(s0.breakers, x.domain) == FRESH
  }

  /** A chain as it is built and a server that has counted nothing are at the start. */
  lemma StartsFresh(x: Setting<Counts>, h: Harness, s0: StackState)
    requires ValidStack(x.cfg, s0) && s0.breakers == map[] && s0.identities == FIRST && !s0.escalated
    ensures AtStart(x, h, s0, map[])
  {
  }

  /** How many requests all identities within reach may make together. */
  function Allowance(x: Setting<Counts>, h: Harness): int {
    (Rotations(x, h) + 1) * h.cfg.blockAfter
  }

  /** While the allowance lasts, the next page is delivered. */
  lemma NextPage(x: Setting<Counts>, h: Harness, s0: StackState, w: Walk<Counts>, k: nat, slot: nat, used: nat)
    returns (slot': nat, used': nat)
    requires Blocking(x, h) && Standing(x, h, s0, w, k, slot, used) && w.next == Some(k + 1)
    requires k < Allowance(x, h)
    ensures var f := Fetch(x, w.stack, w.server, NewRequest(x.domain, k + 1), w.tick);
      && f.end == Page(HappyPage(h.catalogue, k + 1, h.cfg.pageSize))
      && AtSlot(x.cfg, f.stack, slot') && Budgets(x, h, f.server, slot', used')
      && BreakerAt(f.stack.breakers, x.domain) == FRESH
      && f.stack.stats == Rotated(x, s0.stats, slot') && f.tick == 2 * (k + 1 + slot')
    ensures k + 1 == slot' * h.cfg.blockAfter + used' && 1 <= used' <= h.cfg.blockAfter && slot' <= Rotations(x, h)
  {
    hide Fetch;
    var b, req := h.cfg.blockAfter, NewRequest(x.domain, k + 1);
    if used < b {
      WithinBudget(x, h, w.stack, w.server, req, w.tick, slot, used);
      slot', used' := slot, used + 1;
    } else {
      SlotsLeft(Rotations(x, h), slot, b);
      assert w.tick == BudgetEnd(h, slot) && RetryPasses(x, w.tick);
      AtBudgetsEnd(x, h, w.stack, w.server, req, w.tick, slot);
      slot', used' := slot + 1, 1;
    }
  }

  lemma SlotsLeft(profiles: nat, slot: nat, b: nat)
    ensures slot * b + b == (slot + 1) * b
    ensures slot * b + b < (profiles + 1) * b ==> slot < profiles
  {
    assert slot * b + b == (slot + 1) * b;
    if profiles < slot {
      MultipleGrows(profiles + 1, slot + 1, b);
    }
  }

  lemma StandsAfter(x: Setting<Counts>, h: Harness, s0: StackState, w: Walk<Counts>, k: nat, slot: nat, used: nat)
    returns (slot': nat, used': nat)
    requires Blocking(x, h) && Standing(x, h, s0, w, k, slot, used) && w.next == Some(k + 1)
    requires k < Allowance(x, h)
    ensures Standing(x, h, s0, Advance(x, w), k + 1, slot', used')
    ensures Advance(x, w).next == if HappyPage(h.catalogue, k + 1, h.cfg.pageSize) == [] then None else Some(k + 2)
  {
    slot', used' := NextPage(x, h, s0, w, k, slot, used);
    ItemsCollected(h.catalogue, k, h.cfg.pageSize);
    Advanced(x, w);
  }

  lemma NothingYet(h: Harness)
    ensures Mapped(h.catalogue[..Covered(|h.catalogue|, 0, h.cfg.pageSize)]) == []
    ensures Covered(|h.catalogue|, 0, h.cfg.pageSize) == 0
  {
  }

  lemma {:induction false} Reaches(x: Setting<Counts>, h: Harness, s0: StackState, counts: Counts, k: nat)
    returns (slot: nat, used: nat)
    requires Blocking(x, h) && AtStart(x, h, s0, counts)
    requires k < Pages(|h.catalogue|, h.cfg.pageSize) && k <= Allowance(x, h)
    ensures Standing(x, h, s0, Crawled(x, s0, counts, k), k, slot, used)
    ensures Crawled(x, s0, counts, k).next == Some(k + 1)
  {
    hide Advance, Fetch, HappyPage, Pages, ToldApart, AtSlot, Budgets, Mapped, Covered;
    if k == 0 {
      slot, used := 0, 0;
      NothingYet(h);
    } else {
      slot, used := Reaches(x, h, s0, counts, k - 1);
      slot, used := StandsAfter(x, h, s0, Crawled(x, s0, counts, k - 1), k - 1, slot, used);
      PageHasEntries(h.catalogue, k - 1, h.cfg.pageSize);
    }
  }

  function FullBudgetsBefore(pages: nat, b: nat): nat
    requires pages >= 1 && b >= 1
  {
    (pages - 1) / b
  }

  /** Everything was collected, and the statistics gained nothing but the rotations that the budgets force;
      each of them cost one download more. */
  ghost predicate Complete(x: Setting<Counts>, h: Harness, s0: StackState, w: Walk<Counts>)
    requires Blocking(x, h)
  {
    var pages := Pages(|h.catalogue|, h.cfg.pageSize);
    && w.next == None && w.pages == pages && w.items == Mapped(h.catalogue) && w.seen == |h.catalogue|
    && w.stack.stats == Rotated(x, s0.stats, FullBudgetsBefore(pages, h.cfg.blockAfter))
    && w.downloads == pages + FullBudgetsBefore(pages, h.cfg.blockAfter)
  }

  /** The pages the budgets allow were collected; the next one met nothing but blocks and ended the crawl, in
      a skip if the breaker refused one of its retries and in a ban event otherwise. */
  ghost predicate CutShort(x: Setting<Counts>, h: Harness, s0: StackState, w: Walk<Counts>)
    requires Blocking(x, h)
  {
    var (st, before, attempts) := (w.stack.stats, Rotated(x, s0.stats, Rotations(x, h)), Budget(x.cfg.maxAttempts));
    var r := LastDownloads(x, h);
    && w.next == None && w.pages == Allowance(x, h)
    && w.items == Mapped(AllowedEntries(x, h)) && w.seen == |AllowedEntries(x, h)|
    && st.banEvents == before.banEvents + (if r <= attempts then 0 else 1)
    && st.circuitSkipped == before.circuitSkipped + (if r <= attempts then 1 else 0)
    && st.circuitTripped == before.circuitTripped + TripsIn(x.cfg.circuit, FRESH, r)
    && Retries(st) == Retries(before) + Least(r, attempts)
    && w.downloads == Allowance(x, h) + Rotations(x, h) + r
  }

  /** The entries of the pages that all identities within reach may fetch together. */
  function AllowedEntries(x: Setting<Counts>, h: Harness): seq<Entry>
    requires h.cfg.blockAfter >= 1
  {
    h.catalogue[..Covered(|h.catalogue|, Allowance(x, h), h.cfg.pageSize)]
  }

  /** How many downloads the first request beyond the allowance makes, all of them blocked. */
  function LastDownloads(x: Setting<Counts>, h: Harness): nat {
    FirstRefusal(x, FRESH, BudgetEnd(h, Rotations(x, h)), Budget(x.cfg.maxAttempts), 0)
  }

  /** The crawl against the blocking server is the happy crawl exactly as long as the identities' budgets
      last. With P pages to fetch, b requests for each identity and U identities to rotate to (all profiles,
      none if no attempt is allowed, and fewer if a breaker that a single block trips refuses a retry): if
      P <= (U + 1) * b it ends with every item of the catalogue, once and in order, after P delivered pages,
      with floor((P - 1) / b) rotations, no ban event, no skip, and no trip but one for each rotation when
      the threshold is one; otherwise it is cut short after (U + 1) * b pages, as `CutShort` says. Whatever
      clock and jitter do, and however much longer one waits. */
  lemma EndToEnd(x: Setting<Counts>, h: Harness, s0: StackState, counts: Counts, k: nat)
    requires Blocking(x, h) && AtStart(x, h, s0, counts)
    requires k >= Pages(|h.catalogue|, h.cfg.pageSize)
    ensures if Pages(|h.catalogue|, h.cfg.pageSize) <= Allowance(x, h)
            then Complete(x, h, s0, Crawled(x, s0, counts, k))
            else CutShort(x, h, s0, Crawled(x, s0, counts, k))
  {
    hide Crawled, Pages;
    var pages := Pages(|h.catalogue|, h.cfg.pageSize);
    if pages <= Allowance(x, h) {
      WithinAllowance(x, h, s0, counts);
      OverStaysOver(x, s0, counts, pages, k);
    } else {
      BeyondAllowance(x, h, s0, counts);
      OverStaysOver(x, s0, counts, Allowance(x, h) + 1, k);
    }
  }

  lemma WithinAllowance(x: Setting<Counts>, h: Harness, s0: StackState, counts: Counts)
    requires Blocking(x, h) && AtStart(x, h, s0, counts)
    requires Pages(|h.catalogue|, h.cfg.pageSize) <= Allowance(x, h)
    ensures Complete(x, h, s0, Crawled(x, s0, counts, Pages(|h.catalogue|, h.cfg.pageSize)))
  {
    hide Crawled, Advance, Fetch, HappyPage, Pages, ToldApart, AtSlot, Budgets, Mapped;
    var pages, n, size := Pages(|h.catalogue|, h.cfg.pageSize), |h.catalogue|, h.cfg.pageSize;
    var slot, used := Reaches(x, h, s0, counts, pages - 1);
    slot, used := StandsAfter(x, h, s0, Crawled(x, s0, counts, pages - 1), pages - 1, slot, used);
    NextStep(x, s0, counts, pages - 1);
    PageHasEntries(h.catalogue, pages - 1, size);
    LastPageCovers(n, size);
    assert h.catalogue[..n] == h.catalogue;
    DivisionIs(pages - 1, slot, used - 1, h.cfg.blockAfter);
    CrawlBooked(x, s0, counts, pages);
  }

  lemma LastBudgetGone(x: Setting<Counts>, h: Harness, counts: Counts)
    requires h.cfg.blockAfter >= 1 && Budgets(x, h, counts, |x.cfg.profiles|, h.cfg.blockAfter)
    ensures AllUsedUp(x, h, counts)
  {
  }

  lemma BeyondAllowance(x: Setting<Counts>, h: Harness, s0: StackState, counts: Counts)
    requires Blocking(x, h) && AtStart(x, h, s0, counts)
    requires Pages(|h.catalogue|, h.cfg.pageSize) > Allowance(x, h)
    ensures CutShort(x, h, s0, Crawled(x, s0, counts, Allowance(x, h) + 1))
  {
    hide Crawled, Advance, Fetch, HappyPage, Pages, Mapped, ToldApart, Budgets, AllUsedUp, BlockedAlong, RefusedAt,
      EndsBlocked, CutShort, AllowedEntries;
    var k := Allowance(x, h);
    var slot, used := Reaches(x, h, s0, counts, k);
    var w := Crawled(x, s0, counts, k);
    var req := NewRequest(x.domain, k + 1);
    LastSlot(Rotations(x, h), slot, used, h.cfg.blockAfter);
    SlotsLeft(Rotations(x, h), slot, h.cfg.blockAfter);
    assert w.tick == BudgetEnd(h, slot);
    if x.cfg.maxAttempts >= 1 && slot == |x.cfg.profiles| {
      LastBudgetGone(x, h, w.server);
      NeverDelivered(x, h, w.stack, w.server, req, w.tick);
    } else {
      StuckAtBudgetsEnd(x, h, w.stack, w.server, req, w.tick, slot);
    }
    BlockedFetch(x, w.stack, w.server, req, w.tick);
    CrawlBooked(x, s0, counts, k);
    CutsShort(x, h, s0, w, used);
    NextStep(x, s0, counts, k);
  }

  lemma CutsShort(x: Setting<Counts>, h: Harness, s0: StackState, w: Walk<Counts>, used: nat)
    requires Blocking(x, h) && Standing(x, h, s0, w, Allowance(x, h), Rotations(x, h), used)
    requires w.next == Some(Allowance(x, h) + 1) && w.tick == BudgetEnd(h, Rotations(x, h))
    requires w.downloads + AllRetries(s0.stats) + s0.stats.banEvents ==
             w.pages + AllRetries(w.stack.stats) + w.stack.stats.banEvents
    requires EndsBlocked(x, w.stack, FRESH, Budget(x.cfg.maxAttempts), w.tick,
                         Fetch(x, w.stack, w.server, NewRequest(x.domain, Allowance(x, h) + 1), w.tick))
    ensures CutShort(x, h, s0, Advance(x, w))
  {
    hide Advance, Fetch, Mapped, Budgets, AtSlot, FirstRefusal, TripsIn, Blocking;
    StackAtSlot(x.cfg, w.stack, Rotations(x, h));
    FetchBooked(x, w.stack, w.server, NewRequest(x.domain, Allowance(x, h) + 1), w.tick);
    Advanced(x, w);
  }

  /** When the allowance is used up, the last identity is in use and its budget is gone. */
  lemma LastSlot(profiles: nat, slot: nat, used: nat, b: nat)
    requires slot <= profiles && used <= b && slot * b + used == (profiles + 1) * b && b > 0
    ensures slot == profiles && used == b
  {
    assert (slot + 1) * b == slot * b + b && (profiles + 1) * b == profiles * b + b;
    if slot < profiles {
      MultipleGrows(slot + 1, profiles + 1, b);
    }
  }
}
