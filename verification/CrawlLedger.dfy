/** From the crawl to the database: what the harness crawls hand to the pipelines, and what their runs
    commit and record. */
module CrawlLedger {
  import opened Wrappers
  import opened Positions
  import opened Classifier
  import opened CircuitBreakers
  import opened Stack
  import opened Runs
  import opened Harness
  import opened Spider
  import opened Crawl
  import BlockedCrawl
  import RateLimitedCrawl
  import CookieWallCrawl
  import DriftCrawl
  import opened Storage
  import opened Pipeline
  import opened RunHistory

  /** What the pipelines read off the items besides their ids: the parsed price, the source's currency, and
      item by item its description, its stock flag and the moment it is stamped with. */
  datatype Reading = Reading(
    parse: string -> Option<real>, currency: Option<string>,
    details: nat -> Details, inStock: nat -> Option<bool>, stampedAt: nat -> real)

  function Captures(rd: Reading, items: seq<RawProduct>): seq<Capture> {
    seq(|items|, i requires 0 <= i < |items| =>
      Capture(Raw(items[i].externalId, rd.details(i), rd.parse(items[i].rawPrice), rd.currency, rd.inStock(i)),
              rd.stampedAt(i)))
  }

  datatype DriftPolicy = DriftPolicy(minEntries: int, maxUnmappedRatio: real)

  /** Enough entries seen and too few of them mapped look like a format change; nothing seen does not. */
  predicate AssessDrift(policy: DriftPolicy, seen: nat, mapped: nat) {
    seen >= policy.minEntries && seen != 0 && ((seen - mapped) as real) / (seen as real) > policy.maxUnmappedRatio
  }

  /** Drift is exactly: something seen, at least min_entries, and more entries unmapped than the ratio of those
      seen. */
  lemma DriftExactly(policy: DriftPolicy, seen: nat, mapped: nat)
    ensures AssessDrift(policy, seen, mapped) <==>
            && seen > 0 && seen >= policy.minEntries
            && ((seen - mapped) as real) > policy.maxUnmappedRatio * (seen as real)
  {
    if seen > 0 {
      var (a, b, r) := ((seen - mapped) as real, seen as real, policy.maxUnmappedRatio);
      assert a / b * b == a;
      if a / b > r {
        assert (a / b - r) * b > 0.0;
      } else {
        assert (r - a / b) * b >= 0.0;
      }
    }
  }

  /** The crawl's run: context, reading of its items, drift policy and times. */
  datatype Frame = Frame(ctx: Context, reading: Reading, drift: DriftPolicy, startedAt: real, finishedAt: real)

  /** The run of a crawl that finished: its items in order, the drift verdict on its entries, the events of its
      sink, its downloads. */
  function RunOf<S>(fr: Frame, w: Walk<S>): RunInput {
    RunInput(fr.ctx, Captures(fr.reading, w.items), Ended(true, AssessDrift(fr.drift, w.seen, |w.items|)),
             |w.stack.sink|, w.downloads, fr.startedAt, fr.finishedAt)
  }

  /** The run of a crawl that saw exactly these entries, met so many bans and made so many downloads. */
  function RunWith(fr: Frame, entries: seq<Entry>, bans: nat, downloads: nat): RunInput {
    RunInput(fr.ctx, Captures(fr.reading, Mapped(entries)), Ended(true, Drifted(fr, entries)),
             bans, downloads, fr.startedAt, fr.finishedAt)
  }

  predicate Drifted(fr: Frame, entries: seq<Entry>) {
    AssessDrift(fr.drift, |entries|, |Mapped(entries)|)
  }

  // ----- What a run commits -----

  /** The product ids whose first capture of the run passes both gates. */
  ghost function PassingIds(th: Thresholds, s: Store, ctx: Context, captures: seq<Capture>): set<string> {
    set k: nat | k < |captures| && Keeps(th, s, ctx, captures, k) :: ItemOf(ctx, captures[k]).value.product.id
  }

  ghost predicate Keeps(th: Thresholds, s: Store, ctx: Context, captures: seq<Capture>, k: nat) {
    && FirstOfItsId(ctx, captures, k)
    && Passes(th, LatestAmounts(s.log, ctx.sourceId), ItemOf(ctx, captures[k]).value)
  }

  function BufferIds(buffer: seq<NormalizedItem>): set<string> {
    set i | 0 <= i < |buffer| :: buffer[i].observation.productId
  }

  lemma {:induction false} OneEach(buffer: seq<NormalizedItem>)
    requires forall i, j :: 0 <= i < j < |buffer| ==> buffer[i].observation.productId != buffer[j].observation.productId
    ensures |BufferIds(buffer)| == |buffer|
  {
    if buffer != [] {
      var n := |buffer| - 1;
      OneEach(buffer[..n]);
      assert BufferIds(buffer) == BufferIds(buffer[..n]) + {buffer[n].observation.productId};
    }
  }

  lemma BufferHoldsPassing(th: Thresholds, s: Store, run: RunInput)
    ensures BufferIds(Survivors(th, s, run).buffer) == PassingIds(th, s, run.ctx, run.captures)
    ensures |Survivors(th, s, run).buffer| == |PassingIds(th, s, run.ctx, run.captures)|
  {
    hide Passes, LatestAmounts, TakeInAll;
    var prior, buffer := LatestAmounts(s.log, run.ctx.sourceId), Survivors(th, s, run).buffer;
    BufferIsVetted(th, run.ctx, prior, run.captures);
    forall id | id in BufferIds(buffer) ensures id in PassingIds(th, s, run.ctx, run.captures) {
      var i :| 0 <= i < |buffer| && buffer[i].observation.productId == id;
      BufferExact(th, run.ctx, prior, run.captures, buffer[i]);
      var k: nat :| Kept(th, run.ctx, prior, run.captures, k, buffer[i]);
      assert Vetted(th, run.ctx, prior, run.captures, buffer[i]);
      assert Keeps(th, s, run.ctx, run.captures, k);
    }
    forall id | id in PassingIds(th, s, run.ctx, run.captures) ensures id in BufferIds(buffer) {
      var k: nat :| k < |run.captures| && Keeps(th, s, run.ctx, run.captures, k)
        && ItemOf(run.ctx, run.captures[k]).value.product.id == id;
      var item := ItemOf(run.ctx, run.captures[k]).value;
      BufferExact(th, run.ctx, prior, run.captures, item);
      assert Kept(th, run.ctx, prior, run.captures, k, item);
      var i :| 0 <= i < |buffer| && buffer[i] == item;
      assert buffer[i].observation.productId == id;
    }
    OneEach(buffer);
  }

  /** The appended part of the log holds each of these ids exactly once and nothing else. */
  ghost predicate AppendsOneEach(log: seq<Observation>, log': seq<Observation>, ids: set<string>) {
    && log <= log' && |log'| == |log| + |ids|
    && (forall i :: |log| <= i < |log'| ==> log'[i].productId in ids)
    && (forall id :: id in ids ==> exists i :: |log| <= i < |log'| && log'[i].productId == id)
    && (forall i, j :: |log| <= i < j < |log'| ==> log'[i].productId != log'[j].productId)
  }

  lemma BufferAppends(log: seq<Observation>, buffer: seq<NormalizedItem>, ids: set<string>)
    requires BufferIds(buffer) == ids && |buffer| == |ids|
    requires forall i, j :: 0 <= i < j < |buffer| ==> buffer[i].observation.productId != buffer[j].observation.productId
    ensures AppendsOneEach(log, log + Observations(buffer), ids)
  {
    var log' := log + Observations(buffer);
    forall i | |log| <= i < |log'| ensures log'[i].productId in ids {
      assert log'[i] == buffer[i - |log|].observation;
    }
    forall id | id in ids ensures exists i :: |log| <= i < |log'| && log'[i].productId == id {
      var i :| 0 <= i < |buffer| && buffer[i].observation.productId == id;
      assert log'[|log| + i].productId == id;
    }
  }

  /** A run that reached its end commits one observation for each distinct id whose first capture passes the
      gates, or nothing when the volume gate fires, and its row says so, with the run's ban events and
      requests. */
  lemma CommitsEachOnce(th: Thresholds, s: Store, run: RunInput)
    requires run.ending.Ended?
    ensures var (s', row) := (RunOnce(th, s, run), LedgerRow(th, s, run));
      var ids := PassingIds(th, s, run.ctx, run.captures);
      && s'.runs == s.runs + [row] && row.banEvents == run.banEvents && row.timings == Some(run.requests)
      && if Anomalous(th, s, run) then s'.log == s.log && row.itemsOk == 0
         else AppendsOneEach(s.log, s'.log, ids) && row.itemsOk == |ids|
  {
    hide PassingIds, Survivors, Anomalous, AppendsOneEach;
    BufferHoldsPassing(th, s, run);
    SurvivorsAreDistinct(th, s, run);
    FlushAppends(s, ToCommit(th, s, run));
    BufferAppends(s.log, Survivors(th, s, run).buffer, PassingIds(th, s, run.ctx, run.captures));
    assert Observations([]) == [];
    assert s.log + [] == s.log;
  }

  lemma SurvivorsAreDistinct(th: Thresholds, s: Store, run: RunInput)
    ensures var buffer := Survivors(th, s, run).buffer;
      forall i, j :: 0 <= i < j < |buffer| ==> buffer[i].observation.productId != buffer[j].observation.productId
  {
    BufferIsVetted(th, run.ctx, LatestAmounts(s.log, run.ctx.sourceId), run.captures);
  }

  /** The observation is that of the c-th mapped entry, one with id, price and title: the entry's id under the
      source's name, the parsed price of that same entry, its own stock flag and stamp, and the run's id. */
  ghost predicate FromEntry(fr: Frame, o: Observation, entry: Entry, c: nat) {
    && entry.externalId.Some? && entry.price.Some? && entry.titled
    && o.productId == CanonicalId(fr.ctx.sourceId, entry.externalId.value)
    && Some(o.amount) == fr.reading.parse(entry.price.value)
    && Some(o.currency) == fr.reading.currency
    && o.inStock == fr.reading.inStock(c) && o.capturedAt == fr.reading.stampedAt(c)
    && o.sourceId == fr.ctx.sourceId && o.runId == fr.ctx.runId
  }

  ghost predicate FromSome(fr: Frame, o: Observation, entries: seq<Entry>) {
    var at := Where(|entries|, (k: nat) => Mappable(entries, k));
    exists c: nat :: c < |at| && at[c] < |entries| && FromEntry(fr, o, entries[at[c]], c)
  }

  /** Whatever a crawl's run appends stands for one of the entries it saw. */
  lemma AppendedFromEntries(th: Thresholds, s: Store, fr: Frame, entries: seq<Entry>, bans: nat, downloads: nat, i: nat)
    requires |s.log| <= i < |RunOnce(th, s, RunWith(fr, entries, bans, downloads)).log|
    ensures FromSome(fr, RunOnce(th, s, RunWith(fr, entries, bans, downloads)).log[i], entries)
  {
    hide Captures, Mapped, AssessDrift, TakeInAll, CheckVolume, LatestAmounts, Kept, FromSome, Anomalous;
    var run := RunWith(fr, entries, bans, downloads);
    var buffer := Survivors(th, s, run).buffer;
    RunCommitsAllOrNothing(th, s, run);
    var item := buffer[i - |s.log|];
    BufferExact(th, run.ctx, LatestAmounts(s.log, run.ctx.sourceId), run.captures, item);
    var c: nat :| Kept(th, run.ctx, LatestAmounts(s.log, run.ctx.sourceId), run.captures, c, item);
    KeptFromEntry(th, fr, entries, LatestAmounts(s.log, run.ctx.sourceId), c, item);
  }

  lemma KeptFromEntry(
    th: Thresholds, fr: Frame, entries: seq<Entry>, prior: map<string, real>, c: nat, item: NormalizedItem)
    requires Kept(th, fr.ctx, prior, Captures(fr.reading, Mapped(entries)), c, item)
    ensures FromSome(fr, item.observation, entries)
    ensures item.product.details == fr.reading.details(c)
  {
    hide Where, Passes;
    MappedItems(entries);
    var at := Where(|entries|, (k: nat) => Mappable(entries, k));
    assert Mappable(entries, at[c]) && FromEntry(fr, item.observation, entries[at[c]], c);
  }

  // ----- The harness crawls as runs -----

  /** What the blocked crawl collects: the whole catalogue while the identities' budgets last, otherwise the
      pages they allow. */
  function BlockedEntries(x: Setting<Counts>, h: Harness): seq<Entry>
    requires h.cfg.pageSize >= 1 && h.cfg.blockAfter >= 1
  {
    if Pages(|h.catalogue|, h.cfg.pageSize) <= BlockedCrawl.Allowance(x, h) then h.catalogue
    else BlockedCrawl.AllowedEntries(x, h)
  }

  /** One ban if it was cut short, unless the breaker ended it. */
  function BlockedBans(x: Setting<Counts>, h: Harness): nat
    requires h.cfg.pageSize >= 1
  {
    if Pages(|h.catalogue|, h.cfg.pageSize) <= BlockedCrawl.Allowance(x, h)
       || BlockedCrawl.LastDownloads(x, h) <= Budget(x.cfg.maxAttempts)
    then 0 else 1
  }

  /** One download for each page, one more for each rotation, and those of the request that ended it. */
  function BlockedDownloads(x: Setting<Counts>, h: Harness): nat
    requires h.cfg.pageSize >= 1 && h.cfg.blockAfter >= 1
  {
    var pages := Pages(|h.catalogue|, h.cfg.pageSize);
    if pages <= BlockedCrawl.Allowance(x, h)
    then pages + BlockedCrawl.FullBudgetsBefore(pages, h.cfg.blockAfter)
    else BlockedCrawl.Allowance(x, h) + BlockedCrawl.Rotations(x, h) + BlockedCrawl.LastDownloads(x, h)
  }

  lemma BlockedRun(fr: Frame, x: Setting<Counts>, h: Harness, s0: StackState, counts: Counts, k: nat)
    requires BlockedCrawl.Blocking(x, h) && BlockedCrawl.AtStart(x, h, s0, counts) && s0.sink == []
    requires k >= Pages(|h.catalogue|, h.cfg.pageSize)
    ensures RunOf(fr, Crawled(x, s0, counts, k)) ==
            RunWith(fr, BlockedEntries(x, h), BlockedBans(x, h), BlockedDownloads(x, h))
  {
    hide Crawled, Pages, Captures, Mapped, AssessDrift, BlockedCrawl.Allowance, BlockedCrawl.LastDownloads,
      BlockedCrawl.Rotations, BlockedCrawl.FullBudgetsBefore, BlockedCrawl.AllowedEntries, TripsIn;
    BlockedCrawl.EndToEnd(x, h, s0, counts, k);
    CrawlBooked(x, s0, counts, k);
  }

  /** The happy and the rate-limited crawl hand on the whole catalogue and no ban if the burst fits the
      retries, otherwise nothing and one ban. */
  lemma RateLimitedRun(fr: Frame, x: Setting<Counts>, h: Harness, s0: StackState, counts: Counts, k: nat)
    requires RateLimitedCrawl.Lenient(x, h) && RateLimitedCrawl.AtStart(x, h, s0, counts) && s0.sink == []
    requires k >= Pages(|h.catalogue|, h.cfg.pageSize)
    ensures RunOf(fr, Crawled(x, s0, counts, k)) ==
            if RateLimitedCrawl.Burst(h) <= Budget(x.cfg.backoff.maxRetries)
            then RunWith(fr, h.catalogue, 0, Pages(|h.catalogue|, h.cfg.pageSize) + RateLimitedCrawl.Burst(h))
            else RunWith(fr, [], 1, Budget(x.cfg.backoff.maxRetries) + 1)
  {
    hide Crawled, Pages, Captures, AssessDrift;
    RateLimitedCrawl.RateLimitRecovery(x, h, s0, counts, k);
    CrawlBooked(x, s0, counts, k);
  }

  /** The crawl through the cookie wall hands on the whole catalogue and no ban if its retry gets through,
      otherwise nothing, and a ban only when no attempt is allowed. */
  lemma CookieWallRun(fr: Frame, x: Setting<CookieWallCrawl.Jars>, h: Harness, s0: StackState, k: nat)
    requires CookieWallCrawl.Walled(x, h) && CookieWallCrawl.AtStart(x, s0) && s0.sink == []
    requires k >= Pages(|h.catalogue|, h.cfg.pageSize)
    ensures RunOf(fr, Crawled(x, s0, {}, k)) ==
            if CookieWallCrawl.Through(x, 0)
            then RunWith(fr, h.catalogue, 0, Pages(|h.catalogue|, h.cfg.pageSize) + 1)
            else RunWith(fr, [], if x.cfg.maxAttempts >= 1 then 0 else 1, 1)
  {
    hide Crawled, Pages, Captures, AssessDrift;
    CookieWallCrawl.ThroughTheWall(x, h, s0, k);
    CrawlBooked(x, s0, {}, k);
  }

  /** A permanent blocker hands on nothing, and a ban unless the breaker refuses one of the retries. */
  lemma HopelessRun<S(!new)>(fr: Frame, x: Setting<S>, s0: StackState, server: S, k: nat)
    requires ValidStack(x.cfg, s0) && AlwaysBlocks(x.serve) && s0.sink == [] && k >= 1
    ensures var (attempts, b) := (Budget(x.cfg.maxAttempts), BreakerAt(s0.breakers, x.domain));
      var r := FirstRefusal(x, b, 0, attempts, 0);
      RunOf(fr, Crawled(x, s0, server, k)) == RunWith(fr, [], if r <= attempts then 0 else 1, r)
  {
    hide Crawled, Fetch, Captures, Advance, FirstRefusal, AssessDrift;
    PermanentBlocker(x, s0, server, 1, 0);
    Advanced(x, Start(s0, server));
    NothingCrawled(x, s0, server);
    NextStep(x, s0, server, 0);
    OverStaysOver(x, s0, server, 1, k);
    CrawlBooked(x, s0, server, k);
  }

  /** The drift crawl hands on what mapping the renamed catalogue gives, which is nothing. */
  lemma DriftRun(fr: Frame, x: Setting<Counts>, h: Harness, s0: StackState, counts: Counts, k: nat)
    requires DriftCrawl.Drifting(x, h) && DriftCrawl.AtStart(x, s0) && s0.sink == []
    requires k >= Pages(|h.catalogue|, h.cfg.pageSize)
    ensures RunOf(fr, Crawled(x, s0, counts, k)) ==
            RunWith(fr, Renamed(h.catalogue), 0, Pages(|h.catalogue|, h.cfg.pageSize))
  {
    hide Crawled, Pages, Captures, AssessDrift;
    DriftCrawl.SeesAndMapsNothing(x, h, s0, counts, k);
    RenamedYieldsNothing(h.catalogue);
    CrawlBooked(x, s0, counts, k);
  }

  // ----- The database after a crawl -----

  /** A drifted site commits nothing and is flagged if and only if its catalogue has enough entries, at least
      one, and the policy allows less than all of them to be unmapped. */
  lemma DriftIsFlagged(
    th: Thresholds, s: Store, fr: Frame, x: Setting<Counts>, h: Harness, s0: StackState, counts: Counts, k: nat)
    requires DriftCrawl.Drifting(x, h) && DriftCrawl.AtStart(x, s0) && s0.sink == []
    requires k >= Pages(|h.catalogue|, h.cfg.pageSize)
    ensures var run := RunOf(fr, Crawled(x, s0, counts, k));
      && RunOnce(th, s, run).log == s.log && LedgerRow(th, s, run).itemsOk == 0
      && (LedgerRow(th, s, run).status == Flagged <==>
            h.catalogue != [] && |h.catalogue| >= fr.drift.minEntries && fr.drift.maxUnmappedRatio < 1.0)
  {
    hide Crawled, Pages, AssessDrift, RunOnce, Anomalous;
    var run := RunOf(fr, Crawled(x, s0, counts, k));
    DriftRun(fr, x, h, s0, counts, k);
    RenamedYieldsNothing(h.catalogue);
    NothingCaptured(th, s, run);
    CommitsNothing(th, s, run);
    RunCommitsAllOrNothing(th, s, run);
    LedgerStatus(th, s, run);
    AllUnmapped(fr.drift, |h.catalogue|);
  }

  lemma NothingCaptured(th: Thresholds, s: Store, run: RunInput)
    requires run.captures == []
    ensures Survivors(th, s, run).buffer == []
  {
  }

  lemma AllUnmapped(policy: DriftPolicy, seen: nat)
    ensures AssessDrift(policy, seen, 0) <==> seen != 0 && seen >= policy.minEntries && policy.maxUnmappedRatio < 1.0
  {
    if seen != 0 {
      assert (seen as real) / (seen as real) == 1.0;
    }
  }

  /** After the blocked crawl, the database has one new observation for each distinct id of the entries that
      the budgets cover and whose first item passes the gates, and one new row that counts them and the ban,
      if there was one; a crawl that was cut short is recorded as a success like any other. */
  lemma BlockedCrawlCommits(
    th: Thresholds, s: Store, fr: Frame, x: Setting<Counts>, h: Harness, s0: StackState, counts: Counts, k: nat)
    requires BlockedCrawl.Blocking(x, h) && BlockedCrawl.AtStart(x, h, s0, counts) && s0.sink == []
    requires k >= Pages(|h.catalogue|, h.cfg.pageSize)
    ensures var run := RunOf(fr, Crawled(x, s0, counts, k));
      var ids := PassingIds(th, s, fr.ctx, Captures(fr.reading, Mapped(BlockedEntries(x, h))));
      var (s', row) := (RunOnce(th, s, run), LedgerRow(th, s, run));
      && s'.runs == s.runs + [row]
      && row.banEvents == |Crawled(x, s0, counts, k).stack.sink| == BlockedBans(x, h)
      && row.timings == Some(BlockedDownloads(x, h))
      && (Committed(row) <==> !Drifted(fr, BlockedEntries(x, h)) && !Anomalous(th, s, run))
      && if Anomalous(th, s, run) then s'.log == s.log && row.itemsOk == 0
         else AppendsOneEach(s.log, s'.log, ids) && row.itemsOk == |ids|
              && forall i :: |s.log| <= i < |s'.log| ==> FromSome(fr, s'.log[i], BlockedEntries(x, h))
  {
    assert ValidStack(x.cfg, s0);
    hide Crawled, Pages, Captures, BlockedEntries, BlockedBans, BlockedDownloads, PassingIds, AppendsOneEach,
      Survivors, Anomalous, AssessDrift, FromSome, RunOnce, LatestAmounts, BlockedCrawl.Blocking, BlockedCrawl.AtStart,
      Mapped;
    BlockedRun(fr, x, h, s0, counts, k);
    CommitsEachOnce(th, s, RunOf(fr, Crawled(x, s0, counts, k)));
    LedgerStatus(th, s, RunOf(fr, Crawled(x, s0, counts, k)));
    forall i: nat | |s.log| <= i < |RunOnce(th, s, RunOf(fr, Crawled(x, s0, counts, k))).log|
      ensures FromSome(fr, RunOnce(th, s, RunOf(fr, Crawled(x, s0, counts, k))).log[i], BlockedEntries(x, h))
    {
      AppendedFromEntries(th, s, fr, BlockedEntries(x, h), BlockedBans(x, h), BlockedDownloads(x, h), i);
    }
  }

  // ----- What a recovery leaves behind -----

  /** The store differs from the other only in its last ledger row, which counts so many requests more. */
  ghost predicate MoreRequests(s: Store, other: Store, extra: nat) {
    && s.products == other.products && s.log == other.log
    && |s.runs| == |other.runs| > 0
    && var n := |other.runs| - 1;
       && other.runs[n].timings.Some?
       && s.runs == other.runs[n := other.runs[n].(timings := Some(other.runs[n].timings.value + extra))]
  }

  /** More requests change nothing that a run commits and nothing of its row but the count. */
  lemma RequestsReachTheRow(th: Thresholds, s: Store, run: RunInput, extra: nat)
    requires run.ending.Ended?
    ensures var (more, plain) := (RunOnce(th, s, run.(requests := run.requests + extra)), RunOnce(th, s, run));
      MoreRequests(more, plain, extra) && (more == plain <==> extra == 0)
  {
    hide Survivors, CheckVolume, BaselineCount, Flush;
    var run' := run.(requests := run.requests + extra);
    assert Survivors(th, s, run') == Survivors(th, s, run) by { SameSurvivors(th, s, run, extra); }
    var (more, plain) := (RunOnce(th, s, run'), RunOnce(th, s, run));
    var n := |s.runs|;
    assert more.runs[n].timings == Some(run.requests + extra) && plain.runs[n].timings == Some(run.requests);
    assert plain.runs[n := more.runs[n]] == more.runs;
  }

  lemma SameSurvivors(th: Thresholds, s: Store, run: RunInput, extra: nat)
    ensures Survivors(th, s, run.(requests := run.requests + extra)) == Survivors(th, s, run)
  {
  }

  /** The happy crawl over the same catalogue with the same page size. */
  ghost predicate HappyTwin(x: Setting<Counts>, h: Harness, s0: StackState, counts: Counts, twin: Harness) {
    && RateLimitedCrawl.Lenient(x, h) && h.scenario == Happy
    && RateLimitedCrawl.AtStart(x, h, s0, counts) && s0.sink == []
    && h.catalogue == twin.catalogue && h.cfg.pageSize == twin.cfg.pageSize
  }

  /** Run in the happy crawl's place, a blocked crawl within its allowance commits the same products and log
      and the same ledger row, but for floor((P - 1) / b) more requests in it, one for each rotation: the
      databases are equal exactly when there was none. */
  lemma BlockedCostsRequests(
    th: Thresholds, s: Store, fr: Frame,
    x: Setting<Counts>, h: Harness, s0: StackState, counts: Counts,
    x': Setting<Counts>, h': Harness, s0': StackState, counts': Counts, k: nat)
    requires BlockedCrawl.Blocking(x, h) && BlockedCrawl.AtStart(x, h, s0, counts) && s0.sink == []
    requires Pages(|h.catalogue|, h.cfg.pageSize) <= BlockedCrawl.Allowance(x, h)
    requires HappyTwin(x', h', s0', counts', h) && k >= Pages(|h.catalogue|, h.cfg.pageSize)
    ensures var (blocked, happy) :=
        (RunOnce(th, s, RunOf(fr, Crawled(x, s0, counts, k))), RunOnce(th, s, RunOf(fr, Crawled(x', s0', counts', k))));
      var extra := BlockedCrawl.FullBudgetsBefore(Pages(|h.catalogue|, h.cfg.pageSize), h.cfg.blockAfter);
      MoreRequests(blocked, happy, extra) && (blocked == happy <==> extra == 0)
  {
    hide Crawled, Pages, Captures, Mapped, AssessDrift, RunOnce, MoreRequests, BlockedCrawl.Allowance,
      BlockedCrawl.LastDownloads, BlockedCrawl.FullBudgetsBefore;
    BlockedRun(fr, x, h, s0, counts, k);
    RateLimitedRun(fr, x', h', s0', counts', k);
    RequestsReachTheRow(th, s, RunOf(fr, Crawled(x', s0', counts', k)),
                        BlockedCrawl.FullBudgetsBefore(Pages(|h.catalogue|, h.cfg.pageSize), h.cfg.blockAfter));
  }

  /** ... so does a rate-limited crawl whose burst fits the retries, but for `burst` more requests. */
  lemma RateLimitCostsRequests(
    th: Thresholds, s: Store, fr: Frame,
    x: Setting<Counts>, h: Harness, s0: StackState, counts: Counts,
    x': Setting<Counts>, h': Harness, s0': StackState, counts': Counts, k: nat)
    requires RateLimitedCrawl.Lenient(x, h) && RateLimitedCrawl.AtStart(x, h, s0, counts) && s0.sink == []
    requires RateLimitedCrawl.Burst(h) <= Budget(x.cfg.backoff.maxRetries)
    requires HappyTwin(x', h', s0', counts', h) && k >= Pages(|h.catalogue|, h.cfg.pageSize)
    ensures var (limited, happy) :=
        (RunOnce(th, s, RunOf(fr, Crawled(x, s0, counts, k))), RunOnce(th, s, RunOf(fr, Crawled(x', s0', counts', k))));
      var extra := RateLimitedCrawl.Burst(h);
      MoreRequests(limited, happy, extra) && (limited == happy <==> extra == 0)
  {
    hide Crawled, Pages, Captures, Mapped, AssessDrift, RunOnce, MoreRequests;
    RateLimitedRun(fr, x, h, s0, counts, k);
    RateLimitedRun(fr, x', h', s0', counts', k);
    RequestsReachTheRow(th, s, RunOf(fr, Crawled(x', s0', counts', k)), RateLimitedCrawl.Burst(h));
  }

  /** ... and so does a crawl that gets through the cookie wall, but for one request more. */
  lemma CookieWallCostsARequest(
    th: Thresholds, s: Store, fr: Frame, x: Setting<CookieWallCrawl.Jars>, h: Harness, s0: StackState,
    x': Setting<Counts>, h': Harness, s0': StackState, counts': Counts, k: nat)
    requires CookieWallCrawl.Walled(x, h) && CookieWallCrawl.AtStart(x, s0) && s0.sink == []
    requires CookieWallCrawl.Through(x, 0)
    requires HappyTwin(x', h', s0', counts', h) && k >= Pages(|h.catalogue|, h.cfg.pageSize)
    ensures var (walled, happy) :=
        (RunOnce(th, s, RunOf(fr, Crawled(x, s0, {}, k))), RunOnce(th, s, RunOf(fr, Crawled(x', s0', counts', k))));
      MoreRequests(walled, happy, 1) && walled != happy
  {
    hide Crawled, Pages, Captures, Mapped, AssessDrift, RunOnce, MoreRequests;
    CookieWallRun(fr, x, h, s0, k);
    RateLimitedRun(fr, x', h', s0', counts', k);
    RequestsReachTheRow(th, s, RunOf(fr, Crawled(x', s0', counts', k)), 1);
  }
}
