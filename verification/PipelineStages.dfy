/** The database, the three item pipelines and the runner as objects, proved to carry out one run. */
module PipelineStages {
  import opened Wrappers
  import opened Storage
  import opened Pipeline

  class CrawlStats {
    var itemsRejected: nat
    var itemsPersisted: nat
    var quarantined: nat

    constructor ()
      ensures itemsRejected == itemsPersisted == quarantined == 0
    {
      itemsRejected, itemsPersisted, quarantined := 0, 0, 0;
    }
  }

  class Database {
    var products: map<string, Product>
    var log: seq<Observation>
    var runs: seq<CrawlRun>

    function View(): Store
      reads this
    {
      Store(products, log, runs)
    }

    constructor ()
      ensures View() == EMPTY
    {
      products, log, runs := map[], [], [];
    }

    method Upsert(p: Product)
      modifies this`products
      ensures products == Storage.Upsert(old(products), p)
    {
      if p.id in products {
        var row := products[p.id];
        var lastSeenAt := row.lastSeenAt;
        if p.lastSeenAt > lastSeenAt {
          lastSeenAt := p.lastSeenAt;
        }
        products := products[p.id := row.(details := p.details, lastSeenAt := lastSeenAt)];
      } else {
        products := products[p.id := p];
      }
    }

    method Append(o: Observation)
      modifies this`log
      ensures log == old(log) + [o]
    {
      log := log + [o];
    }

    method OpenRun(id: string, source: string, startedAt: real)
      modifies this`runs
      ensures runs == old(runs) + [CrawlRun(id, source, Running, 0, 0, 0, None, startedAt, None)]
    {
      runs := runs + [CrawlRun(id, source, Running, 0, 0, 0, None, startedAt, None)];
    }

    /** Finalizes the row of that id, its timings only where they are given; an unknown id changes nothing and
        is reported. */
    method CloseRun(
      id: string, status: RunStatus, itemsOk: nat, itemsRejected: nat, banEvents: nat, timings: Option<nat>,
      finishedAt: real)
      returns (found: bool)
      modifies this`runs
      ensures found <==> exists i :: 0 <= i < |old(runs)| && old(runs)[i].id == id
      ensures !found ==> runs == old(runs)
      ensures found ==> exists i ::
                && 0 <= i < |old(runs)| && old(runs)[i].id == id && (forall k :: 0 <= k < i ==> old(runs)[k].id != id)
                && var row := old(runs)[i];
                   runs == old(runs)[i := row.(
                     status := status, itemsOk := itemsOk, itemsRejected := itemsRejected, banEvents := banEvents,
                     timings := if timings.Some? then timings else row.timings, finishedAt := Some(finishedAt))]
    {
      for i := 0 to |runs|
        invariant runs == old(runs)
        invariant forall k :: 0 <= k < i ==> runs[k].id != id
      {
        if runs[i].id == id {
          var row := runs[i].(status := status, itemsOk := itemsOk, itemsRejected := itemsRejected,
                              banEvents := banEvents, finishedAt := Some(finishedAt));
          if timings.Some? {
            row := row.(timings := timings);
          }
          runs := runs[i := row];
          return true;
        }
      }
      return false;
    }
  }

  class NormalizePipeline {
    const ctx: Context
    const stats: CrawlStats
    var seen: set<string>
    var itemsOk: nat
    var itemsDuplicate: nat

    constructor (ctx: Context, stats: CrawlStats)
      ensures this.ctx == ctx && this.stats == stats && seen == {} && itemsOk == itemsDuplicate == 0
    {
      this.ctx := ctx;
      this.stats := stats;
      seen, itemsOk, itemsDuplicate := {}, 0, 0;
    }

    /** This stage's part of the run's intake. */
    ghost predicate Holds(st: Intake)
      reads this, stats
    {
      st.seen == seen && st.itemsOk == itemsOk && st.duplicates == itemsDuplicate && st.rejected == stats.itemsRejected
    }

    /** No item: it was dropped. */
    method ProcessItem(c: Capture, ghost st: Intake) returns (item: Option<NormalizedItem>)
      requires Holds(st)
      modifies this, stats`itemsRejected
      ensures Holds(NormalizeStage(ctx, st, c).0) && item == NormalizeStage(ctx, st, c).1
    {
      if c.scraped.Junk? {
        stats.itemsRejected := stats.itemsRejected + 1;
        return None;
      }
      item := Normalize(ctx, c);
      if item.None? {
        stats.itemsRejected := stats.itemsRejected + 1;
        return None;
      }
      var id := item.value.product.id;
      if id in seen {
        itemsDuplicate := itemsDuplicate + 1;
        return None;
      }
      seen := seen + {id};
      itemsOk := itemsOk + 1;
    }
  }

  class QualityGatePipeline {
    const thresholds: Thresholds
    const stats: CrawlStats
    var prevPrices: map<string, real>

    /** The source's last committed prices are loaded once. */
    constructor (thresholds: Thresholds, source: string, db: Database, stats: CrawlStats)
      ensures this.thresholds == thresholds && this.stats == stats && prevPrices == LatestAmounts(db.log, source)
    {
      this.thresholds := thresholds;
      this.stats := stats;
      prevPrices := LatestAmounts(db.log, source);
    }

    method ProcessItem(item: NormalizedItem) returns (kept: bool)
      modifies stats`itemsRejected
      ensures kept == Passes(thresholds, prevPrices, item)
      ensures stats.itemsRejected == old(stats.itemsRejected) + (if kept then 0 else 1)
    {
      var issue := CheckRange(item.observation.amount, thresholds);
      if issue.None? {
        issue := CheckContinuity(item.observation.amount, Lookup(prevPrices, item.product.id), thresholds);
      }
      if issue.Some? {
        stats.itemsRejected := stats.itemsRejected + 1;
        return false;
      }
      return true;
    }
  }

  class PersistencePipeline {
    const thresholds: Thresholds
    const db: Database
    const stats: CrawlStats
    var buffer: seq<NormalizedItem>
    var persisted: nat
    var baseline: Option<nat>

    constructor (thresholds: Thresholds, ctx: Context, db: Database, stats: CrawlStats)
      ensures this.thresholds == thresholds && this.db == db && this.stats == stats
      ensures buffer == [] && persisted == 0 && baseline == BaselineCount(db.runs, ctx.sourceId, ctx.runId)
    {
      this.thresholds := thresholds;
      this.db := db;
      this.stats := stats;
      buffer, persisted := [], 0;
      baseline := BaselineCount(db.runs, ctx.sourceId, ctx.runId);
    }

    method ProcessItem(item: NormalizedItem)
      modifies this`buffer
      ensures buffer == old(buffer) + [item]
    {
      buffer := buffer + [item];
    }

    /** The volume gate decides over the whole buffer: nothing is written, or every item in order. */
    method CloseSpider()
      modifies this`persisted, db`products, db`log, stats`itemsPersisted, stats`quarantined
      ensures var anomaly := CheckVolume(|buffer|, baseline, thresholds).Some?;
        && db.View() == (if anomaly then old(db.View()) else Flush(old(db.View()), buffer))
        && stats.quarantined == old(stats.quarantined) + (if anomaly then 1 else 0)
        && stats.itemsPersisted == old(stats.itemsPersisted) + (if anomaly then 0 else |buffer|)
        && persisted == old(persisted) + (if anomaly then 0 else |buffer|)
    {
      var issue := CheckVolume(|buffer|, baseline, thresholds);
      if issue == Some(VolumeAnomaly) {
        stats.quarantined := stats.quarantined + 1;
        return;
      }
      for i := 0 to |buffer|
        invariant db.View() == Flush(old(db.View()), buffer[..i])
        invariant stats.itemsPersisted == old(stats.itemsPersisted) + i && persisted == old(persisted) + i
        invariant stats.quarantined == old(stats.quarantined)
      {
        assert buffer[..i + 1][..i] == buffer[..i];
        db.Upsert(buffer[i].product);
        db.Append(buffer[i].observation);
        persisted := persisted + 1;
        stats.itemsPersisted := stats.itemsPersisted + 1;
      }
      assert buffer[..|buffer|] == buffer;
    }
  }

  /** The row being written does not count as its own baseline. */
  lemma OwnRowIgnored(runs: seq<CrawlRun>, row: CrawlRun, source: string)
    ensures BaselineCount(runs + [row], source, row.id) == BaselineCount(runs, source, row.id)
  {
    assert (runs + [row])[..|runs|] == runs;
  }

  lemma {:induction false} FlushIgnoresLedger(s: Store, runs: seq<CrawlRun>, items: seq<NormalizedItem>)
    ensures Flush(s.(runs := runs), items) == Flush(s, items).(runs := runs)
  {
    if items != [] {
      FlushIgnoresLedger(s, runs, items[..|items| - 1]);
    }
  }

  /** One crawl: open the ledger row, push every item through the stages, close. The new database is that
      of Pipeline.RunOnce. */
  method RunCrawl(db: Database, th: Thresholds, run: RunInput)
    requires forall i :: 0 <= i < |db.runs| ==> db.runs[i].id != run.ctx.runId
    modifies db
    ensures db.View() == RunOnce(th, old(db.View()), run)
  {
    ghost var before := db.View();
    db.OpenRun(run.ctx.runId, run.ctx.sourceId, run.startedAt);
    ghost var opening := db.runs[|db.runs| - 1];
    var stats := new CrawlStats();
    Crawl(db, th, run, stats, before, opening);
    var _ := CloseLedger(db, run, stats, before.runs, opening);
  }

  /** One item through the three stages in priority order. */
  method PushItem(normalizer: NormalizePipeline, gate: QualityGatePipeline, persistence: PersistencePipeline,
                  c: Capture, ghost st: Intake)
    requires normalizer.Holds(st) && persistence.buffer == st.buffer && gate.stats == normalizer.stats
    modifies normalizer, persistence`buffer, normalizer.stats`itemsRejected
    ensures var st' := TakeIn(gate.thresholds, normalizer.ctx, gate.prevPrices, st, c);
      normalizer.Holds(st') && persistence.buffer == st'.buffer
  {
    var item := normalizer.ProcessItem(c, st);
    if item.Some? {
      var kept := gate.ProcessItem(item.value);
      if kept {
        persistence.ProcessItem(item.value);
      }
    }
  }

  /** The crawl between opening and closing the row: the items through the stages, then the flush. */
  method Crawl(
    db: Database, th: Thresholds, run: RunInput, stats: CrawlStats, ghost before: Store, ghost opening: CrawlRun)
    requires db.View() == before.(runs := before.runs + [opening]) && opening.id == run.ctx.runId
    requires stats.itemsRejected == stats.itemsPersisted == stats.quarantined == 0
    modifies db`products, db`log, stats
    ensures db.View() == Flush(before, ToCommit(th, before, run)).(runs := before.runs + [opening])
    ensures stats.itemsRejected == Survivors(th, before, run).rejected
    ensures run.ending.Ended? ==>
      && stats.itemsPersisted == |ToCommit(th, before, run)|
      && (stats.quarantined > 0 <==> Anomalous(th, before, run))
  {
    hide CheckVolume, TakeIn, LatestAmounts, BaselineCount;
    var ctx := run.ctx;
    OwnRowIgnored(before.runs, opening, ctx.sourceId);
    var normalizer := new NormalizePipeline(ctx, stats);
    var gate := new QualityGatePipeline(th, ctx.sourceId, db, stats);
    var persistence := new PersistencePipeline(th, ctx, db, stats);
    ghost var prior := LatestAmounts(before.log, ctx.sourceId);

    for i := 0 to |run.captures|
      invariant db.View() == before.(runs := before.runs + [opening])
      invariant persistence.baseline == BaselineCount(before.runs, ctx.sourceId, ctx.runId)
      invariant gate.prevPrices == prior && stats.itemsPersisted == stats.quarantined == 0
      invariant normalizer.Holds(TakeInAll(th, ctx, prior, run.captures[..i]))
      invariant persistence.buffer == TakeInAll(th, ctx, prior, run.captures[..i]).buffer
    {
      assert run.captures[..i + 1][..i] == run.captures[..i];
      PushItem(normalizer, gate, persistence, run.captures[i], TakeInAll(th, ctx, prior, run.captures[..i]));
    }
    assert run.captures[..|run.captures|] == run.captures;
    FlushIgnoresLedger(before, before.runs + [opening], ToCommit(th, before, run));
    if run.ending != Crashed(false) {
      persistence.CloseSpider();
    }
  }

  /** The runner's last step: status and counts from the crawl's statistics, zeros after a crash. */
  method CloseLedger(
    db: Database, run: RunInput, stats: CrawlStats, ghost earlier: seq<CrawlRun>, ghost opening: CrawlRun)
    returns (found: bool)
    requires opening == CrawlRun(run.ctx.runId, run.ctx.sourceId, Running, 0, 0, 0, None, run.startedAt, None)
    requires db.runs == earlier + [opening]
    requires forall i :: 0 <= i < |earlier| ==> earlier[i].id != run.ctx.runId
    modifies db`runs
    ensures found
    ensures db.runs == earlier + [
      match run.ending
      case Crashed(_) =>
        CrawlRun(run.ctx.runId, run.ctx.sourceId, Failed, 0, 0, run.banEvents, Some(0),
                 run.startedAt, Some(run.finishedAt))
      case Ended(finished, drift) =>
        CrawlRun(run.ctx.runId, run.ctx.sourceId,
                 RunStatusOf(finished, stats.itemsRejected, stats.quarantined > 0, drift),
                 stats.itemsPersisted, stats.itemsRejected, run.banEvents, Some(run.requests),
                 run.startedAt, Some(run.finishedAt))]
  {
    assert db.runs[|earlier|].id == run.ctx.runId;
    ghost var before := db.runs;
    match run.ending
    case Crashed(_) =>
      found := db.CloseRun(run.ctx.runId, Failed, 0, 0, run.banEvents, Some(0), run.finishedAt);
    case Ended(finished, drift) =>
      var status := RunStatusOf(finished, stats.itemsRejected, stats.quarantined > 0, drift);
      found := db.CloseRun(run.ctx.runId, status, stats.itemsPersisted, stats.itemsRejected, run.banEvents,
                           Some(run.requests), run.finishedAt);
  }
}
