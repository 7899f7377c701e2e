/** One crawl run on values: normalize and dedup, range and continuity gates, buffer, volume gate, flush,
    ledger row. */
module Pipeline {
  import opened Wrappers
  import opened Positions
  import opened Storage

  // ----- Thresholds and gates -----

  datatype Thresholds = Thresholds(
    priceMin: real, priceMax: real, maxJumpRatio: real, volumeTolerance: real, volumeMinBaseline: int)

  datatype QualityIssue = OutOfRange | Discontinuous | VolumeAnomaly

  function CheckRange(amount: real, th: Thresholds): Option<QualityIssue> {
    if amount < th.priceMin || amount > th.priceMax then Some(OutOfRange) else None
  }

  /** No prior, or a price that cannot form a ratio, always passes. */
  function CheckContinuity(amount: real, prior: Option<real>, th: Thresholds): Option<QualityIssue> {
    if prior.None? || prior.value <= 0.0 || amount <= 0.0 then None
    else
      var up, down := amount / prior.value, prior.value / amount;
      var ratio := if up >= down then up else down;
      if ratio > th.maxJumpRatio then Some(Discontinuous) else None
  }

  function CheckVolume(count: nat, baseline: Option<nat>, th: Thresholds): Option<QualityIssue> {
    if baseline.None? || baseline.value < th.volumeMinBaseline then None
    else
      var lower := (baseline.value as real) * (1.0 - th.volumeTolerance);
      var upper := (baseline.value as real) * (1.0 + th.volumeTolerance);
      if (count as real) < lower || (count as real) > upper then Some(VolumeAnomaly) else None
  }

  // ----- One item through the stages -----

  /** What an extractor emits: a raw product or anything else. `amount` is the parsed finite price, absent
      when it does not parse; `currency` the resolved three-letter code, absent when there is none; the
      title is whitespace-collapsed. */
  datatype Scraped =
    | Junk
    | Raw(externalId: string, details: Details, amount: Option<real>, currency: Option<string>, inStock: Option<bool>)

  /** An emitted item and the moment it is stamped with. */
  datatype Capture = Capture(scraped: Scraped, at: real)

  datatype Context = Context(sourceId: string, runId: string)

  /** Unparseable or negative prices, missing currencies and empty titles are rejected. */
  function Normalize(ctx: Context, c: Capture): (item: Option<NormalizedItem>)
    requires c.scraped.Raw?
    ensures item.None? <==>
      || c.scraped.amount.None? || c.scraped.amount.value < 0.0
      || c.scraped.currency.None? || c.scraped.details.title == ""
    ensures item.Some? ==>
      && Coherent(item.value) && item.value.observation.capturedAt == c.at
      && item.value.product.id == CanonicalId(item.value.product.sourceId, item.value.product.externalId)
      && (item.value.product.sourceId, item.value.product.externalId) == (ctx.sourceId, c.scraped.externalId)
      && (item.value.observation.runId, item.value.observation.inStock) == (ctx.runId, c.scraped.inStock)
      && Some(item.value.observation.amount) == c.scraped.amount && item.value.observation.amount >= 0.0
      && Some(item.value.observation.currency) == c.scraped.currency
      && item.value.product.details == c.scraped.details
  {
    var raw := c.scraped;
    var id := CanonicalId(ctx.sourceId, raw.externalId);
    if raw.amount.None? || raw.amount.value < 0.0 || raw.currency.None? || raw.details.title == "" then None
    else Some(NormalizedItem(
      Product(id, ctx.sourceId, raw.externalId, raw.details, c.at, c.at),
      Observation(id, ctx.sourceId, ctx.runId, raw.amount.value, raw.currency.value, raw.inStock, c.at)))
  }

  /** The item a capture stands for, if any. */
  function ItemOf(ctx: Context, c: Capture): Option<NormalizedItem> {
    if c.scraped.Junk? then None else Normalize(ctx, c)
  }

  /** The run's state: ids seen, counters, and the buffer of surviving items. `rejected` is the counter
      that normalization and the quality gates share. */
  datatype Intake = Intake(seen: set<string>, itemsOk: nat, duplicates: nat, rejected: nat, buffer: seq<NormalizedItem>)

  const IDLE := Intake({}, 0, 0, 0, [])

  function Lookup(prior: map<string, real>, id: string): Option<real> {
    if id in prior then Some(prior[id]) else None
  }

  /** Reject, or drop a repeated id, or hand the item on and remember its id. */
  function NormalizeStage(ctx: Context, st: Intake, c: Capture): (Intake, Option<NormalizedItem>) {
    var item := ItemOf(ctx, c);
    if item.None? then (st.(rejected := st.rejected + 1), None)
    else if item.value.product.id in st.seen then (st.(duplicates := st.duplicates + 1), None)
    else (st.(seen := st.seen + {item.value.product.id}, itemsOk := st.itemsOk + 1), item)
  }

  predicate Passes(th: Thresholds, prior: map<string, real>, item: NormalizedItem) {
    && CheckRange(item.observation.amount, th).None?
    && CheckContinuity(item.observation.amount, Lookup(prior, item.product.id), th).None?
  }

  /** An item goes through dedup, then through the range and continuity gates, then into the buffer. */
  function TakeIn(th: Thresholds, ctx: Context, prior: map<string, real>, st: Intake, c: Capture): Intake {
    var (st', item) := NormalizeStage(ctx, st, c);
    if item.None? then st'
    else if Passes(th, prior, item.value) then st'.(buffer := st'.buffer + [item.value])
    else st'.(rejected := st'.rejected + 1)
  }

  function TakeInAll(th: Thresholds, ctx: Context, prior: map<string, real>, captures: seq<Capture>): Intake {
    if captures == [] then IDLE
    else TakeIn(th, ctx, prior, TakeInAll(th, ctx, prior, captures[..|captures| - 1]), captures[|captures| - 1])
  }

  /** What every buffered item satisfies. */
  ghost predicate Vetted(
    th: Thresholds, ctx: Context, prior: map<string, real>, captures: seq<Capture>, item: NormalizedItem)
  {
    var o := item.observation;
    && Coherent(item) && o.sourceId == ctx.sourceId && o.runId == ctx.runId
    && CheckRange(o.amount, th).None?
    && CheckContinuity(o.amount, Lookup(prior, o.productId), th).None?
    && exists k :: 0 <= k < |captures| && captures[k].at == o.capturedAt
  }

  lemma VettedLater(
    th: Thresholds, ctx: Context, prior: map<string, real>, captures: seq<Capture>, item: NormalizedItem)
    requires captures != [] && Vetted(th, ctx, prior, captures[..|captures| - 1], item)
    ensures Vetted(th, ctx, prior, captures, item)
  {
    var before := captures[..|captures| - 1];
    var k :| 0 <= k < |before| && before[k].at == item.observation.capturedAt;
    assert captures[k] == before[k];
  }

  ghost predicate AllVetted(
    th: Thresholds, ctx: Context, prior: map<string, real>, captures: seq<Capture>, buffer: seq<NormalizedItem>)
  {
    forall i :: 0 <= i < |buffer| ==> Vetted(th, ctx, prior, captures, buffer[i])
  }

  /** The buffered products were seen and are distinct, and every capture is accounted for. */
  ghost predicate Tidy(st: Intake, captures: nat) {
    && (forall i :: 0 <= i < |st.buffer| ==> st.buffer[i].observation.productId in st.seen)
    && (forall i, j :: 0 <= i < j < |st.buffer| ==>
          st.buffer[i].observation.productId != st.buffer[j].observation.productId)
    && captures == |st.buffer| + st.duplicates + st.rejected
    && st.itemsOk == |st.seen| >= |st.buffer|
  }

  lemma TakeInTidy(th: Thresholds, ctx: Context, prior: map<string, real>, st: Intake, c: Capture, captures: nat)
    requires Tidy(st, captures)
    ensures Tidy(TakeIn(th, ctx, prior, st, c), captures + 1)
  {
    hide CheckContinuity, CheckRange;
  }

  lemma TakeInVetted(th: Thresholds, ctx: Context, prior: map<string, real>, captures: seq<Capture>, st: Intake)
    requires captures != [] && AllVetted(th, ctx, prior, captures[..|captures| - 1], st.buffer)
    ensures AllVetted(th, ctx, prior, captures, TakeIn(th, ctx, prior, st, captures[|captures| - 1]).buffer)
  {
    hide CheckContinuity, CheckRange;
    var n := |captures| - 1;
    var st' := TakeIn(th, ctx, prior, st, captures[n]);
    forall i | 0 <= i < |st.buffer| ensures Vetted(th, ctx, prior, captures, st.buffer[i]) {
      VettedLater(th, ctx, prior, captures, st.buffer[i]);
    }
    if |st'.buffer| > |st.buffer| {
      assert captures[n].at == st'.buffer[|st.buffer|].observation.capturedAt;
      assert Vetted(th, ctx, prior, captures, st'.buffer[|st.buffer|]);
    }
  }

  /** Every buffered item passed all its gates, and no two share a product: later copies of an id are
      dropped even when the first copy fails a gate. Every item is accounted for once. */
  lemma {:induction false} BufferIsVetted(
    th: Thresholds, ctx: Context, prior: map<string, real>, captures: seq<Capture>)
    ensures var st := TakeInAll(th, ctx, prior, captures);
      AllVetted(th, ctx, prior, captures, st.buffer) && Tidy(st, |captures|)
  {
    if captures != [] {
      var n := |captures| - 1;
      hide TakeIn, AllVetted, Tidy;
      BufferIsVetted(th, ctx, prior, captures[..n]);
      TakeInTidy(th, ctx, prior, TakeInAll(th, ctx, prior, captures[..n]), captures[n], n);
      TakeInVetted(th, ctx, prior, captures, TakeInAll(th, ctx, prior, captures[..n]));
    }
  }

  /** Capture k is the first of the run that normalizes to its product id. */
  ghost predicate FirstOfItsId(ctx: Context, captures: seq<Capture>, k: nat) {
    && k < |captures| && ItemOf(ctx, captures[k]).Some?
    && forall j :: 0 <= j < k && ItemOf(ctx, captures[j]).Some? ==>
         ItemOf(ctx, captures[j]).value.product.id != ItemOf(ctx, captures[k]).value.product.id
  }

  ghost predicate Kept(
    th: Thresholds, ctx: Context, prior: map<string, real>, captures: seq<Capture>, k: nat, item: NormalizedItem)
  {
    FirstOfItsId(ctx, captures, k) && ItemOf(ctx, captures[k]) == Some(item) && Passes(th, prior, item)
  }

  /** The ids seen are those of the captures that normalize. */
  lemma {:induction false} SeenExact(
    th: Thresholds, ctx: Context, prior: map<string, real>, captures: seq<Capture>, id: string)
    ensures id in TakeInAll(th, ctx, prior, captures).seen <==>
            exists j :: 0 <= j < |captures| && ItemOf(ctx, captures[j]).Some?
              && ItemOf(ctx, captures[j]).value.product.id == id
  {
    if captures != [] {
      var n := |captures| - 1;
      SeenExact(th, ctx, prior, captures[..n], id);
      if j :| && 0 <= j < n && ItemOf(ctx, captures[..n][j]).Some?
              && ItemOf(ctx, captures[..n][j]).value.product.id == id {
        assert captures[j] == captures[..n][j];
      }
      if j :| 0 <= j < |captures| && ItemOf(ctx, captures[j]).Some? && ItemOf(ctx, captures[j]).value.product.id == id {
        if j < n { assert captures[j] == captures[..n][j]; }
      }
    }
  }

  /** The buffer holds exactly the items that are the first of their id and pass both gates: nothing good
      is lost and nothing else gets in. */
  lemma {:induction false} BufferExact(
    th: Thresholds, ctx: Context, prior: map<string, real>, captures: seq<Capture>, item: NormalizedItem)
    ensures item in TakeInAll(th, ctx, prior, captures).buffer <==>
            exists k: nat :: Kept(th, ctx, prior, captures, k, item)
  {
    if captures != [] {
      var n := |captures| - 1;
      var before := captures[..n];
      BufferExact(th, ctx, prior, before, item);
      LastCaptureKept(th, ctx, prior, captures, item);
      forall k: nat | k < n ensures Kept(th, ctx, prior, before, k, item) <==> Kept(th, ctx, prior, captures, k, item) {
        assert forall j :: 0 <= j <= k ==> before[j] == captures[j];
      }
      if item in TakeInAll(th, ctx, prior, before).buffer {
        var k: nat :| Kept(th, ctx, prior, before, k, item);
        assert Kept(th, ctx, prior, captures, k, item);
      }
    }
  }

  lemma LastCaptureKept(
    th: Thresholds, ctx: Context, prior: map<string, real>, captures: seq<Capture>, item: NormalizedItem)
    requires captures != []
    ensures item in TakeInAll(th, ctx, prior, captures).buffer <==>
            || item in TakeInAll(th, ctx, prior, captures[..|captures| - 1]).buffer
            || Kept(th, ctx, prior, captures, |captures| - 1, item)
  {
    var n := |captures| - 1;
    if ItemOf(ctx, captures[n]).Some? {
      SeenExact(th, ctx, prior, captures[..n], ItemOf(ctx, captures[n]).value.product.id);
      assert forall j :: 0 <= j < n ==> captures[..n][j] == captures[j];
    }
  }

  /** Capture k normalizes to an id that an earlier one has. */
  ghost predicate RepeatAt(ctx: Context, captures: seq<Capture>, k: nat) {
    k < |captures| && ItemOf(ctx, captures[k]).Some? && !FirstOfItsId(ctx, captures, k)
  }

  /** Capture k is the first of its id and passes both gates. */
  ghost predicate KeptAt(th: Thresholds, ctx: Context, prior: map<string, real>, captures: seq<Capture>, k: nat) {
    FirstOfItsId(ctx, captures, k) && Passes(th, prior, ItemOf(ctx, captures[k]).value)
  }

  /** Capture k does not normalize, or is the first of its id and fails a gate. */
  ghost predicate RejectAt(th: Thresholds, ctx: Context, prior: map<string, real>, captures: seq<Capture>, k: nat) {
    && k < |captures|
    && (ItemOf(ctx, captures[k]).None?
        || (FirstOfItsId(ctx, captures, k) && !Passes(th, prior, ItemOf(ctx, captures[k]).value)))
  }

  /** The buffer is the kept captures' items, in capture order. */
  ghost predicate BufferListed(
    th: Thresholds, ctx: Context, prior: map<string, real>, captures: seq<Capture>, buffer: seq<NormalizedItem>)
  {
    var kept := Where(|captures|, (k: nat) => KeptAt(th, ctx, prior, captures, k));
    && |buffer| == |kept|
    && forall i :: 0 <= i < |kept| ==>
         kept[i] < |captures| && ItemOf(ctx, captures[kept[i]]) == Some(buffer[i])
  }

  /** The counters count the others, each for its own reason: a repeat is a duplicate, never a reject. */
  ghost predicate Counted(th: Thresholds, ctx: Context, prior: map<string, real>, captures: seq<Capture>, st: Intake) {
    var n := |captures|;
    && st.duplicates == |Where(n, (k: nat) => RepeatAt(ctx, captures, k))|
    && st.rejected == |Where(n, (k: nat) => RejectAt(th, ctx, prior, captures, k))|
    && st.itemsOk == |Where(n, (k: nat) => FirstOfItsId(ctx, captures, k))|
  }

  lemma {:induction false} IntakeAccounted(
    th: Thresholds, ctx: Context, prior: map<string, real>, captures: seq<Capture>)
    ensures var st := TakeInAll(th, ctx, prior, captures);
      BufferListed(th, ctx, prior, captures, st.buffer) && Counted(th, ctx, prior, captures, st)
  {
    if captures != [] {
      var n := |captures| - 1;
      IntakeAccounted(th, ctx, prior, captures[..n]);
      OneMoreListed(th, ctx, prior, captures, TakeInAll(th, ctx, prior, captures[..n]));
      OneMoreCounted(th, ctx, prior, captures, TakeInAll(th, ctx, prior, captures[..n]));
    }
  }

  lemma OneMoreListed(th: Thresholds, ctx: Context, prior: map<string, real>, captures: seq<Capture>, st: Intake)
    requires captures != [] && st == TakeInAll(th, ctx, prior, captures[..|captures| - 1])
    requires BufferListed(th, ctx, prior, captures[..|captures| - 1], st.buffer)
    ensures BufferListed(th, ctx, prior, captures, TakeIn(th, ctx, prior, st, captures[|captures| - 1]).buffer)
  {
    var n := |captures| - 1;
    var before := captures[..n];
    SameBefore(th, ctx, prior, captures);
    LastDecided(th, ctx, prior, captures, st);
    hide TakeInAll, ItemOf, Passes, FirstOfItsId, RepeatAt, RejectAt;
    WhereNext(n, (k: nat) => KeptAt(th, ctx, prior, before, k), (k: nat) => KeptAt(th, ctx, prior, captures, k));
  }

  lemma OneMoreCounted(th: Thresholds, ctx: Context, prior: map<string, real>, captures: seq<Capture>, st: Intake)
    requires captures != [] && st == TakeInAll(th, ctx, prior, captures[..|captures| - 1])
    requires Counted(th, ctx, prior, captures[..|captures| - 1], st)
    ensures Counted(th, ctx, prior, captures, TakeIn(th, ctx, prior, st, captures[|captures| - 1]))
  {
    var n := |captures| - 1;
    var before := captures[..n];
    SameBefore(th, ctx, prior, captures);
    LastDecided(th, ctx, prior, captures, st);
    hide TakeInAll, ItemOf, Passes, FirstOfItsId, KeptAt;
    WhereNext(n, (k: nat) => RepeatAt(ctx, before, k), (k: nat) => RepeatAt(ctx, captures, k));
    WhereNext(n, (k: nat) => RejectAt(th, ctx, prior, before, k),
              (k: nat) => RejectAt(th, ctx, prior, captures, k));
    WhereNext(n, (k: nat) => FirstOfItsId(ctx, before, k), (k: nat) => FirstOfItsId(ctx, captures, k));
  }

  /** What an earlier capture is does not depend on the last one. */
  lemma SameBefore(th: Thresholds, ctx: Context, prior: map<string, real>, captures: seq<Capture>)
    requires captures != []
    ensures var before := captures[..|captures| - 1];
      forall k: nat :: k < |before| ==>
        && FirstOfItsId(ctx, before, k) == FirstOfItsId(ctx, captures, k)
        && KeptAt(th, ctx, prior, before, k) == KeptAt(th, ctx, prior, captures, k)
        && RepeatAt(ctx, before, k) == RepeatAt(ctx, captures, k)
        && RejectAt(th, ctx, prior, before, k) == RejectAt(th, ctx, prior, captures, k)
  {
    hide ItemOf, Passes;
  }

  /** The ids seen decide whether the last capture is the first of its id. */
  lemma LastDecided(th: Thresholds, ctx: Context, prior: map<string, real>, captures: seq<Capture>, st: Intake)
    requires captures != [] && st == TakeInAll(th, ctx, prior, captures[..|captures| - 1])
    ensures var (n, item) := (|captures| - 1, ItemOf(ctx, captures[|captures| - 1]));
      item.Some? ==> (FirstOfItsId(ctx, captures, n) <==> item.value.product.id !in st.seen)
    ensures FirstOfItsId(ctx, captures, |captures| - 1) ==> ItemOf(ctx, captures[|captures| - 1]).Some?
  {
    hide TakeInAll, ItemOf;
    var n := |captures| - 1;
    if ItemOf(ctx, captures[n]).Some? {
      SeenExact(th, ctx, prior, captures[..n], ItemOf(ctx, captures[n]).value.product.id);
      assert forall j :: 0 <= j < n ==> captures[..n][j] == captures[j];
    }
  }

  // ----- One run -----

  /** How the crawl process ended: with a finish reason and a drift verdict, or by an exception, before or
      after the pipelines were closed. */
  datatype Ending = Ended(finished: bool, drift: bool) | Crashed(flushed: bool)

  /** What a run is made of; `requests` is the downloader's own count. */
  datatype RunInput = RunInput(
    ctx: Context, captures: seq<Capture>, ending: Ending, banEvents: nat, requests: nat,
    startedAt: real, finishedAt: real)

  function RunStatusOf(finished: bool, rejected: nat, quarantined: bool, drift: bool): RunStatus {
    if !finished then Failed
    else if drift then Flagged
    else if quarantined then Quarantined
    else if rejected > 0 then Partial else Success
  }

  function Survivors(th: Thresholds, s: Store, run: RunInput): Intake {
    TakeInAll(th, run.ctx, LatestAmounts(s.log, run.ctx.sourceId), run.captures)
  }

  function Anomalous(th: Thresholds, s: Store, run: RunInput): bool {
    CheckVolume(|Survivors(th, s, run).buffer|, BaselineCount(s.runs, run.ctx.sourceId, run.ctx.runId), th).Some?
  }

  /** What the run writes: its whole buffer or nothing. */
  function ToCommit(th: Thresholds, s: Store, run: RunInput): seq<NormalizedItem> {
    if Anomalous(th, s, run) || run.ending == Crashed(false) then [] else Survivors(th, s, run).buffer
  }

  function LedgerRow(th: Thresholds, s: Store, run: RunInput): CrawlRun {
    var rejected := Survivors(th, s, run).rejected;
    match run.ending
    case Crashed(_) =>
      CrawlRun(run.ctx.runId, run.ctx.sourceId, Failed, 0, 0, run.banEvents, Some(0),
               run.startedAt, Some(run.finishedAt))
    case Ended(finished, drift) =>
      CrawlRun(run.ctx.runId, run.ctx.sourceId, RunStatusOf(finished, rejected, Anomalous(th, s, run), drift),
               |ToCommit(th, s, run)|, rejected, run.banEvents, Some(run.requests),
               run.startedAt, Some(run.finishedAt))
  }

  /** Open, crawl, close: the new store. */
  function RunOnce(th: Thresholds, s: Store, run: RunInput): Store {
    var flushed := Flush(s, ToCommit(th, s, run));
    flushed.(runs := s.runs + [LedgerRow(th, s, run)])
  }
}
