/** Whole histories of runs: what the gates guarantee across runs, and what they do not. */
module RunHistory {
  import opened Wrappers
  import opened Storage
  import opened Pipeline

  /** The store after any sequence of runs of any sources, from empty tables. */
  function After(th: Thresholds, history: seq<RunInput>): Store {
    if history == [] then EMPTY
    else RunOnce(th, After(th, history[..|history| - 1]), history[|history| - 1])
  }

  // ----- All or nothing, append-only -----

  /** A run leaves the log as it was or appends exactly its buffered observations, in order; it adds one
      ledger row; and that row's item count is what was appended, unless the process crashed after the
      flush. A quarantined run appended nothing. */
  lemma RunCommitsAllOrNothing(th: Thresholds, s: Store, run: RunInput)
    ensures var (s', row) := (RunOnce(th, s, run), LedgerRow(th, s, run));
      && (s'.log == s.log || s'.log == s.log + Observations(Survivors(th, s, run).buffer))
      && s'.runs == s.runs + [row]
      && (run.ending.Ended? ==> row.itemsOk == |s'.log| - |s.log|)
      && (row.status == Quarantined ==> row.itemsOk == 0 && s'.log == s.log)
      && (Committed(row) ==> row.itemsOk == |Survivors(th, s, run).buffer|)
  {
    FlushAppends(s, ToCommit(th, s, run));
    assert Observations([]) == [];
    assert s.log + [] == s.log;
  }

  /** Exactly when a run commits nothing: it is the buffer, the volume gate or an early crash that decides,
      not the run's final status. */
  lemma CommitsNothing(th: Thresholds, s: Store, run: RunInput)
    ensures RunOnce(th, s, run).log == s.log <==>
            Survivors(th, s, run).buffer == [] || Anomalous(th, s, run) || run.ending == Crashed(false)
  {
    FlushAppends(s, ToCommit(th, s, run));
    assert |Observations(ToCommit(th, s, run))| == |ToCommit(th, s, run)|;
    assert Observations([]) == [];
    assert s.log + [] == s.log;
  }

  /** The ledger status of a run that came to an end, exactly. */
  lemma LedgerStatus(th: Thresholds, s: Store, run: RunInput)
    requires run.ending.Ended?
    ensures var (row, e) := (LedgerRow(th, s, run), run.ending);
      && (row.status == Failed <==> !e.finished)
      && (row.status == Flagged <==> e.finished && e.drift)
      && (row.status == Quarantined <==> e.finished && !e.drift && Anomalous(th, s, run))
      && (Committed(row) <==> e.finished && !e.drift && !Anomalous(th, s, run))
      && (row.status == Success ==> row.itemsRejected == 0) && (row.status == Partial ==> row.itemsRejected > 0)
  {
  }

  /** A run the ledger calls failed can have committed: here an interrupted crawl of one item. */
  lemma FailedRunCommits(th: Thresholds)
    requires th.priceMin <= 1.0 <= th.priceMax
    ensures exists run: RunInput ::
      LedgerRow(th, EMPTY, run).status == Failed && LedgerRow(th, EMPTY, run).itemsOk == 1
      && |RunOnce(th, EMPTY, run).log| == 1
  {
    var capture := Capture(Raw("1", Details("t", None, "u", None), Some(1.0), Some("USD"), None), 0.0);
    var run := RunInput(Context("s", "r"), [capture], Ended(false, false), 0, 1, 0.0, 1.0);
    assert ProductsOf(EMPTY.log, "s") == {};
    assert [capture][..0] == [];
    assert TakeInAll(th, run.ctx, LatestAmounts(EMPTY.log, "s"), []) == IDLE;
    assert |Survivors(th, EMPTY, run).buffer| == 1;
    FlushAppends(EMPTY, ToCommit(th, EMPTY, run));
    assert LedgerRow(th, EMPTY, run).status == Failed;
  }

  lemma {:induction false} LogOnlyGrows(th: Thresholds, history: seq<RunInput>, k: nat)
    requires k <= |history|
    ensures After(th, history[..k]).log <= After(th, history).log
    ensures After(th, history[..k]).runs <= After(th, history).runs
    decreases |history|
  {
    hide RunOnce, Survivors;
    var n := |history| - 1;
    if k == |history| {
      assert history[..k] == history;
    } else {
      LogOnlyGrows(th, history[..n], k);
      assert history[..n][..k] == history[..k];
      RunCommitsAllOrNothing(th, After(th, history[..n]), history[n]);
    }
  }

  // ----- The projection -----

  /** After any history the product rows are exactly the products of the log, first seen at their first
      appended observation and last seen at their latest. */
  lemma {:induction false} ProjectionAgrees(th: Thresholds, history: seq<RunInput>)
    ensures Projects(After(th, history).products, After(th, history).log)
  {
    if history != [] {
      var n := |history| - 1;
      var s, run := After(th, history[..n]), history[n];
      ProjectionAgrees(th, history[..n]);
      BufferIsVetted(th, run.ctx, LatestAmounts(s.log, run.ctx.sourceId), run.captures);
      FlushProjects(s, ToCommit(th, s, run));
    }
  }

  // ----- Prices across runs -----

  /** The product's last appended observation of a source. */
  function Previous(log: seq<Observation>, source: string, product: string): Option<Observation> {
    if log == [] then None
    else
      var o := log[|log| - 1];
      if o.sourceId == source && o.productId == product then Some(o) else Previous(log[..|log| - 1], source, product)
  }

  function PreviousAmount(log: seq<Observation>, source: string, product: string): Option<real> {
    var o := Previous(log, source, product);
    if o.Some? then Some(o.value.amount) else None
  }

  /** Appended in capture order, product by product. */
  ghost predicate InOrder(log: seq<Observation>) {
    log != [] ==>
      var (before, o) := (log[..|log| - 1], log[|log| - 1]);
      var p := Previous(before, o.sourceId, o.productId);
      InOrder(before) && (p.Some? ==> p.value.capturedAt < o.capturedAt)
  }

  /** Every append passes the gates against the product's observation before it. */
  ghost predicate Continuous(th: Thresholds, log: seq<Observation>) {
    log != [] ==>
      var (before, o) := (log[..|log| - 1], log[|log| - 1]);
      && Continuous(th, before)
      && CheckRange(o.amount, th).None?
      && CheckContinuity(o.amount, PreviousAmount(before, o.sourceId, o.productId), th).None?
  }

  lemma {:induction false} NewestIsPrevious(log: seq<Observation>, source: string, product: string)
    requires InOrder(log)
    ensures Newest(log, source, product) == Previous(log, source, product)
  {
    if log != [] {
      NewestIsPrevious(log[..|log| - 1], source, product);
    }
  }

  lemma PriorIsPrevious(log: seq<Observation>, source: string, product: string)
    requires InOrder(log)
    ensures Lookup(LatestAmounts(log, source), product) == PreviousAmount(log, source, product)
  {
    NewestIsPrevious(log, source, product);
    NewestExists(log, source, product);
  }

  /** Appending observations of other products does not change a product's previous one. */
  lemma {:induction false} OthersDoNotMatter(
    log: seq<Observation>, more: seq<Observation>, source: string, product: string)
    requires forall i :: 0 <= i < |more| ==> more[i].productId != product
    ensures Previous(log + more, source, product) == Previous(log, source, product)
  {
    if more == [] {
      assert log + more == log;
    } else {
      assert (log + more)[..|log + more| - 1] == log + more[..|more| - 1];
      OthersDoNotMatter(log, more[..|more| - 1], source, product);
    }
  }

  /** A batch for distinct products, each vetted against the log before the batch and captured after it. */
  ghost predicate GoodBatch(th: Thresholds, log: seq<Observation>, batch: seq<Observation>) {
    && (forall i, j :: 0 <= i < j < |batch| ==> batch[i].productId != batch[j].productId)
    && forall i :: 0 <= i < |batch| ==>
         var (o, p) := (batch[i], Previous(log, batch[i].sourceId, batch[i].productId));
         && CheckRange(o.amount, th).None?
         && CheckContinuity(o.amount, if p.Some? then Some(p.value.amount) else None, th).None?
         && (p.Some? ==> p.value.capturedAt < o.capturedAt)
  }

  lemma {:induction false} BatchKeepsLog(th: Thresholds, log: seq<Observation>, batch: seq<Observation>)
    requires InOrder(log) && Continuous(th, log) && GoodBatch(th, log, batch)
    ensures InOrder(log + batch) && Continuous(th, log + batch)
  {
    hide CheckRange, CheckContinuity;
    if batch == [] {
      assert log + batch == log;
    } else {
      var n := |batch| - 1;
      var o := batch[n];
      BatchKeepsLog(th, log, batch[..n]);
      assert (log + batch)[..|log + batch| - 1] == log + batch[..n];
      OthersDoNotMatter(log, batch[..n], o.sourceId, o.productId);
    }
  }

  /** Later runs of a source capture later: every item is stamped after all that source's log. */
  ghost predicate CapturesLater(s: Store, run: RunInput) {
    forall i, k :: 0 <= i < |s.log| && 0 <= k < |run.captures| && s.log[i].sourceId == run.ctx.sourceId ==>
      s.log[i].capturedAt < run.captures[k].at
  }

  ghost predicate SerialCaptures(th: Thresholds, history: seq<RunInput>) {
    forall i :: 0 <= i < |history| ==> CapturesLater(After(th, history[..i]), history[i])
  }

  lemma {:induction false} PreviousInLog(log: seq<Observation>, source: string, product: string)
    ensures var p := Previous(log, source, product);
      p.Some? ==> p.value.sourceId == source && exists i :: 0 <= i < |log| && log[i] == p.value
  {
    if log != [] {
      var n := |log| - 1;
      PreviousInLog(log[..n], source, product);
      var p := Previous(log[..n], source, product);
      if p.Some? {
        var i :| 0 <= i < n && log[..n][i] == p.value;
        assert log[i] == p.value;
      }
    }
  }

  lemma SurvivorsAreGood(th: Thresholds, s: Store, run: RunInput)
    requires InOrder(s.log) && CapturesLater(s, run)
    ensures GoodBatch(th, s.log, Observations(Survivors(th, s, run).buffer))
  {
    var source, buffer := run.ctx.sourceId, Survivors(th, s, run).buffer;
    var prior := LatestAmounts(s.log, source);
    BufferIsVetted(th, run.ctx, prior, run.captures);
    forall i | 0 <= i < |buffer|
      ensures var (o, p) := (buffer[i].observation, Previous(s.log, source, buffer[i].observation.productId));
        && o.sourceId == source && CheckRange(o.amount, th).None?
        && CheckContinuity(o.amount, if p.Some? then Some(p.value.amount) else None, th).None?
        && (p.Some? ==> p.value.capturedAt < o.capturedAt)
    {
      assert Vetted(th, run.ctx, prior, run.captures, buffer[i]);
      PriorIsPrevious(s.log, source, buffer[i].observation.productId);
      PreviousInLog(s.log, source, buffer[i].observation.productId);
    }
  }

  lemma {:induction false} HistoryKeepsLog(th: Thresholds, history: seq<RunInput>)
    requires SerialCaptures(th, history)
    ensures InOrder(After(th, history).log) && Continuous(th, After(th, history).log)
  {
    hide RunOnce, Survivors, InOrder, Continuous, GoodBatch, CapturesLater;
    if history != [] {
      var n := |history| - 1;
      var s, run := After(th, history[..n]), history[n];
      PrefixCaptures(th, history);
      HistoryKeepsLog(th, history[..n]);
      RunCommitsAllOrNothing(th, s, run);
      SurvivorsAreGood(th, s, run);
      BatchKeepsLog(th, s.log, Observations(Survivors(th, s, run).buffer));
    } else {
      NothingLogged(th);
    }
  }

  lemma NothingLogged(th: Thresholds)
    ensures InOrder(EMPTY.log) && Continuous(th, EMPTY.log)
  {
  }

  lemma PrefixCaptures(th: Thresholds, history: seq<RunInput>)
    requires SerialCaptures(th, history) && history != []
    ensures SerialCaptures(th, history[..|history| - 1])
    ensures CapturesLater(After(th, history[..|history| - 1]), history[|history| - 1])
  {
    hide After, CapturesLater;
    var earlier := history[..|history| - 1];
    forall i | 0 <= i < |earlier| ensures CapturesLater(After(th, earlier[..i]), earlier[i]) {
      assert earlier[..i] == history[..i];
    }
  }

  /** Positions i < j hold consecutive observations of one product of one source. */
  ghost predicate Consecutive(log: seq<Observation>, i: nat, j: nat) {
    && i < j < |log|
    && log[i].sourceId == log[j].sourceId && log[i].productId == log[j].productId
    && forall k :: i < k < j ==> !(log[k].sourceId == log[j].sourceId && log[k].productId == log[j].productId)
  }

  lemma {:induction false} PreviousAt(log: seq<Observation>, i: nat, source: string, product: string)
    requires i < |log| && log[i].sourceId == source && log[i].productId == product
    requires forall k :: i < k < |log| ==> !(log[k].sourceId == source && log[k].productId == product)
    ensures Previous(log, source, product) == Some(log[i])
  {
    if i < |log| - 1 {
      PreviousAt(log[..|log| - 1], i, source, product);
    }
  }

  lemma {:induction false} ContinuousAt(th: Thresholds, log: seq<Observation>, j: nat)
    requires Continuous(th, log) && j < |log|
    ensures CheckRange(log[j].amount, th).None?
    ensures CheckContinuity(log[j].amount, PreviousAmount(log[..j], log[j].sourceId, log[j].productId), th).None?
  {
    if j < |log| - 1 {
      ContinuousAt(th, log[..|log| - 1], j);
      assert log[..|log| - 1][..j] == log[..j];
    }
  }

  /** The largest factor between two positive prices, in either direction. */
  function JumpRatio(a: real, b: real): real
    requires a > 0.0 && b > 0.0
  {
    if a / b >= b / a then a / b else b / a
  }

  /** The continuity gate passes a price exactly when there is no positive pair to compare or the jump is
      within the factor. */
  lemma ContinuityExact(amount: real, prior: Option<real>, th: Thresholds)
    ensures CheckContinuity(amount, prior, th).None? <==>
            prior.None? || prior.value <= 0.0 || amount <= 0.0 || JumpRatio(prior.value, amount) <= th.maxJumpRatio
  {
  }

  /** Across any history of serial runs, two consecutive committed prices of a product, both positive,
      differ by at most the allowed factor, up or down. */
  lemma PriceContinuity(th: Thresholds, history: seq<RunInput>, i: nat, j: nat)
    requires SerialCaptures(th, history)
    requires Consecutive(After(th, history).log, i, j)
    ensures var log := After(th, history).log;
      log[i].amount > 0.0 && log[j].amount > 0.0 ==> JumpRatio(log[i].amount, log[j].amount) <= th.maxJumpRatio
  {
    var log := After(th, history).log;
    HistoryKeepsLog(th, history);
    ContinuousAt(th, log, j);
    PreviousAt(log[..j], i, log[j].sourceId, log[j].productId);
  }

  /** Every committed price lies in the band, whatever the times of the runs. */
  lemma {:induction false} PricesInRange(th: Thresholds, history: seq<RunInput>, j: nat)
    requires j < |After(th, history).log|
    ensures th.priceMin <= After(th, history).log[j].amount <= th.priceMax
  {
    hide CheckContinuity, CheckVolume, LatestAmounts, BaselineCount, TakeInAll;
    var n := |history| - 1;
    var s, run := After(th, history[..n]), history[n];
    RunCommitsAllOrNothing(th, s, run);
    if j < |s.log| {
      PricesInRange(th, history[..n], j);
    } else {
      BufferIsVetted(th, run.ctx, LatestAmounts(s.log, run.ctx.sourceId), run.captures);
    }
  }

  // ----- Volume across runs -----

  /** The source's last committed run in ledger order. */
  function LastCommitted(runs: seq<CrawlRun>, source: string): Option<CrawlRun> {
    if runs == [] then None
    else
      var r := runs[|runs| - 1];
      if r.sourceId == source && Committed(r) then Some(r) else LastCommitted(runs[..|runs| - 1], source)
  }

  /** Later runs of a source finish later and have ids of their own. */
  ghost predicate FinishesLater(s: Store, run: RunInput) {
    forall i :: 0 <= i < |s.runs| ==>
      && s.runs[i].id != run.ctx.runId
      && (s.runs[i].sourceId == run.ctx.sourceId && s.runs[i].finishedAt.Some? ==>
            s.runs[i].finishedAt.value < run.finishedAt)
  }

  ghost predicate SerialFinishes(th: Thresholds, history: seq<RunInput>) {
    forall i :: 0 <= i < |history| ==> FinishesLater(After(th, history[..i]), history[i])
  }

  /** Ledger rows of one source, in order of their finish times. */
  ghost predicate LedgerInOrder(runs: seq<CrawlRun>) {
    forall i, j :: 0 <= i < j < |runs| && runs[i].sourceId == runs[j].sourceId
                   && runs[i].finishedAt.Some? && runs[j].finishedAt.Some? ==>
      runs[i].finishedAt.value < runs[j].finishedAt.value
  }

  lemma {:induction false} LastFinishedIsLast(runs: seq<CrawlRun>, source: string, excluded: string)
    requires LedgerInOrder(runs)
    requires forall i :: 0 <= i < |runs| ==> runs[i].id != excluded
    ensures LastFinished(runs, source, excluded) == LastCommitted(runs, source)
    ensures var r := LastCommitted(runs, source);
      r.Some? ==> Committed(r.value) && exists i :: 0 <= i < |runs| && runs[i] == r.value && r.value.sourceId == source
  {
    if runs != [] {
      var n := |runs| - 1;
      LastFinishedIsLast(runs[..n], source, excluded);
      var r := LastCommitted(runs[..n], source);
      if r.Some? {
        var i :| 0 <= i < n && runs[..n][i] == r.value;
        assert runs[i] == r.value;
      }
    }
  }

  predicate InBand(th: Thresholds, count: nat, baseline: nat) {
    && (baseline as real) * (1.0 - th.volumeTolerance) <= count as real
    && count as real <= (baseline as real) * (1.0 + th.volumeTolerance)
  }

  /** Every committed row is in the band of the source's committed row before it, when that one is large enough. */
  ghost predicate Banded(th: Thresholds, runs: seq<CrawlRun>) {
    runs != [] ==>
      var (before, r) := (runs[..|runs| - 1], runs[|runs| - 1]);
      && Banded(th, before)
      && var b := LastCommitted(before, r.sourceId);
         Committed(r) && b.Some? && b.value.itemsOk >= th.volumeMinBaseline ==> InBand(th, r.itemsOk, b.value.itemsOk)
  }

  lemma OutsideIsAnomalous(th: Thresholds, count: nat, baseline: nat)
    requires baseline >= th.volumeMinBaseline
    ensures CheckVolume(count, Some(baseline), th).Some? <==> !InBand(th, count, baseline)
  {
  }

  lemma RowKeepsOrder(th: Thresholds, s: Store, run: RunInput)
    requires LedgerInOrder(s.runs) && FinishesLater(s, run)
    ensures LedgerInOrder(RunOnce(th, s, run).runs)
  {
    hide Survivors, Anomalous, ToCommit;
  }

  lemma RowInBand(th: Thresholds, s: Store, run: RunInput)
    requires LedgerInOrder(s.runs) && FinishesLater(s, run)
    ensures var (row, b) := (LedgerRow(th, s, run), LastCommitted(s.runs, run.ctx.sourceId));
      Committed(row) && b.Some? && b.value.itemsOk >= th.volumeMinBaseline ==> InBand(th, row.itemsOk, b.value.itemsOk)
  {
    hide InBand, CheckVolume, Survivors, LastCommitted, LastFinished, LedgerInOrder;
    LastFinishedIsLast(s.runs, run.ctx.sourceId, run.ctx.runId);
    var b := LastCommitted(s.runs, run.ctx.sourceId);
    if b.Some? && b.value.itemsOk >= th.volumeMinBaseline {
      OutsideIsAnomalous(th, |Survivors(th, s, run).buffer|, b.value.itemsOk);
    }
  }

  lemma PrefixSerial(th: Thresholds, history: seq<RunInput>)
    requires SerialFinishes(th, history) && history != []
    ensures SerialFinishes(th, history[..|history| - 1])
    ensures FinishesLater(After(th, history[..|history| - 1]), history[|history| - 1])
  {
    hide After, FinishesLater;
    var earlier := history[..|history| - 1];
    forall i | 0 <= i < |earlier| ensures FinishesLater(After(th, earlier[..i]), earlier[i]) {
      assert earlier[..i] == history[..i];
    }
  }

  lemma {:induction false} HistoryIsBanded(th: Thresholds, history: seq<RunInput>)
    requires SerialFinishes(th, history)
    ensures LedgerInOrder(After(th, history).runs) && Banded(th, After(th, history).runs)
  {
    if history != [] {
      var n := |history| - 1;
      PrefixSerial(th, history);
      HistoryIsBanded(th, history[..n]);
      RowInBand(th, After(th, history[..n]), history[n]);
      RowKeepsOrder(th, After(th, history[..n]), history[n]);
      var s := After(th, history[..n]);
      assert (s.runs + [LedgerRow(th, s, history[n])])[..|s.runs|] == s.runs;
    }
  }

  lemma {:induction false} LastCommittedAt(runs: seq<CrawlRun>, i: nat, source: string)
    requires i < |runs| && runs[i].sourceId == source && Committed(runs[i])
    requires forall k :: i < k < |runs| ==> !(runs[k].sourceId == source && Committed(runs[k]))
    ensures LastCommitted(runs, source) == Some(runs[i])
  {
    if i < |runs| - 1 {
      LastCommittedAt(runs[..|runs| - 1], i, source);
    }
  }

  lemma {:induction false} BandedAt(th: Thresholds, runs: seq<CrawlRun>, j: nat)
    requires Banded(th, runs) && j < |runs|
    ensures var b := LastCommitted(runs[..j], runs[j].sourceId);
      Committed(runs[j]) && b.Some? && b.value.itemsOk >= th.volumeMinBaseline ==>
        InBand(th, runs[j].itemsOk, b.value.itemsOk)
  {
    if j < |runs| - 1 {
      BandedAt(th, runs[..|runs| - 1], j);
      assert runs[..|runs| - 1][..j] == runs[..j];
    }
  }

  /** Across any history of serial runs, the item counts of two consecutive success or partial runs of a
      source stay within the tolerance band whenever the earlier one reaches the minimum baseline,
      however many failed, flagged or quarantined runs lie between them. */
  lemma VolumeBand(th: Thresholds, history: seq<RunInput>, i: nat, j: nat)
    requires SerialFinishes(th, history)
    requires var runs := After(th, history).runs;
      && i < j < |runs| && runs[i].sourceId == runs[j].sourceId && Committed(runs[i]) && Committed(runs[j])
      && (forall k :: i < k < j ==> !(runs[k].sourceId == runs[j].sourceId && Committed(runs[k])))
      && runs[i].itemsOk >= th.volumeMinBaseline
    ensures InBand(th, After(th, history).runs[j].itemsOk, After(th, history).runs[i].itemsOk)
  {
    var runs := After(th, history).runs;
    HistoryIsBanded(th, history);
    BandedAt(th, runs, j);
    LastCommittedAt(runs[..j], i, runs[j].sourceId);
  }

  // ----- A source outside its band is frozen -----

  function LogOf(log: seq<Observation>, source: string): seq<Observation> {
    if log == [] then []
    else LogOf(log[..|log| - 1], source) + (if log[|log| - 1].sourceId == source then [log[|log| - 1]] else [])
  }

  lemma {:induction false} LogOfAppend(log: seq<Observation>, more: seq<Observation>, source: string)
    requires forall i :: 0 <= i < |more| ==> more[i].sourceId != source
    ensures LogOf(log + more, source) == LogOf(log, source)
  {
    if more == [] {
      assert log + more == log;
    } else {
      assert (log + more)[..|log + more| - 1] == log + more[..|more| - 1];
      LogOfAppend(log, more[..|more| - 1], source);
    }
  }

  /** Every run of the source from position k on has a survivor count outside the band of `baseline`. */
  ghost predicate OutsideFrom(th: Thresholds, history: seq<RunInput>, k: nat, source: string, baseline: nat) {
    forall m :: k <= m < |history| && history[m].ctx.sourceId == source ==>
      !InBand(th, |Survivors(th, After(th, history[..m]), history[m]).buffer|, baseline)
  }

  /** If every later run of a source falls outside the band, its baseline never moves and nothing of it is
      ever committed again, whatever the other sources do. */
  lemma {:induction false} FrozenSource(th: Thresholds, history: seq<RunInput>, k: nat, source: string)
    requires SerialFinishes(th, history) && k <= |history|
    requires var b := LastCommitted(After(th, history[..k]).runs, source);
      b.Some? && b.value.itemsOk >= th.volumeMinBaseline && OutsideFrom(th, history, k, source, b.value.itemsOk)
    ensures LogOf(After(th, history).log, source) == LogOf(After(th, history[..k]).log, source)
    ensures LastCommitted(After(th, history).runs, source) == LastCommitted(After(th, history[..k]).runs, source)
    decreases |history|
  {
    hide InBand, LogOf, LastCommitted, FinishesLater, LedgerInOrder, Banded, Survivors, RunOnce;
    var n := |history| - 1;
    if k == |history| {
      assert history[..k] == history;
    } else {
      var earlier := history[..n];
      PrefixSerial(th, history);
      PrefixOutside(th, history, k, source, LastCommitted(After(th, history[..k]).runs, source).value.itemsOk);
      assert earlier[..k] == history[..k];
      FrozenSource(th, earlier, k, source);
      HistoryIsBanded(th, earlier);
      StaysFrozen(th, After(th, earlier), history[n], source);
    }
  }

  lemma PrefixOutside(th: Thresholds, history: seq<RunInput>, k: nat, source: string, baseline: nat)
    requires history != [] && OutsideFrom(th, history, k, source, baseline)
    ensures OutsideFrom(th, history[..|history| - 1], k, source, baseline)
  {
    hide After, Survivors, InBand;
    var earlier := history[..|history| - 1];
    forall m | k <= m < |earlier| && earlier[m].ctx.sourceId == source
      ensures !InBand(th, |Survivors(th, After(th, earlier[..m]), earlier[m]).buffer|, baseline)
    {
      assert earlier[..m] == history[..m];
    }
  }

  lemma StaysFrozen(th: Thresholds, s: Store, run: RunInput, source: string)
    requires LedgerInOrder(s.runs) && FinishesLater(s, run)
    requires var b := LastCommitted(s.runs, source);
      && b.Some? && b.value.itemsOk >= th.volumeMinBaseline
      && (run.ctx.sourceId == source ==> !InBand(th, |Survivors(th, s, run).buffer|, b.value.itemsOk))
    ensures LogOf(RunOnce(th, s, run).log, source) == LogOf(s.log, source)
    ensures LastCommitted(RunOnce(th, s, run).runs, source) == LastCommitted(s.runs, source)
  {
    hide InBand, CheckVolume;
    if run.ctx.sourceId == source {
      LastFinishedIsLast(s.runs, source, run.ctx.runId);
      OutsideIsAnomalous(th, |Survivors(th, s, run).buffer|, LastCommitted(s.runs, source).value.itemsOk);
      CommitsNothing(th, s, run);
      assert !Committed(LedgerRow(th, s, run));
    } else {
      OthersRun(th, s, run, source);
    }
    assert (s.runs + [LedgerRow(th, s, run)])[..|s.runs|] == s.runs;
  }

  lemma OthersRun(th: Thresholds, s: Store, run: RunInput, source: string)
    requires run.ctx.sourceId != source
    ensures LogOf(RunOnce(th, s, run).log, source) == LogOf(s.log, source)
  {
    hide InBand, CheckVolume;
    RunCommitsAllOrNothing(th, s, run);
    var buffer := Survivors(th, s, run).buffer;
    BufferIsVetted(th, run.ctx, LatestAmounts(s.log, run.ctx.sourceId), run.captures);
    forall i | 0 <= i < |buffer| ensures Observations(buffer)[i].sourceId != source {
      assert Vetted(th, run.ctx, LatestAmounts(s.log, run.ctx.sourceId), run.captures, buffer[i]);
    }
    LogOfAppend(s.log, Observations(buffer), source);
  }
}
