/** What one run of a serial history writes, decided by its captures, its ending and the ledger before it. */
module RunDecisions {
  import opened Wrappers
  import opened Positions
  import opened Storage
  import opened Pipeline
  import opened RunHistory

  function Prior(s: Store, run: RunInput): map<string, real> {
    LatestAmounts(s.log, run.ctx.sourceId)
  }

  /** The positions of the captures that are kept, and of those that are rejected. */
  ghost function KeptOf(th: Thresholds, s: Store, run: RunInput): seq<nat> {
    Where(|run.captures|, (k: nat) => KeptAt(th, run.ctx, Prior(s, run), run.captures, k))
  }

  ghost function RejectsOf(th: Thresholds, s: Store, run: RunInput): seq<nat> {
    Where(|run.captures|, (k: nat) => RejectAt(th, run.ctx, Prior(s, run), run.captures, k))
  }

  lemma SurvivorsCounted(th: Thresholds, s: Store, run: RunInput)
    ensures |Survivors(th, s, run).buffer| == |KeptOf(th, s, run)|
    ensures Survivors(th, s, run).rejected == |RejectsOf(th, s, run)|
    ensures RejectsOf(th, s, run) != [] <==>
            exists k: nat :: RejectAt(th, run.ctx, Prior(s, run), run.captures, k)
  {
    hide KeptAt, RejectAt, Where, TakeInAll, LatestAmounts;
    IntakeAccounted(th, run.ctx, Prior(s, run), run.captures);
    WhereLists(|run.captures|, (k: nat) => RejectAt(th, run.ctx, Prior(s, run), run.captures, k));
    forall k: nat | RejectAt(th, run.ctx, Prior(s, run), run.captures, k) ensures k in RejectsOf(th, s, run) {
      RejectsAreCaptures(th, run.ctx, Prior(s, run), run.captures, k);
    }
    if RejectsOf(th, s, run) != [] {
      assert RejectsOf(th, s, run)[0] in RejectsOf(th, s, run);
    }
  }

  lemma RejectsAreCaptures(th: Thresholds, ctx: Context, prior: map<string, real>, captures: seq<Capture>, k: nat)
    requires RejectAt(th, ctx, prior, captures, k)
    ensures k < |captures|
  {
  }

  /** The count is measured against the source's last committed run, if it counts at least the minimum, and
      lies outside the tolerance band around it. */
  predicate OutOfBand(th: Thresholds, runs: seq<CrawlRun>, source: string, count: nat) {
    var b := LastCommitted(runs, source);
    && b.Some? && b.value.itemsOk >= th.volumeMinBaseline
    && var (base, tolerance) := (b.value.itemsOk as real, th.volumeTolerance);
       (count as real) < base * (1.0 - tolerance) || (count as real) > base * (1.0 + tolerance)
  }

  lemma GateDecided(th: Thresholds, s: Store, run: RunInput)
    requires LedgerInOrder(s.runs) && FinishesLater(s, run)
    ensures Anomalous(th, s, run) <==> OutOfBand(th, s.runs, run.ctx.sourceId, |Survivors(th, s, run).buffer|)
  {
    hide Survivors, LastCommitted, LastFinished, LedgerInOrder;
    LastFinishedIsLast(s.runs, run.ctx.sourceId, run.ctx.runId);
  }

  /** An item passes the gates exactly with a price in the band and, against a positive prior, without a jump
      beyond the factor; a zero price never jumps. */
  lemma PassesDecided(th: Thresholds, prior: map<string, real>, item: NormalizedItem)
    ensures var (amount, id) := (item.observation.amount, item.product.id);
      Passes(th, prior, item) <==>
      && th.priceMin <= amount <= th.priceMax
      && (id in prior && prior[id] > 0.0 && amount > 0.0 ==> JumpRatio(prior[id], amount) <= th.maxJumpRatio)
  {
  }

  /** Exactly what the next run of a serial history appends and how the ledger calls it. Out of band means: the
      kept captures are too few or too many against the source's last committed run; a small or missing
      baseline excludes nothing. Repeats make no difference to the status. */
  lemma RunDecided(th: Thresholds, history: seq<RunInput>, run: RunInput)
    requires SerialFinishes(th, history) && FinishesLater(After(th, history), run)
    ensures var s := After(th, history);
      var (s', row, kept, rejects) :=
        (RunOnce(th, s, run), LedgerRow(th, s, run), KeptOf(th, s, run), RejectsOf(th, s, run));
      var quarantined := OutOfBand(th, s.runs, run.ctx.sourceId, |kept|);
      var written := !quarantined && run.ending != Crashed(false);
      && s'.log == s.log + (if written then Observations(Survivors(th, s, run).buffer) else [])
      && |s'.log| == |s.log| + (if written then |kept| else 0)
      && (row.id, row.sourceId, row.banEvents) == (run.ctx.runId, run.ctx.sourceId, run.banEvents)
      && (row.startedAt, row.finishedAt) == (run.startedAt, Some(run.finishedAt))
      && row.timings == Some(if run.ending.Crashed? then 0 else run.requests)
      && match run.ending
         case Crashed(_) => row.status == Failed && row.itemsOk == row.itemsRejected == 0
         case Ended(finished, drift) =>
           && row.itemsOk == (if quarantined then 0 else |kept|) && row.itemsRejected == |rejects|
           && row.status ==
              if !finished then Failed else if drift then Flagged else if quarantined then Quarantined
              else if exists k: nat :: RejectAt(th, run.ctx, Prior(s, run), run.captures, k) then Partial
              else Success
  {
    hide After, KeptOf, RejectsOf, OutOfBand, Survivors, Anomalous, FinishesLater, LedgerInOrder, Banded,
      RejectAt, Prior;
    var s := After(th, history);
    HistoryIsBanded(th, history);
    GateDecided(th, s, run);
    SurvivorsCounted(th, s, run);
    FlushAppends(s, ToCommit(th, s, run));
    assert Observations([]) == [];
  }

  /** Instance: on empty tables, a finished run of one product captured twice is a success. */
  lemma RepeatsAreNoRejects(th: Thresholds, run: RunInput)
    requires th.priceMin <= 1.0 <= th.priceMax && run.ending == Ended(true, false)
    requires |run.captures| == 2 && run.captures[0].scraped == run.captures[1].scraped
    requires run.captures[0].scraped == Raw("1", Details("t", None, "u", None), Some(1.0), Some("USD"), None)
    ensures LedgerRow(th, EMPTY, run).status == Success && LedgerRow(th, EMPTY, run).itemsOk == 1
  {
    hide Survivors, Anomalous;
    assert After(th, []) == EMPTY;
    assert ProductsOf(EMPTY.log, run.ctx.sourceId) == {};
    RunDecided(th, [], run);
    var n := |run.captures|;
    assert !RejectAt(th, run.ctx, Prior(EMPTY, run), run.captures, 0);
    assert !RejectAt(th, run.ctx, Prior(EMPTY, run), run.captures, 1);
    var p := (k: nat) => KeptAt(th, run.ctx, Prior(EMPTY, run), run.captures, k);
    assert p(0) && !p(1);
    assert Where(0, p) == [] && Where(1, p) == [0] && Where(2, p) == [0];
  }
}
