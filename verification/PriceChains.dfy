/** Prices with free days in between: exactly when the continuity gate bounds every price jump of a history. */
module PriceChains {
  import opened Wrappers
  import opened Storage
  import opened Pipeline
  import opened RunHistory

  /** Positions i < j hold positive prices of one product of one source, with no positive one between. */
  ghost predicate NextPositive(log: seq<Observation>, i: nat, j: nat) {
    && i < j < |log| && SameProduct(log[i], log[j]) && log[i].amount > 0.0 && log[j].amount > 0.0
    && forall k :: i < k < j && SameProduct(log[k], log[j]) ==> log[k].amount <= 0.0
  }

  predicate SameProduct(o: Observation, o': Observation) {
    o.sourceId == o'.sourceId && o.productId == o'.productId
  }

  /** No product's price jumps by more than the factor from one positive price to the next. */
  ghost predicate NoJump(th: Thresholds, log: seq<Observation>) {
    forall i: nat, j: nat :: NextPositive(log, i, j) ==> JumpRatio(log[i].amount, log[j].amount) <= th.maxJumpRatio
  }

  ghost predicate Serial(th: Thresholds, history: seq<RunInput>) {
    SerialCaptures(th, history) && SerialFinishes(th, history)
  }

  // ----- A free day in between -----

  const ID := CanonicalId("s", "1")

  /** An interrupted run of one item. */
  function Listing(price: real, day: real, runId: string): RunInput {
    RunInput(Context("s", runId),
             [Capture(Raw("1", Details("t", None, "u", None), Some(price), Some("USD"), None), day)],
             Ended(false, false), 0, 1, day, day)
  }

  function Listed(price: real, day: real, runId: string): Observation {
    Observation(ID, "s", runId, price, "USD", None, day)
  }

  function ListedRow(day: real, runId: string): CrawlRun {
    CrawlRun(runId, "s", Failed, 1, 0, 0, Some(1), day, Some(day))
  }

  lemma {:induction false} NoBaseline(runs: seq<CrawlRun>, source: string, excluded: string)
    requires forall r :: r in runs ==> r.status == Failed
    ensures BaselineCount(runs, source, excluded) == None
  {
    if runs != [] {
      NoBaseline(runs[..|runs| - 1], source, excluded);
    }
  }

  lemma OneSurvivor(th: Thresholds, s: Store, price: real, day: real, runId: string)
    requires price >= 0.0 && th.priceMin <= price <= th.priceMax && InOrder(s.log)
    requires CheckContinuity(price, PreviousAmount(s.log, "s", ID), th).None?
    ensures Observations(Survivors(th, s, Listing(price, day, runId)).buffer) == [Listed(price, day, runId)]
    ensures Survivors(th, s, Listing(price, day, runId)).rejected == 0
  {
    hide CheckContinuity, LatestAmounts;
    var run := Listing(price, day, runId);
    PriorIsPrevious(s.log, "s", ID);
    assert run.captures[..0] == [];
    assert TakeInAll(th, run.ctx, LatestAmounts(s.log, "s"), []) == IDLE;
    var item := Normalize(run.ctx, run.captures[0]).value;
    assert Passes(th, LatestAmounts(s.log, "s"), item);
    assert IDLE.buffer + [item] == [item];
    assert Survivors(th, s, run).buffer == [item];
  }

  /** Such a run commits its price whenever the gates let it, as long as no run of the source succeeded. */
  lemma ListingCommits(th: Thresholds, s: Store, price: real, day: real, runId: string)
    requires price >= 0.0 && th.priceMin <= price <= th.priceMax && InOrder(s.log)
    requires CheckContinuity(price, PreviousAmount(s.log, "s", ID), th).None?
    requires forall r :: r in s.runs ==> r.status == Failed
    ensures RunOnce(th, s, Listing(price, day, runId)).log == s.log + [Listed(price, day, runId)]
    ensures RunOnce(th, s, Listing(price, day, runId)).runs == s.runs + [ListedRow(day, runId)]
  {
    hide Survivors, InOrder, PreviousAmount, CheckContinuity;
    OneSurvivor(th, s, price, day, runId);
    NoBaseline(s.runs, "s", runId);
    FlushAppends(s, ToCommit(th, s, Listing(price, day, runId)));
    assert |Observations(ToCommit(th, s, Listing(price, day, runId)))| == 1;
  }

  /** One price, a free day, another price. */
  function FreeDay(low: real, high: real): seq<RunInput> {
    [Listing(low, 0.0, "a"), Listing(0.0, 1.0, "b"), Listing(high, 2.0, "c")]
  }

  lemma NextDay(th: Thresholds, history: seq<RunInput>, price: real, day: real, runId: string)
    requires price >= 0.0 && th.priceMin <= price <= th.priceMax && InOrder(After(th, history).log)
    requires CheckContinuity(price, PreviousAmount(After(th, history).log, "s", ID), th).None?
    requires forall r :: r in After(th, history).runs ==> r.status == Failed
    ensures var (before, after) := (After(th, history), After(th, history + [Listing(price, day, runId)]));
      && after.log == before.log + [Listed(price, day, runId)] && after.runs == before.runs + [ListedRow(day, runId)]
  {
    hide RunOnce, CheckContinuity, PreviousAmount, InOrder, Listing;
    ListingCommits(th, After(th, history), price, day, runId);
    assert (history + [Listing(price, day, runId)])[..|history|] == history;
  }

  lemma FirstDay(th: Thresholds, low: real)
    requires 0.0 < low && th.priceMin <= low <= th.priceMax
    ensures After(th, [Listing(low, 0.0, "a")]).log == [Listed(low, 0.0, "a")]
    ensures After(th, [Listing(low, 0.0, "a")]).runs == [ListedRow(0.0, "a")]
  {
    hide RunOnce;
    assert After(th, []) == EMPTY;
    NextDay(th, [], low, 0.0, "a");
    assert [] + [Listing(low, 0.0, "a")] == [Listing(low, 0.0, "a")];
  }

  lemma SecondDay(th: Thresholds, low: real, high: real)
    requires th.priceMin <= 0.0 < low <= th.priceMax
    ensures After(th, FreeDay(low, high)[..2]).log == [Listed(low, 0.0, "a"), Listed(0.0, 1.0, "b")]
    ensures After(th, FreeDay(low, high)[..2]).runs == [ListedRow(0.0, "a"), ListedRow(1.0, "b")]
  {
    hide RunOnce, After;
    FirstDay(th, low);
    assert [Listed(low, 0.0, "a")][..0] == [];
    NextDay(th, [Listing(low, 0.0, "a")], 0.0, 1.0, "b");
    assert FreeDay(low, high)[..2] == [Listing(low, 0.0, "a")] + [Listing(0.0, 1.0, "b")];
  }

  lemma ThirdDay(th: Thresholds, low: real, high: real)
    requires th.priceMin <= 0.0 && 0.0 < low <= th.priceMax && 0.0 < high <= th.priceMax
    ensures After(th, FreeDay(low, high)).log == [Listed(low, 0.0, "a"), Listed(0.0, 1.0, "b"), Listed(high, 2.0, "c")]
  {
    hide RunOnce, After;
    SecondDay(th, low, high);
    var log := [Listed(low, 0.0, "a"), Listed(0.0, 1.0, "b")];
    assert log[..1] == [Listed(low, 0.0, "a")];
    assert InOrder(log[..1]) && InOrder(log) by { assert log[..1][..0] == []; }
    assert PreviousAmount(log, "s", ID) == Some(0.0);
    NextDay(th, FreeDay(low, high)[..2], high, 2.0, "c");
    assert FreeDay(low, high) == FreeDay(low, high)[..2] + [Listing(high, 2.0, "c")];
  }

  /** A committed zero in between ends the chain: three interrupted runs, serial in captures and finishes,
      commit any positive price of the band, zero, and any other positive price of the band. */
  lemma ZeroPriceResets(th: Thresholds, low: real, high: real)
    requires th.priceMin <= 0.0 && 0.0 < low <= th.priceMax && 0.0 < high <= th.priceMax
    ensures var log := After(th, FreeDay(low, high)).log;
      && Serial(th, FreeDay(low, high))
      && |log| == 3 && (log[0].amount, log[1].amount, log[2].amount) == (low, 0.0, high)
      && NextPositive(log, 0, 2)
  {
    ThirdDay(th, low, high);
    ThreeDaysAreSerial(th, low, high);
  }

  lemma ThreeDaysAreSerial(th: Thresholds, low: real, high: real)
    requires th.priceMin <= 0.0 && 0.0 < low <= th.priceMax
    ensures Serial(th, FreeDay(low, high))
  {
    hide After, RunOnce;
    var days := FreeDay(low, high);
    FirstDay(th, low);
    SecondDay(th, low, high);
    assert days[..0] == [] && days[..1] == [Listing(low, 0.0, "a")];
    assert After(th, []) == EMPTY by { NothingRun(th); }
    forall i | 0 <= i < |days|
      ensures CapturesLater(After(th, days[..i]), days[i]) && FinishesLater(After(th, days[..i]), days[i])
    {
      assert i == 0 || i == 1 || i == 2;
    }
  }

  lemma NothingRun(th: Thresholds)
    ensures After(th, []) == EMPTY
  {
  }

  // ----- The exact condition -----

  /** A price of the band so low that the highest price is more than the factor above it. */
  lemma FarBelow(th: Thresholds) returns (low: real)
    requires th.priceMax > 0.0
    ensures 0.0 < low <= th.priceMax && JumpRatio(low, th.priceMax) > th.maxJumpRatio
  {
    var factor := if th.maxJumpRatio > 0.0 then th.maxJumpRatio + 1.0 else 1.0;
    low := th.priceMax / factor;
    assert low * factor == th.priceMax;
    assert th.priceMax / low == factor;
  }

  lemma PositiveBandHasNoGaps(th: Thresholds, history: seq<RunInput>)
    requires Serial(th, history) && (th.priceMin > 0.0 || th.priceMax <= 0.0)
    ensures NoJump(th, After(th, history).log)
  {
    hide After, JumpRatio;
    var log := After(th, history).log;
    forall i: nat, j: nat | NextPositive(log, i, j)
      ensures JumpRatio(log[i].amount, log[j].amount) <= th.maxJumpRatio
    {
      forall k: nat | k < |log| ensures th.priceMin <= log[k].amount <= th.priceMax {
        PricesInRange(th, history, k);
      }
      NoneBetween(log, i, j);
      PriceContinuity(th, history, i, j);
    }
  }

  lemma NoneBetween(log: seq<Observation>, i: nat, j: nat)
    requires NextPositive(log, i, j) && forall k :: i < k < j ==> log[k].amount > 0.0
    ensures Consecutive(log, i, j)
  {
  }

  /** Every serial history bounds every jump from one positive price of a product to its next one, free days
      skipped, if and only if the price band admits no zero together with a positive price. */
  lemma NoJumpExactly(th: Thresholds)
    ensures (forall history: seq<RunInput> :: Serial(th, history) ==> NoJump(th, After(th, history).log)) <==>
            th.priceMin > 0.0 || th.priceMax <= 0.0
  {
    hide After, Serial, JumpRatio, NextPositive;
    if th.priceMin > 0.0 || th.priceMax <= 0.0 {
      forall history: seq<RunInput> | Serial(th, history) ensures NoJump(th, After(th, history).log) {
        PositiveBandHasNoGaps(th, history);
      }
    } else {
      var low := FarBelow(th);
      ZeroPriceResets(th, low, th.priceMax);
      JumpsOver(th, After(th, FreeDay(low, th.priceMax)).log, 0, 2);
    }
  }

  lemma JumpsOver(th: Thresholds, log: seq<Observation>, i: nat, j: nat)
    requires NextPositive(log, i, j) && JumpRatio(log[i].amount, log[j].amount) > th.maxJumpRatio
    ensures !NoJump(th, log)
  {
  }
}
