/** What every interleaving of requests guarantees: conservation, bounded work, lawful backoff, resting
    domains, fresh identities. */
module RunTheorems {
  import opened Wrappers
  import opened Sums
  import opened Classifier
  import opened Backoff
  import opened Circuit
  import opened CircuitBreakers
  import opened Proxies
  import opened Identities
  import opened Stack
  import opened Runs

  // ----- Conservation -----

  function DownloadsOf(j: Job): nat { if j.request.infra then 0 else j.downloads }

  function OpenOf(j: Job): nat { if j.request.infra then 0 else WaitingOf(j) }

  function FlyingOf(j: Job): nat { if !j.request.infra && j.phase == InFlight then 1 else 0 }

  /** In every reachable state of every interleaving:
      every request asked for (initially or as a retry) was skipped by a breaker, downloaded, or is
      waiting; every download is in flight, delivered, a ban event, or became a retry; and the ban
      counter, the per-kind counters, the sink and the banned requests all agree. */
  lemma Conservation(cfg: Config, ws: seq<World>, steps: seq<Step>, i: nat)
    requires Behavior(cfg, ws, steps) && i < |ws|
    ensures var (jobs, st) := (ws[i].jobs, ws[i].stack.stats);
      var retries := st.backoffRetries + st.identityRotations + st.cookieRetries;
      && Sum(jobs, StartsOf) + retries == st.circuitSkipped + Sum(jobs, DownloadsOf) + Sum(jobs, OpenOf)
      && Sum(jobs, DownloadsOf) == Sum(jobs, FlyingOf) + Sum(jobs, DeliveredOf) + st.banEvents + retries
      && Sum(jobs, BansOf) == st.banEvents == |st.bans| == |ws[i].stack.sink|
      && Kinds(ws[i].stack.sink) == st.bans
      && forall kind :: Sum(jobs, BansOfKind(kind)) == st.bans[kind]
  {
    Always(cfg, ws, steps, i);
    var jobs := ws[i].jobs;
    assert Accounts(cfg, jobs);
    forall j | j in jobs
      ensures DownloadsOf(j) + OpenOf(j) + SkippedOf(j) == StartsOf(j) + BackoffsOf(j) + RotationsOf(j)
      ensures FlyingOf(j) + DeliveredOf(j) + BansOf(j) == DownloadsOf(j) - BackoffsOf(j) - RotationsOf(j)
    {
      assert JobAccount(cfg, j);
    }
    SumBalance(jobs, DownloadsOf, OpenOf, SkippedOf, StartsOf, BackoffsOf, RotationsOf);
    DownloadsSplit(jobs);
    KindsSize(ws[i].stack.sink);
  }

  lemma {:induction false} DownloadsSplit(jobs: seq<Job>)
    requires forall j :: j in jobs ==>
      DownloadsOf(j) == FlyingOf(j) + DeliveredOf(j) + BansOf(j) + BackoffsOf(j) + RotationsOf(j)
    ensures Sum(jobs, DownloadsOf) ==
      Sum(jobs, FlyingOf) + Sum(jobs, DeliveredOf) + Sum(jobs, BansOf) + Sum(jobs, BackoffsOf) + Sum(jobs, RotationsOf)
  {
    if jobs != [] {
      assert jobs[0] in jobs;
      DownloadsSplit(jobs[1..]);
    }
  }

  lemma {:induction false} KindsSize(sink: seq<BanEvent>)
    ensures |Kinds(sink)| == |sink|
  {
    if sink != [] {
      KindsSize(sink[..|sink| - 1]);
    }
  }

  // ----- Bounded work -----

  /** One request, with all its retries, costs at most 1 + max_retries + max_attempts downloads
      whatever the server answers: a sum, not a product. */
  lemma DownloadsBounded(cfg: Config, ws: seq<World>, steps: seq<Step>, i: nat, k: nat)
    requires Behavior(cfg, ws, steps) && i < |ws| && k < |ws[i].jobs|
    ensures ws[i].jobs[k].downloads <= 1 + Budget(cfg.backoff.maxRetries) + Budget(cfg.maxAttempts)
  {
    Always(cfg, ws, steps, i);
    assert Accounts(cfg, ws[i].jobs) && ws[i].jobs[k] in ws[i].jobs;
  }

  function Left(limit: int, used: nat): nat {
    if used >= limit then 0 else limit - used
  }

  /** Steps a request can still take. */
  function Potential(cfg: Config, j: Job): nat {
    var left := Left(cfg.backoff.maxRetries, j.request.backoffRetries)
      + Left(cfg.maxAttempts, j.request.rotationAttempts);
    match j.phase
    case Queued => 3 * left + 2
    case Sleeping(_) => 3 * left + 3
    case InFlight => 3 * left + 1
    case _ => 0
  }

  function PotentialOf(cfg: Config): Job -> nat { (j: Job) => Potential(cfg, j) }

  function SubmitCost(cfg: Config): nat { 3 * (Budget(cfg.backoff.maxRetries) + Budget(cfg.maxAttempts)) + 2 }

  lemma AskCosts(cfg: Config, s: StackState, j: Job, now: real)
    requires ValidStack(cfg, s) && j.phase == Queued
    ensures Potential(cfg, AfterAsk(j, Admit(cfg, s, j.request, now).1)) < Potential(cfg, j)
  {
  }

  lemma AnswerCosts(cfg: Config, s: StackState, j: Job, response: Response, now: real, jitter: real)
    requires ValidStack(cfg, s) && j.phase == InFlight
    ensures Potential(cfg, AfterAnswer(j, Receive(cfg, s, j.request, response, now, jitter).1, now)) < Potential(cfg, j)
  {
    if !j.request.infra {
      ReceiveOutcome(cfg, s, j.request, response, now, jitter);
    }
  }

  /** Every step but a new submission uses up potential. */
  lemma StepCosts(cfg: Config, w: World, e: Step)
    requires ValidStack(cfg, w.stack) && Enabled(cfg, w, e)
    ensures var (before, after) := (Sum(w.jobs, PotentialOf(cfg)), Sum(Next(cfg, w, e).jobs, PotentialOf(cfg)));
      if e.Submit? then after == before + SubmitCost(cfg) else after < before
  {
    hide Admit, Receive;
    var f := PotentialOf(cfg);
    match e
    case Submit(request) =>
      SumAppend(w.jobs, Job(request, Queued, 0, []), f);
    case Ask(k, now) =>
      AskCosts(cfg, w.stack, w.jobs[k], now);
      SumUpdate(w.jobs, k, Next(cfg, w, e).jobs[k], f);
    case Answer(k, response, now, jitter) =>
      AnswerCosts(cfg, w.stack, w.jobs[k], response, now, jitter);
      SumUpdate(w.jobs, k, Next(cfg, w, e).jobs[k], f);
    case Wake(k, now) =>
      SumUpdate(w.jobs, k, Next(cfg, w, e).jobs[k], f);
  }

  function Submissions(steps: seq<Step>): nat {
    if steps == [] then 0
    else Submissions(steps[..|steps| - 1]) + (if steps[|steps| - 1].Submit? then 1 else 0)
  }

  lemma BehaviorPrefix(cfg: Config, ws: seq<World>, steps: seq<Step>)
    requires Behavior(cfg, ws, steps) && steps != []
    ensures Behavior(cfg, ws[..|steps|], steps[..|steps| - 1])
  {
    hide Next, Enabled, Initial;
  }

  /** Any interleaving ends: after n submissions, at most n * (3 * (max_retries + max_attempts) + 2)
      other steps can ever be taken, against any server. */
  lemma {:induction false} RunsAreFinite(cfg: Config, ws: seq<World>, steps: seq<Step>)
    requires Behavior(cfg, ws, steps)
    ensures |steps| - Submissions(steps) + Sum(ws[|steps|].jobs, PotentialOf(cfg))
            <= Submissions(steps) * SubmitCost(cfg)
    decreases |steps|
  {
    hide Next, Enabled, PotentialOf, SubmitCost;
    if steps != [] {
      var n := |steps| - 1;
      BehaviorPrefix(cfg, ws, steps);
      RunsAreFinite(cfg, ws[..n + 1], steps[..n]);
      assert ws[n + 1] == Next(cfg, ws[n], steps[n]);
      StepCosts(cfg, ws[n], steps[n]);
      OneSubmissionMore(Submissions(steps[..n]), SubmitCost(cfg));
    }
  }

  lemma OneSubmissionMore(n: nat, cost: nat)
    ensures (n + 1) * cost == n * cost + cost
  {
  }

  predicate Settled(j: Job) {
    j.phase == Delivery || j.phase.BanDrop? || j.phase == Skip
  }

  /** Nothing gets stuck: no step but a submission is possible exactly when every request is settled,
      as delivered, banned or skipped. */
  lemma StuckOnlyWhenSettled(cfg: Config, w: World)
    requires ValidStack(cfg, w.stack)
    ensures (forall j :: j in w.jobs ==> Settled(j)) <==> (forall e: Step :: Enabled(cfg, w, e) ==> e.Submit?)
  {
    forall e: Step | Enabled(cfg, w, e) && !e.Submit? ensures exists j :: j in w.jobs && !Settled(j) {
      assert w.jobs[e.k] in w.jobs && !Settled(w.jobs[e.k]);
    }
    if j :| j in w.jobs && !Settled(j) {
      var k: nat :| k < |w.jobs| && w.jobs[k] == j;
      var e := match j.phase
        case Queued => Ask(k, w.now)
        case Sleeping(until) => Wake(k, Max(w.now, until))
        case _ => Answer(k, Response(200, false, false, false, None, []), w.now, 0.0);
      assert Enabled(cfg, w, e) && !e.Submit?;
    }
  }

  // ----- Backoff over a request's life -----

  /** The waits of one request have attempt indices 0, 1, ..., k - 1 with k at most max_retries, each is
      computed for its own index, and singly and together they keep the bounds. */
  lemma BackoffLife(cfg: Config, ws: seq<World>, steps: seq<Step>, i: nat, k: nat)
    requires Behavior(cfg, ws, steps) && i < |ws| && k < |ws[i].jobs|
    ensures |ws[i].jobs[k].waits| == ws[i].jobs[k].request.backoffRetries <= Budget(cfg.backoff.maxRetries)
    ensures Lawful(cfg.backoff, ws[i].jobs[k].waits) && WithinBounds(cfg.backoff, ws[i].jobs[k].waits)
  {
    Always(cfg, ws, steps, i);
    assert Accounts(cfg, ws[i].jobs) && ws[i].jobs[k] in ws[i].jobs;
    LawfulIsBounded(cfg.backoff, ws[i].jobs[k].waits);
  }

  /** The job still sleeps until then, or that time has come. */
  ghost predicate SleepsOrLater(w: World, k: nat, until: real) {
    k < |w.jobs| && (w.jobs[k].phase == Sleeping(until) || w.now >= until)
  }

  lemma StepKeepsSleeping(cfg: Config, w: World, e: Step, k: nat, until: real)
    requires ValidStack(cfg, w.stack) && Enabled(cfg, w, e) && SleepsOrLater(w, k, until)
    ensures SleepsOrLater(Next(cfg, w, e), k, until)
  {
    hide Admit, Receive, BacksOff, Drawn;
  }

  lemma {:induction false} StaysAsleep(
    cfg: Config, ws: seq<World>, steps: seq<Step>, i: nat, m: nat, k: nat, until: real)
    requires Behavior(cfg, ws, steps) && i <= m < |ws| && SleepsOrLater(ws[i], k, until)
    ensures SleepsOrLater(ws[m], k, until)
    decreases m
  {
    hide Next, Enabled, Initial, SleepsOrLater;
    if i < m {
      StaysAsleep(cfg, ws, steps, i, m - 1, k, until);
      assert ws[m] == Next(cfg, ws[m - 1], steps[m - 1]);
      StepKeepsSleeping(cfg, ws[m - 1], steps[m - 1], k, until);
    }
  }

  /** A request that was told to wait does not ask again before its delay is over, whatever else happens: a
      wait is recorded for the answer that caused it, and any later ask comes at least that much later. */
  lemma BackoffsAreWaitedOut(cfg: Config, ws: seq<World>, steps: seq<Step>, i: nat, m: nat)
    requires Behavior(cfg, ws, steps) && i < m < |steps|
    requires steps[i].Answer? && steps[m].Ask? && steps[m].k == steps[i].k
    requires ws[i].jobs[steps[i].k].request.backoffRetries < ws[i + 1].jobs[steps[i].k].request.backoffRetries
    ensures var (before, after) := (ws[i].jobs[steps[i].k], ws[i + 1].jobs[steps[i].k]);
      && |after.waits| == |before.waits| + 1
      && steps[m].now >= steps[i].now + after.waits[|before.waits|].delay
  {
    hide Receive, Initial;
    var e := steps[i];
    assert ws[i + 1] == Next(cfg, ws[i], e);
    var req := ws[i].jobs[e.k].request;
    if req.infra {
      InfraPassesThrough(cfg, ws[i].stack, req, e.response, e.now, e.jitter);
    } else {
      ReceiveOutcome(cfg, ws[i].stack, req, e.response, e.now, e.jitter);
    }
    var wait := ws[i + 1].jobs[e.k].waits[|ws[i].jobs[e.k].waits|];
    StaysAsleep(cfg, ws, steps, i + 1, m, e.k, e.now + wait.delay);
  }

  // ----- A tripped domain rests -----

  /** In every reachable state a domain's breaker is the one that its own domain's history determines:
      state, count and opening time, whatever the other domains do. */
  lemma BreakersFollowTheirDomain(
    cfg: Config, ws: seq<World>, steps: seq<Step>, i: nat, domain: string, b: Breaker)
    requires Behavior(cfg, ws, steps) && i < |ws|
    ensures Matches(cfg.circuit, TraceOf(ws[i].traces, domain), b) <==> b == BreakerAt(ws[i].stack.breakers, domain)
    ensures BreakerAt(ws[i].stack.breakers, domain).failures < Limit(cfg.circuit)
  {
    Always(cfg, ws, steps, i);
    HistoryDecides(cfg.circuit, TraceOf(ws[i].traces, domain), b);
  }

  lemma StepExtendsTrace(cfg: Config, w: World, e: Step, domain: string)
    requires ValidStack(cfg, w.stack) && Enabled(cfg, w, e)
    ensures TraceOf(w.traces, domain) <= TraceOf(Next(cfg, w, e).traces, domain)
  {
    hide Admit, Receive;
  }

  lemma {:induction false} TracesGrow(cfg: Config, ws: seq<World>, steps: seq<Step>, i: nat, k: nat, domain: string)
    requires Behavior(cfg, ws, steps) && i <= k < |ws|
    ensures TraceOf(ws[i].traces, domain) <= TraceOf(ws[k].traces, domain)
    decreases k
  {
    if i < k {
      hide Next, Enabled, Initial;
      TracesGrow(cfg, ws, steps, i, k - 1, domain);
      assert ws[k] == Next(cfg, ws[k - 1], steps[k - 1]);
      StepExtendsTrace(cfg, ws[k - 1], steps[k - 1], domain);
    }
  }

  /** Once a domain's breaker is open since t, every request of that domain that asks before t plus the
      cool-down is refused, as long as the domain answered none of its downloads in between with an OK
      response; the requests of other domains, and late blocks of this one, make no difference. */
  lemma DomainRests(cfg: Config, ws: seq<World>, steps: seq<Step>, i: nat, k: nat)
    requires Behavior(cfg, ws, steps) && i <= k < |steps|
    requires steps[k].Ask? && !ws[k].jobs[steps[k].k].request.infra
    requires var domain := ws[k].jobs[steps[k].k].request.domain;
      var b := BreakerAt(ws[i].stack.breakers, domain);
      && b.state == Open
      && steps[k].now - b.openedAt.value < cfg.circuit.cooldownSeconds
      && forall a :: |TraceOf(ws[i].traces, domain)| <= a < |TraceOf(ws[k].traces, domain)| ==>
           !TraceOf(ws[k].traces, domain)[a].Succeeded?
    ensures ws[k + 1].jobs[steps[k].k].phase == Skip
  {
    var e := steps[k];
    var domain := ws[k].jobs[e.k].request.domain;
    Always(cfg, ws, steps, i);
    Always(cfg, ws, steps, k);
    TracesGrow(cfg, ws, steps, i, k, domain);
    var (early, late) := (TraceOf(ws[i].traces, domain), TraceOf(ws[k].traces, domain));
    var trace := late + [Asked(e.now)];
    assert Clocked(late, ws[k].now);
    OneMoreClocked(late, Asked(e.now), ws[k].now, e.now);
    assert trace[..|early|] == early && trace[..|late|] == late;
    CoolingOff(cfg.circuit, trace, |early|, |late|);
    assert ws[k + 1] == Next(cfg, ws[k], e);
  }

  // ----- Proxies -----

  function SuccessesIn(p: Pool): string -> nat {
    (url: string) => if url in p.health then p.health[url].successes else 0
  }

  function FailuresIn(p: Pool): string -> nat {
    (url: string) => if url in p.health then p.health[url].failures else 0
  }

  /** Reports made while the connection was direct. */
  function DirectPraise(op: Op): nat { if op == Praise(None) then 1 else 0 }

  function DirectBan(op: Op): nat { if op.Ban? && op.url.None? then 1 else 0 }

  /** A report raises the tally of its proxy by one, or none when the connection is direct. */
  lemma OneOpTallied(p: Pool, op: Op)
    requires ValidPool(p) && (!op.Take? ==> ProxyKnown(op.url, p))
    ensures Sum(p.ordered, SuccessesIn(Do(p, op).0)) + DirectPraise(op) == Sum(p.ordered, SuccessesIn(p)) + PraiseOf(op)
    ensures Sum(p.ordered, FailuresIn(Do(p, op).0)) + DirectBan(op) == Sum(p.ordered, FailuresIn(p)) + BanOf(op)
  {
    hide Sum, FirstFree;
    var p' := Do(p, op).0;
    var at := if !op.Take? && op.url.Some? then op.url.value else "";
    var (praised, banned) := (PraiseOf(op) - DirectPraise(op), BanOf(op) - DirectBan(op));
    SumRaisedAt(p.ordered, SuccessesIn(p), SuccessesIn(p'), at, praised);
    SumRaisedAt(p.ordered, FailuresIn(p), FailuresIn(p'), at, banned);
  }

  lemma KnownReport(p: Pool, ops: seq<Op>, op: Op)
    requires KnownReports(ops, p) && op in ops
    ensures !op.Take? ==> ProxyKnown(op.url, p)
  {
  }

  lemma {:induction false} OpsTallied(p: Pool, ops: seq<Op>)
    requires ValidPool(p) && KnownReports(ops, p)
    ensures Sum(p.ordered, SuccessesIn(PoolAfter(p, ops))) + Sum(ops, DirectPraise)
            == Sum(p.ordered, SuccessesIn(p)) + Sum(ops, PraiseOf)
    ensures Sum(p.ordered, FailuresIn(PoolAfter(p, ops))) + Sum(ops, DirectBan)
            == Sum(p.ordered, FailuresIn(p)) + Sum(ops, BanOf)
  {
    if ops != [] {
      var (before, op) := (ops[..|ops| - 1], ops[|ops| - 1]);
      assert ops == before + [op] && KnownReports(before, p);
      hide Sum, SuccessesIn, FailuresIn, Do, PoolAfter, KnownReports, ValidPool, PraiseOf, BanOf, DirectPraise,
        DirectBan;
      OpsTallied(p, before);
      assert op in ops;
      KnownReport(p, ops, op);
      OneOpTallied(PoolAfter(p, before), op);
      OneMoreReport(p, before, op);
      SumAppend(before, op, DirectPraise);
      SumAppend(before, op, DirectBan);
    }
  }

  lemma {:induction false} PoolOfTheStart(cfg: Config, ws: seq<World>, steps: seq<Step>, i: nat)
    requires Behavior(cfg, ws, steps) && i < |ws|
    ensures ws[i].pool == ws[0].stack.proxies
  {
    if i > 0 {
      hide Admit, Receive;
      PoolOfTheStart(cfg, ws, steps, i - 1);
      assert ws[i] == Next(cfg, ws[i - 1], steps[i - 1]);
    }
  }

  /** In every reachable state the successes counted over all proxies are the delivered requests and the
      failures the identity rotations, but for those made on a direct connection; proxy by proxy they are
      the reports that named it. The proxy in use is always one of the pool. */
  lemma ProxyTallies(cfg: Config, ws: seq<World>, steps: seq<Step>, i: nat)
    requires Behavior(cfg, ws, steps) && i < |ws|
    ensures var (w, p0, p) := (ws[i], ws[0].stack.proxies, ws[i].stack.proxies);
      && ValidPool(p0) && ValidPool(p) && p.ordered == p0.ordered && ProxyKnown(w.stack.proxy, p)
      && Sum(p.ordered, SuccessesIn(p)) + Sum(w.poolOps, DirectPraise)
         == Sum(p.ordered, SuccessesIn(p0)) + Sum(w.jobs, DeliveredOf)
      && Sum(p.ordered, FailuresIn(p)) + Sum(w.poolOps, DirectBan)
         == Sum(p.ordered, FailuresIn(p0)) + w.stack.stats.identityRotations
      && forall u :: u in p.ordered ==>
           && p.health[u].successes == p0.health[u].successes + Praises(w.poolOps, u)
           && p.health[u].failures == p0.health[u].failures + Bans(w.poolOps, u)
  {
    hide Sum, SuccessesIn, FailuresIn;
    var w, p0 := ws[i], ws[0].stack.proxies;
    Always(cfg, ws, steps, i);
    PoolOfTheStart(cfg, ws, steps, i);
    OpsTallied(p0, w.poolOps);
    forall u | u in p0.ordered
      ensures PoolAfter(p0, w.poolOps).health[u].successes == p0.health[u].successes + Praises(w.poolOps, u)
      ensures PoolAfter(p0, w.poolOps).health[u].failures == p0.health[u].failures + Bans(w.poolOps, u)
    {
      TalliesCount(p0, w.poolOps, u);
    }
  }

  /** With a positive cool-down, no rotation of any run goes on with the proxy it banned. */
  lemma RotationsLeaveProxies(cfg: Config, ws: seq<World>, steps: seq<Step>, i: nat)
    requires Behavior(cfg, ws, steps) && i < |steps| && cfg.proxyCooldown > 0.0
    requires ws[i + 1].stack.stats.identityRotations > ws[i].stack.stats.identityRotations
    requires ws[i].stack.proxy.Some?
    ensures ws[i + 1].stack.proxy != ws[i].stack.proxy
  {
    hide Admit, Receive, Initial, Acquire, RecordBan;
    var w, e := ws[i], steps[i];
    Always(cfg, ws, steps, i);
    assert ws[i + 1] == Next(cfg, w, e);
    if e.Ask? {
      AdmitLeavesPool(cfg, w.stack, w.jobs[e.k].request, e.now);
    } else if e.Answer? {
      AnswerLeavesProxy(cfg, w.stack, w.jobs[e.k].request, e.response, e.now, e.jitter);
    }
  }

  /** Whenever a rotation of any run takes a proxy, it is one of the pool whose last ban in that run is over; it
      takes none exactly when every proxy of the pool still rests. A ban lasts for the cool-down, whatever is
      delivered through that proxy in the meantime. */
  lemma RotationsTakeRested(cfg: Config, ws: seq<World>, steps: seq<Step>, i: nat)
    requires Behavior(cfg, ws, steps) && i < |steps|
    requires ws[i + 1].stack.stats.identityRotations > ws[i].stack.stats.identityRotations
    ensures var (pool, ops, proxy, now) :=
        (ws[0].stack.proxies, ws[i + 1].poolOps, ws[i + 1].stack.proxy, ws[i + 1].now);
      && ops == ws[i].poolOps + [Ban(ws[i].stack.proxy, now + cfg.proxyCooldown), Take(now)]
      && (proxy.None? <==> forall u :: u in pool.ordered ==> Resting(LastDeadline(pool, ops, u), now))
      && (proxy.Some? ==> proxy.value in pool.ordered && !Resting(LastDeadline(pool, ops, proxy.value), now))
  {
    hide Admit, Receive, Acquire, RecordBan, TakesUpTo, PoolAfter, LastDeadline, Resting;
    var w, e := ws[i], steps[i];
    Always(cfg, ws, steps, i);
    PoolOfTheStart(cfg, ws, steps, i);
    assert ws[i + 1] == Next(cfg, w, e);
    if e.Ask? {
      AdmitLeavesPool(cfg, w.stack, w.jobs[e.k].request, e.now);
    } else if e.Answer? {
      RotationRecorded(cfg, w, e.k, e.response, e.now, e.jitter);
      TakesUpToLater(w.poolOps, w.now, e.now);
      TakesRested(w.pool, w.poolOps, w.stack.proxy, e.now + cfg.proxyCooldown, e.now);
    }
  }

  lemma RotationRecorded(cfg: Config, w: World, k: nat, response: Response, now: real, jitter: real)
    requires ValidStack(cfg, w.stack) && Enabled(cfg, w, Answer(k, response, now, jitter))
    requires var w' := Next(cfg, w, Answer(k, response, now, jitter));
      w'.stack.stats.identityRotations > w.stack.stats.identityRotations
    ensures var (s, w') := (w.stack, Next(cfg, w, Answer(k, response, now, jitter)));
      && w'.now == now && w'.poolOps == w.poolOps + [Ban(s.proxy, now + cfg.proxyCooldown), Take(now)]
      && w'.stack.proxy == Acquire(RecordBan(s.proxies, s.proxy, now + cfg.proxyCooldown), now).1
  {
    hide Receive, Acquire, RecordBan;
    var req := w.jobs[k].request;
    if req.infra {
      InfraPassesThrough(cfg, w.stack, req, response, now, jitter);
    } else {
      ReceiveOutcome(cfg, w.stack, req, response, now, jitter);
      ReceiveProxies(cfg, w.stack, req, response, now, jitter);
      ReceiveReasons(cfg, w.stack, req, response, now, jitter);
    }
  }

  lemma TakesRested(pool: Pool, ops: seq<Op>, proxy: Option<string>, until: real, now: real)
    requires ValidPool(pool) && TakesUpTo(ops, now)
    ensures var (taken, all) :=
        (Acquire(RecordBan(PoolAfter(pool, ops), proxy, until), now).1, ops + [Ban(proxy, until), Take(now)]);
      && (taken.None? <==> forall u :: u in pool.ordered ==> Resting(LastDeadline(pool, all, u), now))
      && (taken.Some? ==> taken.value in pool.ordered && !Resting(LastDeadline(pool, all, taken.value), now))
  {
    var banned := ops + [Ban(proxy, until)];
    var all := ops + [Ban(proxy, until), Take(now)];
    assert all == banned + [Take(now)];
    assert banned[..|ops|] == ops;
    assert PoolAfter(pool, banned) == RecordBan(PoolAfter(pool, ops), proxy, until);
    OneMoreTime(ops, Ban(proxy, until), now);
    hide Acquire, RecordBan, LastDeadline, TakesUpTo, PoolAfter, Resting;
    TakeDecided(pool, banned, now);
    forall u ensures LastDeadline(pool, all, u) == LastDeadline(pool, banned, u) {
      TakesMoveNoDeadline(pool, banned, now, u);
    }
  }

  lemma AnswerLeavesProxy(cfg: Config, s: StackState, req: Request, resp: Response, now: real, jitter: real)
    requires ValidStack(cfg, s) && cfg.proxyCooldown > 0.0 && s.proxy.Some? && ProxyKnown(s.proxy, s.proxies)
    ensures var s' := Receive(cfg, s, req, resp, now, jitter).0;
      s'.stats.identityRotations > s.stats.identityRotations ==> s'.proxy != s.proxy
  {
    hide Receive, Acquire, RecordBan;
    if req.infra {
      InfraPassesThrough(cfg, s, req, resp, now, jitter);
    } else {
      ReceiveOutcome(cfg, s, req, resp, now, jitter);
      ReceiveProxies(cfg, s, req, resp, now, jitter);
      ReceiveReasons(cfg, s, req, resp, now, jitter);
      SwitchLeavesProxy(cfg, s, now);
    }
  }

  // ----- Identities -----

  /** In every reachable state the stack is escalated exactly when some rotation was counted, and the
      identity in use is the one that many rotations lead to, in turn over the catalogue. */
  lemma IdentitiesFollowRotations(cfg: Config, ws: seq<World>, steps: seq<Step>, i: nat)
    requires Behavior(cfg, ws, steps) && i < |ws|
    ensures var (s, rotations) := (ws[i].stack, ws[i].stack.stats.identityRotations);
      && (s.escalated <==> rotations > 0)
      && s.identities.generation == (if rotations == 0 then 0 else rotations - 1)
      && s.identities.index == s.identities.generation % |cfg.profiles|
  {
    Always(cfg, ws, steps, i);
  }

  /** Requests stamped in two escalated states of one run share a cookie jar only if no rotation happened
      in between: each rotation gets a jar no other identity of the run ever had. */
  lemma JarsAreFresh(cfg: Config, ws: seq<World>, steps: seq<Step>, i: nat, k: nat, req: Request, req': Request)
    requires Behavior(cfg, ws, steps) && i < |ws| && k < |ws|
    requires ws[i].stack.escalated && ws[k].stack.escalated && !req.infra && !req'.infra
    ensures ValidStack(cfg, ws[i].stack) && ValidStack(cfg, ws[k].stack)
    ensures Stamp(cfg, ws[i].stack, req).cookiejar == Stamp(cfg, ws[k].stack, req').cookiejar
            <==> ws[i].stack.stats.identityRotations == ws[k].stack.stats.identityRotations
  {
    Always(cfg, ws, steps, i);
    Always(cfg, ws, steps, k);
    var (a, b) := (ws[i].stack.identities, ws[k].stack.identities);
    JarKeysDistinct(cfg.profiles[a.index].name, a.generation, cfg.profiles[b.index].name, b.generation);
  }
}
