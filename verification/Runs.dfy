/** Any number of requests in flight at once against any server: the stack as a step machine. */
module Runs {
  import opened Wrappers
  import opened Sums
  import opened Classifier
  import opened Backoff
  import opened Circuit
  import opened CircuitBreakers
  import opened Proxies
  import opened Identities
  import opened Stack

  // ----- The machine -----

  /** Where a request and its retry copies are: in the queue, waiting out a backoff, downloading, or
      settled for good. */
  datatype Phase =
    | Queued
    | Sleeping(until: real)
    | InFlight
    | Delivery
    | BanDrop(kind: BanKind)
    | Skip

  /** One spider request through all its copies. `downloads` and `waits` are its history. */
  datatype Job = Job(request: Request, phase: Phase, downloads: nat, waits: seq<Wait>)

  /** `traces` is the history of breaker events, by domain; `pool` the proxy pool of the start and `poolOps`
      what was done to it since. */
  datatype World = World(
    now: real, stack: StackState, jobs: seq<Job>, traces: map<string, seq<Event>>, pool: Pool, poolOps: seq<Op>)

  datatype Step =
    | Submit(request: Request)
    | Ask(k: nat, now: real)
    | Answer(k: nat, response: Response, now: real, jitter: real)
    | Wake(k: nat, now: real)

  ghost predicate Initial(cfg: Config, w: World) {
    && ValidStack(cfg, w.stack) && w.jobs == [] && w.traces == map[]
    && w.stack.breakers == map[] && w.stack.identities == FIRST && !w.stack.escalated
    && w.stack.stats == NOTHING && w.stack.sink == []
    && w.pool == w.stack.proxies && w.poolOps == [] && ProxyKnown(w.stack.proxy, w.pool)
  }

  /** The proxy in use is one of the pool, or the connection is direct. */
  predicate ProxyKnown(proxy: Option<string>, pool: Pool) {
    proxy.Some? ==> proxy.value in pool.ordered
  }

  /** The clock never goes back; a response may be anything; the jitter, where one is drawn, is lawful. */
  ghost predicate Enabled(cfg: Config, w: World, e: Step) {
    match e
    case Submit(request) => request.backoffRetries == 0 && request.rotationAttempts == 0
    case Ask(k, now) => k < |w.jobs| && w.jobs[k].phase == Queued && now >= w.now
    case Answer(k, response, now, jitter) =>
      && k < |w.jobs| && w.jobs[k].phase == InFlight && now >= w.now
      && (BacksOff(cfg.backoff, w.jobs[k].request, response) ==>
            Drawn(cfg.backoff, w.jobs[k].request.backoffRetries, jitter))
    case Wake(k, now) => k < |w.jobs| && w.jobs[k].phase.Sleeping? && now >= w.now && now >= w.jobs[k].phase.until
  }

  function TraceOf(traces: map<string, seq<Event>>, domain: string): seq<Event> {
    if domain in traces then traces[domain] else []
  }

  function AskSeen(req: Request, now: real): seq<Event> {
    if req.infra then [] else [Asked(now)]
  }

  function Record(traces: map<string, seq<Event>>, domain: string, events: seq<Event>): map<string, seq<Event>> {
    traces[domain := TraceOf(traces, domain) + events]
  }

  function AfterAsk(job: Job, a: Admission): Job {
    match a
    case Refused => job.(phase := Skip)
    case Admitted(request) => job.(request := request, phase := InFlight, downloads := job.downloads + 1)
  }

  function AfterAnswer(job: Job, o: Outcome, now: real): Job {
    match o
    case Delivered => job.(phase := Delivery)
    case Dropped(event) => job.(phase := BanDrop(event.kind))
    case Requeued(request) => job.(request := request, phase := Queued)
    case Waiting(wait, request) =>
      job.(request := request, phase := Sleeping(now + wait.delay), waits := job.waits + [wait])
  }

  /** What a response does to the pool: a delivery praises the proxy in use, a rotation bans it and takes
      another. */
  function PoolOpsSeen(cfg: Config, s: StackState, s': StackState, req: Request, o: Outcome, now: real): seq<Op> {
    if req.infra then []
    else if o.Delivered? then [Praise(s.proxy)]
    else if s'.stats.identityRotations > s.stats.identityRotations
    then [Ban(s.proxy, now + cfg.proxyCooldown), Take(now)]
    else []
  }

  ghost function Next(cfg: Config, w: World, e: Step): World
    requires ValidStack(cfg, w.stack) && Enabled(cfg, w, e)
  {
    match e
    case Submit(request) => w.(jobs := w.jobs + [Job(request, Queued, 0, [])])
    case Ask(k, now) =>
      var job := w.jobs[k];
      var (stack, a) := Admit(cfg, w.stack, job.request, now);
      w.(now := now, stack := stack, jobs := w.jobs[k := AfterAsk(job, a)],
         traces := Record(w.traces, job.request.domain, AskSeen(job.request, now)))
    case Answer(k, response, now, jitter) =>
      var job := w.jobs[k];
      var (stack, o) := Receive(cfg, w.stack, job.request, response, now, jitter);
      w.(now := now, stack := stack, jobs := w.jobs[k := AfterAnswer(job, o, now)],
         traces := Record(w.traces, job.request.domain, EventSeen(cfg, job.request, response, now)),
         poolOps := w.poolOps + PoolOpsSeen(cfg, w.stack, stack, job.request, o, now))
    case Wake(k, now) => w.(now := now, jobs := w.jobs[k := w.jobs[k].(phase := Queued)])
  }

  /** Each step leads from one world to the next. `Always` shows that every world of a run is valid, so asking
      for it here excludes nothing. */
  ghost predicate Leads(cfg: Config, ws: seq<World>, steps: seq<Step>) {
    && |ws| == |steps| + 1
    && forall i :: 0 <= i < |steps| ==>
         ValidStack(cfg, ws[i].stack) && Enabled(cfg, ws[i], steps[i]) && ws[i + 1] == Next(cfg, ws[i], steps[i])
  }

  /** Any interleaving of any number of requests, from the start. */
  ghost predicate Behavior(cfg: Config, ws: seq<World>, steps: seq<Step>) {
    Leads(cfg, ws, steps) && Initial(cfg, ws[0])
  }

  // ----- One request's account -----

  function Budget(limit: int): nat {
    if limit < 0 then 0 else limit
  }

  /** Every copy was asked for once: admitted and downloaded, refused, or still waiting to ask. Backoff
      indices are 0, 1, 2, ... and each counter stays within its own limit. */
  ghost predicate JobAccount(cfg: Config, j: Job) {
    var r := j.request;
    && Lawful(cfg.backoff, j.waits) && |j.waits| == r.backoffRetries
    && r.backoffRetries <= Budget(cfg.backoff.maxRetries)
    && r.rotationAttempts <= Budget(cfg.maxAttempts)
    && 1 + r.backoffRetries + r.rotationAttempts == j.downloads + WaitingOf(j) + SkippedOf(j)
    && (r.infra ==> r.backoffRetries == 0 && r.rotationAttempts == 0
                    && (j.phase == Queued || j.phase == InFlight || j.phase == Delivery))
  }

  ghost predicate Accounts(cfg: Config, jobs: seq<Job>) {
    forall j :: j in jobs ==> JobAccount(cfg, j)
  }

  lemma AccountsFollow(cfg: Config, jobs: seq<Job>, k: nat, j': Job)
    requires k < |jobs| && Accounts(cfg, jobs) && JobAccount(cfg, j')
    ensures Accounts(cfg, jobs[k := j'])
  {
    forall j | j in jobs[k := j'] ensures JobAccount(cfg, j) {
      var i: nat :| i < |jobs| && jobs[k := j'][i] == j;
      assert i != k ==> j in jobs;
    }
  }

  function WaitingOf(j: Job): nat { if j.phase == Queued || j.phase.Sleeping? then 1 else 0 }

  function SkippedOf(j: Job): nat { if j.phase == Skip then 1 else 0 }

  lemma AskAccount(cfg: Config, s: StackState, j: Job, now: real)
    requires ValidStack(cfg, s) && JobAccount(cfg, j) && j.phase == Queued
    ensures JobAccount(cfg, AfterAsk(j, Admit(cfg, s, j.request, now).1))
  {
  }

  lemma AnswerAccount(cfg: Config, s: StackState, j: Job, response: Response, now: real, jitter: real)
    requires ValidStack(cfg, s) && JobAccount(cfg, j) && j.phase == InFlight
    requires BacksOff(cfg.backoff, j.request, response) ==> Drawn(cfg.backoff, j.request.backoffRetries, jitter)
    ensures JobAccount(cfg, AfterAnswer(j, Receive(cfg, s, j.request, response, now, jitter).1, now))
  {
    if !j.request.infra {
      ReceiveOutcome(cfg, s, j.request, response, now, jitter);
    }
  }

  // ----- The books -----

  function StartsOf(j: Job): nat { if j.request.infra then 0 else 1 }

  function BackoffsOf(j: Job): nat { j.request.backoffRetries }

  function RotationsOf(j: Job): nat { j.request.rotationAttempts }

  function BansOf(j: Job): nat { if j.phase.BanDrop? then 1 else 0 }

  function BansOfKind(kind: BanKind): Job -> nat { (j: Job) => if j.phase == BanDrop(kind) then 1 else 0 }

  function Kinds(sink: seq<BanEvent>): multiset<BanKind> {
    if sink == [] then multiset{} else Kinds(sink[..|sink| - 1]) + multiset{sink[|sink| - 1].kind}
  }

  /** The statistics and the sink agree with the jobs, and with each other. */
  ghost predicate Books(jobs: seq<Job>, stats: Stats, sink: seq<BanEvent>) {
    && Sum(jobs, BackoffsOf) == stats.backoffRetries
    && Sum(jobs, RotationsOf) == stats.identityRotations + stats.cookieRetries
    && Sum(jobs, SkippedOf) == stats.circuitSkipped
    && Sum(jobs, BansOf) == stats.banEvents == |sink|
    && (forall kind :: Sum(jobs, BansOfKind(kind)) == stats.bans[kind])
    && Kinds(sink) == stats.bans
  }

  /** What a job's move changes is what the statistics record. */
  ghost predicate BooksMove(j: Job, j': Job, st: Stats, st': Stats, sink: seq<BanEvent>, sink': seq<BanEvent>) {
    && st'.backoffRetries + BackoffsOf(j) == st.backoffRetries + BackoffsOf(j')
    && st'.identityRotations + st'.cookieRetries + RotationsOf(j) ==
      st.identityRotations + st.cookieRetries + RotationsOf(j')
    && st'.circuitSkipped + SkippedOf(j) == st.circuitSkipped + SkippedOf(j')
    && st'.banEvents + BansOf(j) == st.banEvents + BansOf(j')
    && BansOf(j) == 0
    && (if j'.phase.BanDrop?
        then st'.bans == st.bans + multiset{j'.phase.kind}
             && exists e: BanEvent :: sink' == sink + [e] && e.kind == j'.phase.kind
        else st'.bans == st.bans && sink' == sink)
  }

  lemma WeightFollows(jobs: seq<Job>, k: nat, j': Job, f: Job -> nat, total: int, total': int)
    requires k < |jobs| && Sum(jobs, f) == total && total' + f(jobs[k]) == total + f(j')
    ensures Sum(jobs[k := j'], f) == total'
  {
    SumUpdate(jobs, k, j', f);
  }

  lemma KindsFollow(jobs: seq<Job>, k: nat, j': Job, bans: multiset<BanKind>, bans': multiset<BanKind>)
    requires k < |jobs| && !jobs[k].phase.BanDrop? && forall kind :: Sum(jobs, BansOfKind(kind)) == bans[kind]
    requires bans' == if j'.phase.BanDrop? then bans + multiset{j'.phase.kind} else bans
    ensures forall kind :: Sum(jobs[k := j'], BansOfKind(kind)) == bans'[kind]
  {
    forall kind ensures Sum(jobs[k := j'], BansOfKind(kind)) == bans'[kind] {
      WeightFollows(jobs, k, j', BansOfKind(kind), bans[kind], bans'[kind]);
    }
  }

  lemma KindsGrow(sink: seq<BanEvent>, e: BanEvent)
    ensures Kinds(sink + [e]) == Kinds(sink) + multiset{e.kind}
  {
    assert (sink + [e])[..|sink|] == sink;
  }

  lemma BooksFollow(jobs: seq<Job>, k: nat, j': Job, st: Stats, st': Stats, sink: seq<BanEvent>, sink': seq<BanEvent>)
    requires k < |jobs| && Books(jobs, st, sink) && BooksMove(jobs[k], j', st, st', sink, sink')
    ensures Books(jobs[k := j'], st', sink')
  {
    hide Sum, Kinds;
    WeightFollows(jobs, k, j', BackoffsOf, st.backoffRetries, st'.backoffRetries);
    WeightFollows(jobs, k, j', RotationsOf,
                  st.identityRotations + st.cookieRetries, st'.identityRotations + st'.cookieRetries);
    WeightFollows(jobs, k, j', SkippedOf, st.circuitSkipped, st'.circuitSkipped);
    WeightFollows(jobs, k, j', BansOf, st.banEvents, st'.banEvents);
    KindsFollow(jobs, k, j', st.bans, st'.bans);
    if j'.phase.BanDrop? {
      KindsGrow(sink, sink'[|sink|]);
    }
  }

  lemma AskBooks(cfg: Config, s: StackState, j: Job, now: real)
    requires ValidStack(cfg, s) && JobAccount(cfg, j) && j.phase == Queued
    ensures var (s', a) := Admit(cfg, s, j.request, now);
      BooksMove(j, AfterAsk(j, a), s.stats, s'.stats, s.sink, s'.sink)
  {
  }

  lemma AnswerBooks(cfg: Config, s: StackState, j: Job, response: Response, now: real, jitter: real)
    requires ValidStack(cfg, s) && JobAccount(cfg, j) && j.phase == InFlight
    ensures var (s', o) := Receive(cfg, s, j.request, response, now, jitter);
      BooksMove(j, AfterAnswer(j, o, now), s.stats, s'.stats, s.sink, s'.sink)
  {
    hide Receive;
    if j.request.infra {
      InfraPassesThrough(cfg, s, j.request, response, now, jitter);
    } else {
      ReceiveOutcome(cfg, s, j.request, response, now, jitter);
      ReceiveCounted(cfg, s, j.request, response, now, jitter);
    }
  }

  // ----- The invariant -----

  /** Every breaker is the replay of its own domain's events, which are in clock order. */
  ghost predicate BreakersReplay(cfg: Config, w: World) {
    forall d ::
      && BreakerAt(w.stack.breakers, d) == Replay(cfg.circuit, TraceOf(w.traces, d))
      && Clocked(TraceOf(w.traces, d), w.now)
  }

  ghost predicate Clocked(trace: seq<Event>, now: real) {
    && Monotone(trace)
    && forall i :: 0 <= i < |trace| && !trace[i].Succeeded? ==> trace[i].at <= now
  }

  lemma OneMoreClocked(trace: seq<Event>, e: Event, now: real, now': real)
    requires Clocked(trace, now) && now <= now' && (!e.Succeeded? ==> e.at == now')
    ensures Clocked(trace + [e], now')
  {
  }

  function DeliveredOf(j: Job): nat { if !j.request.infra && j.phase == Delivery then 1 else 0 }

  function PraiseOf(op: Op): nat { if op.Praise? then 1 else 0 }

  function BanOf(op: Op): nat { if op.Ban? then 1 else 0 }

  ghost predicate KnownReports(ops: seq<Op>, pool: Pool) {
    forall op :: op in ops && !op.Take? ==> ProxyKnown(op.url, pool)
  }

  /** The pool is what its history makes of it: one praise for each delivery, one ban for each identity
      rotation, each for a proxy of the pool or for the direct connection. */
  ghost predicate PoolReplays(w: World) {
    && ValidPool(w.pool) && w.stack.proxies == PoolAfter(w.pool, w.poolOps)
    && ProxyKnown(w.stack.proxy, w.pool) && KnownReports(w.poolOps, w.pool) && TakesUpTo(w.poolOps, w.now)
    && Sum(w.poolOps, PraiseOf) == Sum(w.jobs, DeliveredOf)
    && Sum(w.poolOps, BanOf) == w.stack.stats.identityRotations
  }

  ghost predicate Inv(cfg: Config, w: World) {
    && ValidStack(cfg, w.stack)
    && IdentityInStep(cfg, w.stack)
    && Accounts(cfg, w.jobs)
    && Books(w.jobs, w.stack.stats, w.stack.sink)
    && BreakersReplay(cfg, w)
    && PoolReplays(w)
  }

  /** The job k moves without being delivered and the pool is left alone. */
  lemma PoolUntouched(w: World, w': World, k: nat)
    requires PoolReplays(w) && k < |w.jobs| && DeliveredOf(w.jobs[k]) == 0
    requires |w'.jobs| == |w.jobs| && w'.jobs == w.jobs[k := w'.jobs[k]] && DeliveredOf(w'.jobs[k]) == 0
    requires w'.pool == w.pool && w'.poolOps == w.poolOps && w'.now >= w.now
    requires w'.stack.proxies == w.stack.proxies && w'.stack.proxy == w.stack.proxy
    requires w'.stack.stats.identityRotations == w.stack.stats.identityRotations
    ensures PoolReplays(w')
  {
    SumUpdate(w.jobs, k, w'.jobs[k], DeliveredOf);
    TakesUpToLater(w.poolOps, w.now, w'.now);
  }

  lemma OneMoreTime(ops: seq<Op>, op: Op, now: real)
    requires TakesUpTo(ops, now) && (op.Take? ==> op.now == now)
    ensures TakesUpTo(ops + [op], now)
  {
    assert (ops + [op])[..|ops|] == ops;
  }

  lemma OneMoreReport(pool: Pool, ops: seq<Op>, op: Op)
    requires ValidPool(pool) && KnownReports(ops, pool) && (!op.Take? ==> ProxyKnown(op.url, pool))
    ensures KnownReports(ops + [op], pool)
    ensures PoolAfter(pool, ops + [op]) == Do(PoolAfter(pool, ops), op).0
    ensures Sum(ops + [op], PraiseOf) == Sum(ops, PraiseOf) + PraiseOf(op)
    ensures Sum(ops + [op], BanOf) == Sum(ops, BanOf) + BanOf(op)
  {
    assert (ops + [op])[..|ops|] == ops;
    SumAppend(ops, op, PraiseOf);
    SumAppend(ops, op, BanOf);
  }

  lemma PoolPraised(w: World, w': World, k: nat)
    requires PoolReplays(w) && k < |w.jobs| && DeliveredOf(w.jobs[k]) == 0
    requires |w'.jobs| == |w.jobs| && w'.jobs == w.jobs[k := w'.jobs[k]] && DeliveredOf(w'.jobs[k]) == 1
    requires w'.pool == w.pool && w'.poolOps == w.poolOps + [Praise(w.stack.proxy)] && w'.now >= w.now
    requires w'.stack.proxies == Proxies.RecordSuccess(w.stack.proxies, w.stack.proxy)
    requires w'.stack.proxy == w.stack.proxy
    requires w'.stack.stats.identityRotations == w.stack.stats.identityRotations
    ensures PoolReplays(w')
  {
    TakesUpToLater(w.poolOps, w.now, w'.now);
    hide Sum, KnownReports, PoolAfter, TakesUpTo;
    OneMoreTime(w.poolOps, Praise(w.stack.proxy), w'.now);
    SumUpdate(w.jobs, k, w'.jobs[k], DeliveredOf);
    OneMoreReport(w.pool, w.poolOps, Praise(w.stack.proxy));
  }

  lemma PoolRotated(w: World, w': World, k: nat, until: real, now: real)
    requires w'.now == now >= w.now
    requires PoolReplays(w) && k < |w.jobs| && DeliveredOf(w.jobs[k]) == 0
    requires |w'.jobs| == |w.jobs| && w'.jobs == w.jobs[k := w'.jobs[k]] && DeliveredOf(w'.jobs[k]) == 0
    requires w'.pool == w.pool && w'.poolOps == w.poolOps + [Ban(w.stack.proxy, until), Take(now)]
    requires (w'.stack.proxies, w'.stack.proxy) ==
             Proxies.Acquire(Proxies.RecordBan(w.stack.proxies, w.stack.proxy, until), now)
    requires w'.stack.stats.identityRotations == w.stack.stats.identityRotations + 1
    ensures PoolReplays(w')
  {
    TakesUpToLater(w.poolOps, w.now, now);
    hide Sum, KnownReports, PoolAfter, FirstFree, ValidPool, TakesUpTo, Proxies.Acquire, Proxies.RecordBan;
    SumUpdate(w.jobs, k, w'.jobs[k], DeliveredOf);
    var banned := w.poolOps + [Ban(w.stack.proxy, until)];
    OneMoreTime(w.poolOps, Ban(w.stack.proxy, until), now);
    OneMoreTime(banned, Take(now), now);
    OneMoreReport(w.pool, w.poolOps, Ban(w.stack.proxy, until));
    OneMoreReport(w.pool, banned, Take(now));
    assert w'.poolOps == banned + [Take(now)];
    AcquireSelects(PoolAfter(w.pool, banned), now);
  }

  lemma OneMoreEvent(cfg: Config, w: World, w': World, domain: string, events: seq<Event>)
    requires BreakersReplay(cfg, w) && w'.now >= w.now
    requires w'.traces == Record(w.traces, domain, events)
    requires |events| <= 1 && (events != [] && !events[0].Succeeded? ==> events[0].at == w'.now)
    requires forall d :: d != domain ==> BreakerAt(w'.stack.breakers, d) == BreakerAt(w.stack.breakers, d)
    requires BreakerAt(w'.stack.breakers, domain) ==
      if events == [] then BreakerAt(w.stack.breakers, domain)
      else Circuit.Apply(cfg.circuit, BreakerAt(w.stack.breakers, domain), events[0])
    ensures BreakersReplay(cfg, w')
  {
    hide Replay, Clocked, Circuit.Apply, BreakerAt;
    var trace := TraceOf(w.traces, domain);
    if events == [] {
      assert trace + events == trace;
    } else {
      assert events == [events[0]];
      OneMoreClocked(trace, events[0], w.now, w'.now);
      ReplayOneMore(cfg.circuit, trace, events[0]);
    }
    forall d
      ensures BreakerAt(w'.stack.breakers, d) == Replay(cfg.circuit, TraceOf(w'.traces, d))
      ensures Clocked(TraceOf(w'.traces, d), w'.now)
    {
      ClockedLater(TraceOf(w.traces, d), w.now, w'.now);
      if d == domain {
        assert TraceOf(w'.traces, d) == trace + events;
      } else {
        assert TraceOf(w'.traces, d) == TraceOf(w.traces, d);
      }
    }
  }

  lemma ReplayOneMore(policy: CircuitPolicy, trace: seq<Event>, e: Event)
    ensures Replay(policy, trace + [e]) == Circuit.Apply(policy, Replay(policy, trace), e)
  {
    assert (trace + [e])[..|trace|] == trace;
  }

  lemma ClockedLater(trace: seq<Event>, now: real, later: real)
    requires Clocked(trace, now) && now <= later
    ensures Clocked(trace, later)
  {
  }

  lemma {:induction false} InitialInv(cfg: Config, w: World)
    requires Initial(cfg, w)
    ensures Inv(cfg, w)
  {
    assert Nth(cfg.profiles, 0) == FIRST;
  }

  lemma StepKeepsInv(cfg: Config, w: World, e: Step)
    requires Inv(cfg, w) && Enabled(cfg, w, e)
    ensures Inv(cfg, Next(cfg, w, e))
  {
    match e
    case Submit(request) => SubmitKeepsInv(cfg, w, request);
    case Ask(k, now) => AskKeepsInv(cfg, w, k, now);
    case Answer(k, response, now, jitter) => AnswerKeepsInv(cfg, w, k, response, now, jitter);
    case Wake(k, now) => WakeKeepsInv(cfg, w, k, now);
  }

  lemma SubmitKeepsInv(cfg: Config, w: World, request: Request)
    requires Inv(cfg, w) && Enabled(cfg, w, Submit(request))
    ensures Inv(cfg, Next(cfg, w, Submit(request)))
  {
    var j := Job(request, Queued, 0, []);
    SumAppend(w.jobs, j, BackoffsOf);
    SumAppend(w.jobs, j, RotationsOf);
    SumAppend(w.jobs, j, SkippedOf);
    SumAppend(w.jobs, j, BansOf);
    forall kind ensures Sum(w.jobs + [j], BansOfKind(kind)) == w.stack.stats.bans[kind] {
      SumAppend(w.jobs, j, BansOfKind(kind));
    }
    SumAppend(w.jobs, j, DeliveredOf);
    assert JobAccount(cfg, j);
  }

  lemma AskKeepsInv(cfg: Config, w: World, k: nat, now: real)
    requires Inv(cfg, w) && Enabled(cfg, w, Ask(k, now))
    ensures Inv(cfg, Next(cfg, w, Ask(k, now)))
  {
    hide Admit, Books, BooksMove, IdentityInStep, Replay, Clocked;
    var j, w' := w.jobs[k], Next(cfg, w, Ask(k, now));
    assert JobAccount(cfg, j);
    AskAccount(cfg, w.stack, j, now);
    AccountsFollow(cfg, w.jobs, k, w'.jobs[k]);
    AskBooks(cfg, w.stack, j, now);
    BooksFollow(w.jobs, k, w'.jobs[k], w.stack.stats, w'.stack.stats, w.stack.sink, w'.stack.sink);
    AdmitBreakers(cfg, w.stack, j.request, now);
    OneMoreEvent(cfg, w, w', j.request.domain, AskSeen(j.request, now));
    AdmitKeepsIdentityInStep(cfg, w.stack, j.request, now);
    AdmitLeavesPool(cfg, w.stack, j.request, now);
    PoolUntouched(w, w', k);
  }

  lemma AnswerKeepsInv(cfg: Config, w: World, k: nat, response: Response, now: real, jitter: real)
    requires Inv(cfg, w) && Enabled(cfg, w, Answer(k, response, now, jitter))
    ensures Inv(cfg, Next(cfg, w, Answer(k, response, now, jitter)))
  {
    hide Receive, Books, BooksMove, IdentityInStep, Replay, Clocked;
    var j, w' := w.jobs[k], Next(cfg, w, Answer(k, response, now, jitter));
    assert JobAccount(cfg, j);
    AnswerAccount(cfg, w.stack, j, response, now, jitter);
    AccountsFollow(cfg, w.jobs, k, w'.jobs[k]);
    AnswerBooks(cfg, w.stack, j, response, now, jitter);
    BooksFollow(w.jobs, k, w'.jobs[k], w.stack.stats, w'.stack.stats, w.stack.sink, w'.stack.sink);
    ReceiveBreakers(cfg, w.stack, j.request, response, now, jitter);
    OneMoreEvent(cfg, w, w', j.request.domain, EventSeen(cfg, j.request, response, now));
    ReceiveKeepsIdentityInStep(cfg, w.stack, j.request, response, now, jitter);
    AnswerKeepsPool(cfg, w, k, response, now, jitter);
  }

  lemma AnswerKeepsPool(cfg: Config, w: World, k: nat, response: Response, now: real, jitter: real)
    requires ValidStack(cfg, w.stack) && PoolReplays(w) && Enabled(cfg, w, Answer(k, response, now, jitter))
    ensures PoolReplays(Next(cfg, w, Answer(k, response, now, jitter)))
  {
    hide Receive, PoolReplays;
    var j, w' := w.jobs[k], Next(cfg, w, Answer(k, response, now, jitter));
    var (s', o) := Receive(cfg, w.stack, j.request, response, now, jitter);
    if j.request.infra {
      InfraPassesThrough(cfg, w.stack, j.request, response, now, jitter);
      assert w.poolOps + [] == w.poolOps;
      PoolUntouched(w, w', k);
    } else {
      ReceiveOutcome(cfg, w.stack, j.request, response, now, jitter);
      ReceiveProxies(cfg, w.stack, j.request, response, now, jitter);
      ReceiveReasons(cfg, w.stack, j.request, response, now, jitter);
      if o.Delivered? {
        PoolPraised(w, w', k);
      } else if s'.stats.identityRotations > w.stack.stats.identityRotations {
        PoolRotated(w, w', k, now + cfg.proxyCooldown, now);
      } else {
        assert w.poolOps + [] == w.poolOps;
        PoolUntouched(w, w', k);
      }
    }
  }

  lemma WakeKeepsInv(cfg: Config, w: World, k: nat, now: real)
    requires Inv(cfg, w) && Enabled(cfg, w, Wake(k, now))
    ensures Inv(cfg, Next(cfg, w, Wake(k, now)))
  {
    var j := w.jobs[k];
    assert JobAccount(cfg, j);
    AccountsFollow(cfg, w.jobs, k, j.(phase := Queued));
    BooksFollow(w.jobs, k, j.(phase := Queued), w.stack.stats, w.stack.stats, w.stack.sink, w.stack.sink);
    PoolUntouched(w, Next(cfg, w, Wake(k, now)), k);
  }

  /** The invariant holds at every point of every interleaving. */
  lemma {:induction false} Always(cfg: Config, ws: seq<World>, steps: seq<Step>, i: nat)
    requires Behavior(cfg, ws, steps) && i < |ws|
    ensures Inv(cfg, ws[i])
  {
    if i == 0 {
      InitialInv(cfg, ws[0]);
    } else {
      Always(cfg, ws, steps, i - 1);
      StepKeepsInv(cfg, ws[i - 1], steps[i - 1]);
    }
  }
}
