/** A sequential crawl is one of the interleavings: what holds of every run holds of every crawl. */
module CrawlRuns {
  import opened Sums
  import opened Classifier
  import opened Backoff
  import opened Circuit
  import opened CircuitBreakers
  import opened Stack
  import opened Runs
  import opened RunTheorems
  import opened Crawl

  /** The steps lead from w to w', every answer being the server's own. */
  ghost predicate Drives<S>(x: Setting<S>, w: World, server: S, steps: seq<Step>, w': World, server': S)
    decreases |steps|
  {
    if steps == [] then w == w' && server == server'
    else
      var e := steps[0];
      && ValidStack(x.cfg, w.stack) && Enabled(x.cfg, w, e)
      && if e.Answer?
         then var (next, resp) := x.serve(server, w.jobs[e.k].request);
              e.response == resp && Drives(x, Next(x.cfg, w, e), next, steps[1..], w', server')
         else Drives(x, Next(x.cfg, w, e), server, steps[1..], w', server')
  }

  /** Clock readings never go back. */
  ghost predicate Ticking<S>(x: Setting<S>) {
    forall i: nat :: x.clock(i) <= x.clock(i + 1)
  }

  /** Wherever this fetch backs off, the jitter drawn is lawful for the attempt index in use and the clock
      is not read again before the wait is over. */
  ghost predicate InTime<S>(x: Setting<S>, s: StackState, server: S, req: Request, tick: nat)
    requires ValidStack(x.cfg, s) && !req.infra
    decreases Remaining(x.cfg, req)
  {
    var (asked, a) := Admit(x.cfg, s, req, x.clock(tick));
    a.Admitted? ==>
      var (server', resp) := x.serve(server, a.request);
      ReceiveOutcome(x.cfg, asked, a.request, resp, x.clock(tick + 1), x.jitter(tick));
      var (s', o) := Receive(x.cfg, asked, a.request, resp, x.clock(tick + 1), x.jitter(tick));
      match o
      case Requeued(retry) => InTime(x, s', server', retry, tick + 2)
      case Waiting(wait, retry) =>
        && Drawn(x.cfg.backoff, req.backoffRetries, x.jitter(tick))
        && x.clock(tick + 2) >= x.clock(tick + 1) + wait.delay
        && InTime(x, s', server', retry, tick + 2)
      case _ => true
  }

  lemma SubmitThen<S>(x: Setting<S>, w: World, server: S, req: Request, rest: seq<Step>, w': World, server': S)
    requires ValidStack(x.cfg, w.stack) && Enabled(x.cfg, w, Submit(req))
    requires Drives(x, Next(x.cfg, w, Submit(req)), server, rest, w', server')
    ensures Drives(x, w, server, [Submit(req)] + rest, w', server')
  {
    hide Next;
    assert ([Submit(req)] + rest)[1..] == rest;
  }

  lemma AskThen<S>(x: Setting<S>, w: World, server: S, k: nat, now: real, rest: seq<Step>, w': World, server': S)
    requires ValidStack(x.cfg, w.stack) && Enabled(x.cfg, w, Ask(k, now))
    requires Drives(x, Next(x.cfg, w, Ask(k, now)), server, rest, w', server')
    ensures Drives(x, w, server, [Ask(k, now)] + rest, w', server')
  {
    hide Next;
    assert ([Ask(k, now)] + rest)[1..] == rest;
  }

  lemma WakeThen<S>(x: Setting<S>, w: World, server: S, k: nat, now: real, rest: seq<Step>, w': World, server': S)
    requires ValidStack(x.cfg, w.stack) && Enabled(x.cfg, w, Wake(k, now))
    requires Drives(x, Next(x.cfg, w, Wake(k, now)), server, rest, w', server')
    ensures Drives(x, w, server, [Wake(k, now)] + rest, w', server')
  {
    hide Next;
    assert ([Wake(k, now)] + rest)[1..] == rest;
  }

  lemma AnswerThen<S>(
    x: Setting<S>, w: World, server: S, k: nat, now: real, jitter: real, rest: seq<Step>, w': World, server': S)
    requires ValidStack(x.cfg, w.stack) && k < |w.jobs|
    requires var (next, resp) := x.serve(server, w.jobs[k].request);
      && Enabled(x.cfg, w, Answer(k, resp, now, jitter))
      && Drives(x, Next(x.cfg, w, Answer(k, resp, now, jitter)), next, rest, w', server')
    ensures Drives(x, w, server, [Answer(k, x.serve(server, w.jobs[k].request).1, now, jitter)] + rest, w', server')
  {
    hide Next;
    var e := Answer(k, x.serve(server, w.jobs[k].request).1, now, jitter);
    assert ([e] + rest)[1..] == rest;
  }

  predicate EndsAs(phase: Phase, end: FetchEnd) {
    match end
    case Page(_) => phase == Delivery
    case Banned(event) => phase == BanDrop(event.kind)
    case Refusal => phase == Skip
  }

  /** The retry copies keep what the request asks for. */
  predicate SameErrand(req: Request, req': Request) {
    req'.domain == req.domain && req'.page == req.page && req'.infra == req.infra
  }

  lemma NoSteps<S>(x: Setting<S>, w: World, server: S)
    ensures Drives(x, w, server, [], w, server)
  {
  }

  lemma BackingOffWaits(cfg: Config, s: StackState, req: Request, resp: Response, now: real, jitter: real)
    requires ValidStack(cfg, s)
    ensures BacksOff(cfg.backoff, req, resp) ==> Receive(cfg, s, req, resp, now, jitter).1.Waiting?
  {
  }

  /** One download of a queued job: its two steps, where they lead, and what the fetch goes on with. */
  lemma OneDownload<S>(x: Setting<S>, w: World, k: nat, server: S, tick: nat) returns (w1: World, w2: World, o: Outcome)
    requires Ticking(x) && ValidStack(x.cfg, w.stack)
    requires k < |w.jobs| && w.jobs[k].phase == Queued && !w.jobs[k].request.infra && w.now <= x.clock(tick)
    requires InTime(x, w.stack, server, w.jobs[k].request, tick)
    requires Admit(x.cfg, w.stack, w.jobs[k].request, x.clock(tick)).1.Admitted?
    ensures Enabled(x.cfg, w, Ask(k, x.clock(tick))) && w1 == Next(x.cfg, w, Ask(k, x.clock(tick)))
    ensures ValidStack(x.cfg, w1.stack) && |w1.jobs| == |w.jobs|
    ensures var (next, resp) := x.serve(server, w1.jobs[k].request);
      && Enabled(x.cfg, w1, Answer(k, resp, x.clock(tick + 1), x.jitter(tick)))
      && w2 == Next(x.cfg, w1, Answer(k, resp, x.clock(tick + 1), x.jitter(tick)))
      && ValidStack(x.cfg, w2.stack) && w2.now == x.clock(tick + 1)
      && w2.jobs == w.jobs[k := AfterAnswer(w1.jobs[k], o, x.clock(tick + 1))]
      && w1.jobs[k].downloads == w.jobs[k].downloads + 1 && SameErrand(w.jobs[k].request, w1.jobs[k].request)
      && var f := Fetch(x, w.stack, server, w.jobs[k].request, tick);
         match o
         case Delivered => f == Fetched(w2.stack, next, tick + 2, 1, Page(resp.entries))
         case Dropped(event) => f == Fetched(w2.stack, next, tick + 2, 1, Banned(event))
         case Requeued(retry) =>
           !retry.infra && Remaining(x.cfg, retry) < Remaining(x.cfg, w.jobs[k].request)
           && SameErrand(w.jobs[k].request, retry) && InTime(x, w2.stack, next, retry, tick + 2)
           && f == OneMore(Fetch(x, w2.stack, next, retry, tick + 2))
         case Waiting(wait, retry) =>
           !retry.infra && Remaining(x.cfg, retry) < Remaining(x.cfg, w.jobs[k].request)
           && SameErrand(w.jobs[k].request, retry)
           && x.clock(tick + 1) + wait.delay <= x.clock(tick + 2)
           && InTime(x, w2.stack, next, retry, tick + 2)
           && f == OneMore(Fetch(x, w2.stack, next, retry, tick + 2))
  {
    hide Receive, ComputeDelay, Drawn;
    var req := w.jobs[k].request;
    var (asked, a) := Admit(x.cfg, w.stack, req, x.clock(tick));
    w1 := Next(x.cfg, w, Ask(k, x.clock(tick)));
    assert w1.jobs[k].request == a.request && w1.stack == asked;
    var (next, resp) := x.serve(server, a.request);
    assert BacksOff(x.cfg.backoff, a.request, resp) ==>
      Drawn(x.cfg.backoff, a.request.backoffRetries, x.jitter(tick)) by {
      BackingOffWaits(x.cfg, asked, a.request, resp, x.clock(tick + 1), x.jitter(tick));
    }
    w2 := Next(x.cfg, w1, Answer(k, resp, x.clock(tick + 1), x.jitter(tick)));
    ReceiveOutcome(x.cfg, asked, a.request, resp, x.clock(tick + 1), x.jitter(tick));
    o := Receive(x.cfg, asked, a.request, resp, x.clock(tick + 1), x.jitter(tick)).1;
  }

  /** The job k of w has run to the fetch's end in w': same stack, as many more downloads, the same ending,
      and the other jobs untouched. */
  ghost predicate RanTo<S>(x: Setting<S>, w: World, k: nat, w': World, f: Fetched<S>) {
    && k < |w.jobs| == |w'.jobs|
    && w'.stack == f.stack && w'.now <= x.clock(f.tick)
    && SameErrand(w.jobs[k].request, w'.jobs[k].request)
    && w'.jobs[k].downloads == w.jobs[k].downloads + f.downloads
    && EndsAs(w'.jobs[k].phase, f.end)
    && forall i :: 0 <= i < |w.jobs| && i != k ==> w'.jobs[i] == w.jobs[i]
  }

  lemma RanOneMore<S>(x: Setting<S>, w: World, k: nat, w2: World, w': World, f: Fetched<S>)
    requires k < |w.jobs| == |w2.jobs| && w2.jobs == w.jobs[k := w2.jobs[k]]
    requires w2.jobs[k].downloads == w.jobs[k].downloads + 1 && SameErrand(w.jobs[k].request, w2.jobs[k].request)
    requires RanTo(x, w2, k, w', f)
    ensures RanTo(x, w, k, w', OneMore(f))
  {
  }

  /** Every fetch is a run of the step machine on its own job, among any number of other jobs, with the
      server's own answers and the server state the fetch ends in, provided the clock never goes back and the
      fetch's own waits are waited out. */
  lemma {:induction false} FetchIsARun<S>(x: Setting<S>, w: World, k: nat, server: S, tick: nat)
    returns (steps: seq<Step>, w': World)
    requires Ticking(x) && ValidStack(x.cfg, w.stack)
    requires k < |w.jobs| && w.jobs[k].phase == Queued && !w.jobs[k].request.infra && w.now <= x.clock(tick)
    requires InTime(x, w.stack, server, w.jobs[k].request, tick)
    ensures Drives(x, w, server, steps, w', Fetch(x, w.stack, server, w.jobs[k].request, tick).server)
    ensures RanTo(x, w, k, w', Fetch(x, w.stack, server, w.jobs[k].request, tick))
    decreases Remaining(x.cfg, w.jobs[k].request)
  {
    hide Drives, Next, Fetch, Admit, Receive, Stamp, Ticking, InTime, RanTo, SameErrand;
    var req := w.jobs[k].request;
    if Admit(x.cfg, w.stack, req, x.clock(tick)).1.Refused? {
      steps, w' := RefusedRun(x, w, k, server, tick);
    } else {
      var w1, w2, o := OneDownload(x, w, k, server, tick);
      var (next, resp) := x.serve(server, w1.jobs[k].request);
      var rest: seq<Step>;
      ClockGoesOn(x, tick + 1);
      match o {
        case Requeued(retry) =>
          rest, w' := FetchIsARun(x, w2, k, next, tick + 2);
          RanOneMore(x, w, k, w2, w', Fetch(x, w2.stack, next, retry, tick + 2));
        case Waiting(wait, retry) =>
          var w3 := WokenUp(x, w2, k, tick + 2);
          var f := Fetch(x, w2.stack, next, retry, tick + 2);
          var late;
          late, w' := FetchIsARun(x, w3, k, next, tick + 2);
          RanOneMore(x, w, k, w3, w', f);
          WakeThen(x, w2, next, k, x.clock(tick + 2), late, w', f.server);
          rest := [Wake(k, x.clock(tick + 2))] + late;
        case _ =>
          NoSteps(x, w2, next);
          rest, w' := [], w2;
          RanAtOnce(x, w, k, w2, Fetch(x, w.stack, server, req, tick));
      }
      var end := Fetch(x, w.stack, server, req, tick).server;
      AnswerThen(x, w1, server, k, x.clock(tick + 1), x.jitter(tick), rest, w', end);
      var answered := [Answer(k, resp, x.clock(tick + 1), x.jitter(tick))] + rest;
      AskThen(x, w, server, k, x.clock(tick), answered, w', end);
      steps := [Ask(k, x.clock(tick))] + answered;
    }
  }

  lemma RanAtOnce<S>(x: Setting<S>, w: World, k: nat, w2: World, f: Fetched<S>)
    requires k < |w.jobs| == |w2.jobs| && w2.jobs == w.jobs[k := w2.jobs[k]] && w2.stack == f.stack
    requires w2.jobs[k].downloads == w.jobs[k].downloads + f.downloads && EndsAs(w2.jobs[k].phase, f.end)
    requires SameErrand(w.jobs[k].request, w2.jobs[k].request) && w2.now <= x.clock(f.tick)
    ensures RanTo(x, w, k, w2, f)
  {
  }

  lemma ClockGoesOn<S>(x: Setting<S>, i: nat)
    requires Ticking(x)
    ensures x.clock(i) <= x.clock(i + 1)
  {
  }

  lemma WokenUp<S>(x: Setting<S>, w: World, k: nat, tick: nat) returns (w': World)
    requires ValidStack(x.cfg, w.stack) && k < |w.jobs| && w.jobs[k].phase.Sleeping?
    requires w.now <= x.clock(tick) && w.jobs[k].phase.until <= x.clock(tick)
    ensures Enabled(x.cfg, w, Wake(k, x.clock(tick))) && w' == Next(x.cfg, w, Wake(k, x.clock(tick)))
    ensures w' == w.(now := x.clock(tick), jobs := w.jobs[k := w.jobs[k].(phase := Queued)])
  {
    w' := Next(x.cfg, w, Wake(k, x.clock(tick)));
  }

  lemma RefusedRun<S>(x: Setting<S>, w: World, k: nat, server: S, tick: nat) returns (steps: seq<Step>, w': World)
    requires ValidStack(x.cfg, w.stack)
    requires k < |w.jobs| && w.jobs[k].phase == Queued && !w.jobs[k].request.infra && w.now <= x.clock(tick)
    requires Admit(x.cfg, w.stack, w.jobs[k].request, x.clock(tick)).1.Refused? && Ticking(x)
    ensures Drives(x, w, server, steps, w', Fetch(x, w.stack, server, w.jobs[k].request, tick).server)
    ensures RanTo(x, w, k, w', Fetch(x, w.stack, server, w.jobs[k].request, tick))
  {
    w' := Next(x.cfg, w, Ask(k, x.clock(tick)));
    NoSteps(x, w', server);
    AskThen(x, w, server, k, x.clock(tick), [], w', server);
    steps := [Ask(k, x.clock(tick))] + [];
  }

  // ----- The whole crawl -----

  /** Wherever the first k fetches of the crawl back off, they wait lawfully. */
  ghost predicate CrawlInTime<S>(x: Setting<S>, s0: StackState, server: S, k: nat)
    requires ValidStack(x.cfg, s0)
  {
    forall j: nat :: j < k && Crawled(x, s0, server, j).next.Some? ==>
      var at := Crawled(x, s0, server, j);
      InTime(x, at.stack, at.server, NewRequest(x.domain, at.next.value), at.tick)
  }

  /** Job number i settled the i-th page's request. */
  predicate PageJobs(jobs: seq<Job>, domain: string) {
    forall i :: 0 <= i < |jobs| ==>
      && Settled(jobs[i]) && !jobs[i].request.infra
      && jobs[i].request.domain == domain && jobs[i].request.page == i + 1
  }

  /** The world is where the crawl is: same stack, one settled job for each page asked for, as many delivered
      ones as pages collected, as many downloads, and nothing in flight or waiting. */
  ghost predicate StandsAt<S>(x: Setting<S>, w: World, at: Walk<S>) {
    && w.stack == at.stack && w.now <= x.clock(at.tick)
    && PageJobs(w.jobs, x.domain) && Sum(w.jobs, DeliveredOf) == at.pages
    && Sum(w.jobs, DownloadsOf) == at.downloads
    && (at.next.Some? ==> at.next.value == |w.jobs| + 1)
  }

  lemma {:induction false} DrivesOn<S>(
    x: Setting<S>, w: World, server: S, steps: seq<Step>, w': World, server': S,
    more: seq<Step>, w'': World, server'': S)
    requires Drives(x, w, server, steps, w', server') && Drives(x, w', server', more, w'', server'')
    ensures Drives(x, w, server, steps + more, w'', server'')
    decreases |steps|
  {
    hide Next;
    if steps == [] {
      assert steps + more == more;
    } else {
      var e := steps[0];
      assert (steps + more)[0] == e && (steps + more)[1..] == steps[1..] + more;
      var next := if e.Answer? then x.serve(server, w.jobs[e.k].request).0 else server;
      DrivesOn(x, Next(x.cfg, w, e), next, steps[1..], w', server', more, w'', server'');
    }
  }

  lemma LeadsFrom(cfg: Config, w: World, e: Step, ws: seq<World>, steps: seq<Step>)
    requires ValidStack(cfg, w.stack) && Enabled(cfg, w, e) && Leads(cfg, ws, steps) && ws[0] == Next(cfg, w, e)
    ensures Leads(cfg, [w] + ws, [e] + steps)
  {
    hide Next, Enabled;
  }

  /** Steps driven by a server are steps of the machine. */
  lemma {:induction false} DrivesLeads<S>(x: Setting<S>, w: World, server: S, steps: seq<Step>, w': World, server': S)
    returns (ws: seq<World>)
    requires Drives(x, w, server, steps, w', server')
    ensures Leads(x.cfg, ws, steps) && ws[0] == w && ws[|steps|] == w'
    decreases |steps|
  {
    hide Next, Leads;
    if steps == [] {
      ws := [w];
      StaysPutLeads(x.cfg, w);
    } else {
      var e := steps[0];
      var next := if e.Answer? then x.serve(server, w.jobs[e.k].request).0 else server;
      var rest := DrivesLeads(x, Next(x.cfg, w, e), next, steps[1..], w', server');
      LeadsFrom(x.cfg, w, e, rest, steps[1..]);
      assert [e] + steps[1..] == steps;
      ws := [w] + rest;
    }
  }

  lemma StaysPutLeads(cfg: Config, w: World)
    ensures Leads(cfg, [w], [])
  {
  }

  lemma FetchSettles(w: World, w': World, req: Request, domain: string, end: FetchEnd)
    requires PageJobs(w.jobs, domain) && |w'.jobs| == |w.jobs| + 1 && w'.jobs == w.jobs + [w'.jobs[|w.jobs|]]
    requires SameErrand(req, w'.jobs[|w.jobs|].request) && EndsAs(w'.jobs[|w.jobs|].phase, end)
    requires !req.infra && req.domain == domain && req.page == |w.jobs| + 1
    ensures PageJobs(w'.jobs, domain)
    ensures Sum(w'.jobs, DeliveredOf) == Sum(w.jobs, DeliveredOf) + (if end.Page? then 1 else 0)
    ensures Sum(w'.jobs, DownloadsOf) == Sum(w.jobs, DownloadsOf) + w'.jobs[|w.jobs|].downloads
  {
    SumAppend(w.jobs, w'.jobs[|w.jobs|], DeliveredOf);
    SumAppend(w.jobs, w'.jobs[|w.jobs|], DownloadsOf);
  }

  /** One more page: its request is submitted and its fetch driven to the end. */
  lemma OneMorePage<S>(x: Setting<S>, w: World, at: Walk<S>) returns (steps: seq<Step>, w': World)
    requires Ticking(x) && ValidStack(x.cfg, at.stack) && StandsAt(x, w, at) && at.next.Some?
    requires InTime(x, at.stack, at.server, NewRequest(x.domain, at.next.value), at.tick)
    ensures Drives(x, w, at.server, steps, w', Advance(x, at).server) && StandsAt(x, w', Advance(x, at))
  {
    hide Drives, Fetch, Advance, InTime, Ticking, PageJobs;
    var k, req := |w.jobs|, NewRequest(x.domain, at.next.value);
    var w1 := Next(x.cfg, w, Submit(req));
    assert w1.jobs == w.jobs + [Job(req, Queued, 0, [])];
    var f := Fetch(x, at.stack, at.server, req, at.tick);
    var rest;
    rest, w' := FetchIsARun(x, w1, k, at.server, at.tick);
    SubmitThen(x, w, at.server, req, rest, w', f.server);
    steps := [Submit(req)] + rest;
    assert w'.jobs == w.jobs + [w'.jobs[k]];
    FetchSettles(w, w', req, x.domain, f.end);
    Advanced(x, at);
  }

  lemma {:induction false} CrawlDrives<S>(x: Setting<S>, w0: World, server: S, k: nat)
    returns (steps: seq<Step>, w: World)
    requires Initial(x.cfg, w0) && Ticking(x) && w0.now <= x.clock(0)
    requires CrawlInTime(x, w0.stack, server, k)
    ensures Drives(x, w0, server, steps, w, Crawled(x, w0.stack, server, k).server)
    ensures StandsAt(x, w, Crawled(x, w0.stack, server, k))
  {
    hide Drives, Advance, InTime, Ticking, Next, Enabled, StandsAt, Crawled;
    if k == 0 {
      NothingCrawled(x, w0.stack, server);
      NothingDriven(x, w0, server);
      steps, w := [], w0;
    } else {
      var at := Crawled(x, w0.stack, server, k - 1);
      steps, w := CrawlDrives(x, w0, server, k - 1);
      NextStep(x, w0.stack, server, k - 1);
      if at.next.Some? {
        var more, w' := OneMorePage(x, w, at);
        DrivesOn(x, w0, server, steps, w, at.server, more, w', Advance(x, at).server);
        steps, w := steps + more, w';
      } else {
        StaysPut(x, at);
      }
    }
  }

  lemma NothingDriven<S>(x: Setting<S>, w0: World, server: S)
    requires Initial(x.cfg, w0) && w0.now <= x.clock(0)
    ensures Drives(x, w0, server, [], w0, server) && StandsAt(x, w0, Start(w0.stack, server))
  {
  }

  /** Every crawl is a run: from the start, against any server, the crawl after k pages is the end of one
      interleaving of the step machine, answered by that server, that submits one request for each page. */
  lemma CrawlIsARun<S>(x: Setting<S>, w0: World, server: S, k: nat) returns (ws: seq<World>, steps: seq<Step>)
    requires Initial(x.cfg, w0) && Ticking(x) && w0.now <= x.clock(0)
    requires CrawlInTime(x, w0.stack, server, k)
    ensures Behavior(x.cfg, ws, steps) && ws[0] == w0
    ensures Drives(x, w0, server, steps, ws[|steps|], Crawled(x, w0.stack, server, k).server)
    ensures StandsAt(x, ws[|steps|], Crawled(x, w0.stack, server, k))
    ensures Submissions(steps) == |ws[|steps|].jobs|
  {
    assert ValidStack(x.cfg, w0.stack);
    hide Drives, Initial, Leads, StandsAt, Crawled, CrawlInTime, Ticking;
    var w;
    steps, w := CrawlDrives(x, w0, server, k);
    ws := DrivesLeads(x, w0, server, steps, w, Crawled(x, w0.stack, server, k).server);
    assert Behavior(x.cfg, ws, steps);
    OneJobEach(x.cfg, ws, steps);
  }

  lemma {:induction false} OneJobEach(cfg: Config, ws: seq<World>, steps: seq<Step>)
    requires Behavior(cfg, ws, steps)
    ensures Submissions(steps) == |ws[|steps|].jobs|
    decreases |steps|
  {
    if steps != [] {
      var n := |steps| - 1;
      BehaviorPrefix(cfg, ws, steps);
      OneJobEach(cfg, ws[..n + 1], steps[..n]);
      assert ws[n + 1] == Next(cfg, ws[n], steps[n]);
      StepJobs(cfg, ws[n], steps[n]);
    }
  }

  lemma StepJobs(cfg: Config, w: World, e: Step)
    requires ValidStack(cfg, w.stack) && Enabled(cfg, w, e)
    ensures |Next(cfg, w, e).jobs| == |w.jobs| + (if e.Submit? then 1 else 0)
  {
    hide Admit, Receive;
  }

  /** What that gives for any crawl against any server: the ban counters and the sink agree, the identity in
      use is the one the counted rotations lead to, no proxy is credited beyond the pages or charged beyond
      the rotations, the downloads are the pages, the bans and the retries, and the domain's breaker never
      counts up to its limit. */
  lemma CrawlKeepsTheBooks<S>(x: Setting<S>, w0: World, server: S, k: nat)
    requires Initial(x.cfg, w0) && Ticking(x) && w0.now <= x.clock(0)
    requires CrawlInTime(x, w0.stack, server, k)
    ensures var (at, s) := (Crawled(x, w0.stack, server, k), Crawled(x, w0.stack, server, k).stack);
      var (p0, p, rotations) := (w0.stack.proxies, s.proxies, s.stats.identityRotations);
      && s.stats.banEvents == |s.stats.bans| == |s.sink| && Kinds(s.sink) == s.stats.bans
      && (s.escalated <==> rotations > 0)
      && s.identities.generation == (if rotations == 0 then 0 else rotations - 1)
      && p.ordered == p0.ordered
      && Sum(p.ordered, SuccessesIn(p)) <= Sum(p.ordered, SuccessesIn(p0)) + at.pages
      && Sum(p.ordered, FailuresIn(p)) <= Sum(p.ordered, FailuresIn(p0)) + rotations
      && at.downloads == at.pages + s.stats.banEvents + AllRetries(s.stats)
      && BreakerAt(s.breakers, x.domain).failures < Limit(x.cfg.circuit)
  {
    hide Behavior, Drives, Crawled, Initial, Sum, Kinds, SuccessesIn, FailuresIn, CrawlInTime, Ticking;
    var ws, steps := CrawlIsARun(x, w0, server, k);
    assert |ws| == |steps| + 1 by { LastWorld(x.cfg, ws, steps); }
    Conservation(x.cfg, ws, steps, |steps|);
    IdentitiesFollowRotations(x.cfg, ws, steps, |steps|);
    ProxyTallies(x.cfg, ws, steps, |steps|);
    AllSettled(ws[|steps|].jobs, x.domain);
    BreakersFollowTheirDomain(x.cfg, ws, steps, |steps|, x.domain, FRESH);
  }

  lemma {:induction false} AllSettled(jobs: seq<Job>, domain: string)
    requires PageJobs(jobs, domain)
    ensures Sum(jobs, OpenOf) == 0 && Sum(jobs, FlyingOf) == 0
  {
    hide Sum;
    NoWeight(jobs, OpenOf);
    NoWeight(jobs, FlyingOf);
  }

  lemma {:induction false} NoWeight(jobs: seq<Job>, f: Job -> nat)
    requires forall j :: j in jobs ==> f(j) == 0
    ensures Sum(jobs, f) == 0
  {
    if jobs != [] {
      NoWeight(jobs[1..], f);
    }
  }

  lemma LastWorld(cfg: Config, ws: seq<World>, steps: seq<Step>)
    requires Behavior(cfg, ws, steps)
    ensures |ws| == |steps| + 1
  {
  }
}
