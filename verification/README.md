# AcquireIntel: a verified model of its resilience stack, harness crawls and run pipeline

AcquireIntel crawls price sources through four Scrapy downloader middlewares, tests them against an
adversarial mock server, and commits what a run collected through gated item pipelines. This project
models that logic in Dafny 4.11 and proves what holds over whole runs of it.

`dafny verify dfyconfig.toml` checks everything.

## How the model is built

Every object the source updates in place is a class here, and each of its methods is proved equal to a
function on values; the theorems about whole runs are proved about those functions.

| part of the system | objects | values and theorems |
|---|---|---|
| circuit breaker and registry | `CircuitBreakers` | `Circuit` |
| proxy pool | `ProxyPools` | `Proxies` |
| identity pool | `IdentityPools` | `Identities` |
| backoff, response labels | | `Backoff`, `Classifier` |
| the four middlewares and their chain | `Middleware` | `Stack`, `Decisions` |
| any number of requests in flight | | `Runs`, `RunTheorems`, `CrawlRuns` |
| the mock server, the paginated spider | `Harness`, `Spider` | `Crawl`, `BlockedCrawl`, `RateLimitedCrawl`, `CookieWallCrawl`, `DriftCrawl` |
| the admin rate limiter | `RateLimiting` | `RateLimiting` |
| from the crawls to the database | | `CrawlLedger` |
| item pipelines, store, ledger, runner | `PipelineStages` | `Storage`, `Pipeline`, `RunHistory`, `RunDecisions`, `PriceChains` |

- `Stack.Admit` is one request passing down the chain and `Stack.Receive` one response passing up; the
  methods of `Middleware.DownloaderChain` are proved to compute exactly these on the shared heap state.
- `Runs` is the step machine: submit, ask for admission, answer with any response at all, wake from a
  backoff, in any order, for any number of requests, with a clock that never goes back. `Always` is its
  invariant.
- `Crawl` drives one request at a time against a server given as a function of its own state and the
  request it receives; `CrawlRuns.CrawlIsARun` shows that each crawl is one of the interleavings of `Runs`
  as long as its clock never goes back and its backoffs are waited out.
- `CrawlLedger` feeds the crawls' items, drift verdicts, ban events and downloads to the runs of `Pipeline`:
  what each harness crawl commits, and that a recovered crawl differs from the happy one in the database only
  by the request count of its ledger row, and by how much.
- `Pipeline.RunOnce` is one crawl run from opened to closed ledger row; `RunHistory.After` any sequence of
  runs of any sources.

Clock readings are parameters: one reading per call of a middleware or pool method. Random jitter is any
value between 0 and the exponential ceiling. Times, delays and prices are exact reals.

## Where the code and its documentation disagree

The model follows the code.

- A half-open breaker is documented to let a single probe through. The code admits everyone who asks until
  an outcome is recorded: `Circuit.ProbesAdmitted` counts the probes exactly, `Circuit.TwoProbes` is an instance.
- `baseline_count` says that a failed run committed nothing. The flush at close does not look at the finish
  reason: `RunHistory.CommitsNothing` says exactly when a run commits nothing, `RunHistory.FailedRunCommits`
  is an interrupted run that commits.
- A rotation is documented to swap the whole header bundle. Stamping a retried request only overlays:
  `Stack.StampedHeadersCoherent` says exactly when the retry is free of the old bundle,
  `Stack.HintsSurviveRotation` is the built-in chrome-mac to firefox-win rotation, where it is not.
- A pool without an available proxy is documented to mean a direct connection. A retried request keeps the
  proxy it was stamped with: `Stack.StampedProxyCurrent` says exactly when a request goes out on the current
  proxy, `Stack.RetriedOnBannedProxy` is an instance.
- The price gate compares with the last committed price only when both are positive, so a committed price
  of zero ends the chain: `PriceChains.NoJumpExactly` says for which price bands that lets a history jump,
  `PriceChains.ZeroPriceResets` is such a history.
- The canonical id is documented as the cross-source product key. `Storage.SourcesCollide`
  says exactly which source ids can collide, `Storage.ColonsCollide` is an instance.

## Model

| member | source | states |
|---|---|---|
| Backoff.ComputeDelay | src/acquire_intel/resilience/backoff.py:37-53 | a delay never exceeds max_delay, never undercuts the drawn jitter or a positive Retry-After up to that cap, never exceeds the longer of the two, and without a Retry-After is exactly the jitter, within the exponential ceiling |
| Backoff.LawfulIsBounded | src/acquire_intel/resilience/backoff.py:30-53 | any k waits with indices 0..k-1 cost at most k * max_delay in total and, when the server asks for nothing, at most base * 2^k - base |
| Backoff.DoubledIsPower | src/acquire_intel/resilience/backoff.py:30-34 | the ceiling's doubling is base * 2^attempt |
| Backoff.CapIsPower | src/acquire_intel/resilience/backoff.py:30-34 | the ceiling of an attempt is the smaller of max_delay and base * 2^attempt |
| Classifier.Classify | src/acquire_intel/resilience/classifier.py:68-87 | challenge markers win at any status; OK exactly for an unmarked 2xx with content, empty for one without, rate-limited exactly for an unmarked 429; nothing the backoff owns is ever OK |
| Classifier.KindKeepsValue | src/acquire_intel/resilience/classifier.py:54-65 | a ban event's kind has its label's own wire value, and the recommended action is a rotation exactly for the labels that rotate |
| Circuit.HistoryDecides | src/acquire_intel/resilience/circuit.py:37-65 | after any calls, exactly one breaker matches the history: closed with the failures since the last success while these are fewer than the threshold, otherwise opened at the last trip, counting the failures since it, half-open exactly when a later call came past the cool-down; and a trip is the threshold-th failure since the last success or trip, or a failure after a call past the cool-down |
| Circuit.CoolingOff | src/acquire_intel/resilience/circuit.py:37-65 | once open since t, with no success since, nothing is admitted before t plus the cool-down, whatever late failures are recorded |
| Circuit.NoHammering | src/acquire_intel/resilience/circuit.py:37-65 | a domain that only blocks sees at most threshold + floor(T / cool-down) requests within T seconds of the first |
| Circuit.AdmissionSpacing | src/acquire_intel/resilience/circuit.py:37-65 | beyond the failures still allowed, successive admissions lie a whole cool-down apart |
| Circuit.ProbesAdmitted | src/acquire_intel/resilience/circuit.py:37-45 | without a recorded outcome, an open breaker admits exactly the requests that ask once the cool-down is over |
| Circuit.TwoProbes | src/acquire_intel/resilience/circuit.py:37-45 | two requests asking after the cool-down are both admitted, so the documented single probe does not hold |
| CircuitBreakers.CircuitBreaker.Allow | src/acquire_intel/resilience/circuit.py:37-45 | the object's admission and new state are the value-level ones; an open breaker always has its opening time, so the source's assertion holds |
| CircuitBreakers.CircuitBreaker.RecordSuccess | src/acquire_intel/resilience/circuit.py:47-51 | a success makes the breaker fresh |
| CircuitBreakers.CircuitBreaker.RecordFailure | src/acquire_intel/resilience/circuit.py:53-60 | counting or tripping as on values, immediately when half-open |
| CircuitBreakers.CircuitBreakerRegistry.ForDomain | src/acquire_intel/resilience/circuit.py:77-86 | the domain's own breaker, created closed on first use, and no other domain's breaker changed |
| Proxies.AcquireSelects | src/acquire_intel/resilience/proxy.py:75-89 | no proxy exactly when all are quarantined or there is none; otherwise the available one nearest to the cursor in cyclic order, the cursor right behind it, and nothing else changed but its elapsed ban |
| Proxies.Fair | src/acquire_intel/resilience/proxy.py:75-89 | a proxy available at every take is returned within its cyclic distance + 1 takes, whatever bans and successes hit in between |
| Proxies.TakeApproaches | src/acquire_intel/resilience/proxy.py:82-88 | a take returns an available proxy or brings the cursor strictly closer to it |
| Proxies.LazyClearingUnseen | src/acquire_intel/resilience/proxy.py:66-73 | with a clock that never goes back, clearing elapsed bans during the scan changes no take of any run |
| Proxies.BannedProxyRests | src/acquire_intel/resilience/proxy.py:97-102 | a banned proxy is taken again only once its cool-down is over, and exactly then when all others are quarantined |
| Proxies.QuarantineIsLastBan | src/acquire_intel/resilience/proxy.py:66-102 | after any run under an ordered clock a proxy is quarantined exactly while the deadline of its last ban lies ahead, whatever successes, takes and other bans came since |
| Proxies.TakeDecided | src/acquire_intel/resilience/proxy.py:75-89 | after any run a take gives nothing exactly while every proxy rests from its last ban, otherwise one that does not |
| Proxies.BannedStaysOut | src/acquire_intel/resilience/proxy.py:75-102 | no take before the deadline of a ban gives that proxy, unless it is banned anew |
| Proxies.TalliesCount | src/acquire_intel/resilience/proxy.py:91-102 | over any run a proxy's tallies are exactly the successes and bans reported for it |
| ProxyPools.CleanedIsDistinct | src/acquire_intel/resilience/proxy.py:56-64 | the pool holds every configured non-blank URL, stripped of all whitespace around it, once, and nothing else |
| ProxyPools.CleanedInOrder | src/acquire_intel/resilience/proxy.py:56-64 | the pool keeps the order in which the stripped URLs first appear |
| ProxyPools.StripTrims | src/acquire_intel/resilience/proxy.py:56-64 | what is left of a URL has only blanks around it and none at its ends |
| ProxyPools.TrimmedOnce | src/acquire_intel/resilience/proxy.py:56-64 | only one string can be left so |
| ProxyPools.BlankCodes | src/acquire_intel/resilience/proxy.py:56-64 | the code points that stripping removes |
| ProxyPools.ProxyPool.constructor | src/acquire_intel/resilience/proxy.py:56-64 | the loop computes the cleaned pool, all proxies untried |
| ProxyPools.ProxyPool.IsHealthy | src/acquire_intel/resilience/proxy.py:66-73 | healthy exactly when not quarantined, forgetting an elapsed ban |
| ProxyPools.ProxyPool.Acquire | src/acquire_intel/resilience/proxy.py:75-89 | the cyclic scan loop returns and leaves what the value-level acquire does |
| ProxyPools.ProxyPool.RecordSuccess | src/acquire_intel/resilience/proxy.py:91-95 | counts a success of a known proxy, nothing otherwise; Proxies.QuarantineIsLastBan says that no quarantine moves |
| ProxyPools.ProxyPool.RecordBan | src/acquire_intel/resilience/proxy.py:97-102 | counts a failure of a known proxy and quarantines it for the cool-down |
| Identities.JarKeysDistinct | src/acquire_intel/resilience/identity.py:165-167 | cookie-jar keys are equal only for the same profile name and generation, whatever the names contain |
| Identities.NextInTurn | src/acquire_intel/resilience/identity.py:174-179 | the n-th rotation reaches profile n modulo the catalogue size |
| IdentityPools.IdentityPool.constructor | src/acquire_intel/resilience/identity.py:160-163 | starts on the first profile at generation 0 |
| IdentityPools.IdentityPool.Rotate | src/acquire_intel/resilience/identity.py:174-179 | advances index and generation; the current identity is always the one they stand for |
| Stack.ReceiveOutcome | src/acquire_intel/resilience/middleware.py:187-392 | each response is delivered, dropped, requeued or waited for, each for its own reason, and a retry uses up exactly one attempt of its own counter |
| Stack.ReceiveBooked | src/acquire_intel/resilience/middleware.py:114-392 | the statistics and the ban sink record exactly that outcome; the trip, backoff-exhausted and rotation-exhausted counters and the kind of retry record exactly its reason |
| Stack.ReceiveBreakers | src/acquire_intel/resilience/middleware.py:259-274 | a response is at most one event for its own domain's breaker and none for any other; responses taken by backoff and rate limits are none |
| Stack.AdmitBreakers | src/acquire_intel/resilience/middleware.py:249-257 | an admission asks its own domain's breaker and no other; infra requests ask none |
| Stack.ReceiveProxies | src/acquire_intel/resilience/middleware.py:345-370 | a delivery credits the proxy in use, a rotation bans it and acquires another, any other outcome leaves pool and proxy alone |
| Stack.InfraPassesThrough | src/acquire_intel/resilience/middleware.py:87-89 | infra fetches pass both ways without touching any shared state |
| Stack.ReceiveKeepsIdentityInStep | src/acquire_intel/resilience/middleware.py:375-380 | escalated exactly when a rotation was counted; the identity is the one that many rotations lead to |
| Stack.SwitchLeavesProxy | src/acquire_intel/resilience/middleware.py:358-370 | with a positive cool-down a rotation never adopts the proxy it just banned |
| Stack.ReceiveCookieWall | src/acquire_intel/resilience/middleware.py:350-356 | whatever the breaker, a cookie wall is retried under the same identity and proxy, and is a ban event when attempts run out; the breaker counts it as a failure and a trip is counted |
| Stack.ReceiveRotates | src/acquire_intel/resilience/middleware.py:358-380 | whatever the breaker, a persistent block without a cookie and with an attempt left counts one rotation and is requeued under the next identity; the breaker counts it as a failure and a trip is counted |
| Stack.ReceiveRateLimited | src/acquire_intel/resilience/middleware.py:187-224 | a 429 waits while retries are left, then becomes one ban event; breaker and identity are untouched |
| Stack.StampedHeadersCoherent | src/acquire_intel/resilience/middleware.py:325-337 | a retry goes out with the new identity's header bundle as if never stamped under the old one if and only if every old header the new bundle lacks was the request's own |
| Stack.HintsSurviveRotation | src/acquire_intel/resilience/identity.py:99-126 | with the built-in catalogue every request blocked under chrome-mac is retried with the User-Agent of firefox-win and the client hints of Chrome |
| Stack.StampedProxyCurrent | src/acquire_intel/resilience/middleware.py:335-336 | a stamped request goes out on the current proxy, direct included, if and only if there is one or it never carried one |
| Stack.RetriedOnBannedProxy | src/acquire_intel/resilience/middleware.py:335-364 | with one proxy and a positive cool-down the first rotation leaves no proxy, yet the blocked request is retried on the banned one |
| Decisions.RawLabels | src/acquire_intel/resilience/middleware.py:60-75 | which statuses and body facts are backed off, are fit to parse, block persistently, or are a cookie wall, in raw terms |
| Decisions.RawEvent | src/acquire_intel/resilience/middleware.py:102-135 | a ban event carries the kind and action its response calls for, its status and the time |
| Decisions.OutcomeDecided | src/acquire_intel/resilience/middleware.py:187-392 | for every response, by status, body facts and budgets alone: it waits exactly for a 429 or 503 with retries left, else is delivered exactly when an unmarked 2xx with content, else requeued exactly when no plain 429 and an attempt is left, else dropped |
| Decisions.CountersDecided | src/acquire_intel/resilience/middleware.py:102-392 | for every response, exactly what each of the nine counters and the sink gain |
| Decisions.StateDecided | src/acquire_intel/resilience/middleware.py:259-380 | for every response, exactly what becomes of breaker, identity, pool and proxy |
| Decisions.StampDecided | src/acquire_intel/resilience/middleware.py:325-337 | for every request and header, exactly what the stamped request carries |
| Decisions.AdmissionDecided | src/acquire_intel/resilience/middleware.py:249-257 | a request is refused exactly when its own domain's breaker is open within the cool-down and it is no infra fetch; what else an admission changes |
| Middleware.BackoffRetryMiddleware.PlanRetry | src/acquire_intel/resilience/middleware.py:187-206 | the retry decision and the exhausted counter as on values; Decisions.OutcomeDecided says for which statuses |
| Middleware.BackoffRetryMiddleware.ProcessResponse | src/acquire_intel/resilience/middleware.py:208-224 | as on values, the retry counted |
| Middleware.CircuitBreakerMiddleware.ProcessRequest | src/acquire_intel/resilience/middleware.py:249-257 | admits or counts a skip, through the heap's own breaker object |
| Middleware.CircuitBreakerMiddleware.ProcessResponse | src/acquire_intel/resilience/middleware.py:259-274 | records failure or success on the domain's breaker and counts a trip |
| Middleware.IdentityRotationMiddleware.constructor | src/acquire_intel/resilience/middleware.py:295-310 | starts unescalated on the pool's first acquired proxy |
| Middleware.IdentityRotationMiddleware.ProcessRequest | src/acquire_intel/resilience/middleware.py:325-337 | stamps the request as on values |
| Middleware.IdentityRotationMiddleware.ProcessResponse | src/acquire_intel/resilience/middleware.py:339-373 | recovers, rotates or lets the response on as on values |
| Middleware.IdentityRotationMiddleware.Escalate | src/acquire_intel/resilience/middleware.py:375-380 | the first escalation keeps the pool's identity, each later one advances it |
| Middleware.BanDetectionMiddleware.ProcessResponse | src/acquire_intel/resilience/middleware.py:102-135 | only an OK response survives; any other is one event in counters and sink |
| Middleware.DownloaderChain.ProcessRequest | src/acquire_intel/acquisition/scrapy_settings.py:68-73 | rotation then breaker: the shared heap state and the result are those of Stack.Admit |
| Middleware.DownloaderChain.ProcessResponse | src/acquire_intel/acquisition/scrapy_settings.py:64-73 | backoff, breaker, rotation, gate: the shared heap state and the outcome are those of Stack.Receive |
| Runs.Always | src/acquire_intel/resilience/middleware.py:102-392 | in every reachable state of every interleaving: each request's account balances, the books agree with the requests, each breaker is the replay of its own domain's events, the identity is in step, and the proxy pool is what its deliveries and rotations make of it |
| Runs.StepKeepsInv | src/acquire_intel/resilience/middleware.py:102-392 | every step keeps that invariant |
| RunTheorems.Conservation | src/acquire_intel/resilience/middleware.py:102-143 | initial requests + retries = skips + downloads + waiting; downloads = in flight + delivered + ban events + retries; ban counter, kind counters, sink and banned requests agree |
| RunTheorems.DownloadsBounded | src/acquire_intel/resilience/middleware.py:187-206 | one request costs at most 1 + max_retries + max_attempts downloads against any server |
| RunTheorems.RunsAreFinite | src/acquire_intel/resilience/middleware.py:382-392 | after n submissions at most n * (3 * (max_retries + max_attempts) + 2) other steps can ever happen |
| RunTheorems.StuckOnlyWhenSettled | src/acquire_intel/resilience/middleware.py:102-143 | no further step is possible exactly when every request is delivered, banned or skipped |
| RunTheorems.BackoffLife | src/acquire_intel/resilience/middleware.py:187-206 | a request's waits have indices 0..k-1 with k at most max_retries and keep all delay bounds |
| RunTheorems.BackoffsAreWaitedOut | src/acquire_intel/resilience/middleware.py:208-224 | in any interleaving a request that backs off asks again only after the computed delay |
| RunTheorems.BreakersFollowTheirDomain | src/acquire_intel/resilience/circuit.py:68-86 | in every reachable state a domain's breaker, opening time and count included, is the one and only that its own domain's history allows |
| RunTheorems.DomainRests | src/acquire_intel/resilience/middleware.py:249-257 | in any interleaving, a domain open since t has every request refused before t plus the cool-down unless it answered OK in between |
| RunTheorems.ProxyTallies | src/acquire_intel/resilience/middleware.py:345-364 | in every reachable state the successes over all proxies are the delivered requests and the failures the identity rotations, but for those on a direct connection; proxy by proxy they are the reports naming it; the proxy in use is always one of the pool |
| RunTheorems.RotationsLeaveProxies | src/acquire_intel/resilience/middleware.py:358-363 | with a positive cool-down no rotation of any run goes on with the proxy it banned |
| RunTheorems.RotationsTakeRested | src/acquire_intel/resilience/middleware.py:358-370 | in any interleaving a rotation bans the proxy in use for the cool-down and takes one of the pool whose last ban in the run is over, and none exactly when all still rest |
| RunTheorems.IdentitiesFollowRotations | src/acquire_intel/resilience/middleware.py:358-380 | escalated exactly when rotations happened; generation = max(0, rotations - 1); index = generation modulo the catalogue |
| RunTheorems.JarsAreFresh | src/acquire_intel/resilience/identity.py:165-179 | two states of a run use the same cookie jar exactly when no rotation lies between them |
| CrawlRuns.FetchIsARun | src/acquire_intel/resilience/middleware.py:187-392 | a sequential fetch is a run of the step machine among any other requests, which stay untouched, with the server's own answers and the same final stack, server state, downloads and ending, provided the clock never goes back and the fetch's own backoffs draw lawfully and are waited out |
| CrawlRuns.CrawlIsARun | src/acquire_intel/acquisition/sources/demo_rest.py:86-109 | from the start and against any server, a crawl after any number of pages is the last world of a behavior that submits one request for each page, all settled, as many delivered as pages collected and as many downloads |
| CrawlRuns.CrawlKeepsTheBooks | src/acquire_intel/resilience/middleware.py:102-143 | what follows for every crawl: ban counters and sink agree, the identity is the one the rotations lead to, no proxy is credited beyond the pages or charged beyond the rotations, and the downloads are pages, bans and retries |
| Harness.IdentityCounter.Bump | harness/server.py:46-52 | returns how many requests came before for the pair and counts this one |
| Harness.IdentityCounter.Reset | harness/server.py:54-56 | forgets every count |
| Harness.CountsBumps | harness/server.py:40-56 | a pair's count is the number of requests counted for it |
| Harness.IdentityOf | harness/server.py:59-69 | the identity header if it is not empty, else the User-Agent if that is not empty, else the remote address, else a fixed name; a missing value counts as empty |
| Harness.Scenarios | harness/server.py:103-147 | what each scenario answers: status, label, cookie, Retry-After and page |
| Harness.BetweenIsSlice | harness/scenarios.py:105-121 | the slice that cuts a drifted page, negative ends included |
| Spider.Parse | src/acquire_intel/acquisition/sources/demo_rest.py:86-109 | emits exactly the entries with id, price and valid title, in order, each item with the id and the price of its own entry, and follows up exactly on a non-empty page |
| Spider.MappedItems | src/acquire_intel/acquisition/sources/demo_rest.py:129-153 | the items of any entries are those at the mappable positions, in order, each with its own id and price |
| Spider.PageHasEntries | harness/scenarios.py:99-102 | the first empty page is number ceil(n / size) + 1 |
| Spider.PagesConcatenate | harness/scenarios.py:99-102 | the page slices concatenate to the catalogue, each entry once and in order |
| Spider.LastPageCovers | harness/scenarios.py:99-102 | the pages before the first empty one cover the whole catalogue |
| Spider.DriftYieldsNothing | harness/scenarios.py:105-121 | a drifted page yields no item for any page number, has as many entries as the happy one from page 1 on, and is empty for page 0, where the happy one is page 1 |
| Crawl.FetchBooked | src/acquire_intel/resilience/middleware.py:102-274 | whatever the server, a fetch ends in a page with no ban and no skip, one ban event in statistics and sink, or one skip, and every download but the last is a counted retry |
| Crawl.BlockedFetch | src/acquire_intel/resilience/middleware.py:249-274 | whatever breaker it starts with and whatever the clock does, a fetch that meets only persistent blocks downloads until the first index j at which the breaker, tripped by the failures before, is asked within the cool-down of the last one, and ends as a skip there; if there is none it makes one download for each attempt and the first and ends banned; trips and retries are counted exactly |
| Crawl.PermanentBlocker | src/acquire_intel/resilience/middleware.py:249-274 | against any permanent blocker, with any breaker and any clock, one request ends exactly so, with one skip or one ban event in the statistics |
| Crawl.FreshBreaker | src/acquire_intel/resilience/middleware.py:249-274 | from a fresh breaker a permanent blocker sees exactly min(threshold, max_attempts + 1) downloads if and only if max_attempts < threshold or the retry after the trip asks within the cool-down |
| Crawl.HopelessScenarios | harness/server.py:127-140 | challenge, soft ban and an unmet cookie wall are permanent blockers |
| Crawl.CrawlBooked | src/acquire_intel/resilience/middleware.py:102-392 | after any number of pages against any server, the sink holds an event for each ban counted, and the downloads are the pages, the bans and the retries counted |
| BlockedCrawl.EndToEnd | harness/server.py:116-125 | with U identities to rotate to, the blocked crawl collects everything with no ban, no skip, floor((P-1)/b) rotations and P + floor((P-1)/b) downloads if P <= (U+1) * b; otherwise it stops after exactly (U+1) * b pages, in a skip if the breaker refuses a retry of the next request and in a ban event if not, with trips, retries and downloads counted; U is the number of profiles, none without attempts, and fewer exactly when a breaker with a threshold of one refuses a retry |
| BlockedCrawl.CatalogueToldApart | src/acquire_intel/resilience/identity.py:81-144 | the built-in profiles meet the hypothesis of the end-to-end theorem if and only if the contact address is none of their User-Agents, and do with the default one |
| BlockedCrawl.StartsFresh | harness/server.py:40-56 | a chain as built and a server that counted nothing meet the start condition |
| BlockedCrawl.ToleratesOneFailure | src/acquire_intel/resilience/circuit.py:53-60 | with a breaker threshold of two or more every profile gets its turn |
| BlockedCrawl.WithinBudget | harness/server.py:116-120 | within an identity's budget a page takes one download and changes no statistic |
| BlockedCrawl.AtBudgetsEnd | harness/server.py:119-125 | at the budget's end one rotation gets the page under a fresh identity, if the breaker lets the retry pass |
| BlockedCrawl.StuckAtBudgetsEnd | src/acquire_intel/resilience/middleware.py:249-257 | at the budget's end, with no attempt allowed or a retry that the tripped breaker refuses, the request meets nothing but blocks; a refused retry ends it as a skip |
| BlockedCrawl.NeverDelivered | harness/server.py:119-125 | with every profile's budget used up no retry ever gets a page: the request meets nothing but blocks |
| RateLimitedCrawl.RateLimitRecovery | harness/server.py:108-114 | the rate-limited crawl collects everything at exactly burst backoff retries and P + burst downloads if and only if burst <= max_retries, else nothing after max_retries + 1 downloads and one rate-limit ban event; the happy crawl collects everything with P downloads and counts nothing |
| RateLimitedCrawl.ThroughBurst | src/acquire_intel/resilience/middleware.py:187-224 | the request that meets the burst makes burst + 1 downloads or gives up after max_retries + 1 |
| RateLimitedCrawl.BlockedRefinesHappy | harness/server.py:103-125 | while the budgets last, the blocked crawl collects exactly the happy crawl's items and pages |
| CookieWallCrawl.ThroughTheWall | harness/server.py:131-136 | the crawl gets through the cookie wall if and only if one attempt is allowed and the first 403 leaves the breaker closed or cooled down by the retry, with exactly one cookie retry, P + 1 downloads and no rotation or ban; otherwise it collects nothing with one download and ends in one skip, or one ban event without attempts |
| DriftCrawl.SeesAndMapsNothing | harness/scenarios.py:105-121 | the drift crawl makes one download for each of the happy pages, sees every entry, collects nothing and counts nothing |
| RateLimiting.RateLimiter.Allow | src/acquire_intel/api/admin.py:43-51 | the popping loop keeps what one expiry pass keeps; accepted exactly below the limit, and then queued last |
| RateLimiting.WindowExact | src/acquire_intel/api/admin.py:43-51 | the queue is exactly the accepted calls younger than the window, and a call is refused exactly when the limit was already accepted in its window |
| RateLimiting.NoWindowOverfull | src/acquire_intel/api/admin.py:43-51 | no half-open window of that length, wherever it starts, holds more accepted calls than the limit |
| Storage.FlushAppends | src/acquire_intel/pipeline/persistence.py:89-94 | a flush appends exactly the buffered observations in order |
| Storage.FlushProjects | src/acquire_intel/storage/repositories.py:71-100 | any flushed items keep one row per product of the log, first seen at its first append and last seen at its latest capture |
| Storage.FlushDescribes | src/acquire_intel/storage/repositories.py:88-99 | after a flush a row is described by its last flushed item and keeps the identifying columns it was inserted with |
| Storage.SeenTogether | src/acquire_intel/storage/repositories.py:98-98 | the latest sighting is the maximum capture time of the product's observations |
| Storage.NewestExact | src/acquire_intel/storage/repositories.py:198-210 | the newest observation of a product is one of the source's with the greatest capture time, in any order of appends |
| Storage.LastFinishedExact | src/acquire_intel/storage/repositories.py:270-287 | the baseline row is a success or partial run of the source, not the excluded one, that finished last |
| Storage.CanonicalIdsDistinct | src/acquire_intel/pipeline/normalize.py:45-47 | exactly which pairs of source and external ids share a canonical id, colons or not |
| Storage.SourcesCollide | src/acquire_intel/pipeline/normalize.py:45-47 | two different sources can have products with one id if and only if one source id continues the other after a colon |
| Storage.ColonsCollide | src/acquire_intel/pipeline/normalize.py:45-47 | with a colon in a source id two products share an id |
| Pipeline.BufferIsVetted | src/acquire_intel/pipeline/item_pipeline.py:59-88 | every buffered item passed its gates against the preloaded prior, no two share a product, and every item is buffered, duplicate or rejected exactly once |
| Pipeline.BufferExact | src/acquire_intel/pipeline/item_pipeline.py:79-88 | the buffer holds exactly the items that are the first of their id in the run and pass both gates |
| Pipeline.IntakeAccounted | src/acquire_intel/pipeline/item_pipeline.py:59-88 | the buffer is the items of the kept captures in order; duplicates count exactly the repeats, rejects exactly the captures that do not normalize or that are first of their id and fail a gate |
| Pipeline.Normalize | src/acquire_intel/pipeline/normalize.py:85-127 | an item is rejected exactly for a missing or negative price, a missing currency or an empty title; otherwise product and observation share the canonical id of source and external id, source, capture time, run, price, currency and stock as captured |
| PipelineStages.Database.Upsert | src/acquire_intel/storage/repositories.py:71-100 | the stored row after an insert or a conflict |
| PipelineStages.Database.Append | src/acquire_intel/storage/repositories.py:140-153 | the log grows by exactly this observation |
| PipelineStages.Database.OpenRun | src/acquire_intel/storage/repositories.py:230-244 | a running row with zero counts and empty timings is added |
| PipelineStages.Database.CloseRun | src/acquire_intel/storage/repositories.py:246-268 | finalizes the row of that id, replacing its timings only where they are given, or reports an unknown id and changes nothing |
| PipelineStages.NormalizePipeline.ProcessItem | src/acquire_intel/pipeline/item_pipeline.py:59-88 | reject, drop a repeat or hand on, with its counters, as on values; Pipeline.IntakeAccounted says what they count |
| PipelineStages.QualityGatePipeline.ProcessItem | src/acquire_intel/pipeline/quality.py:146-164 | keeps exactly the items that pass both gates, counting the others |
| PipelineStages.PersistencePipeline.CloseSpider | src/acquire_intel/pipeline/persistence.py:72-95 | the volume gate decides over the whole buffer: nothing written, or every item in order; RunDecisions.GateDecided says when |
| PipelineStages.OwnRowIgnored | src/acquire_intel/storage/repositories.py:270-287 | a run's own row is never its baseline |
| PipelineStages.RunCrawl | src/acquire_intel/acquisition/runner.py:80-127 | open, stages, close: the database becomes Pipeline.RunOnce of the old one |
| PipelineStages.CloseLedger | src/acquire_intel/acquisition/runner.py:150-184 | the row gets its status and counts from the crawl's statistics and the request count in its timings, zeros after a crash |
| RunHistory.RunCommitsAllOrNothing | src/acquire_intel/pipeline/persistence.py:72-95 | a run leaves the log unchanged or appends its whole buffer; a quarantined one has count 0 and appended nothing |
| RunHistory.CommitsNothing | src/acquire_intel/pipeline/persistence.py:72-95 | nothing is committed if and only if the buffer is empty, the volume gate fires, or the process crashes before the flush |
| RunHistory.LedgerStatus | src/acquire_intel/acquisition/runner.py:174-184 | which finish, drift, volume and reject signals give which status, and exactly which runs count as committed |
| RunHistory.FailedRunCommits | src/acquire_intel/acquisition/runner.py:174-184 | a failed run can have committed |
| RunHistory.LogOnlyGrows | src/acquire_intel/storage/repositories.py:140-153 | log and ledger of any history extend those of each of its prefixes |
| RunHistory.ProjectionAgrees | src/acquire_intel/storage/repositories.py:71-100 | after any history the product rows are exactly the log's products with the right first and last sightings |
| RunHistory.PriceContinuity | src/acquire_intel/pipeline/quality.py:77-90 | over any history of serial runs, two adjacent committed positive prices of a product differ by at most max_jump_ratio in either direction; PriceChains.NoJumpExactly says what a zero in between does |
| RunHistory.ContinuityExact | src/acquire_intel/pipeline/quality.py:77-90 | the gate passes a price exactly when no positive pair can be compared or the jump in either direction is within the factor |
| RunHistory.PricesInRange | src/acquire_intel/pipeline/quality.py:70-74 | every committed price lies in the configured band |
| RunHistory.PriorIsPrevious | src/acquire_intel/storage/repositories.py:198-210 | for serial runs the preloaded prior is the product's last appended price |
| PriceChains.ZeroPriceResets | src/acquire_intel/pipeline/quality.py:77-90 | three interrupted serial runs commit any positive price of a band that admits zero, then zero, then any other positive price of it |
| PriceChains.NoJumpExactly | src/acquire_intel/pipeline/quality.py:70-90 | every serial history keeps each jump from one positive price of a product to its next, zeros skipped, within max_jump_ratio if and only if price_min > 0 or price_max <= 0 |
| RunHistory.VolumeBand | src/acquire_intel/pipeline/quality.py:93-107 | over any history of serial runs, counts of consecutive success or partial runs stay in the band whenever the earlier reaches the minimum baseline |
| RunHistory.OutsideIsAnomalous | src/acquire_intel/pipeline/quality.py:93-107 | with a large enough baseline the gate fires exactly outside the tolerance band |
| RunHistory.LastFinishedIsLast | src/acquire_intel/storage/repositories.py:270-287 | for serial runs the baseline is the source's last committed row |
| RunHistory.FrozenSource | src/acquire_intel/pipeline/persistence.py:72-87 | if every later run of a source falls outside the band, its baseline never moves and nothing of it is ever committed again |
| RunDecisions.PassesDecided | src/acquire_intel/pipeline/quality.py:70-90 | an item passes both gates exactly with a price in the band and no jump beyond the factor from a positive prior |
| RunDecisions.GateDecided | src/acquire_intel/pipeline/quality.py:93-107 | for serial runs the volume gate fires exactly when the last committed run of the source counts at least the minimum and the count lies outside its band |
| RunDecisions.SurvivorsCounted | src/acquire_intel/pipeline/item_pipeline.py:59-88 | the buffer counts the kept captures, the reject counter the rejected ones |
| RunDecisions.RunDecided | src/acquire_intel/acquisition/runner.py:93-184 | for the next run of any serial history, exactly what it appends and every column of its ledger row: quarantined exactly out of the band of a large enough baseline, partial exactly with a rejected capture, whatever the repeats |
| RunDecisions.RepeatsAreNoRejects | src/acquire_intel/pipeline/item_pipeline.py:79-84 | a finished run of one product captured twice is a success |
| CrawlLedger.CommitsEachOnce | src/acquire_intel/pipeline/persistence.py:72-95 | a run that reached its end commits exactly one observation for each distinct id whose first capture passes the gates, or nothing when the volume gate fires; its row counts them and carries its ban events and its requests |
| CrawlLedger.AppendedFromEntries | src/acquire_intel/acquisition/sources/demo_rest.py:129-153 | every observation a crawl's run appends is that of one mapped entry: its id under the source's name, the parsed price of that entry, its stock flag and stamp |
| CrawlLedger.BlockedRun | src/acquire_intel/acquisition/runner.py:77-127 | the run of the blocked crawl: all entries of the catalogue, no ban event and P + floor((P-1)/b) requests within the allowance, otherwise those of the allowed pages, one ban event unless the breaker ended it, and the requests up to there |
| CrawlLedger.RateLimitedRun | src/acquire_intel/acquisition/runner.py:77-127 | the run of the happy or rate-limited crawl: the whole catalogue, no ban event and P + burst requests if the burst fits the retries, else nothing, one ban event and max_retries + 1 requests |
| CrawlLedger.CookieWallRun | src/acquire_intel/acquisition/runner.py:77-127 | the run of the cookie-wall crawl: the whole catalogue, no ban event and P + 1 requests if the retry gets through, else nothing with one request, and a ban event only without attempts |
| CrawlLedger.HopelessRun | src/acquire_intel/acquisition/runner.py:77-127 | the run of a crawl against a permanent blocker: nothing, one ban event unless the breaker refuses a retry, and exactly the downloads up to the refusal or the last attempt |
| CrawlLedger.DriftRun | src/acquire_intel/acquisition/runner.py:77-127 | the run of the drift crawl: no item, the drift verdict on all entries unmapped, no ban event and P requests |
| CrawlLedger.DriftExactly | src/acquire_intel/analytics/drift.py:22-34 | drift is exactly: something seen, at least min_entries, and more entries unmapped than the ratio of those seen |
| CrawlLedger.DriftIsFlagged | src/acquire_intel/analytics/drift.py:22-34 | a drifted site commits nothing and is flagged if and only if its catalogue is not empty, reaches min_entries, and max_unmapped_ratio is below one |
| CrawlLedger.BlockedCrawlCommits | src/acquire_intel/acquisition/runner.py:80-127 | from the blocking server to the database: one new observation for each distinct passing id of the entries the budgets cover, each that of one such entry, one new row with their count, the number of events in the sink and the requests, and a success or partial status, even for a crawl cut short, exactly when neither drift nor the volume gate speaks against it |
| CrawlLedger.RequestsReachTheRow | src/acquire_intel/acquisition/runner.py:112-171 | the request count of a run changes no product, no observation and no column of the ledger but its own row's timings, by exactly the difference |
| CrawlLedger.BlockedCostsRequests | src/acquire_intel/acquisition/runner.py:80-171 | within its allowance a blocked crawl commits the happy crawl's products, log and row but for floor((P-1)/b) more requests; the databases are equal if and only if that is zero |
| CrawlLedger.RateLimitCostsRequests | src/acquire_intel/acquisition/runner.py:80-171 | a rate-limited crawl whose burst fits the retries does so but for burst more requests; the databases are equal if and only if the burst is zero |
| CrawlLedger.CookieWallCostsARequest | src/acquire_intel/acquisition/runner.py:80-171 | a crawl through the cookie wall does so but for one request more, so its database always differs |

## Left out

- Stack.Receive: one response passes all four middlewares as one step; in the source the backoff stage is asynchronous, so other events may come between its stage and the next.
- Stack.Stamp: the contact User-Agent is set by Scrapy's own middleware before ours and is modelled as a default; requests are values, so aliasing of a request's header and meta objects is not modelled.
- Circuit.NoHammering: each admitted request's failure is recorded before the next one asks; requests already in flight when the breaker trips are covered by RunTheorems.DomainRests instead.
- Proxies.Acquire: one clock reading for the whole scan; the source reads the clock once per proxy.
- Classifier.Classify: body scanning is reduced to two facts, a challenge marker in the scanned head and a blank body; UTF-8 decoding, lower-casing and the marker list are not part of this model.
- Harness.Respond: JSON pages are taken to hold no challenge marker, and page sizes are not negative.
- RunHistory.PriceContinuity: runs of a source are serial and later ones capture later; equal capture times leave the database's choice of the newest price open.
- RunHistory.VolumeBand: runs of a source are serial and later ones finish later, with run ids of their own.
- Decimal parsing, currency resolution and whitespace collapsing: inputs of the model (a parsed price or none, a resolved currency or none, a collapsed title).
- PipelineStages.RunCrawl: persistable sources with a registered row only; drift is an input; every transaction succeeds; the ban-event rows are represented by their number.
- CrawlLedger.RunOf: a crawl that runs out of requests has the finish reason `finished`; parsed prices, descriptions and time stamps are inputs, the same for the crawls that are compared; the request count is that of the page requests, without robots.txt fetches.
- BlockedCrawl.EndToEnd: catalogues whose profiles share a User-Agent, or share one with the contact address; the server sees no new caller at such a rotation.
- Backoff.ComputeDelay: floating-point rounding, the overflow of 2.0 ** attempt at huge attempts, NaN and infinite Retry-After values and its HTTP-date form.
- Network exceptions, redirects, the duplicate filter, AutoThrottle, Scrapy's own retry middleware and cookie handling beyond what CookieWallCrawl states.
- Attribution of a response to the proxy that served it: the source charges the proxy in use when the response arrives, and so does the model.
- Runs adopted from the orchestrator whose source row is missing stay open in the ledger; not modelled.
- HTML and GraphQL extractors, serializers, dashboard, source health, deals, scheduler, settings and migrations: parsing, presentation and configuration code.
