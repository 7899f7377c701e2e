/** The adversarial server: deterministic scenarios, some counted per caller identity. */
module Harness {
  import opened Wrappers
  import opened Classifier
  import opened Stack

  datatype Scenario = Happy | RateLimit | BlockAfterN | CaptchaPage | CookieWall | SoftBan | Drift

  datatype HarnessConfig = HarnessConfig(rateLimitedBurst: int, retryAfterSeconds: int, blockAfter: int, pageSize: nat)

  /** One server: its catalogue, the address it falls back to, and the scenario the crawl selects. */
  datatype Harness = Harness(scenario: Scenario, cfg: HarnessConfig, catalogue: seq<Entry>, remoteAddr: string)

  type Counts = map<(Scenario, string), nat>

  const IDENTITY_HEADER := "X-Harness-Identity"

  function CountOf(counts: Counts, scenario: Scenario, identity: string): nat {
    if (scenario, identity) in counts then counts[(scenario, identity)] else 0
  }

  function Bumped(counts: Counts, scenario: Scenario, identity: string): Counts {
    counts[(scenario, identity) := CountOf(counts, scenario, identity) + 1]
  }

  /** The counts after these pairs were bumped, in order, from none. */
  function BumpedBy(pairs: seq<(Scenario, string)>): Counts {
    if pairs == [] then map[]
    else Bumped(BumpedBy(pairs[..|pairs| - 1]), pairs[|pairs| - 1].0, pairs[|pairs| - 1].1)
  }

  /** A pair's count is the number of times it was bumped. */
  lemma {:induction false} CountsBumps(pairs: seq<(Scenario, string)>, scenario: Scenario, identity: string)
    ensures CountOf(BumpedBy(pairs), scenario, identity) == multiset(pairs)[(scenario, identity)]
  {
    if pairs != [] {
      var n := |pairs| - 1;
      CountsBumps(pairs[..n], scenario, identity);
      assert pairs == pairs[..n] + [pairs[n]];
    }
  }

  class IdentityCounter {
    var counts: Counts

    constructor ()
      ensures counts == map[]
    {
      counts := map[];
    }

    /** Counts this request and returns how many came before it. */
    method Bump(scenario: Scenario, identity: string) returns (prior: nat)
      modifies this
      ensures prior == CountOf(old(counts), scenario, identity)
      ensures counts == Bumped(old(counts), scenario, identity)
    {
      var key := (scenario, identity);
      prior := if key in counts then counts[key] else 0;
      counts := counts[key := prior + 1];
    }

    method Reset()
      modifies this
      ensures counts == map[]
    {
      counts := map[];
    }
  }

  /** A missing header or User-Agent counts as an empty one. */
  function HeaderOf(req: Request): string {
    if IDENTITY_HEADER in req.headers then req.headers[IDENTITY_HEADER] else ""
  }

  function AgentOf(req: Request): string {
    if req.userAgent.Some? then req.userAgent.value else ""
  }

  /** The explicit header, else the User-Agent, else the remote address; empty values do not count. */
  function IdentityOf(h: Harness, req: Request): (identity: string)
    ensures identity != ""
    ensures HeaderOf(req) != "" ==> identity == HeaderOf(req)
    ensures HeaderOf(req) == "" && AgentOf(req) != "" ==> identity == AgentOf(req)
    ensures HeaderOf(req) == AgentOf(req) == "" ==> identity == if h.remoteAddr != "" then h.remoteAddr else "anonymous"
  {
    if HeaderOf(req) != "" then HeaderOf(req)
    else if AgentOf(req) != "" then AgentOf(req)
    else if h.remoteAddr != "" then h.remoteAddr else "anonymous"
  }

  function Slice<T>(s: seq<T>, start: nat, size: nat): seq<T> {
    if start >= |s| then [] else if start + size >= |s| then s[start..] else s[start..start + size]
  }

  function HappyPage(catalogue: seq<Entry>, page: int, pageSize: nat): seq<Entry> {
    Slice(catalogue, (if page < 1 then 0 else page - 1) * pageSize, pageSize)
  }

  /** The catalogue's `start : stop` slice; a negative stop counts from the end. */
  function Between<T>(s: seq<T>, start: nat, stop: int): seq<T> {
    var upTo := if stop < 0 then |s| + stop else if stop > |s| then |s| else stop;
    if start >= upTo then [] else s[start..upTo]
  }

  /** It is the stretch of s from `start` up to `stop`, or up to |s| + stop when that is negative. */
  lemma BetweenIsSlice<T>(s: seq<T>, start: nat, stop: int)
    ensures var (r, upTo) := (Between(s, start, stop), if stop < 0 then |s| + stop else stop);
      && (forall i :: 0 <= i < |r| ==> start + i < |s| && r[i] == s[start + i])
      && |r| == if start >= upTo || start >= |s| then 0 else (if upTo <= |s| then upTo else |s|) - start
  {
  }

  /** The drift scenario cuts its page by its end, not by its length. */
  function DriftPage(catalogue: seq<Entry>, page: int, pageSize: nat): seq<Entry> {
    Renamed(Between(catalogue, (if page < 1 then 0 else page - 1) * pageSize, page * pageSize))
  }

  /** Item fields renamed: the envelope is intact, every entry unmappable. */
  function Renamed(entries: seq<Entry>): seq<Entry> {
    seq(|entries|, _ => Entry(None, None, false))
  }

  /** A JSON page; the catalogue's text is taken to hold no challenge marker. */
  function Json(entries: seq<Entry>): Response {
    Response(200, false, false, false, None, entries)
  }

  function Respond(h: Harness, count: nat, page: int, hasSessionCookie: bool): Response {
    var happy := Json(HappyPage(h.catalogue, page, h.cfg.pageSize));
    match h.scenario
    case Happy => happy
    case RateLimit =>
      if count < h.cfg.rateLimitedBurst
      then Response(429, false, false, false, Some(h.cfg.retryAfterSeconds as real), [])
      else happy
    case BlockAfterN =>
      if count < h.cfg.blockAfter then happy else Response(403, false, false, false, None, [])
    case CaptchaPage => Response(200, true, false, false, None, [])
    case CookieWall => if hasSessionCookie then happy else Response(403, false, false, true, None, [])
    case SoftBan => Response(200, false, true, false, None, [])
    case Drift => Json(DriftPage(h.catalogue, page, h.cfg.pageSize))
  }

  /** One request of a caller without the session cookie: count it, then answer. */
  function Serve(h: Harness): (Counts, Request) -> (Counts, Response) {
    (counts: Counts, req: Request) =>
      (Bumped(counts, h.scenario, IdentityOf(h, req)),
       Respond(h, CountOf(counts, h.scenario, IdentityOf(h, req)), req.page, false))
  }

  /** What each scenario answers, as the resilience stack reads it. */
  lemma Scenarios(h: Harness, count: nat, page: int, cookie: bool)
    ensures var r := Respond(h, count, page, cookie);
      match h.scenario
      case Happy => r.status == 200 && Classify(r) == Ok && r.entries == HappyPage(h.catalogue, page, h.cfg.pageSize)
      case RateLimit =>
        if count < h.cfg.rateLimitedBurst
        then r.status == 429 && Classify(r) == RateLimited && r.retryAfter == Some(h.cfg.retryAfterSeconds as real)
        else Classify(r) == Ok && r.entries == HappyPage(h.catalogue, page, h.cfg.pageSize)
      case BlockAfterN =>
        if count < h.cfg.blockAfter
        then Classify(r) == Ok && r.entries == HappyPage(h.catalogue, page, h.cfg.pageSize)
        else r.status == 403 && Classify(r) == Blocked && !r.setCookie
      case CaptchaPage => r.status == 200 && Classify(r) == Captcha && !r.setCookie
      case CookieWall =>
        if cookie then Classify(r) == Ok && r.entries == HappyPage(h.catalogue, page, h.cfg.pageSize)
        else r.status == 403 && Classify(r) == Blocked && r.setCookie
      case SoftBan => r.status == 200 && Classify(r) == Empty && !r.setCookie
      case Drift =>
        Classify(r) == Ok && |r.entries| == |DriftPage(h.catalogue, page, h.cfg.pageSize)|
        && forall e :: e in r.entries ==> e.externalId.None? && e.price.None?
  {
  }
}
