/** Response labelling: one label per response, computed before any extractor sees it. */
module Classifier {
  import opened Wrappers

  datatype Classification = Ok | RateLimited | Blocked | Captcha | Empty

  datatype BanKind = RateLimitedBan | BlockedBan | CaptchaBan | EmptyBan

  datatype BanAction = Backoff | RotateIdentity

  /** One `products` entry as the extractor reads it: the id and the first usable variant price,
      each absent when the source field is missing or blank, and whether the title is valid. */
  datatype Entry = Entry(externalId: Option<string>, price: Option<string>, titled: bool)

  /** What the middlewares read of a response. `marked`: the head of the body holds a challenge
      marker; `blank`: the body is empty up to whitespace; `entries`: the decoded `products` list,
      empty when the body is not the expected envelope. */
  datatype Response = Response(
    status: int, marked: bool, blank: bool, setCookie: bool, retryAfter: Option<real>, entries: seq<Entry>)

  /** Challenge markers win over any status; only an unmarked 2xx with content is safe to parse. */
  function Classify(r: Response): (c: Classification)
    ensures c == Captcha <==> r.marked
    ensures c == Ok <==> 200 <= r.status < 300 && !r.marked && !r.blank
    ensures c == Empty <==> 200 <= r.status < 300 && !r.marked && r.blank
    ensures c == RateLimited <==> r.status == 429 && !r.marked
    ensures Retryable(r.status) ==> c != Ok
  {
    if r.marked then Captcha
    else if r.status == 429 then RateLimited
    else if 200 <= r.status < 300 then (if r.blank then Empty else Ok)
    else Blocked
  }

  function BanKindOf(c: Classification): BanKind
    requires c != Ok
  {
    match c
    case RateLimited => RateLimitedBan
    case Blocked => BlockedBan
    case Captcha => CaptchaBan
    case Empty => EmptyBan
  }

  function RecommendedAction(c: Classification): BanAction
    requires c != Ok
  {
    if c == RateLimited then Backoff else RotateIdentity
  }

  /** The labels and kinds as they are stored. */
  function LabelValue(c: Classification): string {
    match c
    case Ok => "ok"
    case RateLimited => "rate_limited"
    case Blocked => "blocked"
    case Captcha => "captcha"
    case Empty => "empty"
  }

  function KindValue(k: BanKind): string {
    match k
    case EmptyBan => "empty"
    case CaptchaBan => "captcha"
    case BlockedBan => "blocked"
    case RateLimitedBan => "rate_limited"
  }

  /** A ban event's kind has the label's own stored value, and its action is the one that recovers it:
      backoff for a rate limit, a rotation for what rotates. */
  lemma KindKeepsValue(c: Classification)
    requires c != Ok
    ensures KindValue(BanKindOf(c)) == LabelValue(c)
    ensures RecommendedAction(c) == RotateIdentity <==> PersistentBlock(c)
  {
  }

  /** The statuses the backoff middleware owns. */
  predicate Retryable(status: int) {
    status == 429 || status == 503
  }

  /** The labels that trip a breaker and that rotate the identity: every ban but a rate limit. */
  predicate PersistentBlock(c: Classification) {
    c == Blocked || c == Captcha || c == Empty
  }
}
