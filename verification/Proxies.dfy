/** The proxy pool: round-robin over a cyclic order, skipping quarantined proxies. */
module Proxies {
  import opened Wrappers
  import opened Division

  datatype Health = Health(successes: nat, failures: nat, bannedUntil: Option<real>)

  const UNTRIED := Health(0, 0, None)

  datatype Pool = Pool(ordered: seq<string>, health: map<string, Health>, cursor: nat)

  ghost predicate ValidPool(p: Pool) {
    && (forall i, j :: 0 <= i < j < |p.ordered| ==> p.ordered[i] != p.ordered[j])
    && (forall u :: u in p.ordered ==> u in p.health)
    && (if p.ordered == [] then p.cursor == 0 else p.cursor < |p.ordered|)
  }

  predicate Quarantined(h: Health, now: real) {
    h.bannedUntil.Some? && now < h.bannedUntil.value
  }

  /** i modulo n for the indices a scan meets; linear, so that proofs need no division. */
  function Wrap(i: nat, n: nat): (r: nat)
    requires i < 2 * n
    ensures r < n
  {
    if i < n then i else i - n
  }

  lemma WrapIsModulo(i: nat, n: nat)
    requires i < 2 * n
    ensures Wrap(i, n) == i % n
  {
    if n <= i {
      DivisionIs(i, 1, i - n, n);
    } else {
      DivisionIs(i, 0, i, n);
    }
  }

  /** The proxy `offset` places after the cursor. */
  function At(p: Pool, offset: nat): string
    requires p.cursor < |p.ordered| && offset < |p.ordered|
  {
    p.ordered[Wrap(p.cursor + offset, |p.ordered|)]
  }

  /** The first offset from `offset` on whose proxy is not quarantined; the pool size if there is none. */
  function FirstFree(p: Pool, offset: nat, now: real): (k: nat)
    requires ValidPool(p) && offset <= |p.ordered|
    ensures offset <= k <= |p.ordered|
    ensures k < |p.ordered| ==> !Quarantined(p.health[At(p, k)], now)
    ensures forall j :: offset <= j < k ==> Quarantined(p.health[At(p, j)], now)
    decreases |p.ordered| - offset
  {
    if offset == |p.ordered| || !Quarantined(p.health[At(p, offset)], now) then offset
    else FirstFree(p, offset + 1, now)
  }

  /** Hand out `url`: its elapsed ban is forgotten and the cursor moves to the given place. */
  function HandOut(p: Pool, url: string, cursor: nat): Pool
    requires url in p.health
  {
    Pool(p.ordered, p.health[url := p.health[url].(bannedUntil := None)], cursor)
  }

  function Acquire(p: Pool, now: real): (r: (Pool, Option<string>))
    requires ValidPool(p)
    ensures ValidPool(r.0) && r.0.ordered == p.ordered
  {
    var n, k := |p.ordered|, FirstFree(p, 0, now);
    if k == n then (p, None)
    else (HandOut(p, At(p, k), Wrap(p.cursor + k + 1, n)), Some(At(p, k)))
  }

  function RecordSuccess(p: Pool, url: Option<string>): Pool {
    if url.Some? && url.value in p.health
    then p.(health := p.health[url.value := p.health[url.value].(successes := p.health[url.value].successes + 1)])
    else p
  }

  function RecordBan(p: Pool, url: Option<string>, until: real): Pool {
    if url.Some? && url.value in p.health
    then p.(health := p.health[url.value :=
                p.health[url.value].(failures := p.health[url.value].failures + 1, bannedUntil := Some(until))])
    else p
  }

  // ----- Selection -----

  /** Every proxy lies at exactly one cyclic distance from the cursor. */
  ghost function Distance(p: Pool, url: string): (d: nat)
    requires ValidPool(p) && url in p.ordered
    ensures d < |p.ordered| && At(p, d) == url
  {
    var i: nat :| i < |p.ordered| && p.ordered[i] == url;
    if i >= p.cursor then i - p.cursor else i + |p.ordered| - p.cursor
  }

  lemma SamePlace(p: Pool, a: nat, b: nat)
    requires ValidPool(p) && a < |p.ordered| && b < |p.ordered| && At(p, a) == At(p, b)
    ensures a == b
  {
  }

  /** Acquire gives no proxy exactly when all are quarantined (an empty pool included), and then
      changes nothing; otherwise it gives the available proxy nearest to the cursor, moves the cursor
      right behind it, and changes nothing else but that proxy's elapsed ban. */
  lemma AcquireSelects(p: Pool, now: real)
    requires ValidPool(p)
    ensures Acquire(p, now).1.None? <==> forall u :: u in p.ordered ==> Quarantined(p.health[u], now)
    ensures Acquire(p, now).1.None? ==> Acquire(p, now).0 == p
    ensures Acquire(p, now).1.Some? ==>
              var (p', url) := (Acquire(p, now).0, Acquire(p, now).1.value);
              && url in p.ordered
              && !Quarantined(p.health[url], now)
              && (forall u :: u in p.ordered && Distance(p, u) < Distance(p, url) ==> Quarantined(p.health[u], now))
              && p'.ordered == p.ordered && p'.cursor == (p.cursor + Distance(p, url) + 1) % |p.ordered|
              && p'.health == p.health[url := Health(p.health[url].successes, p.health[url].failures, None)]
  {
    var k := FirstFree(p, 0, now);
    if k == |p.ordered| {
      forall u | u in p.ordered ensures Quarantined(p.health[u], now) {
        assert u == At(p, Distance(p, u));
      }
    } else {
      var url := At(p, k);
      assert url in p.ordered;
      SamePlace(p, k, Distance(p, url));
      WrapIsModulo(p.cursor + k + 1, |p.ordered|);
      forall u | u in p.ordered && Distance(p, u) < Distance(p, url) ensures Quarantined(p.health[u], now) {
        assert u == At(p, Distance(p, u));
      }
    }
  }

  // ----- Fairness -----

  /** What can happen to a pool, with the clock reading of each call. */
  datatype Op = Take(now: real) | Ban(url: Option<string>, until: real) | Praise(url: Option<string>)

  function Do(p: Pool, op: Op): (r: (Pool, seq<Option<string>>))
    requires ValidPool(p)
    ensures ValidPool(r.0) && r.0.ordered == p.ordered
  {
    match op
    case Take(now) => var (p', url) := Acquire(p, now); (p', [url])
    case Ban(url, until) => (RecordBan(p, url, until), [])
    case Praise(url) => (RecordSuccess(p, url), [])
  }

  /** What the takes of a run return, in order. */
  ghost function Taken(p: Pool, ops: seq<Op>): seq<Option<string>>
    requires ValidPool(p)
    decreases |ops|
  {
    if ops == [] then [] else Do(p, ops[0]).1 + Taken(Do(p, ops[0]).0, ops[1..])
  }

  /** `url` is out of quarantine whenever a take happens. */
  ghost predicate AvailableAtTakes(p: Pool, ops: seq<Op>, url: string)
    requires ValidPool(p) && url in p.ordered
    decreases |ops|
  {
    ops != [] ==>
      && (ops[0].Take? ==> !Quarantined(p.health[url], ops[0].now))
      && AvailableAtTakes(Do(p, ops[0]).0, ops[1..], url)
  }

  /** One take either returns `url` or brings the cursor closer to it. */
  lemma TakeApproaches(p: Pool, now: real, url: string)
    requires ValidPool(p) && url in p.ordered && !Quarantined(p.health[url], now)
    ensures Acquire(p, now).1 == Some(url) || Distance(Acquire(p, now).0, url) < Distance(p, url)
  {
    var d, k := Distance(p, url), FirstFree(p, 0, now);
    assert k <= d;
    if k < d {
      var p' := Acquire(p, now).0;
      assert At(p', d - k - 1) == url;
      SamePlace(p', Distance(p', url), d - k - 1);
    }
  }

  /** A proxy that is available at every take is returned within Distance + 1 <= pool size takes,
      whatever happens to the other proxies in between. */
  lemma {:induction false} Fair(p: Pool, ops: seq<Op>, url: string)
    requires ValidPool(p) && url in p.ordered
    requires AvailableAtTakes(p, ops, url)
    requires |Taken(p, ops)| > Distance(p, url)
    ensures Some(url) in Taken(p, ops)
    decreases |ops|
  {
    if !(ops[0].Take? && Acquire(p, ops[0].now).1 == Some(url)) {
      StepApproaches(p, ops[0], url);
      Fair(Do(p, ops[0]).0, ops[1..], url);
    }
  }

  lemma StepApproaches(p: Pool, op: Op, url: string)
    requires ValidPool(p) && url in p.ordered
    requires op.Take? ==> !Quarantined(p.health[url], op.now) && Acquire(p, op.now).1 != Some(url)
    ensures Distance(Do(p, op).0, url) + (if op.Take? then 1 else 0) <= Distance(p, url)
  {
    if op.Take? {
      TakeApproaches(p, op.now, url);
    } else {
      var p' := Do(p, op).0;
      assert At(p', Distance(p, url)) == url;
      SamePlace(p', Distance(p', url), Distance(p, url));
    }
  }

  // ----- Tallies -----

  ghost function PoolAfter(p: Pool, ops: seq<Op>): (p': Pool)
    requires ValidPool(p)
    ensures ValidPool(p') && p'.ordered == p.ordered
  {
    if ops == [] then p else Do(PoolAfter(p, ops[..|ops| - 1]), ops[|ops| - 1]).0
  }

  function Praises(ops: seq<Op>, url: string): nat {
    if ops == [] then 0
    else Praises(ops[..|ops| - 1], url) + (if ops[|ops| - 1] == Praise(Some(url)) then 1 else 0)
  }

  function Bans(ops: seq<Op>, url: string): nat {
    if ops == [] then 0
    else Bans(ops[..|ops| - 1], url) + (if ops[|ops| - 1].Ban? && ops[|ops| - 1].url == Some(url) then 1 else 0)
  }

  /** Over any run a proxy's tallies count exactly the successes and bans reported for it, and takes count
      nothing. */
  lemma {:induction false} TalliesCount(p: Pool, ops: seq<Op>, url: string)
    requires ValidPool(p) && url in p.ordered
    ensures PoolAfter(p, ops).health[url].successes == p.health[url].successes + Praises(ops, url)
    ensures PoolAfter(p, ops).health[url].failures == p.health[url].failures + Bans(ops, url)
  {
    if ops != [] {
      TalliesCount(p, ops[..|ops| - 1], url);
    }
  }

  // ----- Forgetting an elapsed ban changes nothing -----

  /** The pool that never clears a ban deadline. */
  function DoKeepingBans(p: Pool, op: Op): (r: (Pool, seq<Option<string>>))
    requires ValidPool(p)
    ensures ValidPool(r.0) && r.0.ordered == p.ordered
  {
    match op
    case Take(now) => var (p', url) := Acquire(p, now); (p.(cursor := p'.cursor), [url])
    case _ => Do(p, op)
  }

  ghost function TakenKeepingBans(p: Pool, ops: seq<Op>): seq<Option<string>>
    requires ValidPool(p)
    decreases |ops|
  {
    if ops == [] then [] else DoKeepingBans(p, ops[0]).1 + TakenKeepingBans(DoKeepingBans(p, ops[0]).0, ops[1..])
  }

  ghost predicate TakesInOrder(ops: seq<Op>, from: real) {
    ops != [] ==>
      && (ops[0].Take? ==> ops[0].now >= from)
      && TakesInOrder(ops[1..], if ops[0].Take? then ops[0].now else from)
  }

  /** From `now` on, both pools quarantine the same proxies: deadlines differ only where they elapsed. */
  ghost predicate Agree(p: Pool, q: Pool, now: real) {
    && ValidPool(p) && ValidPool(q)
    && p.ordered == q.ordered && p.cursor == q.cursor
    && forall u :: u in p.ordered ==> SameQuarantine(p.health[u], q.health[u], now)
  }

  predicate SameQuarantine(g: Health, h: Health, now: real) {
    g.bannedUntil == h.bannedUntil || (!Quarantined(g, now) && !Quarantined(h, now))
  }

  lemma {:induction false} AgreeingScan(p: Pool, q: Pool, offset: nat, now: real)
    requires Agree(p, q, now) && offset <= |p.ordered|
    ensures FirstFree(p, offset, now) == FirstFree(q, offset, now)
    decreases |p.ordered| - offset
  {
    if offset < |p.ordered| {
      var url := At(p, offset);
      assert url == At(q, offset) && url in p.ordered;
      assert SameQuarantine(p.health[url], q.health[url], now);
      AgreeingScan(p, q, offset + 1, now);
    }
  }

  lemma AgreeingHandOut(p: Pool, q: Pool, url: string, cursor: nat, now: real)
    requires Agree(p, q, now) && url in p.ordered && cursor < |p.ordered| && !Quarantined(p.health[url], now)
    ensures Agree(HandOut(p, url, cursor), q.(cursor := cursor), now)
  {
    forall u | u in p.ordered ensures SameQuarantine(HandOut(p, url, cursor).health[u], q.health[u], now) {
      assert SameQuarantine(p.health[u], q.health[u], now);
    }
  }

  lemma AgreeingTake(p: Pool, q: Pool, now: real)
    requires Agree(p, q, now)
    ensures Do(p, Take(now)).1 == DoKeepingBans(q, Take(now)).1
    ensures Agree(Do(p, Take(now)).0, DoKeepingBans(q, Take(now)).0, now)
  {
    AgreeingScan(p, q, 0, now);
    var k := FirstFree(p, 0, now);
    if k < |p.ordered| {
      assert At(p, k) in p.ordered;
      AgreeingHandOut(p, q, At(p, k), Wrap(p.cursor + k + 1, |p.ordered|), now);
    }
  }

  lemma AgreeingReport(p: Pool, q: Pool, op: Op, now: real)
    requires Agree(p, q, now) && !op.Take?
    ensures Do(p, op).1 == DoKeepingBans(q, op).1
    ensures Agree(Do(p, op).0, DoKeepingBans(q, op).0, now)
  {
    forall u | u in p.ordered
      ensures SameQuarantine(Do(p, op).0.health[u], DoKeepingBans(q, op).0.health[u], now)
    {
      assert SameQuarantine(p.health[u], q.health[u], now);
    }
  }

  /** With a clock that never goes back, clearing an elapsed ban during the scan is not observable:
      every take of every run returns what a pool that never clears would return. */
  lemma {:induction false} LazyClearingUnseen(p: Pool, q: Pool, ops: seq<Op>, now: real)
    requires Agree(p, q, now)
    requires TakesInOrder(ops, now)
    ensures Taken(p, ops) == TakenKeepingBans(q, ops)
    decreases |ops|
  {
    if ops != [] {
      var now' := if ops[0].Take? then ops[0].now else now;
      assert Agree(p, q, now');
      if ops[0].Take? {
        AgreeingTake(p, q, now');
      } else {
        AgreeingReport(p, q, ops[0], now);
      }
      LazyClearingUnseen(Do(p, ops[0]).0, DoKeepingBans(q, ops[0]).0, ops[1..], now');
    }
  }

  // ----- Who rests, over any run -----

  /** The deadline of the last ban reported for a proxy; the pool's own where there was none. */
  function LastDeadline(p: Pool, ops: seq<Op>, url: string): Option<real> {
    if ops == [] then (if url in p.health then p.health[url].bannedUntil else None)
    else
      var op := ops[|ops| - 1];
      if op.Ban? && op.url == Some(url) then Some(op.until) else LastDeadline(p, ops[..|ops| - 1], url)
  }

  predicate Resting(deadline: Option<real>, now: real) {
    deadline.Some? && now < deadline.value
  }

  /** Takes happen in clock order, and none after `now`. */
  ghost predicate TakesUpTo(ops: seq<Op>, now: real) {
    ops != [] ==>
      var op := ops[|ops| - 1];
      if op.Take? then op.now <= now && TakesUpTo(ops[..|ops| - 1], op.now) else TakesUpTo(ops[..|ops| - 1], now)
  }

  lemma {:induction false} TakesUpToLater(ops: seq<Op>, now: real, later: real)
    requires TakesUpTo(ops, now) && now <= later
    ensures TakesUpTo(ops, later)
  {
    if ops != [] && !ops[|ops| - 1].Take? {
      TakesUpToLater(ops[..|ops| - 1], now, later);
    }
  }

  /** After any run, a proxy is quarantined exactly while the deadline of its last ban lies ahead: successes,
      takes and the other proxies' bans make no difference. */
  lemma {:induction false} QuarantineIsLastBan(p: Pool, ops: seq<Op>, url: string, now: real)
    requires ValidPool(p) && url in p.ordered && TakesUpTo(ops, now)
    ensures Quarantined(PoolAfter(p, ops).health[url], now) <==> Resting(LastDeadline(p, ops, url), now)
  {
    if ops != [] {
      var (before, op) := (ops[..|ops| - 1], ops[|ops| - 1]);
      if op.Take? {
        TakesUpToLater(before, op.now, now);
        QuarantineIsLastBan(p, before, url, op.now);
        QuarantineIsLastBan(p, before, url, now);
        OneTake(PoolAfter(p, before), op.now, url);
      } else {
        QuarantineIsLastBan(p, before, url, now);
      }
    }
  }

  /** A take touches no deadline but one that has passed. */
  lemma OneTake(p: Pool, now: real, url: string)
    requires ValidPool(p) && url in p.ordered
    ensures var h' := Acquire(p, now).0.health[url];
      h'.bannedUntil == p.health[url].bannedUntil || (h'.bannedUntil == None && !Quarantined(p.health[url], now))
  {
  }

  /** After any run, a take gives nothing exactly while every proxy rests from its last ban, and otherwise one
      that does not. */
  lemma TakeDecided(p: Pool, ops: seq<Op>, now: real)
    requires ValidPool(p) && TakesUpTo(ops, now)
    ensures var taken := Acquire(PoolAfter(p, ops), now).1;
      && (taken.None? <==> forall u :: u in p.ordered ==> Resting(LastDeadline(p, ops, u), now))
      && (taken.Some? ==> taken.value in p.ordered && !Resting(LastDeadline(p, ops, taken.value), now))
  {
    hide Acquire, PoolAfter, LastDeadline, TakesUpTo, Quarantined, Resting;
    AcquireSelects(PoolAfter(p, ops), now);
    forall u | u in p.ordered
      ensures Quarantined(PoolAfter(p, ops).health[u], now) <==> Resting(LastDeadline(p, ops, u), now)
    {
      QuarantineIsLastBan(p, ops, u, now);
    }
  }

  lemma TakesMoveNoDeadline(p: Pool, ops: seq<Op>, now: real, url: string)
    ensures LastDeadline(p, ops + [Take(now)], url) == LastDeadline(p, ops, url)
  {
    assert (ops + [Take(now)])[..|ops|] == ops;
  }

  lemma {:induction false} DeadlineStands(
    p: Pool, before: seq<Op>, url: string, until: real, after: seq<Op>)
    requires forall op :: op in after ==> !(op.Ban? && op.url == Some(url))
    ensures LastDeadline(p, before + [Ban(Some(url), until)] + after, url) == Some(until)
  {
    var ops := before + [Ban(Some(url), until)] + after;
    if after == [] {
      assert ops == before + [Ban(Some(url), until)];
    } else {
      assert ops[|ops| - 1] == after[|after| - 1] && after[|after| - 1] in after;
      assert ops[..|ops| - 1] == before + [Ban(Some(url), until)] + after[..|after| - 1];
      DeadlineStands(p, before, url, until, after[..|after| - 1]);
    }
  }

  /** Whatever happens after a ban, successes of its proxy and bans of others included, no take before its
      deadline gives that proxy, unless it is banned anew. */
  lemma BannedStaysOut(p: Pool, before: seq<Op>, url: string, until: real, after: seq<Op>, now: real)
    requires ValidPool(p) && url in p.ordered && now < until
    requires forall op :: op in after ==> !(op.Ban? && op.url == Some(url))
    requires TakesUpTo(before + [Ban(Some(url), until)] + after, now)
    ensures Acquire(PoolAfter(p, before + [Ban(Some(url), until)] + after), now).1 != Some(url)
  {
    DeadlineStands(p, before, url, until, after);
    TakeDecided(p, before + [Ban(Some(url), until)] + after, now);
  }

  // ----- A rotation does not come back to the banned proxy -----

  /** After a ban until `until`, the next take returns that proxy only once the cool-down is over, and
      then only if every proxy the scan meets before it is quarantined; when all others are
      quarantined it is returned exactly then. */
  lemma BannedProxyRests(p: Pool, url: string, until: real, now: real)
    requires ValidPool(p) && url in p.ordered
    ensures ValidPool(RecordBan(p, Some(url), until))
    ensures Acquire(RecordBan(p, Some(url), until), now).1 == Some(url) ==> now >= until
    ensures (forall u :: u in p.ordered && u != url ==> Quarantined(p.health[u], now)) ==>
      (Acquire(RecordBan(p, Some(url), until), now).1 == Some(url) <==> now >= until)
  {
    var p' := RecordBan(p, Some(url), until);
    AcquireSelects(p', now);
  }
}
