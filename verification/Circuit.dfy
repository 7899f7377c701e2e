/** The per-domain circuit breaker as a timed state machine on values. */
module Circuit {
  import opened Wrappers

  datatype CircuitState = Closed | Open | HalfOpen

  datatype CircuitPolicy = CircuitPolicy(failureThreshold: int, cooldownSeconds: real)

  datatype Snapshot = Snapshot(state: CircuitState, failures: nat, openedAt: Option<real>)

  /** The opening time is set exactly while the breaker is not closed; the source asserts one half. */
  predicate Sound(s: Snapshot) {
    s.openedAt.Some? <==> s.state != Closed
  }

  type Breaker = s: Snapshot | Sound(s) witness Snapshot(Closed, 0, None)

  const FRESH: Breaker := Snapshot(Closed, 0, None)

  function Allow(policy: CircuitPolicy, b: Breaker, now: real): (Breaker, bool) {
    if b.state == Open then
      if now - b.openedAt.value >= policy.cooldownSeconds then (b.(state := HalfOpen), true) else (b, false)
    else (b, true)
  }

  function RecordFailure(policy: CircuitPolicy, b: Breaker, now: real): Breaker {
    if b.state == HalfOpen || b.failures + 1 >= policy.failureThreshold
    then Snapshot(Open, 0, Some(now))
    else b.(failures := b.failures + 1)
  }

  /** A threshold below one trips on the first failure, as a threshold of one does. */
  function Limit(policy: CircuitPolicy): nat {
    if policy.failureThreshold < 1 then 1 else policy.failureThreshold
  }

  /** The first failure already trips a breaker with a threshold of one or less. */
  predicate TripsAtOnce(policy: CircuitPolicy) {
    policy.failureThreshold <= 1
  }

  /** How many failures from here on it takes to trip an admitting breaker. */
  function Spare(policy: CircuitPolicy, b: Breaker): (n: nat)
    ensures n >= 1
  {
    if b.state == Closed && b.failures < Limit(policy) then Limit(policy) - b.failures else 1
  }

  // ----- What the breaker remembers of its history -----

  datatype Event = Asked(at: real) | Succeeded | Failed(at: real)

  function Apply(policy: CircuitPolicy, b: Breaker, e: Event): Breaker {
    match e
    case Asked(at) => Allow(policy, b, at).0
    case Succeeded => FRESH
    case Failed(at) => RecordFailure(policy, b, at)
  }

  /** The breaker after any sequence of calls, late responses of other requests included. */
  function Replay(policy: CircuitPolicy, trace: seq<Event>): Breaker {
    if trace == [] then FRESH
    else Apply(policy, Replay(policy, trace[..|trace| - 1]), trace[|trace| - 1])
  }

  function FailuresSinceSuccess(trace: seq<Event>): nat {
    if trace == [] then 0
    else match trace[|trace| - 1]
         case Succeeded => 0
         case Failed(_) => FailuresSinceSuccess(trace[..|trace| - 1]) + 1
         case Asked(_) => FailuresSinceSuccess(trace[..|trace| - 1])
  }

  function FailuresFrom(trace: seq<Event>, from: nat): nat {
    if |trace| <= from then 0
    else FailuresFrom(trace[..|trace| - 1], from) + (if trace[|trace| - 1].Failed? then 1 else 0)
  }

  /** Some call from position `from` on came at least a cool-down after `since`. */
  predicate ProbedFrom(policy: CircuitPolicy, trace: seq<Event>, from: nat, since: real) {
    && |trace| > from
    && var last := trace[|trace| - 1];
      || (last.Asked? && last.at - since >= policy.cooldownSeconds)
      || ProbedFrom(policy, trace[..|trace| - 1], from, since)
  }

  /** Position i is a trip: a failure that is the limit-th one since the last success or trip before it,
      or that follows a call past the cool-down of the trip before it. */
  predicate IsTrip(policy: CircuitPolicy, trace: seq<Event>, i: nat)
    decreases i, 1
  {
    && i < |trace| && trace[i].Failed?
    && var r := LastReset(policy, trace[..i]);
      || FailuresFrom(trace[..i + 1], r + 1) >= Limit(policy)
      || (r >= 0 && trace[r].Failed? && ProbedFrom(policy, trace[..i], r + 1, trace[r].at))
  }

  /** The position of the last success or trip; -1 if there is none. */
  function LastReset(policy: CircuitPolicy, trace: seq<Event>): (r: int)
    ensures -1 <= r < |trace|
    ensures r >= 0 ==> !trace[r].Asked?
    decreases |trace|, 0
  {
    if trace == [] then -1
    else
      var n := |trace| - 1;
      if trace[n].Succeeded? || IsTrip(policy, trace, n) then n else LastReset(policy, trace[..n])
  }

  /** Event i explains a breaker that is not closed: it is the last trip, at the opening time, with no
      success after it; the count restarts after it, and half-open means that a later call came after the
      cool-down. */
  ghost predicate Explains(policy: CircuitPolicy, trace: seq<Event>, i: nat, b: Breaker) {
    && i == LastReset(policy, trace)
    && IsTrip(policy, trace, i)
    && b.openedAt == Some(trace[i].at)
    && b.failures == FailuresFrom(trace, i + 1)
    && (b.state == HalfOpen <==> ProbedFrom(policy, trace, i + 1, trace[i].at))
  }

  /** State, count and opening time as the history has them: closed while fewer failures than the limit
      came since the last success, with exactly that count; otherwise as the last trip explains. */
  ghost predicate Matches(policy: CircuitPolicy, trace: seq<Event>, b: Breaker) {
    if b.state == Closed
    then FailuresSinceSuccess(trace) < Limit(policy) && b.failures == FailuresSinceSuccess(trace)
    else exists i: nat :: Explains(policy, trace, i, b)
  }

  /** The history determines the breaker: of all breakers, exactly the one the calls lead to matches it,
      and its count stays below the limit. */
  lemma HistoryDecides(policy: CircuitPolicy, trace: seq<Event>, b: Breaker)
    ensures Matches(policy, trace, b) <==> b == Replay(policy, trace)
    ensures Replay(policy, trace).failures < Limit(policy)
    ensures Replay(policy, trace).state == Closed <==> FailuresSinceSuccess(trace) < Limit(policy)
  {
    ReplayFromReset(policy, trace);
    var r := LastReset(policy, trace);
    if Replay(policy, trace).state != Closed {
      assert Explains(policy, trace, r, Replay(policy, trace));
    }
  }

  /** The replay, told from the last reset. */
  ghost predicate FromReset(policy: CircuitPolicy, trace: seq<Event>, b: Breaker) {
    var r := LastReset(policy, trace);
    && b.failures == FailuresFrom(trace, r + 1) < Limit(policy)
    && (b.state != Closed <==> r >= 0 && trace[r].Failed?)
    && (b.state != Closed ==>
          && IsTrip(policy, trace, r)
          && b.openedAt == Some(trace[r].at)
          && (b.state == HalfOpen <==> ProbedFrom(policy, trace, r + 1, trace[r].at)))
    && (if b.state == Closed then FailuresSinceSuccess(trace) == FailuresFrom(trace, r + 1)
        else FailuresSinceSuccess(trace) >= Limit(policy))
  }

  lemma {:induction false} ReplayFromReset(policy: CircuitPolicy, trace: seq<Event>)
    ensures FromReset(policy, trace, Replay(policy, trace))
  {
    if trace != [] {
      var n := |trace| - 1;
      var before, last := trace[..n], trace[n];
      ReplayFromReset(policy, before);
      var r := LastReset(policy, before);
      assert trace[..n + 1] == trace;
      assert r >= 0 ==> trace[r] == before[r];
      if r >= 0 && trace[r].Failed? {
        SameTrip(policy, trace, r);
      }
    }
  }

  /** Whether a position is a trip does not depend on what comes later. */
  lemma SameTrip(policy: CircuitPolicy, trace: seq<Event>, i: nat)
    requires i < |trace| - 1
    ensures IsTrip(policy, trace, i) == IsTrip(policy, trace[..|trace| - 1], i)
  {
    var before := trace[..|trace| - 1];
    assert before[..i] == trace[..i] && before[..i + 1] == trace[..i + 1];
  }

  // ----- A tripped breaker rests -----

  /** Clock readings never go backwards along the trace. */
  ghost predicate Monotone(trace: seq<Event>) {
    forall i, j :: 0 <= i < j < |trace| && !trace[i].Succeeded? && !trace[j].Succeeded? ==> trace[i].at <= trace[j].at
  }

  /** After a trip at t, with no success since, nothing is admitted before t plus the cool-down,
      whatever was recorded in between. */
  lemma CoolingOff(policy: CircuitPolicy, trace: seq<Event>, i: nat, k: nat)
    requires Monotone(trace)
    requires i <= k < |trace| && trace[k].Asked?
    requires Replay(policy, trace[..i]).state == Open
    requires forall j :: i <= j < k ==> !trace[j].Succeeded?
    requires trace[k].at - Replay(policy, trace[..i]).openedAt.value < policy.cooldownSeconds
    ensures !Allow(policy, Replay(policy, trace[..k]), trace[k].at).1
  {
    StaysOpen(policy, trace, i, k, trace[k].at);
  }

  lemma {:induction false} StaysOpen(policy: CircuitPolicy, trace: seq<Event>, i: nat, k: nat, until: real)
    requires Monotone(trace)
    requires i <= k <= |trace|
    requires Replay(policy, trace[..i]).state == Open
    requires forall j :: i <= j < k ==> !trace[j].Succeeded? && trace[j].at <= until
    requires until - Replay(policy, trace[..i]).openedAt.value < policy.cooldownSeconds
    ensures var b := Replay(policy, trace[..k]);
      b.state == Open && b.openedAt.value >= Replay(policy, trace[..i]).openedAt.value
    decreases k
  {
    if i < k {
      StaysOpen(policy, trace, i, k - 1, until);
      assert trace[..k][..k - 1] == trace[..k - 1];
      var b := Replay(policy, trace[..k - 1]);
      ReplayFromReset(policy, trace[..k - 1]);
      var e := LastReset(policy, trace[..k - 1]);
      assert trace[e] == trace[..k - 1][e];
      assert trace[e].at <= trace[k - 1].at;
    }
  }

  // ----- How many requests a blocking domain sees -----

  /** One request: when it asked for admission and, if admitted, when its failure was recorded. */
  datatype Probe = Probe(askedAt: real, failedAt: real)

  /** Every outcome is recorded before the next request asks. */
  ghost predicate Serial(probes: seq<Probe>) {
    && (forall i :: 0 <= i < |probes| ==> probes[i].askedAt <= probes[i].failedAt)
    && (forall i, j :: 0 <= i < j < |probes| ==> probes[i].failedAt <= probes[j].askedAt)
  }

  /** The times at which requests are let through when every admitted one fails. */
  function Admissions(policy: CircuitPolicy, b: Breaker, probes: seq<Probe>): seq<real>
    decreases |probes|
  {
    if probes == [] then []
    else
      var (b', ok) := Allow(policy, b, probes[0].askedAt);
      if ok
      then [probes[0].askedAt] + Admissions(policy, RecordFailure(policy, b', probes[0].failedAt), probes[1..])
      else Admissions(policy, b', probes[1..])
  }

  function Spaced(step: real, n: nat): real {
    if n == 0 then 0.0 else Spaced(step, n - 1) + step
  }

  lemma {:induction false} SpacedIsProduct(step: real, n: nat)
    ensures Spaced(step, n) == (n as real) * step
  {
    if n != 0 {
      SpacedIsProduct(step, n - 1);
      assert (n as real) == ((n - 1) as real) + 1.0;
    }
  }

  /** The first admissions still allowed by a closed breaker are free; each later one waits a whole
      cool-down after the one before it. */
  lemma {:induction false} AdmissionSpacing(policy: CircuitPolicy, b: Breaker, probes: seq<Probe>, k: nat)
    requires policy.cooldownSeconds > 0.0
    requires Serial(probes)
    requires b.state != HalfOpen
    requires b.state == Closed ==> b.failures < Limit(policy)
    requires b.state == Open ==> probes != [] ==> b.openedAt.value <= probes[0].askedAt
    requires k < |Admissions(policy, b, probes)|
    ensures b.state == Open ==>
      Admissions(policy, b, probes)[k] >= b.openedAt.value + Spaced(policy.cooldownSeconds, k + 1)
    ensures b.state == Closed ==>
      var times, free := Admissions(policy, b, probes), Limit(policy) - b.failures;
      times[k] >= times[0] + Spaced(policy.cooldownSeconds, if k < free then 0 else k - free + 1)
    decreases |probes|
  {
    var head, rest := probes[0], probes[1..];
    var (b', ok) := Allow(policy, b, head.askedAt);
    var next := if ok then RecordFailure(policy, b', head.failedAt) else b';
    assert rest != [] ==> head.failedAt <= rest[0].askedAt by {
      if rest != [] { assert rest[0] == probes[1]; }
    }
    assert Serial(rest);
    if ok {
      if k > 0 {
        AdmissionSpacing(policy, next, rest, k - 1);
        AdmissionsAfter(policy, next, rest);
      }
    } else {
      AdmissionSpacing(policy, next, rest, k);
    }
  }

  /** An admission comes from one of the requests, so none is earlier than the first of them. */
  lemma {:induction false} AdmissionsAfter(policy: CircuitPolicy, b: Breaker, probes: seq<Probe>)
    requires Serial(probes)
    ensures forall k :: 0 <= k < |Admissions(policy, b, probes)| ==>
              Admissions(policy, b, probes)[k] >= probes[0].askedAt
    decreases |probes|
  {
    if probes != [] {
      var (b', ok) := Allow(policy, b, probes[0].askedAt);
      AdmissionsAfter(policy, if ok then RecordFailure(policy, b', probes[0].failedAt) else b', probes[1..]);
    }
  }

  /** A domain that only ever blocks sees at most threshold + floor(T / cool-down) requests within T
      seconds of the first one: the k-th admission (counting from 0) falls within T only if k + 1 is
      within that budget. */
  lemma NoHammering(policy: CircuitPolicy, probes: seq<Probe>, k: nat, T: real)
    requires policy.cooldownSeconds > 0.0 && T >= 0.0
    requires Serial(probes)
    requires k < |Admissions(policy, FRESH, probes)|
    requires Admissions(policy, FRESH, probes)[k] <= Admissions(policy, FRESH, probes)[0] + T
    ensures k + 1 <= Limit(policy) + (T / policy.cooldownSeconds).Floor
  {
    AdmissionSpacing(policy, FRESH, probes, k);
    var c, free := policy.cooldownSeconds, Limit(policy);
    if k >= free {
      var m := k - free + 1;
      SpacedIsProduct(c, m);
      FloorBound(m, c, T);
    } else {
      FloorBound(0, c, T);
    }
  }

  lemma FloorBound(m: nat, c: real, T: real)
    requires c > 0.0 && (m as real) * c <= T
    ensures m <= (T / c).Floor
  {
    assert m as real <= T / c;
  }

  // ----- Half-open admits everyone who asks -----

  function AdmittedOf(policy: CircuitPolicy, b: Breaker, asks: seq<real>): nat
    decreases |asks|
  {
    if asks == [] then 0
    else var (b', ok) := Allow(policy, b, asks[0]);
         (if ok then 1 else 0) + AdmittedOf(policy, b', asks[1..])
  }

  function AskedSince(asks: seq<real>, from: real): nat {
    if asks == [] then 0 else (if asks[0] >= from then 1 else 0) + AskedSince(asks[1..], from)
  }

  /** While no outcome is recorded, an open breaker admits exactly the requests that ask once the
      cool-down is over: a single probe exactly when a single request asks by then. */
  lemma {:induction false} ProbesAdmitted(policy: CircuitPolicy, b: Breaker, asks: seq<real>)
    requires b.state != Closed
    requires forall i, j :: 0 <= i < j < |asks| ==> asks[i] <= asks[j]
    requires b.state == HalfOpen ==>
      forall i :: 0 <= i < |asks| ==> asks[i] >= b.openedAt.value + policy.cooldownSeconds
    ensures AdmittedOf(policy, b, asks) == AskedSince(asks, b.openedAt.value + policy.cooldownSeconds)
    decreases |asks|
  {
    if asks != [] {
      ProbesAdmitted(policy, Allow(policy, b, asks[0]).0, asks[1..]);
    }
  }

  /** Two requests asking after the cool-down are both let through: the promised single probe is not
      what the code does. */
  lemma TwoProbes()
    ensures AdmittedOf(CircuitPolicy(5, 60.0), Snapshot(Open, 0, Some(0.0)), [60.0, 61.0]) == 2
  {
    ProbesAdmitted(CircuitPolicy(5, 60.0), Snapshot(Open, 0, Some(0.0)), [60.0, 61.0]);
    assert [60.0, 61.0][1..] == [61.0];
    assert [61.0][1..] == [];
  }
}
