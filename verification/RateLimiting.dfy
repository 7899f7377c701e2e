/** The sliding-window limiter of the admin endpoint: a queue of accepted call times. */
module RateLimiting {

  datatype Limit = Limit(maxCalls: int, perSeconds: real)

  function Expire(l: Limit, calls: seq<real>, now: real): seq<real> {
    if calls != [] && now - calls[0] >= l.perSeconds then Expire(l, calls[1..], now) else calls
  }

  class RateLimiter {
    const limit: Limit
    var calls: seq<real>

    constructor (limit: Limit)
      ensures this.limit == limit && calls == []
    {
      this.limit := limit;
      calls := [];
    }

    method Allow(now: real) returns (ok: bool)
      modifies this
      ensures ok <==> |Expire(limit, old(calls), now)| < limit.maxCalls
      ensures calls == Expire(limit, old(calls), now) + (if ok then [now] else [])
    {
      while calls != [] && now - calls[0] >= limit.perSeconds
        invariant Expire(limit, calls, now) == Expire(limit, old(calls), now)
        decreases |calls|
      {
        calls := calls[1..];
      }
      if |calls| >= limit.maxCalls {
        return false;
      }
      calls := calls + [now];
      return true;
    }
  }

  // ----- Any sequence of calls -----

  /** The limiter's queue, and the full history of accepted calls that it does not keep. */
  datatype Book = Book(calls: seq<real>, accepted: seq<real>)

  function Call(l: Limit, b: Book, now: real): Book {
    var kept := Expire(l, b.calls, now);
    if |kept| < l.maxCalls then Book(kept + [now], b.accepted + [now]) else Book(kept, b.accepted)
  }

  function After(l: Limit, asks: seq<real>): Book {
    if asks == [] then Book([], []) else Call(l, After(l, asks[..|asks| - 1]), asks[|asks| - 1])
  }

  ghost predicate Sorted(s: seq<real>) {
    forall i, j :: 0 <= i < j < |s| ==> s[i] <= s[j]
  }

  /** The calls less than one window old, in order. */
  function Younger(l: Limit, s: seq<real>, now: real): seq<real> {
    if s == [] then [] else (if now - s[0] < l.perSeconds then [s[0]] else []) + Younger(l, s[1..], now)
  }

  lemma {:induction false} YoungerAppend(l: Limit, s: seq<real>, x: real, now: real)
    ensures Younger(l, s + [x], now) == Younger(l, s, now) + (if now - x < l.perSeconds then [x] else [])
  {
    if s == [] {
      assert s + [x] == [x];
      assert [x][1..] == [];
    } else {
      assert (s + [x])[1..] == s[1..] + [x];
      YoungerAppend(l, s[1..], x, now);
    }
  }

  lemma {:induction false} AllYounger(l: Limit, s: seq<real>, now: real)
    requires forall i :: 0 <= i < |s| ==> now - s[i] < l.perSeconds
    ensures Younger(l, s, now) == s
  {
    if s != [] {
      AllYounger(l, s[1..], now);
    }
  }

  /** On a sorted queue, popping from the front until a young call is met keeps exactly the young ones. */
  lemma {:induction false} ExpireKeepsYounger(l: Limit, s: seq<real>, now: real)
    requires Sorted(s)
    ensures Expire(l, s, now) == Younger(l, s, now)
    ensures Sorted(Expire(l, s, now)) && forall t: real :: AtMost(s, t) ==> AtMost(Expire(l, s, now), t)
  {
    if s != [] {
      if now - s[0] >= l.perSeconds {
        ExpireKeepsYounger(l, s[1..], now);
        assert forall t: real :: AtMost(s, t) ==> AtMost(s[1..], t);
      } else {
        AllYounger(l, s, now);
      }
    }
  }

  ghost predicate AtMost(s: seq<real>, t: real) {
    forall i :: 0 <= i < |s| ==> s[i] <= t
  }

  lemma {:induction false} YoungerTwice(l: Limit, s: seq<real>, now: real, later: real)
    requires now <= later
    ensures Younger(l, Younger(l, s, now), later) == Younger(l, s, later)
  {
    if s != [] {
      YoungerTwice(l, s[1..], now, later);
      if now - s[0] < l.perSeconds {
        assert Younger(l, s, now)[1..] == Younger(l, s[1..], now);
      } else {
        assert Younger(l, s, now) == Younger(l, s[1..], now);
        assert Younger(l, s, later) == Younger(l, s[1..], later);
      }
    }
  }

  /** From `now` on, the queue is as good as the full history. */
  ghost predicate Faithful(l: Limit, b: Book, now: real) {
    && Sorted(b.calls) && AtMost(b.calls, now)
    && forall t :: t >= now ==> Younger(l, b.calls, t) == Younger(l, b.accepted, t)
  }

  lemma {:induction false} QueueIsFaithful(l: Limit, asks: seq<real>, now: real)
    requires Sorted(asks) && (asks != [] ==> asks[|asks| - 1] <= now)
    ensures Faithful(l, After(l, asks), now)
  {
    if asks != [] {
      var n := |asks| - 1;
      var last, b := asks[n], After(l, asks[..n]);
      QueueIsFaithful(l, asks[..n], last);
      CallKeepsFaithful(l, b, last, now);
    }
  }

  lemma CallKeepsYounger(l: Limit, b: Book, last: real, t: real)
    requires Sorted(b.calls) && last <= t && Younger(l, b.calls, t) == Younger(l, b.accepted, t)
    ensures Younger(l, Call(l, b, last).calls, t) == Younger(l, Call(l, b, last).accepted, t)
  {
    ExpireKeepsYounger(l, b.calls, last);
    YoungerTwice(l, b.calls, last, t);
    YoungerAppend(l, Expire(l, b.calls, last), last, t);
    YoungerAppend(l, b.accepted, last, t);
  }

  lemma CallKeepsFaithful(l: Limit, b: Book, last: real, now: real)
    requires Faithful(l, b, last) && last <= now
    ensures Faithful(l, Call(l, b, last), now)
  {
    hide Younger;
    ExpireKeepsYounger(l, b.calls, last);
    forall t | t >= now ensures Younger(l, Call(l, b, last).calls, t) == Younger(l, Call(l, b, last).accepted, t) {
      CallKeepsYounger(l, b, last, t);
    }
  }

  /** With a clock that never goes back and a positive window, the queue at a call is exactly the accepted
      calls younger than the window, in order; and a call is refused exactly when that many were already
      accepted in the window that ends with it. */
  lemma WindowExact(l: Limit, asks: seq<real>)
    requires Sorted(asks) && asks != []
    ensures var (now, before, after) := (asks[|asks| - 1], After(l, asks[..|asks| - 1]), After(l, asks));
      && (after.accepted == before.accepted + [now] <==> |Younger(l, before.accepted, now)| < l.maxCalls)
      && (after.accepted == before.accepted <==> |Younger(l, before.accepted, now)| >= l.maxCalls)
      && (l.perSeconds > 0.0 ==> after.calls == Younger(l, after.accepted, now))
  {
    var n := |asks| - 1;
    var now, before := asks[n], After(l, asks[..n]);
    QueueIsFaithful(l, asks[..n], now);
    ExpireKeepsYounger(l, before.calls, now);
    YoungerAppend(l, before.accepted, now, now);
    assert |before.accepted + [now]| != |before.accepted|;
  }

  /** Accepted calls in the half-open window from t on. */
  function InWindow(l: Limit, s: seq<real>, t: real): nat {
    if s == [] then 0
    else InWindow(l, s[..|s| - 1], t) + (if t <= s[|s| - 1] < t + l.perSeconds then 1 else 0)
  }

  lemma {:induction false} WindowIsYounger(l: Limit, s: seq<real>, t: real, now: real)
    requires now < t + l.perSeconds
    ensures InWindow(l, s, t) <= |Younger(l, s, now)|
  {
    if s != [] {
      var n := |s| - 1;
      WindowIsYounger(l, s[..n], t, now);
      YoungerAppend(l, s[..n], s[n], now);
      assert s == s[..n] + [s[n]];
    }
  }

  /** No half-open window of that length, wherever it starts, holds more than max accepted calls. */
  lemma {:induction false} NoWindowOverfull(l: Limit, asks: seq<real>, t: real)
    requires Sorted(asks)
    ensures InWindow(l, After(l, asks).accepted, t) <= if l.maxCalls < 0 then 0 else l.maxCalls
  {
    if asks != [] {
      var n := |asks| - 1;
      var now, before, after := asks[n], After(l, asks[..n]), After(l, asks);
      NoWindowOverfull(l, asks[..n], t);
      WindowExact(l, asks);
      if after.accepted == before.accepted + [now] {
        assert after.accepted[..|after.accepted| - 1] == before.accepted;
        if now < t + l.perSeconds {
          WindowIsYounger(l, before.accepted, t, now);
        }
      }
    }
  }
}
