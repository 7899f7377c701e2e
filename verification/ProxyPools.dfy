/** The proxy pool object: tallies, quarantine deadlines and the cursor change in place. */
module ProxyPools {
  import opened Wrappers
  import opened Proxies

  /** The characters that Python's `str.strip` removes. */
  predicate Blank(c: char) {
    || '\t' <= c <= '\r' || '\U{1C}' <= c <= ' ' || c == '\U{85}' || c == '\U{A0}' || c == '\U{1680}'
    || '\U{2000}' <= c <= '\U{200A}' || c == '\U{2028}' || c == '\U{2029}' || c == '\U{202F}' || c == '\U{205F}'
    || c == '\U{3000}'
  }

  const BLANK_CODES: set<int> := {
    9, 10, 11, 12, 13, 28, 29, 30, 31, 32, 133, 160, 5760, 8192, 8193, 8194, 8195, 8196, 8197, 8198, 8199, 8200, 8201,
    8202, 8232, 8233, 8239, 8287, 12288}

  lemma BlankCodes(c: char)
    ensures Blank(c) <==> c as int in BLANK_CODES
  {
  }

  function StripLeft(s: string): string {
    if s != [] && Blank(s[0]) then StripLeft(s[1..]) else s
  }

  function StripRight(s: string): string {
    if s != [] && Blank(s[|s| - 1]) then StripRight(s[..|s| - 1]) else s
  }

  function Strip(s: string): string {
    StripRight(StripLeft(s))
  }

  /** `t` is what is left of s from position i on: only blanks around it, and none at its own ends. */
  ghost predicate Trims(s: string, i: nat, t: string) {
    && i + |t| <= |s| && s[i..i + |t|] == t
    && (forall k :: 0 <= k < |s| && !(i <= k < i + |t|) ==> Blank(s[k]))
    && (t != "" ==> !Blank(s[i]) && !Blank(s[i + |t| - 1]))
  }

  lemma {:induction false} LeftTrims(s: string) returns (i: nat)
    ensures i <= |s| && StripLeft(s) == s[i..] && forall k :: 0 <= k < i ==> Blank(s[k])
    ensures i < |s| ==> !Blank(s[i])
  {
    i := 0;
    if s != [] && Blank(s[0]) {
      i := LeftTrims(s[1..]);
      assert s[1..][i..] == s[i + 1..];
      forall k | 0 <= k < i + 1 ensures Blank(s[k]) {
        if k > 0 { assert s[k] == s[1..][k - 1]; }
      }
      i := i + 1;
    }
  }

  lemma {:induction false} RightTrims(s: string)
    ensures var r := StripRight(s);
      && |r| <= |s| && s[..|r|] == r && (forall k :: |r| <= k < |s| ==> Blank(s[k]))
      && (r != "" ==> !Blank(s[|r| - 1]))
  {
    if s != [] && Blank(s[|s| - 1]) {
      var n := |s| - 1;
      RightTrims(s[..n]);
      assert forall k :: 0 <= k < n ==> s[k] == s[..n][k];
    }
  }

  /** Stripping takes away exactly the blanks around. */
  lemma StripTrims(s: string) returns (i: nat)
    ensures Trims(s, i, Strip(s))
  {
    hide Blank, StripLeft, StripRight;
    i := LeftTrims(s);
    var left := s[i..];
    RightTrims(left);
    var t := Strip(s);
    assert s[i..i + |t|] == left[..|t|];
    forall k | 0 <= k < |s| && !(i <= k < i + |t|) ensures Blank(s[k]) {
      if k >= i { assert s[k] == left[k - i]; }
    }
    if t != "" {
      assert left[|t| - 1] == s[i + |t| - 1];
    }
  }

  /** ... and only one string can be left. */
  lemma TrimmedOnce(s: string, i: nat, t: string, i': nat, t': string)
    requires Trims(s, i, t) && Trims(s, i', t')
    ensures t == t'
  {
    hide Blank;
  }

  /** The configured URLs, stripped, without blanks and without repeats, in order of first appearance. */
  function Cleaned(urls: seq<string>): seq<string> {
    if urls == [] then []
    else
      var done, url := Cleaned(urls[..|urls| - 1]), Strip(urls[|urls| - 1]);
      if url == "" || url in done then done else done + [url]
  }

  /** Where a stripped URL first appears in the configuration; its length if nowhere. */
  function FirstIndex(urls: seq<string>, url: string): (i: nat)
    ensures i <= |urls|
  {
    if urls == [] then 0
    else
      var i := FirstIndex(urls[..|urls| - 1], url);
      if i < |urls| - 1 || Strip(urls[|urls| - 1]) == url then i else |urls|
  }

  /** The pool keeps the order of first appearance. */
  lemma {:induction false} CleanedInOrder(urls: seq<string>)
    ensures forall u :: u in Cleaned(urls) ==> FirstIndex(urls, u) < |urls|
    ensures forall u :: u != "" && FirstIndex(urls, u) < |urls| ==> u in Cleaned(urls)
    ensures forall i, j :: 0 <= i < j < |Cleaned(urls)| ==>
              FirstIndex(urls, Cleaned(urls)[i]) < FirstIndex(urls, Cleaned(urls)[j])
  {
    if urls != [] {
      var n := |urls| - 1;
      var before := urls[..n];
      CleanedInOrder(before);
      forall u | u in Cleaned(before) ensures FirstIndex(urls, u) == FirstIndex(before, u) {
      }
    }
  }

  lemma {:induction false} CleanedIsDistinct(urls: seq<string>)
    ensures forall i, j :: 0 <= i < j < |Cleaned(urls)| ==> Cleaned(urls)[i] != Cleaned(urls)[j]
    ensures forall i :: 0 <= i < |urls| ==> Strip(urls[i]) == "" || Strip(urls[i]) in Cleaned(urls)
    ensures forall u :: u in Cleaned(urls) ==> u != "" && exists i :: 0 <= i < |urls| && u == Strip(urls[i])
  {
    if urls != [] {
      var n := |urls| - 1;
      var before := urls[..n];
      CleanedIsDistinct(before);
      forall i | 0 <= i < |urls| ensures Strip(urls[i]) == "" || Strip(urls[i]) in Cleaned(urls) {
        if i < n { assert before[i] == urls[i]; }
      }
      forall u | u in Cleaned(urls) ensures u != "" && exists i :: 0 <= i < |urls| && u == Strip(urls[i]) {
        if u in Cleaned(before) {
          var i :| 0 <= i < n && u == Strip(before[i]);
          assert urls[i] == before[i];
        } else {
          assert u == Strip(urls[n]);
        }
      }
    }
  }

  /** One step of the scan decides it or leaves the rest of the scan to decide. */
  lemma ScanGoesOn(p: Pool, offset: nat, now: real)
    requires ValidPool(p) && offset < |p.ordered| && FirstFree(p, 0, now) == FirstFree(p, offset, now)
    ensures if Quarantined(p.health[At(p, offset)], now) then FirstFree(p, 0, now) == FirstFree(p, offset + 1, now)
            else Acquire(p, now) ==
                 (HandOut(p, At(p, offset), Wrap(p.cursor + offset + 1, |p.ordered|)), Some(At(p, offset)))
  {
  }

  lemma ScanFindsNone(p: Pool, now: real)
    requires ValidPool(p) && FirstFree(p, 0, now) == FirstFree(p, |p.ordered|, now)
    ensures Acquire(p, now) == (p, None)
  {
  }

  class ProxyPool {
    const ordered: seq<string>
    const cooldownSeconds: real
    var health: map<string, Health>
    var cursor: nat

    function View(): Pool
      reads this
    {
      Pool(ordered, health, cursor)
    }

    ghost predicate Valid()
      reads this
    {
      ValidPool(View())
    }

    constructor (urls: seq<string>, cooldownSeconds: real)
      ensures Valid()
      ensures this.cooldownSeconds == cooldownSeconds
      ensures ordered == Cleaned(urls) && cursor == 0 && forall u :: u in health <==> u in ordered
      ensures forall u <- health :: health[u] == UNTRIED
    {
      var seen: seq<string> := [];
      for i := 0 to |urls|
        invariant seen == Cleaned(urls[..i])
      {
        assert urls[..i + 1][..i] == urls[..i];
        var cleaned := Strip(urls[i]);
        if cleaned != "" && cleaned !in seen {
          seen := seen + [cleaned];
        }
      }
      assert urls[..|urls|] == urls;
      CleanedIsDistinct(urls);
      this.ordered := seen;
      this.cooldownSeconds := cooldownSeconds;
      health := map u | u in seen :: UNTRIED;
      cursor := 0;
    }

    /** Whether `url` may be handed out now; an elapsed ban is forgotten on the way. */
    method IsHealthy(url: string, now: real) returns (healthy: bool)
      requires url in health
      modifies this`health
      ensures healthy <==> !Quarantined(old(health)[url], now)
      ensures health == if healthy then old(health)[url := old(health)[url].(bannedUntil := None)] else old(health)
    {
      var bannedUntil := health[url].bannedUntil;
      if bannedUntil == None {
        assert health[url] == health[url].(bannedUntil := None);
        return true;
      }
      if now >= bannedUntil.value {
        health := health[url := health[url].(bannedUntil := None)];
        return true;
      }
      return false;
    }

    /** The cyclic scan: the first proxy in turn that is not quarantined is handed out. */
    method Acquire(now: real) returns (url: Option<string>)
      requires Valid()
      modifies this
      ensures Valid() && (View(), url) == Proxies.Acquire(old(View()), now)
    {
      hide FirstFree, Proxies.Acquire;
      if ordered == [] {
        ScanFindsNone(View(), now);
        return None;
      }
      var n := |ordered|;
      for offset := 0 to n
        invariant View() == old(View())
        invariant FirstFree(View(), 0, now) == FirstFree(View(), offset, now)
      {
        WrapIsModulo(cursor + offset, n);
        WrapIsModulo(cursor + offset + 1, n);
        ScanGoesOn(View(), offset, now);
        var candidate := ordered[(cursor + offset) % n];
        assert candidate in ordered && candidate == At(View(), offset);
        var healthy := IsHealthy(candidate, now);
        if healthy {
          cursor := (cursor + offset + 1) % n;
          return Some(candidate);
        }
      }
      ScanFindsNone(View(), now);
      return None;
    }

    method RecordSuccess(url: Option<string>)
      requires Valid()
      modifies this
      ensures Valid() && View() == Proxies.RecordSuccess(old(View()), url)
    {
      if url.Some? && url.value in health {
        var h := health[url.value];
        health := health[url.value := h.(successes := h.successes + 1)];
      }
    }

    method RecordBan(url: Option<string>, now: real)
      requires Valid()
      modifies this
      ensures Valid() && View() == Proxies.RecordBan(old(View()), url, now + cooldownSeconds)
    {
      if url.Some? && url.value in health {
        var h := health[url.value];
        health := health[url.value := h.(failures := h.failures + 1, bannedUntil := Some(now + cooldownSeconds))];
      }
    }
  }
}
