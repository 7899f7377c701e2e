/** Browser identities: a profile bound to a rotation generation, keyed for its own cookie jar. */
module Identities {
  import opened Division

  datatype BrowserProfile = BrowserProfile(name: string, userAgent: string, headers: map<string, string>)

  datatype Identity = Identity(key: string, profile: BrowserProfile)

  // ----- The catalogue -----

  const CHROMIUM_HINTS := map[
    "Accept-Language" := "en-US,en;q=0.9",
    "sec-ch-ua" := "\"Chromium\";v=\"125\", \"Google Chrome\";v=\"125\", \"Not.A/Brand\";v=\"24\"",
    "sec-ch-ua-mobile" := "?0"]

  /** The built-in profiles; only Chromium sends client hints. */
  const CHROME_WIN := BrowserProfile("chrome-win",
    "Mozilla/5.0 (Windows NT 10.0; Win64; x64) AppleWebKit/537.36 (KHTML, like Gecko) Chrome/125.0.0.0 Safari/537.36",
    CHROMIUM_HINTS["sec-ch-ua-platform" := "\"Windows\""])

  const CHROME_MAC := BrowserProfile("chrome-mac",
    "Mozilla/5.0 (Macintosh; Intel Mac OS X 10_15_7) AppleWebKit/537.36 (KHTML, like Gecko) "
    + "Chrome/125.0.0.0 Safari/537.36",
    CHROMIUM_HINTS["sec-ch-ua-platform" := "\"macOS\""])

  const FIREFOX_WIN := BrowserProfile("firefox-win",
    "Mozilla/5.0 (Windows NT 10.0; Win64; x64; rv:126.0) Gecko/20100101 Firefox/126.0",
    map["Accept-Language" := "en-US,en;q=0.5"])

  const FIREFOX_LINUX := BrowserProfile("firefox-linux",
    "Mozilla/5.0 (X11; Ubuntu; Linux x86_64; rv:126.0) Gecko/20100101 Firefox/126.0",
    map["Accept-Language" := "en-US,en;q=0.5"])

  const SAFARI_MAC := BrowserProfile("safari-mac",
    "Mozilla/5.0 (Macintosh; Intel Mac OS X 10_15_7) AppleWebKit/605.1.15 (KHTML, like Gecko) "
    + "Version/17.4 Safari/605.1.15",
    map["Accept-Language" := "en-US,en;q=0.9"])

  const CATALOGUE: seq<BrowserProfile> := [CHROME_WIN, CHROME_MAC, FIREFOX_WIN, FIREFOX_LINUX, SAFARI_MAC]

  /** No two built-in profiles share a User-Agent, so a rotation always presents a new one. */
  lemma AgentsDiffer()
    ensures forall i, j :: 0 <= i < j < |CATALOGUE| ==> CATALOGUE[i].userAgent != CATALOGUE[j].userAgent
    ensures forall p :: p in CATALOGUE ==> |p.userAgent| >= 78
  {
    assert |CHROME_WIN.userAgent| == 111 && |CHROME_MAC.userAgent| == 117 && |FIREFOX_WIN.userAgent| == 80;
    assert |FIREFOX_LINUX.userAgent| == 78 && |SAFARI_MAC.userAgent| == 117;
    assert CHROME_MAC.userAgent[61] == '3' && SAFARI_MAC.userAgent[61] == '0';
  }

  lemma HintsOfChrome()
    ensures CATALOGUE[1] == CHROME_MAC && CATALOGUE[2] == FIREFOX_WIN
    ensures "sec-ch-ua" in CHROME_MAC.headers && "sec-ch-ua" !in FIREFOX_WIN.headers
  {
  }

  // ----- Decimal printing -----

  function Digit(d: nat): char
    requires d < 10
  {
    '0' + d as char
  }

  function Decimal(n: nat): string {
    if n < 10 then [Digit(n)] else Decimal(n / 10) + [Digit(n % 10)]
  }

  function ParseDecimal(s: string): int {
    if s == [] then 0 else 10 * ParseDecimal(s[..|s| - 1]) + (s[|s| - 1] as int - '0' as int)
  }

  lemma {:induction false} DecimalRoundTrip(n: nat)
    ensures ParseDecimal(Decimal(n)) == n
    ensures '#' !in Decimal(n)
  {
    if n < 10 {
      assert Decimal(n)[..0] == [];
    } else {
      DecimalRoundTrip(n / 10);
      assert Decimal(n)[..|Decimal(n)| - 1] == Decimal(n / 10);
    }
  }

  // ----- Jar keys -----

  /** What follows the last '#'. */
  function AfterLastHash(s: string): string {
    if s == [] || s[|s| - 1] == '#' then [] else AfterLastHash(s[..|s| - 1]) + [s[|s| - 1]]
  }

  lemma {:induction false} HashSplits(name: string, tail: string)
    requires '#' !in tail
    ensures AfterLastHash(name + "#" + tail) == tail
  {
    var s := name + "#" + tail;
    if tail == [] {
      assert s[|s| - 1] == '#';
    } else {
      assert s[..|s| - 1] == name + "#" + tail[..|tail| - 1];
      HashSplits(name, tail[..|tail| - 1]);
    }
  }

  function JarKey(name: string, generation: nat): string {
    name + "#" + Decimal(generation)
  }

  /** Identities of different generations never share a cookie jar, whatever their profiles are called. */
  lemma JarKeysDistinct(name: string, generation: nat, name': string, generation': nat)
    ensures JarKey(name, generation) == JarKey(name', generation') <==> name == name' && generation == generation'
  {
    DecimalRoundTrip(generation);
    DecimalRoundTrip(generation');
    HashSplits(name, Decimal(generation));
    HashSplits(name', Decimal(generation'));
    if JarKey(name, generation) == JarKey(name', generation') {
      var key := JarKey(name, generation);
      assert |name| == |name'|;
      assert key[..|name|] == name && key[..|name'|] == name';
    }
  }

  // ----- The pool -----

  datatype IdentityState = IdentityState(index: nat, generation: nat)

  const FIRST := IdentityState(0, 0)

  function Build(profiles: seq<BrowserProfile>, s: IdentityState): Identity
    requires s.index < |profiles|
  {
    var profile := profiles[s.index];
    Identity(JarKey(profile.name, s.generation), profile)
  }

  function Rotate(profiles: seq<BrowserProfile>, s: IdentityState): (s': IdentityState)
    requires profiles != []
    ensures s'.index < |profiles|
  {
    IdentityState((s.index + 1) % |profiles|, s.generation + 1)
  }

  /** The generation-th state: round-robin over the catalogue. */
  function Nth(profiles: seq<BrowserProfile>, generation: nat): (s: IdentityState)
    requires profiles != []
    ensures s.index < |profiles|
  {
    IdentityState(generation % |profiles|, generation)
  }

  lemma NextInTurn(profiles: seq<BrowserProfile>, generation: nat)
    requires profiles != []
    ensures Rotate(profiles, Nth(profiles, generation)) == Nth(profiles, generation + 1)
  {
    var n := |profiles|;
    var q, r := generation / n, generation % n;
    assert generation == q * n + r;
    if r + 1 < n {
      DivisionIs(generation + 1, q, r + 1, n);
      DivisionIs(r + 1, 0, r + 1, n);
    } else {
      assert generation + 1 == (q + 1) * n;
      DivisionIs(generation + 1, q + 1, 0, n);
      DivisionIs(r + 1, 1, 0, n);
    }
  }
}
