/** The tables as values: the append-only observation log, the product projection, the run ledger. */
module Storage {
  import opened Wrappers

  datatype Details = Details(title: string, brand: Option<string>, url: string, imageUrl: Option<string>)

  datatype Product = Product(
    id: string, sourceId: string, externalId: string, details: Details, firstSeenAt: real, lastSeenAt: real)

  datatype Observation = Observation(
    productId: string, sourceId: string, runId: string, amount: real, currency: string,
    inStock: Option<bool>, capturedAt: real)

  datatype NormalizedItem = NormalizedItem(product: Product, observation: Observation)

  datatype RunStatus = Running | Success | Partial | Failed | Quarantined | Flagged

  /** `timings` holds the number of requests made; it is empty until the run is closed. */
  datatype CrawlRun = CrawlRun(
    id: string, sourceId: string, status: RunStatus, itemsOk: nat, itemsRejected: nat, banEvents: nat,
    timings: Option<nat>, startedAt: real, finishedAt: Option<real>)

  datatype Store = Store(products: map<string, Product>, log: seq<Observation>, runs: seq<CrawlRun>)

  const EMPTY := Store(map[], [], [])

  // ----- Writes -----

  /** On a conflict the descriptive fields are refreshed and the last sighting only moves forward; the
      first sighting and the identifying columns stay. */
  function Upsert(products: map<string, Product>, p: Product): map<string, Product> {
    if p.id in products then
      var row := products[p.id];
      products[p.id := row.(details := p.details,
                            lastSeenAt := if row.lastSeenAt >= p.lastSeenAt then row.lastSeenAt else p.lastSeenAt)]
    else products[p.id := p]
  }

  function Write(s: Store, item: NormalizedItem): Store {
    s.(products := Upsert(s.products, item.product), log := s.log + [item.observation])
  }

  function Flush(s: Store, items: seq<NormalizedItem>): Store {
    if items == [] then s else Write(Flush(s, items[..|items| - 1]), items[|items| - 1])
  }

  function Observations(items: seq<NormalizedItem>): seq<Observation> {
    seq(|items|, i requires 0 <= i < |items| => items[i].observation)
  }

  /** A flush appends the buffered observations in order and leaves the ledger alone. */
  lemma {:induction false} FlushAppends(s: Store, items: seq<NormalizedItem>)
    ensures Flush(s, items).log == s.log + Observations(items)
    ensures Flush(s, items).runs == s.runs
  {
    if items != [] {
      var n := |items| - 1;
      FlushAppends(s, items[..n]);
      assert Observations(items) == Observations(items[..n]) + [items[n].observation];
    }
  }

  // ----- Queries -----

  /** The observation a source's newest price of a product is read from. Equal capture times are left open
      by the query; this picks the later append. */
  function Newest(log: seq<Observation>, source: string, product: string): Option<Observation> {
    if log == [] then None
    else
      var before, o := Newest(log[..|log| - 1], source, product), log[|log| - 1];
      if o.sourceId == source && o.productId == product && (before.None? || o.capturedAt >= before.value.capturedAt)
      then Some(o) else before
  }

  /** It is one of the source's observations of the product with the greatest capture time, and of those the
      one appended last. */
  ghost predicate IsNewest(log: seq<Observation>, source: string, product: string, i: nat) {
    && i < |log| && log[i].sourceId == source && log[i].productId == product
    && (forall k :: 0 <= k < |log| && log[k].sourceId == source && log[k].productId == product ==>
          log[k].capturedAt <= log[i].capturedAt && (k > i ==> log[k].capturedAt < log[i].capturedAt))
  }

  lemma {:induction false} NewestExact(log: seq<Observation>, source: string, product: string)
    ensures var o := Newest(log, source, product);
      if o.None? then forall k :: 0 <= k < |log| ==> !(log[k].sourceId == source && log[k].productId == product)
      else exists i: nat :: IsNewest(log, source, product, i) && log[i] == o.value
  {
    if log != [] {
      var n := |log| - 1;
      var before, o := Newest(log[..n], source, product), log[n];
      NewestExact(log[..n], source, product);
      if before.Some? && Newest(log, source, product) == before {
        var i: nat :| IsNewest(log[..n], source, product, i) && log[..n][i] == before.value;
        if o.sourceId == source && o.productId == product && o.capturedAt >= before.value.capturedAt {
          assert IsNewest(log, source, product, n);
        } else {
          assert IsNewest(log, source, product, i);
        }
      } else if Newest(log, source, product).Some? {
        assert IsNewest(log, source, product, n);
      }
    }
  }

  function ProductsOf(log: seq<Observation>, source: string): set<string> {
    set o | o in log && o.sourceId == source :: o.productId
  }

  lemma {:induction false} NewestExists(log: seq<Observation>, source: string, product: string)
    ensures Newest(log, source, product).Some? <==> product in ProductsOf(log, source)
  {
    if log != [] {
      NewestExists(log[..|log| - 1], source, product);
      assert log == log[..|log| - 1] + [log[|log| - 1]];
    }
  }

  /** The newest committed price per product of a source. */
  function LatestAmounts(log: seq<Observation>, source: string): map<string, real> {
    map p | p in ProductsOf(log, source) :: (NewestExists(log, source, p); Newest(log, source, p).value.amount)
  }

  predicate Committed(r: CrawlRun) {
    (r.status == Success || r.status == Partial) && r.finishedAt.Some?
  }

  /** The committed run of a source that finished last. Equal finish times are left open by the query;
      this picks the later row. */
  function LastFinished(runs: seq<CrawlRun>, source: string, excluded: string): Option<CrawlRun>
    ensures var r := LastFinished(runs, source, excluded); r.Some? ==> Committed(r.value)
  {
    if runs == [] then None
    else
      var before, r := LastFinished(runs[..|runs| - 1], source, excluded), runs[|runs| - 1];
      if r.sourceId == source && r.id != excluded && Committed(r)
         && (before.None? || r.finishedAt.value >= before.value.finishedAt.value)
      then Some(r) else before
  }

  /** It is a committed run of the source other than the excluded one, no such run finished later, and of those
      that finished with it, it was opened last. */
  ghost predicate IsLastFinished(runs: seq<CrawlRun>, source: string, excluded: string, i: nat) {
    && i < |runs| && Counts(runs[i], source, excluded)
    && forall k :: 0 <= k < |runs| && Counts(runs[k], source, excluded) ==>
         && runs[k].finishedAt.value <= runs[i].finishedAt.value
         && (k > i ==> runs[k].finishedAt.value < runs[i].finishedAt.value)
  }

  predicate Counts(r: CrawlRun, source: string, excluded: string) {
    r.sourceId == source && r.id != excluded && (r.status == Success || r.status == Partial) && r.finishedAt.Some?
  }

  lemma {:induction false} LastFinishedExact(runs: seq<CrawlRun>, source: string, excluded: string)
    ensures var r := LastFinished(runs, source, excluded);
      if r.None? then forall k :: 0 <= k < |runs| ==> !Counts(runs[k], source, excluded)
      else exists i: nat :: IsLastFinished(runs, source, excluded, i) && runs[i] == r.value
  {
    if runs != [] {
      var n := |runs| - 1;
      var before, r := LastFinished(runs[..n], source, excluded), runs[n];
      LastFinishedExact(runs[..n], source, excluded);
      if before.Some? && !(Counts(r, source, excluded) && r.finishedAt.value >= before.value.finishedAt.value) {
        var i: nat :| IsLastFinished(runs[..n], source, excluded, i) && runs[..n][i] == before.value;
        assert IsLastFinished(runs, source, excluded, i);
      } else if Counts(r, source, excluded) {
        assert IsLastFinished(runs, source, excluded, n);
      }
    }
  }

  function BaselineCount(runs: seq<CrawlRun>, source: string, excluded: string): Option<nat> {
    var r := LastFinished(runs, source, excluded);
    if r.Some? then Some(r.value.itemsOk) else None
  }

  // ----- The projection agrees with the log -----

  /** The first appended observation of a product. */
  function FirstSeen(log: seq<Observation>, product: string): Option<real> {
    if log == [] then None
    else
      var before := FirstSeen(log[..|log| - 1], product);
      if before.Some? then before
      else if log[|log| - 1].productId == product then Some(log[|log| - 1].capturedAt) else None
  }

  /** The greatest capture time of a product. */
  function LastSeen(log: seq<Observation>, product: string): Option<real> {
    if log == [] then None
    else
      var before, o := LastSeen(log[..|log| - 1], product), log[|log| - 1];
      if o.productId == product && (before.None? || o.capturedAt > before.value) then Some(o.capturedAt) else before
  }

  lemma {:induction false} SeenTogether(log: seq<Observation>, product: string)
    ensures FirstSeen(log, product).Some? <==> LastSeen(log, product).Some?
    ensures LastSeen(log, product).Some? <==> exists i :: 0 <= i < |log| && log[i].productId == product
    ensures LastSeen(log, product).Some? ==>
      && (forall i :: 0 <= i < |log| && log[i].productId == product ==>
            log[i].capturedAt <= LastSeen(log, product).value)
      && (exists i :: 0 <= i < |log| && log[i].productId == product
            && log[i].capturedAt == LastSeen(log, product).value)
  {
    if log != [] {
      var n := |log| - 1;
      SeenTogether(log[..n], product);
      if LastSeen(log[..n], product).Some? {
        var i :| 0 <= i < n && log[..n][i].productId == product
          && log[..n][i].capturedAt == LastSeen(log[..n], product).value;
        assert log[i] == log[..n][i];
      }
      forall i | 0 <= i < |log| && log[i].productId == product
        ensures log[i].capturedAt <= LastSeen(log, product).value
      {
        if i < n { assert log[..n][i] == log[i]; }
      }
    }
  }

  /** One row per product of the log, first seen at its first append, last seen at its latest capture. */
  ghost predicate Projects(products: map<string, Product>, log: seq<Observation>) {
    && (forall id :: id in products <==> LastSeen(log, id).Some?)
    && (forall id :: id in products ==>
          && products[id].id == id
          && FirstSeen(log, id) == Some(products[id].firstSeenAt)
          && LastSeen(log, id) == Some(products[id].lastSeenAt))
  }

  /** Both halves of an item name the same product and capture. */
  predicate Coherent(item: NormalizedItem) {
    && item.product.id == item.observation.productId
    && item.product.sourceId == item.observation.sourceId
    && item.product.firstSeenAt == item.product.lastSeenAt == item.observation.capturedAt
  }

  lemma WriteProjects(s: Store, item: NormalizedItem)
    requires Projects(s.products, s.log) && Coherent(item)
    ensures Projects(Write(s, item).products, Write(s, item).log)
  {
    var log, o := s.log, item.observation;
    assert (log + [o])[..|log|] == log;
    forall id ensures id in Write(s, item).products <==> LastSeen(log + [o], id).Some? {
    }
    SeenTogether(log, o.productId);
  }

  /** Any sequence of flushed items keeps projection and log in agreement. */
  lemma {:induction false} FlushProjects(s: Store, items: seq<NormalizedItem>)
    requires Projects(s.products, s.log) && forall i :: 0 <= i < |items| ==> Coherent(items[i])
    ensures Projects(Flush(s, items).products, Flush(s, items).log)
  {
    if items != [] {
      var n := |items| - 1;
      FlushProjects(s, items[..n]);
      WriteProjects(Flush(s, items[..n]), items[n]);
    }
  }

  function LastItem(items: seq<NormalizedItem>, id: string): Option<NormalizedItem> {
    if items == [] then None
    else if items[|items| - 1].product.id == id then Some(items[|items| - 1])
    else LastItem(items[..|items| - 1], id)
  }

  function FirstItem(items: seq<NormalizedItem>, id: string): Option<NormalizedItem> {
    if items == [] then None
    else
      var before := FirstItem(items[..|items| - 1], id);
      if before.None? && items[|items| - 1].product.id == id then Some(items[|items| - 1]) else before
  }

  /** After a flush a row is described as its last flushed item says; a new row keeps the identifying
      columns of its first one, an old row those it had. */
  lemma {:induction false} FlushDescribes(s: Store, items: seq<NormalizedItem>, id: string)
    ensures FirstItem(items, id).Some? <==> LastItem(items, id).Some?
    ensures var (products, last) := (Flush(s, items).products, LastItem(items, id));
      && (id in products <==> id in s.products || last.Some?)
      && (id in products ==>
            && products[id].details == (if last.Some? then last.value.product.details else s.products[id].details)
            && (products[id].sourceId, products[id].externalId) ==
               if id in s.products then (s.products[id].sourceId, s.products[id].externalId)
               else (FirstItem(items, id).value.product.sourceId, FirstItem(items, id).value.product.externalId))
  {
    if items != [] {
      FlushDescribes(s, items[..|items| - 1], id);
    }
  }

  // ----- Canonical ids -----

  function CanonicalId(source: string, external: string): string {
    source + ":" + external
  }

  /** Exactly when two products share an id: the same source and external id, or one source id continues
      the other after a colon and the external ids make up for it. */
  lemma CanonicalIdsDistinct(source: string, external: string, source': string, external': string)
    ensures CanonicalId(source, external) == CanonicalId(source', external') <==>
            || (source == source' && external == external')
            || (source + ":" <= source' && external == source'[|source| + 1..] + ":" + external')
            || (source' + ":" <= source && external' == source[|source'| + 1..] + ":" + external)
  {
    if |source| < |source'| {
      LongerSource(source, external, source', external');
    } else if |source'| < |source| {
      LongerSource(source', external', source, external);
    } else if CanonicalId(source, external) == CanonicalId(source', external') {
      var id := CanonicalId(source, external);
      assert id[..|source|] == source && id[..|source'|] == source';
      assert id[|source| + 1..] == external && id[|source'| + 1..] == external';
    }
  }

  lemma LongerSource(source: string, external: string, source': string, external': string)
    requires |source| < |source'|
    ensures CanonicalId(source, external) == CanonicalId(source', external') <==>
            source + ":" <= source' && external == source'[|source| + 1..] + ":" + external'
  {
    var id, id' := CanonicalId(source, external), CanonicalId(source', external');
    var n := |source| + 1;
    assert id[..n] == source + ":" && id[n..] == external;
    assert id'[..n] == source'[..n] && id'[n..] == source'[n..] + ":" + external';
    assert id == id[..n] + id[n..] && id' == id'[..n] + id'[n..];
  }

  /** Two different sources can have products with one id exactly when one of their ids continues the
      other after a colon. */
  lemma SourcesCollide(source: string, source': string)
    requires source != source'
    ensures (exists e, e' :: CanonicalId(source, e) == CanonicalId(source', e')) <==>
            source + ":" <= source' || source' + ":" <= source
  {
    if e, e' :| CanonicalId(source, e) == CanonicalId(source', e') {
      CanonicalIdsDistinct(source, e, source', e');
    }
    if source + ":" <= source' {
      CanonicalIdsDistinct(source, source'[|source| + 1..] + ":", source', "");
      assert source'[|source| + 1..] + ":" + "" == source'[|source| + 1..] + ":";
    } else if source' + ":" <= source {
      CanonicalIdsDistinct(source, "", source', source[|source'| + 1..] + ":");
      assert source[|source'| + 1..] + ":" + "" == source[|source'| + 1..] + ":";
    }
  }

  /** An instance: the product b:c of source a and the product c of source a:b. */
  lemma ColonsCollide()
    ensures CanonicalId("a", "b:c") == CanonicalId("a:b", "c")
  {
    assert CanonicalId("a", "b:c") == ['a', ':', 'b', ':', 'c'];
    assert CanonicalId("a:b", "c") == ['a', ':', 'b', ':', 'c'];
  }
}
