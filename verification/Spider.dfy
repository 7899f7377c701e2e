/** The paginated extractor: map a page's entries, follow until a page is empty. */
module Spider {
  import opened Wrappers
  import opened Classifier
  import opened Harness
  import opened Division
  import opened Positions

  datatype RawProduct = RawProduct(externalId: string, rawPrice: string)

  /** An entry without id, price or a valid title is skipped, never defaulted. */
  function ToRawProduct(entry: Entry): Option<RawProduct> {
    if entry.externalId.None? || entry.price.None? || !entry.titled then None
    else Some(RawProduct(entry.externalId.value, entry.price.value))
  }

  function Mapped(entries: seq<Entry>): seq<RawProduct> {
    if entries == [] then []
    else
      var raw := ToRawProduct(entries[|entries| - 1]);
      Mapped(entries[..|entries| - 1]) + (if raw.Some? then [raw.value] else [])
  }

  /** The entry at this position can be mapped: it has an id, a price and a valid title. */
  predicate Mappable(entries: seq<Entry>, k: nat) {
    k < |entries| && entries[k].externalId.Some? && entries[k].price.Some? && entries[k].titled
  }

  /** The items are the mappable entries, in order, each with the id and the price of its entry. */
  ghost predicate ItemsOf(entries: seq<Entry>, items: seq<RawProduct>) {
    var at := Where(|entries|, (k: nat) => Mappable(entries, k));
    && |items| == |at|
    && forall i :: 0 <= i < |items| ==>
         && Mappable(entries, at[i])
         && items[i].externalId == entries[at[i]].externalId.value
         && items[i].rawPrice == entries[at[i]].price.value
  }

  lemma {:induction false} MappedItems(entries: seq<Entry>)
    ensures ItemsOf(entries, Mapped(entries))
  {
    if entries != [] {
      var n := |entries| - 1;
      var before := entries[..n];
      MappedItems(before);
      WhereNext(n, (k: nat) => Mappable(before, k), (k: nat) => Mappable(entries, k));
      WhereLists(n, (k: nat) => Mappable(before, k));
    }
  }

  lemma {:induction false} MappedConcat(a: seq<Entry>, b: seq<Entry>)
    ensures Mapped(a + b) == Mapped(a) + Mapped(b)
  {
    if b == [] {
      assert a + b == a;
    } else {
      var n := |b| - 1;
      assert (a + b)[..|a + b| - 1] == a + b[..n];
      MappedConcat(a, b[..n]);
    }
  }

  lemma {:induction false} MappedAtMost(entries: seq<Entry>)
    ensures |Mapped(entries)| <= |entries|
  {
    if entries != [] {
      MappedAtMost(entries[..|entries| - 1]);
    }
  }

  lemma {:induction false} RenamedYieldsNothing(entries: seq<Entry>)
    ensures Mapped(Renamed(entries)) == []
  {
    if entries != [] {
      var n := |entries| - 1;
      RenamedYieldsNothing(entries[..n]);
      assert Renamed(entries)[..n] == Renamed(entries[..n]);
    }
  }

  /** The drift scenario yields no item for any page number; from page 1 on its pages have as many entries
      as the happy ones, and page 0, which the happy server answers like page 1, is empty. */
  lemma DriftYieldsNothing(catalogue: seq<Entry>, page: int, size: nat)
    ensures Mapped(DriftPage(catalogue, page, size)) == []
    ensures page >= 1 ==> |DriftPage(catalogue, page, size)| == |HappyPage(catalogue, page, size)|
    ensures DriftPage(catalogue, 0, size) == [] && HappyPage(catalogue, 0, size) == HappyPage(catalogue, 1, size)
  {
    var start := (if page < 1 then 0 else page - 1) * size;
    RenamedYieldsNothing(Between(catalogue, start, page * size));
    if page >= 1 {
      assert page * size == start + size;
    }
  }

  /** Every mappable entry once, in order, with its own id and price; a follow-up page exactly when this page
      has entries. */
  method Parse(page: nat, products: seq<Entry>) returns (items: seq<RawProduct>, next: Option<nat>)
    ensures items == Mapped(products) && ItemsOf(products, items)
    ensures next == (if products == [] then None else Some(page + 1))
  {
    items := [];
    MappedItems(products);
    if products == [] {
      return items, None;
    }
    var emitted := 0;
    for i := 0 to |products|
      invariant items == Mapped(products[..i]) && emitted == |items|
    {
      assert products[..i + 1][..i] == products[..i];
      var raw := ToRawProduct(products[i]);
      if raw.Some? {
        emitted := emitted + 1;
        items := items + [raw.value];
      }
    }
    assert products[..|products|] == products;
    next := Some(page + 1);
  }

  // ----- Pagination -----

  /** The number of pages of a happy crawl: ceil(n / size) and the empty one that ends it. */
  function Pages(n: nat, size: nat): (pages: nat)
    requires size > 0
    ensures pages >= 1
  {
    (n + size - 1) / size + 1
  }

  /** Page k + 1 has entries exactly when it comes before the last one. */
  lemma PageHasEntries(catalogue: seq<Entry>, k: nat, size: nat)
    requires size > 0
    ensures HappyPage(catalogue, k + 1, size) != [] <==> k + 1 < Pages(|catalogue|, size)
  {
    var n := |catalogue|;
    var q, r := (n + size - 1) / size, (n + size - 1) % size;
    assert n + size - 1 == q * size + r;
    if k < q {
      MultipleGrows(k, q, size);
    } else if q < k {
      MultipleGrows(q, k, size);
    }
  }

  function Covered(n: nat, k: nat, size: nat): (c: nat)
    ensures c <= n
  {
    if k * size <= n then k * size else n
  }

  /** The first k pages are exactly the catalogue's first k * size entries, each once and in order. */
  lemma PagesConcatenate(catalogue: seq<Entry>, k: nat, size: nat)
    ensures var n := |catalogue|;
      catalogue[..Covered(n, k, size)] + HappyPage(catalogue, k + 1, size) == catalogue[..Covered(n, k + 1, size)]
  {
    var start, n := k * size, |catalogue|;
    assert (k + 1) * size == start + size;
    if start < n {
      if start + size >= n {
        assert catalogue[..start] + catalogue[start..] == catalogue;
      } else {
        assert catalogue[..start] + catalogue[start..start + size] == catalogue[..start + size];
      }
    }
  }

  /** So the items collected and the entries seen after page k + 1 are those of the first k + 1 pages. */
  lemma ItemsCollected(catalogue: seq<Entry>, k: nat, size: nat)
    ensures Mapped(catalogue[..Covered(|catalogue|, k, size)]) + Mapped(HappyPage(catalogue, k + 1, size))
            == Mapped(catalogue[..Covered(|catalogue|, k + 1, size)])
    ensures Covered(|catalogue|, k, size) + |HappyPage(catalogue, k + 1, size)| == Covered(|catalogue|, k + 1, size)
  {
    PagesConcatenate(catalogue, k, size);
    assert |catalogue[..Covered(|catalogue|, k, size)] + HappyPage(catalogue, k + 1, size)|
           == |catalogue[..Covered(|catalogue|, k + 1, size)]|;
    MappedConcat(catalogue[..Covered(|catalogue|, k, size)], HappyPage(catalogue, k + 1, size));
  }

  /** All pages but the empty last one cover the whole catalogue. */
  lemma LastPageCovers(n: nat, size: nat)
    requires size > 0
    ensures Covered(n, Pages(n, size) - 1, size) == n && Covered(n, Pages(n, size), size) == n
  {
    var q, r := (n + size - 1) / size, (n + size - 1) % size;
    assert n + size - 1 == q * size + r;
    assert (q + 1) * size == q * size + size;
  }
}
