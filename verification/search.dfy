/** Catalog search (`search_products`): a conjunctive filter over the catalog
    followed by skip/take pagination. */
module Search {
  import opened Common
  import opened Text
  import opened Catalog

  const DefaultPage: Usize := 1
  const DefaultLimit: Usize := 10

  /** A product passes every filter the query supplies: name substring and
      category/region equality ignoring case, inclusive price bounds, and the
      certification flag. */
  predicate Matches(p: Product, q: ProductQuery)
    ensures NoFilterSet(q) ==> Matches(p, q)
  {
    && (q.query.Some? ==> Contains(Lower(p.name), Lower(q.query.value)))
    && (q.category.Some? ==> Lower(p.category) == Lower(q.category.value))
    && (q.minPrice.Some? ==> p.price >= q.minPrice.value)
    && (q.maxPrice.Some? ==> p.price <= q.maxPrice.value)
    && (q.region.Some? ==> Lower(p.region) == Lower(q.region.value))
    && (q.certified.Some? ==> p.certified == q.certified.value)
  }

  /** The query supplies none of the six filters. */
  predicate NoFilterSet(q: ProductQuery) {
    && q.query.None? && q.category.None? && q.minPrice.None? && q.maxPrice.None?
    && q.region.None? && q.certified.None?
  }

  /** Case-folds a supplied text filter. */
  function LowerOpt(o: Option<string>): Option<string> {
    if o.Some? then Some(Lower(o.value)) else None
  }

  /** The text filters ignore case on both sides: folding the product's name,
      category and region, or the query's text filters, changes no verdict. */
  lemma MatchesIgnoresCase(p: Product, q: ProductQuery)
    ensures Matches(p, q) <==>
              Matches(p.(name := Lower(p.name), category := Lower(p.category), region := Lower(p.region)), q)
    ensures Matches(p, q) <==>
              Matches(p, q.(query := LowerOpt(q.query), category := LowerOpt(q.category), region := LowerOpt(q.region)))
  {
    LowerIdempotent(p.name);
    LowerIdempotent(p.category);
    LowerIdempotent(p.region);
    if q.query.Some? { LowerIdempotent(q.query.value); }
    if q.category.Some? { LowerIdempotent(q.category.value); }
    if q.region.Some? { LowerIdempotent(q.region.value); }
  }

  /** The filtered catalog, in catalog order. */
  function FilterProducts(catalog: seq<Product>, q: ProductQuery): (r: seq<Product>)
    ensures forall p :: p in r <==> p in catalog && Matches(p, q)
    ensures |r| <= |catalog|
  {
    if catalog == [] then []
    else
      var rest := FilterProducts(catalog[1..], q);
      assert forall p :: p in catalog <==> p == catalog[0] || p in catalog[1..];
      if Matches(catalog[0], q) then [catalog[0]] + rest else rest
  }

  /** Filtering keeps catalog order: it distributes over concatenation. */
  lemma {:induction false} FilterAppend(a: seq<Product>, b: seq<Product>, q: ProductQuery)
    ensures FilterProducts(a + b, q) == FilterProducts(a, q) + FilterProducts(b, q)
  {
    if a == [] {
      assert a + b == b;
    } else {
      assert (a + b)[1..] == a[1..] + b;
      FilterAppend(a[1..], b, q);
    }
  }

  /** A query with no filters keeps the whole catalog. */
  lemma {:induction false} FilterWithoutFilters(catalog: seq<Product>, q: ProductQuery)
    requires NoFilterSet(q)
    ensures FilterProducts(catalog, q) == catalog
  {
    if catalog != [] {
      FilterWithoutFilters(catalog[1..], q);
    }
  }

  /** Both price bounds are inclusive: a price equal to them is kept. */
  lemma PriceBoundsInclusive(p: Product, q: ProductQuery)
    requires q.query.None? && q.category.None? && q.region.None? && q.certified.None?
    requires q.minPrice == Some(p.price) && q.maxPrice == Some(p.price)
    ensures Matches(p, q)
  {
  }

  /** `(page - 1) * limit` in `usize`: absent when the subtraction underflows
      (page 0) or the product overflows; both abort the request. */
  function StartIndex(page: Usize, limit: Usize): (r: Option<Usize>)
    ensures r.Some? <==> page >= 1 && (page - 1) * limit <= USIZE_MAX
    ensures r.Some? ==> r.value == (page - 1) * limit
  {
    if page == 0 then None
    else if (page - 1) * limit > USIZE_MAX then None
    else Some((page - 1) * limit)
  }

  /** `iter().skip(n)`. */
  function Skip(s: seq<Product>, n: nat): seq<Product> {
    if n >= |s| then [] else s[n..]
  }

  /** `take(n)`. */
  function Take(s: seq<Product>, n: nat): seq<Product> {
    if n >= |s| then s else s[..n]
  }

  function Min(a: int, b: int): int {
    if a <= b then a else b
  }

  /** The page starting at `start`: the next `limit` products, fewer near the end, none past it. */
  function PageOf(filtered: seq<Product>, start: nat, limit: nat): (r: seq<Product>)
    ensures |r| <= limit
    ensures |r| == if start >= |filtered| then 0 else Min(limit, |filtered| - start)
    ensures forall k :: 0 <= k < |r| ==> r[k] == filtered[start + k]
  {
    Take(Skip(filtered, start), limit)
  }

  /** Two adjacent windows of `limit` products make one window of `2 * limit`:
      taking page after page walks the filtered list without gaps or overlaps. */
  lemma PagesTile(filtered: seq<Product>, start: nat, limit: nat)
    ensures PageOf(filtered, start, limit) + PageOf(filtered, start + limit, limit) == PageOf(filtered, start, 2 * limit)
  {
    var a := PageOf(filtered, start, limit);
    var b := PageOf(filtered, start + limit, limit);
    var c := PageOf(filtered, start, 2 * limit);
    assert |a + b| == |c|;
    forall k | 0 <= k < |c| ensures (a + b)[k] == c[k] {
      if k < |a| {
        assert (a + b)[k] == a[k];
      } else {
        assert (a + b)[k] == b[k - |a|];
      }
    }
  }

  /** Page `page + 1` starts where page `page` ends, so together the two pages
      hold the `2 * limit` products from page `page`'s start. */
  lemma ConsecutivePagesTile(filtered: seq<Product>, page: Usize, limit: Usize)
    requires 1 <= page < USIZE_MAX
    requires StartIndex(page + 1, limit).Some?
    ensures StartIndex(page, limit).Some?
    ensures StartIndex(page + 1, limit).value == StartIndex(page, limit).value + limit
    ensures var s := StartIndex(page, limit).value;
            PageOf(filtered, s, limit) + PageOf(filtered, s + limit, limit) == PageOf(filtered, s, 2 * limit)
  {
    var p: nat := page - 1;
    NextMultiple(p, limit);
    PagesTile(filtered, p * limit, limit);
  }

  lemma NextMultiple(p: nat, l: nat)
    ensures (p + 1) * l == p * l + l
    ensures p * l <= (p + 1) * l
  {
  }

  /** The outcome of a search request: a page, or an aborted request. */
  datatype SearchOutcome = Response(body: PaginatedResponse) | Aborted

  /** `search_products` over `catalog`: page defaults to 1 and limit to 10;
      `total` counts every match regardless of paging. */
  function SearchProducts(catalog: seq<Product>, q: ProductQuery): (r: SearchOutcome)
    ensures r.Response? <==> StartIndex(q.page.GetOr(DefaultPage), q.limit.GetOr(DefaultLimit)).Some?
    ensures q.page == Some(0) ==> r.Aborted?
    ensures r.Response? ==>
              && r.body.page == q.page.GetOr(DefaultPage)
              && r.body.limit == q.limit.GetOr(DefaultLimit)
              && r.body.total == |FilterProducts(catalog, q)|
              && |r.body.products| <= r.body.limit
    ensures r.Response? ==>
              var start := StartIndex(r.body.page, r.body.limit).value;
              && (start >= r.body.total ==> r.body.products == [])
              && |r.body.products| == (if start >= r.body.total then 0 else Min(r.body.limit, r.body.total - start))
              && forall k :: 0 <= k < |r.body.products| ==>
                   && start + k < r.body.total
                   && r.body.products[k] == FilterProducts(catalog, q)[start + k]
                   && Matches(r.body.products[k], q)
  {
    var filtered := FilterProducts(catalog, q);
    var page := q.page.GetOr(DefaultPage);
    var limit := q.limit.GetOr(DefaultLimit);
    match StartIndex(page, limit)
    case None => Aborted
    case Some(start) =>
      var products := PageOf(filtered, start, limit);
      assert forall k :: 0 <= k < |products| ==> start + k < |filtered| && products[k] in filtered;
      Response(PaginatedResponse(page, limit, |filtered|, products))
  }

  /** Paging does not change what is matched: two queries that differ only in
      page and limit filter the catalog to the same list, so every answered
      request among them reports the same `total`. */
  lemma TotalIndependentOfPaging(catalog: seq<Product>, q1: ProductQuery, q2: ProductQuery)
    requires q1.query == q2.query && q1.category == q2.category && q1.region == q2.region
    requires q1.minPrice == q2.minPrice && q1.maxPrice == q2.maxPrice && q1.certified == q2.certified
    ensures FilterProducts(catalog, q1) == FilterProducts(catalog, q2)
  {
    assert forall p :: Matches(p, q1) == Matches(p, q2);
    FilterSameWhenMatchesAgree(catalog, q1, q2);
  }

  lemma {:induction false} FilterSameWhenMatchesAgree(catalog: seq<Product>, q1: ProductQuery, q2: ProductQuery)
    requires forall p :: Matches(p, q1) == Matches(p, q2)
    ensures FilterProducts(catalog, q1) == FilterProducts(catalog, q2)
  {
    if catalog != [] {
      FilterSameWhenMatchesAgree(catalog[1..], q1, q2);
    }
  }

  /** On the mock catalog, a query without filters reports both products. */
  lemma MockNoFilters()
    ensures SearchProducts(MockProducts(), NoFilters()).Response?
    ensures SearchProducts(MockProducts(), NoFilters()).body.total == 2
  {
    FilterWithoutFilters(MockProducts(), NoFilters());
  }

  lemma LowerStoolName()
    ensures Lower("Bamileke Stool") == "bamileke stool"
  {
    var s := "Bamileke Stool";
    assert forall i :: 0 <= i < |s| && s[i] != 'B' && s[i] != 'S' ==> LowerChar(s[i]) == s[i];
  }

  lemma LowerShirtName()
    ensures Lower("Cameroon T-shirt") == "cameroon t-shirt"
  {
    var s := "Cameroon T-shirt";
    assert forall i :: 0 <= i < |s| && s[i] != 'C' && s[i] != 'T' ==> LowerChar(s[i]) == s[i];
  }

  /** The query "stool" keeps the stool. */
  lemma StoolMatchesStool()
    ensures Matches(MockProducts()[0], NoFilters().(query := Some("stool")))
  {
    LowerStoolName();
    assert Lower("stool") == "stool";
    var stool := "bamileke stool";
    assert stool[9..14] == "stool";
    OccurrencesAreFound(stool, "stool", 9);
  }

  /** The query "stool" drops the T-shirt. */
  lemma ShirtMissesStool()
    ensures !Matches(MockProducts()[1], NoFilters().(query := Some("stool")))
  {
    LowerShirtName();
    assert Lower("stool") == "stool";
    var shirt := "cameroon t-shirt";
    assert forall i :: 0 <= i < |shirt| && i != 11 ==> shirt[i] != 's';
    NoLeadingPairNoMatch(shirt, "stool");
  }

  /** On the mock catalog, "stool" finds only the Bamileke Stool. */
  lemma MockQueryStool()
    ensures var r := SearchProducts(MockProducts(), NoFilters().(query := Some("stool")));
            r.Response? && r.body.total == 1 && r.body.products[0].name == "Bamileke Stool"
  {
    var q := NoFilters().(query := Some("stool"));
    var cat := MockProducts();
    StoolMatchesStool();
    ShirtMissesStool();
    assert FilterProducts(cat, q) == [cat[0]] by {
      assert cat[1..][1..] == [];
    }
  }

  /** On the mock catalog, category "Clothing" finds only the T-shirt. */
  lemma MockCategoryClothing()
    ensures var r := SearchProducts(MockProducts(), NoFilters().(category := Some("Clothing")));
            r.Response? && r.body.total == 1 && r.body.products[0].category == "Clothing"
  {
    var q := NoFilters().(category := Some("Clothing"));
    var cat := MockProducts();
    assert Lower("Clothing") == "clothing";
    assert Lower(cat[0].category) == "furniture";
    assert Lower(cat[1].category) == "clothing";
    assert FilterProducts(cat, q) == [cat[1]] by {
      assert cat[1..][1..] == [];
    }
  }

  /** On the mock catalog, `certified=true` finds only the certified stool. */
  lemma MockCertified()
    ensures var r := SearchProducts(MockProducts(), NoFilters().(certified := Some(true)));
            r.Response? && r.body.total == 1 && r.body.products[0].certified
  {
    var q := NoFilters().(certified := Some(true));
    var cat := MockProducts();
    assert FilterProducts(cat, q) == [cat[0]] by {
      assert cat[1..][1..] == [];
    }
  }
}
