/** The public product listing: a filter built from the query string, then one page of the matching products. */
module ProductController {
  import opened Common
  import opened ProductModel
  import opened Pagination

  /** The query-string parameters, already parsed; an absent parameter is `None`, as is an empty `search` or `category`. */
  datatype QueryParams = QueryParams(
    page: Option<int>,
    limit: Option<int>,
    search: Option<string>,
    category: Option<CategoryId>,
    minPrice: Option<Paise>,
    maxPrice: Option<Paise>,
    sort: Option<string>)

  /** An inclusive price range; each bound present only when it was given. */
  datatype PriceRange = PriceRange(gte: Option<Paise>, lte: Option<Paise>)

  /** The MongoDB filter document: `isActive`, then optional `$text`, `categoryId` and `price` clauses. */
  datatype Query = Query(isActive: bool, text: Option<string>, categoryId: Option<CategoryId>, price: Option<PriceRange>)

  const DefaultPage := 1
  const DefaultLimit := 12
  const DefaultSort := "-createdAt"

  /** Whether a product satisfies a filter document; `textMatch` stands for MongoDB's `$text` search. */
  predicate Matches(q: Query, p: Product, textMatch: (string, Product) -> bool) {
    && p.isActive == q.isActive
    && (q.text.Some? ==> textMatch(q.text.value, p))
    && (q.categoryId.Some? ==> p.categoryId == q.categoryId.value)
    && (q.price.Some? ==>
          && (q.price.value.gte.Some? ==> q.price.value.gte.value <= p.price)
          && (q.price.value.lte.Some? ==> p.price <= q.price.value.lte.value))
  }

  /** What the listing promises in terms of the parameters themselves: active, matching the search and category, priced within the given bounds. */
  predicate Admits(params: QueryParams, p: Product, textMatch: (string, Product) -> bool) {
    && p.isActive
    && (params.search.Some? && params.search.value != [] ==> textMatch(params.search.value, p))
    && (params.category.Some? ==> p.categoryId == params.category.value)
    && (params.minPrice.Some? ==> params.minPrice.value <= p.price)
    && (params.maxPrice.Some? ==> p.price <= params.maxPrice.value)
  }

  /** Builds the filter document clause by clause, as the handler does. */
  method BuildQuery(params: QueryParams) returns (q: Query)
    ensures q.isActive
    ensures q.text.Some? <==> params.search.Some? && params.search.value != []
    ensures q.categoryId == params.category
    ensures q.price.Some? <==> params.minPrice.Some? || params.maxPrice.Some?
    ensures forall p: Product, textMatch: (string, Product) -> bool {:trigger Matches(q, p, textMatch)} ::
      Matches(q, p, textMatch) <==> Admits(params, p, textMatch)
  {
    q := Query(true, None, None, None);
    var search := params.search.GetOr("");
    if search != [] {
      q := q.(text := Some(search));
    }
    if params.category.Some? {
      q := q.(categoryId := params.category);
    }
    if params.minPrice.Some? || params.maxPrice.Some? {
      var range := PriceRange(None, None);
      if params.minPrice.Some? {
        range := range.(gte := params.minPrice);
      }
      if params.maxPrice.Some? {
        range := range.(lte := params.maxPrice);
      }
      q := q.(price := Some(range));
    }
  }

  /** `Product.find(query)`: the products of an ordered collection that match, in collection order. */
  function Select(ps: seq<Product>, q: Query, textMatch: (string, Product) -> bool): (r: seq<Product>)
    ensures |r| <= |ps|
    ensures forall i | 0 <= i < |r| :: r[i] in ps && Matches(q, r[i], textMatch)
    ensures forall i | 0 <= i < |ps| :: Matches(q, ps[i], textMatch) ==> ps[i] in r
  {
    if ps == [] then []
    else if Matches(q, ps[0], textMatch) then [ps[0]] + Select(ps[1..], q, textMatch)
    else Select(ps[1..], q, textMatch)
  }

  /** The reference listing: the products the parameters admit, in collection order. */
  function Admitted(ps: seq<Product>, params: QueryParams, textMatch: (string, Product) -> bool): (r: seq<Product>)
    ensures |r| <= |ps|
    ensures forall i | 0 <= i < |r| :: r[i] in ps && Admits(params, r[i], textMatch)
    ensures forall i | 0 <= i < |ps| :: Admits(params, ps[i], textMatch) ==> ps[i] in r
  {
    if ps == [] then []
    else if Admits(params, ps[0], textMatch) then [ps[0]] + Admitted(ps[1..], params, textMatch)
    else Admitted(ps[1..], params, textMatch)
  }

  function MatchesOf(q: Query, textMatch: (string, Product) -> bool): Product -> bool {
    (p: Product) => Matches(q, p, textMatch)
  }

  lemma {:induction false} SelectIsFilter(ps: seq<Product>, q: Query, textMatch: (string, Product) -> bool)
    ensures Select(ps, q, textMatch) == Filter(ps, MatchesOf(q, textMatch))
  {
    if ps != [] {
      SelectIsFilter(ps[1..], q, textMatch);
    }
  }

  /** Filtering keeps collection order: the matches of `a + b` are those of `a` followed by those of `b`. */
  lemma SelectConcat(a: seq<Product>, b: seq<Product>, q: Query, textMatch: (string, Product) -> bool)
    ensures Select(a + b, q, textMatch) == Select(a, q, textMatch) + Select(b, q, textMatch)
  {
    SelectIsFilter(a + b, q, textMatch);
    SelectIsFilter(a, q, textMatch);
    SelectIsFilter(b, q, textMatch);
    FilterConcat(a, b, MatchesOf(q, textMatch));
  }

  function AdmitsOf(params: QueryParams, textMatch: (string, Product) -> bool): Product -> bool {
    (p: Product) => Admits(params, p, textMatch)
  }

  lemma {:induction false} AdmittedIsFilter(ps: seq<Product>, params: QueryParams, textMatch: (string, Product) -> bool)
    ensures Admitted(ps, params, textMatch) == Filter(ps, AdmitsOf(params, textMatch))
  {
    if ps != [] {
      AdmittedIsFilter(ps[1..], params, textMatch);
    }
  }

  /** The reference listing keeps collection order in the same way. */
  lemma AdmittedConcat(a: seq<Product>, b: seq<Product>, params: QueryParams, textMatch: (string, Product) -> bool)
    ensures Admitted(a + b, params, textMatch) == Admitted(a, params, textMatch) + Admitted(b, params, textMatch)
  {
    AdmittedIsFilter(a + b, params, textMatch);
    AdmittedIsFilter(a, params, textMatch);
    AdmittedIsFilter(b, params, textMatch);
    FilterConcat(a, b, AdmitsOf(params, textMatch));
  }

  /** A filter that agrees with the parameters on every product selects exactly the admitted products. */
  lemma {:induction false} SelectIsAdmitted(ps: seq<Product>, q: Query, params: QueryParams, textMatch: (string, Product) -> bool)
    requires forall p: Product {:trigger Matches(q, p, textMatch)} :: Matches(q, p, textMatch) <==> Admits(params, p, textMatch)
    ensures Select(ps, q, textMatch) == Admitted(ps, params, textMatch)
  {
    if ps != [] {
      assert Matches(q, ps[0], textMatch) <==> Admits(params, ps[0], textMatch);
      SelectIsAdmitted(ps[1..], q, params, textMatch);
    }
  }

  /** The sort key in effect: the given one, or newest first. */
  function SortKey(params: QueryParams): (r: string)
    ensures params.sort.None? ==> r == DefaultSort
    ensures params.sort.Some? ==> r == params.sort.value
  {
    params.sort.GetOr(DefaultSort)
  }

  /**
   * `getProducts`: the filter above over the collection sorted by the sort key, then one page of the matches
   * with their total count. `sorted(key)` is the product collection in the order of that key.
   */
  method GetProducts(sorted: string -> seq<Product>, params: QueryParams, textMatch: (string, Product) -> bool)
    returns (r: Result<Listing<Product>>)
    ensures r == Page(Admitted(sorted(SortKey(params)), params, textMatch),
                      params.page.GetOr(DefaultPage), params.limit.GetOr(DefaultLimit))
  {
    var page := params.page.GetOr(DefaultPage);
    var limit := params.limit.GetOr(DefaultLimit);
    var q := BuildQuery(params);
    var skip := Skip(page, limit);
    if skip < 0 {
      return Err(Thrown(DatabaseError));
    }
    var catalog := sorted(SortKey(params));
    var matching := Select(catalog, q, textMatch);
    SelectIsAdmitted(catalog, q, params, textMatch);
    var total := |Select(catalog, q, textMatch)|;
    r := Ok(Listing(Window(matching, skip, limit), PageInfo(page, limit, total, PageCount(total, limit))));
  }

  /** Every product on a listed page is active and satisfies the search, category and inclusive price bounds. */
  lemma ListedProductsAdmitted(ps: seq<Product>, params: QueryParams, textMatch: (string, Product) -> bool, skip: nat, limit: int, i: nat)
    requires i < |Window(Admitted(ps, params, textMatch), skip, limit)|
    ensures var p := Window(Admitted(ps, params, textMatch), skip, limit)[i];
      && p in ps && p.isActive
      && (params.search.Some? && params.search.value != [] ==> textMatch(params.search.value, p))
      && (params.category.Some? ==> p.categoryId == params.category.value)
      && (params.minPrice.Some? ==> params.minPrice.value <= p.price)
      && (params.maxPrice.Some? ==> p.price <= params.maxPrice.value)
  {
    var a := Admitted(ps, params, textMatch);
    var start := if skip <= |a| then skip else |a|;
    assert Window(a, skip, limit)[i] == a[start + i];
  }
}
