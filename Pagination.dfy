/** The page arithmetic the listing handlers share: `skip = (page - 1) * limit`, `pages = ceil(total / limit)`. */
module Pagination {
  import opened Common

  /** The number of results passed over before the requested page. */
  function Skip(page: int, limit: int): int {
    (page - 1) * limit
  }

  /** `Math.ceil(total / limit)`. A zero limit gives Infinity or NaN in JavaScript, both sent as JSON null: `None`. */
  function PageCount(total: nat, limit: int): (r: Option<int>)
    ensures r.None? <==> limit == 0
  {
    if limit == 0 then None
    else if limit > 0 then Some((total + limit - 1) / limit)
    else Some(-(total / -limit))
  }

  /** For a positive limit, the page count is the least number of pages of that size that hold every result. */
  lemma PageCountIsCeiling(total: nat, limit: int)
    requires limit > 0
    ensures PageCount(total, limit).Some?
    ensures var pages := PageCount(total, limit).value;
      pages >= 0 && pages * limit >= total && (pages - 1) * limit < total
    ensures PageCount(total, limit).value == 0 <==> total == 0
  {
    var n := total + limit - 1;
    var q, m := n / limit, n % limit;
    assert n == q * limit + m && 0 <= m < limit;
    assert q * limit >= total;
    assert (q - 1) * limit == q * limit - limit;
    assert q >= 0;
    if total == 0 {
      assert n < limit;
      assert q == 0;
    } else {
      assert q * limit > 0;
      assert q != 0;
    }
  }

  /** MongoDB's `skip(skip).limit(limit)` over an ordered result: a zero limit means no limit, a negative one its magnitude. */
  function Window<T>(s: seq<T>, skip: nat, limit: int): (r: seq<T>)
    ensures |r| <= |s|
    ensures var start := if skip <= |s| then skip else |s|; start + |r| <= |s| && r == s[start..start + |r|]
    ensures limit != 0 ==> |r| <= (if limit < 0 then -limit else limit)
    ensures var start := if skip <= |s| then skip else |s|; limit == 0 ==> r == s[start..]
    ensures var start, n := (if skip <= |s| then skip else |s|), (if limit < 0 then -limit else limit);
      limit != 0 ==> |r| == (if n < |s| - start then n else |s| - start)
  {
    var start := if skip <= |s| then skip else |s|;
    var n := if limit < 0 then -limit else limit;
    var end := if n == 0 || start + n > |s| then |s| else start + n;
    s[start..end]
  }

  /** Every result lies on exactly one page: result `i` is entry `i % limit` of page `i / limit + 1`, within the page count. */
  lemma EveryResultOnItsPage<T>(s: seq<T>, limit: int, i: nat)
    requires limit > 0 && i < |s|
    ensures var page := i / limit + 1;
      && Skip(page, limit) >= 0
      && i % limit < |Window(s, Skip(page, limit), limit)|
      && Window(s, Skip(page, limit), limit)[i % limit] == s[i]
      && 1 <= page <= PageCount(|s|, limit).value
  {
    var q, m := i / limit, i % limit;
    var start := q * limit;
    assert Skip(q + 1, limit) == start;
    DivMod(i, limit);
    assert i == start + m;
    WindowIndex(s, start, limit, m);
    PageCountIsCeiling(|s|, limit);
    var pages := PageCount(|s|, limit).value;
    if q >= pages {
      MonotoneProduct(pages, q, limit);
      assert false;
    }
  }

  lemma DivMod(i: nat, limit: int)
    requires limit > 0
    ensures i == (i / limit) * limit + i % limit && 0 <= i % limit < limit && i / limit >= 0
  {
  }

  lemma WindowIndex<T>(s: seq<T>, start: nat, limit: int, m: nat)
    requires 0 <= m < limit && start + m < |s|
    ensures m < |Window(s, start, limit)| && Window(s, start, limit)[m] == s[start + m]
  {
  }

  lemma MonotoneProduct(a: int, b: int, c: nat)
    requires a <= b
    ensures a * c <= b * c
  {
  }

  /** The `pagination` object of a listing response. */
  datatype PageInfo = PageInfo(page: int, limit: int, total: nat, pages: Option<int>)

  datatype Listing<T> = Listing(items: seq<T>, pagination: PageInfo)

  /**
   * One page of an ordered result: `skip((page - 1) * limit).limit(limit)`, the count of all results and the
   * page count. The database refuses a negative skip, and the exception is passed on.
   */
  function Page<T>(matching: seq<T>, page: int, limit: int): (r: Result<Listing<T>>)
    ensures r.Ok? <==> Skip(page, limit) >= 0
    ensures r.Err? ==> r.error == Thrown(DatabaseError)
    ensures r.Ok? ==> r.value.items == Window(matching, Skip(page, limit), limit)
    ensures r.Ok? ==> r.value.pagination == PageInfo(page, limit, |matching|, PageCount(|matching|, limit))
  {
    var skip := Skip(page, limit);
    if skip < 0 then Err(Thrown(DatabaseError))
    else Ok(Listing(Window(matching, skip, limit), PageInfo(page, limit, |matching|, PageCount(|matching|, limit))))
  }
}
