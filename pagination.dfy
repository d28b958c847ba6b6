/** `aggregatePaginate`: offset pagination of an aggregation's result. The library itself is
    not part of this model; its behaviour is taken to be plain offset slicing, with a page
    below 1 read as 1 and a limit below 1 read as 10. */
module Pagination {
  import opened Base

  const DefaultPage: int := 1
  const DefaultLimit: int := 10

  /** The `{ page, limit }` options handed to the paginator, after `parseInt`. */
  datatype Options = Options(page: int, limit: int)

  /** The paginator's answer: the page's documents and the counts around them. */
  datatype Page<T> = Page(
    docs: seq<T>,
    totalDocs: nat,
    limit: nat,
    page: nat,
    totalPages: nat,
    hasPrevPage: bool,
    hasNextPage: bool)

  /** `const { page = 1, limit = 10 } = req.query`: a parameter the request leaves out takes
      its default. */
  function RequestOptions(page: Option<int>, limit: Option<int>): Options {
    Options(page.GetOr(DefaultPage), limit.GetOr(DefaultLimit))
  }

  /** The page the paginator serves: the requested one, or the first when the request asks
      for a page below 1. */
  function EffectivePage(o: Options): (p: nat)
    ensures p >= 1
    ensures o.page >= 1 ==> p == o.page
    ensures o.page < 1 ==> p == DefaultPage
  {
    if o.page < 1 then 1 else o.page
  }

  /** The page size the paginator uses: the requested one, or the default when the request
      asks for less than one item. */
  function EffectiveLimit(o: Options): (l: nat)
    ensures l >= 1
    ensures o.limit >= 1 ==> l == o.limit
    ensures o.limit < 1 ==> l == DefaultLimit
  {
    if o.limit < 1 then DefaultLimit else o.limit
  }

  /** Number of pages of `limit` items needed for `n` items. */
  function PageCount(n: nat, limit: nat): (c: nat)
    requires limit >= 1
    ensures c * limit >= n
    ensures c > 0 ==> (c - 1) * limit < n
  {
    if n == 0 then 0 else 1 + PageCount(if n <= limit then 0 else n - limit, limit)
  }

  /** Position of the first item of the page `o` asks for. */
  function Offset(o: Options): nat {
    (EffectivePage(o) - 1) * EffectiveLimit(o)
  }

  /** The page `o` asks for: the items from `Offset(o)` on, at most `limit` of them. */
  function Paginate<T>(items: seq<T>, o: Options): (p: Page<T>)
    ensures p.page == EffectivePage(o) && p.limit == EffectiveLimit(o)
    ensures p.totalDocs == |items| && p.totalPages == PageCount(|items|, p.limit)
    ensures |p.docs| <= p.limit
    ensures forall j :: 0 <= j < |p.docs| ==> Offset(o) + j < |items| && p.docs[j] == items[Offset(o) + j]
    ensures o.page >= 1 ==> p.page == o.page
    ensures o.limit >= 1 ==> p.limit == o.limit
    ensures Offset(o) < |items| ==>
      |p.docs| == (if |items| - Offset(o) < p.limit then |items| - Offset(o) else p.limit)
    ensures Offset(o) >= |items| ==> p.docs == []
    ensures p.hasPrevPage == (p.page > 1) && p.hasNextPage == (p.page < p.totalPages)
  {
    var page, limit, offset := EffectivePage(o), EffectiveLimit(o), Offset(o);
    var lo := if offset < |items| then offset else |items|;
    var hi := if lo + limit < |items| then lo + limit else |items|;
    var total := PageCount(|items|, limit);
    Page(items[lo..hi], |items|, limit, page, total, page > 1, page < total)
  }

  /** A request without `page` and `limit` is served the first ten items. */
  lemma DefaultRequestIsFirstTen<T>(items: seq<T>)
    ensures var p := Paginate(items, RequestOptions(None, None));
      && p.page == 1 && p.limit == 10 && !p.hasPrevPage
      && p.docs == items[..if |items| < 10 then |items| else 10]
  {
    var p := Paginate(items, RequestOptions(None, None));
    assert Offset(RequestOptions(None, None)) == 0;
    var n := if |items| < 10 then |items| else 10;
    assert |p.docs| == n;
    assert forall j :: 0 <= j < n ==> p.docs[j] == items[j];
  }

  /** A request names its page and limit; a parameter it leaves out takes its default. */
  lemma RequestedOptionsAreUsed<T>(items: seq<T>, page: int, limit: int)
    requires page >= 1 && limit >= 1
    ensures var p := Paginate(items, RequestOptions(Some(page), Some(limit)));
      p.page == page && p.limit == limit
    ensures Paginate(items, RequestOptions(Some(page), None)).limit == 10
    ensures Paginate(items, RequestOptions(None, Some(limit))).page == 1
  {
  }

  /** A page holds only items of the list it pages through. */
  lemma PageDrawnFrom<T>(items: seq<T>, o: Options)
    ensures forall x :: x in Paginate(items, o).docs ==> x in items
  {
    var p := Paginate(items, o);
    forall x | x in p.docs ensures x in items {
      var j :| 0 <= j < |p.docs| && p.docs[j] == x;
      assert items[Offset(o) + j] == x;
    }
  }

  /** Every item sits on exactly the page and at the position its index says. */
  lemma ItemOnItsPage<T>(items: seq<T>, limit: int, i: nat)
    requires limit >= 1 && i < |items|
    ensures var p := Paginate(items, Options(i / limit + 1, limit));
      i % limit < |p.docs| && p.docs[i % limit] == items[i]
  {
    var q, r := i / limit, i % limit;
    assert q * limit + r == i;
    assert Offset(Options(q + 1, limit)) == q * limit;
  }

  /** Twelve items, page 2 of 5: items 6 to 10 (indices 5 to 9), three pages in all. */
  lemma TwelveItemsSecondPage<T>(items: seq<T>)
    requires |items| == 12
    ensures var p := Paginate(items, Options(2, 5));
      p.docs == items[5..10] && p.totalDocs == 12 && p.totalPages == 3
  {
    assert PageCount(12, 5) == 3 by {
      assert PageCount(2, 5) == 1;
      assert PageCount(7, 5) == 2;
    }
    var p := Paginate(items, Options(2, 5));
    assert |p.docs| == 5;
    assert forall j :: 0 <= j < 5 ==> p.docs[j] == items[5 + j];
  }
}
