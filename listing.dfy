/** The page rule the posts, users and comments listings each spell out inline: the page number
    defaults to 0, the offset skips the earlier pages, a page past the last falls through to the
    next handler, and the "previous" and "next" links are decided by comparing the page with
    `count / limit`, a real quotient. */
module Listing {
  import opened Js

  /** `parseInt(req.query.page) || 0`: `query` is the parsed integer, `None` when it is not a number. */
  function PageOf(query: Option<int>): (page: int)
    ensures query.None? ==> page == 0
    ensures query.Some? ==> page == query.value
  {
    if query.Some? then query.value else 0
  }

  /** What a listing handler does: fall through to `next()`, or answer with the page's metadata. */
  datatype Listing =
    | FallThrough
    | Listed(limit: int, offset: int, currentPage: int, previous: Option<int>, next: Option<int>)

  /** The inline rule, as written: `totalPage = count / limit`; `previousPage` set when
      `0 < page < totalPage + 1`; fall through when `page > 0 && page >= totalPage + 1`; `nextPage`
      is `page + 1` when `page + 1 <= totalPage` and its link is added only when that number is
      truthy. */
  function ListPage(query: Option<int>, count: nat, limit: int): (l: Listing)
    requires limit > 0
    ensures l.Listed? ==> l.limit == limit && l.currentPage == PageOf(query) && l.offset == PageOf(query) * limit
  {
    var page := PageOf(query);
    var offset := page * limit;
    var totalPage := count as real / limit as real;
    var previousPage := if page > 0 && (page as real) < totalPage + 1.0 then Some(page - 1) else None;
    if page > 0 && (page as real) >= totalPage + 1.0 then FallThrough
    else
      var nextPage := if (page + 1) as real <= totalPage then Some(page + 1) else None;
      Listed(limit, offset, page, previousPage, if nextPage.Some? && nextPage.value != 0 then nextPage else None)
  }

  /** Comparing with a real quotient is comparing products, for a positive divisor. */
  lemma QuotientBounds(x: int, count: int, limit: int)
    requires limit > 0
    ensures (x as real < count as real / limit as real) <==> x * limit < count
    ensures (x as real <= count as real / limit as real) <==> x * limit <= count
  {
    var q := count as real / limit as real;
    assert q * limit as real == count as real;
    assert (x * limit) as real == x as real * limit as real;
  }

  /** The rule over integers alone: a positive page falls through when the pages before it already
      hold every row; otherwise the previous link exists exactly for a positive page and targets the
      page before, and the next link exists exactly when the next page starts inside the rows (and
      its number is not 0) and targets the page after. */
  lemma ListPageByCounting(query: Option<int>, count: nat, limit: int)
    requires limit > 0
    ensures var page := PageOf(query);
      ListPage(query, count, limit).FallThrough? <==> page > 0 && (page - 1) * limit >= count
    ensures var page := PageOf(query);
      var l := ListPage(query, count, limit);
      l.Listed? ==>
        && (l.previous.Some? <==> page > 0)
        && (l.previous.Some? ==> l.previous.value == page - 1)
        && (l.next.Some? <==> (page + 1) * limit <= count && page != -1)
        && (l.next.Some? ==> l.next.value == page + 1)
  {
    var page := PageOf(query);
    QuotientBounds(page - 1, count, limit);
    QuotientBounds(page + 1, count, limit);
    assert (page as real < count as real / limit as real + 1.0) <==> ((page - 1) as real < count as real / limit as real);
  }

  /** Every row of the listing is reachable: on the page holding row `i` the handler answers, and on
      every page before it a next link leads on. */
  lemma RowsReachable(count: nat, limit: int, i: nat)
    requires limit > 0 && i < count
    ensures ListPage(Some(i / limit), count, limit).Listed?
    ensures forall p :: 0 <= p < i / limit ==> ListPage(Some(p), count, limit).Listed? && ListPage(Some(p), count, limit).next == Some(p + 1)
  {
    var page := i / limit;
    PageStart(i, limit);
    ScaledBelow(page - 1, page, limit);
    ListPageByCounting(Some(page), count, limit);
    forall p | 0 <= p < page
      ensures ListPage(Some(p), count, limit).Listed? && ListPage(Some(p), count, limit).next == Some(p + 1)
    {
      ScaledBelow(p + 1, page, limit);
      ScaledBelow(p - 1, p + 1, limit);
      ListPageByCounting(Some(p), count, limit);
    }
  }

  /** The page holding row `i` starts at or before it. */
  lemma PageStart(i: nat, limit: int)
    requires limit > 0
    ensures 0 <= (i / limit) * limit <= i
  {
  }

  lemma ScaledBelow(a: int, b: int, limit: int)
    requires a <= b && limit > 0
    ensures a * limit <= b * limit
  {
  }
}
