/** The paginator service: `getPagination` turns the `page` and `size` query parameters into an ORM
    limit and offset; `getPagingData` wraps a page of rows with its totals and the numbers of the
    pages its "next page" and "previous page" links point to. */
module Paginator {
  import opened Js

  /** A numeric query parameter: `Some(n)` for a given numeric string, `None` when it is absent or empty. */
  type Param = Option<int>

  /** `page ? +page : 0` */
  function PageNumber(page: Param): int {
    if page.Some? then page.value else 0
  }

  datatype Pagination = Pagination(limit: int, offset: int)

  /** `getPagination(page, size)`: the page size defaults to 3, and the offset skips every row of the
      pages before the requested one. */
  function GetPagination(page: Param, size: Param): (p: Pagination)
    ensures size.None? ==> p.limit == 3
    ensures size.Some? ==> p.limit == size.value
    ensures p.offset == PageNumber(page) * p.limit
  {
    var limit := if size.Some? then size.value else 3;
    var offset := if page.Some? then page.value * limit else 0;
    Pagination(limit, offset)
  }

  /** `Math.ceil(x)` */
  function Ceil(x: real): int {
    -((-x).Floor)
  }

  /** `Math.ceil(a / b)` for a positive divisor is the least multiple count that covers `a`. */
  lemma CeilOfQuotient(a: int, b: int)
    requires b > 0
    ensures (Ceil(a as real / b as real) - 1) * b < a <= Ceil(a as real / b as real) * b
  {
    var q := a as real / b as real;
    var c := Ceil(q);
    assert q * b as real == a as real;
    assert (c - 1) as real < q <= c as real;
    assert ((c - 1) * b) as real == (c - 1) as real * b as real;
    assert (c * b) as real == c as real * b as real;
  }

  datatype PagingData<T> = PagingData(totalItems: int, totalPages: int, currentPage: int, rows: seq<T>,
                                      nextPage: int, previousPage: Option<int>)

  /** `getPagingData({ count }, rows, url, page, limit)`: `totalPages` is the index of the last page
      (-1 when there is no row), the "next page" link is always there and points one page on, the
      "previous page" link exists exactly when the current page is past the first. */
  function GetPagingData<T>(count: int, rows: seq<T>, page: Param, limit: int): (d: PagingData<T>)
    requires limit > 0
    ensures d.totalItems == count && d.rows == rows && d.currentPage == PageNumber(page)
    ensures d.totalPages * limit < count <= (d.totalPages + 1) * limit
    ensures d.nextPage == d.currentPage + 1
    ensures d.previousPage.Some? <==> d.currentPage > 0
    ensures d.previousPage.Some? ==> d.previousPage.value == d.currentPage - 1
  {
    var currentPage := PageNumber(page);
    var totalPages := Ceil(count as real / limit as real) - 1;
    CeilOfQuotient(count, limit);
    PagingData(count, totalPages, currentPage, rows, currentPage + 1,
               if currentPage > 0 then Some(currentPage - 1) else None)
  }
}
