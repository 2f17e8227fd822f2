/**
 * The sorting and paging parameters `render_admin_page` derives from the
 * query string before it queries the table: whitelisted column and
 * direction, a current page of at least one, and page arithmetic over a
 * fixed page size.
 */
module AdminList {
  import opened Wrappers
  import WordPress

  const PerPage: nat := 20
  const OrderByColumns: seq<string> := ["id", "name", "email", "created_at"]
  const DefaultOrderBy: string := "created_at"
  const Directions: seq<string> := ["ASC", "DESC"]
  const DefaultDirection: string := "DESC"

  /** The query-string parameters, `paged` already passed through `intval`. */
  datatype ListRequest = ListRequest(paged: Option<int>, orderBy: Option<string>, order: Option<string>)

  /** What ends up in `ORDER BY {orderBy} {order} LIMIT 20 OFFSET {offset}`. */
  datatype ListQuery = ListQuery(orderBy: string, order: string, currentPage: int, offset: int)

  /** `in_array` whitelisting: a value outside `allowed` is replaced by `fallback`. */
  function Whitelist(value: string, allowed: seq<string>, fallback: string): (r: string)
    requires fallback in allowed
    ensures r in allowed
    ensures value in allowed ==> r == value
    ensures value !in allowed ==> r == fallback
  {
    if value in allowed then value else fallback
  }

  /** `max(1, intval($_GET['paged']))`, or 1 when `paged` is absent. */
  function CurrentPage(paged: Option<int>): (page: int)
    ensures page >= 1
    ensures paged.Some? && paged.value >= 1 ==> page == paged.value
    ensures paged.None? || paged.value < 1 ==> page == 1
  {
    if paged.Some? && paged.value > 1 then paged.value else 1
  }

  /** Index of the first row of `page`. */
  function Offset(page: int): (offset: int)
    ensures page >= 1 ==> offset >= 0
    ensures offset % PerPage == 0
    ensures offset + PerPage == page * PerPage
  {
    (page - 1) * PerPage
  }

  /** `ceil(total_items / 20)`: the fewest pages of 20 that hold every item. */
  function TotalPages(totalItems: nat): (pages: nat)
    ensures pages * PerPage >= totalItems
    ensures pages > 0 ==> (pages - 1) * PerPage < totalItems
  {
    (totalItems + PerPage - 1) / PerPage
  }

  /**
   * The normalised listing parameters: the sort column and direction always
   * come from the whitelists (so only eight ORDER BY clauses can be built),
   * the page is the requested one, or 1 when it is absent or below 1, and the
   * offset addresses the first row of that page.
   */
  function Normalise(req: ListRequest, wp: WordPress.Api): (q: ListQuery)
    ensures q.orderBy in OrderByColumns && q.order in Directions
    ensures req.orderBy.None? ==> q.orderBy == DefaultOrderBy
    ensures req.orderBy.Some? ==>
      q.orderBy == Whitelist(wp.sanitizeTextField(req.orderBy.value), OrderByColumns, DefaultOrderBy)
    ensures req.order.None? ==> q.order == DefaultDirection
    ensures req.order.Some? ==>
      q.order == Whitelist(wp.sanitizeTextField(req.order.value), Directions, DefaultDirection)
    ensures q.currentPage == CurrentPage(req.paged)
    ensures req.paged.Some? && req.paged.value >= 1 ==> q.currentPage == req.paged.value
    ensures req.paged.None? || req.paged.value < 1 ==> q.currentPage == 1
    ensures q.currentPage >= 1 && q.offset >= 0 && q.offset % PerPage == 0
    ensures q.offset == Offset(q.currentPage)
  {
    var page := CurrentPage(req.paged);
    var orderBy := if req.orderBy.Some? then wp.sanitizeTextField(req.orderBy.value) else DefaultOrderBy;
    var order := if req.order.Some? then wp.sanitizeTextField(req.order.value) else DefaultDirection;
    ListQuery(
      Whitelist(orderBy, OrderByColumns, DefaultOrderBy),
      Whitelist(order, Directions, DefaultDirection),
      page,
      Offset(page))
  }

  /** Item `k` lies on page `k / 20 + 1`, and that page is among the `TotalPages` pages the listing links to. */
  lemma ItemPage(totalItems: nat, k: nat)
    requires k < totalItems
    ensures var page := k / PerPage + 1;
            Offset(page) <= k < Offset(page) + PerPage && 1 <= page <= TotalPages(totalItems)
  {
  }

  /** No other page holds item `k`: the pages do not overlap. */
  lemma PageOfItemUnique(k: nat, page: int)
    requires page >= 1 && Offset(page) <= k < Offset(page) + PerPage
    ensures page == k / PerPage + 1
  {
  }
}
