/** The page arithmetic shared by the request list (5 rows a page, at most 30
    rows) and the notification list (8 rows a page, no cap), and the page
    fix-up after a notification is deleted. */
module Paging {

  const RequestsPerPage: nat := 5
  const RequestsCap: nat := 30
  const NotificationsPerPage: nat := 8

  /** `(count + per_page - 1) // per_page`, the ceiling of count / per_page. */
  function TotalPages(count: nat, perPage: nat): (n: nat)
    requires perPage > 0
    ensures count == 0 ==> n == 0
    ensures count > 0 ==> n >= 1 && (n - 1) * perPage < count <= n * perPage
  {
    var n := (count + perPage - 1) / perPage;
    var r := (count + perPage - 1) % perPage;
    assert count + perPage - 1 == n * perPage + r;
    assert (n - 1) * perPage == n * perPage - perPage;
    n
  }

  /** `if page < 1: page = 1` then `if page > total_pages: page = total_pages`. */
  function ClampPage(page: int, total: nat): (p: int)
    requires total >= 1
    ensures 1 <= p <= total
    ensures 1 <= page <= total ==> p == page
    ensures page < 1 ==> p == 1
    ensures page > total ==> p == total
  {
    var p := if page < 1 then 1 else page;
    if p > total then total else p
  }

  /** Where one page of a listing sits, as the list handlers compute it. */
  datatype Window = Window(page: nat, totalPages: nat, offset: nat)

  /** The page shown for a request `page` over `count` rows (count > 0, so
      the empty-list message is not the case). */
  function Paginate(count: nat, perPage: nat, page: int): (w: Window)
    requires count > 0 && perPage > 0
    ensures 1 <= w.page <= w.totalPages
    ensures w.totalPages == TotalPages(count, perPage)
    ensures w.offset == (w.page - 1) * perPage
    ensures w.offset < count
    ensures 1 <= page <= w.totalPages ==> w.page == page
  {
    var total := TotalPages(count, perPage);
    var p := ClampPage(page, total);
    assert (p - 1) * perPage <= (total - 1) * perPage;
    Window(p, total, (p - 1) * perPage)
  }

  /** The request list caps the count at 30 before paging, so no page reaches
      past the 30th row: every slot of every page is below the cap. */
  lemma RequestWindowBelowCap(matched: nat, page: int, i: nat)
    requires matched > 0
    requires i < RequestsPerPage
    ensures Paginate(Min(matched, RequestsCap), RequestsPerPage, page).offset + i < RequestsCap
  {
    var w := Paginate(Min(matched, RequestsCap), RequestsPerPage, page);
    assert w.totalPages <= 6;
    assert w.page <= 6;
  }

  function Min(a: nat, b: nat): nat { if a < b then a else b }

  /** The pagination row: it exists only when there is more than one page;
      then it holds the previous page (if not on the first), the current page,
      and the next page (if not on the last). */
  function NavTargets(count: nat, perPage: nat, w: Window): (targets: seq<nat>)
    requires perPage > 0
  {
    if count > perPage then
      (if w.page > 1 then [w.page - 1] else []) + [w.page] + (if w.page < w.totalPages then [w.page + 1] else [])
    else []
  }

  lemma NavTargetsInRange(count: nat, perPage: nat, page: int)
    requires count > 0 && perPage > 0
    ensures var w := Paginate(count, perPage, page);
            var t := NavTargets(count, perPage, w);
            && (count <= perPage <==> t == [])
            && (forall i :: 0 <= i < |t| ==> 1 <= t[i] <= w.totalPages)
            && (count > perPage ==> (w.page - 1 in t <==> w.page > 1) && (w.page + 1 in t <==> w.page < w.totalPages))
  {
  }

  /** `if (page - 1) * per_page >= count: page = total_pages` after a delete. */
  function PageAfterDelete(page: int, count: nat): int {
    if (page - 1) * NotificationsPerPage >= count then TotalPages(count, NotificationsPerPage) else page
  }

  /** After a delete that leaves `count > 0` rows, a page that ran past the
      end moves to the last page, a page that still has rows stays, and either
      way the page shown is not empty. */
  lemma PageAfterDeleteShowsRows(page: int, count: nat)
    requires count > 0 && page >= 1
    ensures var p := PageAfterDelete(page, count);
            && 1 <= p <= TotalPages(count, NotificationsPerPage)
            && (p - 1) * NotificationsPerPage < count
            && ((page - 1) * NotificationsPerPage < count ==> p == page)
  {
  }
}
