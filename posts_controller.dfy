/**
 * The JSON list endpoint of the posts controller: the page, limit and skip of
 * the request (the controller's pagination helper is the same function, text
 * for text, as the admin routes' one) and the page count of the response.
 */
module PostsController {
  import opened Wrappers
  import Admin

  /** The paging part of {items, page, limit, total, pages}, with the skip the query uses. */
  datatype ListPage = ListPage(page: int, limit: int, skip: int, total: nat, pages: int)

  /** list: paginate the request, count the posts, and report ceil(total / limit) pages. */
  function List(pageQ: Option<string>, limitQ: Option<string>, total: nat): (r: ListPage)
    ensures r.page != 0 && r.limit != 0 && r.limit <= Admin.MaxLimit
    ensures r.skip == (r.page - 1) * r.limit
    ensures r.total == total
    ensures r.limit > 0 ==> r.pages >= 0 && (r.pages - 1) * r.limit < total <= r.pages * r.limit
    ensures r.limit < 0 ==> r.pages <= 0
  {
    var p := Admin.BuildPagination(pageQ, limitQ);
    var pages := Admin.Pages(total, p.limit);
    if p.limit > 0 then
      Admin.PagesBounds(total, p.limit);
      ListPage(p.page, p.limit, p.skip, total, pages)
    else
      Admin.PagesOfNegativeLimit(total, p.limit);
      ListPage(p.page, p.limit, p.skip, total, pages)
  }

  /** Without query parameters the first page of 10 is listed. */
  lemma ListDefaults(total: nat)
    ensures var r := List(None, None, total);
      r.page == 1 && r.limit == 10 && r.skip == 0 && r.pages == Admin.Pages(total, 10)
  {
    Admin.PaginationDefaults(None, None);
  }
}
