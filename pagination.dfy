/** Page arithmetic of src/utils/pagination.ts for the conversation-history
    listing: how many pages `totalDocs` documents fill at `limit` per page,
    and which neighbouring pages of `currentPage` exist. */
module Pagination {
  import opened Outcomes
  import opened Arith

  datatype PaginationMetadata = PaginationMetadata(
    totalDocs: nat,
    totalPages: nat,
    currentPage: int,
    nextPage: Option<int>,
    prevPage: Option<int>,
    limit: int)

  /** `Math.ceil(a / b)` for a non-negative `a` and a positive `b`. */
  function CeilDiv(a: nat, b: nat): (q: nat)
    requires b > 0
    ensures q * b >= a
    ensures a > 0 ==> (q - 1) * b < a
    ensures a == 0 ==> q == 0
  {
    var q := (a + b - 1) / b;
    var r := (a + b - 1) % b;
    assert a + b - 1 == q * b + r;
    assert (q - 1) * b == q * b - b;
    q
  }

  /** `getPaginationMetadata`. The division needs a positive `limit`. */
  function GetPaginationMetadata(totalDocs: nat, currentPage: int, limit: int): (m: PaginationMetadata)
    requires limit > 0
    ensures m.totalDocs == totalDocs && m.currentPage == currentPage && m.limit == limit
    ensures m.totalPages >= 1
    ensures totalDocs == 0 ==> m.totalPages == 1
    ensures totalDocs > 0 ==> (m.totalPages - 1) * limit < totalDocs <= m.totalPages * limit
    ensures m.nextPage.Some? <==> currentPage < m.totalPages
    ensures m.nextPage.Some? ==> m.nextPage.value == currentPage + 1
    ensures m.prevPage.Some? <==> currentPage > 1
    ensures m.prevPage.Some? ==> m.prevPage.value == currentPage - 1
  {
    var totalPages := Max(1, CeilDiv(totalDocs, limit));
    PaginationMetadata(
      totalDocs,
      totalPages,
      currentPage,
      if currentPage < totalPages then Some(currentPage + 1) else None,
      if currentPage > 1 then Some(currentPage - 1) else None,
      limit)
  }

  /** `totalPages` is the least page count of at least one whose pages hold
      every document. */
  lemma TotalPagesIsLeast(totalDocs: nat, limit: int, n: int)
    requires limit > 0 && n >= 1 && n * limit >= totalDocs
    ensures GetPaginationMetadata(totalDocs, 1, limit).totalPages <= n
  {
    var t := GetPaginationMetadata(totalDocs, 1, limit).totalPages;
    if totalDocs > 0 && t > n {
      MulMonotone(t - 1, n, limit);
    }
  }

  lemma MulMonotone(a: int, b: int, c: int)
    requires a >= b && c > 0
    ensures a * c >= b * c
  {
    var d := a - b;
    assert d * c >= 0;
    assert a * c == b * c + d * c;
  }

  /** A page past the last one still links back but has no next page. */
  lemma PastTheEnd(totalDocs: nat, currentPage: int, limit: int)
    requires limit > 0
    requires currentPage > GetPaginationMetadata(totalDocs, currentPage, limit).totalPages
    ensures GetPaginationMetadata(totalDocs, currentPage, limit).nextPage == None
    ensures GetPaginationMetadata(totalDocs, currentPage, limit).prevPage == Some(currentPage - 1)
  {
  }

  /** Following `nextPage` and then that page's `prevPage` comes back. */
  lemma NextThenPrev(totalDocs: nat, currentPage: int, limit: int)
    requires limit > 0 && currentPage >= 1
    requires GetPaginationMetadata(totalDocs, currentPage, limit).nextPage.Some?
    ensures var next := GetPaginationMetadata(totalDocs, currentPage, limit).nextPage.value;
      GetPaginationMetadata(totalDocs, next, limit).prevPage == Some(currentPage)
  {
  }

  /** Following `prevPage` from a page that exists and then that page's
      `nextPage` comes back. */
  lemma PrevThenNext(totalDocs: nat, currentPage: int, limit: int)
    requires limit > 0
    requires currentPage <= GetPaginationMetadata(totalDocs, currentPage, limit).totalPages
    requires GetPaginationMetadata(totalDocs, currentPage, limit).prevPage.Some?
    ensures var prev := GetPaginationMetadata(totalDocs, currentPage, limit).prevPage.value;
      GetPaginationMetadata(totalDocs, prev, limit).nextPage == Some(currentPage)
  {
  }
}
