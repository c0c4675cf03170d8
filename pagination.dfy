/** The page arithmetic of the news page: the window of at most five page
    buttons around the current page, the "showing start-end of total" line,
    and the page of rows the list endpoint returns. */
module Pagination {
  import opened Text

  /** `updatePaginationControls`: the first and last page button. The
      window never leaves `1..totalPages`; for a current page inside that
      range it holds it and has `min(5, totalPages)` buttons, centred on it
      whenever there is room; without pages it is empty. */
  method PageWindow(currentPage: int, totalPages: int) returns (startPage: int, endPage: int)
    ensures 1 <= startPage
    ensures endPage <= totalPages
    ensures 1 <= currentPage <= totalPages ==>
              startPage <= currentPage <= endPage && endPage - startPage + 1 == Min(5, totalPages)
    ensures 3 <= currentPage <= totalPages - 2 ==> startPage == currentPage - 2 && endPage == currentPage + 2
    ensures totalPages <= 0 ==> endPage < startPage
  {
    startPage := Max(1, currentPage - 2);
    endPage := Min(totalPages, currentPage + 2);
    if endPage - startPage < 4 {
      if startPage == 1 {
        endPage := Min(totalPages, startPage + 4);
      } else {
        startPage := Max(1, endPage - 4);
      }
    }
  }

  /** A page button: its number and whether it is marked active. */
  datatype PageButton = PageButton(number: int, active: bool)

  /** The buttons the loop over the window creates: consecutive page
      numbers inside `1..totalPages`, the current page's marked active,
      none without pages. */
  method PageButtons(currentPage: int, totalPages: int) returns (buttons: seq<PageButton>)
    ensures totalPages <= 0 ==> buttons == []
    ensures forall k :: 0 <= k < |buttons| ==>
              1 <= buttons[k].number <= totalPages && (buttons[k].active <==> buttons[k].number == currentPage)
    ensures forall k :: 0 < k < |buttons| ==> buttons[k].number == buttons[k - 1].number + 1
    ensures 1 <= currentPage <= totalPages ==>
              |buttons| == Min(5, totalPages) && exists k :: 0 <= k < |buttons| && buttons[k].active
  {
    var startPage, endPage := PageWindow(currentPage, totalPages);
    buttons := [];
    var i := startPage;
    while i <= endPage
      invariant startPage <= i
      invariant i <= endPage + 1 || buttons == []
      invariant |buttons| == i - startPage
      invariant forall k :: 0 <= k < |buttons| ==> buttons[k] == PageButton(startPage + k, startPage + k == currentPage)
      decreases endPage - i
    {
      buttons := buttons + [PageButton(i, i == currentPage)];
      i := i + 1;
    }
    if 1 <= currentPage <= totalPages {
      assert buttons[currentPage - startPage].active;
    }
  }

  /** The text of the pagination line. */
  datatype RangeText = NoNews | Showing(start: int, end: int, total: int)

  /** `updatePaginationInfo`: "showing start-end of total" when there is
      news, the empty message otherwise. */
  function RangeInfo(total: int, page: int, limit: int): (r: RangeText)
    ensures total <= 0 ==> r == NoNews
    ensures total > 0 ==> r.Showing? && r.total == total && r.end <= total
    ensures total > 0 && page >= 1 && limit >= 1 && (page - 1) * limit < total ==>
              1 <= r.start <= r.end && r.end - r.start + 1 == Min(limit, total - (page - 1) * limit)
  {
    if total > 0 then Showing((page - 1) * limit + 1, Min(page * limit, total), total)
    else NoNews
  }

  /** `LIMIT limit OFFSET (page - 1) * limit` over rows already in the
      listing's order: none when the limit or the offset is negative, since
      the query is then refused. */
  function PageSlice<T>(rows: seq<T>, page: int, limit: int): (r: Option<seq<T>>)
    ensures r.None? <==> limit < 0 || (page < 1 && limit > 0)
    ensures r.Some? ==> |r.value| == Max(0, Min(limit, |rows| - (page - 1) * limit))
    ensures r.Some? ==> forall k :: 0 <= k < |r.value| ==> r.value[k] == rows[(page - 1) * limit + k]
  {
    if limit < 0 || (page - 1) * limit < 0 then None
    else
      var offset := (page - 1) * limit;
      if offset >= |rows| then Some([])
      else Some(rows[offset..Min(offset + limit, |rows|)])
  }

  /** The range line describes exactly the rows of the page: its first and
      last numbers are the one-based positions of the page's first and last
      row. */
  lemma RangeMatchesSlice<T>(rows: seq<T>, page: int, limit: int)
    requires page >= 1 && limit >= 1 && (page - 1) * limit < |rows|
    ensures PageSlice(rows, page, limit).Some?
    ensures var n := |PageSlice(rows, page, limit).value|;
            RangeInfo(|rows|, page, limit) == Showing((page - 1) * limit + 1, (page - 1) * limit + n, |rows|)
  {
  }
}
