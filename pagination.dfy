/**
 * The page navigation of the entity grid's pagination bar: the page each of the
 * four buttons moves to, when each button is disabled, and the range of rows
 * the bar reports. Pages are counted from 0; the grid supplies the page, the
 * page count, the page size and the number of rows.
 */
module Pagination {

  function Max(a: int, b: int): (r: int)
    ensures r >= a && r >= b && (r == a || r == b)
  {
    if a >= b then a else b
  }

  function Min(a: int, b: int): (r: int)
    ensures r <= a && r <= b && (r == a || r == b)
  {
    if a <= b then a else b
  }

  /** handleFirst: the first page. */
  function FirstPage(): int
  {
    0
  }

  /** handlePrev: one page back, never before the first page. */
  function PrevPage(page: int): int
  {
    Max(page - 1, 0)
  }

  /** handleNext: one page on, never beyond the last page (which is -1 when there are no pages). */
  function NextPage(page: int, pageCount: int): int
  {
    Min(page + 1, pageCount - 1)
  }

  /** handleLast: the last page. */
  function LastPage(pageCount: int): int
  {
    pageCount - 1
  }

  /** The first and the previous buttons are disabled on the first page. */
  predicate BackDisabled(page: int)
  {
    page == 0
  }

  /** The next and the last buttons are disabled from the last page on. */
  predicate ForwardDisabled(page: int, pageCount: int)
  {
    page >= pageCount - 1
  }

  /** The 1-based number of the first row on the page. */
  function StartRow(page: int, pageSize: int): int
  {
    page * pageSize + 1
  }

  /** The 1-based number of the last row on the page: a full page's worth, cut at the total. */
  function EndRow(page: int, pageSize: int, totalRows: int): int
  {
    Min(StartRow(page, pageSize) + pageSize - 1, totalRows)
  }

  /** A page of a grid with pageCount pages, as the grid reports it. */
  predicate InRange(page: int, pageCount: int)
  {
    0 <= page < pageCount
  }

  /**
   * On a grid with pages, every button leads to a page of the grid: previous
   * and next move by exactly one page unless the move would leave the grid,
   * and then stay put.
   */
  lemma MovesStayInRange(page: int, pageCount: int)
    requires InRange(page, pageCount)
    ensures InRange(FirstPage(), pageCount) && InRange(LastPage(pageCount), pageCount)
    ensures InRange(PrevPage(page), pageCount) && InRange(NextPage(page, pageCount), pageCount)
    ensures PrevPage(page) == if page == 0 then page else page - 1
    ensures NextPage(page, pageCount) == if page == pageCount - 1 then page else page + 1
  {
  }

  /**
   * On a page of the grid, a button is disabled exactly when pressing it would
   * leave the page where it is: first and previous on the first page, next and
   * last on the last page.
   */
  lemma DisabledIffNoMove(page: int, pageCount: int)
    requires InRange(page, pageCount)
    ensures BackDisabled(page) <==> PrevPage(page) == page
    ensures BackDisabled(page) <==> FirstPage() == page
    ensures ForwardDisabled(page, pageCount) <==> NextPage(page, pageCount) == page
    ensures ForwardDisabled(page, pageCount) <==> LastPage(pageCount) == page
  {
  }

  /**
   * On an empty grid (no pages) next and last point at page -1, before the
   * first page, and both are disabled.
   */
  lemma EmptyGridMoves(page: int)
    requires page >= 0
    ensures NextPage(page, 0) == -1 && LastPage(0) == -1
    ensures ForwardDisabled(page, 0)
  {
  }

  /**
   * The reported range: for a page inside the rows it starts right after the
   * rows of the earlier pages, spans at most one page and at least one row, and
   * never runs past the total; the last page is cut at the total. A page at or
   * past the end of the rows (page 0 of an empty grid among them) reports an
   * inverted range ending at the total, such as "1–0 of 0".
   */
  lemma RowRange(page: nat, pageSize: nat, totalRows: nat)
    requires pageSize > 0
    ensures StartRow(page, pageSize) - 1 == page * pageSize
    ensures page * pageSize < totalRows ==>
      StartRow(page, pageSize) <= EndRow(page, pageSize, totalRows) <= totalRows
    ensures page * pageSize < totalRows ==>
      EndRow(page, pageSize, totalRows) - StartRow(page, pageSize) + 1
      == if totalRows - page * pageSize < pageSize then totalRows - page * pageSize else pageSize
    ensures page * pageSize >= totalRows ==>
      EndRow(page, pageSize, totalRows) == totalRows < StartRow(page, pageSize)
    ensures totalRows == 0 && page == 0 ==> StartRow(page, pageSize) == 1 && EndRow(page, pageSize, totalRows) == 0
  {
  }

  /** Consecutive pages report adjacent ranges: the next page starts right after a full page ends. */
  lemma {:induction false} RangesAdjacent(page: nat, pageSize: nat, totalRows: nat)
    requires (page + 1) * pageSize <= totalRows
    ensures EndRow(page, pageSize, totalRows) + 1 == StartRow(page + 1, pageSize)
  {
    assert (page + 1) * pageSize == page * pageSize + pageSize;
  }
}
