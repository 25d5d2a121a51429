/**
 * The list fetch hook: it requests pages 0, 1, 2, … of 100 entries with the
 * filter, one after another, and either keeps the first page (fetchAll off) or
 * collects every page until the server's page count is reached. A failed
 * response ends the loop with no data. The server's answers are a function of
 * the page number, and the moment the effect is cleaned up is the page whose
 * request is in flight at that time: cleanup can only run while the loop
 * awaits a response.
 */
module UseFetchEntityList {
  import opened Common

  const PageSize: nat := 100

  /** One call of fetchPagedList({filter, page, size}). */
  datatype PageRequest = PageRequest(filter: string, page: nat, size: nat)

  /** A list response: its status, its data (null is None) and the server's page count. */
  datatype PageResponse<E> = PageResponse(success: bool, data: Option<seq<E>>, totalPages: int)

  /** The response counts as data: status "success" and data present (an empty array is present). */
  predicate Delivered<E>(r: PageResponse<E>)
  {
    r.success && r.data.Some?
  }

  /**
   * Whether the loop ends with page k: cleanup ran while k was requested, the
   * response failed, only one page is wanted, or k was the server's last page.
   */
  predicate Stops<E>(server: nat -> PageResponse<E>, fetchAll: bool, cancelAt: nat, k: nat)
  {
    k >= cancelAt || !Delivered(server(k)) || !fetchAll || server(k).totalPages <= k + 1
  }

  /** The last page requested, starting from page k. */
  function LastPage<E>(server: nat -> PageResponse<E>, fetchAll: bool, cancelAt: nat, k: nat): (last: nat)
    decreases cancelAt - k
  {
    if Stops(server, fetchAll, cancelAt, k) then k else LastPage(server, fetchAll, cancelAt, k + 1)
  }

  /** The requests for pages 0 to n - 1, in that order. */
  function Requests(filter: string, n: nat): (r: seq<PageRequest>)
    ensures |r| == n
    ensures forall i :: 0 <= i < n ==> r[i] == PageRequest(filter, i, PageSize)
  {
    if n == 0 then [] else Requests(filter, n - 1) + [PageRequest(filter, n - 1, PageSize)]
  }

  function DataOf<E>(r: PageResponse<E>): seq<E>
  {
    if r.data.Some? then r.data.value else []
  }

  /** The entries of pages 0 to n - 1, concatenated in page order. */
  function PageItems<E>(server: nat -> PageResponse<E>, n: nat): seq<E>
  {
    if n == 0 then [] else PageItems(server, n - 1) + DataOf(server(n - 1))
  }

  /**
   * The hook's isFetching and data once the loop has ended: still fetching
   * with no data when cleanup stopped it, no data after a failure, the first
   * page without fetchAll, and every page's entries with it.
   */
  function Final<E>(server: nat -> PageResponse<E>, fetchAll: bool, cancelAt: nat): (bool, Option<seq<E>>)
  {
    var last := LastPage(server, fetchAll, cancelAt, 0);
    if last >= cancelAt then (true, None)
    else if !Delivered(server(last)) then (false, None)
    else if !fetchAll then (false, server(last).data)
    else (false, Some(PageItems(server, last + 1)))
  }

  /** The loop ends with the first page from k on at which it stops: it goes on past every page before. */
  lemma {:induction false} LastPageMeaning<E>(server: nat -> PageResponse<E>, fetchAll: bool, cancelAt: nat, k: nat)
    ensures k <= LastPage(server, fetchAll, cancelAt, k)
    ensures Stops(server, fetchAll, cancelAt, LastPage(server, fetchAll, cancelAt, k))
    ensures forall i :: k <= i < LastPage(server, fetchAll, cancelAt, k) ==> !Stops(server, fetchAll, cancelAt, i)
    ensures LastPage(server, fetchAll, cancelAt, k) <= cancelAt || k > cancelAt
    decreases cancelAt - k
  {
    if !Stops(server, fetchAll, cancelAt, k) {
      LastPageMeaning(server, fetchAll, cancelAt, k + 1);
    }
  }

  /** Without fetchAll only page 0 is requested, and its data is kept when it arrives. */
  lemma SinglePage<E>(server: nat -> PageResponse<E>, cancelAt: nat)
    ensures LastPage(server, false, cancelAt, 0) == 0
    ensures cancelAt > 0 && Delivered(server(0)) ==> Final(server, false, cancelAt) == (false, server(0).data)
  {
  }

  /**
   * With fetchAll, when every page arrives and no cleanup intervenes, the
   * entries are those of every page up to the first whose page count says it
   * is the last, in order.
   */
  lemma AllPages<E>(server: nat -> PageResponse<E>, cancelAt: nat, last: nat)
    requires last < cancelAt
    requires forall i :: 0 <= i <= last ==> Delivered(server(i))
    requires forall i :: 0 <= i < last ==> server(i).totalPages > i + 1
    requires server(last).totalPages <= last + 1
    ensures LastPage(server, true, cancelAt, 0) == last
    ensures Final(server, true, cancelAt) == (false, Some(PageItems(server, last + 1)))
  {
    LastPageMeaning(server, true, cancelAt, 0);
    forall i | 0 <= i < last
      ensures !Stops(server, true, cancelAt, i)
    {
      assert Delivered(server(i)) && server(i).totalPages > i + 1;
    }
    assert Stops(server, true, cancelAt, last);
  }

  /**
   * A failed response ends the loop with no data, so the hook lists nothing;
   * cleanup leaves it with no data and still fetching; otherwise fetching ends.
   */
  lemma FailureListsNothing<E>(server: nat -> PageResponse<E>, fetchAll: bool, cancelAt: nat)
    ensures var last := LastPage(server, fetchAll, cancelAt, 0);
      (last < cancelAt && !Delivered(server(last)) ==> Final(server, fetchAll, cancelAt) == (false, None))
      && (Final(server, fetchAll, cancelAt).0 <==> last >= cancelAt)
      && (last >= cancelAt ==> Final(server, fetchAll, cancelAt).1 == None)
  {
  }

  /** Earlier pages' entries come first: the entries of the first m pages are a prefix of those of the first n. */
  lemma {:induction false} ItemsPrefix<E>(server: nat -> PageResponse<E>, m: nat, n: nat)
    requires m <= n
    ensures PageItems(server, m) <= PageItems(server, n)
    ensures |PageItems(server, n)| >= |PageItems(server, m)|
    decreases n
  {
    if m < n {
      ItemsPrefix(server, m, n - 1);
    }
  }

  /** The state of the hook: isFetching, data (null is None) and the page requests made so far. */
  class EntityListHook<E> {
    var isFetching: bool
    var data: Option<seq<E>>
    var requests: seq<PageRequest>

    constructor()
      ensures !isFetching && data == None && requests == []
    {
      isFetching := false;
      data := None;
      requests := [];
    }

    /** items: the data, or [] while there is none. */
    function Items(): seq<E>
      reads this
    {
      if data.Some? then data.value else []
    }

    /** The effect for one filter: isFetching on, data cleared, then the page loop. */
    method FetchData(filter: string, fetchAll: bool, server: nat -> PageResponse<E>, cancelAt: nat)
      modifies this
      ensures requests == old(requests) + Requests(filter, LastPage(server, fetchAll, cancelAt, 0) + 1)
      ensures (isFetching, data) == Final(server, fetchAll, cancelAt)
    {
      isFetching := true;
      data := None;
      var fetching := true;
      var didCancel := false;
      var currentPage: nat := 0;
      var items: seq<E> := [];
      while !didCancel && fetching
        invariant currentPage <= cancelAt
        invariant !didCancel && fetching ==>
          LastPage(server, fetchAll, cancelAt, 0) == LastPage(server, fetchAll, cancelAt, currentPage)
          && requests == old(requests) + Requests(filter, currentPage)
          && items == PageItems(server, currentPage)
          && isFetching && data == None && (currentPage > 0 ==> fetchAll)
        invariant !(!didCancel && fetching) ==>
          requests == old(requests) + Requests(filter, LastPage(server, fetchAll, cancelAt, 0) + 1)
          && (isFetching, data) == Final(server, fetchAll, cancelAt)
        decreases if !didCancel && fetching then 1 else 0, cancelAt - currentPage
      {
        var response := server(currentPage);
        requests := requests + [PageRequest(filter, currentPage, PageSize)];
        didCancel := currentPage >= cancelAt;
        if Delivered(response) && !didCancel {
          if !fetchAll {
            isFetching := false;
            data := response.data;
            fetching := false;
          } else {
            items := items + response.data.value;
            if response.totalPages > currentPage + 1 {
              currentPage := currentPage + 1;
            } else {
              data := Some(items);
              isFetching := false;
              fetching := false;
            }
          }
        } else if !didCancel {
          fetching := false;
          isFetching := false;
        }
      }
    }
  }
}
