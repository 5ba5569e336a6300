/** The infinite query behind the repository list: pages of ten, numbered
    from 1, with the next page number derived from the pages loaded so far. */
module RepositoryPaging {
  import opened Records

  const PerPage := 10
  const InitialPageParam := 1

  /** `queryFn({ pageParam })`: the page and the page size asked for. */
  function PageRequest(pageParam: Option<int>): (r: (int, int))
    ensures r.1 == PerPage
    ensures pageParam.None? ==> r.0 == InitialPageParam
    ensures pageParam.Some? ==> r.0 == pageParam.value
  {
    (if pageParam.Some? then pageParam.value else InitialPageParam, 10)
  }

  /** `getNextPageParam(lastPage, allPages)`: no next page after a short page;
      otherwise the page after the ones loaded. */
  function NextPageParam<T>(lastPage: seq<T>, allPages: seq<seq<T>>): (r: Option<int>)
    ensures r.None? <==> |lastPage| < PerPage
    ensures r.Some? ==> r.value == |allPages| + 1
    ensures r.Some? ==> r.value > |allPages|
  {
    if |lastPage| < PerPage then None else Some(|allPages| + 1)
  }

  /** The pages of a query loaded one after another: the first with the initial
      page number, each later one with the number `NextPageParam` gave after the
      pages before it, which therefore were all full. */
  ghost predicate LoadedInOrder<T>(pages: seq<seq<T>>, params: seq<int>) {
    && |params| == |pages| > 0
    && params[0] == InitialPageParam
    && forall k :: 0 < k < |pages| ==> NextPageParam(pages[k - 1], pages[..k]) == Some(params[k])
  }

  /** Pages loaded this way are numbered 1, 2, 3, ... with none skipped or
      repeated, and every page but the last is full. */
  lemma {:induction false} LoadedPagesAreConsecutive<T>(pages: seq<seq<T>>, params: seq<int>)
    requires LoadedInOrder(pages, params)
    ensures forall k :: 0 <= k < |params| ==> params[k] == k + 1
    ensures forall k :: 0 <= k < |pages| - 1 ==> |pages[k]| >= PerPage
  {
    forall k | 0 <= k < |params|
      ensures params[k] == k + 1
    {
      if k > 0 {
        assert NextPageParam(pages[k - 1], pages[..k]) == Some(params[k]);
      }
    }
    forall k | 0 <= k < |pages| - 1
      ensures |pages[k]| >= PerPage
    {
      assert NextPageParam(pages[k], pages[..k + 1]).Some?;
    }
  }
}
