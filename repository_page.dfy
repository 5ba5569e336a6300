/** The repository page: the loaded pages flattened into one list, the search
    filter over it, the arguments of a connect request, which Connect buttons
    are disabled, and when scrolling to the end loads the next page. */
module RepositoryPage {
  import opened Records
  import Text
  import opened RepositoryActions
  import RepositoryPaging

  /** The pages concatenated in order. */
  function Concat(pages: seq<seq<GitHubRepo>>): (r: seq<GitHubRepo>)
    ensures forall x :: x in r <==> exists p :: p in pages && x in p
    decreases |pages|
  {
    if |pages| == 0 then []
    else
      assert forall p :: p in pages <==> p == pages[0] || p in pages[1..];
      pages[0] + Concat(pages[1..])
  }

  /** Loading one more page appends its repositories at the end. */
  lemma {:induction false} ConcatAppend(pages: seq<seq<GitHubRepo>>, page: seq<GitHubRepo>)
    ensures Concat(pages + [page]) == Concat(pages) + page
    decreases |pages|
  {
    if |pages| == 0 {
      assert pages + [page] == [page];
      assert Concat([page][1..]) == [];
    } else {
      assert (pages + [page])[1..] == pages[1..] + [page];
      ConcatAppend(pages[1..], page);
    }
  }

  /** `allRepositories`: every loaded page in order, or nothing before any data. */
  function AllRepositories(data: Option<seq<seq<GitHubRepo>>>): (r: seq<GitHubRepo>)
    ensures data.None? ==> r == []
    ensures data.Some? ==> forall x :: x in r <==> exists p :: p in data.value && x in p
  {
    if data.None? then [] else Concat(data.value)
  }

  /** The lower-cased `name` or `full_name` contains the lower-cased query;
      a query longer than both never matches. */
  predicate Matches(repo: GitHubRepo, query: string)
    ensures Matches(repo, query) ==> |query| <= |repo.name| || |query| <= |repo.fullName|
  {
    Text.Contains(Text.Lower(repo.name), Text.Lower(query)) ||
    Text.Contains(Text.Lower(repo.fullName), Text.Lower(query))
  }

  /** `a` is `b` with some elements left out, order kept. */
  predicate IsSubsequence(a: seq<GitHubRepo>, b: seq<GitHubRepo>)
    decreases |b|
  {
    |a| == 0 || (|b| > 0 && ((a[0] == b[0] && IsSubsequence(a[1..], b[1..])) || IsSubsequence(a, b[1..])))
  }

  /** `filteredRepositories`: the matching repositories, in order, each as often
      as it occurs in the list. */
  function FilterRepositories(repos: seq<GitHubRepo>, query: string): (r: seq<GitHubRepo>)
    ensures IsSubsequence(r, repos)
    ensures forall x :: multiset(r)[x] == if Matches(x, query) then multiset(repos)[x] else 0
    decreases |repos|
  {
    if |repos| == 0 then []
    else
      var rest := FilterRepositories(repos[1..], query);
      assert repos == [repos[0]] + repos[1..];
      if Matches(repos[0], query) then
        assert ([repos[0]] + rest)[1..] == rest;
        [repos[0]] + rest
      else rest
  }

  /** An empty search keeps every repository. */
  lemma {:induction false} EmptyQueryKeepsAll(repos: seq<GitHubRepo>)
    ensures FilterRepositories(repos, "") == repos
    decreases |repos|
  {
    if |repos| > 0 {
      Text.ContainsEmpty(Text.Lower(repos[0].name));
      assert Text.Lower("") == "";
      EmptyQueryKeepsAll(repos[1..]);
    }
  }

  /** The arguments of the connect mutation. */
  datatype ConnectRequest = ConnectRequest(owner: string, repo: string, githubId: int)

  /** `handleConnect`'s request: the owner is the text of `full_name` before the
      first `/`, the repo its `name`, the provider id its `id`. */
  function ConnectRequestFor(repo: GitHubRepo): (c: ConnectRequest)
    ensures c.owner == Text.Before(repo.fullName, '/')
    ensures c.repo == repo.name && c.githubId == repo.id
  {
    Text.FirstPieceIsBefore(repo.fullName, '/');
    ConnectRequest(Text.Split(repo.fullName, '/')[0], repo.name, repo.id)
  }

  /** The Connect button is disabled while this repository is connecting or once it is connected. */
  predicate ConnectDisabled(connectingId: Option<int>, repo: GitHubRepo)
    ensures repo.isConnected == Some(true) ==> ConnectDisabled(connectingId, repo)
    ensures connectingId.None? ==> (ConnectDisabled(connectingId, repo) <==> repo.isConnected == Some(true))
  {
    connectingId == Some(repo.id) || repo.isConnected == Some(true)
  }

  /** The observer asks for the next page only when the sentinel is visible,
      there is a next page and no page is being fetched. */
  predicate ShouldFetchNextPage(isIntersecting: bool, hasNextPage: bool, isFetchingNextPage: bool)
    ensures ShouldFetchNextPage(isIntersecting, hasNextPage, isFetchingNextPage) ==> hasNextPage && !isFetchingNextPage
  {
    isIntersecting && hasNextPage && !isFetchingNextPage
  }

  /** Whether the query has a next page, from the pages loaded so far. */
  predicate HasNextPage(pages: seq<seq<GitHubRepo>>) {
    |pages| > 0 && RepositoryPaging.NextPageParam(pages[|pages| - 1], pages).Some?
  }

  /** After a short page, or while a page is loading, scrolling loads nothing. */
  lemma NoFetchAfterShortPageOrWhileFetching(pages: seq<seq<GitHubRepo>>, isIntersecting: bool, isFetchingNextPage: bool)
    requires (|pages| > 0 && |pages[|pages| - 1]| < RepositoryPaging.PerPage) || isFetchingNextPage
    ensures !ShouldFetchNextPage(isIntersecting, HasNextPage(pages), isFetchingNextPage)
  {
  }

  /** The page's local state: the repository being connected, and the connect
      requests sent so far. */
  class RepositoryPageState {
    var connectingId: Option<int>
    var requests: seq<ConnectRequest>

    constructor ()
      ensures connectingId == None && requests == []
    {
      connectingId := None;
      requests := [];
    }

    /** `handleConnect(repo)`: mark the repository as connecting, then send the request. */
    method HandleConnect(repo: GitHubRepo)
      modifies this
      ensures connectingId == Some(repo.id)
      ensures requests == old(requests) + [ConnectRequestFor(repo)]
      ensures ConnectDisabled(connectingId, repo)
    {
      connectingId := Some(repo.id);
      requests := requests + [ConnectRequestFor(repo)];
    }

    /** `onSettled`: the request finished, successfully or not. */
    method Settle()
      modifies this`connectingId
      ensures connectingId == None
      ensures forall repo :: ConnectDisabled(connectingId, repo) <==> repo.isConnected == Some(true)
    {
      connectingId := None;
    }
  }
}
