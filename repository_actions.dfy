/** `fetchRepositories`: one page of the provider's repositories, each marked
    with whether the caller has connected it. */
module RepositoryActions {
  import opened Records

  const DefaultPage := 1
  const DefaultPerPage := 10
  const UnauthorizedError := "unauthorized"

  /** A repository as the provider lists it; `isConnected` is the field the
      action adds (absent on the provider's own objects). */
  datatype GitHubRepo = GitHubRepo(
    id: int,
    name: string,
    fullName: string,
    description: Option<string>,
    htmlUrl: string,
    stars: int,
    language: Option<string>,
    topics: seq<string>,
    isConnected: Option<bool>)

  /** The action returns the list, or throws: `unauthorized` without a
      session, or whatever the provider's call threw. */
  datatype Fetched = Listed(repos: seq<GitHubRepo>) | Threw(error: FetchError)

  datatype FetchError = Unauthorized(message: string) | ProviderFailed

  /** The `githubId`s of the caller's stored rows. */
  function ConnectedIds(rows: seq<Repository>, user: UserId): (ids: set<int>)
    ensures forall id :: id in ids <==> exists row :: row in rows && row.userId == user && row.githubId == id
  {
    set row | row in Owned(rows, user) :: row.githubId
  }

  /** `{ ...repo, isConnected }` for every provider repo, in order. */
  function Annotate(repos: seq<GitHubRepo>, ids: set<int>): (r: seq<GitHubRepo>)
    ensures |r| == |repos|
    ensures forall i :: 0 <= i < |repos| ==> r[i] == repos[i].(isConnected := Some(repos[i].id in ids))
  {
    seq(|repos|, i requires 0 <= i < |repos| => repos[i].(isConnected := Some(repos[i].id in ids)))
  }

  /** The page and page size used when the arguments are omitted. */
  function PageOrDefault(page: Option<int>): int {
    if page.Some? then page.value else DefaultPage
  }

  function PerPageOrDefault(perPage: Option<int>): int {
    if perPage.Some? then perPage.value else DefaultPerPage
  }

  /** `fetchRepositories(page?, perPage?)`: `listRepos(page, perPage)` is the
      provider's `getRepositories`, absent when that call throws; `rows` is the
      repository table. Without a session it throws `unauthorized` whatever the
      provider and the table hold, and a throwing provider call is not caught.
      Otherwise the list has the provider's length and order, every field but
      `isConnected` is copied, and `isConnected` says whether one of the
      caller's rows, never another user's, has that `githubId`. */
  function FetchRepositories(session: Option<UserId>, page: Option<int>, perPage: Option<int>,
                             listRepos: (int, int) -> Option<seq<GitHubRepo>>, rows: seq<Repository>): (f: Fetched)
    ensures session.None? ==> f == Threw(Unauthorized(UnauthorizedError))
    ensures session.Some? && listRepos(PageOrDefault(page), PerPageOrDefault(perPage)).None? ==>
      f == Threw(ProviderFailed)
    ensures session.Some? && listRepos(PageOrDefault(page), PerPageOrDefault(perPage)).Some? ==>
      var repos := listRepos(PageOrDefault(page), PerPageOrDefault(perPage)).value;
      && f.Listed? && |f.repos| == |repos|
      && forall i :: 0 <= i < |repos| ==>
           && f.repos[i].(isConnected := repos[i].isConnected) == repos[i]
           && f.repos[i].isConnected ==
                Some(exists row :: row in rows && row.userId == session.value && row.githubId == repos[i].id)
  {
    if session.None? then Threw(Unauthorized(UnauthorizedError))
    else
      var listed := listRepos(PageOrDefault(page), PerPageOrDefault(perPage));
      if listed.None? then Threw(ProviderFailed)
      else Listed(Annotate(listed.value, ConnectedIds(rows, session.value)))
  }

  /** Omitted arguments ask the provider for the first page of ten. */
  lemma DefaultsAreFirstPageOfTen(session: UserId, listRepos: (int, int) -> Option<seq<GitHubRepo>>, rows: seq<Repository>)
    ensures FetchRepositories(Some(session), None, None, listRepos, rows)
         == FetchRepositories(Some(session), Some(1), Some(10), listRepos, rows)
  {
  }
}
