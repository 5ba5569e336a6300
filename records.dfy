/** The persisted rows the server code reads and writes (users, connected
    repositories, OAuth accounts), the webhooks registered with the
    hosting provider, and the backend object holding the tables the actions change. */
module Records {

  datatype Option<T> = None | Some(value: T)

  type UserId = string
  type RepoId = string

  datatype Tier = Free | Pro
  datatype Status = Active | Cancelled | Expired

  datatype User = User(
    id: UserId,
    name: string,
    email: string,
    image: Option<string>,
    createdAt: int,
    subscriptionTier: Tier,
    subscriptionStatus: Option<Status>,
    subscriptionId: Option<string>,
    polarCustomerId: Option<string>)

  /** A connected repository; `githubId` is the provider's numeric id. */
  datatype Repository = Repository(
    id: RepoId,
    githubId: int,
    owner: string,
    name: string,
    fullName: string,
    url: string,
    userId: UserId,
    createdAt: int)

  /** The OAuth account of a user with one provider. */
  datatype Account = Account(userId: UserId, providerId: string, accessToken: Option<string>)

  /** A webhook registered with the provider, addressed by `(owner, name)`. */
  datatype Hook = Hook(owner: string, name: string)

  function HookOf(r: Repository): Hook {
    Hook(r.owner, r.name)
  }

  /** The externally visible steps of the disconnect actions, in the order they happen. */
  datatype Effect =
    | WebhookDeleted(hook: Hook)
    | WebhookDeleteFailed(hook: Hook)
    | RowDeleted(id: RepoId)
    | RowsDeleted(userId: UserId, count: nat)

  /** Primary keys and unique columns of the user table. */
  ghost predicate UniqueUsers(users: seq<User>) {
    && (forall i, j :: 0 <= i < j < |users| ==> users[i].id != users[j].id)
    && (forall i, j :: 0 <= i < j < |users| ==> users[i].email != users[j].email)
    && (forall i, j :: 0 <= i < j < |users| && users[i].polarCustomerId.Some? ==>
          users[i].polarCustomerId != users[j].polarCustomerId)
  }

  /** Two rows that share the primary key or the `(userId, githubId)` pair. */
  predicate Clash(a: Repository, b: Repository) {
    a.id == b.id || (a.userId == b.userId && a.githubId == b.githubId)
  }

  /** Primary key of the repository table, and at most one row per `(userId, githubId)`. */
  ghost predicate UniqueRepositories(rows: seq<Repository>) {
    forall i, j :: 0 <= i < j < |rows| ==> !Clash(rows[i], rows[j])
  }

  /** In a table with unique keys, two positions holding the same id are one position. */
  lemma SameIdSameRow(rows: seq<Repository>, i: nat, j: nat)
    requires UniqueRepositories(rows)
    requires i < |rows| && j < |rows| && rows[i].id == rows[j].id
    ensures i == j
  {
  }

  /** A table with unique keys is its first row followed by a table with unique
      keys none of whose rows clashes with the first. */
  lemma UniqueCons(x: Repository, rest: seq<Repository>)
    ensures UniqueRepositories([x] + rest) <==>
      UniqueRepositories(rest) && forall y :: y in rest ==> !Clash(x, y)
  {
    var rows := [x] + rest;
    if UniqueRepositories(rows) {
      forall y | y in rest
        ensures !Clash(x, y)
      {
        var m :| 0 <= m < |rest| && rest[m] == y;
        assert rows[0] == x && rows[m + 1] == y;
      }
      forall i, j | 0 <= i < j < |rest|
        ensures !Clash(rest[i], rest[j])
      {
        assert rows[i + 1] == rest[i] && rows[j + 1] == rest[j];
      }
    }
    if UniqueRepositories(rest) && forall y :: y in rest ==> !Clash(x, y) {
      forall i, j | 0 <= i < j < |rows|
        ensures !Clash(rows[i], rows[j])
      {
        if i == 0 {
          assert rows[j] == rest[j - 1] && rest[j - 1] in rest;
        } else {
          assert rows[i] == rest[i - 1] && rows[j] == rest[j - 1];
        }
      }
    }
  }

  /** Filtering out a user's rows keeps keys unique. */
  lemma {:induction false} NotOwnedUnique(rows: seq<Repository>, user: UserId)
    requires UniqueRepositories(rows)
    ensures UniqueRepositories(NotOwned(rows, user))
    decreases |rows|
  {
    if |rows| > 0 {
      assert rows == [rows[0]] + rows[1..];
      UniqueCons(rows[0], rows[1..]);
      NotOwnedUnique(rows[1..], user);
      if rows[0].userId != user {
        UniqueCons(rows[0], NotOwned(rows[1..], user));
      }
    }
  }

  /** The index of the first element satisfying `p`: the row a `findUnique` or
      `findFirst` lookup returns when the table is scanned in order. */
  function FindFirst<T>(s: seq<T>, p: T -> bool): (k: Option<nat>)
    ensures k.Some? ==> k.value < |s| && p(s[k.value])
    ensures k.Some? ==> forall i :: 0 <= i < k.value ==> !p(s[i])
    ensures k.None? ==> forall i :: 0 <= i < |s| ==> !p(s[i])
    decreases |s|
  {
    if |s| == 0 then None
    else if p(s[0]) then Some(0)
    else match FindFirst(s[1..], p)
      case None => None
      case Some(k) => Some(k + 1)
  }

  /** `findUnique({ where: { id } })` on the user table: the index of the first user with that id. */
  function FindUser(users: seq<User>, id: UserId): (k: Option<nat>)
    ensures k.Some? ==> k.value < |users| && users[k.value].id == id
    ensures k.Some? ==> forall i :: 0 <= i < k.value ==> users[i].id != id
    ensures k.None? ==> forall i :: 0 <= i < |users| ==> users[i].id != id
  {
    FindFirst(users, (u: User) => u.id == id)
  }

  /** The rows a user owns (`findMany({ where: { userId } })`), in table order. */
  function Owned(rows: seq<Repository>, user: UserId): (r: seq<Repository>)
    ensures forall x :: x in r <==> x in rows && x.userId == user
    ensures |r| <= |rows|
  {
    if |rows| == 0 then []
    else if rows[0].userId == user then [rows[0]] + Owned(rows[1..], user)
    else Owned(rows[1..], user)
  }

  /** The rows a user does not own, in table order. */
  function NotOwned(rows: seq<Repository>, user: UserId): (r: seq<Repository>)
    ensures forall x :: x in r <==> x in rows && x.userId != user
  {
    if |rows| == 0 then []
    else if rows[0].userId == user then NotOwned(rows[1..], user)
    else [rows[0]] + NotOwned(rows[1..], user)
  }

  /** Every row is either the user's or not: the two parts add up to the table. */
  lemma {:induction false} OwnedSplit(rows: seq<Repository>, user: UserId)
    ensures |Owned(rows, user)| + |NotOwned(rows, user)| == |rows|
    ensures multiset(Owned(rows, user)) + multiset(NotOwned(rows, user)) == multiset(rows)
  {
    if |rows| > 0 {
      OwnedSplit(rows[1..], user);
      assert rows == [rows[0]] + rows[1..];
    }
  }

  /** The user and repository tables, the provider's webhooks and the journal of external effects. */
  class Backend {
    var users: seq<User>
    var repositories: seq<Repository>
    var hooks: set<Hook>
    var effects: seq<Effect>

    ghost predicate Valid()
      reads this
    {
      UniqueUsers(users) && UniqueRepositories(repositories)
    }

    constructor (users: seq<User>, repositories: seq<Repository>, hooks: set<Hook>)
      requires UniqueUsers(users) && UniqueRepositories(repositories)
      ensures Valid()
      ensures this.users == users && this.repositories == repositories
      ensures this.hooks == hooks && effects == []
    {
      this.users := users;
      this.repositories := repositories;
      this.hooks := hooks;
      effects := [];
    }
  }
}
