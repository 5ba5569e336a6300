/** The settings server actions: reading and updating the caller's profile,
    listing the caller's connected repositories, and disconnecting one or all
    of them. Every action catches its own failures and answers with a value.
    The caller's session is the optional user id `session`. The provider's
    `deleteWebhook(owner, name)` is the set `refuses` of hooks whose deletion
    the provider rejects; any other deletion succeeds and removes the hook. */
module SettingsActions {
  import opened Records

  const UpdateProfileError := "Failed to update profile"
  const DisconnectError := "Failed to disconnect repository"
  const DisconnectAllError := "Failed to disconnect repositories"

  // ---------------------------------------------------------------------
  // getUserProfile

  /** The selected columns of a user. */
  datatype Profile = Profile(id: UserId, name: string, email: string, image: Option<string>, createdAt: int)

  /** `getUserProfile`: the caller's profile, or `null` without a session or user row. */
  function UserProfile(users: seq<User>, session: Option<UserId>): (r: Option<Profile>)
    ensures r.Some? <==> session.Some? && exists i :: 0 <= i < |users| && users[i].id == session.value
    ensures r.Some? ==>
      exists i :: 0 <= i < |users| && users[i].id == session.value &&
        r.value == Profile(users[i].id, users[i].name, users[i].email, users[i].image, users[i].createdAt)
  {
    if session.None? then None
    else match FindUser(users, session.value)
      case None => None
      case Some(k) =>
        var u := users[k];
        Some(Profile(u.id, u.name, u.email, u.image, u.createdAt))
  }

  // ---------------------------------------------------------------------
  // updateUserProfile

  datatype ProfileView = ProfileView(id: UserId, name: string, email: string)

  datatype UpdateResult = ProfileUpdated(user: ProfileView) | ProfileUpdateFailed(error: string)

  datatype Update = Update(users: seq<User>, result: UpdateResult)

  /** Some user other than the one at index `k` already has this email (a unique column). */
  predicate EmailTaken(users: seq<User>, email: string, k: nat) {
    exists i :: 0 <= i < |users| && i != k && users[i].email == email
  }

  /** The user row `u` with the fields `data` sets; an absent field is left as it was. */
  function Applied(u: User, name: Option<string>, email: Option<string>): User {
    u.(name := if name.Some? then name.value else u.name,
       email := if email.Some? then email.value else u.email)
  }

  /** `updateUserProfile`: without a session, without a user row, or when the new
      email belongs to another user, the update fails and nothing changes. */
  function UpdateProfile(users: seq<User>, session: Option<UserId>, name: Option<string>, email: Option<string>): (r: Update)
    ensures |r.users| == |users|
    ensures session.None? ==> r.result.ProfileUpdateFailed?
    ensures r.result.ProfileUpdateFailed? ==> r.users == users && r.result.error == UpdateProfileError
    ensures r.result.ProfileUpdated? ==> r.result.user.id == session.value
  {
    if session.None? then Update(users, ProfileUpdateFailed(UpdateProfileError))
    else match FindUser(users, session.value)
      case None => Update(users, ProfileUpdateFailed(UpdateProfileError))
      case Some(k) =>
        if email.Some? && EmailTaken(users, email.value, k) then
          Update(users, ProfileUpdateFailed(UpdateProfileError))
        else
          var u := Applied(users[k], name, email);
          Update(users[k := u], ProfileUpdated(ProfileView(u.id, u.name, u.email)))
  }

  /** A successful update touches only `name` and `email` of the caller's row and
      reports the new values; a failed one changes nothing. Unique columns stay unique. */
  lemma UpdateProfileChangesOnlyCaller(users: seq<User>, session: Option<UserId>, name: Option<string>, email: Option<string>)
    requires UniqueUsers(users)
    ensures var s := UpdateProfile(users, session, name, email);
      && UniqueUsers(s.users)
      && |s.users| == |users|
      && (s.result.ProfileUpdateFailed? ==> s.users == users && s.result.error == UpdateProfileError)
      && (s.result.ProfileUpdated? <==>
            && session.Some?
            && exists k :: 0 <= k < |users| && users[k].id == session.value &&
                 !(email.Some? && EmailTaken(users, email.value, k)))
      && (s.result.ProfileUpdated? ==>
            forall i :: 0 <= i < |users| ==>
              if users[i].id == session.value then
                && s.users[i] == Applied(users[i], name, email)
                && s.result.user == ProfileView(users[i].id, s.users[i].name, s.users[i].email)
              else s.users[i] == users[i])
  {
    var s := UpdateProfile(users, session, name, email);
    if session.Some? {
      match FindUser(users, session.value)
      case None =>
      case Some(k) =>
        if !(email.Some? && EmailTaken(users, email.value, k)) {
          forall i, j | 0 <= i < j < |s.users|
            ensures s.users[i].email != s.users[j].email
          {
            if i != k && j != k {
            } else if email.None? {
            } else {
              assert !EmailTaken(users, email.value, k);
            }
          }
        }
    }
  }

  /** `updateUserProfile` on the backend. */
  method UpdateUserProfile(b: Backend, session: Option<UserId>, name: Option<string>, email: Option<string>)
      returns (r: UpdateResult)
    requires b.Valid()
    modifies b`users
    ensures b.Valid()
    ensures var s := UpdateProfile(old(b.users), session, name, email);
      b.users == s.users && r == s.result
  {
    UpdateProfileChangesOnlyCaller(b.users, session, name, email);
    if session.None? {
      return ProfileUpdateFailed(UpdateProfileError);
    }
    var found := FindUser(b.users, session.value);
    if found.None? {
      return ProfileUpdateFailed(UpdateProfileError);
    }
    var k := found.value;
    if email.Some? && EmailTaken(b.users, email.value, k) {
      return ProfileUpdateFailed(UpdateProfileError);
    }
    var u := Applied(b.users[k], name, email);
    b.users := b.users[k := u];
    r := ProfileUpdated(ProfileView(u.id, u.name, u.email));
  }

  // ---------------------------------------------------------------------
  // getConnectedRepositories

  /** The selected columns of a connected repository. */
  datatype RepositorySummary = RepositorySummary(id: RepoId, name: string, fullName: string, url: string, createdAt: int)

  function Summary(r: Repository): RepositorySummary {
    RepositorySummary(r.id, r.name, r.fullName, r.url, r.createdAt)
  }

  function Summaries(rows: seq<Repository>): (r: seq<RepositorySummary>)
    ensures |r| == |rows|
    ensures forall i :: 0 <= i < |rows| ==> r[i] == Summary(rows[i])
  {
    seq(|rows|, i requires 0 <= i < |rows| => Summary(rows[i]))
  }

  /** Ordered by `createdAt`, newest first. */
  ghost predicate NewestFirst(s: seq<RepositorySummary>) {
    forall i, j :: 0 <= i < j < |s| ==> s[i].createdAt >= s[j].createdAt
  }

  function InsertByDate(x: RepositorySummary, s: seq<RepositorySummary>): (r: seq<RepositorySummary>)
    requires NewestFirst(s)
    ensures NewestFirst(r)
    ensures multiset(r) == multiset(s) + multiset{x}
    ensures |r| == |s| + 1
    ensures r[0] == x || (|s| > 0 && r[0] == s[0])
  {
    if |s| == 0 || x.createdAt >= s[0].createdAt then [x] + s
    else
      var rest := InsertByDate(x, s[1..]);
      assert s == [s[0]] + s[1..];
      [s[0]] + rest
  }

  function SortNewestFirst(s: seq<RepositorySummary>): (r: seq<RepositorySummary>)
    ensures NewestFirst(r)
    ensures multiset(r) == multiset(s)
  {
    if |s| == 0 then []
    else
      assert s == [s[0]] + s[1..];
      InsertByDate(s[0], SortNewestFirst(s[1..]))
  }

  /** `getConnectedRepositories`: the caller's rows, newest first; `[]` without a session. */
  function ConnectedRepositories(rows: seq<Repository>, session: Option<UserId>): (r: seq<RepositorySummary>)
    ensures session.None? ==> r == []
    ensures session.Some? ==>
      NewestFirst(r) && multiset(r) == multiset(Summaries(Owned(rows, session.value)))
  {
    if session.None? then [] else SortNewestFirst(Summaries(Owned(rows, session.value)))
  }

  /** An entry is listed exactly when it summarises one of the caller's rows,
      and the list is exactly as long as the caller's part of the table. */
  lemma ConnectedRepositoriesAreCallers(rows: seq<Repository>, user: UserId)
    ensures var r := ConnectedRepositories(rows, Some(user));
      && |r| == |Owned(rows, user)|
      && forall x :: x in r <==> exists row :: row in rows && row.userId == user && Summary(row) == x
  {
    var r := ConnectedRepositories(rows, Some(user));
    var owned := Owned(rows, user);
    assert |r| == |Summaries(owned)| by {
      assert |multiset(r)| == |multiset(Summaries(owned))|;
    }
    forall x
      ensures x in r <==> exists row :: row in rows && row.userId == user && Summary(row) == x
    {
      assert x in r <==> x in multiset(r);
      assert x in Summaries(owned) <==> x in multiset(Summaries(owned));
      if x in Summaries(owned) {
        var i :| 0 <= i < |owned| && Summaries(owned)[i] == x;
        assert owned[i] in owned;
      }
      if exists row :: row in rows && row.userId == user && Summary(row) == x {
        var row :| row in rows && row.userId == user && Summary(row) == x;
        var i :| 0 <= i < |owned| && owned[i] == row;
        assert Summaries(owned)[i] == x;
      }
    }
  }

  // ---------------------------------------------------------------------
  // The provider's deleteWebhook

  /** `deleteWebhook(owner, name)`: rejects for a hook in `refuses`, otherwise
      the hook is gone afterwards. Either way the attempt is journalled. */
  method DeleteWebhook(b: Backend, h: Hook, refuses: set<Hook>) returns (ok: bool)
    modifies b`hooks, b`effects
    ensures ok == (h !in refuses)
    ensures b.hooks == if ok then old(b.hooks) - {h} else old(b.hooks)
    ensures b.effects == old(b.effects) + [if ok then WebhookDeleted(h) else WebhookDeleteFailed(h)]
  {
    ok := h !in refuses;
    if ok {
      b.hooks := b.hooks - {h};
      b.effects := b.effects + [WebhookDeleted(h)];
    } else {
      b.effects := b.effects + [WebhookDeleteFailed(h)];
    }
  }

  // ---------------------------------------------------------------------
  // disconnectRepository

  datatype DisconnectResult = Disconnected | DisconnectFailed(error: string)

  /** The table, the provider's hooks and the effects of one action, with its answer. */
  datatype Step<R> = Step(rows: seq<Repository>, hooks: set<Hook>, effects: seq<Effect>, result: R)

  /** `findUnique({ where: { id, userId } })`: the first row with that id owned by that user. */
  function FindOwned(rows: seq<Repository>, id: RepoId, user: UserId): (k: Option<nat>)
    ensures k.Some? ==> k.value < |rows| && rows[k.value].id == id && rows[k.value].userId == user
    ensures k.None? ==> forall i :: 0 <= i < |rows| ==> rows[i].id != id || rows[i].userId != user
  {
    FindFirst(rows, (r: Repository) => r.id == id && r.userId == user)
  }

  function RemoveAt(rows: seq<Repository>, k: nat): seq<Repository>
    requires k < |rows|
  {
    rows[..k] + rows[k + 1..]
  }

  /** `disconnectRepository(id)`: look the row up under the caller, delete the
      provider's webhook, then delete the row. */
  function Disconnect(rows: seq<Repository>, hooks: set<Hook>, refuses: set<Hook>, session: Option<UserId>, id: RepoId)
    : (r: Step<DisconnectResult>)
    ensures session.None? ==> r.result.DisconnectFailed?
    ensures r.result.DisconnectFailed? ==>
      r.rows == rows && r.hooks == hooks && r.result.error == DisconnectError && |r.effects| <= 1
    ensures r.result.Disconnected? ==> |r.rows| == |rows| - 1 && r.hooks <= hooks
  {
    if session.None? then Step(rows, hooks, [], DisconnectFailed(DisconnectError))
    else match FindOwned(rows, id, session.value)
      case None => Step(rows, hooks, [], DisconnectFailed(DisconnectError))
      case Some(k) =>
        var h := HookOf(rows[k]);
        if h in refuses then Step(rows, hooks, [WebhookDeleteFailed(h)], DisconnectFailed(DisconnectError))
        else Step(RemoveAt(rows, k), hooks - {h}, [WebhookDeleted(h), RowDeleted(id)], Disconnected)
  }

  /** Without a session, or when the id is missing or belongs to another user,
      the action fails, no webhook is touched and the table is unchanged. */
  lemma DisconnectRejectsForeignOrMissing(rows: seq<Repository>, hooks: set<Hook>, refuses: set<Hook>, session: Option<UserId>, id: RepoId)
    requires session.None? || forall row :: row in rows ==> row.id != id || row.userId != session.value
    ensures Disconnect(rows, hooks, refuses, session, id) == Step(rows, hooks, [], DisconnectFailed(DisconnectError))
  {
  }

  /** When the caller owns the row at index `k`: if the provider rejects the
      webhook deletion the row stays and the action fails; otherwise the webhook
      is deleted first, then exactly that row, and the action succeeds. */
  lemma DisconnectOwnedRow(rows: seq<Repository>, hooks: set<Hook>, refuses: set<Hook>, user: UserId, k: nat)
    requires UniqueRepositories(rows)
    requires k < |rows| && rows[k].userId == user
    ensures var s := Disconnect(rows, hooks, refuses, Some(user), rows[k].id);
      var h := HookOf(rows[k]);
      if h in refuses then
        s == Step(rows, hooks, [WebhookDeleteFailed(h)], DisconnectFailed(DisconnectError))
      else
        && s.result == Disconnected
        && s.effects == [WebhookDeleted(h), RowDeleted(rows[k].id)]
        && s.hooks == hooks - {h}
        && |s.rows| == |rows| - 1
        && (forall x :: x in s.rows <==> x in rows && x.id != rows[k].id)
        && UniqueRepositories(s.rows)
  {
    var f := FindOwned(rows, rows[k].id, user);
    SameIdSameRow(rows, f.value, k);
    var r := RemoveAt(rows, k);
    forall x
      ensures x in r <==> x in rows && x.id != rows[k].id
    {
      if x in r {
        var i :| 0 <= i < |r| && r[i] == x;
        if i < k { assert x == rows[i]; } else { assert x == rows[i + 1]; }
      }
      if x in rows && x.id != rows[k].id {
        var i :| 0 <= i < |rows| && rows[i] == x;
        if i < k { assert r[i] == x; } else { assert i != k; assert r[i - 1] == x; }
      }
    }
    RemoveAtUnique(rows, k);
  }

  lemma RemoveAtUnique(rows: seq<Repository>, k: nat)
    requires UniqueRepositories(rows) && k < |rows|
    ensures UniqueRepositories(RemoveAt(rows, k))
  {
    var r := RemoveAt(rows, k);
    forall i, j | 0 <= i < j < |r|
      ensures r[i].id != r[j].id
      ensures r[i].userId != r[j].userId || r[i].githubId != r[j].githubId
    {
      var i' := if i < k then i else i + 1;
      var j' := if j < k then j else j + 1;
      assert r[i] == rows[i'] && r[j] == rows[j'] && i' < j';
    }
  }

  /** Disconnecting the same id a second time fails instead of crashing and
      changes nothing. */
  lemma DisconnectTwice(rows: seq<Repository>, hooks: set<Hook>, refuses: set<Hook>, session: Option<UserId>, id: RepoId)
    requires UniqueRepositories(rows)
    requires Disconnect(rows, hooks, refuses, session, id).result == Disconnected
    ensures var s := Disconnect(rows, hooks, refuses, session, id);
      Disconnect(s.rows, s.hooks, refuses, session, id) == Step(s.rows, s.hooks, [], DisconnectFailed(DisconnectError))
  {
    var k := FindOwned(rows, id, session.value).value;
    DisconnectOwnedRow(rows, hooks, refuses, session.value, k);
    var s := Disconnect(rows, hooks, refuses, session, id);
    DisconnectRejectsForeignOrMissing(s.rows, s.hooks, refuses, session, id);
  }

  /** `disconnectRepository` on the backend. */
  method DisconnectRepository(b: Backend, session: Option<UserId>, id: RepoId, refuses: set<Hook>)
      returns (r: DisconnectResult)
    requires b.Valid()
    modifies b`repositories, b`hooks, b`effects
    ensures b.Valid()
    ensures var s := Disconnect(old(b.repositories), old(b.hooks), refuses, session, id);
      && b.repositories == s.rows && b.hooks == s.hooks
      && b.effects == old(b.effects) + s.effects && r == s.result
  {
    if session.None? {
      return DisconnectFailed(DisconnectError);
    }
    var found := FindOwned(b.repositories, id, session.value);
    if found.None? {
      return DisconnectFailed(DisconnectError);
    }
    var k := found.value;
    var ok := DeleteWebhook(b, HookOf(b.repositories[k]), refuses);
    if !ok {
      return DisconnectFailed(DisconnectError);
    }
    RemoveAtUnique(b.repositories, k);
    b.repositories := RemoveAt(b.repositories, k);
    b.effects := b.effects + [RowDeleted(id)];
    r := Disconnected;
  }

  // ---------------------------------------------------------------------
  // disconnectAllRepository

  datatype DisconnectAllResult = AllDisconnected(count: nat) | DisconnectAllFailed(error: string)

  /** The outcome of asking the provider to delete the webhook of every row of `targets`. */
  datatype Sweep = Sweep(hooks: set<Hook>, effects: seq<Effect>, failed: bool)

  /** Every deletion is attempted (`Promise.all` starts all of them); the sweep
      fails when at least one is rejected, and removes every other hook. */
  function DeleteHooks(hooks: set<Hook>, refuses: set<Hook>, targets: seq<Repository>): (s: Sweep)
    ensures |s.effects| == |targets|
    ensures forall i :: 0 <= i < |targets| ==>
      s.effects[i] == if HookOf(targets[i]) in refuses then WebhookDeleteFailed(HookOf(targets[i]))
                      else WebhookDeleted(HookOf(targets[i]))
    ensures s.failed <==> exists t :: t in targets && HookOf(t) in refuses
    ensures s.hooks == hooks - set t | t in targets && HookOf(t) !in refuses :: HookOf(t)
  {
    if |targets| == 0 then Sweep(hooks, [], false)
    else
      var last := targets[|targets| - 1];
      var init := targets[..|targets| - 1];
      var prev := DeleteHooks(hooks, refuses, init);
      var h := HookOf(last);
      assert targets == init + [last];
      if h in refuses then Sweep(prev.hooks, prev.effects + [WebhookDeleteFailed(h)], true)
      else Sweep(prev.hooks - {h}, prev.effects + [WebhookDeleted(h)], prev.failed)
  }

  /** `disconnectAllRepository`: delete the webhook of every row of the caller,
      then, unless one deletion was rejected, all of the caller's rows at once. */
  function DisconnectAll(rows: seq<Repository>, hooks: set<Hook>, refuses: set<Hook>, session: Option<UserId>)
    : (r: Step<DisconnectAllResult>)
    ensures session.None? ==> r == Step(rows, hooks, [], DisconnectAllFailed(DisconnectAllError))
    ensures r.result.DisconnectAllFailed? ==> r.rows == rows && r.result.error == DisconnectAllError
    ensures r.hooks <= hooks
  {
    if session.None? then Step(rows, hooks, [], DisconnectAllFailed(DisconnectAllError))
    else
      var owned := Owned(rows, session.value);
      var sweep := DeleteHooks(hooks, refuses, owned);
      if sweep.failed then Step(rows, sweep.hooks, sweep.effects, DisconnectAllFailed(DisconnectAllError))
      else Step(NotOwned(rows, session.value), sweep.hooks,
                sweep.effects + [RowsDeleted(session.value, |owned|)], AllDisconnected(|owned|))
  }

  /** On success every one of the caller's webhooks was deleted before the rows,
      all and only the caller's rows are gone, and `count` is their number. If
      the provider rejects any of them, no row is deleted and the action fails. */
  lemma DisconnectAllOutcome(rows: seq<Repository>, hooks: set<Hook>, refuses: set<Hook>, user: UserId)
    ensures var s := DisconnectAll(rows, hooks, refuses, Some(user));
      var owned := Owned(rows, user);
      && (s.result.AllDisconnected? <==> forall row :: row in rows && row.userId == user ==> HookOf(row) !in refuses)
      && (s.result.AllDisconnected? ==>
            && s.result.count == |owned|
            && |s.rows| + s.result.count == |rows|
            && (forall x :: x in s.rows <==> x in rows && x.userId != user)
            && (forall row :: row in rows && row.userId == user ==> HookOf(row) !in s.hooks)
            && |s.effects| == |owned| + 1
            && s.effects[|owned|] == RowsDeleted(user, |owned|)
            && (forall i :: 0 <= i < |owned| ==> s.effects[i] == WebhookDeleted(HookOf(owned[i]))))
      && (s.result.DisconnectAllFailed? ==>
            s.rows == rows && s.result.error == DisconnectAllError &&
            forall e :: e in s.effects ==> !e.RowDeleted? && !e.RowsDeleted?)
  {
    OwnedSplit(rows, user);
    var owned := Owned(rows, user);
    var sweep := DeleteHooks(hooks, refuses, owned);
    forall e | e in sweep.effects
      ensures !e.RowDeleted? && !e.RowsDeleted?
    {
      var i :| 0 <= i < |sweep.effects| && sweep.effects[i] == e;
    }
  }

  /** The `Promise.all` fan-out: a loop asking the provider to delete the
      webhook of every row of `targets`, in order. */
  method SweepHooks(b: Backend, targets: seq<Repository>, refuses: set<Hook>) returns (failed: bool)
    modifies b`hooks, b`effects
    ensures var s := DeleteHooks(old(b.hooks), refuses, targets);
      b.hooks == s.hooks && b.effects == old(b.effects) + s.effects && failed == s.failed
  {
    failed := false;
    var i := 0;
    while i < |targets|
      invariant 0 <= i <= |targets|
      invariant var s := DeleteHooks(old(b.hooks), refuses, targets[..i]);
        b.hooks == s.hooks && b.effects == old(b.effects) + s.effects && failed == s.failed
    {
      var ok := DeleteWebhook(b, HookOf(targets[i]), refuses);
      if !ok {
        failed := true;
      }
      assert targets[..i + 1][..i] == targets[..i];
      i := i + 1;
    }
    assert targets[..i] == targets;
  }

  /** `disconnectAllRepository` on the backend: the webhook sweep over the
      caller's rows, then the bulk `deleteMany`. */
  method DisconnectAllRepository(b: Backend, session: Option<UserId>, refuses: set<Hook>)
      returns (r: DisconnectAllResult)
    requires b.Valid()
    modifies b`repositories, b`hooks, b`effects
    ensures b.Valid()
    ensures var s := DisconnectAll(old(b.repositories), old(b.hooks), refuses, session);
      && b.repositories == s.rows && b.hooks == s.hooks
      && b.effects == old(b.effects) + s.effects && r == s.result
  {
    if session.None? {
      return DisconnectAllFailed(DisconnectAllError);
    }
    var user := session.value;
    var targets := Owned(b.repositories, user);
    var failed := SweepHooks(b, targets, refuses);
    if failed {
      return DisconnectAllFailed(DisconnectAllError);
    }
    NotOwnedUnique(b.repositories, user);
    b.repositories := NotOwned(b.repositories, user);
    b.effects := b.effects + [RowsDeleted(user, |targets|)];
    r := AllDisconnected(|targets|);
  }
}
