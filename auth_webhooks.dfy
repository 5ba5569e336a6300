/** The billing webhooks of the auth configuration: each event from the
    payment provider becomes an update of one user row, found by the
    provider's customer id or by e-mail address. */
module AuthWebhooks {
  import opened Records

  /** The events the handlers receive, with the payload fields they read. */
  datatype Event =
    | SubscriptionActive(customerId: string, subscriptionId: string)
    | SubscriptionCanceled(customerId: string)
    | SubscriptionRevoked(customerId: string)
    | OrderPaid
    | CustomerCreated(email: string, customerId: string)

  /** The new user table, and whether the handler threw. */
  datatype Handled = Handled(users: seq<User>, failed: bool)

  /** `findUnique({ where: { polarCustomerId } })`: the user holding the customer id. */
  function FindByCustomer(users: seq<User>, customerId: string): (k: Option<nat>)
    ensures k.Some? ==> k.value < |users| && users[k.value].polarCustomerId == Some(customerId)
    ensures k.Some? ==> forall i :: 0 <= i < k.value ==> users[i].polarCustomerId != Some(customerId)
    ensures k.None? ==> forall i :: 0 <= i < |users| ==> users[i].polarCustomerId != Some(customerId)
  {
    FindFirst(users, (u: User) => u.polarCustomerId == Some(customerId))
  }

  /** `findUnique({ where: { email } })`: the user with the address. */
  function FindByEmail(users: seq<User>, email: string): (k: Option<nat>)
    ensures k.Some? ==> k.value < |users| && users[k.value].email == email
    ensures k.Some? ==> forall i :: 0 <= i < k.value ==> users[i].email != email
    ensures k.None? ==> forall i :: 0 <= i < |users| ==> users[i].email != email
  {
    FindFirst(users, (u: User) => u.email == email)
  }

  /** `updateUserTier(id, tier, status, subscriptionId?)` on one row: the tier
      and the status are replaced, the subscription id only when one is given. */
  function WithTier(u: User, tier: Tier, status: Status, subscriptionId: Option<string>): User {
    u.(subscriptionTier := tier,
       subscriptionStatus := Some(status),
       subscriptionId := if subscriptionId.Some? then subscriptionId else u.subscriptionId)
  }

  /** The tier update a subscription event asks for, given the matched user. */
  function TierUpdate(e: Event, u: User): User
    requires e.SubscriptionActive? || e.SubscriptionCanceled? || e.SubscriptionRevoked?
  {
    match e
    case SubscriptionActive(_, sid) => WithTier(u, Pro, Active, Some(sid))
    case SubscriptionCanceled(_) => WithTier(u, u.subscriptionTier, Cancelled, None)
    case SubscriptionRevoked(_) => WithTier(u, Free, Expired, None)
  }

  /** Another user than the one at `k` already holds the customer id. */
  predicate CustomerTaken(users: seq<User>, k: nat, customerId: string) {
    exists i :: 0 <= i < |users| && i != k && users[i].polarCustomerId == Some(customerId)
  }

  /** The handlers. A subscription event updates the user holding the customer
      id, and nothing when there is none; an order changes nothing; a new
      customer records its id on the user with its e-mail address, and the
      update fails when the unique column already holds that id for another user. */
  function OnEvent(users: seq<User>, e: Event): (r: Handled)
    ensures |r.users| == |users|
    ensures r.failed ==> r.users == users
  {
    match e
    case OrderPaid => Handled(users, false)
    case CustomerCreated(email, cid) =>
      var k := FindByEmail(users, email);
      if k.None? then Handled(users, false)
      else if CustomerTaken(users, k.value, cid) then Handled(users, true)
      else Handled(users[k.value := users[k.value].(polarCustomerId := Some(cid))], false)
    case _ =>
      var k := FindByCustomer(users, e.customerId);
      if k.None? then Handled(users, false)
      else Handled(users[k.value := TierUpdate(e, users[k.value])], false)
  }

  /** The user row an event matches, if any. */
  function Target(users: seq<User>, e: Event): Option<nat> {
    match e
    case OrderPaid => None
    case CustomerCreated(email, _) => FindByEmail(users, email)
    case _ => FindByCustomer(users, e.customerId)
  }

  /** A subscription becoming active makes the holder of the customer id a
      PRO subscriber with status ACTIVE and the new subscription id. */
  lemma ActiveMakesPro(users: seq<User>, cid: string, sid: string)
    requires FindByCustomer(users, cid).Some?
    ensures var k := FindByCustomer(users, cid).value;
      var u := OnEvent(users, SubscriptionActive(cid, sid)).users[k];
      && u.subscriptionTier == Pro && u.subscriptionStatus == Some(Active) && u.subscriptionId == Some(sid)
      && u.id == users[k].id && u.email == users[k].email && u.polarCustomerId == users[k].polarCustomerId
  {
  }

  /** A cancelled subscription keeps the user's tier and subscription id and sets status CANCELLED. */
  lemma CanceledKeepsTier(users: seq<User>, cid: string)
    requires FindByCustomer(users, cid).Some?
    ensures var k := FindByCustomer(users, cid).value;
      var u := OnEvent(users, SubscriptionCanceled(cid)).users[k];
      && u.subscriptionTier == users[k].subscriptionTier && u.subscriptionStatus == Some(Cancelled)
      && u.subscriptionId == users[k].subscriptionId
  {
  }

  /** A revoked subscription sets tier FREE and status EXPIRED. */
  lemma RevokedMakesFree(users: seq<User>, cid: string)
    requires FindByCustomer(users, cid).Some?
    ensures var k := FindByCustomer(users, cid).value;
      var u := OnEvent(users, SubscriptionRevoked(cid)).users[k];
      && u.subscriptionTier == Free && u.subscriptionStatus == Some(Expired)
      && u.subscriptionId == users[k].subscriptionId
  {
  }

  /** A new customer's id lands on the user with its e-mail address, unless another user holds it. */
  lemma CustomerCreatedRecordsId(users: seq<User>, email: string, cid: string)
    requires FindByEmail(users, email).Some?
    ensures var k := FindByEmail(users, email).value;
      var r := OnEvent(users, CustomerCreated(email, cid));
      && (r.failed <==> CustomerTaken(users, k, cid))
      && (!r.failed ==> r.users[k] == users[k].(polarCustomerId := Some(cid)))
  {
  }

  /** When no user matches, and for a paid order, nothing changes and nothing fails. */
  lemma NoMatchNoChange(users: seq<User>, e: Event)
    requires Target(users, e).None?
    ensures OnEvent(users, e) == Handled(users, false)
  {
  }

  /** Only the matched user's row can change. */
  lemma OnlyTargetChanges(users: seq<User>, e: Event, i: nat)
    requires i < |users|
    requires Target(users, e) != Some(i)
    ensures OnEvent(users, e).users[i] == users[i]
  {
  }

  /** No handler changes a user's id or e-mail address. */
  lemma KeysKept(users: seq<User>, e: Event, i: nat)
    requires i < |users|
    ensures OnEvent(users, e).users[i].id == users[i].id
    ensures OnEvent(users, e).users[i].email == users[i].email
  {
  }

  /** The handlers keep the unique columns of the user table unique. */
  lemma PreservesUniqueUsers(users: seq<User>, e: Event)
    requires UniqueUsers(users)
    ensures UniqueUsers(OnEvent(users, e).users)
  {
    var r := OnEvent(users, e).users;
    forall i, j | 0 <= i < j < |r|
      ensures r[i].id != r[j].id && r[i].email != r[j].email
      ensures r[i].polarCustomerId.Some? ==> r[i].polarCustomerId != r[j].polarCustomerId
    {
      KeysKept(users, e, i);
      KeysKept(users, e, j);
      if e.CustomerCreated? && FindByEmail(users, e.email).Some? && !OnEvent(users, e).failed {
        var k := FindByEmail(users, e.email).value;
        if i == k {
          assert users[j].polarCustomerId != Some(e.customerId);
        } else if j == k {
          assert users[i].polarCustomerId != Some(e.customerId);
        }
      }
    }
  }

  /** Delivering the same event twice leaves the table as delivering it once. */
  lemma RedeliveryIdempotent(users: seq<User>, e: Event)
    requires UniqueUsers(users)
    ensures OnEvent(OnEvent(users, e).users, e).users == OnEvent(users, e).users
  {
    var once := OnEvent(users, e).users;
    PreservesUniqueUsers(users, e);
    match e
    case OrderPaid =>
    case CustomerCreated(email, cid) =>
      var k := FindByEmail(users, email);
      if k.Some? {
        KeysKept(users, e, k.value);
        assert FindByEmail(once, email) == k by {
          forall i | 0 <= i < k.value
            ensures once[i].email != email
          {
            KeysKept(users, e, i);
          }
        }
      }
    case _ =>
      var k := FindByCustomer(users, e.customerId);
      if k.Some? {
        assert once[k.value].polarCustomerId == Some(e.customerId);
        assert FindByCustomer(once, e.customerId) == k by {
          forall i | 0 <= i < k.value
            ensures once[i].polarCustomerId != Some(e.customerId)
          {
            assert once[i] == users[i];
          }
        }
      }
  }

  /** Delivers one event to the handlers: the user table becomes the one the
      handler computes, and the unique columns stay unique. */
  method Deliver(b: Backend, e: Event) returns (failed: bool)
    requires b.Valid()
    modifies b`users
    ensures b.Valid()
    ensures b.users == OnEvent(old(b.users), e).users && failed == OnEvent(old(b.users), e).failed
  {
    PreservesUniqueUsers(b.users, e);
    var r := OnEvent(b.users, e);
    b.users := r.users;
    failed := r.failed;
  }
}
