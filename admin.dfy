/**
 * The administrators' user table (`routes/admin.ts`): get, list, create, update and delete over
 * the users keyed by id, with the email-uniqueness checks of create and update. The table is an
 * in-memory map; the schema transforms the handlers rely on (lower-cased email, trimmed name)
 * are applied here, while the schema's format and length checks are not modelled.
 */
module Admin {
  import opened Wrappers
  import opened JsString
  import opened Http

  /** A row of the `users` table apart from its id. */
  datatype User = User(email: string, name: string, createdAt: int)

  /** An `(id, user)` pair as the handlers return it. */
  type Entry = (nat, User)

  const UserNotFound: string := "User not found"
  const EmailExists: string := "A user with this email already exists"

  /** No two users share an email. */
  ghost predicate EmailsUnique(users: map<nat, User>) {
    forall a, b :: a in users && b in users && users[a].email == users[b].email ==> a == b
  }

  /** `findUnique({ where: { email } })` finds a user. */
  predicate EmailTaken(users: map<nat, User>, email: string) {
    exists id | id in users :: users[id].email == email
  }

  /** The user after `prisma.user.update` with the supplied fields; omitted ones are kept. */
  function Updated(user: User, email: Option<string>, name: Option<string>): (u: User)
    ensures u.createdAt == user.createdAt
    ensures u.email == (if email.Some? then email.value else user.email)
    ensures u.name == (if name.Some? then name.value else user.name)
  {
    User(
      match email case Some(e) => e case None => user.email,
      match name case Some(n) => n case None => user.name,
      user.createdAt)
  }

  /** The list is ordered by `createdAt`, newest first. */
  ghost predicate NewestFirst(list: seq<Entry>) {
    forall i, j :: 0 <= i < j < |list| ==> list[i].1.createdAt >= list[j].1.createdAt
  }

  /** No id appears twice in the list. */
  ghost predicate DistinctIds(list: seq<Entry>) {
    forall i, j :: 0 <= i < j < |list| ==> list[i].0 != list[j].0
  }

  /** Inserts `e` into a newest-first list after every entry at least as new. */
  method InsertNewestFirst(list: seq<Entry>, e: Entry) returns (r: seq<Entry>)
    requires NewestFirst(list)
    ensures NewestFirst(r)
    ensures forall x :: x in r <==> x in list || x == e
    ensures multiset(r) == multiset(list) + multiset{e}
    ensures DistinctIds(list) && (forall x :: x in list ==> x.0 != e.0) ==> DistinctIds(r)
  {
    var k := 0;
    while k < |list| && list[k].1.createdAt >= e.1.createdAt
      invariant 0 <= k <= |list|
      invariant forall i :: 0 <= i < k ==> list[i].1.createdAt >= e.1.createdAt
    {
      k := k + 1;
    }
    r := list[..k] + [e] + list[k..];
    InsertedIndex(list, e, k);
    InsertedSorted(list, e, k);
    InsertedMembers(list, e, k);
    if DistinctIds(list) && (forall x :: x in list ==> x.0 != e.0) {
      InsertedDistinct(list, e, k);
    }
  }

  /** The entries of `list[..k] + [e] + list[k..]`, by index. */
  lemma InsertedIndex(list: seq<Entry>, e: Entry, k: nat)
    requires k <= |list|
    ensures |list[..k] + [e] + list[k..]| == |list| + 1
    ensures forall i :: 0 <= i < k ==> (list[..k] + [e] + list[k..])[i] == list[i]
    ensures (list[..k] + [e] + list[k..])[k] == e
    ensures forall i :: k < i <= |list| ==> (list[..k] + [e] + list[k..])[i] == list[i - 1]
  {
  }

  lemma InsertedSorted(list: seq<Entry>, e: Entry, k: nat)
    requires k <= |list|
    requires NewestFirst(list)
    requires forall i :: 0 <= i < k ==> list[i].1.createdAt >= e.1.createdAt
    requires k < |list| ==> list[k].1.createdAt < e.1.createdAt
    ensures NewestFirst(list[..k] + [e] + list[k..])
  {
    var r := list[..k] + [e] + list[k..];
    InsertedIndex(list, e, k);
    forall i, j | 0 <= i < j < |r| ensures r[i].1.createdAt >= r[j].1.createdAt {
      if j > k {
        assert list[k].1.createdAt >= list[j - 1].1.createdAt;
      }
    }
  }

  lemma InsertedMembers(list: seq<Entry>, e: Entry, k: nat)
    requires k <= |list|
    ensures forall x :: x in list[..k] + [e] + list[k..] <==> x in list || x == e
    ensures multiset(list[..k] + [e] + list[k..]) == multiset(list) + multiset{e}
  {
    assert list == list[..k] + list[k..];
    assert multiset(list) == multiset(list[..k]) + multiset(list[k..]);
  }

  lemma InsertedDistinct(list: seq<Entry>, e: Entry, k: nat)
    requires k <= |list|
    requires DistinctIds(list) && forall x :: x in list ==> x.0 != e.0
    ensures DistinctIds(list[..k] + [e] + list[k..])
  {
    var r := list[..k] + [e] + list[k..];
    InsertedIndex(list, e, k);
    forall i, j | 0 <= i < j < |r| ensures r[i].0 != r[j].0 {
      if i == k {
        assert r[j] == list[j - 1];
      } else if j == k {
        assert r[i] == list[i];
      }
    }
  }

  /** Giving one user an email no other user has keeps emails unique. */
  lemma ReplacedKeepsUnique(users: map<nat, User>, id: nat, user: User)
    requires EmailsUnique(users) && id in users
    requires forall other :: other in users && other != id ==> users[other].email != user.email
    ensures EmailsUnique(users[id := user])
  {
  }

  class UserTable {
    var users: map<nat, User>
    /** The next value of the autoincrement id. */
    var nextId: nat

    ghost predicate Valid()
      reads this
    {
      && nextId >= 1
      && (forall id :: id in users ==> 0 < id < nextId)
      && EmailsUnique(users)
      && (forall id :: id in users ==> ToLower(users[id].email) == users[id].email)
    }

    constructor ()
      ensures Valid() && users == map[] && nextId == 1
    {
      users := map[];
      nextId := 1;
    }

    /** GET /users/:id. */
    method GetUser(id: nat) returns (r: Response<Entry>)
      ensures id in users ==> r == Ok(200, (id, users[id]))
      ensures id !in users ==> r == Fail(404, UserNotFound)
    {
      if id in users {
        r := Ok(200, (id, users[id]));
      } else {
        r := Fail(404, UserNotFound);
      }
    }

    /** GET /users: every user exactly once, newest first. */
    method ListUsers() returns (list: seq<Entry>)
      ensures NewestFirst(list) && DistinctIds(list)
      ensures forall e :: e in list <==> e.0 in users && users[e.0] == e.1
    {
      list := [];
      var remaining := users.Keys;
      while remaining != {}
        invariant remaining <= users.Keys
        invariant NewestFirst(list) && DistinctIds(list)
        invariant forall e :: e in list <==> e.0 in users && e.0 !in remaining && users[e.0] == e.1
        decreases remaining
      {
        var id :| id in remaining;
        list := InsertNewestFirst(list, (id, users[id]));
        remaining := remaining - {id};
      }
    }

    /**
     * POST /users: the schema lower-cases the email and trims the name; a taken email is a
     * conflict, otherwise the user is added under the next id with the current time.
     */
    method CreateUser(email: string, name: string, now: int) returns (r: Response<Entry>)
      requires Valid()
      modifies this
      ensures Valid()
      ensures EmailTaken(old(users), ToLower(email)) ==>
        r == Fail(409, EmailExists) && users == old(users) && nextId == old(nextId)
      ensures !EmailTaken(old(users), ToLower(email)) ==>
        var user := User(ToLower(email), Trim(name), now);
        && old(nextId) !in old(users)
        && users == old(users)[old(nextId) := user]
        && nextId == old(nextId) + 1
        && r == Ok(201, (old(nextId), user))
    {
      var e := ToLower(email);
      if EmailTaken(users, e) {
        return Fail(409, EmailExists);
      }
      var user := User(e, Trim(name), now);
      var id := nextId;
      ToLowerIdempotent(email);
      users := users[id := user];
      nextId := nextId + 1;
      r := Ok(201, (id, user));
    }

    /**
     * PUT /users/:id. At least one field must be supplied. A new email (lower-cased) that
     * differs from the user's current one and is held by another user is a conflict; keeping the
     * same email, or omitting it, skips the check.
     */
    method UpdateUser(id: nat, email: Option<string>, name: Option<string>) returns (r: Response<Entry>)
      requires Valid()
      requires email.Some? ==> email.value != ""  // an empty string is not a valid email address
      modifies this
      ensures Valid() && nextId == old(nextId)
      ensures email.None? && name.None? ==> r == Fail(400, ValidationFailed) && users == old(users)
      ensures (email.Some? || name.Some?) && id !in old(users) ==>
        r == Fail(404, UserNotFound) && users == old(users)
      ensures (email.Some? || name.Some?) && id in old(users) ==>
        var newEmail := if email.Some? then Some(ToLower(email.value)) else None;
        var newName := if name.Some? then Some(Trim(name.value)) else None;
        if newEmail.Some? && newEmail.value != old(users)[id].email && EmailTaken(old(users), newEmail.value) then
          r == Fail(409, EmailExists) && users == old(users)
        else
          var user := Updated(old(users)[id], newEmail, newName);
          users == old(users)[id := user] && r == Ok(200, (id, user))
    {
      if email.None? && name.None? {
        return Fail(400, ValidationFailed);
      }
      var newEmail := if email.Some? then Some(ToLower(email.value)) else None;
      var newName := if name.Some? then Some(Trim(name.value)) else None;
      if id !in users {
        return Fail(404, UserNotFound);
      }
      var existing := users[id];
      if newEmail.Some? && newEmail.value != existing.email {
        if EmailTaken(users, newEmail.value) {
          return Fail(409, EmailExists);
        }
      }
      if email.Some? {
        ToLowerIdempotent(email.value);
      }
      var user := Updated(existing, newEmail, newName);
      assert forall other :: other in users && other != id ==> users[other].email != user.email;
      ReplacedKeepsUnique(users, id, user);
      users := users[id := user];
      r := Ok(200, (id, user));
    }

    /** DELETE /users/:id: removes exactly that user. */
    method DeleteUser(id: nat) returns (r: Response<()>)
      requires Valid()
      modifies this
      ensures Valid() && nextId == old(nextId)
      ensures id !in old(users) ==> r == Fail(404, UserNotFound) && users == old(users)
      ensures id in old(users) ==> r == Ok(200, ()) && users == old(users) - {id}
    {
      if id !in users {
        return Fail(404, UserNotFound);
      }
      users := users - {id};
      r := Ok(200, ());
    }
  }
}
