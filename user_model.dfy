/**
 * The user collection. The user model's own source file is not part of this
 * model: the record's fields and the store's primitives are the ones that the
 * user service and the controllers read and write.
 */
module UserModel {
  import opened Common

  /** A bcrypt digest; hashing and comparison are parameters of the operations that use them. */
  datatype PasswordHash = PasswordHash(digest: string)

  datatype User = User(
    id: Id,
    username: string,
    email: string,
    password: Option<PasswordHash>,
    displayName: string,
    avatar: Option<string>,
    verifyToken: Option<string>,
    isActive: bool,
    refreshToken: Option<string>,
    favorites: seq<Id>,
    createdAt: Timestamp,
    destroyed: bool)

  /** The document the user service hands to the user model's `createNew`. */
  datatype NewUser = NewUser(
    username: string,
    email: string,
    password: PasswordHash,
    displayName: string,
    verifyToken: string,
    isActive: bool)

  /** The stored record for `u`: fields the service does not supply start empty. */
  function Created(u: NewUser, id: Id, now: Timestamp): (r: User)
    ensures r.id == id && r.email == u.email && r.username == u.username
    ensures r.displayName == u.displayName && r.password == Some(u.password)
    ensures r.verifyToken == Some(u.verifyToken) && r.isActive == u.isActive
    ensures r.refreshToken == None && r.favorites == [] && !r.destroyed
  {
    User(id, u.username, u.email, Some(u.password), u.displayName, None,
         Some(u.verifyToken), u.isActive, None, [], now, false)
  }

  /** `findOneByEmail`: the first stored user with that email. */
  function FirstWithEmail(users: seq<User>, email: string): (r: Option<User>)
    ensures r.Some? ==> r.value in users && r.value.email == email
    ensures r.None? <==> forall i :: 0 <= i < |users| ==> users[i].email != email
  {
    if users == [] then None
    else if users[0].email == email then Some(users[0])
    else FirstWithEmail(users[1..], email)
  }

  /** No two stored users share an email. */
  ghost predicate UniqueEmails(users: seq<User>) {
    forall i, j :: 0 <= i < j < |users| ==> users[i].email != users[j].email
  }

  class UserStore {
    var users: seq<User>

    ghost predicate Valid()
      reads this
    {
      forall i :: 0 <= i < |users| ==> users[i].id == i
    }

    constructor ()
      ensures Valid() && users == []
    {
      users := [];
    }

    function FindOneById(id: Id): (r: Option<User>)
      reads this
      requires Valid()
      ensures r.Some? <==> id < |users|
      ensures r.Some? ==> r.value == users[id] && r.value.id == id
    {
      if id < |users| then Some(users[id]) else None
    }

    function FindOneByEmail(email: string): (r: Option<User>)
      reads this
      ensures r.Some? ==> r.value in users && r.value.email == email
      ensures r.None? <==> forall i :: 0 <= i < |users| ==> users[i].email != email
    {
      FirstWithEmail(users, email)
    }

    method Insert(u: NewUser, now: Timestamp) returns (id: Id)
      requires Valid()
      modifies this
      ensures Valid()
      ensures id == |old(users)| && users == old(users) + [Created(u, id, now)]
    {
      id := |users|;
      users := users + [Created(u, id, now)];
    }

    /** Overwrites the stored record that has `u`'s id. */
    method Put(u: User)
      requires Valid() && u.id < |users|
      modifies this
      ensures Valid()
      ensures users == old(users)[u.id := u]
    {
      users := users[u.id := u];
    }
  }
}
