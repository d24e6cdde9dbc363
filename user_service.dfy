/**
 * The account rules of the user service: registration, activation by
 * verify token, login, access-token refresh, profile reads and the
 * favourites set. Hashing, comparison and token signing are parameters.
 */
module UserService {
  import opened Common
  import opened Collections
  import opened UserModel
  import ListingModel
  import ListingController

  /** What the registration endpoint passes on: the four fields it picks from the body. */
  datatype Registration = Registration(username: string, email: string, password: string, displayName: string)

  /** A user as it leaves the service, without the fields the service deletes before answering. */
  function WithoutSecrets(u: User): (r: User)
    ensures r.password == None && r.refreshToken == None
    ensures r.(password := u.password, refreshToken := u.refreshToken) == u
  {
    u.(password := None, refreshToken := None)
  }

  /**
   * `createNew`: stores the account active, with the password hashed and a
   * fresh verify token, and answers with the stored record minus its
   * password.
   */
  method CreateNew(store: UserStore, body: Registration, hash: string -> PasswordHash,
                   verifyToken: string, now: Timestamp) returns (r: User)
    requires store.Valid()
    modifies store
    ensures store.Valid()
    ensures store.users == old(store.users) +
              [Created(NewUser(body.username, body.email, hash(body.password), body.displayName, verifyToken, true),
                       |old(store.users)|, now)]
    ensures r == store.users[|old(store.users)|].(password := None)
  {
    var id := store.Insert(NewUser(body.username, body.email, hash(body.password), body.displayName, verifyToken, true), now);
    r := store.users[id].(password := None);
  }

  /** The record `verifyAccount` writes: active, with the token consumed. */
  function Activated(u: User): (r: User)
    ensures r.isActive && r.verifyToken == None
    ensures r.(isActive := u.isActive, verifyToken := u.verifyToken) == u
  {
    u.(isActive := true, verifyToken := None)
  }

  /** The `token` of a verification request: left out, JSON `null`, or a string. */
  datatype TokenArg = NoToken | NullToken | Token(text: string)

  /** `user.verifyToken === token`, where a consumed token is stored as `null`. */
  predicate TokenMatches(stored: Option<string>, token: TokenArg) {
    match token
    case NoToken => false
    case NullToken => stored.None?
    case Token(t) => stored == Some(t)
  }

  /** `verifyAccount`: the first account with that email must hold exactly this token. */
  method VerifyAccount(store: UserStore, email: string, token: TokenArg) returns (r: Result<User>)
    requires store.Valid()
    modifies store
    ensures store.Valid()
    ensures var u := FirstWithEmail(old(store.users), email);
      && (u.None? || !TokenMatches(u.value.verifyToken, token) ==>
            r == Err(ApiError(Unauthorized, InvalidVerifyToken)) && store.users == old(store.users))
      && (u.Some? && TokenMatches(u.value.verifyToken, token) ==>
            r == Ok(Activated(u.value)) && store.users == old(store.users)[u.value.id := Activated(u.value)])
    ensures token.NoToken? ==> r == Err(ApiError(Unauthorized, InvalidVerifyToken))
  {
    var u := store.FindOneByEmail(email);
    if u.None? || !TokenMatches(u.value.verifyToken, token) {
      return Err(ApiError(Unauthorized, InvalidVerifyToken));
    }
    StoredUserIsAtItsId(store.users, u.value);
    store.Put(Activated(u.value));
    r := Ok(Activated(u.value));
  }

  /** A user found in a valid store sits at the position its id names. */
  lemma StoredUserIsAtItsId(users: seq<User>, u: User)
    requires forall i :: 0 <= i < |users| ==> users[i].id == i
    requires u in users
    ensures u.id < |users| && users[u.id] == u
  {
  }

  /**
   * A string token is accepted once at most: after activation no string
   * verifies the account again, while a `null` token does, since the
   * consumed token is stored as `null`.
   */
  lemma ActivationConsumesToken(u: User, token: string)
    ensures !TokenMatches(Activated(u).verifyToken, Token(token))
    ensures TokenMatches(Activated(u).verifyToken, NullToken)
  {
  }

  datatype LoginResult = LoginResult(user: User, accessToken: string, refreshToken: string)

  /** The checks of `login`, in order; `Ok` carries the account that passed them. */
  function LoginCheck(users: seq<User>, email: string, password: string,
                      compare: (string, PasswordHash) -> bool): (r: Result<User>)
    ensures FirstWithEmail(users, email).None? ==> r == Err(ApiError(Unauthorized, WrongCredentials))
    ensures r.Ok? <==> && FirstWithEmail(users, email).Some?
                       && FirstWithEmail(users, email).value.password.Some?
                       && compare(password, FirstWithEmail(users, email).value.password.value)
                       && FirstWithEmail(users, email).value.isActive
    ensures r.Ok? ==> r.value == FirstWithEmail(users, email).value
    ensures FirstWithEmail(users, email).Some? && FirstWithEmail(users, email).value.password.Some? &&
            compare(password, FirstWithEmail(users, email).value.password.value) &&
            !FirstWithEmail(users, email).value.isActive ==>
              r == Err(ApiError(Forbidden, AccountNotVerified))
  {
    var u := FirstWithEmail(users, email);
    if u.None? then Err(ApiError(Unauthorized, WrongCredentials))
    else if u.value.password.None? then Internal(IllegalHashArguments)
    else if !compare(password, u.value.password.value) then Err(ApiError(Unauthorized, WrongCredentials))
    else if !u.value.isActive then Err(ApiError(Forbidden, AccountNotVerified))
    else Ok(u.value)
  }

  /**
   * An unknown email and a wrong password are indistinguishable to the
   * caller, and an unverified account is only revealed to someone who
   * knows its password.
   */
  lemma LoginDoesNotRevealAccounts(users: seq<User>, email: string, password: string,
                                   compare: (string, PasswordHash) -> bool)
    ensures var r := LoginCheck(users, email, password, compare);
      r == Err(ApiError(Forbidden, AccountNotVerified)) ==>
        && FirstWithEmail(users, email).Some?
        && FirstWithEmail(users, email).value.password.Some?
        && compare(password, FirstWithEmail(users, email).value.password.value)
    ensures var r := LoginCheck(users, email, password, compare);
      FirstWithEmail(users, email).Some? && FirstWithEmail(users, email).value.password.Some? &&
      !compare(password, FirstWithEmail(users, email).value.password.value) ==>
        r == LoginCheck([], email, password, compare)
  {
  }

  /**
   * `login`: after the checks, stores the issued refresh token on the
   * account and answers with both tokens and the account without secrets.
   */
  method Login(store: UserStore, email: string, password: string, compare: (string, PasswordHash) -> bool,
               accessToken: string, refreshToken: string) returns (r: Result<LoginResult>)
    requires store.Valid()
    modifies store
    ensures store.Valid()
    ensures var c := LoginCheck(old(store.users), email, password, compare);
      && (c.Err? ==> r == Err(c.error) && store.users == old(store.users))
      && (c.Ok? ==>
            && r == Ok(LoginResult(WithoutSecrets(c.value), accessToken, refreshToken))
            && store.users == old(store.users)[c.value.id := c.value.(refreshToken := Some(refreshToken))])
  {
    var c := LoginCheck(store.users, email, password, compare);
    if c.Err? {
      return Err(c.error);
    }
    StoredUserIsAtItsId(store.users, c.value);
    store.Put(c.value.(refreshToken := Some(refreshToken)));
    r := Ok(LoginResult(WithoutSecrets(c.value), accessToken, refreshToken));
  }

  /**
   * `refreshToken`: a present token, that the verifier accepts, naming an
   * account whose stored refresh token is this very token, earns the
   * access token issued for it. `verify` yields the `_id` claim of a token
   * it accepts.
   */
  function RefreshAccess(users: seq<User>, token: Option<string>, verify: string -> Option<IdArg>, issued: string)
    : (r: Result<string>)
    ensures token.None? || token == Some("") ==> r == Err(ApiError(Unauthorized, RefreshTokenMissing))
    ensures r.Ok? <==> && token.Some? && token.value != ""
                       && verify(token.value).Some? && verify(token.value).value.Parsed?
                       && verify(token.value).value.id < |users|
                       && users[verify(token.value).value.id].refreshToken == token
    ensures r.Ok? ==> r.value == issued
  {
    if token.None? || token.value == "" then Err(ApiError(Unauthorized, RefreshTokenMissing))
    else
      match verify(token.value)
      case None => Internal(TokenVerificationFailed)
      case Some(Malformed) | Some(Empty) => Internal(InvalidIdentifier)
      case Some(Absent) => Err(ApiError(Unauthorized, RefreshTokenRejected))
      case Some(Parsed(id)) =>
        if id >= |users| || users[id].refreshToken != token then Err(ApiError(Unauthorized, RefreshTokenRejected))
        else Ok(issued)
  }

  /** The refresh token a successful login hands out is accepted by the next refresh. */
  lemma LoginThenRefresh(users: seq<User>, email: string, password: string, compare: (string, PasswordHash) -> bool,
                         refreshToken: string, verify: string -> Option<IdArg>, issued: string)
    requires forall i :: 0 <= i < |users| ==> users[i].id == i
    requires LoginCheck(users, email, password, compare).Ok? && refreshToken != ""
    requires verify(refreshToken) == Some(Parsed(LoginCheck(users, email, password, compare).value.id))
    ensures var u := LoginCheck(users, email, password, compare).value;
      RefreshAccess(users[u.id := u.(refreshToken := Some(refreshToken))], Some(refreshToken), verify, issued) == Ok(issued)
  {
    StoredUserIsAtItsId(users, LoginCheck(users, email, password, compare).value);
  }

  /** `getDetails`: the account without its password, refresh token and verify token. */
  function GetDetails(users: seq<User>, id: IdArg): (r: Result<User>)
    ensures id.Unparsable() ==> r == Internal(InvalidIdentifier)
    ensures r.Ok? <==> id.Parsed? && id.id < |users|
    ensures !id.Unparsable() && r.Err? ==> r.error == ApiError(NotFound, UserNotFound)
    ensures r.Ok? ==> && r.value.password == None && r.value.refreshToken == None && r.value.verifyToken == None
                      && r.value.(password := users[id.id].password, refreshToken := users[id.id].refreshToken,
                                  verifyToken := users[id.id].verifyToken) == users[id.id]
  {
    match id
    case Malformed | Empty => Internal(InvalidIdentifier)
    case Absent => Err(ApiError(NotFound, UserNotFound))
    case Parsed(i) =>
      if i < |users| then Ok(WithoutSecrets(users[i]).(verifyToken := None))
      else Err(ApiError(NotFound, UserNotFound))
  }

  /** The listing a favourite names must exist and be live. */
  function FavoriteTarget(listings: seq<ListingModel.Listing>, listingId: IdArg): (r: Result<Id>)
    ensures r.Ok? <==> listingId.Parsed? && listingId.id < |listings| && !listings[listingId.id].destroyed
    ensures r.Ok? ==> r.value == listingId.id
    ensures listingId.Unparsable() ==> r == Internal(InvalidIdentifier)
    ensures !listingId.Unparsable() && r.Err? ==> r.error == ApiError(NotFound, ListingNotFound)
  {
    var found := ListingController.Lookup(listings, listingId);
    if found.Err? then Err(found.error)
    else if found.value.destroyed then Err(ApiError(NotFound, ListingNotFound))
    else Ok(listingId.id)
  }

  /** The user collection after `$addToSet` / `$pull` on one account's favourites (no such account: no change). */
  function WithFavorites(users: seq<User>, user: Id, favorites: seq<Id> -> seq<Id>): (r: seq<User>)
    ensures |r| == |users|
    ensures forall i :: 0 <= i < |users| && i != user ==> r[i] == users[i]
    ensures user < |users| ==> r[user] == users[user].(favorites := favorites(users[user].favorites))
  {
    if user < |users| then users[user := users[user].(favorites := favorites(users[user].favorites))] else users
  }

  /** `addFavorite`: adds a live listing to the set of favourites; adding twice is adding once. */
  method AddFavorite(store: UserStore, listings: seq<ListingModel.Listing>, user: Id, listingId: IdArg)
    returns (r: Result<()>)
    requires store.Valid()
    modifies store
    ensures store.Valid()
    ensures var t := FavoriteTarget(listings, listingId);
      && (t.Err? ==> r == Err(t.error) && store.users == old(store.users))
      && (t.Ok? ==> r == Ok(()) && store.users == WithFavorites(old(store.users), user, s => AddToSet(s, t.value)))
  {
    var t := FavoriteTarget(listings, listingId);
    if t.Err? {
      return Err(t.error);
    }
    if user < |store.users| {
      store.Put(store.users[user].(favorites := AddToSet(store.users[user].favorites, t.value)));
    }
    r := Ok(());
  }

  /** `removeFavorite`: pulls the id from the favourites without looking the listing up. */
  method RemoveFavorite(store: UserStore, user: Id, listingId: IdArg) returns (r: Result<()>)
    requires store.Valid()
    modifies store
    ensures store.Valid()
    ensures listingId.Unparsable() ==> r == Internal(InvalidIdentifier) && store.users == old(store.users)
    ensures listingId.Absent? ==> r == Ok(()) && store.users == old(store.users)
    ensures listingId.Parsed? ==>
              r == Ok(()) && store.users == WithFavorites(old(store.users), user, s => Pull(s, listingId.id))
  {
    match listingId
    case Malformed | Empty =>
      r := Internal(InvalidIdentifier);
    case Absent =>
      // `new ObjectId(undefined)` is a fresh id that no favourite holds
      r := Ok(());
    case Parsed(l) =>
      if user < |store.users| {
        store.Put(store.users[user].(favorites := Pull(store.users[user].favorites, l)));
      }
      r := Ok(());
  }

  /**
   * Favourites behave as a set: adding keeps them duplicate-free, adding
   * again changes nothing, and removing what was just added restores them.
   */
  lemma FavoritesAreASet(favorites: seq<Id>, l: Id)
    requires NoDuplicates(favorites)
    ensures NoDuplicates(AddToSet(favorites, l))
    ensures AddToSet(AddToSet(favorites, l), l) == AddToSet(favorites, l)
    ensures l !in favorites ==> Pull(AddToSet(favorites, l), l) == favorites
    ensures l !in Pull(AddToSet(favorites, l), l)
  {
    AddToSetKeepsDistinct(favorites, l);
    if l !in favorites {
      PullUndoesAddToSet(favorites, l);
    }
  }
}
