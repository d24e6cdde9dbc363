/**
 * The account endpoints that add rules of their own on top of the user
 * service: registration's duplicate-email check, the blanket 401 of token
 * refresh, the favourite guard and the admin user listing's pagination.
 */
module UserController {
  import opened Common
  import opened Collections
  import opened UserModel
  import opened UserService
  import ListingModel

  /** `POST /users/register`: a taken email is a conflict; otherwise the display name starts as the username. */
  method Register(store: UserStore, username: string, email: string, password: string,
                  hash: string -> PasswordHash, verifyToken: string, now: Timestamp) returns (r: Result<User>)
    requires store.Valid()
    modifies store
    ensures store.Valid()
    ensures FirstWithEmail(old(store.users), email).Some? ==>
              r == Err(ApiError(Conflict, EmailTaken)) && store.users == old(store.users)
    ensures FirstWithEmail(old(store.users), email).None? ==>
              && store.users == old(store.users) +
                   [Created(NewUser(username, email, hash(password), username, verifyToken, true), |old(store.users)|, now)]
              && r == Ok(store.users[|old(store.users)|].(password := None))
  {
    var existing := store.FindOneByEmail(email);
    if existing.Some? {
      return Err(ApiError(Conflict, EmailTaken));
    }
    var created := CreateNew(store, Registration(username, email, password, username), hash, verifyToken, now);
    r := Ok(created);
  }

  /** Registration never lets two accounts share an email. */
  lemma RegisterKeepsEmailsUnique(users: seq<User>, u: NewUser, now: Timestamp)
    requires UniqueEmails(users) && FirstWithEmail(users, u.email).None?
    ensures UniqueEmails(users + [Created(u, |users|, now)])
  {
    var after := users + [Created(u, |users|, now)];
    forall i, j | 0 <= i < j < |after| ensures after[i].email != after[j].email {
      if j == |users| {
        assert after[i] == users[i];
      } else {
        assert after[i] == users[i] && after[j] == users[j];
      }
    }
  }

  /** `GET /users/refresh_token`: whatever goes wrong, the caller gets the same 401. */
  function RefreshToken(users: seq<User>, cookie: Option<string>, verify: string -> Option<IdArg>, issued: string)
    : (r: Result<string>)
    ensures r.Err? ==> r.error == ApiError(Unauthorized, RefreshTokenInvalidOrExpired)
    ensures r.Ok? <==> RefreshAccess(users, cookie, verify, issued).Ok?
    ensures r.Ok? ==> r.value == issued
  {
    var result := RefreshAccess(users, cookie, verify, issued);
    if result.Ok? then result else Err(ApiError(Unauthorized, RefreshTokenInvalidOrExpired))
  }

  /** `POST /users/favorites`: a missing listing id is refused before any store access. */
  method AddFavorite(store: UserStore, listings: seq<ListingModel.Listing>, user: Id, listingId: IdArg)
    returns (r: Result<()>)
    requires store.Valid()
    modifies store
    ensures store.Valid()
    ensures listingId.Falsy() ==> r == Err(ApiError(BadRequest, ListingIdRequired)) && store.users == old(store.users)
    ensures !listingId.Falsy() ==>
              var t := FavoriteTarget(listings, listingId);
              && (t.Err? ==> r == Err(t.error) && store.users == old(store.users))
              && (t.Ok? ==> r == Ok(()) && store.users == WithFavorites(old(store.users), user, s => AddToSet(s, t.value)))
  {
    if listingId.Falsy() {
      return Err(ApiError(BadRequest, ListingIdRequired));
    }
    r := UserService.AddFavorite(store, listings, user, listingId);
  }

  // ---------------------------------------------------------------- admin listing

  /** The admin listing's query string. An empty text stands for an absent or empty key. */
  datatype UsersRequest = UsersRequest(page: NumArg, limit: NumArg, search: string, sortOrder: string)

  /** `parseInt(x) || fallback`: NaN and 0 fall back; any other number, negative ones included, is kept. */
  function IntOr(a: NumArg, fallback: int): (r: int)
    ensures a.Num? && a.n != 0 ==> r == a.n
    ensures !(a.Num? && a.n != 0) ==> r == fallback
  {
    if a.Num? && a.n != 0 then a.n else fallback
  }

  function Page(q: UsersRequest): int { IntOr(q.page, 1) }

  function Limit(q: UsersRequest): (r: int)
    ensures r != 0
  {
    IntOr(q.limit, 10)
  }

  /** `sortOrder`: ascending only for the exact text "asc". */
  function SortOrder(q: UsersRequest): (r: int)
    ensures r == 1 || r == -1
    ensures r == 1 <==> q.sortOrder == "asc"
  {
    if q.sortOrder == "asc" then 1 else -1
  }

  /** The database reads a negative limit as its absolute value. */
  function Abs(n: int): nat {
    if n < 0 then -n else n
  }

  function Skip(q: UsersRequest): int {
    (Page(q) - 1) * Limit(q)
  }

  /** `Math.ceil(total / limit)` for a non-zero integer limit. */
  function CeilDiv(total: nat, limit: int): (r: int)
    requires limit != 0
  {
    if limit > 0 then (total + limit - 1) / limit else -(total / -limit)
  }

  /** For a positive limit, the page count is the least number of pages that hold every result. */
  lemma CeilDivIsLeastCover(total: nat, limit: int)
    requires limit > 0
    ensures CeilDiv(total, limit) >= 0
    ensures CeilDiv(total, limit) * limit >= total
    ensures CeilDiv(total, limit) == 0 || (CeilDiv(total, limit) - 1) * limit < total
  {
    var q := CeilDiv(total, limit);
    var m := total + limit - 1;
    assert m == (m / limit) * limit + m % limit;
    assert q * limit == m - m % limit;
  }

  /** A page starting at `k * limit` holds results exactly when `k` is below the page count. */
  lemma {:induction false} PageHoldsResults(total: nat, limit: int, k: nat)
    requires limit > 0
    ensures k * limit < total <==> k < CeilDiv(total, limit)
  {
    CeilDivIsLeastCover(total, limit);
    var c := CeilDiv(total, limit);
    if k < c {
      assert k <= c - 1;
      assert k * limit <= (c - 1) * limit by {
        MulMonotone(k, c - 1, limit);
      }
    } else {
      assert k * limit >= c * limit by {
        MulMonotone(c, k, limit);
      }
    }
  }

  lemma MulMonotone(a: int, b: int, m: int)
    requires a <= b && m > 0
    ensures a * m <= b * m
  {
    assert b * m - a * m == (b - a) * m;
  }

  /** The filter: live accounts, and with a search text those whose name, email or username contains it. */
  predicate Listed(search: string, u: User) {
    && !u.destroyed
    && (search != "" ==>
          ContainsIgnoreCase(u.displayName, search) || ContainsIgnoreCase(u.email, search) ||
          ContainsIgnoreCase(u.username, search))
  }

  function Matching(users: seq<User>, search: string): (r: seq<User>)
    ensures |r| <= |users|
    ensures forall i :: 0 <= i < |r| ==> r[i] in users && Listed(search, r[i])
    ensures forall i :: 0 <= i < |users| && Listed(search, users[i]) ==> users[i] in r
  {
    if users == [] then []
    else if Listed(search, users[0]) then [users[0]] + Matching(users[1..], search)
    else Matching(users[1..], search)
  }

  /** The filter keeps each stored account at most once, in stored order: an account appended last comes last if it matches. */
  lemma {:induction false} MatchingAppend(users: seq<User>, u: User, search: string)
    ensures Matching(users + [u], search) == Matching(users, search) + (if Listed(search, u) then [u] else [])
  {
    if users == [] {
      assert users + [u] == [u];
    } else {
      assert (users + [u])[1..] == users[1..] + [u];
      MatchingAppend(users[1..], u, search);
    }
  }

  datatype UsersPage = UsersPage(data: seq<User>, total: nat, totalPages: int)

  /** The matching accounts sorted by creation time, in the requested direction. */
  function ByCreation(users: seq<User>, q: UsersRequest): (r: seq<User>)
    ensures |r| == |Matching(users, q.search)|
    ensures multiset(r) == multiset(Matching(users, q.search))
    ensures forall i, j :: 0 <= i < j < |r| ==> SortOrder(q) * r[i].createdAt <= SortOrder(q) * r[j].createdAt
  {
    var order := SortOrder(q);
    SortBy(Matching(users, q.search), (u: User) => order * u.createdAt)
  }

  /**
   * `getAllUsers`, sorted by creation time: the requested page of the
   * matching accounts, their count and the page count. A negative skip is
   * refused by the database.
   */
  function GetAllUsers(users: seq<User>, q: UsersRequest): (r: Result<UsersPage>)
    ensures r.Err? <==> Skip(q) < 0
    ensures r.Err? ==> r == Internal(NegativeSkip)
    ensures r.Ok? ==> r.value.data == Window(ByCreation(users, q), Skip(q), Abs(Limit(q)))
    ensures r.Ok? ==> && r.value.total == |Matching(users, q.search)|
                      && r.value.totalPages == CeilDiv(r.value.total, Limit(q))
                      && |r.value.data| <= Abs(Limit(q))
                      && (|r.value.data| > 0 <==> Skip(q) < r.value.total)
                      && (Skip(q) + Abs(Limit(q)) <= r.value.total ==> |r.value.data| == Abs(Limit(q)))
    ensures r.Ok? ==> forall i :: 0 <= i < |r.value.data| ==>
              Skip(q) + i < r.value.total && r.value.data[i] == ByCreation(users, q)[Skip(q) + i]
    ensures r.Ok? ==> forall i :: 0 <= i < |r.value.data| ==> r.value.data[i] in users && Listed(q.search, r.value.data[i])
    ensures r.Ok? ==> forall i, j :: 0 <= i < j < |r.value.data| ==>
              SortOrder(q) * r.value.data[i].createdAt <= SortOrder(q) * r.value.data[j].createdAt
  {
    if Skip(q) < 0 then Internal(NegativeSkip)
    else
      var matching := Matching(users, q.search);
      var sorted := ByCreation(users, q);
      SameElements(sorted, matching);
      Ok(UsersPage(Window(sorted, Skip(q), Abs(Limit(q))), |matching|, CeilDiv(|matching|, Limit(q))))
  }

  /** With a positive limit, a page in range is never empty and a page past the last one always is. */
  lemma PagesAreConsistent(users: seq<User>, q: UsersRequest)
    requires Limit(q) > 0 && Page(q) >= 1
    ensures GetAllUsers(users, q).Ok?
    ensures var p := GetAllUsers(users, q).value;
      |p.data| > 0 <==> Page(q) <= p.totalPages
  {
    var limit, k := Limit(q), Page(q) - 1;
    assert Skip(q) == k * limit;
    MulMonotone(0, k, limit);
    var p := GetAllUsers(users, q).value;
    PageHoldsResults(p.total, limit, k);
  }
}
