/**
 * The listing endpoints: create as the signed-in seller, read one, filter
 * the catalogue, and update or soft-delete one's own listing.
 */
module ListingController {
  import opened Common
  import opened ListingModel

  /** `POST /listings`: the body's fields, with the seller always the signed-in user. */
  method CreateListing(store: ListingStore, user: Id, body: ListingInput, isUri: string -> bool, now: Timestamp)
    returns (r: Result<Id>)
    requires store.Valid()
    modifies store
    ensures store.Valid()
    ensures var l := NewListing(body.(sellerId := Parsed(user)), isUri, |old(store.listings)|, now);
      && (l.Ok? ==> r == Ok(|old(store.listings)|) && store.listings == old(store.listings) + [l.value])
      && (l.Err? ==> r == Err(l.error) && store.listings == old(store.listings))
  {
    r := store.CreateNew(body.(sellerId := Parsed(user)), isUri, now);
  }

  /** Whatever seller id the body names, a created listing belongs to the caller. */
  lemma CreatedListingBelongsToCaller(user: Id, body: ListingInput, isUri: string -> bool, id: Id, now: Timestamp)
    ensures var l := NewListing(body.(sellerId := Parsed(user)), isUri, id, now);
      && (l.Ok? <==> SchemaAccepts(body.(sellerId := Parsed(user)), isUri))
      && (l.Ok? ==> l.value.sellerId == user && l.value.status in STATUSES)
  {
  }

  /** The record behind `GET /listings/:id`, resolved from a path parameter. */
  function Lookup(listings: seq<Listing>, id: IdArg): (r: Result<Listing>)
    ensures id.Unparsable() ==> r == Internal(InvalidIdentifier)
    ensures id.Absent? ==> r == Err(ApiError(NotFound, ListingNotFound))
    ensures id.Parsed? ==> (r.Ok? <==> id.id < |listings|)
    ensures id.Parsed? && r.Ok? ==> r.value == listings[id.id]
    ensures id.Parsed? && r.Err? ==> r.error == ApiError(NotFound, ListingNotFound)
  {
    match id
    case Malformed | Empty => Internal(InvalidIdentifier)
    case Absent => Err(ApiError(NotFound, ListingNotFound))
    case Parsed(i) =>
      if i < |listings| then Ok(listings[i]) else Err(ApiError(NotFound, ListingNotFound))
  }

  /** `GET /listings/:id`: a soft-deleted listing is reported as missing. */
  function GetDetails(store: ListingStore, id: IdArg): (r: Result<Listing>)
    reads store
    requires store.Valid()
    ensures r.Ok? <==> id.Parsed? && id.id < |store.listings| && !store.listings[id.id].destroyed
    ensures r.Ok? ==> r.value == store.listings[id.id] && r.value.id == id.id
    ensures id.Unparsable() ==> r == Internal(InvalidIdentifier)
    ensures !id.Unparsable() && r.Err? ==> r.error == ApiError(NotFound, ListingNotFound)
  {
    var found := Lookup(store.listings, id);
    if found.Ok? && found.value.destroyed then Err(ApiError(NotFound, ListingNotFound))
    else found
  }

  /**
   * The query string of `GET /listings`. An empty text stands for a key
   * that is absent or empty (both falsy); a price is given unless it is
   * absent or empty, and then parsed.
   */
  datatype ListingsRequest = ListingsRequest(
    category: string,
    status: string,
    location: string,
    minPrice: NumArg,
    maxPrice: NumArg)

  function PriceBoundOf(a: NumArg): (r: Option<PriceBound>)
    ensures r.None? <==> a.NoArg?
    ensures a.Num? ==> r == Some(Bound(a.n))
  {
    match a
    case NoArg => None
    case NotANumber => Some(NaNBound)
    case Num(n) => Some(Bound(n))
  }

  function TextParam(s: string): Option<string> {
    if s == "" then None else Some(s)
  }

  /** A price satisfies the bounds given; a bound that does not parse admits nothing. */
  predicate PriceWithin(q: ListingsRequest, price: int) {
    && (q.minPrice.Num? ==> price >= q.minPrice.n)
    && (q.maxPrice.Num? ==> price <= q.maxPrice.n)
    && !q.minPrice.NotANumber? && !q.maxPrice.NotANumber?
  }

  /** Everything the request asks of a listing except its category. */
  predicate OtherCriteria(q: ListingsRequest, l: Listing) {
    && !l.destroyed
    && (q.status != "" ==> l.status == q.status)
    && (q.location != "" ==> l.location.Some? && ContainsIgnoreCase(l.location.value, q.location))
    && PriceWithin(q, l.price)
  }

  /** The filter `getListings` builds as written: the category is compared with `category`. */
  function BuildFilterAsWritten(q: ListingsRequest): (r: ListingQuery)
    ensures forall l :: Matches(r, l) <==>
              OtherCriteria(q, l) && (q.category != "" ==> l.category == Some(q.category))
  {
    ListingQuery(Some(false), TextParam(q.category), None, TextParam(q.status), TextParam(q.location),
                 PriceBoundOf(q.minPrice), PriceBoundOf(q.maxPrice))
  }

  /** The filter with the category compared with `categoryId`, the key listings are created with. */
  function BuildFilter(q: ListingsRequest): (r: ListingQuery)
    ensures forall l :: Matches(r, l) <==>
              OtherCriteria(q, l) && (q.category != "" ==> l.categoryId == q.category)
  {
    ListingQuery(Some(false), None, TextParam(q.category), TextParam(q.status), TextParam(q.location),
                 PriceBoundOf(q.minPrice), PriceBoundOf(q.maxPrice))
  }

  /** As written, asking for any category hides every listing as created: none has a `category`. */
  lemma CategoryFilterMissesCreatedListings(q: ListingsRequest, input: ListingInput, isUri: string -> bool, id: Id, now: Timestamp)
    requires q.category != ""
    requires NewListing(input, isUri, id, now).Ok?
    ensures !Matches(BuildFilterAsWritten(q), NewListing(input, isUri, id, now).value)
  {
  }

  /** Filtering on `categoryId` finds a live listing created in that category. */
  lemma CategoryFilterFindsCreatedListings(q: ListingsRequest, input: ListingInput, isUri: string -> bool, id: Id, now: Timestamp)
    requires NewListing(input, isUri, id, now).Ok? && input.destroyed.None?
    requires q == ListingsRequest(input.categoryId.value, "", "", NoArg, NoArg)
    ensures Matches(BuildFilter(q), NewListing(input, isUri, id, now).value)
  {
  }

  /**
   * `GET /listings` as written: every live listing that satisfies the
   * request, in stored order, with a given category compared with the
   * `category` field.
   */
  method GetListings(store: ListingStore, q: ListingsRequest) returns (r: seq<Listing>)
    ensures r == Selected(store.listings, BuildFilterAsWritten(q))
    ensures forall i :: 0 <= i < |r| ==> r[i] in store.listings && !r[i].destroyed
    ensures forall i :: 0 <= i < |r| ==>
              OtherCriteria(q, r[i]) && (q.category != "" ==> r[i].category == Some(q.category))
    ensures forall i :: 0 <= i < |store.listings| ==>
              (OtherCriteria(q, store.listings[i]) &&
               (q.category != "" ==> store.listings[i].category == Some(q.category))) ==> store.listings[i] in r
  {
    r := store.Find(BuildFilterAsWritten(q), None, 0, 0);
  }

  /** `GET /listings` with a given category compared with `categoryId`, the key listings are created with. */
  method GetListingsByCategoryId(store: ListingStore, q: ListingsRequest) returns (r: seq<Listing>)
    ensures r == Selected(store.listings, BuildFilter(q))
    ensures forall i :: 0 <= i < |r| ==> r[i] in store.listings && !r[i].destroyed
    ensures forall i :: 0 <= i < |r| ==>
              OtherCriteria(q, r[i]) && (q.category != "" ==> r[i].categoryId == q.category)
    ensures forall i :: 0 <= i < |store.listings| ==>
              (OtherCriteria(q, store.listings[i]) &&
               (q.category != "" ==> store.listings[i].categoryId == q.category)) ==> store.listings[i] in r
  {
    r := store.Find(BuildFilter(q), None, 0, 0);
  }

  /** `PATCH /listings/:id`: 404 for an unknown id, 403 unless the caller is the seller. */
  method UpdateListing(store: ListingStore, user: Id, id: IdArg, patch: seq<ListingField>, now: Timestamp)
    returns (r: Result<Listing>)
    requires store.Valid()
    modifies store
    ensures store.Valid()
    ensures Lookup(old(store.listings), id).Err? ==> r == Lookup(old(store.listings), id) && store.listings == old(store.listings)
    ensures Lookup(old(store.listings), id).Ok? && Lookup(old(store.listings), id).value.sellerId != user ==>
              r == Err(ApiError(Forbidden, NotSellerUpdate)) && store.listings == old(store.listings)
    ensures Lookup(old(store.listings), id).Ok? && Lookup(old(store.listings), id).value.sellerId == user ==>
              r == Ok(Patched(old(store.listings)[id.id], patch, now)) &&
              store.listings == old(store.listings)[id.id := r.value]
  {
    var found := Lookup(store.listings, id);
    if found.Err? {
      return Err(found.error);
    }
    if found.value.sellerId != user {
      return Err(ApiError(Forbidden, NotSellerUpdate));
    }
    var updated := store.Update(id.id, patch, now);
    r := Ok(updated.value);
  }

  /** `DELETE /listings/:id`: the same guards, then a soft delete. */
  method DeleteListing(store: ListingStore, user: Id, id: IdArg, now: Timestamp) returns (r: Result<Listing>)
    requires store.Valid()
    modifies store
    ensures store.Valid()
    ensures Lookup(old(store.listings), id).Err? ==> r == Lookup(old(store.listings), id) && store.listings == old(store.listings)
    ensures Lookup(old(store.listings), id).Ok? && Lookup(old(store.listings), id).value.sellerId != user ==>
              r == Err(ApiError(Forbidden, NotSellerDelete)) && store.listings == old(store.listings)
    ensures Lookup(old(store.listings), id).Ok? && Lookup(old(store.listings), id).value.sellerId == user ==>
              r == Ok(SoftDeleted(old(store.listings)[id.id], now)) &&
              store.listings == old(store.listings)[id.id := r.value]
  {
    var found := Lookup(store.listings, id);
    if found.Err? {
      return Err(found.error);
    }
    if found.value.sellerId != user {
      return Err(ApiError(Forbidden, NotSellerDelete));
    }
    var deleted := store.DeleteOneById(id.id, now);
    r := Ok(deleted.value);
  }

  /** A deleted listing disappears from `GET /listings/:id` and from every catalogue query. */
  lemma DeletedListingIsHidden(l: Listing, now: Timestamp, q: ListingsRequest)
    ensures !OtherCriteria(q, SoftDeleted(l, now))
    ensures !Matches(BuildFilter(q), SoftDeleted(l, now))
  {
  }
}
