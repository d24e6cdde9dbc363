/**
 * The review endpoints: review an existing listing as the signed-in user,
 * list a listing's reviews, and update or soft-delete one's own review.
 */
module ReviewController {
  import opened Common
  import ListingModel
  import opened ReviewModel
  import ListingController

  /** The review a request names, resolved from a path parameter. */
  function LookupReview(reviews: seq<Review>, id: IdArg): (r: Result<Review>)
    ensures id.Unparsable() ==> r == Internal(InvalidIdentifier)
    ensures r.Ok? <==> id.Parsed? && id.id < |reviews|
    ensures r.Ok? ==> r.value == reviews[id.id]
    ensures !id.Unparsable() && r.Err? ==> r.error == ApiError(NotFound, ReviewNotFound)
  {
    match id
    case Malformed | Empty => Internal(InvalidIdentifier)
    case Absent => Err(ApiError(NotFound, ReviewNotFound))
    case Parsed(i) => if i < |reviews| then Ok(reviews[i]) else Err(ApiError(NotFound, ReviewNotFound))
  }

  /**
   * `POST /reviews`: the listing must exist (a soft-deleted one still
   * counts); the author is always the signed-in user.
   */
  method CreateReview(listings: ListingModel.ListingStore, reviews: ReviewStore, user: Id,
                      listingId: IdArg, rating: Option<int>, comment: Option<string>, now: Timestamp)
    returns (r: Result<Id>)
    requires reviews.Valid()
    modifies reviews
    ensures reviews.Valid()
    ensures var found := ListingController.Lookup(listings.listings, listingId);
      && (found.Err? ==> r == Err(found.error) && reviews.reviews == old(reviews.reviews))
      && (found.Ok? ==>
            var v := NewReview(ReviewInput(Parsed(user), listingId, rating, comment), |old(reviews.reviews)|, now);
            && (v.Ok? ==> r == Ok(|old(reviews.reviews)|) && reviews.reviews == old(reviews.reviews) + [v.value])
            && (v.Err? ==> r == Err(v.error) && reviews.reviews == old(reviews.reviews)))
  {
    var found := ListingController.Lookup(listings.listings, listingId);
    if found.Err? {
      return Err(found.error);
    }
    r := reviews.CreateNew(ReviewInput(Parsed(user), listingId, rating, comment), now);
  }

  /** A review is created exactly when the listing exists and the rating and comment pass the schema. */
  lemma CreatedReviewIsValid(listings: seq<ListingModel.Listing>, user: Id, listingId: IdArg, rating: Option<int>,
                             comment: Option<string>, id: Id, now: Timestamp)
    ensures var v := NewReview(ReviewInput(Parsed(user), listingId, rating, comment), id, now);
      && (ListingController.Lookup(listings, listingId).Ok? && v.Ok? <==>
            && listingId.Parsed? && listingId.id < |listings|
            && rating.Some? && 1 <= rating.value <= 5
            && (comment.Some? ==> IsTrimmedText(comment.value)))
      && (v.Ok? ==> v.value.userId == user && v.value.listingId == listingId.id)
  {
  }

  /** `GET /reviews/listing/:listingId`: the listing's live reviews. */
  function GetReviewsByListingId(reviews: seq<Review>, listingId: IdArg): (r: Result<seq<Review>>)
    ensures listingId.Unparsable() ==> r == Internal(InvalidIdentifier)
    ensures listingId.Absent? ==> r == Ok([])
    ensures r.Ok? ==> forall i :: 0 <= i < |r.value| ==>
              r.value[i] in reviews && !r.value[i].destroyed && listingId.Parsed? &&
              r.value[i].listingId == listingId.id
    ensures listingId.Parsed? ==> r.Ok? && forall i :: 0 <= i < |reviews| ==>
              (reviews[i].listingId == listingId.id && !reviews[i].destroyed) ==> reviews[i] in r.value
    ensures listingId.Parsed? ==> r == Ok(OfListing(reviews, listingId.id))
  {
    match listingId
    case Malformed | Empty => Internal(InvalidIdentifier)
    case Absent => Ok([])
    case Parsed(l) => Ok(OfListing(reviews, l))
  }

  /** `PUT /reviews/:reviewId`: 404 for an unknown review, 403 unless the caller wrote it. */
  method UpdateReview(reviews: ReviewStore, user: Id, id: IdArg, patch: seq<ReviewField>, now: Timestamp)
    returns (r: Result<Review>)
    requires reviews.Valid()
    modifies reviews
    ensures reviews.Valid()
    ensures var found := LookupReview(old(reviews.reviews), id);
      && (found.Err? ==> r == Err(found.error) && reviews.reviews == old(reviews.reviews))
      && (found.Ok? && found.value.userId != user ==>
            r == Err(ApiError(Forbidden, NotAuthorUpdate)) && reviews.reviews == old(reviews.reviews))
      && (found.Ok? && found.value.userId == user ==>
            r == Ok(Patched(found.value, patch, now)) && reviews.reviews == old(reviews.reviews)[id.id := r.value])
  {
    var found := LookupReview(reviews.reviews, id);
    if found.Err? {
      return Err(found.error);
    }
    if found.value.userId != user {
      return Err(ApiError(Forbidden, NotAuthorUpdate));
    }
    var updated := reviews.Update(id.id, patch, now);
    r := Ok(updated.value);
  }

  /** `DELETE /reviews/:reviewId`: the same guards, then a soft delete. */
  method DeleteReview(reviews: ReviewStore, user: Id, id: IdArg, now: Timestamp) returns (r: Result<Review>)
    requires reviews.Valid()
    modifies reviews
    ensures reviews.Valid()
    ensures var found := LookupReview(old(reviews.reviews), id);
      && (found.Err? ==> r == Err(found.error) && reviews.reviews == old(reviews.reviews))
      && (found.Ok? && found.value.userId != user ==>
            r == Err(ApiError(Forbidden, NotAuthorDelete)) && reviews.reviews == old(reviews.reviews))
      && (found.Ok? && found.value.userId == user ==>
            r == Ok(SoftDeleted(found.value, now)) && reviews.reviews == old(reviews.reviews)[id.id := r.value])
  {
    var found := LookupReview(reviews.reviews, id);
    if found.Err? {
      return Err(found.error);
    }
    if found.value.userId != user {
      return Err(ApiError(Forbidden, NotAuthorDelete));
    }
    var deleted := reviews.DeleteOneById(id.id, now);
    r := Ok(deleted.value);
  }
}
