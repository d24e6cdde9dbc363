/** The review collection: one rating and optional comment per author and listing. */
module ReviewModel {
  import opened Common
  import opened Collections

  datatype Review = Review(
    id: Id,
    userId: Id,
    listingId: Id,
    rating: int,
    comment: Option<string>,
    createdAt: Timestamp,
    updatedAt: Option<Timestamp>,
    destroyed: bool)

  /** The document handed to `createNew`; a key left out is None. */
  datatype ReviewInput = ReviewInput(
    userId: IdArg,
    listingId: IdArg,
    rating: Option<int>,
    comment: Option<string>)

  /** The review schema: both ids present and non-empty, an integer rating from 1 to 5, a trimmed comment if any. */
  predicate SchemaAccepts(input: ReviewInput) {
    && !input.userId.Falsy()
    && !input.listingId.Falsy()
    && input.rating.Some? && 1 <= input.rating.value <= 5
    && (input.comment.Some? ==> IsTrimmedText(input.comment.value))
  }

  /** The record `createNew` inserts under `id`: validated first, then both ids parsed. */
  function NewReview(input: ReviewInput, id: Id, now: Timestamp): (r: Result<Review>)
    ensures r.Ok? <==> SchemaAccepts(input) && input.userId.Parsed? && input.listingId.Parsed?
    ensures !SchemaAccepts(input) ==> r == Err(ApiError(InternalError, SchemaRejected))
    ensures SchemaAccepts(input) && (input.userId.Malformed? || input.listingId.Malformed?) ==>
              r == Err(ApiError(InternalError, InvalidReviewIdsFormat))
    ensures r.Ok? ==> && r.value.id == id
                      && r.value.userId == input.userId.id && r.value.listingId == input.listingId.id
                      && 1 <= r.value.rating <= 5 && Some(r.value.rating) == input.rating
                      && r.value.comment == input.comment
    ensures r.Ok? ==> r.value.createdAt == now && r.value.updatedAt == None && !r.value.destroyed
  {
    if !SchemaAccepts(input) then Err(ApiError(InternalError, SchemaRejected))
    else if input.userId.Malformed? || input.listingId.Malformed? then
      Err(ApiError(InternalError, InvalidReviewIdsFormat))
    else Ok(Review(id, input.userId.id, input.listingId.id, input.rating.value, input.comment, now, None, false))
  }

  /** One `key: value` entry of an update document. */
  datatype ReviewField =
    | SetId(Id)
    | SetUserId(Id)
    | SetListingId(Id)
    | SetCreatedAt(Timestamp)
    | SetRating(int)
    | SetComment(Option<string>)
    | SetUpdatedAt(Option<Timestamp>)
    | SetDestroy(bool)

  datatype ReviewKey = IdKey | UserIdKey | ListingIdKey | CreatedAtKey | RatingKey | CommentKey | UpdatedAtKey | DestroyKey

  function KeyOf(f: ReviewField): ReviewKey {
    match f
    case SetId(_) => IdKey
    case SetUserId(_) => UserIdKey
    case SetListingId(_) => ListingIdKey
    case SetCreatedAt(_) => CreatedAtKey
    case SetRating(_) => RatingKey
    case SetComment(_) => CommentKey
    case SetUpdatedAt(_) => UpdatedAtKey
    case SetDestroy(_) => DestroyKey
  }

  /** The stored value of one field, as the entry that would set it. */
  function Get(v: Review, k: ReviewKey): (f: ReviewField)
    ensures KeyOf(f) == k
  {
    match k
    case IdKey => SetId(v.id)
    case UserIdKey => SetUserId(v.userId)
    case ListingIdKey => SetListingId(v.listingId)
    case CreatedAtKey => SetCreatedAt(v.createdAt)
    case RatingKey => SetRating(v.rating)
    case CommentKey => SetComment(v.comment)
    case UpdatedAtKey => SetUpdatedAt(v.updatedAt)
    case DestroyKey => SetDestroy(v.destroyed)
  }

  /** `$set` of one entry: that field takes the entry's value and no other field moves. */
  function Apply(v: Review, f: ReviewField): (r: Review)
    ensures Get(r, KeyOf(f)) == f
    ensures forall k :: k != KeyOf(f) ==> Get(r, k) == Get(v, k)
  {
    match f
    case SetId(x) => v.(id := x)
    case SetUserId(x) => v.(userId := x)
    case SetListingId(x) => v.(listingId := x)
    case SetCreatedAt(x) => v.(createdAt := x)
    case SetRating(x) => v.(rating := x)
    case SetComment(x) => v.(comment := x)
    case SetUpdatedAt(x) => v.(updatedAt := x)
    case SetDestroy(x) => v.(destroyed := x)
  }

  function ApplyAll(v: Review, fs: seq<ReviewField>): Review {
    if fs == [] then v else Apply(ApplyAll(v, fs[..|fs| - 1]), fs[|fs| - 1])
  }

  /** The value a document supplies for `k`: its last entry with that key. */
  function LastFor(fs: seq<ReviewField>, k: ReviewKey): (r: Option<ReviewField>)
    ensures r.Some? ==> r.value in fs && KeyOf(r.value) == k
    ensures r.Some? ==> exists i :: 0 <= i < |fs| && fs[i] == r.value && forall j :: i < j < |fs| ==> KeyOf(fs[j]) != k
    ensures r.None? <==> forall i :: 0 <= i < |fs| ==> KeyOf(fs[i]) != k
  {
    if fs == [] then None
    else if KeyOf(fs[|fs| - 1]) == k then Some(fs[|fs| - 1])
    else LastFor(fs[..|fs| - 1], k)
  }

  lemma {:induction false} ApplyAllGet(v: Review, fs: seq<ReviewField>, k: ReviewKey)
    ensures Get(ApplyAll(v, fs), k) == LastFor(fs, k).GetOr(Get(v, k))
  {
    if fs != [] {
      ApplyAllGet(v, fs[..|fs| - 1], k);
    }
  }

  /** `INVALID_UPDATE_FIELDS`: the keys an update may never write. */
  predicate IsProtected(f: ReviewField) {
    f.SetId? || f.SetUserId? || f.SetListingId? || f.SetCreatedAt?
  }

  predicate ProtectedKey(k: ReviewKey) {
    k == IdKey || k == UserIdKey || k == ListingIdKey || k == CreatedAtKey
  }

  /** The entry a document supplies last for `k`, after one more entry. */
  lemma LastForAppend(fs: seq<ReviewField>, f: ReviewField, k: ReviewKey)
    ensures LastFor(fs + [f], k) == if KeyOf(f) == k then Some(f) else LastFor(fs, k)
  {
    assert (fs + [f])[..|fs|] == fs;
  }

  lemma ProtectedEntryHasProtectedKey(f: ReviewField)
    ensures IsProtected(f) ==> ProtectedKey(KeyOf(f))
  {
  }

  /** One more entry keeps two documents agreeing on `k` when a stripped entry never sets `k`. */
  lemma StrippingStep(init: seq<ReviewField>, kept: seq<ReviewField>, last: ReviewField, k: ReviewKey)
    requires LastFor(kept, k) == LastFor(init, k)
    requires IsProtected(last) ==> KeyOf(last) != k
    ensures LastFor(kept + (if IsProtected(last) then [] else [last]), k) == LastFor(init + [last], k)
  {
    LastForAppend(init, last, k);
    if IsProtected(last) {
      assert kept + [] == kept;
    } else {
      LastForAppend(kept, last, k);
    }
  }

  lemma {:induction false} StrippingKeepsOtherKeys(fs: seq<ReviewField>, k: ReviewKey)
    requires !ProtectedKey(k)
    ensures LastFor(Without(fs, IsProtected), k) == LastFor(fs, k)
  {
    if fs != [] {
      var n := |fs| - 1;
      var init, last := fs[..n], fs[n];
      assert init + [last] == fs;
      StrippingKeepsOtherKeys(init, k);
      WithoutAppend(init, last, IsProtected);
      ProtectedEntryHasProtectedKey(last);
      StrippingStep(init, Without(init, IsProtected), last, k);
    }
  }

  /** The record after `update(id, patch)` at time `now`. */
  function Patched(v: Review, patch: seq<ReviewField>, now: Timestamp): (r: Review)
    ensures r.id == v.id && r.userId == v.userId && r.listingId == v.listingId && r.createdAt == v.createdAt
    ensures r.updatedAt == Some(now)
  {
    var kept := Without(patch, IsProtected);
    ApplyAllGet(v, kept, IdKey);
    ApplyAllGet(v, kept, UserIdKey);
    ApplyAllGet(v, kept, ListingIdKey);
    ApplyAllGet(v, kept, CreatedAtKey);
    ApplyAll(v, kept).(updatedAt := Some(now))
  }

  /**
   * An update never changes `_id`, the author, the listing or `createdAt`,
   * stamps `updatedAt`, and otherwise changes exactly the supplied fields.
   */
  lemma UpdateChangesOnlySuppliedFields(v: Review, patch: seq<ReviewField>, now: Timestamp, k: ReviewKey)
    ensures var r := Patched(v, patch, now);
      && r.id == v.id && r.userId == v.userId && r.listingId == v.listingId && r.createdAt == v.createdAt
      && r.updatedAt == Some(now)
      && (!ProtectedKey(k) && k != UpdatedAtKey ==> Get(r, k) == LastFor(patch, k).GetOr(Get(v, k)))
  {
    ApplyAllGet(v, Without(patch, IsProtected), k);
    if !ProtectedKey(k) {
      StrippingKeepsOtherKeys(patch, k);
    }
  }

  /** Nothing checks an update's values: a rating outside 1..5 is stored as given. */
  lemma UpdateDoesNotCheckRating(v: Review, rating: int, now: Timestamp)
    ensures Patched(v, [SetRating(rating)], now).rating == rating
  {
    assert Without([SetRating(rating)], IsProtected) == [SetRating(rating)];
    assert ApplyAll(v, [SetRating(rating)]) == Apply(ApplyAll(v, []), SetRating(rating));
  }

  /** `deleteOneById`: the record stays, flagged destroyed and stamped. */
  function SoftDeleted(v: Review, now: Timestamp): (r: Review)
    ensures r.destroyed && r.updatedAt == Some(now)
    ensures r.(destroyed := v.destroyed, updatedAt := v.updatedAt) == v
  {
    v.(destroyed := true, updatedAt := Some(now))
  }

  /** `findByListingId`: the live reviews of a listing, in stored order. */
  function OfListing(reviews: seq<Review>, listing: Id): (r: seq<Review>)
    ensures |r| <= |reviews|
    ensures forall i :: 0 <= i < |r| ==> r[i] in reviews && r[i].listingId == listing && !r[i].destroyed
    ensures forall i :: 0 <= i < |reviews| && reviews[i].listingId == listing && !reviews[i].destroyed ==>
              reviews[i] in r
  {
    if reviews == [] then []
    else if reviews[0].listingId == listing && !reviews[0].destroyed then
      [reviews[0]] + OfListing(reviews[1..], listing)
    else OfListing(reviews[1..], listing)
  }

  /** A review appended last comes last in its listing's list if it is live, and nowhere otherwise. */
  lemma {:induction false} OfListingAppend(reviews: seq<Review>, v: Review, listing: Id)
    ensures OfListing(reviews + [v], listing) ==
            OfListing(reviews, listing) + (if v.listingId == listing && !v.destroyed then [v] else [])
  {
    if reviews == [] {
      assert reviews + [v] == [v];
    } else {
      assert (reviews + [v])[1..] == reviews[1..] + [v];
      OfListingAppend(reviews[1..], v, listing);
    }
  }

  /** Ids are insertion positions. */
  ghost predicate Indexed(reviews: seq<Review>) {
    forall i :: 0 <= i < |reviews| ==> reviews[i].id == i
  }

  /** A deleted review is listed under no listing; every other listing's list is unchanged. */
  lemma DeleteHidesReview(reviews: seq<Review>, i: nat, now: Timestamp, listing: Id)
    requires Indexed(reviews) && i < |reviews|
    ensures forall v :: v in OfListing(reviews[i := SoftDeleted(reviews[i], now)], listing) ==> v.id != i
    ensures listing != reviews[i].listingId ==>
              OfListing(reviews[i := SoftDeleted(reviews[i], now)], listing) == OfListing(reviews, listing)
  {
    var after := reviews[i := SoftDeleted(reviews[i], now)];
    forall v | v in OfListing(after, listing) ensures v.id != i {
      var k :| 0 <= k < |after| && after[k] == v;
    }
    if listing != reviews[i].listingId {
      OfListingIgnoresOthers(reviews, i, SoftDeleted(reviews[i], now), listing);
    }
  }

  /** Replacing a review of another listing by one still of another listing leaves this list alone. */
  lemma {:induction false} OfListingIgnoresOthers(reviews: seq<Review>, i: nat, v: Review, listing: Id)
    requires i < |reviews| && reviews[i].listingId != listing && v.listingId != listing
    ensures OfListing(reviews[i := v], listing) == OfListing(reviews, listing)
  {
    if i > 0 {
      assert reviews[i := v][1..] == reviews[1..][i - 1 := v];
      OfListingIgnoresOthers(reviews[1..], i - 1, v, listing);
    } else {
      assert reviews[i := v][1..] == reviews[1..];
    }
  }

  class ReviewStore {
    var reviews: seq<Review>

    ghost predicate Valid()
      reads this
    {
      Indexed(reviews)
    }

    constructor ()
      ensures Valid() && reviews == []
    {
      reviews := [];
    }

    method CreateNew(input: ReviewInput, now: Timestamp) returns (r: Result<Id>)
      requires Valid()
      modifies this
      ensures Valid()
      ensures NewReview(input, |old(reviews)|, now).Ok? ==>
                r == Ok(|old(reviews)|) && reviews == old(reviews) + [NewReview(input, |old(reviews)|, now).value]
      ensures NewReview(input, |old(reviews)|, now).Err? ==>
                r == Err(NewReview(input, |old(reviews)|, now).error) && reviews == old(reviews)
    {
      var v := NewReview(input, |reviews|, now);
      if v.Ok? {
        reviews := reviews + [v.value];
        r := Ok(v.value.id);
      } else {
        r := Err(v.error);
      }
    }

    function FindOneById(id: Id): (r: Option<Review>)
      reads this
      requires Valid()
      ensures r.Some? <==> id < |reviews|
      ensures r.Some? ==> r.value == reviews[id] && r.value.id == id
    {
      if id < |reviews| then Some(reviews[id]) else None
    }

    function FindByListingId(listing: Id): (r: seq<Review>)
      reads this
      ensures forall i :: 0 <= i < |r| ==> r[i] in reviews && r[i].listingId == listing && !r[i].destroyed
      ensures forall i :: 0 <= i < |reviews| && reviews[i].listingId == listing && !reviews[i].destroyed ==>
                reviews[i] in r
      ensures r == OfListing(reviews, listing)
    {
      OfListing(reviews, listing)
    }

    method Update(id: Id, patch: seq<ReviewField>, now: Timestamp) returns (r: Option<Review>)
      requires Valid()
      modifies this
      ensures Valid()
      ensures id >= |old(reviews)| ==> r == None && reviews == old(reviews)
      ensures id < |old(reviews)| ==>
                r == Some(Patched(old(reviews)[id], patch, now)) && reviews == old(reviews)[id := r.value]
    {
      var kept := DeleteKeys(patch, IsProtected);
      if id < |reviews| {
        var after := ApplyAll(reviews[id], kept).(updatedAt := Some(now));
        ApplyAllGet(reviews[id], kept, IdKey);
        reviews := reviews[id := after];
        r := Some(after);
      } else {
        r := None;
      }
    }

    method DeleteOneById(id: Id, now: Timestamp) returns (r: Option<Review>)
      requires Valid()
      modifies this
      ensures Valid()
      ensures id >= |old(reviews)| ==> r == None && reviews == old(reviews)
      ensures id < |old(reviews)| ==>
                r == Some(SoftDeleted(old(reviews)[id], now)) && reviews == old(reviews)[id := r.value]
    {
      if id < |reviews| {
        r := Some(SoftDeleted(reviews[id], now));
        reviews := reviews[id := r.value];
      } else {
        r := None;
      }
    }
  }
}
