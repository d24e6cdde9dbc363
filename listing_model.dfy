/**
 * The listing collection: creation against the listing schema, the
 * deduplicating view counter, field-stripping updates, soft deletion and
 * the filtered, sorted and paged `find`.
 */
module ListingModel {
  import opened Common
  import opened Collections

  const CONDITIONS: set<string> := {"new", "like_new", "used"}
  const STATUSES: set<string> := {"PENDING", "PUBLISHED", "EXPIRED", "DELETED"}
  const PENDING: string := "PENDING"

  datatype Listing = Listing(
    id: Id,
    sellerId: Id,
    title: string,
    description: string,
    price: int,
    categoryId: string,
    category: Option<string>,    // not in the schema; only an update can add it
    condition: string,
    images: seq<string>,
    location: Option<string>,
    status: string,
    expiredAt: Option<Timestamp>,
    views: int,
    viewedBy: seq<Id>,
    isFeatured: bool,
    createdAt: Timestamp,
    updatedAt: Option<Timestamp>,
    destroyed: bool)

  /** The document handed to `createNew`; a key left out is None. */
  datatype ListingInput = ListingInput(
    sellerId: IdArg,
    title: Option<string>,
    description: Option<string>,
    price: Option<int>,
    categoryId: Option<string>,
    condition: Option<string>,
    images: Option<seq<string>>,
    location: Option<string>,
    status: Option<string>,
    expiredAt: Option<Timestamp>,
    views: Option<int>,
    viewedBy: Option<seq<Id>>,
    isFeatured: Option<bool>,
    createdAt: Option<Timestamp>,
    updatedAt: Option<Timestamp>,
    destroyed: Option<bool>,
    otherKeys: seq<string>)      // keys the schema does not declare, such as `category`

  /**
   * The listing schema's constraints on the keys that have them; `isUri`
   * stands for Joi's URI check on each image. The schema declares no other
   * keys, so any other key is refused.
   */
  predicate SchemaAccepts(input: ListingInput, isUri: string -> bool) {
    && !input.sellerId.Falsy()
    && input.title.Some? && 5 <= |input.title.value| <= 100
    && input.description.Some? && 10 <= |input.description.value| <= 5000
    && input.price.Some? && input.price.value >= 0
    && input.categoryId.Some? && IsTrimmedText(input.categoryId.value)
    && input.condition.Some? && input.condition.value in CONDITIONS
    && (input.location.Some? ==> IsTrimmedText(input.location.value))
    && (input.status.Some? ==> input.status.value in STATUSES)
    && (input.images.Some? ==> forall i :: 0 <= i < |input.images.value| ==> isUri(input.images.value[i]))
    && input.otherKeys == []
  }

  /** The record `createNew` inserts under `id`: validated, defaults filled in, seller id parsed. */
  function NewListing(input: ListingInput, isUri: string -> bool, id: Id, now: Timestamp): (r: Result<Listing>)
    ensures r.Ok? <==> SchemaAccepts(input, isUri) && input.sellerId.Parsed?
    ensures !SchemaAccepts(input, isUri) ==> r == Err(ApiError(InternalError, SchemaRejected))
    ensures SchemaAccepts(input, isUri) && input.sellerId.Malformed? ==>
              r == Err(ApiError(InternalError, InvalidSellerIdFormat))
    ensures r.Ok? ==> r.value.id == id && r.value.sellerId == input.sellerId.id
    ensures r.Ok? ==> && r.value.title == input.title.value && r.value.description == input.description.value
                      && r.value.price == input.price.value && r.value.categoryId == input.categoryId.value
                      && r.value.condition == input.condition.value && r.value.expiredAt == input.expiredAt
                      && r.value.location == input.location && r.value.updatedAt == input.updatedAt
    ensures r.Ok? ==> r.value.price >= 0 && r.value.condition in CONDITIONS && r.value.status in STATUSES
    ensures r.Ok? ==> 5 <= |r.value.title| <= 100 && 10 <= |r.value.description| <= 5000
    ensures r.Ok? ==> forall i :: 0 <= i < |r.value.images| ==> isUri(r.value.images[i])
    ensures r.Ok? ==> r.value.category == None
    ensures r.Ok? && input.status.None? ==> r.value.status == PENDING
    ensures r.Ok? && input.views.None? ==> r.value.views == 0
    ensures r.Ok? && input.viewedBy.None? ==> r.value.viewedBy == []
    ensures r.Ok? && input.destroyed.None? ==> !r.value.destroyed
    ensures r.Ok? && input.isFeatured.None? ==> !r.value.isFeatured
    ensures r.Ok? && input.images.None? ==> r.value.images == []
    ensures r.Ok? && input.createdAt.None? ==> r.value.createdAt == now
    ensures r.Ok? && input.status.Some? ==> r.value.status == input.status.value
    ensures r.Ok? && input.views.Some? ==> r.value.views == input.views.value
    ensures r.Ok? && input.viewedBy.Some? ==> r.value.viewedBy == input.viewedBy.value
    ensures r.Ok? && input.destroyed.Some? ==> r.value.destroyed == input.destroyed.value
    ensures r.Ok? && input.isFeatured.Some? ==> r.value.isFeatured == input.isFeatured.value
    ensures r.Ok? && input.images.Some? ==> r.value.images == input.images.value
    ensures r.Ok? && input.createdAt.Some? ==> r.value.createdAt == input.createdAt.value
  {
    if !SchemaAccepts(input, isUri) then Err(ApiError(InternalError, SchemaRejected))
    else if input.sellerId.Malformed? then Err(ApiError(InternalError, InvalidSellerIdFormat))
    else Ok(Listing(
      id, input.sellerId.id, input.title.value, input.description.value, input.price.value,
      input.categoryId.value, None, input.condition.value, input.images.GetOr([]),
      input.location, input.status.GetOr(PENDING), input.expiredAt,
      input.views.GetOr(0), input.viewedBy.GetOr([]), input.isFeatured.GetOr(false),
      input.createdAt.GetOr(now), input.updatedAt, input.destroyed.GetOr(false)))
  }

  // ---------------------------------------------------------------- views

  /**
   * The conditional update of `findOneByIdAndUpdateView`: one more view and
   * the viewer added to `viewedBy`, unless the viewer is the seller or has
   * viewed already, in which case nothing matches and null comes back.
   */
  function RecordView(l: Listing, viewer: Id): (r: Option<Listing>)
    ensures r.Some? <==> viewer != l.sellerId && viewer !in l.viewedBy
    ensures r.Some? ==> r.value.views == l.views + 1
    ensures r.Some? ==> r.value.viewedBy == l.viewedBy + [viewer]
    ensures r.Some? ==> r.value.(views := l.views, viewedBy := l.viewedBy) == l
  {
    if viewer != l.sellerId && viewer !in l.viewedBy then
      Some(l.(views := l.views + 1, viewedBy := AddToSet(l.viewedBy, viewer)))
    else None
  }

  /** The view counter agrees with the ledger of viewers, which holds no one twice. */
  ghost predicate LedgerConsistent(l: Listing) {
    l.views == |l.viewedBy| && NoDuplicates(l.viewedBy)
  }

  lemma ViewKeepsLedger(l: Listing, viewer: Id)
    requires LedgerConsistent(l)
    ensures RecordView(l, viewer).Some? ==> LedgerConsistent(RecordView(l, viewer).value)
  {
  }

  /** The listing after a series of view requests, each an atomic `RecordView` or a no-op. */
  function ViewAll(l: Listing, viewers: seq<Id>): (r: Listing)
    ensures r.sellerId == l.sellerId
  {
    if viewers == [] then l
    else
      var before := ViewAll(l, viewers[..|viewers| - 1]);
      RecordView(before, viewers[|viewers| - 1]).GetOr(before)
  }

  /** One view request moves the ledger by at most the viewer, never by the seller. */
  lemma ViewStep(before: Listing, v: Id)
    requires LedgerConsistent(before)
    ensures var after := RecordView(before, v).GetOr(before);
      && LedgerConsistent(after) && after.sellerId == before.sellerId
      && Elems(after.viewedBy) == Elems(before.viewedBy) + ({v} - {before.sellerId})
  {
    var after := RecordView(before, v).GetOr(before);
    if RecordView(before, v).Some? {
      assert after.viewedBy == before.viewedBy + [v];
      ElemsAppend(before.viewedBy, v);
    } else if v != before.sellerId {
      assert v in before.viewedBy;
      assert v in Elems(before.viewedBy);
    }
  }

  /** After any series of views the ledger holds exactly the viewers other than the seller, once each. */
  lemma {:induction false} ViewAllLedger(l: Listing, viewers: seq<Id>)
    requires LedgerConsistent(l)
    ensures LedgerConsistent(ViewAll(l, viewers))
    ensures Elems(ViewAll(l, viewers).viewedBy) == Elems(l.viewedBy) + (Elems(viewers) - {l.sellerId})
  {
    if viewers == [] {
      assert Elems(viewers) == {};
    } else {
      var n := |viewers| - 1;
      var v := viewers[n];
      var before := ViewAll(l, viewers[..n]);
      ViewAllLedger(l, viewers[..n]);
      ViewStep(before, v);
      ElemsAppend(viewers[..n], v);
      assert viewers[..n] + [v] == viewers;
    }
  }

  /**
   * Every viewer other than the seller is counted exactly once, however
   * often and in whatever order the views arrive.
   */
  lemma ViewsCountDistinctViewers(l: Listing, viewers: seq<Id>)
    requires LedgerConsistent(l)
    ensures ViewAll(l, viewers).views == |Elems(l.viewedBy) + (Elems(viewers) - {l.sellerId})|
  {
    ViewAllLedger(l, viewers);
    DistinctCardinality(ViewAll(l, viewers).viewedBy);
  }

  // ---------------------------------------------------------------- updates

  /** One `key: value` entry of an update document. */
  datatype ListingField =
    | SetId(id: Id)
    | SetSellerId(sellerId: Id)
    | SetCreatedAt(createdAt: Timestamp)
    | SetTitle(title: string)
    | SetDescription(description: string)
    | SetPrice(price: int)
    | SetCategoryId(categoryId: string)
    | SetCategory(category: Option<string>)
    | SetCondition(condition: string)
    | SetImages(images: seq<string>)
    | SetLocation(location: Option<string>)
    | SetStatus(status: string)
    | SetExpiredAt(expiredAt: Option<Timestamp>)
    | SetViews(views: int)
    | SetViewedBy(viewedBy: seq<Id>)
    | SetIsFeatured(isFeatured: bool)
    | SetUpdatedAt(updatedAt: Option<Timestamp>)
    | SetDestroy(destroyed: bool)

  datatype ListingKey =
    | IdKey | SellerIdKey | CreatedAtKey | TitleKey | DescriptionKey | PriceKey
    | CategoryIdKey | CategoryKey | ConditionKey | ImagesKey | LocationKey | StatusKey
    | ExpiredAtKey | ViewsKey | ViewedByKey | IsFeaturedKey | UpdatedAtKey | DestroyKey

  function KeyOf(f: ListingField): ListingKey {
    match f
    case SetId(_) => IdKey
    case SetSellerId(_) => SellerIdKey
    case SetCreatedAt(_) => CreatedAtKey
    case SetTitle(_) => TitleKey
    case SetDescription(_) => DescriptionKey
    case SetPrice(_) => PriceKey
    case SetCategoryId(_) => CategoryIdKey
    case SetCategory(_) => CategoryKey
    case SetCondition(_) => ConditionKey
    case SetImages(_) => ImagesKey
    case SetLocation(_) => LocationKey
    case SetStatus(_) => StatusKey
    case SetExpiredAt(_) => ExpiredAtKey
    case SetViews(_) => ViewsKey
    case SetViewedBy(_) => ViewedByKey
    case SetIsFeatured(_) => IsFeaturedKey
    case SetUpdatedAt(_) => UpdatedAtKey
    case SetDestroy(_) => DestroyKey
  }

  /** The stored value of one field, as the entry that would set it. */
  function Get(l: Listing, k: ListingKey): (f: ListingField)
    ensures KeyOf(f) == k
  {
    match k
    case IdKey => SetId(l.id)
    case SellerIdKey => SetSellerId(l.sellerId)
    case CreatedAtKey => SetCreatedAt(l.createdAt)
    case TitleKey => SetTitle(l.title)
    case DescriptionKey => SetDescription(l.description)
    case PriceKey => SetPrice(l.price)
    case CategoryIdKey => SetCategoryId(l.categoryId)
    case CategoryKey => SetCategory(l.category)
    case ConditionKey => SetCondition(l.condition)
    case ImagesKey => SetImages(l.images)
    case LocationKey => SetLocation(l.location)
    case StatusKey => SetStatus(l.status)
    case ExpiredAtKey => SetExpiredAt(l.expiredAt)
    case ViewsKey => SetViews(l.views)
    case ViewedByKey => SetViewedBy(l.viewedBy)
    case IsFeaturedKey => SetIsFeatured(l.isFeatured)
    case UpdatedAtKey => SetUpdatedAt(l.updatedAt)
    case DestroyKey => SetDestroy(l.destroyed)
  }

  /** `$set` of one entry: that field takes the entry's value and no other field moves. */
  function Apply(l: Listing, f: ListingField): (r: Listing)
    ensures Get(r, KeyOf(f)) == f
  {
    Listing(
      if f.SetId? then f.id else l.id,
      if f.SetSellerId? then f.sellerId else l.sellerId,
      if f.SetTitle? then f.title else l.title,
      if f.SetDescription? then f.description else l.description,
      if f.SetPrice? then f.price else l.price,
      if f.SetCategoryId? then f.categoryId else l.categoryId,
      if f.SetCategory? then f.category else l.category,
      if f.SetCondition? then f.condition else l.condition,
      if f.SetImages? then f.images else l.images,
      if f.SetLocation? then f.location else l.location,
      if f.SetStatus? then f.status else l.status,
      if f.SetExpiredAt? then f.expiredAt else l.expiredAt,
      if f.SetViews? then f.views else l.views,
      if f.SetViewedBy? then f.viewedBy else l.viewedBy,
      if f.SetIsFeatured? then f.isFeatured else l.isFeatured,
      if f.SetCreatedAt? then f.createdAt else l.createdAt,
      if f.SetUpdatedAt? then f.updatedAt else l.updatedAt,
      if f.SetDestroy? then f.destroyed else l.destroyed)
  }

  /** Each key is written by exactly one kind of entry. */
  lemma KeyOfNamesEntry(f: ListingField)
    ensures KeyOf(f) == IdKey <==> f.SetId?
    ensures KeyOf(f) == SellerIdKey <==> f.SetSellerId?
    ensures KeyOf(f) == CreatedAtKey <==> f.SetCreatedAt?
    ensures KeyOf(f) == TitleKey <==> f.SetTitle?
    ensures KeyOf(f) == DescriptionKey <==> f.SetDescription?
    ensures KeyOf(f) == PriceKey <==> f.SetPrice?
    ensures KeyOf(f) == CategoryIdKey <==> f.SetCategoryId?
    ensures KeyOf(f) == CategoryKey <==> f.SetCategory?
    ensures KeyOf(f) == ConditionKey <==> f.SetCondition?
    ensures KeyOf(f) == ImagesKey <==> f.SetImages?
    ensures KeyOf(f) == LocationKey <==> f.SetLocation?
    ensures KeyOf(f) == StatusKey <==> f.SetStatus?
    ensures KeyOf(f) == ExpiredAtKey <==> f.SetExpiredAt?
    ensures KeyOf(f) == ViewsKey <==> f.SetViews?
    ensures KeyOf(f) == ViewedByKey <==> f.SetViewedBy?
    ensures KeyOf(f) == IsFeaturedKey <==> f.SetIsFeatured?
    ensures KeyOf(f) == UpdatedAtKey <==> f.SetUpdatedAt?
    ensures KeyOf(f) == DestroyKey <==> f.SetDestroy?
  {
  }

  /** `$set` of one entry leaves every other field as it was. */
  lemma ApplyKeepsOtherFields(l: Listing, f: ListingField, k: ListingKey)
    requires k != KeyOf(f)
    ensures Get(Apply(l, f), k) == Get(l, k)
  {
    KeyOfNamesEntry(f);
  }

  /** `$set` of a whole document, entries in order (a later key overrides an earlier one). */
  function ApplyAll(l: Listing, fs: seq<ListingField>): Listing {
    if fs == [] then l else Apply(ApplyAll(l, fs[..|fs| - 1]), fs[|fs| - 1])
  }

  /** The value a document supplies for `k`: its last entry with that key. */
  function LastFor(fs: seq<ListingField>, k: ListingKey): (r: Option<ListingField>)
    ensures r.Some? ==> r.value in fs && KeyOf(r.value) == k
    ensures r.Some? ==> exists i :: 0 <= i < |fs| && fs[i] == r.value && forall j :: i < j < |fs| ==> KeyOf(fs[j]) != k
    ensures r.None? <==> forall i :: 0 <= i < |fs| ==> KeyOf(fs[i]) != k
  {
    if fs == [] then None
    else if KeyOf(fs[|fs| - 1]) == k then Some(fs[|fs| - 1])
    else LastFor(fs[..|fs| - 1], k)
  }

  lemma {:induction false} ApplyAllGet(l: Listing, fs: seq<ListingField>, k: ListingKey)
    ensures Get(ApplyAll(l, fs), k) == LastFor(fs, k).GetOr(Get(l, k))
  {
    if fs != [] {
      var last := fs[|fs| - 1];
      ApplyAllGet(l, fs[..|fs| - 1], k);
      if KeyOf(last) != k {
        ApplyKeepsOtherFields(ApplyAll(l, fs[..|fs| - 1]), last, k);
      }
    }
  }

  /** `INVALID_UPDATE_FIELDS`: the keys an update may never write. */
  predicate IsProtected(f: ListingField) {
    f.SetId? || f.SetSellerId? || f.SetCreatedAt?
  }

  /** The entry a document supplies last for `k`, after one more entry. */
  lemma LastForAppend(fs: seq<ListingField>, f: ListingField, k: ListingKey)
    ensures LastFor(fs + [f], k) == if KeyOf(f) == k then Some(f) else LastFor(fs, k)
  {
    assert (fs + [f])[..|fs|] == fs;
  }

  lemma ProtectedEntryHasProtectedKey(f: ListingField)
    ensures IsProtected(f) ==> KeyOf(f) == IdKey || KeyOf(f) == SellerIdKey || KeyOf(f) == CreatedAtKey
  {
  }

  /** One more entry keeps two documents agreeing on `k` when a stripped entry never sets `k`. */
  lemma StrippingStep(init: seq<ListingField>, kept: seq<ListingField>, last: ListingField, k: ListingKey)
    requires LastFor(kept, k) == LastFor(init, k)
    requires IsProtected(last) ==> KeyOf(last) != k
    ensures LastFor(kept + (if IsProtected(last) then [] else [last]), k) == LastFor(init + [last], k)
  {
    LastForAppend(init, last, k);
    if IsProtected(last) {
      assert kept + [] == kept;
    } else {
      LastForAppend(kept, last, k);
    }
  }

  lemma {:induction false} StrippingKeepsOtherKeys(fs: seq<ListingField>, k: ListingKey)
    requires k != IdKey && k != SellerIdKey && k != CreatedAtKey
    ensures LastFor(Without(fs, IsProtected), k) == LastFor(fs, k)
  {
    if fs != [] {
      var n := |fs| - 1;
      var init, last := fs[..n], fs[n];
      assert init + [last] == fs;
      StrippingKeepsOtherKeys(init, k);
      WithoutAppend(init, last, IsProtected);
      ProtectedEntryHasProtectedKey(last);
      StrippingStep(init, Without(init, IsProtected), last, k);
    }
  }

  /** The record after `update(id, patch)` at time `now`. */
  function Patched(l: Listing, patch: seq<ListingField>, now: Timestamp): (r: Listing)
    ensures r.id == l.id && r.sellerId == l.sellerId && r.createdAt == l.createdAt
    ensures r.updatedAt == Some(now)
  {
    var kept := Without(patch, IsProtected);
    ApplyAllGet(l, kept, IdKey);
    ApplyAllGet(l, kept, SellerIdKey);
    ApplyAllGet(l, kept, CreatedAtKey);
    ApplyAll(l, kept).(updatedAt := Some(now))
  }

  /**
   * An update never changes `_id`, `sellerId` or `createdAt`, stamps
   * `updatedAt`, gives every other supplied field its last supplied value
   * and leaves every field it does not supply unchanged.
   */
  lemma UpdateChangesOnlySuppliedFields(l: Listing, patch: seq<ListingField>, now: Timestamp, k: ListingKey)
    ensures var r := Patched(l, patch, now);
      && r.id == l.id && r.sellerId == l.sellerId && r.createdAt == l.createdAt
      && r.updatedAt == Some(now)
      && (k !in {IdKey, SellerIdKey, CreatedAtKey, UpdatedAtKey} ==>
            Get(r, k) == LastFor(patch, k).GetOr(Get(l, k)))
  {
    ApplyAllGet(l, Without(patch, IsProtected), k);
    if k !in {IdKey, SellerIdKey, CreatedAtKey, UpdatedAtKey} {
      StrippingKeepsOtherKeys(patch, k);
    }
  }

  /** `deleteOneById`: the record stays, flagged destroyed and stamped. */
  function SoftDeleted(l: Listing, now: Timestamp): (r: Listing)
    ensures r.destroyed && r.updatedAt == Some(now)
    ensures r.(destroyed := l.destroyed, updatedAt := l.updatedAt) == l
  {
    l.(destroyed := true, updatedAt := Some(now))
  }

  /** Deleting twice is deleting once, up to the later stamp. */
  lemma SoftDeleteIsIdempotent(l: Listing, t1: Timestamp, t2: Timestamp)
    ensures SoftDeleted(SoftDeleted(l, t1), t2) == SoftDeleted(l, t2)
  {
  }

  // ---------------------------------------------------------------- queries

  datatype PriceBound = Bound(n: int) | NaNBound

  /** The filter document a `find` receives; a key that is absent constrains nothing. */
  datatype ListingQuery = ListingQuery(
    destroyed: Option<bool>,
    category: Option<string>,
    categoryId: Option<string>,
    status: Option<string>,
    location: Option<string>,
    minPrice: Option<PriceBound>,
    maxPrice: Option<PriceBound>)

  /** MongoDB's reading of the filter: equality, a case-insensitive pattern, `$gte`/`$lte` (NaN matches no number). */
  predicate Matches(q: ListingQuery, l: Listing) {
    && (q.destroyed.Some? ==> l.destroyed == q.destroyed.value)
    && (q.category.Some? ==> l.category == q.category)
    && (q.categoryId.Some? ==> l.categoryId == q.categoryId.value)
    && (q.status.Some? ==> l.status == q.status.value)
    && (q.location.Some? ==> l.location.Some? && ContainsIgnoreCase(l.location.value, q.location.value))
    && (q.minPrice.Some? ==> q.minPrice.value.Bound? && l.price >= q.minPrice.value.n)
    && (q.maxPrice.Some? ==> q.maxPrice.value.Bound? && l.price <= q.maxPrice.value.n)
  }

  /** The listings a cursor over `filter` yields, in stored order. */
  function Selected(ls: seq<Listing>, q: ListingQuery): (r: seq<Listing>)
    ensures |r| <= |ls|
    ensures forall i :: 0 <= i < |r| ==> r[i] in ls && Matches(q, r[i])
    ensures forall i :: 0 <= i < |ls| && Matches(q, ls[i]) ==> ls[i] in r
  {
    if ls == [] then []
    else if Matches(q, ls[0]) then [ls[0]] + Selected(ls[1..], q)
    else Selected(ls[1..], q)
  }

  /** A cursor keeps stored order: a record stored last is yielded last, if it matches. */
  lemma {:induction false} SelectedAppend(ls: seq<Listing>, l: Listing, q: ListingQuery)
    ensures Selected(ls + [l], q) == Selected(ls, q) + (if Matches(q, l) then [l] else [])
  {
    if ls == [] {
      assert ls + [l] == [l];
    } else {
      assert (ls + [l])[1..] == ls[1..] + [l];
      SelectedAppend(ls[1..], l, q);
    }
  }

  datatype SortField = ByCreatedAt | ByPrice | ByViews
  datatype SortSpec = SortSpec(field: SortField, ascending: bool)

  function SortKey(spec: SortSpec, l: Listing): int {
    var v := match spec.field
      case ByCreatedAt => l.createdAt as int
      case ByPrice => l.price
      case ByViews => l.views;
    if spec.ascending then v else -v
  }

  /** The cursor over `filter` before skip and limit: stored order, or sorted when a sort is given. */
  function Ordered(ls: seq<Listing>, q: ListingQuery, sort: Option<SortSpec>): seq<Listing> {
    if sort.Some? then SortBy(Selected(ls, q), l => SortKey(sort.value, l)) else Selected(ls, q)
  }

  /** What a page of the cursor holds: matching listings, at most `limit`, in sort order; all of them unpaged. */
  lemma FoundListings(ls: seq<Listing>, q: ListingQuery, sort: Option<SortSpec>, skip: nat, limit: nat)
    ensures var r := Window(Ordered(ls, q, sort), skip, limit);
      && (forall i :: 0 <= i < |r| ==> r[i] in ls && Matches(q, r[i]))
      && (limit > 0 ==> |r| <= limit)
      && (sort.Some? ==> forall i, j :: 0 <= i < j < |r| ==> SortKey(sort.value, r[i]) <= SortKey(sort.value, r[j]))
      && (sort.None? && skip == 0 && limit == 0 ==> r == Selected(ls, q))
      && (skip == 0 && limit == 0 ==> forall i :: 0 <= i < |ls| && Matches(q, ls[i]) ==> ls[i] in r)
  {
    var selected := Selected(ls, q);
    var ordered := Ordered(ls, q, sort);
    WindowWhole(ordered);
    if sort.Some? {
      SameElements(ordered, selected);
      SameElements(selected, ordered);
      WindowKeepsOrder(ordered, l => SortKey(sort.value, l), skip, limit);
    }
  }

  class ListingStore {
    var listings: seq<Listing>

    ghost predicate Valid()
      reads this
    {
      forall i :: 0 <= i < |listings| ==> listings[i].id == i
    }

    constructor ()
      ensures Valid() && listings == []
    {
      listings := [];
    }

    method CreateNew(input: ListingInput, isUri: string -> bool, now: Timestamp) returns (r: Result<Id>)
      requires Valid()
      modifies this
      ensures Valid()
      ensures NewListing(input, isUri, |old(listings)|, now).Ok? ==>
                r == Ok(|old(listings)|) &&
                listings == old(listings) + [NewListing(input, isUri, |old(listings)|, now).value]
      ensures NewListing(input, isUri, |old(listings)|, now).Err? ==>
                r == Err(NewListing(input, isUri, |old(listings)|, now).error) && listings == old(listings)
    {
      var l := NewListing(input, isUri, |listings|, now);
      if l.Ok? {
        listings := listings + [l.value];
        r := Ok(l.value.id);
      } else {
        r := Err(l.error);
      }
    }

    function FindOneById(id: Id): (r: Option<Listing>)
      reads this
      requires Valid()
      ensures r.Some? <==> id < |listings|
      ensures r.Some? ==> r.value == listings[id] && r.value.id == id
    {
      if id < |listings| then Some(listings[id]) else None
    }

    /** One atomic conditional write: counted and returned, or nothing written and null. */
    method FindOneByIdAndUpdateView(id: Id, viewer: Id) returns (r: Option<Listing>)
      requires Valid()
      modifies this
      ensures Valid()
      ensures id >= |old(listings)| ==> r == None && listings == old(listings)
      ensures id < |old(listings)| ==> r == RecordView(old(listings)[id], viewer)
      ensures id < |old(listings)| && r.Some? ==> listings == old(listings)[id := r.value]
      ensures r.None? ==> listings == old(listings)
    {
      if id < |listings| {
        r := RecordView(listings[id], viewer);
        if r.Some? {
          listings := listings[id := r.value];
        }
      } else {
        r := None;
      }
    }

    /** `find(filter, { sort, skip, limit })`, each option applied only when truthy. */
    method Find(filter: ListingQuery, sort: Option<SortSpec>, skip: nat, limit: nat) returns (r: seq<Listing>)
      ensures r == Window(Ordered(listings, filter, sort), skip, limit)
      ensures forall i :: 0 <= i < |r| ==> r[i] in listings && Matches(filter, r[i])
      ensures limit > 0 ==> |r| <= limit
      ensures sort.Some? ==> forall i, j :: 0 <= i < j < |r| ==> SortKey(sort.value, r[i]) <= SortKey(sort.value, r[j])
      ensures sort.None? && skip == 0 && limit == 0 ==> r == Selected(listings, filter)
      ensures skip == 0 && limit == 0 ==>
                forall i :: 0 <= i < |listings| && Matches(filter, listings[i]) ==> listings[i] in r
    {
      var ordered := Ordered(listings, filter, sort);
      var cursor := ordered;
      if skip > 0 {
        cursor := Window(cursor, skip, 0);
      } else {
        WindowWhole(ordered);
      }
      if limit > 0 {
        WindowSkipThenLimit(ordered, skip, limit);
        cursor := Window(cursor, 0, limit);
      }
      r := cursor;
      FoundListings(listings, filter, sort, skip, limit);
    }

    method Update(id: Id, patch: seq<ListingField>, now: Timestamp) returns (r: Option<Listing>)
      requires Valid()
      modifies this
      ensures Valid()
      ensures id >= |old(listings)| ==> r == None && listings == old(listings)
      ensures id < |old(listings)| ==>
                r == Some(Patched(old(listings)[id], patch, now)) && listings == old(listings)[id := r.value]
    {
      var kept := DeleteKeys(patch, IsProtected);
      if id < |listings| {
        var after := ApplyAll(listings[id], kept).(updatedAt := Some(now));
        ApplyAllGet(listings[id], kept, IdKey);
        listings := listings[id := after];
        r := Some(after);
      } else {
        r := None;
      }
    }

    method DeleteOneById(id: Id, now: Timestamp) returns (r: Option<Listing>)
      requires Valid()
      modifies this
      ensures Valid()
      ensures id >= |old(listings)| ==> r == None && listings == old(listings)
      ensures id < |old(listings)| ==>
                r == Some(SoftDeleted(old(listings)[id], now)) && listings == old(listings)[id := r.value]
    {
      if id < |listings| {
        r := Some(SoftDeleted(listings[id], now));
        listings := listings[id := r.value];
      } else {
        r := None;
      }
    }
  }
}
