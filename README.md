# beremarket state rules, modelled in Dafny

beremarket is a second-hand marketplace backend (Express, Joi, MongoDB).
Almost all of it is create/read/update/delete over four collections:
listings, conversations with their messages, reviews, and users. This
project models the state rules those operations enforce.

- Each collection is a class (`ListingStore`, `ConversationStore`,
  `MessageStore`, `ReviewStore`, `UserStore`). Each holds a `seq` of records
  whose index is the record's id, so the sequence is at once the id map and
  the insertion order.
- Each controller or service operation is a method over those stores. It
  states the whole new state and the answer. It says which HTTP status and
  message answer every failure, and that a failed guard writes nothing.
- Every query is a pure function:
  - the listing filter, sort and skip/limit cursor;
  - a conversation's messages in time order;
  - the pair lookup with `$all`;
  - the inbox pipeline;
  - a listing's live reviews;
  - the admin user page.
- Lemmas state what the source promises across calls:
  - the view counter counts each non-seller viewer exactly once;
  - updates never touch protected fields and change exactly the supplied ones;
  - soft deletes hide records without removing them;
  - find-or-create of a conversation is idempotent for an unordered pair;
  - a sent message is read back by the receiver;
  - login and refresh fail in the stated order;
  - favourites behave as a set;
  - the pagination arithmetic is consistent.

Conventions:

- Identifiers are `nat`. An identifier taken from a request is an `IdArg`:
  - `Malformed`: `new ObjectId` throws, and the plain `Error` reaches the
    error handler as a 500.
  - `Absent`: `new ObjectId(undefined)` generates a fresh id, which names no
    record.
  - `Empty`: the empty string. A `!id` guard treats it as missing, and
    `new ObjectId("")` throws as it does on a malformed string.
- A query-string number is a `NumArg`: absent, `NaN`, or a number.
- Every error is an `ApiError(status, reason)`. There is one `Reason` per
  distinct message text of the source.
- bcrypt hashing and comparison, JWT signing and verification, random
  tokens and `Date.now()` are parameters of the operations that use them.

The user model's own source file is not part of this model. Its record and
primitives are the ones the user service and controller use. The model
assumes:

- `findOneById` and `findOneByEmail` do not filter on `_destroy`;
- `findOneByEmail` returns the first match;
- `update` answers with the updated record;
- `find` applies `skip` and `limit` as the listing model's `find` does;
- `createNew` never refuses the document the user service builds
  (src/services/userService.js:21-28) and inserts it under a fresh id;
- the stored account starts with no refresh token, no avatar, no
  favourites, `_destroy` false and `createdAt` the creation time. The admin
  listing's `_destroy: false` filter (src/controllers/userController.js:168-170)
  relies on that default.

Behaviour of the code that the model keeps as it is:

- Listings have no role-based visibility, free-text search, seller join or
  page count. `getListings` filters on the request's category, status,
  location and price only.
- A new message is stored with `isRead` false.
- A malformed identifier or a schema refusal in a model is rethrown as a
  plain `Error`, so the caller gets a 500.
- `findOneById` on listings and reviews does not exclude soft-deleted
  records. A soft-deleted listing can still be updated and deleted by its
  seller, and reviewed by anyone.
- The review update route validates nothing. A rating outside 1..5 is
  stored as sent (`ReviewModel.UpdateDoesNotCheckRating`).
- Joi's URI check on listing images is a parameter, `isUri`, of the
  operations that create listings.
- `verifyAccount` compares the stored token with the request's `token`
  strictly, and a consumed token is stored as `null`. A request with
  `token: null` therefore verifies an account that is already active
  (`UserService.ActivationConsumesToken`). The route's validation refuses
  that request before the service is reached.

## Model

| member | source | states |
|---|---|---|
| Collections.DeleteKeys | src/models/listingModel.js:142-146 | the key-deletion loop keeps exactly the entries of the update document that are not protected, in their order |
| Collections.Without | src/models/reviewModel.js:73-77 | the entries kept are all unprotected and come from the document, and every unprotected entry is kept |
| Collections.WithoutKeepsAll | src/models/listingModel.js:142-146 | the deletion loop leaves a document whole exactly when it names no protected key |
| Collections.SortBy | src/models/listingModel.js:124-126 | a cursor sort yields the same multiset of records, ascending in the sort key |
| Collections.Window | src/models/listingModel.js:127-132 | skip then limit: entry i is the record `skip + i` places on, empty exactly when `skip` passes the end, exactly `limit` records when that many remain and otherwise all the rest |
| Collections.WindowSkipThenLimit | src/models/listingModel.js:127-132 | applying `skip` and then `limit` as two cursor steps is one window |
| Collections.WindowKeepsOrder | src/models/listingModel.js:124-132 | skip and limit keep a sorted cursor sorted |
| Collections.AddToSet | src/services/userService.js:193 | `$addToSet`: the id is present afterwards, nothing else is added, and an id already present changes nothing |
| Collections.Pull | src/services/userService.js:207 | `$pull`: the id is absent afterwards, every other id stays as present as before, and pulling an absent id changes nothing |
| Collections.PullUndoesAddToSet | src/services/userService.js:189-208 | pulling the id just added to favourites that lacked it restores them exactly |
| ListingModel.NewListing | src/models/listingModel.js:21-77 | creation succeeds exactly when the schema accepts and the seller id parses, the schema refusal first; the schema requires title 5..100, description 10..5000, price >= 0, a trimmed categoryId and condition in {new, like_new, used}, every image a URI and no undeclared key; the record carries every supplied value and otherwise PENDING, 0 views, empty `viewedBy`, no images, not featured, not destroyed, created now |
| ListingModel.RecordView | src/models/listingModel.js:96-109 | the conditional view update applies exactly when the viewer is not the seller and not in `viewedBy`; it then adds one view and appends the viewer, and changes nothing else |
| ListingModel.ViewKeepsLedger | src/models/listingModel.js:101-106 | a counted view keeps the view count equal to the length of `viewedBy`, with no viewer twice |
| ListingModel.ViewAll | src/models/listingModel.js:96-109 | a series of view requests never changes the seller |
| ListingModel.ViewStep | src/models/listingModel.js:101-106 | one view request adds at most the viewer, and never the seller, to the set of viewers |
| ListingModel.ViewAllLedger | src/models/listingModel.js:96-109 | after any series of views, `viewedBy` holds, once each, the earlier viewers plus every new viewer other than the seller |
| ListingModel.ViewsCountDistinctViewers | src/models/listingModel.js:91-115 | the view count equals the number of distinct non-seller viewers, whatever the order and repetition of views |
| ListingModel.Get | src/models/listingModel.js:159 | reading a field yields an entry for that field's key |
| ListingModel.Apply | src/models/listingModel.js:159 | `$set` of one entry gives that field the entry's value |
| ListingModel.ApplyKeepsOtherFields | src/models/listingModel.js:159 | `$set` of one entry leaves every other field as it was |
| ListingModel.LastFor | src/models/listingModel.js:150-153 | the value a document supplies for a key is its last entry with that key (no later entry has the key), and none exists exactly when no entry has it |
| ListingModel.ApplyAllGet | src/models/listingModel.js:155-161 | after `$set` of a document every field holds the document's last value for it, or its old value if the document has none |
| ListingModel.StrippingKeepsOtherKeys | src/models/listingModel.js:142-146 | deleting `_id`, `sellerId` and `createdAt` from a document does not change what it supplies for any other key |
| ListingModel.Patched | src/models/listingModel.js:140-166 | an updated record keeps `_id`, `sellerId` and `createdAt` and is stamped with the update time |
| ListingModel.UpdateChangesOnlySuppliedFields | src/models/listingModel.js:140-166 | an update keeps `_id`, `sellerId` and `createdAt`, stamps `updatedAt`, and gives every other field the last supplied value or leaves it unchanged |
| ListingModel.SoftDeleted | src/models/listingModel.js:169-177 | a soft delete sets `_destroy` and `updatedAt` and keeps every other field |
| ListingModel.SoftDeleteIsIdempotent | src/models/listingModel.js:175 | deleting twice equals deleting once at the later time |
| ListingModel.Selected | src/models/listingModel.js:121 | the cursor over a filter holds exactly the matching records, in stored order |
| ListingModel.SelectedAppend | src/models/listingModel.js:121 | a record stored last comes last from the cursor when it matches and is absent otherwise, so the cursor keeps stored order and holds each stored record once |
| ListingModel.FoundListings | src/models/listingModel.js:118-138 | a page of the cursor holds matching records only, at most `limit`, in sort order, and without skip or limit all matching records |
| ListingModel.ListingStore.CreateNew | src/models/listingModel.js:56-77 | inserts the record `NewListing` builds under the next id, or answers its error and writes nothing |
| ListingModel.ListingStore.FindOneById | src/models/listingModel.js:79-89 | finds the record with that id, destroyed or not, and null for an unknown id |
| ListingModel.ListingStore.FindOneByIdAndUpdateView | src/models/listingModel.js:91-115 | one atomic step: an unknown id, the seller or a repeat viewer gets null and nothing is written; otherwise the record becomes `RecordView` of it |
| ListingModel.ListingStore.Find | src/models/listingModel.js:118-138 | answers the window `skip`/`limit` of the matching records, sorted when a sort is given, with the properties of `FoundListings` |
| ListingModel.ListingStore.Update | src/models/listingModel.js:140-166 | strips protected keys with the deletion loop, then replaces the record by `Patched` and answers it; an unknown id writes nothing and answers null |
| ListingModel.ListingStore.DeleteOneById | src/models/listingModel.js:169-182 | replaces the record by its soft-deleted form and answers it; an unknown id writes nothing |
| ListingController.CreateListing | src/controllers/listingController.js:4-20 | creates the listing with the caller as seller, whatever the body says |
| ListingController.CreatedListingBelongsToCaller | src/controllers/listingController.js:8-13 | creation succeeds exactly when the schema accepts the body, and the created listing's seller is the caller |
| ListingController.Lookup | src/controllers/listingController.js:68-74 | a parsed id finds its listing or is 404; an absent id is 404; a malformed or empty id is 500 |
| ListingController.GetDetails | src/controllers/listingController.js:22-37 | succeeds exactly for an existing, not soft-deleted listing and answers it; a missing or soft-deleted one is 404 |
| ListingController.PriceBoundOf | src/controllers/listingController.js:49-53 | a price bound is set exactly when its parameter is given, as the parsed number |
| ListingController.BuildFilterAsWritten | src/controllers/listingController.js:39-53 | the filter matches exactly the live listings with the requested status, location substring and price bounds (each only when given), and, when a category is given, whose `category` equals it |
| ListingController.BuildFilter | src/controllers/listingController.js:43-53 | the same filter with the category compared to `categoryId` |
| ListingController.CategoryFilterMissesCreatedListings | src/controllers/listingController.js:45 | as written, a category query matches no listing as created |
| ListingController.CategoryFilterFindsCreatedListings | src/controllers/listingController.js:45 | the corrected filter finds a live created listing by its categoryId |
| ListingController.GetListings | src/controllers/listingController.js:39-60 | as written: exactly the live listings that meet every given criterion, in stored order, with a given category compared with the `category` field |
| ListingController.GetListingsByCategoryId | src/controllers/listingController.js:39-60 | the corrected catalogue query: the same answer with a given category compared with `categoryId` |
| ListingController.UpdateListing | src/controllers/listingController.js:62-88 | an unknown id is 404 and a caller other than the seller is 403, and neither writes; otherwise the listing becomes `Patched` |
| ListingController.DeleteListing | src/controllers/listingController.js:90-117 | the same guards, then a soft delete of exactly that listing |
| ListingController.DeletedListingIsHidden | src/controllers/listingController.js:27-31 | a soft-deleted listing matches no catalogue query |
| ConversationModel.NewConversation | src/models/conversationModel.js:6-32 | a conversation is created exactly when it has two participants, with the given participants, created now, not destroyed |
| ConversationModel.FirstContainingAll | src/models/conversationModel.js:131-203 | the lookup answers a stored conversation containing every given id, and null exactly when none does |
| ConversationModel.FirstContainingAllIgnoresOrder | src/models/conversationModel.js:137-139 | the lookup depends only on which ids are given, not on their order or repetition |
| ConversationModel.PairLookupIsSymmetric | src/models/conversationModel.js:137-139 | looking up `[a, b]` and `[b, a]` gives the same answer |
| ConversationModel.FirstContainingAllAppend | src/models/conversationModel.js:194-199 | a conversation appended when none matched is the one found afterwards, and an earlier match stays the answer |
| ConversationModel.OtherParticipant | src/models/conversationModel.js:86-99 | the other participant is a participant different from the user, and is absent only when no known user is such a participant |
| ConversationModel.LastMessage | src/models/conversationModel.js:67-83 | the last message is a message of the conversation with the greatest creation time, and is absent exactly when the conversation has none |
| ConversationModel.Involving | src/models/conversationModel.js:53-57 | the inbox match keeps exactly the conversations the user takes part in |
| ConversationModel.InvolvingAppend | src/models/conversationModel.js:53-57 | the match keeps each stored conversation at most once, in stored order: one appended last comes last if the user takes part in it, and is absent otherwise |
| ConversationModel.FindByParticipantId | src/models/conversationModel.js:46-128 | the inbox has one entry per conversation of the user, ordered by the latest message's time, newest first |
| ConversationModel.InboxEntriesBelongToUser | src/models/conversationModel.js:46-128 | every inbox entry is the user's conversation, with its other participant (the first stored user in it other than the user) and its latest message |
| ConversationModel.InboxIsComplete | src/models/conversationModel.js:53-57 | every conversation of the user appears in the inbox |
| ConversationModel.InboxIsNewestFirst | src/models/conversationModel.js:105 | inbox entries come by descending time of the latest message, and conversations without messages come last |
| ConversationModel.ConversationStore.CreateNew | src/models/conversationModel.js:19-32 | appends the two-person conversation under the next id, or refuses any other count and writes nothing |
| ConversationModel.ConversationStore.FindOneById | src/models/conversationModel.js:34-44 | finds the conversation with that id, or null |
| ConversationModel.ConversationStore.FindByParticipants | src/models/conversationModel.js:131-203 | answers a stored conversation containing every given id, and null exactly when none does |
| MessageModel.NewMessage | src/models/messageModel.js:6-38 | a message is created exactly when the three ids are present and the text is non-empty and trimmed; it carries them, unread, not destroyed, created now |
| MessageModel.InConversation | src/models/messageModel.js:45-47 | the filter keeps exactly the messages of the conversation |
| MessageModel.MessagesOf | src/models/messageModel.js:40-53 | a conversation's messages are exactly its stored messages, each as often as stored, in non-decreasing creation time |
| MessageModel.MessageStore.FindByConversationId | src/models/messageModel.js:40-53 | answers the conversation's stored messages, each as often as stored, oldest first |
| MessageModel.AppendKeepsOtherConversations | src/models/messageModel.js:40-53 | storing a message changes no other conversation's message list |
| MessageModel.AppendIsListed | src/models/messageModel.js:45-47 | a stored message is listed in its conversation |
| MessageModel.MessageStore.CreateNew | src/models/messageModel.js:23-38 | appends the message under the next id or writes nothing; stored messages never change |
| MessageController.Resolve | src/controllers/messageController.js:25-39 | the pair's conversation is the first one holding both users, or a new `[a, b]` conversation appended to the collection |
| MessageController.ResolveIsIdempotent | src/controllers/messageController.js:113-125 | resolving the pair again, in either order and at any time, finds the same conversation and writes nothing |
| MessageController.ResolveKeepsOneConversationPerPair | src/controllers/messageController.js:113-125 | resolving never creates a second conversation for a pair of different users |
| MessageController.AtMostOneConversationPerPair | src/controllers/messageController.js:25-39 | under that invariant two different users share at most one conversation |
| MessageController.ReceiverOf | src/controllers/messageController.js:104-111 | a missing or empty receiver id is 400, a malformed one 500, an unknown one 404, and a known one is accepted |
| MessageController.SendPrecheck | src/controllers/messageController.js:13-23 | a missing or empty receiver id, or empty text, is 400 before the lookup; the send proceeds exactly for non-empty text to a known receiver |
| MessageController.FindOrOpen | src/controllers/messageController.js:25-39 | the conversation store afterwards and the id used are those of `Resolve` |
| MessageController.Deliver | src/controllers/messageController.js:8-47 | a failed guard writes nothing; otherwise the conversation is resolved, and the message with that conversation, sender, receiver and text is appended or refused by the schema |
| MessageController.SendMessageAsWritten | src/controllers/messageController.js:8-61 | a failed guard is answered with its error and writes nothing; a request that passes the guards opens or finds the pair's conversation and stores the message, and is then answered with a 500; no request succeeds |
| MessageController.SendMessage | src/controllers/messageController.js:8-61 | succeeds exactly when a message was stored, and answers that message: from the sender, with the text, unread, in a conversation holding sender and receiver |
| MessageController.GetMessages | src/controllers/messageController.js:63-87 | an unknown other user is 404 and a malformed or empty id 500; no conversation for the pair gives an empty list; otherwise the answer is the pair's conversation's messages, oldest first |
| MessageController.SentMessageIsReadBack | src/controllers/messageController.js:73-82 | a message sent from a to b is in the history b reads with a |
| MessageController.FindOrCreateConversation | src/controllers/messageController.js:99-131 | a missing or empty receiver id is 400 and an unknown one 404, and neither writes; otherwise answers the resolved conversation |
| ReviewModel.NewReview | src/models/reviewModel.js:6-44 | a review is created exactly when the schema accepts (rating an integer in 1..5, trimmed comment) and both ids parse; defaults are not destroyed and no `updatedAt` |
| ReviewModel.Get | src/models/reviewModel.js:88 | reading a field yields an entry for that field's key |
| ReviewModel.Apply | src/models/reviewModel.js:88 | `$set` of one entry changes that field only |
| ReviewModel.LastFor | src/models/reviewModel.js:79-82 | the value a document supplies for a key is its last entry with that key (no later entry has the key), and none exists exactly when no entry has it |
| ReviewModel.ApplyAllGet | src/models/reviewModel.js:84-90 | after `$set` of a document every field holds the last supplied value or its old value |
| ReviewModel.StrippingKeepsOtherKeys | src/models/reviewModel.js:73-77 | deleting the protected keys does not change what the document supplies for any other key |
| ReviewModel.Patched | src/models/reviewModel.js:71-95 | an updated review keeps `_id`, the author, the listing and `createdAt` and is stamped with the update time |
| ReviewModel.UpdateChangesOnlySuppliedFields | src/models/reviewModel.js:71-95 | an update keeps `_id`, `userId`, `listingId` and `createdAt`, stamps `updatedAt`, and changes exactly the supplied fields |
| ReviewModel.UpdateDoesNotCheckRating | src/models/reviewModel.js:71-95 | an update stores any rating as given |
| ReviewModel.SoftDeleted | src/models/reviewModel.js:97-106 | a soft delete sets `_destroy` and `updatedAt` and keeps every other field |
| ReviewModel.OfListing | src/models/reviewModel.js:58-69 | a listing's reviews are exactly its stored reviews that are not destroyed |
| ReviewModel.OfListingAppend | src/models/reviewModel.js:58-69 | each stored review appears at most once, in stored order: one appended last comes last if it is a live review of the listing, and is absent otherwise |
| ReviewModel.ReviewStore.FindByListingId | src/models/reviewModel.js:58-70 | answers `OfListing` of the stored reviews: exactly the listing's live reviews, each once, in stored order |
| ReviewModel.DeleteHidesReview | src/models/reviewModel.js:97-106 | after a soft delete the review is listed under no listing, and other listings' lists are unchanged |
| ReviewModel.OfListingIgnoresOthers | src/models/reviewModel.js:61-64 | changing a review of another listing leaves a listing's list unchanged |
| ReviewModel.ReviewStore.CreateNew | src/models/reviewModel.js:23-44 | inserts the record `NewReview` builds under the next id, or answers its error and writes nothing |
| ReviewModel.ReviewStore.FindOneById | src/models/reviewModel.js:46-56 | finds the review with that id, or null |
| ReviewModel.ReviewStore.Update | src/models/reviewModel.js:71-95 | strips protected keys with the deletion loop, replaces the review by `Patched` and answers it; an unknown id writes nothing |
| ReviewModel.ReviewStore.DeleteOneById | src/models/reviewModel.js:97-110 | replaces the review by its soft-deleted form; an unknown id writes nothing |
| ReviewController.LookupReview | src/controllers/reviewController.js:46-50 | a parsed id finds its review or is 404; a malformed or empty one is 500 |
| ReviewController.CreateReview | src/controllers/reviewController.js:6-28 | an unknown listing is 404 and writes nothing; otherwise the review is created with the caller as author, or refused by the schema |
| ReviewController.CreatedReviewIsValid | src/controllers/reviewController.js:11-21 | a review is created exactly for an existing listing with a rating in 1..5 and a trimmed comment, and its author is the caller |
| ReviewController.GetReviewsByListingId | src/controllers/reviewController.js:30-38 | a parsed id answers `OfListing` of the stored reviews: exactly the live reviews of the listing, each once, in stored order; an absent id gives an empty list and a malformed or empty one 500 |
| ReviewController.UpdateReview | src/controllers/reviewController.js:40-61 | an unknown review is 404 and a caller other than the author is 403, and neither writes; otherwise the review becomes `Patched` |
| ReviewController.DeleteReview | src/controllers/reviewController.js:63-83 | the same guards, then a soft delete of exactly that review |
| UserModel.Created | src/services/userService.js:21-28 | a stored account has the fields the service supplies; the rest are the user model's defaults as assumed above: no refresh token, no favourites, not destroyed |
| UserModel.FirstWithEmail | src/services/userService.js:42 | the email lookup answers an account with that email, and null exactly when none has it |
| UserModel.UserStore.FindOneByEmail | src/controllers/userController.js:12 | answers a stored account with that email, and null exactly when none has it |
| UserModel.UserStore.FindOneById | src/services/userService.js:168 | finds the account with that id, or null |
| UserModel.UserStore.Insert | src/services/userService.js:28 | appends the account under the next id and never refuses it, as assumed above |
| UserModel.UserStore.Put | src/services/userService.js:52-55 | replaces exactly the account with that id |
| UserService.WithoutSecrets | src/services/userService.js:107-109 | the answer lacks password and refresh token and is otherwise the account |
| UserService.CreateNew | src/services/userService.js:14-37 | stores the account active, with the hashed password and the verify token, and answers it without password |
| UserService.Activated | src/services/userService.js:52-55 | activation sets `isActive` and clears the verify token, and changes nothing else |
| UserService.VerifyAccount | src/services/userService.js:39-61 | an unknown email, a missing token or one different from the stored token (`null` included) is 401 and writes nothing; otherwise exactly that account is activated |
| UserService.ActivationConsumesToken | src/services/userService.js:44-55 | after activation no string token verifies the account again, and a `null` token does |
| UserService.LoginCheck | src/services/userService.js:63-88 | login passes exactly for a known email whose stored hash matches the password on an active account; an unknown email is 401 and a right password on an inactive account 403 |
| UserService.LoginDoesNotRevealAccounts | src/services/userService.js:68-88 | a wrong password answers exactly as an unknown email does, and an inactive account is revealed only with the right password |
| UserService.Login | src/services/userService.js:63-115 | a failed check writes nothing; success stores the refresh token on exactly that account and answers both tokens and the account without secrets |
| UserService.RefreshAccess | src/services/userService.js:117-146 | a missing token is 401; refresh succeeds exactly for a token that verifies to an account storing that very token |
| UserService.LoginThenRefresh | src/services/userService.js:99-135 | the refresh token a login stores is accepted by the next refresh |
| UserService.GetDetails | src/services/userService.js:166-180 | an unknown id is 404; otherwise the account without password, refresh token and verify token |
| UserService.FavoriteTarget | src/services/userService.js:184-187 | a favourite must name an existing listing that is not soft-deleted, else 404 |
| UserService.WithFavorites | src/services/userService.js:189-194 | an update on one account's favourites changes that account's favourites only |
| UserService.AddFavorite | src/services/userService.js:182-199 | a missing or soft-deleted listing is 404 and writes nothing; otherwise `$addToSet` on the caller's favourites |
| UserService.RemoveFavorite | src/services/userService.js:201-213 | `$pull` of the id from the caller's favourites, with no existence check |
| UserService.FavoritesAreASet | src/services/userService.js:182-213 | favourites stay duplicate-free, adding twice is adding once, and removing what was just added restores them |
| UserController.Register | src/controllers/userController.js:7-28 | a taken email is 409 and writes nothing; otherwise the account is created with display name equal to username |
| UserController.RegisterKeepsEmailsUnique | src/controllers/userController.js:12-16 | registration never makes two accounts share an email |
| UserController.RefreshToken | src/controllers/userController.js:78-98 | every refresh failure becomes the same 401, and success is exactly the service's success |
| UserController.AddFavorite | src/controllers/userController.js:123-135 | a missing or empty listing id is 400 before any store access; otherwise as the service |
| UserController.IntOr | src/controllers/userController.js:161-162 | the parsed number or the default: a non-zero number is kept, negative ones too, and absence, NaN or zero give the default |
| UserController.Limit | src/controllers/userController.js:162 | the page size is never zero |
| UserController.SortOrder | src/controllers/userController.js:165 | the order is 1 exactly for `asc` and -1 otherwise |
| UserController.CeilDivIsLeastCover | src/controllers/userController.js:193 | for a positive limit, `ceil(total/limit)` pages hold every result and one page fewer does not |
| UserController.PageHoldsResults | src/controllers/userController.js:182-193 | the page starting at `k * limit` has results exactly when `k` is below the page count |
| UserController.Matching | src/controllers/userController.js:168-177 | the filter keeps exactly the live accounts whose display name, email or username contains the search, ignoring case |
| UserController.MatchingAppend | src/controllers/userController.js:168-177 | the filter keeps each stored account at most once, in stored order, so `total` counts the matching accounts: one appended last comes last if it matches, and is absent otherwise |
| UserController.ByCreation | src/controllers/userController.js:165-186 | the matching accounts, each as often as stored, in creation-time order ascending for `asc` and descending otherwise |
| UserController.GetAllUsers | src/controllers/userController.js:158-198 | a negative skip is 500; otherwise the data is the window of the matching accounts, sorted by creation time in the requested order, that starts at `(page-1)*limit`: entry i is sorted account `skip + i`, a page inside the results holds exactly the absolute limit, and a page has data exactly when `skip` is below the total; total and `ceil(total/limit)` pages come with it |
| UserController.PagesAreConsistent | src/controllers/userController.js:180-193 | for a positive limit, a page from 1 to the page count has data and a page past it does not |

## Left out

- Request validation middleware (`src/validations/`) is not modelled. Only the constraints restated in the model schemas are. The two layers disagree in places, for example the minimum title length.
- Categories, the dashboard, routes, swagger and constants are not modelled.
- Socket emits and socket authentication are real-time transport.
- Cookies and logout are HTTP plumbing.
- The user profile `update`, `getFavorites`, `getMe`/`getUserDetails`, `verifyAccount`/`login` wrappers and admin operations beyond `getAllUsers` are not modelled. The wrappers only pass values through.
- The user model's own source file is not part of this model. Its assumed behaviour is stated above.
- The `role` claim in tokens is left out: no modelled operation reads it.
- bcrypt, `crypto.randomBytes`, JWT signing and verification, and the clock are parameters. Their results are not modelled.
- Prices, ratings and views are integers. Fractional numbers, and the `Number(price)` conversion of an update at src/models/listingModel.js:148, are not modelled.
- Joi's `string()` accepts only non-empty strings. Its `trim().strict()` is modelled as "no blank at either end". Blanks are ASCII space, tab, CR and LF only.
- Case-insensitive matching folds ASCII letters only. Search and location texts are taken as plain text, not regular expressions.
- MongoDB does not guarantee a stable sort. The model's `SortBy` is stable, so ties keep stored order.
- `$all` with the same id twice is not special-cased. Sending a message to oneself looks up `[a, a]`, which matches any conversation holding `a`; the model does the same.
- The inbox projection is left out: the `participantDetails` and `name` fields of the pair lookup, and the optional `reqUserId` stage. `OtherParticipant` carries only the projected card.
- The `aggregate` and `countDocuments` helpers are left out.
- The schema spells the expiry key `expried_at`. The model's input and record field `expiredAt` stands for that key; a body that sends `expiredAt` itself is an undeclared key, which `otherKeys` covers. Nothing in the core reads the expiry.
- Joi's URI grammar for listing images is not modelled: `isUri` is a parameter of listing creation.
- UserController.GetAllUsers: sorts by `createdAt` only. The source sorts by any `sortBy` key the query names.
- UserController.GetAllUsers: a negative limit is read as its absolute value, as the MongoDB driver does. The driver's single-batch behaviour is not modelled.
- Concurrency is not modelled. The find-or-create race on conversations, and the check-then-insert on registration email, are modelled sequentially. `findOneAndUpdate` is one atomic step.

## Findings

| source | as written | input that shows it | evidently intended | confidence | as-written member | corrected member |
|---|---|---|---|---|---|---|
| src/controllers/listingController.js:45 | the catalogue filter compares the request's category with the field `category`, which the listing schema does not have; listings are created with `categoryId`. `ListingController.GetListings` answers as written; `ListingController.GetListingsByCategoryId` is the corrected query | `GET /listings?category=c` after creating a listing with `categoryId: "c"`: the listing is not returned | compare with `categoryId` | not executed; medium (the field could have been added by an update) | ListingController.CategoryFilterMissesCreatedListings | ListingController.CategoryFilterFindsCreatedListings |
| src/controllers/messageController.js:50 | after storing the message, `sendMessage` calls `messageModel.findOneById`, which the message model does not export, so the call throws | any valid `POST /messages` to a known receiver: the conversation and message are written, then the answer is a 500 | answer 201 with the stored message | not executed; high | MessageController.SendMessageAsWritten | MessageController.SendMessage |
