/**
 * Vocabulary shared by every store and controller: identifiers, timestamps,
 * the API error taxonomy and the string checks that the Joi schemas apply.
 */
module Common {

  /** A MongoDB ObjectId, abstracted to an opaque number handed out by the inserting store. */
  type Id = nat

  /** Milliseconds since the epoch, as `Date.now()` returns them. */
  type Timestamp = nat

  datatype Option<+T> = None | Some(value: T) {
    /** The value, or `default` where the source falls back to a default. */
    function GetOr(default: T): T {
      match this
      case Some(v) => v
      case None => default
    }
  }

  /**
   * An identifier as a request carries it. `new ObjectId(s)` throws on a
   * malformed string, the empty string included; given `undefined` it
   * generates a fresh id, which names no stored record.
   */
  datatype IdArg = Absent | Empty | Malformed | Parsed(id: Id) {
    /** `!x` holds: the argument is missing or the empty string. */
    predicate Falsy() {
      Absent? || Empty?
    }

    /** `new ObjectId(x)` throws. */
    predicate Unparsable() {
      Empty? || Malformed?
    }
  }

  /** A query-string number after `parseInt`: absent/empty, NaN, or a number. */
  datatype NumArg = NoArg | NotANumber | Num(n: int)

  datatype StatusCode = BadRequest | Unauthorized | Forbidden | NotFound | Conflict | InternalError

  function HttpStatus(s: StatusCode): (code: nat)
    ensures 400 <= code <= 500
  {
    match s
    case BadRequest => 400
    case Unauthorized => 401
    case Forbidden => 403
    case NotFound => 404
    case Conflict => 409
    case InternalError => 500
  }

  /** The message an error carries; one constructor per distinct message text of the source. */
  datatype Reason =
    | InvalidIdentifier        // ObjectId parsing threw; rethrown as a plain Error
    | SchemaRejected           // a model's Joi schema refused the document
    | InvalidSellerIdFormat    // the listing model's rewording of an ObjectId failure
    | InvalidReviewIdsFormat   // the review model's rewording of an ObjectId failure
    | ListingNotFound
    | NotSellerUpdate
    | NotSellerDelete
    | MessageFieldsRequired
    | ReceiverRequired
    | ReceiverNotFound
    | OtherUserNotFound
    | MessageLookupMissing     // a call to a model function that does not exist
    | ReviewNotFound
    | NotAuthorUpdate
    | NotAuthorDelete
    | InvalidVerifyToken
    | WrongCredentials
    | IllegalHashArguments     // bcrypt refuses to compare against a missing hash
    | AccountNotVerified
    | RefreshTokenMissing
    | RefreshTokenRejected
    | TokenVerificationFailed
    | RefreshTokenInvalidOrExpired
    | UserNotFound
    | ListingIdRequired
    | EmailTaken
    | NegativeSkip

  datatype ApiError = ApiError(status: StatusCode, reason: Reason)

  datatype Result<+T> = Ok(value: T) | Err(error: ApiError)

  /** A plain `Error` thrown below a controller reaches the error handler as a 500. */
  function Internal<T>(reason: Reason): (r: Result<T>)
    ensures r.Err? && HttpStatus(r.error.status) == 500
  {
    Err(ApiError(InternalError, reason))
  }

  predicate IsSpace(c: char) {
    c == ' ' || c == '\t' || c == '\n' || c == '\r'
  }

  /**
   * A value accepted by Joi's `string().trim().strict()`: Joi strings are
   * non-empty, and in strict mode `trim()` refuses instead of trimming.
   */
  predicate IsTrimmedText(s: string) {
    |s| > 0 && !IsSpace(s[0]) && !IsSpace(s[|s| - 1])
  }

  function LowerAscii(c: char): (d: char)
    ensures 'A' <= c <= 'Z' ==> 'a' <= d <= 'z'
    ensures !('A' <= c <= 'Z') ==> d == c
  {
    if 'A' <= c <= 'Z' then (c as int + 32) as char else c
  }

  predicate EqualIgnoreCase(a: string, b: string) {
    |a| == |b| && forall k :: 0 <= k < |a| ==> LowerAscii(a[k]) == LowerAscii(b[k])
  }

  predicate MatchesAt(text: string, pattern: string, i: nat) {
    i + |pattern| <= |text| && EqualIgnoreCase(text[i..i + |pattern|], pattern)
  }

  /** A case-insensitive regular expression made of plain characters: a substring test. */
  predicate ContainsIgnoreCase(text: string, pattern: string) {
    exists i: nat :: i <= |text| && MatchesAt(text, pattern, i)
  }
}
