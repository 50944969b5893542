/**
 * models/Review.ts: the review document, its defaults and validators, and
 * the unique, sparse index on (userId, dishId): one review per user per
 * dish.
 *
 * Ids are strings. As in Mongoose, a validator other than `required` is
 * skipped for an unset value, and a required string must be non-empty.
 * `response` is a nested path, not a subdocument, so the default of
 * `response.respondedAt` is applied to every new review.
 */
module ReviewModel {
  import opened Wrappers
  import opened UniqueIndex

  /** The fields a new review is built from. */
  datatype ReviewFields = ReviewFields(
    userId: Option<string>,
    dishId: Option<string>,
    orderId: Option<string>,
    rating: Option<int>,
    comment: Option<string>,
    isApproved: Option<bool>,
    responseText: Option<string>,
    respondedBy: Option<string>,
    respondedAt: Option<int>)

  datatype ReviewDoc = ReviewDoc(
    userId: Option<string>,
    dishId: Option<string>,
    orderId: Option<string>,
    rating: Option<int>,
    comment: Option<string>,
    isApproved: bool,
    responseText: Option<string>,
    respondedBy: Option<string>,
    respondedAt: int,
    createdAt: nat,
    updatedAt: nat)

  const MinComment: nat := 10
  const MaxComment: nat := 500
  const MaxResponse: nat := 300

  /** `new ReviewModel(fields)` at time `now`: not approved and responded now, unless given. */
  function NewReview(f: ReviewFields, now: nat): (r: ReviewDoc)
    ensures r.isApproved == (f.isApproved.Some? && f.isApproved.value)
    ensures r.respondedAt == if f.respondedAt.Some? then f.respondedAt.value else now
    ensures r.createdAt == now && r.updatedAt == now
  {
    ReviewDoc(
      f.userId, f.dishId, f.orderId, f.rating, f.comment,
      match f.isApproved case None => false case Some(b) => b,
      f.responseText, f.respondedBy,
      match f.respondedAt case None => now case Some(t) => t,
      now, now)
  }

  predicate RequiredString(s: Option<string>) {
    s.Some? && s.value != ""
  }

  /** The paths whose validators fail, in the order of the schema. */
  function FailedPaths(r: ReviewDoc): (paths: seq<string>)
    ensures paths == [] <==> Savable(r)
  {
    (if r.userId.None? then ["userId"] else [])
    + (if r.rating.None? || r.rating.value < 1 || r.rating.value > 5 then ["rating"] else [])
    + (if !RequiredString(r.comment) || |r.comment.value| < MinComment || |r.comment.value| > MaxComment
       then ["comment"] else [])
    + (if r.responseText.Some? && |r.responseText.value| > MaxResponse then ["response.text"] else [])
  }

  /** Every validator passes. */
  predicate Savable(r: ReviewDoc) {
    && r.userId.Some?
    && r.rating.Some? && 1 <= r.rating.value <= 5
    && r.comment.Some? && 10 <= |r.comment.value| <= 500
    && (r.responseText.None? || |r.responseText.value| <= 300)
  }

  datatype SaveError = ValidationFailed(paths: seq<string>) | DuplicateKey(code: nat)

  /**
   * The key of the one-review-per-dish index. `userId` is required, so every
   * stored review is in the sparse index; a review without a dish is
   * indexed with a null `dishId`.
   */
  function AuthorKey(r: ReviewDoc): (Option<string>, Option<string>) {
    (r.userId, r.dishId)
  }

  /** `ReviewModel.create(fields)`: validation, then insertion under the unique index. */
  function CreateSpec(reviews: seq<ReviewDoc>, f: ReviewFields, now: nat): (Result<ReviewDoc, SaveError>, seq<ReviewDoc>) {
    var r := NewReview(f, now);
    var failed := FailedPaths(r);
    if failed != [] then (Err(ValidationFailed(failed)), reviews)
    else
      match Insert(reviews, AuthorKey, r)
      case None => (Err(DuplicateKey(DuplicateKeyCode)), reviews)
      case Some(after) => (Ok(r), after)
  }

  /** The reviews collection. */
  class ReviewCollection {
    var reviews: seq<ReviewDoc>

    /** The unique index holds, and only valid documents are stored. */
    ghost predicate Valid()
      reads this
    {
      && KeysDistinct(reviews, AuthorKey)
      && forall k :: 0 <= k < |reviews| ==> Savable(reviews[k])
    }

    constructor()
      ensures Valid() && reviews == []
    {
      reviews := [];
    }

    method Create(f: ReviewFields, now: nat) returns (r: Result<ReviewDoc, SaveError>)
      requires Valid()
      modifies this
      ensures Valid()
      ensures (r, reviews) == CreateSpec(old(reviews), f, now)
    {
      var doc := NewReview(f, now);
      var failed := FailedPaths(doc);
      if failed != [] {
        return Err(ValidationFailed(failed));
      }
      var inserted := Insert(reviews, AuthorKey, doc);
      if inserted.None? {
        return Err(DuplicateKey(DuplicateKeyCode));
      }
      StoredStaySavable(reviews, doc);
      reviews := inserted.value;
      r := Ok(doc);
    }
  }

  lemma StoredStaySavable(reviews: seq<ReviewDoc>, r: ReviewDoc)
    requires forall k :: 0 <= k < |reviews| ==> Savable(reviews[k])
    requires Savable(r)
    ensures forall k :: 0 <= k < |reviews + [r]| ==> Savable((reviews + [r])[k])
  {
  }
}
