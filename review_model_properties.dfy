/** What the review model promises: its field rules and one review per user per dish. */
module ReviewModelProperties {
  import opened Wrappers
  import opened UniqueIndex
  import opened ReviewModel

  /** `rating` fails exactly when it is unset or outside 1-5. */
  lemma RatingRule(r: ReviewDoc)
    ensures "rating" in FailedPaths(r) <==> r.rating.None? || r.rating.value < 1 || r.rating.value > 5
  {
  }

  /** `comment` fails exactly when it is unset or not 10 to 500 characters long. */
  lemma CommentRule(r: ReviewDoc)
    ensures "comment" in FailedPaths(r) <==> r.comment.None? || |r.comment.value| < 10 || |r.comment.value| > 500
  {
  }

  /** A response of more than 300 characters is refused; no response at all is fine. */
  lemma ResponseRule(r: ReviewDoc)
    ensures "response.text" in FailedPaths(r) <==> r.responseText.Some? && |r.responseText.value| > 300
  {
  }

  /** A review needs no dish and no order to be saved, and is not approved unless it says so. */
  lemma NewReviewDefaults(f: ReviewFields, now: nat)
    requires f.isApproved.None? && f.dishId.None? && f.orderId.None?
    requires f.userId.Some? && f.rating == Some(5) && f.comment == Some("Lovely biryani")
    ensures !NewReview(f, now).isApproved
    ensures f.responseText.None? ==> Savable(NewReview(f, now))
  {
  }

  /** Under the index, no two stored reviews are by the same user about the same dish. */
  lemma OneReviewPerDish(reviews: seq<ReviewDoc>, i: nat, j: nat)
    requires KeysDistinct(reviews, AuthorKey)
    requires i < |reviews| && j < |reviews| && i != j
    ensures reviews[i].userId != reviews[j].userId || reviews[i].dishId != reviews[j].dishId
  {
    if AuthorKey(reviews[i]) == AuthorKey(reviews[j]) {
      AtMostOne(reviews, AuthorKey, i, j);
    }
  }

  /** A valid review is stored when its author has not reviewed that dish. */
  lemma FirstReviewStored(reviews: seq<ReviewDoc>, f: ReviewFields, now: nat)
    requires Savable(NewReview(f, now))
    requires forall k :: 0 <= k < |reviews| ==> reviews[k].userId != f.userId || reviews[k].dishId != f.dishId
    ensures CreateSpec(reviews, f, now) == (Ok(NewReview(f, now)), reviews + [NewReview(f, now)])
  {
  }

  /** A second review of the same dish by the same user is refused with E11000, and nothing changes. */
  lemma SecondReviewRefused(reviews: seq<ReviewDoc>, k: nat, f: ReviewFields, now: nat)
    requires Savable(NewReview(f, now))
    requires k < |reviews| && reviews[k].userId == f.userId && reviews[k].dishId == f.dishId
    ensures CreateSpec(reviews, f, now) == (Err(DuplicateKey(DuplicateKeyCode)), reviews)
  {
    assert AuthorKey(reviews[k]) == AuthorKey(NewReview(f, now));
  }

  /** A user's reviews without a dish share the null `dishId`: after the first, every other is refused. */
  lemma SecondUndishedReviewRefused(reviews: seq<ReviewDoc>, k: nat, f: ReviewFields, now: nat)
    requires Savable(NewReview(f, now))
    requires k < |reviews| && reviews[k].userId == f.userId && reviews[k].dishId.None? && f.dishId.None?
    ensures CreateSpec(reviews, f, now).0 == Err(DuplicateKey(DuplicateKeyCode))
  {
    SecondReviewRefused(reviews, k, f, now);
  }

  /** A refused review leaves the collection as it was. */
  lemma RefusedChangesNothing(reviews: seq<ReviewDoc>, f: ReviewFields, now: nat)
    ensures CreateSpec(reviews, f, now).0.Err? ==> CreateSpec(reviews, f, now).1 == reviews
    ensures CreateSpec(reviews, f, now).0.Ok? ==> CreateSpec(reviews, f, now).1 == reviews + [NewReview(f, now)]
  {
  }
}
