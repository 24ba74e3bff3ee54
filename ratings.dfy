/**
 * Template ratings (src/components/TemplateRating.tsx): the star caption,
 * the checks before a rating is sent, and the per-session set of reviews
 * the user marked helpful.
 */
module Ratings {
  import opened Options
  import opened Text

  /** `getRatingText`: the caption under the stars. */
  function RatingText(rating: int): string {
    if rating == 1 then "Poor"
    else if rating == 2 then "Fair"
    else if rating == 3 then "Good"
    else if rating == 4 then "Very Good"
    else if rating == 5 then "Excellent"
    else ""
  }

  /** Only the five star values have a caption, and no two share one. */
  lemma RatingTextSpec(a: int, b: int)
    ensures RatingText(a) != "" <==> 1 <= a <= 5
    ensures RatingText(a) == RatingText(b) && RatingText(a) != "" ==> a == b
  {
    if RatingText(a) == RatingText(b) && RatingText(a) != "" {
      assert RatingText(a)[0] == RatingText(b)[0];
      assert |RatingText(a)| == |RatingText(b)|;
    }
  }

  /** `userReview.trim() || undefined`: the review argument of `rateTemplate`. */
  function ReviewArgument(review: string): Option<string> {
    var t := Trim(review);
    if t == [] then None else Some(t)
  }

  /** A blank review is not sent; any other is sent trimmed, and trimming it again changes nothing. */
  lemma ReviewArgumentSpec(review: string)
    ensures ReviewArgument(review).None? <==> IsBlank(review)
    ensures ReviewArgument(review).Some? ==>
      var t := ReviewArgument(review).value;
      t != [] && Trim(t) == t && exists i :: OccursAt(review, t, i)
  {
    TrimIdempotent(review);
    TrimShape(review);
  }

  /** The arguments of a `rateTemplate` call. */
  datatype RateRequest = RateRequest(templateId: string, userId: string, rating: int, review: Option<string>)

  class RatingForm {
    const templateId: string
    var userRating: int
    var userReview: string
    var isSubmitting: bool
    var showReviewForm: bool

    constructor (templateId: string)
      ensures this.templateId == templateId && userRating == 0 && userReview == ""
      ensures !isSubmitting && !showReviewForm
    {
      this.templateId := templateId;
      userRating := 0;
      userReview := "";
      isSubmitting := false;
      showReviewForm := false;
    }

    /**
     * `handleRateTemplate`. `user` is the signed-in user's id, if any;
     * `rateOk` whether `rateTemplate` returned rather than threw. The
     * result is the call made, None when a check stopped first.
     */
    method HandleRateTemplate(user: Option<string>, rateOk: bool) returns (call: Option<RateRequest>)
      modifies this
      ensures call.None? <==> user.None? || old(userRating) == 0
      ensures call.Some? ==>
        call.value == RateRequest(templateId, user.value, old(userRating), ReviewArgument(old(userReview)))
      ensures call.Some? && rateOk ==> !showReviewForm && userReview == ""
      ensures call.None? || !rateOk ==> showReviewForm == old(showReviewForm) && userReview == old(userReview)
      ensures call.Some? ==> !isSubmitting
      ensures call.None? ==> isSubmitting == old(isSubmitting)
      ensures userRating == old(userRating)
    {
      if user.None? {
        return None;
      }
      if userRating == 0 {
        return None;
      }
      isSubmitting := true;
      call := Some(RateRequest(templateId, user.value, userRating, ReviewArgument(userReview)));
      if rateOk {
        showReviewForm := false;
        userReview := "";
      }
      isSubmitting := false;
    }
  }

  /** One click on "Helpful": the review id leaves the set if it was there and joins it otherwise. */
  function Toggle(votes: set<string>, reviewId: string): (r: set<string>)
    ensures reviewId in r <==> reviewId !in votes
    ensures forall id :: id != reviewId ==> (id in r <==> id in votes)
  {
    if reviewId in votes then votes - {reviewId} else votes + {reviewId}
  }

  /** Two clicks on the same review cancel out. */
  lemma ToggleTwice(votes: set<string>, reviewId: string)
    ensures Toggle(Toggle(votes, reviewId), reviewId) == votes
  {
  }

  /** Clicks on different reviews do not interfere: their order does not matter. */
  lemma ToggleCommutes(votes: set<string>, a: string, b: string)
    ensures Toggle(Toggle(votes, a), b) == Toggle(Toggle(votes, b), a)
  {
  }

  /** The count shown beside a review: its stored count, plus one while this session's vote is on. */
  function DisplayedHelpful(helpfulCount: int, votes: set<string>, reviewId: string): (n: int)
    ensures n == helpfulCount || n == helpfulCount + 1
    ensures n == helpfulCount + 1 <==> reviewId in votes
  {
    helpfulCount + (if reviewId in votes then 1 else 0)
  }

  /** A click moves the clicked review's count by exactly one and leaves every other count alone. */
  lemma ToggleMovesOneCount(votes: set<string>, reviewId: string, other: string, helpfulCount: int, otherCount: int)
    requires other != reviewId
    ensures var after := Toggle(votes, reviewId);
      && (DisplayedHelpful(helpfulCount, after, reviewId) - DisplayedHelpful(helpfulCount, votes, reviewId) == 1
          || DisplayedHelpful(helpfulCount, votes, reviewId) - DisplayedHelpful(helpfulCount, after, reviewId) == 1)
      && DisplayedHelpful(otherCount, after, other) == DisplayedHelpful(otherCount, votes, other)
  {
  }

  class ReviewList {
    var helpfulVotes: set<string>

    constructor ()
      ensures helpfulVotes == {}
    {
      helpfulVotes := {};
    }

    /** `handleHelpfulVote`: without a user nothing changes. */
    method HandleHelpfulVote(user: Option<string>, reviewId: string)
      modifies this
      ensures user.None? ==> helpfulVotes == old(helpfulVotes)
      ensures user.Some? ==> helpfulVotes == Toggle(old(helpfulVotes), reviewId)
    {
      if user.None? {
        return;
      }
      var newSet := helpfulVotes;
      if reviewId in newSet {
        newSet := newSet - {reviewId};
      } else {
        newSet := newSet + {reviewId};
      }
      helpfulVotes := newSet;
    }
  }
}
