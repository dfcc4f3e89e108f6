/** The update-review request builder. */
module UpdateReviewActions {

  import opened Json
  import opened Redux
  import Urls

  const UpdateReviewTypes: Types := Types("UPDATE_REVIEW_REQUEST", "UPDATE_REVIEW_SUCCESS", "UPDATE_REVIEW_FAILURE")

  /** The path of one review: the reviews path, a slash and the id as written. */
  function ReviewPath(reviewId: string): (p: string)
    ensures |p| == |Urls.ReviewsUrl| + 1 + |reviewId|
    ensures p[..|Urls.ReviewsUrl|] == Urls.ReviewsUrl && p[|Urls.ReviewsUrl|] == '/'
    ensures p[|Urls.ReviewsUrl| + 1..] == reviewId
  {
    Urls.ReviewsUrl + "/" + reviewId
  }

  /** `updateReview(reviewId, rating, text)`: a PUT of rating and text to the review's path. */
  function UpdateReview(reviewId: string, rating: int, text: string): (d: Dispatched)
    ensures d.Call? && d.call.types == UpdateReviewTypes && d.call.verb == PUT
    ensures d.call.url == ReviewPath(reviewId)
    ensures d.call.data == Obj(map["rating" := Num(rating), "text" := Str(text)])
    ensures d.actionData == ActionData("Update Review Failed", map[])
  {
    Call(ApiCall(UpdateReviewTypes, ReviewPath(reviewId), PUT, Obj(map["rating" := Num(rating), "text" := Str(text)])),
      ActionData("Update Review Failed", map[]))
  }

  /** Different review ids address different paths. */
  lemma ReviewPathInjective(a: string, b: string)
    requires ReviewPath(a) == ReviewPath(b)
    ensures a == b
  {
    assert a == ReviewPath(a)[|Urls.ReviewsUrl| + 1..];
  }
}
