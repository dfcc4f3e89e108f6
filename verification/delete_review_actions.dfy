/** The delete-review request builder. */
module DeleteReviewActions {

  import opened Json
  import opened Redux
  import UpdateReviewActions

  const DeleteReviewTypes: Types := Types("DELETE_REVIEW_REQUEST", "DELETE_REVIEW_SUCCESS", "DELETE_REVIEW_FAILURE")

  /** `deleteReview(reviewId)`: a DELETE of the same path an update of that review uses. */
  function DeleteReview(reviewId: string): (d: Dispatched)
    ensures d.Call? && d.call.types == DeleteReviewTypes && d.call.verb == DELETE && d.call.data == Undefined
    ensures d.call.url == UpdateReviewActions.UpdateReview(reviewId, 0, "").call.url
    ensures d.actionData == ActionData("Delete Review Failed", map[])
  {
    Call(ApiCall(DeleteReviewTypes, UpdateReviewActions.ReviewPath(reviewId), DELETE, Undefined),
      ActionData("Delete Review Failed", map[]))
  }
}
