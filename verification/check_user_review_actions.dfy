/** The request builder that asks whether the signed-in user has reviewed a book. */
module CheckUserReviewActions {

  import opened Json
  import opened Redux

  const CheckUserReviewTypes: Types := Types("CHECK_USER_REVIEW_REQUEST", "CHECK_USER_REVIEW_SUCCESS", "CHECK_USER_REVIEW_FAILURE")

  /** `checkUserReview(bookId)`: the id is appended to the check path as written. */
  function CheckUserReview(base: string, bookId: string): (d: Dispatched)
    ensures d.Call? && d.call.types == CheckUserReviewTypes && d.call.verb == GET && d.call.data == Undefined
    ensures d.call.url == base + "/v1/reviews/check/" + bookId
    ensures d.actionData == ActionData("Check User Review Failed", map[])
  {
    Call(ApiCall(CheckUserReviewTypes, base + "/v1/reviews/check/" + bookId, GET, Undefined),
      ActionData("Check User Review Failed", map[]))
  }
}
