/** The create-review request builder. */
module CreateReviewActions {

  import opened Json
  import opened Redux
  import Urls

  const CreateReviewTypes: Types := Types("CREATE_REVIEW_REQUEST", "CREATE_REVIEW_SUCCESS", "CREATE_REVIEW_FAILURE")

  /** `createReview(bookId, rating, text)`: a POST of the three fields to the reviews path. */
  function CreateReview(bookId: string, rating: int, text: string): (d: Dispatched)
    ensures d.Call? && d.call.types == CreateReviewTypes && d.call.verb == POST
    ensures d.call.url == Urls.ReviewsUrl
    ensures d.call.data == Obj(map["bookId" := Str(bookId), "rating" := Num(rating), "text" := Str(text)])
    ensures d.actionData == ActionData("Create Review Failed", map[])
  {
    Call(ApiCall(CreateReviewTypes, Urls.ReviewsUrl, POST, Obj(map["bookId" := Str(bookId), "rating" := Num(rating), "text" := Str(text)])),
      ActionData("Create Review Failed", map[]))
  }
}
