/** The request builder for one user's reviews. */
module GetUserReviewsActions {

  import opened Json
  import opened Optional
  import opened Text
  import opened Redux
  import opened SkipPaging
  import JsNumber
  import Urls

  const GetUserReviewsTypes: Types := Types("GET_USER_REVIEWS_REQUEST", "GET_USER_REVIEWS_SUCCESS", "GET_USER_REVIEWS_FAILURE")

  const DefaultSkip: int := 0
  const DefaultLimit: int := 20

  /**
    `getUserReviews(userId, skip = 0, limit = 20)`: the user id replaces the
    first `{userId}` of the whole address (base included), then the page of
    the offset and the page size are appended as written, without encoding.
   */
  function GetUserReviews(base: string, userId: string, skip: Option<int>, limit: Option<int>): (d: Dispatched)
    ensures d.Call? && d.call.types == GetUserReviewsTypes && d.call.verb == GET && d.call.data == Undefined
    ensures d.call.url == ReplaceFirst(base + "/v1" + Urls.UserReviewsUrl, "{userId}", userId)
      + "?page=" + JsNumber.ToString(PageOf(skip.GetOr(DefaultSkip), limit.GetOr(DefaultLimit)))
      + "&limit=" + IntToString(limit.GetOr(DefaultLimit))
    ensures d.actionData == ActionData("Fetch User Reviews Failed", map[])
  {
    var s := skip.GetOr(DefaultSkip);
    var l := limit.GetOr(DefaultLimit);
    var path := ReplaceFirst(base + "/v1" + Urls.UserReviewsUrl, "{userId}", userId);
    Call(ApiCall(GetUserReviewsTypes, path + "?page=" + JsNumber.ToString(PageOf(s, l)) + "&limit=" + IntToString(l), GET, Undefined),
      ActionData("Fetch User Reviews Failed", map[]))
  }

  /** When the base address has no `{` and the id no `$`, the id lands in the path segment after `/reviews/user/`. */
  lemma UserReviewsPath(base: string, userId: string)
    requires '{' !in base && '$' !in userId
    ensures ReplaceFirst(base + "/v1" + Urls.UserReviewsUrl, "{userId}", userId) == base + "/v1" + "/reviews/user/" + userId
  {
    var pre := base + "/v1" + "/reviews/user/";
    assert Urls.UserReviewsUrl == "/reviews/user/" + "{userId}";
    assert base + "/v1" + Urls.UserReviewsUrl == pre + "{userId}" + "";
    assert '{' !in "/v1" + "/reviews/user/";
    FillPlaceholder(pre, "{userId}", "", userId);
  }

  /** Under the same conditions and a positive page size, the whole address asks for the page that holds the offset. */
  lemma UserReviewsAddress(base: string, userId: string, skip: int, limit: int)
    requires '{' !in base && '$' !in userId && limit > 0
    ensures GetUserReviews(base, userId, Some(skip), Some(limit)).call.url
      == base + "/v1" + "/reviews/user/" + userId
      + "?page=" + IntToString(skip / limit + 1) + "&limit=" + IntToString(limit)
  {
    UserReviewsPath(base, userId);
    assert PageOf(skip, limit) == JsNumber.Finite(skip / limit + 1);
  }
}
