/** The request builder for one book's reviews. */
module GetBookReviewsActions {

  import opened Json
  import opened Optional
  import opened Text
  import opened Redux
  import Urls

  const GetBookReviewsTypes: Types := Types("GET_BOOK_REVIEWS_REQUEST", "GET_BOOK_REVIEWS_SUCCESS", "GET_BOOK_REVIEWS_FAILURE")

  const DefaultSkip: int := 0
  const DefaultLimit: int := 10

  /**
    `getBookReviews(bookId, skip = 0, limit = 10)`, and the wrapper that passes
    its possibly undefined arguments through: an undefined argument takes the
    default.  This builder uses the `/api/v1` prefix and sends the offset
    itself rather than a page number.
   */
  function GetBookReviews(base: string, bookId: string, skip: Option<int>, limit: Option<int>): (d: Dispatched)
    ensures d.Call? && d.call.types == GetBookReviewsTypes && d.call.verb == GET && d.call.data == Undefined
    ensures d.call.url == ReplaceFirst(base + "/api/v1" + Urls.BookReviewsUrl, "{bookId}", bookId)
      + "?skip=" + IntToString(skip.GetOr(DefaultSkip)) + "&limit=" + IntToString(limit.GetOr(DefaultLimit))
    ensures d.actionData == ActionData("Fetch Book Reviews Failed", map[])
  {
    var path := ReplaceFirst(base + "/api/v1" + Urls.BookReviewsUrl, "{bookId}", bookId);
    Call(ApiCall(GetBookReviewsTypes, path + "?skip=" + IntToString(skip.GetOr(DefaultSkip)) + "&limit=" + IntToString(limit.GetOr(DefaultLimit)), GET, Undefined),
      ActionData("Fetch Book Reviews Failed", map[]))
  }

  /** When the base address has no `{` and the id no `$`, the id lands in the path segment after `/reviews/book/`. */
  lemma BookReviewsPath(base: string, bookId: string)
    requires '{' !in base && '$' !in bookId
    ensures ReplaceFirst(base + "/api/v1" + Urls.BookReviewsUrl, "{bookId}", bookId) == base + "/api/v1" + "/reviews/book/" + bookId
  {
    var pre := base + "/api/v1" + "/reviews/book/";
    assert Urls.BookReviewsUrl == "/reviews/book/" + "{bookId}";
    assert base + "/api/v1" + Urls.BookReviewsUrl == pre + "{bookId}" + "";
    assert '{' !in "/api/v1" + "/reviews/book/";
    FillPlaceholder(pre, "{bookId}", "", bookId);
  }

  /** Called with no paging, the first ten reviews are asked for. */
  lemma BookReviewsDefaults(base: string, bookId: string)
    ensures GetBookReviews(base, bookId, None, None).call.url
      == ReplaceFirst(base + "/api/v1" + Urls.BookReviewsUrl, "{bookId}", bookId) + "?skip=" + "0" + "&limit=" + "10"
  {
    assert IntToString(0) == "0";
    assert IntToString(10) == "10";
  }
}
