/** The single-book request builder. */
module GetBookActions {

  import opened Json
  import opened Redux
  import Urls

  const GetBookTypes: Types := Types("GET_BOOK_REQUEST", "GET_BOOK_SUCCESS", "GET_BOOK_FAILURE")

  /** `getBook(bookId)`: the id is appended to the books path under the `/api/v1` prefix. */
  function GetBook(base: string, bookId: string): (d: Dispatched)
    ensures d.Call? && d.call.types == GetBookTypes && d.call.verb == GET && d.call.data == Undefined
    ensures d.call.url == base + "/api/v1" + Urls.BooksUrl + "/" + bookId
    ensures d.actionData == ActionData("Get Book Failed", map[])
  {
    Call(ApiCall(GetBookTypes, base + "/api/v1" + Urls.BooksUrl + "/" + bookId, GET, Undefined),
      ActionData("Get Book Failed", map[]))
  }
}
