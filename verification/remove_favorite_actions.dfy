/** The remove-from-favourites request builder. */
module RemoveFavoriteActions {

  import opened Json
  import opened Text
  import opened Redux
  import Urls

  const RemoveFavoriteTypes: Types := Types("REMOVE_FAVORITE_REQUEST", "REMOVE_FAVORITE_SUCCESS", "REMOVE_FAVORITE_FAILURE")

  /** `removeFavorite(bookId)`: a DELETE of the book's favourites path, relative to the API client. */
  function RemoveFavorite(bookId: string): (d: Dispatched)
    ensures d.Call? && d.call.types == RemoveFavoriteTypes && d.call.verb == DELETE && d.call.data == Undefined
    ensures d.call.url == ReplaceFirst(Urls.FavoriteRemoveUrl, "{bookId}", bookId)
    ensures d.actionData == ActionData("Remove from Favorites Failed", map["bookId" := Str(bookId)])
  {
    Call(ApiCall(RemoveFavoriteTypes, ReplaceFirst(Urls.FavoriteRemoveUrl, "{bookId}", bookId), DELETE, Undefined),
      ActionData("Remove from Favorites Failed", map["bookId" := Str(bookId)]))
  }

  /** An id without `$` lands in the path segment after `/favorites/`. */
  lemma RemoveFavoritePath(bookId: string)
    requires '$' !in bookId
    ensures RemoveFavorite(bookId).call.url == "/favorites/" + bookId
  {
    assert Urls.FavoriteRemoveUrl == "/favorites/" + "{bookId}" + "";
    FillPlaceholder("/favorites/", "{bookId}", "", bookId);
  }
}
