/** The add-to-favourites request builder and the optimistic-update action. */
module AddFavoriteActions {

  import opened Json
  import opened Redux
  import opened CheckFavoriteActions
  import Urls

  const AddFavoriteTypes: Types := Types("ADD_FAVORITE_REQUEST", "ADD_FAVORITE_SUCCESS", "ADD_FAVORITE_FAILURE")
  const UpdateFavoriteOptimistic: string := "UPDATE_FAVORITE_OPTIMISTIC"

  /** `addFavorite(bookId)`: a POST of `{ bookId }` to the favourites path, relative to the API client. */
  function AddFavorite(bookId: string): (d: Dispatched)
    ensures d.Call? && d.call.types == AddFavoriteTypes && d.call.verb == POST
    ensures d.call.url == Urls.FavoritesUrl
    // the body is exactly `{ bookId }`
    ensures d.call.data.Obj? && d.call.data.fields.Keys == {"bookId"} && Get(d.call.data, "bookId") == Str(bookId)
    ensures d.actionData == ActionData("Add to Favorites Failed", map["bookId" := Str(bookId)])
  {
    Call(ApiCall(AddFavoriteTypes, Urls.FavoritesUrl, POST, Obj(map["bookId" := Str(bookId)])),
      ActionData("Add to Favorites Failed", map["bookId" := Str(bookId)]))
  }

  /** `updateFavoriteOptimistic(bookId, isFavorite)` carries the same payload as a status update. */
  function UpdateFavoriteOptimisticAction(bookId: string, isFavorite: bool): (a: Action)
    ensures a.Is(UpdateFavoriteOptimistic) && a.Field("response") == FavoriteFlag(bookId, isFavorite)
  {
    WithResponse(UpdateFavoriteOptimistic, FavoriteFlag(bookId, isFavorite))
  }
}
