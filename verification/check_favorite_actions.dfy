/** The favourite-status request builder and the two status actions. */
module CheckFavoriteActions {

  import opened Json
  import opened Optional
  import opened Text
  import opened Redux
  import Urls

  const CheckFavoriteTypes: Types := Types("CHECK_FAVORITE_REQUEST", "CHECK_FAVORITE_SUCCESS", "CHECK_FAVORITE_FAILURE")
  const UpdateFavoriteStatus: string := "UPDATE_FAVORITE_STATUS"
  const ClearFavoriteStatus: string := "CLEAR_FAVORITE_STATUS"

  /** `{ bookId, isFavorite }`, the payload of the status and optimistic-update actions. */
  function FavoriteFlag(bookId: string, isFavorite: bool): (j: Json)
    ensures Get(j, "bookId") == Str(bookId) && Get(j, "isFavorite") == Bool(isFavorite)
  {
    Obj(map["bookId" := Str(bookId), "isFavorite" := Bool(isFavorite)])
  }

  /**
    `checkFavorite(bookId)`: the id replaces the placeholder of the path
    alone, under the `/api/v1` prefix; the id also travels in actionData.
   */
  function CheckFavorite(base: string, bookId: string): (d: Dispatched)
    ensures d.Call? && d.call.types == CheckFavoriteTypes && d.call.verb == GET && d.call.data == Undefined
    ensures d.call.url == base + "/api/v1" + ReplaceFirst(Urls.FavoriteCheckUrl, "{bookId}", bookId)
    ensures d.actionData == ActionData("Check Favorite Status Failed", map["bookId" := Str(bookId)])
  {
    Call(ApiCall(CheckFavoriteTypes, base + "/api/v1" + ReplaceFirst(Urls.FavoriteCheckUrl, "{bookId}", bookId), GET, Undefined),
      ActionData("Check Favorite Status Failed", map["bookId" := Str(bookId)]))
  }

  /** An id without `$` lands in the path segment after `/favorites/check/`. */
  lemma CheckFavoritePath(bookId: string)
    requires '$' !in bookId
    ensures ReplaceFirst(Urls.FavoriteCheckUrl, "{bookId}", bookId) == "/favorites/check/" + bookId
  {
    assert Urls.FavoriteCheckUrl == "/favorites/check/" + "{bookId}" + "";
    FillPlaceholder("/favorites/check/", "{bookId}", "", bookId);
  }

  /** `checkFavoriteActionSafe(bookId, isAuthenticated)`: nothing to dispatch for a guest. */
  function CheckFavoriteSafe(base: string, bookId: string, isAuthenticated: bool): (r: Option<Dispatched>)
    ensures r.None? <==> !isAuthenticated
    ensures r.Some? ==> r.value == CheckFavorite(base, bookId)
  {
    if !isAuthenticated then None else Some(CheckFavorite(base, bookId))
  }

  /** `updateFavoriteStatus(bookId, isFavorite)` */
  function UpdateFavoriteStatusAction(bookId: string, isFavorite: bool): (a: Action)
    ensures a.Is(UpdateFavoriteStatus) && a.Field("response") == FavoriteFlag(bookId, isFavorite)
  {
    WithResponse(UpdateFavoriteStatus, FavoriteFlag(bookId, isFavorite))
  }

  /** `clearFavoriteStatus()` */
  function ClearFavoriteStatusAction(): (a: Action)
    ensures a.Is(ClearFavoriteStatus) && a.fields.Keys == {"type"}
  {
    OfType(ClearFavoriteStatus)
  }
}
