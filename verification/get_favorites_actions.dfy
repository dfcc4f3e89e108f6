/** The favourites-list request builder and the favourites task action. */
module GetFavoritesActions {

  import opened Json
  import opened Optional
  import opened Text
  import opened FormEncoding
  import opened Redux
  import opened SkipPaging
  import JsNumber
  import Urls

  const GetFavoritesRequest: string := "GET_FAVORITES_REQUEST"
  const GetFavoritesSuccess: string := "GET_FAVORITES_SUCCESS"
  const GetFavoritesFailure: string := "GET_FAVORITES_FAILURE"
  const AppendFavoritesSuccess: string := "APPEND_FAVORITES_SUCCESS"
  const UpdateFavoritesTask: string := "UPDATE_FAVORITES_TASK"

  const DefaultSkip: int := 0
  const DefaultLimit: int := 20

  /** A loaded page either replaces the list or is appended to it, depending on the success type. */
  function FavoritesTypes(append: bool): Types {
    Types(GetFavoritesRequest, if append then AppendFavoritesSuccess else GetFavoritesSuccess, GetFavoritesFailure)
  }

  /** `page` (from the offset) and `limit`, in that order. */
  function FavoritesQuery(skip: int, limit: int): (q: seq<Param>)
    ensures |q| == 2 && Names(q) == ["page", "limit"]
    ensures q[0].value == JsNumber.ToString(PageOf(skip, limit)) && q[1].value == IntToString(limit)
  {
    [Param("page", JsNumber.ToString(PageOf(skip, limit))), Param("limit", IntToString(limit))]
  }

  /**
    `getFavorites(skip = 0, limit = 20, append = false)`; an absent argument
    takes its default.
   */
  function GetFavorites(base: string, skip: Option<int>, limit: Option<int>, append: Option<bool>): (d: Dispatched)
    ensures d.Call? && d.call.verb == GET && d.call.data == Undefined
    ensures d.call.types.request == GetFavoritesRequest && d.call.types.failure == GetFavoritesFailure
    ensures d.call.types.success == AppendFavoritesSuccess <==> append == Some(true)
    ensures d.call.types.success == GetFavoritesSuccess <==> append != Some(true)
    ensures d.call.url == base + "/v1" + Urls.FavoritesUrl + "?"
      + Serialize(FavoritesQuery(skip.GetOr(DefaultSkip), limit.GetOr(DefaultLimit)))
    ensures d.actionData == ActionData("Fetch Favorites Failed", map[])
  {
    var s := skip.GetOr(DefaultSkip);
    var l := limit.GetOr(DefaultLimit);
    var url := base + "/v1" + Urls.FavoritesUrl;
    Call(ApiCall(FavoritesTypes(append.GetOr(false)), url + "?" + Serialize(FavoritesQuery(s, l)), GET, Undefined),
      ActionData("Fetch Favorites Failed", map[]))
  }

  /** `getFavoritesActionSimple(skip, limit)`: the same request, never appending. */
  function GetFavoritesSimple(base: string, skip: Option<int>, limit: Option<int>): (d: Dispatched)
    ensures d.Call? && d.call.types.success == GetFavoritesSuccess
    ensures d.call.url == GetFavorites(base, skip, limit, None).call.url
  {
    GetFavorites(base, skip, limit, Some(false))
  }

  /**
    With a positive page size the query reads back as the 1-based page holding
    the offset and the page size, both as decimal numbers.
   */
  lemma FavoritesQueryReadsBack(skip: int, limit: int)
    requires limit > 0
    ensures Split(Serialize(FavoritesQuery(skip, limit)), '&')
      == ["page" + "=" + IntToString(skip / limit + 1), "limit" + "=" + IntToString(limit)]
  {
    var q := FavoritesQuery(skip, limit);
    SerializeSplits(q);
    assert PageOf(skip, limit) == JsNumber.Finite(skip / limit + 1);
    EncodeInt(skip / limit + 1);
    EncodeInt(limit);
    EncodeKept("page");
    EncodeKept("limit");
    assert EncodePair(q[0]) == "page" + "=" + IntToString(skip / limit + 1);
    assert EncodePair(q[1]) == "limit" + "=" + IntToString(limit);
  }

  /** `updateFavoritesTask(favorites)` */
  function UpdateFavoritesTaskAction(favorites: Json): (a: Action)
    ensures a.Is(UpdateFavoritesTask) && a.Field("response") == favorites
  {
    WithResponse(UpdateFavoritesTask, favorites)
  }
}
