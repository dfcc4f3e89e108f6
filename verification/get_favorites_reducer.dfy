/** The favourites-list slice, with its append variant and the task merge. */
module GetFavoritesReducer {

  import opened Json
  import opened Redux
  import opened Slices
  import opened GetFavoritesActions
  import Optional
  import ApiMiddleware

  predicate Handles(a: Action) {
    a.Is(GetFavoritesRequest) || a.Is(GetFavoritesSuccess) || a.Is(AppendFavoritesSuccess)
    || a.Is(GetFavoritesFailure) || a.Is(UpdateFavoritesTask)
  }

  /** `{ ...response.data, favorites: [...existing, ...incoming] }` */
  function Appended(s: Loose, a: Action): (data: Json)
    ensures data.Obj? && "favorites" in data.fields
    ensures data.fields["favorites"] == Arr(ListOr(Get(s.data, "favorites")) + ListOr(Get(ResponseData(a), "favorites")))
    ensures forall k :: k in Fields(ResponseData(a)) && k != "favorites" ==> k in data.fields && data.fields[k] == Fields(ResponseData(a))[k]
  {
    var existing := ListOr(Get(s.data, "favorites"));
    var incoming := ListOr(Get(ResponseData(a), "favorites"));
    Obj(Fields(ResponseData(a))["favorites" := Arr(existing + incoming)])
  }

  /** `{ ...state.data, ...action.response }` */
  function Merged(s: Loose, a: Action): (data: Json)
    ensures data.Obj? && data.fields.Keys == Fields(s.data).Keys + Fields(Response(a)).Keys
    ensures forall k :: k in Fields(Response(a)) ==> data.fields[k] == Fields(Response(a))[k]
    ensures forall k :: k in Fields(s.data) && k !in Fields(Response(a)) ==> data.fields[k] == Fields(s.data)[k]
  {
    Obj(Fields(s.data) + Fields(Response(a)))
  }

  /** `getFavoritesReducer(state, action)` for a defined state. */
  function Reduce(s: Loose, a: Action): (r: Loose)
    ensures !Handles(a) ==> r == s
    ensures KeepsError(s, r)
    // meta follows the last page that arrived
    ensures a.Is(GetFavoritesSuccess) || a.Is(AppendFavoritesSuccess) ==> r.meta == Get(Response(a), "meta")
    ensures !a.Is(GetFavoritesSuccess) && !a.Is(AppendFavoritesSuccess) ==> r.meta == s.meta
    // a request shows loading over the list already held, or an empty object
    ensures a.Is(GetFavoritesRequest) ==>
      r.loading == Bool(true) && r.data == Or(s.data, EmptyObject) && r.error == s.error && r.errorDetails == s.errorDetails
    // a replacing page becomes the data; an appended one follows the list already held
    ensures a.Is(GetFavoritesSuccess) ==> r.loading == Bool(false) && r.data == ResponseData(a) && r.error == s.error
    ensures a.Is(AppendFavoritesSuccess) ==> r.loading == Bool(false) && r.data == Appended(s, a) && r.error == s.error
    // a failure records the failure's message and status code and keeps the list
    ensures a.Is(GetFavoritesFailure) ==>
      r.loading == Bool(false) && r.error == Bool(true) && r.errorDetails == ErrorDetails(a) && r.data == s.data
    ensures a.Is(UpdateFavoritesTask) ==> r.loading == Bool(false) && r.data == Merged(s, a) && r.error == s.error
  {
    DistinctTypes();
    if a.Is(GetFavoritesRequest) then Requested(s)
    else if a.Is(GetFavoritesSuccess) then Loaded(s, ResponseData(a)).(meta := Get(Response(a), "meta"))
    else if a.Is(AppendFavoritesSuccess) then Loaded(s, Appended(s, a)).(meta := Get(Response(a), "meta"))
    else if a.Is(GetFavoritesFailure) then Failed(s, a)
    else if a.Is(UpdateFavoritesTask) then Loaded(s, Merged(s, a))
    else s
  }

  /** An appended page follows the favourites already held, in order, and a replacing page does not. */
  lemma AppendConcatenates(s: Loose, a: Action)
    requires a.Is(AppendFavoritesSuccess)
    ensures Get(Reduce(s, a).data, "favorites") == Arr(ListOr(Get(s.data, "favorites")) + ListOr(Get(ResponseData(a), "favorites")))
    ensures |ListOr(Get(Reduce(s, a).data, "favorites"))| == |ListOr(Get(s.data, "favorites"))| + |ListOr(Get(ResponseData(a), "favorites"))|
  {
    DistinctTypes();
  }

  /** The replacing success keeps nothing of the previous list. */
  lemma ReplaceDiscards(s: Loose, a: Action)
    requires a.Is(GetFavoritesSuccess)
    ensures Reduce(s, a).data == ResponseData(a)
  {
    DistinctTypes();
  }

  /** The task action merges its payload over the data: payload keys win, the rest is kept. */
  lemma TaskMerges(s: Loose, favorites: Json, k: string)
    ensures var r := Reduce(s, UpdateFavoritesTaskAction(favorites));
      && (k in Fields(favorites) ==> Get(r.data, k) == Fields(favorites)[k])
      && (k !in Fields(favorites) ==> Get(r.data, k) == Get(s.data, k))
  {
    DistinctTypes();
  }

  /**
    A favourites request through the middleware ends not loading.  On success
    the meta is the response's; a replacing page is the response's `data`, an
    appended one adds its favourites after those already held; the error flag
    stays as it was.  On failure the flag is set and the list held when the
    request started (or `{}`) stays.
   */
  lemma LoadLifecycle(s: Loose, call: ApiCall, actionData: Json, outcome: Outcome)
    requires call.types == FavoritesTypes(false) || call.types == FavoritesTypes(true)
    requires call.verb == GET
    requires "type" !in Fields(actionData) && "response" !in Fields(actionData)
    ensures var r := Replay(Reduce, s, ApiMiddleware.Run(Call(call, actionData), outcome));
      && r.loading == Bool(false)
      && (outcome.Ok? ==> r.meta == Get(outcome.response, "meta") && r.error == s.error)
      && (outcome.Ok? && call.types.success == GetFavoritesSuccess ==> r.data == Get(outcome.response, "data"))
      && (outcome.Ok? && call.types.success == AppendFavoritesSuccess ==>
            Get(r.data, "favorites") == Arr(ListOr(Get(Or(s.data, EmptyObject), "favorites")) + ListOr(Get(Get(outcome.response, "data"), "favorites"))))
      && (outcome.Err? ==> r.error == Bool(true) && r.data == Or(s.data, EmptyObject) && r.meta == s.meta)
  {
    var emitted := ApiMiddleware.Run(Call(call, actionData), outcome);
    ReplayPair(Reduce, s, emitted[0], emitted[1]);
    assert emitted == [emitted[0], emitted[1]];
  }

  /** Every request the favourites builder makes runs the lifecycle above, appending exactly when asked to. */
  lemma FavoritesLifecycle(s: Loose, base: string, skip: Optional.Option<int>, limit: Optional.Option<int>,
                           append: Optional.Option<bool>, outcome: Outcome)
    ensures var r := Replay(Reduce, s, ApiMiddleware.Run(GetFavorites(base, skip, limit, append), outcome));
      && r.loading == Bool(false)
      && (outcome.Ok? ==> r.meta == Get(outcome.response, "meta") && r.error == s.error)
      && (outcome.Ok? && append != Optional.Some(true) ==> r.data == Get(outcome.response, "data"))
      && (outcome.Ok? && append == Optional.Some(true) ==>
            Get(r.data, "favorites") == Arr(ListOr(Get(Or(s.data, EmptyObject), "favorites")) + ListOr(Get(Get(outcome.response, "data"), "favorites"))))
      && (outcome.Err? ==> r.error == Bool(true) && r.data == Or(s.data, EmptyObject) && r.meta == s.meta)
  {
    var d := GetFavorites(base, skip, limit, append);
    assert d.Call? && d.call.verb == GET && d.call.types == FavoritesTypes(append.GetOr(false));
    assert d.actionData == ActionData("Fetch Favorites Failed", map[]);
    assert Fields(d.actionData).Keys == {"errorMessage"};
    LoadLifecycle(s, d.call, d.actionData, outcome);
  }

  lemma DistinctTypes()
    ensures GetFavoritesRequest != GetFavoritesSuccess && GetFavoritesRequest != AppendFavoritesSuccess
    ensures GetFavoritesRequest != GetFavoritesFailure && GetFavoritesSuccess != AppendFavoritesSuccess
    ensures GetFavoritesSuccess != GetFavoritesFailure && AppendFavoritesSuccess != GetFavoritesFailure
    ensures UpdateFavoritesTask != GetFavoritesRequest && UpdateFavoritesTask != GetFavoritesSuccess
    ensures UpdateFavoritesTask != AppendFavoritesSuccess && UpdateFavoritesTask != GetFavoritesFailure
  {
    assert GetFavoritesRequest[14] != GetFavoritesSuccess[14] && GetFavoritesRequest[14] != GetFavoritesFailure[14];
    assert GetFavoritesSuccess[14] != GetFavoritesFailure[14];
    assert AppendFavoritesSuccess[0] != GetFavoritesRequest[0];
    assert UpdateFavoritesTask[0] != GetFavoritesRequest[0] && UpdateFavoritesTask[0] != AppendFavoritesSuccess[0];
  }
}
