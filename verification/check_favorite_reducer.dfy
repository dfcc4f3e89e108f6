/** The favourite-status slice: one flag per book id, and the last check's data. */
module CheckFavoriteReducer {

  import opened Json
  import opened Redux
  import opened Slices
  import opened CheckFavoriteActions
  import ApiMiddleware

  /** The loose part of the slice, and the statuses keyed by the rendered book id. */
  datatype StatusState = StatusState(slice: Loose, statuses: map<string, Json>)

  const Init: StatusState := StatusState(LooseInit, map[])

  predicate Handles(a: Action) {
    a.Is(CheckFavoriteTypes.request) || a.Is(CheckFavoriteTypes.success) || a.Is(CheckFavoriteTypes.failure)
    || a.Is(UpdateFavoriteStatus) || a.Is(ClearFavoriteStatus)
  }

  /** `{ ...statuses, [key]: flag }`: a computed key is the string form of its value. */
  function SetStatus(statuses: map<string, Json>, key: Json, flag: Json): (r: map<string, Json>)
    ensures ToStr(key) in r && r[ToStr(key)] == flag
    ensures forall k :: k in statuses && k != ToStr(key) ==> k in r && r[k] == statuses[k]
    ensures r.Keys == statuses.Keys + {ToStr(key)}
  {
    statuses[ToStr(key) := flag]
  }

  /** `checkFavoriteReducer(state, action)` for a defined state. */
  function Reduce(s: StatusState, a: Action): (r: StatusState)
    ensures !Handles(a) ==> r == s
    ensures KeepsError(s.slice, r.slice)
    ensures a.Is(ClearFavoriteStatus) ==> r.statuses == map[]
    // a failed check leaves every status as it was
    ensures a.Is(CheckFavoriteTypes.failure) ==> r.statuses == s.statuses
    ensures a.Is(CheckFavoriteTypes.failure) ==>
      r.slice.loading == Bool(false) && r.slice.error == Bool(true) && r.slice.errorDetails == ErrorDetails(a) && r.slice.data == s.slice.data
    // a request shows loading over the data already held, or an empty object, and keeps every status
    ensures a.Is(CheckFavoriteTypes.request) ==>
      r.statuses == s.statuses && r.slice.loading == Bool(true) && r.slice.data == Or(s.slice.data, EmptyObject)
      && r.slice.error == s.slice.error && r.slice.errorDetails == s.slice.errorDetails
    // a success stores the response's data and its flag under the book id read from `actionData`
    ensures a.Is(CheckFavoriteTypes.success) ==>
      r.slice.loading == Bool(false) && r.slice.data == ResponseData(a) && r.slice.error == s.slice.error
      && r.statuses == SetStatus(s.statuses, Get(a.Field("actionData"), "bookId"), Get(ResponseData(a), "isFavorite"))
  {
    DistinctTypes();
    if a.Is(CheckFavoriteTypes.request) then
      s.(slice := Requested(s.slice))
    else if a.Is(CheckFavoriteTypes.success) then
      var bookId := Get(a.Field("actionData"), "bookId");
      var isFavorite := Get(ResponseData(a), "isFavorite");
      StatusState(Loaded(s.slice, ResponseData(a)), SetStatus(s.statuses, bookId, isFavorite))
    else if a.Is(CheckFavoriteTypes.failure) then
      s.(slice := Failed(s.slice, a))
    else if a.Is(UpdateFavoriteStatus) then
      StatusState(s.slice.(loading := Bool(false)), SetStatus(s.statuses, Get(Response(a), "bookId"), Get(Response(a), "isFavorite")))
    else if a.Is(ClearFavoriteStatus) then
      StatusState(s.slice.(loading := Bool(false)), map[])
    else
      s
  }

  /** A status update sets the flag of its book and no other. */
  lemma UpdateStatusFrame(s: StatusState, bookId: string, isFavorite: bool)
    ensures var r := Reduce(s, UpdateFavoriteStatusAction(bookId, isFavorite));
      && bookId in r.statuses && r.statuses[bookId] == Bool(isFavorite)
      && (forall k :: k in s.statuses && k != bookId ==> k in r.statuses && r.statuses[k] == s.statuses[k])
      && r.statuses.Keys == s.statuses.Keys + {bookId}
      && r.slice.error == s.slice.error
  {
    DistinctTypes();
  }

  /** Applying the same status update twice is applying it once. */
  lemma UpdateStatusIdempotent(s: StatusState, bookId: string, isFavorite: bool)
    ensures var a := UpdateFavoriteStatusAction(bookId, isFavorite);
      Reduce(Reduce(s, a), a) == Reduce(s, a)
  {
    DistinctTypes();
  }

  /**
    The status check's SUCCESS action carries the book id at its top level,
    where the middleware spread the descriptor's actionData, but the reducer
    reads it from an `actionData` field the action does not have; the flag is
    therefore stored under the key "undefined", whatever the book.
   */
  lemma CheckStoresUnderUndefined(s: StatusState, base: string, bookId: string, response: Json)
    ensures var r := Replay(Reduce, s, ApiMiddleware.Run(CheckFavorite(base, bookId), Ok(response)));
      r.statuses == s.statuses["undefined" := Get(Get(response, "data"), "isFavorite")]
  {
    var d := CheckFavorite(base, bookId);
    assert Fields(d.actionData).Keys == {"errorMessage", "bookId"};
    CheckRun(s, d.call, d.actionData, response);
  }

  lemma CheckRun(s: StatusState, call: ApiCall, actionData: Json, response: Json)
    requires call.types == CheckFavoriteTypes && call.verb == GET
    requires Fields(actionData).Keys == {"errorMessage", "bookId"}
    ensures var r := Replay(Reduce, s, ApiMiddleware.Run(Call(call, actionData), Ok(response)));
      r.statuses == s.statuses["undefined" := Get(Get(response, "data"), "isFavorite")]
  {
    var emitted := ApiMiddleware.Run(Call(call, actionData), Ok(response));
    DistinctTypes();
    assert "actionData" !in emitted[1].fields.Keys by {
      assert "actionData"[0] != "type"[0] && "actionData"[0] != "response"[0];
      assert "actionData"[0] != "errorMessage"[0] && "actionData"[0] != "bookId"[0];
    }
    assert "type" !in Fields(actionData) && "response" !in Fields(actionData);
    ReplayPair(Reduce, s, emitted[0], emitted[1]);
    assert emitted == [emitted[0], emitted[1]];
    assert ToStr(Undefined) == "undefined";
  }

  lemma DistinctTypes()
    ensures CheckFavoriteTypes.request != CheckFavoriteTypes.success && CheckFavoriteTypes.request != CheckFavoriteTypes.failure
    ensures CheckFavoriteTypes.success != CheckFavoriteTypes.failure
    ensures UpdateFavoriteStatus != CheckFavoriteTypes.request && UpdateFavoriteStatus != CheckFavoriteTypes.success
    ensures UpdateFavoriteStatus != CheckFavoriteTypes.failure && UpdateFavoriteStatus != ClearFavoriteStatus
    ensures ClearFavoriteStatus != CheckFavoriteTypes.request && ClearFavoriteStatus != CheckFavoriteTypes.success
    ensures ClearFavoriteStatus != CheckFavoriteTypes.failure
  {
    assert CheckFavoriteTypes.request[15] != CheckFavoriteTypes.success[15];
    assert CheckFavoriteTypes.request[15] != CheckFavoriteTypes.failure[15];
    assert CheckFavoriteTypes.success[15] != CheckFavoriteTypes.failure[15];
    assert UpdateFavoriteStatus[0] != CheckFavoriteTypes.request[0] && UpdateFavoriteStatus[0] != ClearFavoriteStatus[0];
    assert ClearFavoriteStatus[1] != CheckFavoriteTypes.request[1];
  }
}
