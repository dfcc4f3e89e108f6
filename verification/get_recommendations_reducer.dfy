/** The recommendations slice. */
module GetRecommendationsReducer {

  import opened Json
  import opened Redux
  import opened Slices
  import opened GetRecommendationsActions
  import ApiMiddleware

  datatype RecommendationsData = RecommendationsData(recommendations: Json, source: Json)

  type RecommendationsState = Slice<RecommendationsData>

  const InitData: RecommendationsData := RecommendationsData(Arr([]), Null)

  const Init: RecommendationsState := Slice(false, false, EmptyObject, InitData)

  predicate Handles(a: Action) {
    a.Is(GetRecommendationsTypes.request) || a.Is(GetRecommendationsTypes.success)
    || a.Is(GetRecommendationsTypes.failure) || a.Is(ClearRecommendations)
  }

  /** `getRecommendationsReducer(state, action)` for a defined state. */
  function Reduce(s: RecommendationsState, a: Action): (r: RecommendationsState)
    ensures !Handles(a) ==> r == s
    ensures a.Is(ClearRecommendations) ==> r == Init
    // a failure drops whatever was shown before
    ensures a.Is(GetRecommendationsTypes.failure) ==> r.data == InitData && r.error
    // a request keeps what is shown while it loads, and clears the error
    ensures a.Is(GetRecommendationsTypes.request) ==>
      r.loading && !r.error && r.errorDetails == EmptyObject && r.data == s.data
    // a success holds the server's list and is labelled with the source the server named, AI when it named none
    ensures a.Is(GetRecommendationsTypes.success) ==>
      !r.loading && !r.error && r.errorDetails == EmptyObject
      && r.data.recommendations == Or(Get(ResponseData(a), "recommendations"), Arr([]))
      && r.data.source == Or(Get(ResponseData(a), "source"), Str("ai")) && Truthy(r.data.source)
  {
    DistinctTypes();
    if a.Is(GetRecommendationsTypes.request) then
      s.(loading := true, error := false, errorDetails := EmptyObject)
    else if a.Is(GetRecommendationsTypes.success) then
      Slice(false, false, EmptyObject, RecommendationsData(
        Or(Get(ResponseData(a), "recommendations"), Arr([])),
        Or(Get(ResponseData(a), "source"), Str("ai"))))
    else if a.Is(GetRecommendationsTypes.failure) then
      Slice(false, true, ErrorDetails(a), InitData)
    else if a.Is(ClearRecommendations) then
      Slice(false, false, EmptyObject, InitData)
    else
      s
  }

  /** Clearing twice is clearing once, and clearing returns the slice to its initial value. */
  lemma ClearIdempotent(s: RecommendationsState)
    ensures Reduce(Reduce(s, ClearRecommendationsAction()), ClearRecommendationsAction()) == Reduce(s, ClearRecommendationsAction()) == Init
  {
  }

  /**
    A recommendations request through the middleware ends with the server's
    list on success and with an empty list on failure: stale recommendations
    never survive a failed refresh.
   */
  lemma LoadLifecycle(s: RecommendationsState, base: string, outcome: Outcome)
    ensures var r := Replay(Reduce, s, ApiMiddleware.Run(GetRecommendations(base), outcome));
      && !r.loading
      && (r.error <==> outcome.Err?)
      && (outcome.Ok? ==> r.data.recommendations == Or(Get(Get(outcome.response, "data"), "recommendations"), Arr([])))
      && (outcome.Err? ==> r.data == InitData)
  {
    var d := GetRecommendations(base);
    assert Fields(d.actionData).Keys == {"errorMessage"};
    Lifecycle(s, d.call, d.actionData, outcome);
  }

  lemma Lifecycle(s: RecommendationsState, call: ApiCall, actionData: Json, outcome: Outcome)
    requires call.types == GetRecommendationsTypes && call.verb == GET
    requires "type" !in Fields(actionData) && "response" !in Fields(actionData)
    ensures var r := Replay(Reduce, s, ApiMiddleware.Run(Call(call, actionData), outcome));
      && !r.loading
      && (r.error <==> outcome.Err?)
      && (outcome.Ok? ==> r.data.recommendations == Or(Get(Get(outcome.response, "data"), "recommendations"), Arr([])))
      && (outcome.Err? ==> r.data == InitData)
  {
    var emitted := ApiMiddleware.Run(Call(call, actionData), outcome);
    DistinctTypes();
    ReplayPair(Reduce, s, emitted[0], emitted[1]);
    assert emitted == [emitted[0], emitted[1]];
  }

  lemma DistinctTypes()
    ensures GetRecommendationsTypes.request != GetRecommendationsTypes.success
    ensures GetRecommendationsTypes.request != GetRecommendationsTypes.failure
    ensures GetRecommendationsTypes.success != GetRecommendationsTypes.failure
  {
    assert GetRecommendationsTypes.request[20] != GetRecommendationsTypes.success[20];
    assert GetRecommendationsTypes.request[20] != GetRecommendationsTypes.failure[20];
    assert GetRecommendationsTypes.success[20] != GetRecommendationsTypes.failure[20];
  }
}
