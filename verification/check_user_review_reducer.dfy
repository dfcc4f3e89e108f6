/** The slice that says whether the signed-in user has reviewed the open book. */
module CheckUserReviewReducer {

  import opened Json
  import opened Redux
  import opened Slices
  import opened CheckUserReviewActions
  import ApiMiddleware

  datatype UserReviewData = UserReviewData(hasReviewed: Json, review: Json)

  type UserReviewState = Slice<UserReviewData>

  const NotReviewed: UserReviewData := UserReviewData(Bool(false), Null)

  const Init: UserReviewState := Slice(false, false, EmptyObject, NotReviewed)

  predicate Handles(a: Action) {
    a.Is(CheckUserReviewTypes.request) || a.Is(CheckUserReviewTypes.success) || a.Is(CheckUserReviewTypes.failure)
  }

  /** `checkUserReviewReducer(state, action)` for a defined state. */
  function Reduce(s: UserReviewState, a: Action): (r: UserReviewState)
    ensures !Handles(a) ==> r == s
    // a failed check reads as "not reviewed"
    ensures a.Is(CheckUserReviewTypes.failure) ==> r.data == NotReviewed && r.error
    // the review is never undefined after a completed check: a missing one is null
    ensures a.Is(CheckUserReviewTypes.success) ==> r.data.review != Undefined && !r.error
    // a request keeps the previous answer while it loads
    ensures a.Is(CheckUserReviewTypes.request) ==> r.loading && !r.error && r.errorDetails == EmptyObject && r.data == s.data
    // a success copies the server's flag and its review, null when there is none
    ensures a.Is(CheckUserReviewTypes.success) ==>
      !r.loading && r.errorDetails == EmptyObject
      && r.data == UserReviewData(Get(ResponseData(a), "hasReviewed"), Or(Get(ResponseData(a), "review"), Null))
  {
    DistinctTypes();
    if a.Is(CheckUserReviewTypes.request) then
      s.(loading := true, error := false, errorDetails := EmptyObject)
    else if a.Is(CheckUserReviewTypes.success) then
      Slice(false, false, EmptyObject, UserReviewData(Get(ResponseData(a), "hasReviewed"), Or(Get(ResponseData(a), "review"), Null)))
    else if a.Is(CheckUserReviewTypes.failure) then
      Slice(false, true, ErrorDetails(a), NotReviewed)
    else
      s
  }

  /**
    A check through the middleware: on success the flag and the review are
    the server's; on failure the book reads as not reviewed.
   */
  lemma CheckLifecycle(s: UserReviewState, base: string, bookId: string, outcome: Outcome)
    ensures var r := Replay(Reduce, s, ApiMiddleware.Run(CheckUserReview(base, bookId), outcome));
      && !r.loading
      && (r.error <==> outcome.Err?)
      && (outcome.Ok? ==> r.data.hasReviewed == Get(Get(outcome.response, "data"), "hasReviewed"))
      && (outcome.Ok? ==> r.data.review == Or(Get(Get(outcome.response, "data"), "review"), Null))
      && (outcome.Err? ==> r.data == NotReviewed)
  {
    var d := CheckUserReview(base, bookId);
    assert Fields(d.actionData).Keys == {"errorMessage"};
    Lifecycle(s, d.call, d.actionData, outcome);
  }

  lemma Lifecycle(s: UserReviewState, call: ApiCall, actionData: Json, outcome: Outcome)
    requires call.types == CheckUserReviewTypes && call.verb == GET
    requires "type" !in Fields(actionData) && "response" !in Fields(actionData)
    ensures var r := Replay(Reduce, s, ApiMiddleware.Run(Call(call, actionData), outcome));
      && !r.loading
      && (r.error <==> outcome.Err?)
      && (outcome.Ok? ==> r.data.hasReviewed == Get(Get(outcome.response, "data"), "hasReviewed"))
      && (outcome.Ok? ==> r.data.review == Or(Get(Get(outcome.response, "data"), "review"), Null))
      && (outcome.Err? ==> r.data == NotReviewed)
  {
    var emitted := ApiMiddleware.Run(Call(call, actionData), outcome);
    DistinctTypes();
    ReplayPair(Reduce, s, emitted[0], emitted[1]);
    assert emitted == [emitted[0], emitted[1]];
  }

  lemma DistinctTypes()
    ensures CheckUserReviewTypes.request != CheckUserReviewTypes.success
    ensures CheckUserReviewTypes.request != CheckUserReviewTypes.failure
    ensures CheckUserReviewTypes.success != CheckUserReviewTypes.failure
  {
    assert CheckUserReviewTypes.request[18] != CheckUserReviewTypes.success[18];
    assert CheckUserReviewTypes.request[18] != CheckUserReviewTypes.failure[18];
    assert CheckUserReviewTypes.success[18] != CheckUserReviewTypes.failure[18];
  }
}
