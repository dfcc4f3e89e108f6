/** The slice holding one book's reviews. */
module GetBookReviewsReducer {

  import opened Json
  import opened Redux
  import opened Slices
  import opened GetBookReviewsActions
  import ApiMiddleware
  import Optional

  datatype ReviewsData = ReviewsData(reviews: Json, pagination: Json)

  type ReviewsState = Slice<ReviewsData>

  const InitData: ReviewsData := ReviewsData(Arr([]), EmptyPagination(1, 10))

  const Init: ReviewsState := Slice(false, false, EmptyObject, InitData)

  predicate Handles(a: Action) {
    a.Is(GetBookReviewsTypes.request) || a.Is(GetBookReviewsTypes.success) || a.Is(GetBookReviewsTypes.failure)
  }

  /** `getBookReviewsReducer(state, action)` for a defined state. */
  function Reduce(s: ReviewsState, a: Action): (r: ReviewsState)
    ensures !Handles(a) ==> r == s
    ensures !a.Is(GetBookReviewsTypes.success) ==> r.data == s.data
    // a new request clears the previous error
    ensures a.Is(GetBookReviewsTypes.request) ==> r.loading && !r.error && r.errorDetails == EmptyObject
  {
    if a.Is(GetBookReviewsTypes.request) then
      s.(loading := true, error := false, errorDetails := EmptyObject)
    else if a.Is(GetBookReviewsTypes.success) then
      Slice(false, false, EmptyObject, ReviewsData(Get(ResponseData(a), "reviews"), Get(ResponseData(a), "pagination")))
    else if a.Is(GetBookReviewsTypes.failure) then
      s.(loading := false, error := true, errorDetails := ErrorDetails(a))
    else
      s
  }

  /**
    A reviews request through the middleware: on success the reviews and the
    pagination are the response's, with no defaults; on failure the previous
    reviews stay and the error is recorded.
   */
  lemma LoadLifecycle(s: ReviewsState, call: ApiCall, actionData: Json, outcome: Outcome)
    requires call.types == GetBookReviewsTypes && call.verb == GET
    requires "type" !in Fields(actionData) && "response" !in Fields(actionData)
    ensures var r := Replay(Reduce, s, ApiMiddleware.Run(Call(call, actionData), outcome));
      && !r.loading
      && (r.error <==> outcome.Err?)
      && (outcome.Ok? ==> r.data == ReviewsData(Get(Get(outcome.response, "data"), "reviews"), Get(Get(outcome.response, "data"), "pagination")))
      && (outcome.Err? ==> r.data == s.data)
  {
    var emitted := ApiMiddleware.Run(Call(call, actionData), outcome);
    DistinctTypes();
    ReplayPair(Reduce, s, emitted[0], emitted[1]);
    assert emitted == [emitted[0], emitted[1]];
  }

  /** Every request the reviews builder makes runs the lifecycle above. */
  lemma GetBookReviewsLifecycle(s: ReviewsState, base: string, bookId: string, skip: Optional.Option<int>, limit: Optional.Option<int>, outcome: Outcome)
    ensures var r := Replay(Reduce, s, ApiMiddleware.Run(GetBookReviews(base, bookId, skip, limit), outcome));
      && !r.loading
      && (r.error <==> outcome.Err?)
      && (outcome.Ok? ==> r.data == ReviewsData(Get(Get(outcome.response, "data"), "reviews"), Get(Get(outcome.response, "data"), "pagination")))
      && (outcome.Err? ==> r.data == s.data)
  {
    var d := GetBookReviews(base, bookId, skip, limit);
    assert Fields(d.actionData).Keys == {"errorMessage"};
    LoadLifecycle(s, d.call, d.actionData, outcome);
  }

  lemma DistinctTypes()
    ensures GetBookReviewsTypes.request != GetBookReviewsTypes.success && GetBookReviewsTypes.request != GetBookReviewsTypes.failure
    ensures GetBookReviewsTypes.success != GetBookReviewsTypes.failure
  {
    assert GetBookReviewsTypes.request[17] != GetBookReviewsTypes.success[17];
    assert GetBookReviewsTypes.request[17] != GetBookReviewsTypes.failure[17];
    assert GetBookReviewsTypes.success[17] != GetBookReviewsTypes.failure[17];
  }
}
