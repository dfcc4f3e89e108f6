/**
  The create-, update- and delete-review slices.  The three reducers are the
  same function of their action types: `data` starts as null, keeps its value
  while a request is in flight, becomes the response's `data` on success and
  null again on failure.
 */
module ReviewReducers {

  import opened Json
  import opened Redux
  import opened Slices
  import CreateReviewActions
  import UpdateReviewActions
  import DeleteReviewActions
  import ApiMiddleware

  type MutationState = Slice<Json>

  const Init: MutationState := Slice(false, false, EmptyObject, Null)

  /**
    What one action does to a review-mutation slice with types `t`: REQUEST
    starts loading and clears the error while keeping the data, SUCCESS holds
    the response's `data` with no error, FAILURE holds null with the error
    and its details, and any other action changes nothing.
   */
  predicate MutationStep(t: Types, s: MutationState, a: Action, r: MutationState) {
    && (a.Is(t.request) ==> r.loading && !r.error && r.errorDetails == EmptyObject && r.data == s.data)
    && (a.Is(t.success) ==> !r.loading && !r.error && r.errorDetails == EmptyObject && r.data == ResponseData(a))
    && (a.Is(t.failure) ==> !r.loading && r.error && r.errorDetails == ErrorDetails(a) && r.data == Null)
    && (!a.Is(t.request) && !a.Is(t.success) && !a.Is(t.failure) ==> r == s)
  }

  /** The reducer of a review mutation with action types `t`. */
  function Mutation(t: Types, s: MutationState, a: Action): (r: MutationState)
    ensures Distinct(t) ==> MutationStep(t, s, a, r)
    ensures !a.Is(t.request) && !a.Is(t.success) && !a.Is(t.failure) ==> r == s
    // the data is the last server answer, and only while no failure has followed it
    ensures r.data == s.data || r.data == ResponseData(a) || r.data == Null
    ensures (s.error ==> s.data == Null) ==> (r.error ==> r.data == Null)
    ensures s.error && !a.Is(t.request) && !a.Is(t.success) ==> r.error
  {
    if a.Is(t.request) then
      s.(loading := true, error := false, errorDetails := EmptyObject)
    else if a.Is(t.success) then
      Slice(false, false, EmptyObject, ResponseData(a))
    else if a.Is(t.failure) then
      Slice(false, true, ErrorDetails(a), Null)
    else
      s
  }

  /** `createReviewReducer` */
  function CreateReview(s: MutationState, a: Action): (r: MutationState)
    ensures MutationStep(CreateReviewActions.CreateReviewTypes, s, a, r)
  {
    var t := CreateReviewActions.CreateReviewTypes;
    assert t.request[14] != t.success[14] && t.request[14] != t.failure[14] && t.success[14] != t.failure[14];
    Mutation(t, s, a)
  }

  /** `updateReviewReducer` */
  function UpdateReview(s: MutationState, a: Action): (r: MutationState)
    ensures MutationStep(UpdateReviewActions.UpdateReviewTypes, s, a, r)
  {
    var t := UpdateReviewActions.UpdateReviewTypes;
    assert t.request[14] != t.success[14] && t.request[14] != t.failure[14] && t.success[14] != t.failure[14];
    Mutation(t, s, a)
  }

  /** `deleteReviewReducer` */
  function DeleteReview(s: MutationState, a: Action): (r: MutationState)
    ensures MutationStep(DeleteReviewActions.DeleteReviewTypes, s, a, r)
  {
    var t := DeleteReviewActions.DeleteReviewTypes;
    assert t.request[14] != t.success[14] && t.request[14] != t.failure[14] && t.success[14] != t.failure[14];
    Mutation(t, s, a)
  }

  /**
    A mutation through the middleware, for any reducer that behaves as the
    mutation reducer of `t`: on success the slice holds the response's
    `data`, on failure null and the error.
   */
  lemma {:induction false} MutationLifecycle(t: Types, reducer: (MutationState, Action) -> MutationState,
                                             s: MutationState, call: ApiCall, actionData: Json, outcome: Outcome)
    requires Distinct(t) && call.types == t
    requires forall s', a :: reducer(s', a) == Mutation(t, s', a)
    requires "type" !in Fields(actionData) && "response" !in Fields(actionData)
    ensures var r := Replay(reducer, s, ApiMiddleware.Run(Call(call, actionData), outcome));
      && !r.loading
      && (r.error <==> !ApiMiddleware.Succeeds(call, outcome))
      && (ApiMiddleware.Succeeds(call, outcome) ==> r.data == Get(outcome.response, "data"))
      && (!ApiMiddleware.Succeeds(call, outcome) ==> r.data == Null)
  {
    var emitted := ApiMiddleware.Run(Call(call, actionData), outcome);
    ReplayPair(reducer, s, emitted[0], emitted[1]);
    assert emitted == [emitted[0], emitted[1]];
  }

  /** Updating a review leaves the server's updated review in the slice, or null when the update failed. */
  lemma UpdateReviewLifecycle(s: MutationState, reviewId: string, rating: int, text: string, outcome: Outcome)
    ensures var r := Replay(UpdateReview, s, ApiMiddleware.Run(UpdateReviewActions.UpdateReview(reviewId, rating, text), outcome));
      (r.error <==> outcome.Err?) && (outcome.Ok? ==> r.data == Get(outcome.response, "data")) && (outcome.Err? ==> r.data == Null)
  {
    var d := UpdateReviewActions.UpdateReview(reviewId, rating, text);
    var t := UpdateReviewActions.UpdateReviewTypes;
    assert Fields(d.actionData).Keys == {"errorMessage"};
    assert t.request[14] != t.success[14] && t.request[14] != t.failure[14] && t.success[14] != t.failure[14];
    MutationLifecycle(t, UpdateReview, s, d.call, d.actionData, outcome);
  }

  /** Creating a review leaves the server's new review in the slice, or null when the creation failed. */
  lemma CreateReviewLifecycle(s: MutationState, bookId: string, rating: int, text: string, outcome: Outcome)
    ensures var r := Replay(CreateReview, s, ApiMiddleware.Run(CreateReviewActions.CreateReview(bookId, rating, text), outcome));
      (r.error <==> outcome.Err?) && (outcome.Ok? ==> r.data == Get(outcome.response, "data")) && (outcome.Err? ==> r.data == Null)
  {
    var d := CreateReviewActions.CreateReview(bookId, rating, text);
    var t := CreateReviewActions.CreateReviewTypes;
    assert Fields(d.actionData).Keys == {"errorMessage"};
    assert t.request[14] != t.success[14] && t.request[14] != t.failure[14] && t.success[14] != t.failure[14];
    MutationLifecycle(t, CreateReview, s, d.call, d.actionData, outcome);
  }

  /** Deleting a review leaves the server's answer in the slice, or null when the deletion failed. */
  lemma DeleteReviewLifecycle(s: MutationState, reviewId: string, outcome: Outcome)
    ensures var r := Replay(DeleteReview, s, ApiMiddleware.Run(DeleteReviewActions.DeleteReview(reviewId), outcome));
      (r.error <==> outcome.Err?) && (outcome.Ok? ==> r.data == Get(outcome.response, "data")) && (outcome.Err? ==> r.data == Null)
  {
    var d := DeleteReviewActions.DeleteReview(reviewId);
    var t := DeleteReviewActions.DeleteReviewTypes;
    assert Fields(d.actionData).Keys == {"errorMessage"};
    assert t.request[14] != t.success[14] && t.request[14] != t.failure[14] && t.success[14] != t.failure[14];
    MutationLifecycle(t, DeleteReview, s, d.call, d.actionData, outcome);
  }
}
