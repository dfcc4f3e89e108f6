/**
  The slices that start as `{}` and follow one request lifecycle: a user's
  reviews, the profile update, removing and adding a favourite, and the open
  book.  None of them clears its error flag once a failure has set it.
 */
module LooseReducers {

  import opened Json
  import opened Redux
  import opened Slices
  import GetUserReviewsActions
  import UpdateUserProfileActions
  import RemoveFavoriteActions
  import AddFavoriteActions
  import GetBookActions
  import CheckFavoriteActions
  import ApiMiddleware
  import Optional

  /**
    What one action does to a loose slice whose lifecycle types are `t`:
    REQUEST marks it loading and makes sure it has data, SUCCESS stores
    `loaded` and ends the loading, FAILURE records the error and keeps the
    data; none of them touches what the others do not name, and any other
    action leaves the slice as it is.
   */
  predicate LifecycleStep(t: Types, s: Loose, a: Action, r: Loose, loaded: Json) {
    && (a.Is(t.request) ==>
          r.loading == Bool(true) && r.data == Or(s.data, EmptyObject)
          && r.error == s.error && r.errorDetails == s.errorDetails && r.meta == s.meta)
    && (a.Is(t.success) ==>
          r.loading == Bool(false) && r.data == loaded
          && r.error == s.error && r.errorDetails == s.errorDetails && r.meta == s.meta)
    && (a.Is(t.failure) ==>
          r.loading == Bool(false) && r.error == Bool(true) && r.errorDetails == ErrorDetails(a)
          && r.data == s.data && r.meta == s.meta)
    && (!a.Is(t.request) && !a.Is(t.success) && !a.Is(t.failure) ==> r == s)
  }

  /** The shared lifecycle with action types `t`; SUCCESS stores `loaded`. */
  function Lifecycle(t: Types, s: Loose, a: Action, loaded: Json): (r: Loose)
    ensures Distinct(t) ==> LifecycleStep(t, s, a, r, loaded)
    ensures KeepsError(s, r) && r.meta == s.meta
  {
    if a.Is(t.request) then Requested(s)
    else if a.Is(t.success) then Loaded(s, loaded)
    else if a.Is(t.failure) then Failed(s, a)
    else s
  }

  /** `getUserReviewsReducer`: SUCCESS stores `response.data`. */
  function GetUserReviews(s: Loose, a: Action): (r: Loose)
    ensures LifecycleStep(GetUserReviewsActions.GetUserReviewsTypes, s, a, r, ResponseData(a))
    ensures KeepsError(s, r)
  {
    var t := GetUserReviewsActions.GetUserReviewsTypes;
    assert t.request[17] != t.success[17] && t.request[17] != t.failure[17] && t.success[17] != t.failure[17];
    Lifecycle(t, s, a, ResponseData(a))
  }

  /** `updateUserProfileReducer`: SUCCESS stores `response.data`. */
  function UpdateUserProfile(s: Loose, a: Action): (r: Loose)
    ensures LifecycleStep(UpdateUserProfileActions.UpdateUserProfileTypes, s, a, r, ResponseData(a))
    ensures KeepsError(s, r)
  {
    var t := UpdateUserProfileActions.UpdateUserProfileTypes;
    assert t.request[20] != t.success[20] && t.request[20] != t.failure[20] && t.success[20] != t.failure[20];
    Lifecycle(t, s, a, ResponseData(a))
  }

  /** `removeFavoriteReducer`: SUCCESS stores `response.data`. */
  function RemoveFavorite(s: Loose, a: Action): (r: Loose)
    ensures LifecycleStep(RemoveFavoriteActions.RemoveFavoriteTypes, s, a, r, ResponseData(a))
    ensures KeepsError(s, r)
  {
    var t := RemoveFavoriteActions.RemoveFavoriteTypes;
    assert t.request[16] != t.success[16] && t.request[16] != t.failure[16] && t.success[16] != t.failure[16];
    Lifecycle(t, s, a, ResponseData(a))
  }

  /** `getBookReducer`: SUCCESS stores the book, `response.data.book`, not the whole response data. */
  function GetBook(s: Loose, a: Action): (r: Loose)
    ensures LifecycleStep(GetBookActions.GetBookTypes, s, a, r, Get(ResponseData(a), "book"))
    ensures KeepsError(s, r)
  {
    var t := GetBookActions.GetBookTypes;
    assert t.request[9] != t.success[9] && t.request[9] != t.failure[9] && t.success[9] != t.failure[9];
    Lifecycle(t, s, a, Get(ResponseData(a), "book"))
  }

  /**
    `addFavoriteReducer`: the lifecycle with SUCCESS storing `response.data`,
    plus the optimistic update that stores its payload as data.
   */
  function AddFavorite(s: Loose, a: Action): (r: Loose)
    ensures !a.Is(AddFavoriteActions.UpdateFavoriteOptimistic) ==>
      LifecycleStep(AddFavoriteActions.AddFavoriteTypes, s, a, r, ResponseData(a))
    ensures a.Is(AddFavoriteActions.UpdateFavoriteOptimistic) ==>
      r == s.(loading := Bool(false), data := Response(a))
    ensures KeepsError(s, r)
  {
    var t := AddFavoriteActions.AddFavoriteTypes;
    assert t.request[13] != t.success[13] && t.request[13] != t.failure[13] && t.success[13] != t.failure[13];
    assert AddFavoriteActions.UpdateFavoriteOptimistic[0] != t.request[0];
    if a.Is(t.request) || a.Is(t.success) || a.Is(t.failure) then Lifecycle(t, s, a, ResponseData(a))
    else if a.Is(AddFavoriteActions.UpdateFavoriteOptimistic) then Loaded(s, Response(a))
    else s
  }

  /**
    One request through the middleware on a loose slice: success stores what
    the reducer loads and leaves the error flag as it was; failure sets it and
    keeps the data the request made sure of.
   */
  lemma {:induction false} LifecycleRun(t: Types, reducer: (Loose, Action) -> Loose, loaded: Action -> Json,
                                        s: Loose, call: ApiCall, actionData: Json, outcome: Outcome)
    requires Distinct(t) && call.types == t
    requires forall s', a :: LifecycleStep(t, s', a, reducer(s', a), loaded(a))
    requires "type" !in Fields(actionData)
    ensures var emitted := ApiMiddleware.Run(Call(call, actionData), outcome);
      var r := Replay(reducer, s, emitted);
      && r.loading == Bool(false)
      && (ApiMiddleware.Succeeds(call, outcome) ==> r.data == loaded(emitted[1]) && r.error == s.error)
      && (!ApiMiddleware.Succeeds(call, outcome) ==> r.data == Or(s.data, EmptyObject) && r.error == Bool(true))
  {
    var emitted := ApiMiddleware.Run(Call(call, actionData), outcome);
    var s1 := reducer(s, emitted[0]);
    assert LifecycleStep(t, s, emitted[0], s1, loaded(emitted[0]));
    assert LifecycleStep(t, s1, emitted[1], reducer(s1, emitted[1]), loaded(emitted[1]));
    ReplayPair(reducer, s, emitted[0], emitted[1]);
    assert emitted == [emitted[0], emitted[1]];
  }

  /**
    Fetching a user's reviews after a failure: even a successful refetch
    leaves the slice's error flag set.
   */
  lemma UserReviewsErrorSticks(s: Loose, base: string, userId: string, skip: Optional.Option<int>, limit: Optional.Option<int>, response: Json)
    requires Truthy(s.error)
    ensures var r := Replay(GetUserReviews, s, ApiMiddleware.Run(GetUserReviewsActions.GetUserReviews(base, userId, skip, limit), Ok(response)));
      Truthy(r.error) && r.data == Get(response, "data")
  {
    var d := GetUserReviewsActions.GetUserReviews(base, userId, skip, limit);
    var t := GetUserReviewsActions.GetUserReviewsTypes;
    assert Fields(d.actionData).Keys == {"errorMessage"};
    assert Distinct(t) by {
      assert t.request[17] != t.success[17] && t.request[17] != t.failure[17] && t.success[17] != t.failure[17];
    }
    assert forall s', a :: LifecycleStep(t, s', a, GetUserReviews(s', a), ResponseData(a));
    LifecycleRun(t, GetUserReviews, ResponseData, s, d.call, d.actionData, Ok(response));
  }

  /**
    Opening a book through the middleware: success stores the response's
    `data.book`, failure sets the error flag and keeps the slice's data
    (`{}` when it had none).
   */
  lemma GetBookRun(s: Loose, base: string, bookId: string, outcome: Outcome)
    ensures var r := Replay(GetBook, s, ApiMiddleware.Run(GetBookActions.GetBook(base, bookId), outcome));
      && r.loading == Bool(false)
      && (outcome.Ok? ==> r.data == Get(Get(outcome.response, "data"), "book") && r.error == s.error)
      && (outcome.Err? ==> r.data == Or(s.data, EmptyObject) && r.error == Bool(true))
  {
    var d := GetBookActions.GetBook(base, bookId);
    var t := GetBookActions.GetBookTypes;
    assert Fields(d.actionData).Keys == {"errorMessage"};
    assert t.request[9] != t.success[9] && t.request[9] != t.failure[9] && t.success[9] != t.failure[9];
    var loaded := (a: Action) => Get(ResponseData(a), "book");
    LifecycleRun(t, GetBook, loaded, s, d.call, d.actionData, outcome);
  }

  /** The optimistic update stores the flag payload as the slice's data. */
  lemma OptimisticStoresFlag(s: Loose, bookId: string, isFavorite: bool)
    ensures AddFavorite(s, AddFavoriteActions.UpdateFavoriteOptimisticAction(bookId, isFavorite)).data
      == CheckFavoriteActions.FavoriteFlag(bookId, isFavorite)
  {
    var t := AddFavoriteActions.AddFavoriteTypes;
    assert AddFavoriteActions.UpdateFavoriteOptimistic[0] != t.request[0];
  }
}
