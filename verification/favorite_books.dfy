/**
  The favourites section of the profile page: the list and its total as
  read from the favourites slice, the Load More control, and removing a
  book with an optimistic status update that is rolled back on failure.
  How the removal request ends is an input.
 */
module FavoriteBooks {

  import opened Json
  import opened Optional
  import opened Redux
  import opened Slices
  import opened FieldRules
  import opened SkipPaging
  import ApiMiddleware
  import JsNumber
  import GetFavoritesActions
  import RemoveFavoriteActions
  import CheckFavoriteActions
  import CheckFavoriteReducer

  const PageSize: int := 20
  const InitialSkip: int := 0
  const RemoveFailed: string := "Failed to remove from favorites"

  /** `favoritesState.data?.favorites || []`, for a list or nothing. */
  function Favorites(slice: Loose): seq<Json> {
    ListOr(Get(slice.data, "favorites"))
  }

  /**
    The total shown in the heading: the meta pagination's `totalItems`, else
    the data's pagination `totalItems`, else the data's `total`, else 0.
   */
  function Total(slice: Loose): (t: Json)
    ensures Truthy(Get(Get(slice.meta, "pagination"), "totalItems")) ==> t == Get(Get(slice.meta, "pagination"), "totalItems")
    ensures !Truthy(t) ==> t == Num(0)
    ensures t == Get(Get(slice.meta, "pagination"), "totalItems") || t == Get(Get(slice.data, "pagination"), "totalItems")
      || t == Get(slice.data, "total") || t == Num(0)
  {
    Or(Get(Get(slice.meta, "pagination"), "totalItems"),
      Or(Get(Get(slice.data, "pagination"), "totalItems"), Or(Get(slice.data, "total"), Num(0))))
  }

  /** Load More is shown when nothing is loading and some, but not all, of a numeric total is listed. */
  predicate ShowsLoadMore(slice: Loose): (shown: bool)
    ensures shown ==> Total(slice).Num? && 0 < |Favorites(slice)| < Total(slice).n
    ensures Truthy(slice.loading) ==> !shown
  {
    var count := |Favorites(slice)|;
    !Truthy(slice.loading) && count > 0 && Total(slice).Num? && count < Total(slice).n
  }

  /** A list that already holds the whole total never offers more. */
  lemma NoLoadMoreWhenComplete(slice: Loose)
    requires Total(slice).Num? && |Favorites(slice)| >= Total(slice).n
    ensures !ShowsLoadMore(slice)
  {
  }

  /** `handleLoadMore`: the offset moves on by one page. */
  function LoadMore(skip: int): (next: int)
    ensures next - skip == PageSize
  {
    skip + PageSize
  }

  /** The offset after some presses of Load More. */
  function SkipAfter(presses: nat): int {
    if presses == 0 then InitialSkip else LoadMore(SkipAfter(presses - 1))
  }

  /** After `n` presses the offset is `n` pages. */
  lemma {:induction false} SkipAfterPresses(presses: nat)
    ensures SkipAfter(presses) == presses * PageSize
  {
    if presses > 0 {
      SkipAfterPresses(presses - 1);
    }
  }

  /** The request made whenever the offset changes: `getFavoritesAction(skip, limit)`, which does not append. */
  function Fetch(base: string, skip: int): Dispatched {
    GetFavoritesActions.GetFavorites(base, Some(skip), Some(PageSize), None)
  }

  /**
    After `n` presses of Load More the request asks for page `n + 1`, and its
    success replaces the list instead of adding to it.
   */
  lemma LoadMoreReplacesThePage(base: string, presses: nat)
    ensures var d := Fetch(base, SkipAfter(presses));
      d.call.types.success == GetFavoritesActions.GetFavoritesSuccess
      && PageOf(SkipAfter(presses), PageSize) == JsNumber.Finite(presses + 1)
  {
    SkipAfterPresses(presses);
    assert (presses * PageSize) / PageSize == presses;
  }

  /** What removing a book leads to: the errors, and everything dispatched, in order. */
  datatype Removal = Removal(errors: ErrorMap, dispatched: seq<Dispatched>)

  function StatusUpdate(bookId: string, isFavorite: bool): Dispatched {
    Plain(CheckFavoriteActions.UpdateFavoriteStatusAction(bookId, isFavorite))
  }

  /** `result.error` of the awaited removal: exactly a failed call. */
  function RemovalFailed(bookId: string, outcome: Outcome): (failed: bool)
    ensures failed <==> outcome.Err?
  {
    var d := RemoveFavoriteActions.RemoveFavorite(bookId);
    ApiMiddleware.AwaitedResult(d, outcome, "Remove from Favorites Failed", map["bookId" := Str(bookId)]);
    Truthy(ApiMiddleware.DispatchResult(d, outcome).Field("error"))
  }

  /**
    The errors after a removal: this book's entry is deleted first and set
    again only when the removal failed; every other book's entry is kept.
   */
  function ErrorsAfterRemoval(errors: ErrorMap, bookId: string, failed: bool): (after: ErrorMap)
    ensures Shown(after, bookId) <==> failed
    ensures failed ==> after[bookId] == RemoveFailed
    ensures after.Keys <= errors.Keys + {bookId}
    ensures forall k :: k in errors && k != bookId ==> k in after && after[k] == errors[k]
  {
    var cleared := errors - {bookId};
    if failed then cleared[bookId := RemoveFailed] else cleared
  }

  /**
    `handleRemoveFavorite`: the book is marked not favourite and the removal
    is sent; when the awaited result reports an error (`failed`) the book is
    marked favourite again, and otherwise the current page is fetched again.
   */
  function Remove(errors: ErrorMap, bookId: string, failed: bool, base: string, skip: int): (r: Removal)
    ensures r.errors == ErrorsAfterRemoval(errors, bookId, failed)
    ensures |r.dispatched| == 3
    ensures r.dispatched[0] == StatusUpdate(bookId, false)
    ensures r.dispatched[1] == RemoveFavoriteActions.RemoveFavorite(bookId)
    ensures failed ==> r.dispatched[2] == StatusUpdate(bookId, true)
    ensures !failed ==> r.dispatched[2] == Fetch(base, skip)
  {
    var third := if failed then StatusUpdate(bookId, true) else Fetch(base, skip);
    Removal(ErrorsAfterRemoval(errors, bookId, failed),
      [StatusUpdate(bookId, false), RemoveFavoriteActions.RemoveFavorite(bookId), third])
  }

  /**
    The status is rolled back exactly when the removal failed, which
    `RemovalFailed` ties to the call's outcome.
   */
  lemma RollbackOnlyOnFailure(errors: ErrorMap, bookId: string, failed: bool, base: string, skip: int)
    ensures Remove(errors, bookId, failed, base, skip).dispatched[2] == StatusUpdate(bookId, true) <==> failed
  {
    assert StatusUpdate(bookId, true).Plain? && Fetch(base, skip).Call?;
  }

  /**
    A failed removal leaves the book marked favourite in the status slice,
    whatever it was marked before, and every other book's flag untouched.
   */
  lemma RollbackMarksFavourite(s: CheckFavoriteReducer.StatusState, bookId: string)
    ensures var after := CheckFavoriteReducer.Reduce(
        CheckFavoriteReducer.Reduce(s, CheckFavoriteActions.UpdateFavoriteStatusAction(bookId, false)),
        CheckFavoriteActions.UpdateFavoriteStatusAction(bookId, true));
      bookId in after.statuses && after.statuses[bookId] == Bool(true)
      && forall k :: k in s.statuses && k != bookId ==> k in after.statuses && after.statuses[k] == s.statuses[k]
  {
    var middle := CheckFavoriteReducer.Reduce(s, CheckFavoriteActions.UpdateFavoriteStatusAction(bookId, false));
    CheckFavoriteReducer.UpdateStatusFrame(s, bookId, false);
    CheckFavoriteReducer.UpdateStatusFrame(middle, bookId, true);
  }
}
