/**
  One review on the profile page, with its inline editor: opening the
  editor, the rating and comment checks, the update and delete requests,
  and the refetch of the user's reviews after a change.  How each request
  ends and the reader's answer to the delete confirmation are inputs.
 */
module ReviewItem {

  import opened Json
  import opened Optional
  import opened Redux
  import opened FieldRules
  import ApiMiddleware
  import UpdateReviewActions
  import DeleteReviewActions
  import GetUserReviewsActions

  const RatingOutOfRange: string := "Please select a rating between 1 and 5 stars"
  const CommentRequired: string := "Please enter a review comment"
  const UpdateFailed: string := "Failed to update review"

  /** A review as listed; an absent id or text is the empty string, which is falsy like undefined. */
  datatype Review = Review(id: string, mongoId: string, rating: int, comment: string, text: string)

  /** `review.id || review._id`: this component prefers `id`. */
  function ReviewKey(r: Review): (key: string)
    ensures r.id != "" ==> key == r.id
    ensures r.id == "" ==> key == r.mongoId
  {
    if r.id != "" then r.id else r.mongoId
  }

  /** Which review the editor is open on, and its fields. */
  datatype Editor = Editor(editing: Option<string>, rating: int, comment: string, errors: ErrorMap)

  const Closed: Editor := Editor(None, 0, "", map[])

  /** `handleEditReview`: the editor opens on this review with its rating and its comment, else its text. */
  function StartEdit(r: Review): (e: Editor)
    ensures e.editing == Some(ReviewKey(r)) && e.rating == r.rating && e.errors == map[]
    ensures r.comment != "" ==> e.comment == r.comment
    ensures r.comment == "" ==> e.comment == r.text
  {
    Editor(Some(ReviewKey(r)), r.rating, if r.comment != "" then r.comment else r.text, map[])
  }

  /** `handleCancelEdit` */
  function CancelEdit(): (e: Editor)
    ensures e.editing.None? && e.rating == 0 && e.comment == "" && |e.errors| == 0
  {
    Closed
  }

  /** Whether the review is shown with the editor rather than as text. */
  predicate IsEditing(e: Editor, r: Review) {
    e.editing == Some(ReviewKey(r))
  }

  /** Opening the editor on a review shows that review in it, and cancelling shows it as text again. */
  lemma StartThenCancel(r: Review)
    ensures IsEditing(StartEdit(r), r) && !IsEditing(CancelEdit(), r)
  {
  }

  /** The rating handler: the rating changes and a showing rating error is removed. */
  function RatingChange(e: Editor, rating: int): (r: Editor)
    ensures r.rating == rating && r.comment == e.comment && r.editing == e.editing
    ensures Shown(e.errors, "rating") ==> r.errors == e.errors - {"rating"}
    ensures !Shown(e.errors, "rating") ==> r.errors == e.errors
  {
    e.(rating := rating, errors := if Shown(e.errors, "rating") then e.errors - {"rating"} else e.errors)
  }

  /** The comment handler: the comment changes and a showing comment error is removed. */
  function CommentChange(e: Editor, comment: string): (r: Editor)
    ensures r.comment == comment && r.rating == e.rating && r.editing == e.editing
    ensures Shown(e.errors, "comment") ==> r.errors == e.errors - {"comment"}
    ensures !Shown(e.errors, "comment") ==> r.errors == e.errors
  {
    e.(comment := comment, errors := if Shown(e.errors, "comment") then e.errors - {"comment"} else e.errors)
  }

  /** `!rating || rating < 1 || rating > 5` */
  predicate RatingRejected(rating: int) {
    rating == 0 || rating < 1 || rating > 5
  }

  /** What pressing Update does before the request: one error, or the request. */
  datatype Check = Refused(errors: ErrorMap) | Send(reviewId: string, rating: int, comment: string)

  /** The checks of `handleUpdateReview`; the rating is checked first and the comment goes untrimmed. */
  function CheckUpdate(e: Editor, r: Review): (c: Check)
    ensures c.Send? <==> 1 <= e.rating <= 5 && !Blank(e.comment)
    ensures c.Send? ==> c == Send(ReviewKey(r), e.rating, e.comment)
    ensures c.Refused? && !(1 <= e.rating <= 5) ==> c.errors == map["rating" := RatingOutOfRange]
    ensures c.Refused? && 1 <= e.rating <= 5 ==> c.errors == map["comment" := CommentRequired]
  {
    if RatingRejected(e.rating) then Refused(map["rating" := RatingOutOfRange])
    else if Blank(e.comment) then Refused(map["comment" := CommentRequired])
    else Send(ReviewKey(r), e.rating, e.comment)
  }

  /** The refetch of the current page of the user's reviews. */
  function Refetch(base: string, userId: string, skip: int, limit: int): Dispatched {
    GetUserReviewsActions.GetUserReviews(base, userId, Some(skip), Some(limit))
  }

  /** Everything one press of a button leads to. */
  datatype Step = Step(editor: Editor, sent: Option<Dispatched>, refetch: Option<Dispatched>)

  /**
    `handleUpdateReview`: a refused check records its error; otherwise the
    update is sent, and `outcome` is how it ended.  Success closes the
    editor and refetches the list; failure shows the general error.
   */
  function Update(e: Editor, r: Review, outcome: Outcome, base: string, userId: string, skip: int, limit: int)
    : (s: Step)
    ensures CheckUpdate(e, r).Refused? ==> s == Step(e.(errors := CheckUpdate(e, r).errors), None, None)
    ensures CheckUpdate(e, r).Send? ==>
      s.sent == Some(UpdateReviewActions.UpdateReview(ReviewKey(r), e.rating, e.comment))
    ensures s.refetch.Some? ==> s.editor == Closed && s.refetch.value == Refetch(base, userId, skip, limit)
    ensures CheckUpdate(e, r).Send? && s.refetch.None? ==> s.editor == e.(errors := map["general" := UpdateFailed])
  {
    match CheckUpdate(e, r)
    case Refused(errors) => Step(e.(errors := errors), None, None)
    case Send(reviewId, rating, comment) =>
      var d := UpdateReviewActions.UpdateReview(reviewId, rating, comment);
      var result := ApiMiddleware.DispatchResult(d, outcome);
      if !Truthy(result.Field("error")) then Step(Closed, Some(d), Some(Refetch(base, userId, skip, limit)))
      else Step(e.(errors := map["general" := UpdateFailed]), Some(d), None)
  }

  /** After a valid press, the list is refetched exactly when the update call succeeded. */
  lemma UpdateRefetchesOnSuccess(e: Editor, r: Review, outcome: Outcome, base: string, userId: string, skip: int, limit: int)
    requires CheckUpdate(e, r).Send?
    ensures Update(e, r, outcome, base, userId, skip, limit).refetch.Some? <==> outcome.Ok?
  {
    var d := UpdateReviewActions.UpdateReview(ReviewKey(r), e.rating, e.comment);
    ApiMiddleware.AwaitedResult(d, outcome, "Update Review Failed", map[]);
  }

  /**
    `handleDeleteReview`: nothing without the reader's confirmation;
    otherwise the delete is sent and a successful one refetches the list.
    The editor is left as it was.
   */
  function Delete(e: Editor, r: Review, confirmed: bool, outcome: Outcome, base: string, userId: string, skip: int, limit: int)
    : (s: Step)
    ensures s.editor == e
    ensures s.sent.Some? <==> confirmed
    ensures s.sent.Some? ==> s.sent.value == DeleteReviewActions.DeleteReview(ReviewKey(r))
    ensures s.refetch.Some? ==> confirmed && s.refetch.value == Refetch(base, userId, skip, limit)
  {
    if !confirmed then Step(e, None, None)
    else
      var d := DeleteReviewActions.DeleteReview(ReviewKey(r));
      var result := ApiMiddleware.DispatchResult(d, outcome);
      Step(e, Some(d), if !Truthy(result.Field("error")) then Some(Refetch(base, userId, skip, limit)) else None)
  }

  /** A confirmed delete refetches exactly when the call succeeded. */
  lemma DeleteRefetchesOnSuccess(e: Editor, r: Review, outcome: Outcome, base: string, userId: string, skip: int, limit: int)
    ensures Delete(e, r, true, outcome, base, userId, skip, limit).refetch.Some? <==> outcome.Ok?
  {
    var d := DeleteReviewActions.DeleteReview(ReviewKey(r));
    ApiMiddleware.AwaitedResult(d, outcome, "Delete Review Failed", map[]);
  }

  /** The delete goes to the very path an update of the same review uses. */
  lemma DeleteAndUpdateShareThePath(e: Editor, r: Review, outcome: Outcome, base: string, userId: string, skip: int, limit: int)
    requires CheckUpdate(e, r).Send?
    ensures Delete(e, r, true, outcome, base, userId, skip, limit).sent.value.call.url
      == Update(e, r, outcome, base, userId, skip, limit).sent.value.call.url
  {
  }
}
