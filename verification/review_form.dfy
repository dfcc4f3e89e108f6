/**
  The review form on the book details page: a star rating and a review text
  of at most 100 characters, validated before a create or an update is
  dispatched.  React state becomes an explicit `FormState`.
 */
module ReviewForm {

  import opened Json
  import opened Optional
  import opened Text
  import opened Redux
  import CreateReviewActions
  import UpdateReviewActions

  const MaxCharacters: int := 100

  const RatingRequired: string := "Please select a rating"
  const TextRequired: string := "Please write a review"
  const TextTooLong: string := "Review must be 100 characters or less"

  /** The reviewer's earlier review; an absent id is the empty string, which is falsy like undefined. */
  datatype ExistingReview = ExistingReview(mongoId: string, id: string, rating: int, text: string)

  datatype Errors = Errors(rating: Option<string>, text: Option<string>)

  const NoErrors: Errors := Errors(None, None)

  datatype FormState = FormState(rating: int, text: string, errors: Errors)

  const Blank: FormState := FormState(0, "", NoErrors)

  /** The initialising effect: the existing review's rating and text when there is one, else a blank form. */
  function Initialise(s: FormState, hasExistingReview: bool, existing: Option<ExistingReview>): (r: FormState)
    ensures r.errors == s.errors
    ensures hasExistingReview && existing.Some? ==> r.rating == existing.value.rating && r.text == existing.value.text
    ensures !(hasExistingReview && existing.Some?) ==> r.rating == 0 && r.text == ""
  {
    if hasExistingReview && existing.Some? then s.(rating := existing.value.rating, text := existing.value.text)
    else s.(rating := 0, text := "")
  }

  /** `validateForm()`: the errors it records. */
  function Validate(rating: int, text: string): (errors: Errors)
    ensures errors.rating.Some? <==> rating == 0
    ensures Trim(text) == "" ==> errors.text == Some(TextRequired)
    ensures Trim(text) != "" ==> (errors.text.Some? <==> |text| > MaxCharacters)
  {
    var ratingError := if rating == 0 then Some(RatingRequired) else None;
    var textError :=
      if |Trim(text)| == 0 then Some(TextRequired)
      else if |text| > MaxCharacters then Some(TextTooLong)
      else None;
    Errors(ratingError, textError)
  }

  /** `validateForm()`'s answer: no error was recorded. */
  predicate Passes(rating: int, text: string) {
    Validate(rating, text) == NoErrors
  }

  /** `isFormValid`, which enables the submit button. */
  predicate IsFormValid(rating: int, text: string): (valid: bool)
    ensures valid ==> Passes(rating, text)
    ensures rating == 0 || |text| > MaxCharacters ==> !valid
  {
    rating > 0 && |Trim(text)| > 0 && |text| <= MaxCharacters
  }

  /**
    The button and the validation agree for every rating the stars can
    produce (zero or more); a negative rating would pass `validateForm`,
    which tests only for zero, while the button stays disabled.
   */
  lemma ButtonMatchesValidation(rating: int, text: string)
    ensures rating >= 0 ==> (IsFormValid(rating, text) <==> Passes(rating, text))
    ensures rating < 0 ==> !IsFormValid(rating, text) && (Passes(rating, text) <==> Trim(text) != "" && |text| <= MaxCharacters)
  {
    var e := Validate(rating, text);
    if Trim(text) != "" && |text| <= MaxCharacters {
      assert e.text.None?;
    }
  }

  /** `handleTextChange`: text over the limit is refused; accepted text clears the text error. */
  function TextChange(s: FormState, newText: string): (r: FormState)
    ensures |newText| <= MaxCharacters ==> r == s.(text := newText, errors := s.errors.(text := None))
    ensures |newText| > MaxCharacters ==> r == s
  {
    if |newText| <= MaxCharacters then s.(text := newText, errors := s.errors.(text := None)) else s
  }

  /** `handleRatingChange` */
  function RatingChange(s: FormState, newRating: int): (r: FormState)
    ensures r.rating == newRating && r.text == s.text && r.errors.text == s.errors.text && r.errors.rating.None?
  {
    s.(rating := newRating, errors := s.errors.(rating := None))
  }

  /** `remainingCharacters` */
  function Remaining(text: string): (n: int)
    ensures n >= 0 <==> |text| <= MaxCharacters
    ensures n + |text| == MaxCharacters
  {
    MaxCharacters - |text|
  }

  /** What the reader can do to the form between submissions. */
  datatype Edit = TypeText(newText: string) | PickRating(newRating: int)

  function ApplyEdit(s: FormState, e: Edit): FormState {
    match e
    case TypeText(t) => TextChange(s, t)
    case PickRating(n) => RatingChange(s, n)
  }

  function ApplyEdits(s: FormState, edits: seq<Edit>): FormState
    decreases |edits|
  {
    if edits == [] then s else ApplyEdits(ApplyEdit(s, edits[0]), edits[1..])
  }

  /**
    Typing never takes the text over the limit, so the remaining count stays
    non-negative from any form whose text is within it.
   */
  lemma {:induction false} EditsKeepWithinLimit(s: FormState, edits: seq<Edit>)
    requires |s.text| <= MaxCharacters
    ensures |ApplyEdits(s, edits).text| <= MaxCharacters
    ensures Remaining(ApplyEdits(s, edits).text) >= 0
    decreases |edits|
  {
    if edits != [] {
      EditsKeepWithinLimit(ApplyEdit(s, edits[0]), edits[1..]);
    }
  }

  /** `existingReview?._id || existingReview?.id` */
  function ReviewId(existing: Option<ExistingReview>): (id: string)
    ensures existing.None? ==> id == ""
    ensures existing.Some? && existing.value.mongoId != "" ==> id == existing.value.mongoId
    ensures existing.Some? && existing.value.mongoId == "" ==> id == existing.value.id
  {
    if existing.None? then "" else if existing.value.mongoId != "" then existing.value.mongoId else existing.value.id
  }

  /** The request a valid submission dispatches. */
  datatype ReviewRequest =
    | CreateRequest(bookId: string, rating: int, text: string)
    | UpdateRequest(reviewId: string, rating: int, text: string)

  /** The descriptor dispatched for a request. */
  function Descriptor(req: ReviewRequest): Dispatched {
    match req
    case CreateRequest(bookId, rating, text) => CreateReviewActions.CreateReview(bookId, rating, text)
    case UpdateRequest(reviewId, rating, text) => UpdateReviewActions.UpdateReview(reviewId, rating, text)
  }

  /**
    `handleSubmit`: the errors recorded, and the request dispatched when
    validation passes.
   */
  function Submit(s: FormState, bookId: string, hasExistingReview: bool, existing: Option<ExistingReview>)
    : (r: (Errors, Option<ReviewRequest>))
    ensures r.0 == Validate(s.rating, s.text)
    ensures r.1.Some? <==> Passes(s.rating, s.text)
    // an update needs the flag, the review and an id; anything else creates a review for this book
    ensures r.1.Some? ==> (r.1.value.UpdateRequest? <==> hasExistingReview && existing.Some? && ReviewId(existing) != "")
    ensures r.1.Some? && r.1.value.UpdateRequest? ==> r.1.value.reviewId == ReviewId(existing)
    ensures r.1.Some? && r.1.value.CreateRequest? ==> r.1.value.bookId == bookId
    // the text is sent trimmed, with the form's rating
    ensures r.1.Some? ==> r.1.value.text == Trim(s.text) && r.1.value.rating == s.rating
  {
    var errors := Validate(s.rating, s.text);
    if errors != NoErrors then (errors, None)
    else
      var reviewId := ReviewId(existing);
      if hasExistingReview && existing.Some? && reviewId != "" then
        (errors, Some(UpdateRequest(reviewId, s.rating, Trim(s.text))))
      else
        (errors, Some(CreateRequest(bookId, s.rating, Trim(s.text))))
  }

  /** A submitted review text is never blank and never longer than the limit. */
  lemma SubmittedTextFits(s: FormState, bookId: string, hasExistingReview: bool, existing: Option<ExistingReview>)
    requires Submit(s, bookId, hasExistingReview, existing).1.Some?
    ensures var text := Submit(s, bookId, hasExistingReview, existing).1.value.text;
      text != "" && |text| <= MaxCharacters
  {
  }
}
