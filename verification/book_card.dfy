/**
  One card of the book grid: the shortened description, the row of rating
  stars, the cover image's loading state, and the callbacks the card's
  buttons make.  Ratings are real numbers; the browser's floating point is
  not modelled.
 */
module BookCard {

  import opened Optional
  import opened Text

  const WordsPerLine: int := 15
  const DefaultMaxLines: int := 3
  /** The card always uses the default number of lines. */
  const MaxWords: int := DefaultMaxLines * WordsPerLine
  const Ellipsis: string := "..."
  const StarCount: int := 5

  /** The description's words: its pieces between single spaces. */
  function Words(text: string): seq<string> {
    Split(text, ' ')
  }

  /**
    `truncateDescription(text)`: a description of more than forty-five
    words is cut after the forty-fifth and marked with an ellipsis.
   */
  function Truncate(text: string): (r: string)
    ensures |Words(text)| <= MaxWords ==> r == text
    ensures |Words(text)| > MaxWords ==> |r| >= |Ellipsis| && r[|r| - |Ellipsis|..] == Ellipsis
  {
    var words := Words(text);
    if |words| > MaxWords then Join(words[..MaxWords], ' ') + Ellipsis else text
  }

  /**
    A long description keeps exactly its text up to the space that ends the
    forty-fifth word, followed by the ellipsis, and the result has exactly
    forty-five words.
   */
  lemma {:induction false} TruncateKeepsAPrefix(text: string)
    requires |Words(text)| > MaxWords
    ensures exists n :: 0 <= n < |text| && text[n] == ' ' && Truncate(text) == text[..n] + Ellipsis
    ensures |Words(Truncate(text))| == MaxWords
  {
    var words := Words(text);
    var kept := Join(words[..MaxWords], ' ');
    JoinPrefix(words, MaxWords, ' ');
    JoinSplit(text, ' ');
    assert text == kept + [' '] + Join(words[MaxWords..], ' ');
    var n := |kept|;
    assert text[n] == ' ';
    assert text[..n] == kept;
    assert Truncate(text) == text[..n] + Ellipsis;
    // forty-four separators inside the kept words and none in the ellipsis
    assert NoSep(words[..MaxWords], ' ') by {
      forall k | 0 <= k < MaxWords ensures ' ' !in words[..MaxWords][k] {
        assert words[..MaxWords][k] == words[k];
      }
    }
    CountJoin(words[..MaxWords], ' ');
    CountAppend(kept, Ellipsis, ' ');
    assert Count(Ellipsis, ' ') == 0;
    SplitLength(Truncate(text), ' ');
  }

  /** Shortening twice shortens no further. */
  lemma TruncateIdempotent(text: string)
    ensures Truncate(Truncate(text)) == Truncate(text)
  {
    if |Words(text)| > MaxWords {
      TruncateKeepsAPrefix(text);
    }
  }

  datatype Star = Full | Half | Hollow

  /** The star at position `i` for a rating. */
  function StarAt(rating: real, i: int): Star {
    if i < rating.Floor then Full
    else if i == rating.Floor && rating != rating.Floor as real then Half
    else Hollow
  }

  /** `renderStars(rating)`: five stars, built one position at a time. */
  method RenderStars(rating: real) returns (stars: seq<Star>)
    ensures |stars| == StarCount
    ensures forall i :: 0 <= i < |stars| ==> stars[i] == StarAt(rating, i)
  {
    stars := [];
    var i := 0;
    while i < StarCount
      invariant 0 <= i <= StarCount && |stars| == i
      invariant forall j :: 0 <= j < i ==> stars[j] == StarAt(rating, j)
    {
      stars := stars + [StarAt(rating, i)];
      i := i + 1;
    }
  }

  /** How many of the five positions hold a given star. */
  function Tally(stars: seq<Star>, kind: Star): nat {
    if stars == [] then 0 else (if stars[0] == kind then 1 else 0) + Tally(stars[1..], kind)
  }

  /** The five stars of a rating, as a value. */
  function Stars(rating: real): seq<Star> {
    seq(StarCount, i requires 0 <= i => StarAt(rating, i))
  }

  /**
    The full stars are the leading positions below the rating's floor, a
    half star follows exactly when the rating has a fractional part and its
    floor is a position, and the rest are hollow.
   */
  lemma StarsShape(rating: real, i: int)
    requires 0 <= i < StarCount
    ensures Stars(rating)[i] == Full <==> i < rating.Floor
    ensures Stars(rating)[i] == Half <==> i == rating.Floor && rating.Floor as real < rating
    ensures Stars(rating)[i] == Hollow <==> i > rating.Floor || (i == rating.Floor && rating.Floor as real == rating)
  {
  }

  /** For a rating between 0 and 5 the full stars number its floor, and at most one half star is shown. */
  lemma {:induction false} StarTally(rating: real)
    requires 0.0 <= rating <= 5.0
    ensures Tally(Stars(rating), Full) == rating.Floor
    ensures Tally(Stars(rating), Half) == (if rating.Floor as real < rating then 1 else 0)
  {
    var s := Stars(rating);
    TallyPrefix(s, rating, 0);
  }

  /** Counting from position `from` on. */
  lemma {:induction false} TallyPrefix(s: seq<Star>, rating: real, from: nat)
    requires 0.0 <= rating <= 5.0 && from <= StarCount
    requires s == Stars(rating)
    ensures Tally(s[from..], Full) == (if rating.Floor > from then rating.Floor - from else 0)
    ensures Tally(s[from..], Half) == (if rating.Floor >= from && rating.Floor as real < rating then 1 else 0)
    decreases StarCount - from
  {
    if from < StarCount {
      TallyPrefix(s, rating, from + 1);
      assert s[from..][1..] == s[from + 1..];
      assert s[from..][0] == StarAt(rating, from);
    } else {
      assert s[from..] == [];
    }
  }

  /** The cover image's state: whether it has finished loading and whether loading failed. */
  datatype Cover = Cover(loaded: bool, failed: bool)

  const Loading: Cover := Cover(false, false)

  datatype ImageEvent = Loaded | Failed

  /** `handleImageLoad` and `handleImageError`: a failure also counts as finished. */
  function OnImage(c: Cover, e: ImageEvent): (r: Cover)
    ensures r.loaded
    ensures r.failed <==> c.failed || e.Failed?
  {
    if e.Loaded? then c.(loaded := true) else Cover(true, true)
  }

  /** The pulsing placeholder is shown only before either event. */
  predicate ShowsPlaceholder(c: Cover) {
    !c.loaded && !c.failed
  }

  function AfterEvents(c: Cover, events: seq<ImageEvent>): Cover
    decreases |events|
  {
    if events == [] then c else AfterEvents(OnImage(c, events[0]), events[1..])
  }

  /**
    Once the image has failed the fallback replaces it for good, and after
    any event the placeholder is gone.
   */
  lemma {:induction false} FailureIsFinal(c: Cover, events: seq<ImageEvent>)
    requires c.failed
    ensures AfterEvents(c, events).failed
    decreases |events|
  {
    if events != [] {
      FailureIsFinal(OnImage(c, events[0]), events[1..]);
    }
  }

  lemma {:induction false} PlaceholderGoneAfterAnyEvent(c: Cover, events: seq<ImageEvent>)
    requires events != []
    ensures !ShowsPlaceholder(AfterEvents(c, events))
    decreases |events|
  {
    if |events| > 1 {
      PlaceholderGoneAfterAnyEvent(OnImage(c, events[0]), events[1..]);
    }
  }

  /** The card's two buttons: View Details and the heart. */
  datatype Button = ViewDetails | Heart

  /**
    `handleViewDetails` and `handleFavoriteClick`: a click passes the book's
    id to the button's own callback (`onBookClick` or `onFavoriteToggle`)
    when that one was given.  Both buttons are rendered only for a signed-in
    reader, so a signed-out reader's click never happens.
   */
  function Click(button: Button, isAuthenticated: bool, hasBookClick: bool, hasFavoriteToggle: bool, bookId: string)
    : (call: Option<(Button, string)>)
    ensures call.Some? <==> isAuthenticated && (if button == ViewDetails then hasBookClick else hasFavoriteToggle)
    ensures call.Some? ==> call.value == (button, bookId)
  {
    var hasCallback := match button
      case ViewDetails => hasBookClick
      case Heart => hasFavoriteToggle;
    if isAuthenticated && hasCallback then Some((button, bookId)) else None
  }

  /** The heart's label names the action a click would take. */
  function HeartLabel(isFavorite: bool): (caption: string)
    ensures isFavorite ==> caption == "Remove from favorites"
    ensures !isFavorite ==> caption == "Add to favorites"
  {
    if isFavorite then "Remove from favorites" else "Add to favorites"
  }

  /** The review count's noun: singular for exactly one. */
  function ReviewNoun(totalReviews: int): (noun: string)
    ensures noun == "review" <==> totalReviews == 1
    ensures noun == "reviews" <==> totalReviews != 1
  {
    "review" + if totalReviews != 1 then "s" else ""
  }
}
