/**
  The recommendations service: the AI recommendations, or, when that request
  fails, the top-rated books presented as recommendations.  Both HTTP calls
  are inputs (`Outcome`), and so is the clock reading that stamps the
  fallback entries.
 */
module RecommendationsService {

  import opened Json
  import opened Text
  import opened FormEncoding
  import opened Redux
  import Urls

  const Reasons: seq<string> := [
    "Highly rated by our community of readers",
    "A popular choice among book enthusiasts",
    "Consistently praised for its engaging storytelling",
    "Recommended by fellow readers with similar tastes",
    "A well-reviewed book that readers love",
    "Popular among readers who enjoy quality literature",
    "Highly recommended by the reading community",
    "A favorite among discerning readers",
    "Praised for its compelling narrative and characters",
    "A standout book that has captured readers' attention"
  ]

  const FallbackSource: string := "fallback"
  const FallbackMessage: string := "Showing popular books while AI recommendations are unavailable"
  /** The fallback confidence 0.7, in hundredths. */
  const FallbackConfidence: int := 70

  /** `getFallbackReason(index)`: the reasons are handed out in turn, starting over after the tenth. */
  function FallbackReason(index: nat): (r: string)
    ensures r in Reasons
    ensures index < |Reasons| ==> r == Reasons[index]
  {
    Reasons[index % 10]
  }

  /** Positions a multiple of ten apart get the same reason. */
  lemma FallbackReasonPeriodic(index: nat, k: nat)
    ensures FallbackReason(index + k * 10) == FallbackReason(index)
  {
    ModPeriodic(index, k);
  }

  lemma {:induction false} ModPeriodic(n: nat, k: nat)
    ensures (n + k * 10) % 10 == n % 10
  {
    if k > 0 {
      ModPeriodic(n, k - 1);
      assert n + k * 10 == (n + (k - 1) * 10) + 10;
    }
  }

  /** A top-rated book presented as a recommendation. */
  datatype Recommendation = Recommendation(
    id: string, book: Json, reason: string, confidence: int, source: string, createdAt: string)

  /** The reply to `getRecommendations()`: the AI service's body, or the fallback envelope. */
  datatype Reply =
    | AiReply(body: Json)
    | FallbackReply(success: bool, recommendations: seq<Recommendation>, source: string, message: string)

  /**
    What the call rejects with: a value thrown by the client, the TypeError
    of mapping a missing or non-list `books`, or the TypeError of reading
    `_id` from a null or undefined book.
   */
  datatype Failure = Thrown(error: Json) | NotAList | NullishBook

  datatype Settled = Resolved(reply: Reply) | Rejected(failure: Failure)

  /** A GET through the client: a path (prefixed with `/v1` by the client) and query parameters. */
  datatype ClientGet = ClientGet(path: string, params: seq<Param>)

  const AiRequest: ClientGet := ClientGet(Urls.RecommendationsUrl, [])

  /** The fallback asks for the first ten books by rating. */
  const FallbackRequest: ClientGet :=
    ClientGet(Urls.BooksUrl, [Param("sort", "rating"), Param("limit", "10"), Param("page", "1")])

  /** `fallback_${book._id}_${Date.now()}` */
  function FallbackId(book: Json, now: int): string {
    "fallback_" + ToStr(Get(book, "_id")) + "_" + IntToString(now)
  }

  /** The recommendation made from the book at position `i`. */
  function FallbackFor(book: Json, i: nat, now: int, createdAt: string): Recommendation {
    Recommendation(FallbackId(book, now), book, FallbackReason(i), FallbackConfidence, FallbackSource, createdAt)
  }

  /** `book._id` can be read from every book: none is null or undefined. */
  predicate NoNullish(books: seq<Json>) {
    forall i :: 0 <= i < |books| ==> books[i] != Null && books[i] != Undefined
  }

  /**
    The books mapped to recommendations, one per book and in the books'
    order; `now` and `createdAt` are the clock reading.
   */
  method FallbackRecommendations(books: seq<Json>, now: int, createdAt: string) returns (recs: seq<Recommendation>)
    requires NoNullish(books)
    ensures |recs| == |books|
    ensures forall i :: 0 <= i < |books| ==>
      recs[i].book == books[i] && recs[i].reason == FallbackReason(i)
      && recs[i].id == FallbackId(books[i], now)
      && recs[i].source == FallbackSource && recs[i].confidence == FallbackConfidence
      && recs[i].createdAt == createdAt
  {
    recs := [];
    var i := 0;
    while i < |books|
      invariant 0 <= i <= |books| && |recs| == i
      invariant forall j :: 0 <= j < i ==> recs[j] == FallbackFor(books[j], j, now, createdAt)
    {
      recs := recs + [FallbackFor(books[i], i, now, createdAt)];
      i := i + 1;
    }
  }

  /**
    `getFallbackRecommendations()` given how its request ended: the books
    under `data.books` become the envelope's recommendations; a failed
    request, a missing list or a null book in it rejects.
   */
  method Fallback(outcome: Outcome, now: int, createdAt: string) returns (r: Settled)
    ensures outcome.Err? ==> r == Rejected(Thrown(outcome.error))
    ensures outcome.Ok? ==> (r.Resolved? <==>
      Get(Get(outcome.response, "data"), "books").Arr? && NoNullish(Get(Get(outcome.response, "data"), "books").items))
    ensures outcome.Ok? && r.Rejected? && !Get(Get(outcome.response, "data"), "books").Arr? ==> r.failure == NotAList
    ensures outcome.Ok? && r.Rejected? && Get(Get(outcome.response, "data"), "books").Arr? ==> r.failure == NullishBook
    ensures r.Resolved? ==>
      r.reply.FallbackReply? && r.reply.success && r.reply.source == FallbackSource
      && r.reply.message == FallbackMessage
      && |r.reply.recommendations| == |Get(Get(outcome.response, "data"), "books").items|
      && forall i :: 0 <= i < |r.reply.recommendations| ==>
        r.reply.recommendations[i].book == Get(Get(outcome.response, "data"), "books").items[i]
        && r.reply.recommendations[i].reason == FallbackReason(i)
  {
    match outcome
    case Err(error) =>
      r := Rejected(Thrown(error));
    case Ok(response) =>
      var books := Get(Get(response, "data"), "books");
      if !books.Arr? {
        r := Rejected(NotAList);
      } else if NoNullish(books.items) {
        var recs := FallbackRecommendations(books.items, now, createdAt);
        r := Resolved(FallbackReply(true, recs, FallbackSource, FallbackMessage));
      } else {
        r := Rejected(NullishBook);
      }
  }

  /**
    `getRecommendations()`: the AI body when its request succeeds; otherwise
    whatever the fallback settles to, so the AI request's error never
    reaches the caller.
   */
  method GetRecommendations(primary: Outcome, fallback: Outcome, now: int, createdAt: string)
    returns (requests: seq<ClientGet>, r: Settled)
    // the fallback request is made exactly when the AI request fails
    ensures primary.Ok? ==> requests == [AiRequest]
    ensures primary.Err? ==> requests == [AiRequest, FallbackRequest]
    ensures primary.Ok? ==> r == Resolved(AiReply(primary.response))
    ensures r.Resolved? && r.reply.FallbackReply? ==> primary.Err? && fallback.Ok?
    ensures r.Rejected? ==> primary.Err? && (fallback.Err? ==> r.failure == Thrown(fallback.error))
    ensures primary.Err? && fallback.Ok? ==>
      (r.Resolved? <==>
        Get(Get(fallback.response, "data"), "books").Arr? && NoNullish(Get(Get(fallback.response, "data"), "books").items))
    ensures r.Resolved? && r.reply.FallbackReply? ==>
      r.reply.success && r.reply.source == FallbackSource && r.reply.message == FallbackMessage
  {
    if primary.Ok? {
      requests := [AiRequest];
      r := Resolved(AiReply(primary.response));
    } else {
      requests := [AiRequest, FallbackRequest];
      r := Fallback(fallback, now, createdAt);
    }
  }
}
