/** The book-list slice. */
module GetBooksReducer {

  import opened Json
  import opened Redux
  import opened Slices
  import opened GetBooksActions
  import BookParams
  import ApiMiddleware

  datatype BooksData = BooksData(books: Json, pagination: Json)

  type BooksState = Slice<BooksData>

  const InitData: BooksData := BooksData(Arr([]), EmptyPagination(0, 12))

  const Init: BooksState := Slice(false, false, EmptyObject, InitData)

  predicate Handles(a: Action) {
    a.Is(GetBooksTypes.request) || a.Is(GetBooksTypes.success) || a.Is(GetBooksTypes.failure) || a.Is(UpdateBooksTask)
  }

  /** `getBooksReducer(state, action)` for a defined state. */
  function Reduce(s: BooksState, a: Action): (r: BooksState)
    ensures !Handles(a) ==> r == s
    // only a successful load replaces the list; a failure keeps the stale one
    ensures !a.Is(GetBooksTypes.success) ==> r.data == s.data
    ensures r.errorDetails == s.errorDetails || a.Is(GetBooksTypes.failure)
    // REQUEST: loading, the error flag cleared, the list, pagination and details kept
    ensures a.Is(GetBooksTypes.request) ==> r == s.(loading := true, error := false)
    // SUCCESS: the response's books and pagination, or the empty list and first-page defaults
    ensures a.Is(GetBooksTypes.success) ==>
      !r.loading && !r.error && r.errorDetails == s.errorDetails
      && r.data.books == Or(Get(ResponseData(a), "books"), Arr([]))
      && r.data.pagination == Or(Get(Get(Response(a), "meta"), "pagination"), EmptyPagination(0, 12))
    // FAILURE: the flag and details set, the stale list kept
    ensures a.Is(GetBooksTypes.failure) ==> !r.loading && r.error && r.errorDetails == ErrorDetails(a) && r.data == s.data
    ensures a.Is(UpdateBooksTask) ==> r == s.(loading := false)
  {
    DistinctTypes();
    if a.Is(GetBooksTypes.request) then
      s.(loading := true, error := false)
    else if a.Is(GetBooksTypes.success) then
      s.(loading := false, error := false, data := BooksData(
        Or(Get(ResponseData(a), "books"), Arr([])),
        Or(Get(Get(Response(a), "meta"), "pagination"), EmptyPagination(0, 12))))
    else if a.Is(GetBooksTypes.failure) then
      s.(loading := false, error := true, errorDetails := ErrorDetails(a))
    else if a.Is(UpdateBooksTask) then
      s.(loading := false)
    else
      s
  }

  /** The books task action only clears the loading flag; its payload is ignored. */
  lemma UpdateBooksTaskIgnoresPayload(s: BooksState, task: Json, other: Json)
    ensures Reduce(s, UpdateBooksTaskAction(task)) == Reduce(s, UpdateBooksTaskAction(other)) == s.(loading := false)
  {
    DistinctTypes();
  }

  /**
    A book-list request through the middleware: on success the list and
    pagination come from the response (empty list and first-page defaults when
    absent); on failure the previous list stays and the error is recorded.
   */
  lemma LoadLifecycle(s: BooksState, call: ApiCall, actionData: Json, outcome: Outcome)
    requires call.types == GetBooksTypes && call.verb == GET
    requires "type" !in Fields(actionData) && "response" !in Fields(actionData)
    ensures var r := Replay(Reduce, s, ApiMiddleware.Run(Call(call, actionData), outcome));
      && !r.loading
      && (r.error <==> outcome.Err?)
      && (outcome.Ok? ==> r.data.books == Or(Get(Get(outcome.response, "data"), "books"), Arr([])))
      && (outcome.Ok? ==> r.data.pagination == Or(Get(Get(outcome.response, "meta"), "pagination"), EmptyPagination(0, 12)))
      && (outcome.Err? ==> r.data == s.data)
  {
    var emitted := ApiMiddleware.Run(Call(call, actionData), outcome);
    ReplayPair(Reduce, s, emitted[0], emitted[1]);
    assert emitted == [emitted[0], emitted[1]];
  }

  /** Every request the book-list builder makes runs the lifecycle above. */
  lemma GetBooksLifecycle(s: BooksState, base: string, p: BookParams.BookListParams, outcome: Outcome)
    ensures var r := Replay(Reduce, s, ApiMiddleware.Run(GetBooks(base, p), outcome));
      && !r.loading
      && (r.error <==> outcome.Err?)
      && (outcome.Ok? ==> r.data.books == Or(Get(Get(outcome.response, "data"), "books"), Arr([])))
      && (outcome.Ok? ==> r.data.pagination == Or(Get(Get(outcome.response, "meta"), "pagination"), EmptyPagination(0, 12)))
      && (outcome.Err? ==> r.data == s.data)
  {
    var d := GetBooks(base, p);
    assert d.Call? && d.call.types == GetBooksTypes && d.call.verb == GET;
    assert d.actionData == ActionData("Fetch Books Failed", map[]);
    assert Fields(d.actionData).Keys == {"errorMessage"};
    LoadLifecycle(s, d.call, d.actionData, outcome);
  }

  lemma DistinctTypes()
    ensures GetBooksTypes.request != GetBooksTypes.success && GetBooksTypes.request != GetBooksTypes.failure
    ensures GetBooksTypes.success != GetBooksTypes.failure
    ensures UpdateBooksTask != GetBooksTypes.request && UpdateBooksTask != GetBooksTypes.success && UpdateBooksTask != GetBooksTypes.failure
  {
    assert GetBooksTypes.request[10] != GetBooksTypes.success[10];
    assert GetBooksTypes.request[10] != GetBooksTypes.failure[10];
    assert GetBooksTypes.success[10] != GetBooksTypes.failure[10];
    assert UpdateBooksTask[0] != GetBooksTypes.request[0];
  }
}
