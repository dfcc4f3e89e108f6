/** The search-results slice. */
module SearchBooksReducer {

  import opened Json
  import opened Redux
  import opened Slices
  import opened SearchBooksActions
  import opened Text
  import BookParams
  import GetBooksActions
  import ApiMiddleware

  datatype SearchData = SearchData(searchResults: Json, searchTerm: Json, pagination: Json, hasSearched: bool)

  type SearchState = Slice<SearchData>

  const InitData: SearchData := SearchData(Arr([]), Str(""), EmptyPagination(0, 12), false)

  const Init: SearchState := Slice(false, false, EmptyObject, InitData)

  predicate Handles(a: Action) {
    a.Is(SearchBooksTypes.request) || a.Is(SearchBooksTypes.success) || a.Is(SearchBooksTypes.failure)
    || a.Is(ClearSearchResults) || a.Is(GetBooksActions.UpdateBookInList)
  }

  /** `book._id === action.book._id`: ids are compared as values. */
  predicate SameBook(book: Json, updated: Json) {
    Get(book, "_id") == Get(updated, "_id")
  }

  /** `books.map(book => same id ? updated : book)` */
  function ReplaceBook(books: seq<Json>, updated: Json): (r: seq<Json>)
    ensures |r| == |books|
    ensures forall i :: 0 <= i < |books| ==> r[i] == if SameBook(books[i], updated) then updated else books[i]
  {
    if books == [] then []
    else [if SameBook(books[0], updated) then updated else books[0]] + ReplaceBook(books[1..], updated)
  }

  /** `searchBooksReducer(state, action)` for a defined state. */
  function Reduce(s: SearchState, a: Action): (r: SearchState)
    ensures !Handles(a) ==> r == s
    ensures a.Is(ClearSearchResults) ==> r == Init
    // a search has been made once any of its lifecycle actions arrived, until the results are cleared
    ensures a.Is(SearchBooksTypes.request) || a.Is(SearchBooksTypes.success) || a.Is(SearchBooksTypes.failure) ==> r.data.hasSearched
    ensures !a.Is(SearchBooksTypes.request) && !a.Is(SearchBooksTypes.success) && !a.Is(SearchBooksTypes.failure) && !a.Is(ClearSearchResults)
      ==> r.data.hasSearched == s.data.hasSearched
    // REQUEST: loading, the error flag cleared, the results, term, pagination and details kept
    ensures a.Is(SearchBooksTypes.request) ==>
      r.loading && !r.error && r.errorDetails == s.errorDetails && r.data == s.data.(hasSearched := true)
    // SUCCESS: the response's books and pagination (or the empty defaults) and the carried term
    ensures a.Is(SearchBooksTypes.success) ==>
      !r.loading && !r.error && r.errorDetails == s.errorDetails
      && r.data.searchResults == Or(Get(ResponseData(a), "books"), Arr([]))
      && r.data.pagination == Or(Get(Get(Response(a), "meta"), "pagination"), EmptyPagination(0, 12))
      && r.data.searchTerm == Or(a.Field("searchTerm"), Str(""))
    // FAILURE: the flag and details set, the results, term and pagination kept
    ensures a.Is(SearchBooksTypes.failure) ==>
      !r.loading && r.error && r.errorDetails == ErrorDetails(a) && r.data == s.data.(hasSearched := true)
  {
    DistinctTypes();
    if a.Is(SearchBooksTypes.request) then
      s.(loading := true, error := false, data := s.data.(hasSearched := true))
    else if a.Is(SearchBooksTypes.success) then
      s.(loading := false, error := false, data := SearchData(
        Or(Get(ResponseData(a), "books"), Arr([])),
        Or(a.Field("searchTerm"), Str("")),
        Or(Get(Get(Response(a), "meta"), "pagination"), EmptyPagination(0, 12)),
        true))
    else if a.Is(SearchBooksTypes.failure) then
      s.(loading := false, error := true, errorDetails := ErrorDetails(a), data := s.data.(hasSearched := true))
    else if a.Is(ClearSearchResults) then
      Slice(false, false, EmptyObject, InitData)
    else if a.Is(GetBooksActions.UpdateBookInList) then
      var results := s.data.searchResults;
      s.(data := s.data.(searchResults := if results.Arr? then Arr(ReplaceBook(results.items, a.Field("book"))) else results))
    else
      s
  }

  /** Clearing twice is clearing once. */
  lemma ClearIdempotent(s: SearchState)
    ensures Reduce(Reduce(s, ClearSearchResultsAction()), ClearSearchResultsAction()) == Reduce(s, ClearSearchResultsAction())
  {
  }

  /**
    An edited book replaces every result with its id, in place; the order, the
    other results and the rest of the slice are unchanged.
   */
  lemma UpdateBookInListReplaces(s: SearchState, book: Json)
    requires s.data.searchResults.Arr?
    ensures var r := Reduce(s, GetBooksActions.UpdateBookInListAction(book));
      && r.data.searchResults.Arr?
      && |r.data.searchResults.items| == |s.data.searchResults.items|
      && (forall i :: 0 <= i < |s.data.searchResults.items| ==>
            r.data.searchResults.items[i] == if SameBook(s.data.searchResults.items[i], book) then book else s.data.searchResults.items[i])
      && r.(data := r.data.(searchResults := s.data.searchResults)) == s
  {
    DistinctTypes();
  }

  /**
    A completed search through the middleware records the trimmed term the
    request carried, whatever the server answered.
   */
  lemma SearchRecordsTerm(s: SearchState, base: string, term: string, pp: BookParams.PageParams, response: Json)
    ensures var r := Replay(Reduce, s, ApiMiddleware.Run(SearchBooks(base, term, pp), Ok(response)));
      r.data.searchTerm == Str(Trim(term)) && r.data.hasSearched && !r.loading && !r.error
      && r.data.searchResults == Or(Get(Get(response, "data"), "books"), Arr([]))
      && r.data.pagination == Or(Get(Get(response, "meta"), "pagination"), EmptyPagination(0, 12))
  {
    var d := SearchBooks(base, term, pp);
    SearchActionData(Trim(term));
    SuccessRecordsTerm(s, d.call, d.actionData, Trim(term), response);
  }

  /** The fields a search descriptor carries besides its call. */
  lemma SearchActionData(term: string)
    ensures var ad := ActionData("Search Books Failed", map["searchTerm" := Str(term)]);
      Fields(ad).Keys == {"errorMessage", "searchTerm"} && Fields(ad)["searchTerm"] == Str(term)
  {
    assert "errorMessage" != "searchTerm" by { assert "errorMessage"[0] != "searchTerm"[0]; }
  }

  lemma SuccessRecordsTerm(s: SearchState, call: ApiCall, actionData: Json, term: string, response: Json)
    requires call.types == SearchBooksTypes && call.verb == GET
    requires Fields(actionData).Keys == {"errorMessage", "searchTerm"} && Fields(actionData)["searchTerm"] == Str(term)
    ensures var r := Replay(Reduce, s, ApiMiddleware.Run(Call(call, actionData), Ok(response)));
      r.data.searchTerm == Str(term) && r.data.hasSearched && !r.loading && !r.error
      && r.data.searchResults == Or(Get(Get(response, "data"), "books"), Arr([]))
      && r.data.pagination == Or(Get(Get(response, "meta"), "pagination"), EmptyPagination(0, 12))
  {
    var emitted := ApiMiddleware.Run(Call(call, actionData), Ok(response));
    DistinctTypes();
    assert "type" !in Fields(actionData);
    assert emitted[1].Field("searchTerm") == Str(term);
    assert "response" !in Fields(actionData) by { assert "response"[0] != "errorMessage"[0]; }
    assert emitted[1].Field("response") == response;
    ReplayPair(Reduce, s, emitted[0], emitted[1]);
    assert emitted == [emitted[0], emitted[1]];
  }

  lemma DistinctTypes()
    ensures SearchBooksTypes.request != SearchBooksTypes.success && SearchBooksTypes.request != SearchBooksTypes.failure
    ensures SearchBooksTypes.success != SearchBooksTypes.failure
    ensures GetBooksActions.UpdateBookInList != SearchBooksTypes.request && GetBooksActions.UpdateBookInList != SearchBooksTypes.success
    ensures GetBooksActions.UpdateBookInList != SearchBooksTypes.failure && GetBooksActions.UpdateBookInList != ClearSearchResults
  {
    assert SearchBooksTypes.request[13] != SearchBooksTypes.success[13];
    assert SearchBooksTypes.request[13] != SearchBooksTypes.failure[13];
    assert SearchBooksTypes.success[13] != SearchBooksTypes.failure[13];
    assert GetBooksActions.UpdateBookInList[0] != SearchBooksTypes.request[0];
    assert GetBooksActions.UpdateBookInList[0] != ClearSearchResults[0];
  }
}
