/** The search request builder and the action that clears search results. */
module SearchBooksActions {

  import opened Json
  import opened Optional
  import opened Text
  import opened FormEncoding
  import opened Redux
  import opened BookParams
  import GetBooksActions
  import Urls

  const SearchBooksTypes: Types := Types("SEARCH_BOOKS_REQUEST", "SEARCH_BOOKS_SUCCESS", "SEARCH_BOOKS_FAILURE")
  const ClearSearchResults: string := "CLEAR_SEARCH_RESULTS"

  /** The query parameters of a search request: paging as for the book list, then the trimmed term, always. */
  function SearchQuery(term: string, pp: PageParams): (q: seq<Param>)
    ensures |q| == 3
    ensures pp.skip.Some? ==> q[0] == Param("skip", IntToString(pp.skip.value))
    ensures pp.skip.None? ==> q[0] == Param("page", IntToString(pp.page.GetOr(GetBooksActions.DefaultPage)))
    ensures q[1] == Param("limit", IntToString(pp.limit.GetOr(GetBooksActions.DefaultLimit)))
    ensures q[2] == Param("search", Trim(term))
  {
    var first :=
      if pp.skip.Some? then Param("skip", IntToString(pp.skip.value))
      else Param("page", IntToString(pp.page.GetOr(GetBooksActions.DefaultPage)));
    [first, Param("limit", IntToString(pp.limit.GetOr(GetBooksActions.DefaultLimit))), Param("search", Trim(term))]
  }

  /** `searchBooks(searchTerm, params)` */
  function SearchBooks(base: string, term: string, pp: PageParams): (d: Dispatched)
    ensures d.Call? && d.call.types == SearchBooksTypes && d.call.verb == GET && d.call.data == Undefined
    ensures d.call.url == base + "/v1" + Urls.BooksUrl + "?" + Serialize(SearchQuery(term, pp))
    ensures d.actionData == ActionData("Search Books Failed", map["searchTerm" := Str(Trim(term))])
  {
    var url := base + "/v1" + Urls.BooksUrl;
    Call(ApiCall(SearchBooksTypes, url + "?" + Serialize(SearchQuery(term, pp)), GET, Undefined),
      ActionData("Search Books Failed", map["searchTerm" := Str(Trim(term))]))
  }

  /** `clearSearchResults()` has no payload. */
  function ClearSearchResultsAction(): (a: Action)
    ensures a.Is(ClearSearchResults) && a.fields.Keys == {"type"}
  {
    OfType(ClearSearchResults)
  }

  /**
    For a term with a non-blank character, a search asks for exactly the
    query the book list would with that term as its search parameter.
   */
  lemma SearchMatchesBookList(base: string, term: string, pp: PageParams)
    requires Trim(term) != ""
    ensures SearchQuery(term, pp) == GetBooksActions.BooksQuery(WithSearch(pp, term))
    ensures SearchBooks(base, term, pp).call.url == GetBooksActions.GetBooks(base, WithSearch(pp, term)).call.url
  {
    var q := SearchQuery(term, pp);
    var b := GetBooksActions.BooksQuery(WithSearch(pp, term));
    assert |b| == 3;
    assert q[0] == b[0] && q[1] == b[1] && q[2] == b[2];
  }

  /**
    For a blank term the two differ: the search still sends an empty
    `search` parameter, the book list sends none.
   */
  lemma BlankSearchDiffers(term: string, pp: PageParams)
    requires Trim(term) == ""
    ensures SearchQuery(term, pp)[2] == Param("search", "")
    ensures |GetBooksActions.BooksQuery(WithSearch(pp, term))| == 2
  {
  }
}
