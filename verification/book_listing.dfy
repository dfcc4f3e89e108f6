/**
  The book listing page: which slice the grid shows (the book list or the
  search results), and what searching, clearing the search and changing
  page ask the store for.  The two slices are inputs; requests are named by
  a small datatype and mapped to the request builders by `Descriptor`.
 */
module BookListing {

  import opened Json
  import opened Optional
  import opened Text
  import opened Redux
  import opened BookParams
  import GetBooksActions
  import SearchBooksActions
  import GetBooksReducer
  import SearchBooksReducer

  const ItemsPerPage: int := 12
  const MinSearchLength: int := 3

  /** The component's own state; the current page it also keeps is never read. */
  datatype Listing = Listing(searchTerm: string, isSearching: bool)

  const Start: Listing := Listing("", false)

  /** What the page asks the store for. */
  datatype Request = BooksPage(page: int) | SearchPage(term: string, page: int) | ClearResults

  /** The descriptor or action dispatched for a request. */
  function Descriptor(base: string, r: Request): Dispatched {
    match r
    case BooksPage(page) =>
      GetBooksActions.GetBooks(base, BookListParams(Some(page), Some(ItemsPerPage), None, None))
    case SearchPage(term, page) =>
      SearchBooksActions.SearchBooks(base, term, PageParams(Some(page), Some(ItemsPerPage), None))
    case ClearResults => Plain(SearchBooksActions.ClearSearchResultsAction())
  }

  /** What the grid is given. */
  datatype Display = Display(fromSearch: bool, books: Json, pagination: Json, loading: bool, error: bool, noResults: bool)

  /**
    The displayed data: the search results once a search is under way and
    the search slice has seen one, otherwise the book list.  Loading and
    error follow the search slice as soon as a search is under way, even
    while the book list is still the one shown.
   */
  function View(l: Listing, books: GetBooksReducer.BooksState, search: SearchBooksReducer.SearchState): (d: Display)
    ensures d.fromSearch <==> l.isSearching && search.data.hasSearched
    ensures d.fromSearch ==> d.books == search.data.searchResults && d.pagination == search.data.pagination
    ensures !d.fromSearch ==> d.books == books.data.books && d.pagination == books.data.pagination
    ensures d.loading == (if l.isSearching then search.loading else books.loading)
    ensures d.error == (if l.isSearching then search.error else books.error)
    // "no results" needs a finished search whose result list is empty
    ensures d.noResults <==> d.fromSearch && !search.loading && |ListOr(search.data.searchResults)| == 0
  {
    var fromSearch := l.isSearching && search.data.hasSearched;
    var shown := if fromSearch then search.data.searchResults else books.data.books;
    var loading := if l.isSearching then search.loading else books.loading;
    Display(fromSearch, shown,
      if fromSearch then search.data.pagination else books.data.pagination,
      loading,
      if l.isSearching then search.error else books.error,
      fromSearch && !loading && |ListOr(shown)| == 0)
  }

  /** The mount effect: the first page of books, when not searching and no books are held. */
  function LoadEffect(l: Listing, books: GetBooksReducer.BooksState): (r: Option<Request>)
    ensures r.Some? <==> !l.isSearching && |ListOr(books.data.books)| == 0
    ensures r.Some? ==> r.value == BooksPage(1)
  {
    if !l.isSearching && |ListOr(books.data.books)| == 0 then Some(BooksPage(1)) else None
  }

  /** `handleSearch(term)`: searching starts whatever the term; the request goes out only for three trimmed characters. */
  function HandleSearch(l: Listing, term: string): (r: (Listing, Option<Request>))
    ensures r.0 == Listing(term, true)
    ensures r.1.Some? <==> |Trim(term)| >= MinSearchLength
    ensures r.1.Some? ==> r.1.value == SearchPage(term, 1)
  {
    (Listing(term, true), if |Trim(term)| >= MinSearchLength then Some(SearchPage(term, 1)) else None)
  }

  /** `handleClearSearch`: the results are cleared, and the first page of books is loaded if none are held. */
  function HandleClear(l: Listing, books: GetBooksReducer.BooksState): (r: (Listing, seq<Request>))
    ensures r.0 == Start
    ensures |r.1| >= 1 && r.1[0] == ClearResults
    ensures |r.1| == 2 <==> |ListOr(books.data.books)| == 0
    ensures |r.1| == 2 ==> r.1[1] == BooksPage(1)
    ensures |r.1| <= 2
  {
    (Start, [ClearResults] + if |ListOr(books.data.books)| == 0 then [BooksPage(1)] else [])
  }

  /** `handlePageChange(page)`: the search's next page while a term is being searched, else the book list's. */
  function HandlePageChange(l: Listing, page: int): (r: Request)
    ensures l.isSearching && l.searchTerm != "" ==> r == SearchPage(l.searchTerm, page)
    ensures !(l.isSearching && l.searchTerm != "") ==> r == BooksPage(page)
  {
    if l.isSearching && l.searchTerm != "" then SearchPage(l.searchTerm, page) else BooksPage(page)
  }

  /** After a search, changing page asks for that page of the same term. */
  lemma PagingKeepsTheSearch(l: Listing, term: string, page: int)
    requires |Trim(term)| >= MinSearchLength
    ensures var (searching, first) := HandleSearch(l, term);
      first == Some(SearchPage(term, 1)) && HandlePageChange(searching, page) == SearchPage(term, page)
  {
    TrimNonEmpty(term);
  }

  lemma TrimNonEmpty(s: string)
    requires |Trim(s)| >= 1
    ensures s != ""
  {
  }

  /**
    A term that is not blank but shorter than three characters once trimmed
    sends no request, yet the page controls then search for it.
   */
  lemma ShortTermSearchedOnPaging(l: Listing, term: string, page: int)
    requires 1 <= |Trim(term)| < MinSearchLength
    ensures var (searching, first) := HandleSearch(l, term);
      first.None? && HandlePageChange(searching, page) == SearchPage(term, page)
  {
    TrimNonEmpty(term);
  }

  /** After clearing, the grid shows the book list and the search slice is back to its start. */
  lemma ClearShowsBooks(l: Listing, books: GetBooksReducer.BooksState, search: SearchBooksReducer.SearchState)
    ensures var (cleared, requests) := HandleClear(l, books);
      var after := SearchBooksReducer.Reduce(search, SearchBooksActions.ClearSearchResultsAction());
      after == SearchBooksReducer.Init && !View(cleared, books, after).fromSearch
      && View(cleared, books, after).books == books.data.books
  {
  }
}
