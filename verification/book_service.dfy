/**
  The book service.  It asks the API client for paths under `/books`; the
  client prefixes each path with `/v1` and joins it to the base address.
 */
module BookService {

  import opened Optional
  import opened Text
  import opened FormEncoding
  import opened BookParams
  import GetBooksActions
  import GetBookActions
  import SearchBooksActions
  import Urls

  const GenresPath: string := "/books/genres"

  /** The address the client requests for a service path. */
  function Address(base: string, path: string): string {
    Urls.CombineUrls(base, "/v1" + path)
  }

  /** A base address with no trailing slash is used by the client as it is. */
  predicate PlainBase(base: string) {
    base == [] || base[|base| - 1] != '/'
  }

  /**
    `getBooks(params)`: the path is `/books?` followed by the query the
    book-list action creator builds.
   */
  function GetBooksPath(p: BookListParams): (path: string)
    ensures |Urls.BooksUrl + "?"| <= |path| && path[..|Urls.BooksUrl + "?"|] == Urls.BooksUrl + "?"
    ensures Split(path[|Urls.BooksUrl + "?"|..], '&') == EncodePairs(GetBooksActions.BooksQuery(p))
  {
    var query := Serialize(GetBooksActions.BooksQuery(p));
    SerializeSplits(GetBooksActions.BooksQuery(p));
    assert (Urls.BooksUrl + "?" + query)[|Urls.BooksUrl + "?"|..] == query;
    Urls.BooksUrl + "?" + query
  }

  /**
    The service and the book-list action creator request the same address
    for the same parameters.
   */
  lemma ServiceMatchesAction(base: string, p: BookListParams)
    requires PlainBase(base)
    ensures Address(base, GetBooksPath(p)) == GetBooksActions.GetBooks(base, p).call.url
  {
    AddressOf(base, Urls.BooksUrl, "?", Serialize(GetBooksActions.BooksQuery(p)));
  }

  /** A rooted path is appended to a plain base right after `/v1`. */
  lemma AddressOf(base: string, a: string, b: string, c: string)
    requires PlainBase(base) && |a| >= 1 && a[0] == '/'
    ensures Address(base, a + b + c) == base + "/v1" + a + b + c
  {
    var relative := "/v1" + (a + b + c);
    assert relative[0] == '/' && relative[1] == 'v';
    Urls.CombineRooted(base, relative);
    PlainBaseKept(base);
  }

  lemma PlainBaseKept(base: string)
    requires PlainBase(base)
    ensures Urls.TrimBaseSlashes(base) == base
  {
  }

  /**
    `searchBooks(term, params)`: the book list with `search` set to the
    term, replacing any `search` field the caller's parameters carry.
   */
  function SearchBooksPath(term: string, p: BookListParams): (path: string)
  {
    GetBooksPath(p.(search := Some(term)))
  }

  /** The caller's own `search` field has no effect on a search. */
  lemma SearchOverridesParams(term: string, p: BookListParams, other: Option<string>)
    ensures SearchBooksPath(term, p) == SearchBooksPath(term, p.(search := other))
  {
    assert p.(search := other).(search := Some(term)) == p.(search := Some(term));
  }

  /**
    For a term with a non-blank character the service and the search action
    creator request the same address.
   */
  lemma SearchMatchesAction(base: string, term: string, p: BookListParams)
    requires PlainBase(base) && Trim(term) != ""
    ensures Address(base, SearchBooksPath(term, p))
      == SearchBooksActions.SearchBooks(base, term, PageParams(p.page, p.limit, p.skip)).call.url
  {
    var pp := PageParams(p.page, p.limit, p.skip);
    assert WithSearch(pp, term) == p.(search := Some(term));
    SearchBooksActions.SearchMatchesBookList(base, term, pp);
    ServiceMatchesAction(base, p.(search := Some(term)));
  }

  /** For a blank term the service sends no `search` parameter at all. */
  lemma BlankSearchOmitted(term: string, p: BookListParams)
    requires Trim(term) == ""
    ensures "search" !in Names(GetBooksActions.BooksQuery(p.(search := Some(term))))
  {
    GetBooksActions.BooksQueryNames(p.(search := Some(term)));
  }

  /** `getBookById(bookId)` */
  function BookByIdPath(bookId: string): (path: string)
    ensures |path| == |Urls.BooksUrl| + 1 + |bookId|
    ensures path[|Urls.BooksUrl| + 1..] == bookId
  {
    Urls.BooksUrl + "/" + bookId
  }

  /**
    The service fetches a book under `/v1` while the single-book action
    creator asks for it under `/api/v1`: the two addresses never coincide.
   */
  lemma BookAddressesDiffer(base: string, bookId: string)
    ensures Address(base, BookByIdPath(bookId)) != GetBookActions.GetBook(base, bookId).call.url
  {
    var service := Address(base, BookByIdPath(bookId));
    Urls.CombineRooted(base, "/v1" + BookByIdPath(bookId));
    assert |service| <= |base| + 3 + |BookByIdPath(bookId)|;
    assert |GetBookActions.GetBook(base, bookId).call.url| == |base| + 7 + |BookByIdPath(bookId)|;
  }
}
