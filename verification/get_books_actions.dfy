/** The book-list request builder and the two book-list action creators. */
module GetBooksActions {

  import opened Json
  import opened Optional
  import opened Text
  import opened FormEncoding
  import opened Redux
  import opened BookParams
  import Urls

  const GetBooksTypes: Types := Types("GET_BOOKS_REQUEST", "GET_BOOKS_SUCCESS", "GET_BOOKS_FAILURE")
  const UpdateBooksTask: string := "UPDATE_BOOKS_TASK"
  const UpdateBookInList: string := "UPDATE_BOOK_IN_LIST"

  const DefaultPage: int := 1
  const DefaultLimit: int := 12

  /** `search && search.trim()`: a search term is sent only when it has a non-blank character. */
  predicate HasSearch(search: Option<string>) {
    search.Some? && search.value != "" && Trim(search.value) != ""
  }

  /** The query parameters of a book-list request, in the order they are appended. */
  function BooksQuery(p: BookListParams): (q: seq<Param>)
    ensures 2 <= |q| <= 3
    // skip replaces page whenever it is given
    ensures p.skip.Some? ==> q[0] == Param("skip", IntToString(p.skip.value))
    ensures p.skip.None? ==> q[0] == Param("page", IntToString(p.page.GetOr(DefaultPage)))
    // limit is always present, right after skip or page
    ensures q[1] == Param("limit", IntToString(p.limit.GetOr(DefaultLimit)))
    // the trimmed search term is last, and only when it is not blank
    ensures |q| == 3 <==> Trim(p.search.GetOr("")) != ""
    ensures |q| == 3 ==> p.search.Some? && q[2] == Param("search", Trim(p.search.value))
  {
    var first :=
      if p.skip.Some? then Param("skip", IntToString(p.skip.value))
      else Param("page", IntToString(p.page.GetOr(DefaultPage)));
    var paging := [first, Param("limit", IntToString(p.limit.GetOr(DefaultLimit)))];
    SearchIffNotBlank(p.search);
    if HasSearch(p.search) then paging + [Param("search", Trim(p.search.value))] else paging
  }

  /** The `search &&` guard adds nothing to the blank test: the empty term trims to itself. */
  lemma SearchIffNotBlank(search: Option<string>)
    ensures HasSearch(search) <==> Trim(search.GetOr("")) != ""
  {
    assert Trim("") == "";
  }

  /** Exactly one of `skip` and `page` is sent, and `search` only for a non-blank term. */
  lemma BooksQueryNames(p: BookListParams)
    ensures "skip" in Names(BooksQuery(p)) <==> p.skip.Some?
    ensures "page" in Names(BooksQuery(p)) <==> p.skip.None?
    ensures "limit" in Names(BooksQuery(p))
    ensures "search" in Names(BooksQuery(p)) <==> Trim(p.search.GetOr("")) != ""
  {
    var q := BooksQuery(p);
    var first := if p.skip.Some? then "skip" else "page";
    var hasSearch := |q| == 3;
    var names := Names(q);
    assert q[0].name == first;
    assert |names| == (if hasSearch then 3 else 2) && names[0] == first && names[1] == "limit";
    assert hasSearch ==> names[2] == "search";
    DistinctNames();
    InNames(names, first, hasSearch, "skip");
    InNames(names, first, hasSearch, "page");
    InNames(names, first, hasSearch, "limit");
    InNames(names, first, hasSearch, "search");
  }

  /** Membership in the two or three names a book-list query has. */
  lemma InNames(names: seq<string>, first: string, hasSearch: bool, x: string)
    requires |names| == (if hasSearch then 3 else 2) && names[0] == first && names[1] == "limit"
    requires hasSearch ==> names[2] == "search"
    ensures x in names <==> x == first || x == "limit" || (hasSearch && x == "search")
  {
  }

  lemma DistinctNames()
    ensures "skip" != "page" && "skip" != "limit" && "skip" != "search"
    ensures "page" != "limit" && "page" != "search" && "limit" != "search"
  {
    assert "skip"[0] != "page"[0] && "skip"[0] != "limit"[0];
    assert "search"[0] == "skip"[0] && "search"[1] != "skip"[1];
    assert "page"[0] != "limit"[0] && "page"[0] != "search"[0] && "limit"[0] != "search"[0];
  }

  /** `getBooks(params)` */
  function GetBooks(base: string, p: BookListParams): (d: Dispatched)
    ensures d.Call? && d.call.types == GetBooksTypes && d.call.verb == GET && d.call.data == Undefined
    ensures d.call.url == base + "/v1" + Urls.BooksUrl + "?" + Serialize(BooksQuery(p))
    ensures d.actionData == ActionData("Fetch Books Failed", map[])
  {
    var query := Serialize(BooksQuery(p));
    var path := base + "/v1" + Urls.BooksUrl;
    SerializeNonEmpty(BooksQuery(p));
    var url := if query != "" then path + "?" + query else path;
    Call(ApiCall(GetBooksTypes, url, GET, Undefined), ActionData("Fetch Books Failed", map[]))
  }

  /** The query of a book-list URL reads back, split on `&`, as the serialised parameters. */
  lemma GetBooksQueryReadsBack(base: string, p: BookListParams)
    ensures var url := GetBooks(base, p).call.url;
      var prefix := base + "/v1" + Urls.BooksUrl + "?";
      |prefix| <= |url| && url[..|prefix|] == prefix
      && Split(url[|prefix|..], '&') == EncodePairs(BooksQuery(p))
  {
    var url := GetBooks(base, p).call.url;
    var prefix := base + "/v1" + Urls.BooksUrl + "?";
    assert url[|prefix|..] == Serialize(BooksQuery(p));
    SerializeSplits(BooksQuery(p));
  }

  /** `updateBooksTask(task)` */
  function UpdateBooksTaskAction(task: Json): (a: Action)
    ensures a.Is(UpdateBooksTask) && a.Field("response") == task
  {
    WithResponse(UpdateBooksTask, task)
  }

  /** `updateBookInList(book)`: the book is carried unchanged under `book`. */
  function UpdateBookInListAction(book: Json): (a: Action)
    ensures a.Is(UpdateBookInList) && a.Field("book") == book
    ensures a.fields.Keys == {"type", "book"}
  {
    Action(map["type" := Str(UpdateBookInList), "book" := book])
  }
}
