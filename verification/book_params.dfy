/** The optional paging and search parameters of a book-list request. */
module BookParams {

  import opened Optional

  /** `{ page?, limit?, search?, skip? }`; `None` is an absent (undefined) field. */
  datatype BookListParams = BookListParams(page: Option<int>, limit: Option<int>, search: Option<string>, skip: Option<int>)

  const NoParams: BookListParams := BookListParams(None, None, None, None)

  /** The same parameters without a search term, for requests that take the term separately. */
  datatype PageParams = PageParams(page: Option<int>, limit: Option<int>, skip: Option<int>)

  /** `{ ...params, search: term }` */
  function WithSearch(pp: PageParams, term: string): (p: BookListParams)
    ensures p.page == pp.page && p.limit == pp.limit && p.skip == pp.skip && p.search == Some(term)
  {
    BookListParams(pp.page, pp.limit, Some(term), pp.skip)
  }
}
