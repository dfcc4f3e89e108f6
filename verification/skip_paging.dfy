/**
  The offset-to-page conversion shared by the favourites and user-reviews
  request builders: the server pages from 1, the client counts an offset.
 */
module SkipPaging {

  import opened JsNumber

  /** `Math.floor(skip / limit) + 1`: the 1-based page on which the item at offset `skip` falls. */
  function PageOf(skip: int, limit: int): (page: Number)
    ensures limit != 0 <==> page.Finite?
    ensures limit > 0 ==> (page.n - 1) * limit <= skip < page.n * limit
    ensures limit == 0 && skip == 0 ==> page == NaN
    ensures limit == 0 && skip > 0 ==> page == PosInfinity
  {
    Add(FloorDiv(skip, limit), 1)
  }

  /** An offset that is a whole number of pages lands at the start of the next page. */
  lemma {:induction false} PageOfMultiple(k: int, limit: int)
    requires limit > 0
    ensures PageOf(k * limit, limit) == Finite(k + 1)
  {
    var p := PageOf(k * limit, limit).n;
    assert (p - 1) * limit <= k * limit < p * limit;
  }

  /** Advancing the offset by one page size advances the requested page by one. */
  lemma {:induction false} NextPage(skip: int, limit: int)
    requires limit > 0
    ensures PageOf(skip + limit, limit).n == PageOf(skip, limit).n + 1
  {
    var p := PageOf(skip, limit).n;
    var q := PageOf(skip + limit, limit).n;
    assert (q - 2) * limit == (q - 1) * limit - limit;
    assert (q - 1) * limit == q * limit - limit;
    LessTimes(p - 1, q - 1, limit);
    LessTimes(q - 2, p, limit);
  }

  /** Multiplication by a positive number reflects the order. */
  lemma LessTimes(u: int, v: int, c: int)
    requires c > 0 && u * c < v * c
    ensures u < v
  {
  }
}
