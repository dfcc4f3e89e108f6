/**
  The page-number strip under the book grid: which page numbers and
  ellipses are shown for the current page, which page each control asks
  for, and the "Showing X to Y of Z" range.
 */
module Pagination {

  import opened Optional

  const MaxVisiblePages: int := 5

  /** One entry of the strip: a page number or an ellipsis. */
  datatype Entry = PageNo(n: int) | Ellipsis

  /** `for (let i = lo; i <= hi; i++) visiblePages.push(i)` */
  function PageRun(lo: int, hi: int): (r: seq<Entry>)
    ensures |r| == if hi < lo then 0 else hi - lo + 1
    ensures forall k :: 0 <= k < |r| ==> r[k] == PageNo(lo + k)
    decreases hi - lo + 1
  {
    if hi < lo then [] else [PageNo(lo)] + PageRun(lo + 1, hi)
  }

  function Max(a: int, b: int): int { if a >= b then a else b }
  function Min(a: int, b: int): int { if a <= b then a else b }

  /** The first and last page of the middle run when there are more than five pages. */
  function Window(current: int, total: int): (w: (int, int))
    requires total > MaxVisiblePages
    ensures 2 <= w.0 && w.1 == w.0 + 2 && w.1 <= total - 1
  {
    var start := Max(2, current - 1);
    var end := Min(total - 1, current + 1);
    if current <= 3 then (start, Min(total - 1, 4))
    else if current >= total - 2 then (Max(2, total - 3), end)
    else (start, end)
  }

  /**
    A strip a reader can follow: it starts and ends with a page, every page
    lies in 1..total, neighbouring pages are consecutive, and an ellipsis
    stands between two pages at least two apart.
   */
  predicate WellFormed(r: seq<Entry>, total: int) {
    |r| >= 1 && r[0].PageNo? && r[|r| - 1].PageNo?
    && (forall i :: 0 <= i < |r| && r[i].PageNo? ==> 1 <= r[i].n <= total)
    && (forall i :: 0 <= i < |r| - 1 && r[i].PageNo? && r[i + 1].PageNo? ==> r[i + 1].n == r[i].n + 1)
    && (forall i :: 0 < i < |r| - 1 && r[i].Ellipsis? ==>
          r[i - 1].PageNo? && r[i + 1].PageNo? && r[i + 1].n >= r[i - 1].n + 2)
  }

  /** `getVisiblePages()` */
  function VisiblePages(current: int, total: int): (r: seq<Entry>)
    // up to five pages are all shown, in order, with no ellipsis
    ensures total <= MaxVisiblePages ==> r == PageRun(1, total)
    // beyond that: the first and last page, three around the current one, and at most two ellipses
    ensures total > MaxVisiblePages ==> 5 <= |r| <= 7 && r[0] == PageNo(1) && r[|r| - 1] == PageNo(total)
    ensures total >= 1 ==> WellFormed(r, total)
    ensures 1 <= current <= total ==> PageNo(current) in r
  {
    if total <= MaxVisiblePages then
      var r := PageRun(1, total);
      RunWellFormed(total);
      assert 1 <= current <= total ==> r[current - 1] == PageNo(current);
      r
    else
      var (start, end) := Window(current, total);
      assert PageRun(start, end) == [PageNo(start), PageNo(start + 1), PageNo(end)];
      var r := Strip(start, total);
      assert 1 <= current <= total ==> current == 1 || current == total || current in {start, start + 1, end};
      r
  }

  /**
    The strip for more than five pages, the middle run being
    start..start + 2: an ellipsis goes on each side exactly where the run
    leaves a gap to the first or the last page.
   */
  function Strip(start: int, total: int): (r: seq<Entry>)
    requires 2 <= start && start + 2 <= total - 1
    ensures 5 <= |r| <= 7 && r[0] == PageNo(1) && r[|r| - 1] == PageNo(total)
    ensures WellFormed(r, total)
    ensures forall p :: p in {start, start + 1, start + 2} ==> PageNo(p) in r
    ensures (Ellipsis in r) <==> start > 2 || start + 2 < total - 1
  {
    if start > 2 && start + 2 < total - 1 then
      var r := [PageNo(1), Ellipsis, PageNo(start), PageNo(start + 1), PageNo(start + 2), Ellipsis, PageNo(total)];
      GapBothSides(r, start, total);
      r
    else if start > 2 then
      var r := [PageNo(1), Ellipsis, PageNo(start), PageNo(start + 1), PageNo(start + 2), PageNo(total)];
      GapBeforeOnly(r, start, total);
      r
    else if start + 2 < total - 1 then
      var r := [PageNo(1), PageNo(start), PageNo(start + 1), PageNo(start + 2), Ellipsis, PageNo(total)];
      GapAfterOnly(r, start, total);
      r
    else
      var r := [PageNo(1), PageNo(start), PageNo(start + 1), PageNo(start + 2), PageNo(total)];
      NoGap(r, start, total);
      r
  }

  lemma GapBothSides(r: seq<Entry>, start: int, total: int)
    requires 2 < start && start + 2 < total - 1
    requires r == [PageNo(1), Ellipsis, PageNo(start), PageNo(start + 1), PageNo(start + 2), Ellipsis, PageNo(total)]
    ensures WellFormed(r, total)
  {
  }

  lemma GapBeforeOnly(r: seq<Entry>, start: int, total: int)
    requires 2 < start && start + 2 == total - 1
    requires r == [PageNo(1), Ellipsis, PageNo(start), PageNo(start + 1), PageNo(start + 2), PageNo(total)]
    ensures WellFormed(r, total)
  {
  }

  lemma GapAfterOnly(r: seq<Entry>, start: int, total: int)
    requires 2 == start && start + 2 < total - 1
    requires r == [PageNo(1), PageNo(start), PageNo(start + 1), PageNo(start + 2), Ellipsis, PageNo(total)]
    ensures WellFormed(r, total)
  {
  }

  lemma NoGap(r: seq<Entry>, start: int, total: int)
    requires 2 == start && start + 2 == total - 1
    requires r == [PageNo(1), PageNo(start), PageNo(start + 1), PageNo(start + 2), PageNo(total)]
    ensures WellFormed(r, total)
  {
  }

  /** All pages 1..total, shown consecutively, make a well-formed strip. */
  lemma RunWellFormed(total: int)
    ensures total >= 1 ==> WellFormed(PageRun(1, total), total)
  {
  }

  /** Pages further along the strip have higher numbers, so no page is shown twice. */
  lemma {:induction false} Increasing(r: seq<Entry>, total: int, i: int, j: int)
    requires WellFormed(r, total)
    requires 0 <= i < j < |r| && r[i].PageNo? && r[j].PageNo?
    ensures r[i].n < r[j].n
    decreases j - i
  {
    if r[i + 1].PageNo? {
      if i + 1 < j {
        Increasing(r, total, i + 1, j);
      }
    } else {
      assert 0 < i + 1 < |r| - 1;
      if i + 2 < j {
        Increasing(r, total, i + 2, j);
      }
    }
  }

  /** Numbers on the strip strictly increase from left to right, for any current page. */
  lemma VisiblePagesIncrease(current: int, total: int)
    requires total >= 1
    ensures var r := VisiblePages(current, total);
      forall i, j :: 0 <= i < j < |r| && r[i].PageNo? && r[j].PageNo? ==> r[i].n < r[j].n
  {
    var r := VisiblePages(current, total);
    forall i, j | 0 <= i < j < |r| && r[i].PageNo? && r[j].PageNo? ensures r[i].n < r[j].n {
      Increasing(r, total, i, j);
    }
  }

  /** Nothing is rendered for a single page or none; otherwise the strip. */
  function Controls(current: int, total: int): (r: Option<seq<Entry>>)
    ensures r.None? <==> total <= 1
    ensures r.Some? ==> WellFormed(r.value, total) && |r.value| >= 2
  {
    if total <= 1 then None else Some(VisiblePages(current, total))
  }

  /** `handlePageClick(page)`: the page asked for, if any. */
  function PageClick(entry: Entry, current: int, loading: bool): (request: Option<int>)
    ensures request.Some? <==> entry.PageNo? && entry.n != current && !loading
    ensures request.Some? ==> request.value == entry.n
  {
    if entry.PageNo? && entry.n != current && !loading then Some(entry.n) else None
  }

  /** Clicking an entry of the strip asks, at most, for another page that exists. */
  lemma ClickStaysInRange(current: int, total: int, loading: bool, k: int)
    requires total >= 1 && 0 <= k < |VisiblePages(current, total)|
    ensures var request := PageClick(VisiblePages(current, total)[k], current, loading);
      request.Some? ==> 1 <= request.value <= total && request.value != current
  {
  }

  /** `handlePrevious()` */
  function Previous(current: int, hasPrevPage: bool, loading: bool): (request: Option<int>)
    ensures request.Some? <==> hasPrevPage && !loading
    ensures request.Some? ==> request.value + 1 == current
  {
    if hasPrevPage && !loading then Some(current - 1) else None
  }

  /** `handleNext()` */
  function Next(current: int, hasNextPage: bool, loading: bool): (request: Option<int>)
    ensures request.Some? <==> hasNextPage && !loading
    ensures request.Some? ==> request.value == current + 1
  {
    if hasNextPage && !loading then Some(current + 1) else None
  }

  /** `startItem` and `endItem` of the "Showing X to Y of Z" line. */
  function ItemRange(current: int, itemsPerPage: int, totalItems: int): (range: (int, int))
    ensures range.1 <= totalItems
    ensures range.1 <= current * itemsPerPage
    ensures range.1 == current * itemsPerPage || range.1 == totalItems
  {
    ((current - 1) * itemsPerPage + 1, Min(current * itemsPerPage, totalItems))
  }

  /**
    On a page that holds at least one item, the range is non-empty and
    spans at most one page's worth of items.
   */
  lemma ItemRangeFits(current: int, itemsPerPage: int, totalItems: int)
    requires current >= 1 && itemsPerPage >= 1
    requires totalItems > (current - 1) * itemsPerPage
    ensures var (first, last) := ItemRange(current, itemsPerPage, totalItems);
      1 <= first <= last <= totalItems && last - first + 1 <= itemsPerPage
  {
    var (first, last) := ItemRange(current, itemsPerPage, totalItems);
    assert current * itemsPerPage == (current - 1) * itemsPerPage + itemsPerPage;
    assert (current - 1) * itemsPerPage >= 0;
  }
}
