/** The pagination half of the generic table component: the page count,
    the clamped current page, the slice of rows shown, and the
    "Showing first-last of count" footer. */
module TablePaging {

  function Min(a: int, b: int): int {
    if a <= b then a else b
  }

  function Max(a: int, b: int): int {
    if a >= b then a else b
  }

  /** `Math.ceil(count / pageSize)` for a non-negative count. */
  function CeilDiv(count: nat, pageSize: nat): (r: nat)
    requires pageSize > 0
    ensures r * pageSize >= count
    ensures count > 0 ==> (r - 1) * pageSize < count
    ensures count == 0 ==> r == 0
  {
    var q := (count + pageSize - 1) / pageSize;
    assert q * pageSize + (count + pageSize - 1) % pageSize == count + pageSize - 1;
    q
  }

  /** `totalPages = Math.max(1, Math.ceil(count / pageSize))`: at least one
      page, and just enough pages of `pageSize` rows to hold `count` rows. */
  function TotalPages(count: nat, pageSize: nat): (r: nat)
    requires pageSize > 0
    ensures r >= 1
    ensures count == 0 ==> r == 1
    ensures count > 0 ==> (r - 1) * pageSize < count <= r * pageSize
  {
    Max(1, CeilDiv(count, pageSize))
  }

  /** `safePage = Math.min(page, totalPages)`: the page actually shown. */
  function SafePage(page: int, totalPages: nat): (r: int)
    ensures r <= totalPages
    ensures page <= totalPages ==> r == page
    ensures page > totalPages ==> r == totalPages
    ensures page >= 1 && totalPages >= 1 ==> 1 <= r
  {
    Min(page, totalPages)
  }

  /** `Math.min(Math.max(nextPage, 1), totalPages)`: the page a navigation
      request is clamped to. */
  function ClampPage(nextPage: int, totalPages: nat): (r: int)
    requires totalPages >= 1
    ensures 1 <= r <= totalPages
    ensures 1 <= nextPage <= totalPages ==> r == nextPage
    ensures nextPage < 1 ==> r == 1
    ensures nextPage > totalPages ==> r == totalPages
  {
    Min(Max(nextPage, 1), totalPages)
  }

  /** `s.slice(start, end)` for non-negative arguments: both bounds are cut
      down to the length, and an empty range gives the empty sequence. */
  function Slice<T>(s: seq<T>, start: nat, end: nat): (r: seq<T>)
    ensures |r| == Max(0, Min(end, |s|) - Min(start, |s|))
    ensures forall i :: 0 <= i < |r| ==> start + i < |s| && r[i] == s[start + i]
  {
    var lo, hi := Min(start, |s|), Min(end, |s|);
    if lo <= hi then s[lo..hi] else []
  }

  /** Index in the filtered rows of the first row of page `safePage`. */
  function PageStart(pageSize: nat, safePage: nat): nat
    requires safePage >= 1
  {
    (safePage - 1) * pageSize
  }

  /** `pageData = filteredData.slice(start, start + pageSize)`: at most
      `pageSize` rows, the ones that follow the previous pages' rows. */
  function PageData<T>(rows: seq<T>, pageSize: nat, safePage: nat): (r: seq<T>)
    requires safePage >= 1
    ensures |r| <= pageSize
    ensures forall i :: 0 <= i < |r| ==> PageStart(pageSize, safePage) + i < |rows| && r[i] == rows[PageStart(pageSize, safePage) + i]
    ensures PageStart(pageSize, safePage) <= |rows| ==> |r| == Min(pageSize, |rows| - PageStart(pageSize, safePage))
  {
    var start := PageStart(pageSize, safePage);
    Slice(rows, start, start + pageSize)
  }

  /** The footer's "Showing first-last of count" numbers. */
  datatype Footer = Footer(first: int, last: int, count: nat)

  /** `count` rows in all; none shows "0-0"; otherwise, for a page that
      starts inside the rows, a range from the page's first row, counted
      from one, that covers a full page or the rest of the rows. */
  function FooterRange(count: nat, pageSize: nat, safePage: nat): (r: Footer)
    ensures r.count == count
    ensures count == 0 ==> r.first == 0 && r.last == 0
    ensures count > 0 && pageSize > 0 && safePage >= 1 && (safePage - 1) * pageSize < count ==>
      && 1 <= r.first <= r.last <= count
      && r.first == (safePage - 1) * pageSize + 1
      && r.last - r.first + 1 == Min(pageSize, count - (safePage - 1) * pageSize)
  {
    assert safePage * pageSize == (safePage - 1) * pageSize + pageSize;
    Footer(if count == 0 then 0 else (safePage - 1) * pageSize + 1, Min(safePage * pageSize, count), count)
  }

  lemma MulMonotone(a: nat, b: nat, c: nat)
    requires a <= b
    ensures a * c <= b * c
  {
  }

  /** A page within range always starts inside the rows, so it is never
      empty while there are rows. */
  lemma PageDataNonEmpty<T>(rows: seq<T>, pageSize: nat, safePage: nat)
    requires pageSize > 0
    requires rows != []
    requires 1 <= safePage <= TotalPages(|rows|, pageSize)
    ensures PageStart(pageSize, safePage) < |rows|
    ensures PageData(rows, pageSize, safePage) != []
  {
    MulMonotone(safePage - 1, TotalPages(|rows|, pageSize) - 1, pageSize);
  }

  /** Integer division is determined by quotient and remainder. */
  lemma DivUnique(x: nat, d: nat, q: nat, r: nat)
    requires d > 0 && r < d && x == q * d + r
    ensures x / d == q && x % d == r
  {
    var q', r' := x / d, x % d;
    assert x == q' * d + r';
    if q' > q {
      MulMonotone(q + 1, q', d);
    } else if q' < q {
      MulMonotone(q' + 1, q, d);
    }
  }

  /** Every row of the filtered result is shown on some page within range:
      row `j` is row `j % pageSize` of page `j / pageSize + 1`. */
  lemma EveryRowOnAPage<T>(rows: seq<T>, pageSize: nat, j: nat)
    requires pageSize > 0
    requires j < |rows|
    ensures 1 <= j / pageSize + 1 <= TotalPages(|rows|, pageSize)
    ensures j % pageSize < |PageData(rows, pageSize, j / pageSize + 1)|
    ensures PageData(rows, pageSize, j / pageSize + 1)[j % pageSize] == rows[j]
  {
    var p, i := j / pageSize + 1, j % pageSize;
    var total := TotalPages(|rows|, pageSize);
    assert PageStart(pageSize, p) + i == j;
    if p > total {
      MulMonotone(total, p - 1, pageSize);
      assert false;
    }
  }

  /** ...and on no other page: the row at position `i` of page `p` has
      index `j` with `j / pageSize + 1 == p`. */
  lemma ShownRowBelongsToPage<T>(rows: seq<T>, pageSize: nat, p: nat, i: nat)
    requires pageSize > 0 && p >= 1
    requires i < |PageData(rows, pageSize, p)|
    ensures (PageStart(pageSize, p) + i) / pageSize + 1 == p
  {
    DivUnique(PageStart(pageSize, p) + i, pageSize, p - 1, i);
  }

  /** The footer describes the page shown: "0-0 of 0" when no row passes
      the filter, and otherwise a non-empty range inside the rows whose
      first number is the page's first row (counted from one) and whose
      length is the number of rows on the page. */
  lemma FooterDescribesPage<T>(rows: seq<T>, pageSize: nat, safePage: nat)
    requires pageSize > 0
    requires 1 <= safePage <= TotalPages(|rows|, pageSize)
    ensures rows == [] ==> FooterRange(|rows|, pageSize, safePage) == Footer(0, 0, 0)
    ensures rows != [] ==>
      var footer := FooterRange(|rows|, pageSize, safePage);
      && 1 <= footer.first <= footer.last <= footer.count == |rows|
      && footer.first == PageStart(pageSize, safePage) + 1
      && footer.last - footer.first + 1 == |PageData(rows, pageSize, safePage)|
  {
    if rows != [] {
      PageDataNonEmpty(rows, pageSize, safePage);
    }
  }
}
