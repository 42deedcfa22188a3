/** The table component's view state and its event handlers. The state
    hooks become fields, the memoised derivations become functions of the
    fields, and the effect that sends the view back to the first page
    whenever the global query, the column queries or the page size change
    becomes an explicit `page := 1` in the handlers that change them. */
module TableComponent {
  import opened TableSearch
  import opened TablePaging

  /** A column's search-box flag as the markup reads it: a key never set
      reads as `undefined`, which is falsy. */
  function IsOpen(flags: map<string, bool>, key: string): bool {
    key in flags && flags[key]
  }

  /** `{ ...prev, [key]: !prev[key] }`: the flag of `key` is flipped and
      every other entry stays as it was. */
  function Toggled(flags: map<string, bool>, key: string): (r: map<string, bool>)
    ensures IsOpen(r, key) == !IsOpen(flags, key)
    ensures key in r
    ensures forall k :: k != key ==> (k in r <==> k in flags)
    ensures forall k :: k != key && k in flags ==> r[k] == flags[k]
  {
    flags[key := !IsOpen(flags, key)]
  }

  /** Toggling a search box twice leaves it as it was. */
  lemma ToggleTwiceRestores(flags: map<string, bool>, key: string, other: string)
    ensures IsOpen(Toggled(Toggled(flags, key), key), other) == IsOpen(flags, other)
  {
    var once := Toggled(flags, key);
    if other != key && other in flags {
      assert once[other] == flags[other];
    }
  }

  class Table {
    // Props: replaced wholesale by the parent on a re-render.
    var columns: seq<Column>
    var data: seq<Row>
    // State hooks.
    var pageSize: nat
    var page: int
    var globalQuery: string
    var columnQueries: map<string, string>
    var openColumnSearches: map<string, bool>

    /** A positive page size (every offered size is positive) and a page
        number of at least one: every handler stores a page of at least one. */
    ghost predicate Valid()
      reads this`pageSize, this`page
    {
      pageSize > 0 && page >= 1
    }

    /** `filteredData`: never more rows than `data`, and all of `data` while
      every query is blank. */
    function Filtered(): (r: seq<Row>)
      reads this`data, this`columns, this`globalQuery, this`columnQueries
      ensures |r| <= |data|
      ensures |NormalizeQuery(globalQuery)| == 0 && (forall key :: key in columnQueries ==> |NormalizeQuery(columnQueries[key])| == 0) ==>
        r == data
    {
      // Both branches are `filteredData`; the first only brings in the lemma
      // that proves the blank-query postcondition.
      if |NormalizeQuery(globalQuery)| == 0 && (forall key :: key in columnQueries ==> |NormalizeQuery(columnQueries[key])| == 0) then
        BlankQueriesKeepAll(data, columns, globalQuery, columnQueries);
        FilteredData(data, columns, globalQuery, columnQueries)
      else
        FilteredData(data, columns, globalQuery, columnQueries)
    }

    /** `totalPages` */
    function PageCount(): (r: nat)
      reads this`data, this`columns, this`globalQuery, this`columnQueries, this`pageSize
      requires pageSize > 0
      ensures r >= 1
    {
      TotalPages(|Filtered()|, pageSize)
    }

    /** `safePage`: the page shown, always within range. */
    function ShownPage(): (r: nat)
      reads this
      requires Valid()
      ensures 1 <= r <= PageCount()
      ensures page <= PageCount() ==> r == page
      ensures page > PageCount() ==> r == PageCount()
    {
      SafePage(page, PageCount())
    }

    /** `pageData`: at most a page of rows, and some rows whenever any row
        passes the filter. */
    function PageRows(): (r: seq<Row>)
      reads this
      requires Valid()
      ensures |r| <= pageSize
      ensures r == [] <==> Filtered() == []
    {
      var rows := Filtered();
      // Both branches are `pageData`; the first only brings in the lemma
      // that proves a page in range is non-empty.
      if rows != [] then PageDataNonEmpty(rows, pageSize, ShownPage()); PageData(rows, pageSize, ShownPage())
      else PageData(rows, pageSize, ShownPage())
    }

    /** The footer's "Showing first-last of count" numbers. */
    function Showing(): (r: Footer)
      reads this
      requires Valid()
      ensures r.count == |Filtered()|
      ensures r.count == 0 ==> r.first == 0 && r.last == 0
      ensures r.count > 0 ==> 1 <= r.first <= r.last <= r.count && r.last - r.first + 1 == |PageRows()|
    {
      FooterDescribesPage(Filtered(), pageSize, ShownPage());
      FooterRange(|Filtered()|, pageSize, ShownPage())
    }

    /** First render: the default page size, page one, no queries and no
        open column search boxes. */
    constructor (columns: seq<Column>, data: seq<Row>, defaultPageSize: nat)
      requires defaultPageSize > 0
      ensures Valid()
      ensures this.columns == columns && this.data == data
      ensures pageSize == defaultPageSize && page == 1
      ensures globalQuery == "" && columnQueries == map[] && openColumnSearches == map[]
      ensures Filtered() == data
    {
      this.columns := columns;
      this.data := data;
      pageSize := defaultPageSize;
      page := 1;
      globalQuery := "";
      columnQueries := map[];
      openColumnSearches := map[];
      new;
      QueryBlankIffAllSpace("");
    }

    /** A re-render with new props. No effect depends on the props, so the
        stored page is kept and only the shown page is re-clamped. */
    method ReceiveProps(columns: seq<Column>, data: seq<Row>)
      requires Valid()
      modifies this`columns, this`data
      ensures Valid()
      ensures this.columns == columns && this.data == data
      ensures page == old(page)
    {
      this.columns := columns;
      this.data := data;
    }

    /** `handlePageChange`: the requested page clamped into
        `[1, totalPages]`, which is then also the page shown. */
    method HandlePageChange(nextPage: int)
      requires Valid()
      modifies this`page
      ensures Valid()
      ensures page == ClampPage(nextPage, PageCount())
      ensures ShownPage() == page
      ensures 1 <= nextPage <= PageCount() ==> page == nextPage
    {
      page := ClampPage(nextPage, PageCount());
    }

    /** The "Prev" button: one page back from the page shown. On the first
        page the button is disabled, so no click arrives and the stored page
        stays as it was, even when it lies beyond the page count. */
    method PreviousPage()
      requires Valid()
      modifies this`page
      ensures Valid()
      ensures old(ShownPage()) > 1 ==> page == old(ShownPage()) - 1
      ensures old(ShownPage()) == 1 ==> page == old(page)
    {
      if ShownPage() > 1 {
        HandlePageChange(ShownPage() - 1);
      }
    }

    /** The "Next" button: one page on from the page shown. On the last page
        the button is disabled, so no click arrives and the stored page stays
        as it was. */
    method NextPage()
      requires Valid()
      modifies this`page
      ensures Valid()
      ensures old(ShownPage()) < PageCount() ==> page == old(ShownPage()) + 1
      ensures old(ShownPage()) == PageCount() ==> page == old(page)
    {
      if ShownPage() < PageCount() {
        HandlePageChange(ShownPage() + 1);
      }
    }

    /** `handlePageSizeChange`: the new size, and back to page one. */
    method HandlePageSizeChange(nextSize: nat)
      requires Valid()
      requires nextSize > 0
      modifies this`pageSize, this`page
      ensures Valid()
      ensures pageSize == nextSize && page == 1 && ShownPage() == 1
    {
      pageSize := nextSize;
      page := 1;
    }

    /** The global search box's change handler followed by the page-reset
        effect, which fires only when the query actually changed. */
    method SetGlobalQuery(query: string)
      requires Valid()
      modifies this`globalQuery, this`page
      ensures Valid()
      ensures globalQuery == query
      ensures query != old(globalQuery) ==> page == 1 && ShownPage() == 1
      ensures query == old(globalQuery) ==> page == old(page)
    {
      if query != globalQuery {
        page := 1;
      }
      globalQuery := query;
    }

    /** `handleColumnQueryChange`: only `key`'s query is replaced and only
        `key`'s search box is marked open. The update always builds a new
        record, so the page-reset effect always fires. */
    method HandleColumnQueryChange(key: string, value: string)
      requires Valid()
      modifies this`columnQueries, this`openColumnSearches, this`page
      ensures Valid()
      ensures columnQueries == old(columnQueries)[key := value]
      ensures openColumnSearches == old(openColumnSearches)[key := true]
      ensures page == 1 && ShownPage() == 1
    {
      columnQueries := columnQueries[key := value];
      openColumnSearches := openColumnSearches[key := true];
      page := 1;
    }

    /** `toggleColumnSearch`: only `key`'s flag flips; the queries and the
        page are untouched. */
    method ToggleColumnSearch(key: string)
      requires Valid()
      modifies this`openColumnSearches
      ensures Valid()
      ensures openColumnSearches == Toggled(old(openColumnSearches), key)
      ensures IsOpen(openColumnSearches, key) == !old(IsOpen(openColumnSearches, key))
    {
      openColumnSearches := Toggled(openColumnSearches, key);
    }
  }

  /** Twelve rows, five to a page: asking for page ten shows page three,
      which holds the last two rows, "11-12 of 12". */
  method TwelveRowsExample(columns: seq<Column>, data: seq<Row>)
    requires |data| == 12
  {
    var table := new Table(columns, data, 10);
    table.HandlePageSizeChange(5);
    table.HandlePageChange(10);
    assert table.PageCount() == 3;
    assert table.page == 3 && table.ShownPage() == 3;
    assert |table.PageRows()| == 2;
    assert table.Showing() == Footer(11, 12, 12);
  }

  /** Fifteen rows, five to a page, on page three. The parent then passes
      three rows, so page one is shown and "Prev" is disabled: pressing it
      changes nothing, and once the fifteen rows come back page three is
      shown again. */
  method StoredPageOutlivesShorterData(columns: seq<Column>, data: seq<Row>)
    requires |data| == 15
  {
    var table := new Table(columns, data, 5);
    table.HandlePageChange(3);
    assert table.page == 3;
    table.ReceiveProps(columns, data[..3]);
    assert table.ShownPage() == 1;
    table.PreviousPage();
    assert table.page == 3;
    table.ReceiveProps(columns, data);
    assert table.ShownPage() == 3;
  }
}
