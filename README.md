# Generic table view engine

This project models the view logic of the dashboard's generic `Table`
component (`src/common-component/Table.tsx`). The component takes column
descriptors and rows, and decides two things: which rows survive a global
search and the per-column searches, and which page of those rows is shown.
It also keeps the paging state consistent when the user types a query,
changes the page size or moves between pages.

The modules follow the component's structure:

- `Options` declares the optional value used for a column's optional
  flag and override, and for the result of `find`.
- `JsText` covers the string operations the filter is built from:
  `trim`, `toLowerCase` and `includes`. `Lower`, `TrimStart` and `TrimEnd`
  are recursive functions whose pointwise meaning is proved in separate
  lemmas.
- `JsArray` covers `filter`, `some` and `find` on sequences. It proves that
  `filter` keeps the order, keeps each element as often as it occurs, and
  narrows under a stronger predicate.
- `TableSearch` covers the filtering:
  - a column's search value (`getColumnSearchValue`);
  - query normalisation;
  - the `filteredData` derivation as a function;
  - the row callback with its early-exit loop over the column queries, as a
    method proved equal to that function;
  - lemmas that read the filter back in terms of the columns.
- `TablePaging` covers the arithmetic: `totalPages`, `safePage`,
  `pageData`, the clamping in `handlePageChange` and the footer numbers.
- `TableComponent` holds the component as a class:
  - the state hooks are fields;
  - the memoised derivations are functions of the fields;
  - every event handler is a method that states the whole new state;
  - the page-reset effect on `[globalQuery, columnQueries, pageSize]` is
    written out as `page := 1` in the handlers that change those values.
- `CasesPanel` covers the case panel's column configuration, in
  `src/components/dashboard/CasesPanel.tsx`. It is the subject of the
  finding below.

What the component does not do matters as much as what it does:

- The component has no sorting, no range filters and no action that clears
  the filters. The case panel passes `accessor`, `type`, `sortable` and
  `filter` on its columns, but the table never reads them.
- Replacing `data` keeps the stored page, because no effect depends on the
  props. Only the page shown is clamped again (`Table.ReceiveProps`).

## Model

| member | source | states |
|---|---|---|
| JsText.Lower | src/common-component/Table.tsx:76 | lower-casing keeps the length |
| JsText.Trim | src/common-component/Table.tsx:65 | trimming never lengthens, and the result neither starts nor ends with whitespace |
| JsText.Contains | src/common-component/Table.tsx:77 | the empty query is contained in every text, and a query longer than the text never is |
| JsText.LowerAt | src/common-component/Table.tsx:76 | lower-casing keeps the length and maps each character on its own |
| JsText.TrimStartSpec | src/common-component/Table.tsx:65 | trimming the start removes a prefix made only of whitespace and leaves no leading whitespace |
| JsText.TrimEndSpec | src/common-component/Table.tsx:65 | trimming the end removes a suffix made only of whitespace and leaves no trailing whitespace |
| JsText.TrimBlankIffAllSpace | src/common-component/Table.tsx:68-69 | a string trims to empty exactly when every character is whitespace |
| JsText.ContainsIffOccurs | src/common-component/Table.tsx:77 | `includes` holds exactly when the query occurs at some position of the text |
| JsText.ContainsTransitive | src/common-component/Table.tsx:92 | text containing a string contains every substring of that string |
| JsText.TrimPrefixOfAppend | src/common-component/Table.tsx:65 | the trimmed query is a prefix of the trimmed query with characters appended |
| JsText.LowerPrefix | src/common-component/Table.tsx:65 | lower-casing keeps the prefix relation |
| JsArray.Filter | src/common-component/Table.tsx:72 | the filtered array is no longer than the input, and every element in it satisfies the predicate |
| JsArray.AnyMatch | src/common-component/Table.tsx:74 | `some` holds exactly when some element satisfies the predicate |
| JsArray.FindIndex | src/common-component/Table.tsx:87 | `find` returns the first element satisfying the predicate, and returns nothing exactly when no element does |
| JsArray.FilterIsSubsequence | src/common-component/Table.tsx:72 | the filter keeps elements in their order and never alters one |
| JsArray.FilterCounts | src/common-component/Table.tsx:72 | the filter keeps every occurrence of an element that passes and none of an element that fails |
| JsArray.FilterMembership | src/common-component/Table.tsx:72 | an element is in the filtered array exactly when it is in the input and passes |
| JsArray.FilterNarrows | src/common-component/Table.tsx:72 | a stronger predicate keeps a subsequence of what a weaker one keeps |
| JsArray.AnyMatchOfFilter | src/common-component/Table.tsx:74 | `some` over the filtered columns holds exactly when some column passes both tests |
| TableSearch.ColumnSearchValue | src/common-component/Table.tsx:52-62 | the override decides when present; otherwise the field's text, or `""` when the field is missing, `null` or `undefined` |
| TableSearch.NormalizeQuery | src/common-component/Table.tsx:65 | the normalised query is never longer than the query and neither starts nor ends with whitespace |
| TableSearch.FilteredData | src/common-component/Table.tsx:64-99 | never more rows than the data, and every row in it passes the filter callback |
| TableSearch.QueryBlankIffAllSpace | src/common-component/Table.tsx:65 | a query normalises to empty exactly when it is all whitespace |
| TableSearch.NormalizeColumnQueries | src/common-component/Table.tsx:66-70 | a key stays exactly when its query normalises to something non-empty, and it maps to the normalised query |
| TableSearch.ColumnIndex | src/common-component/Table.tsx:87 | the first column with the key, or none exactly when no column has the key |
| TableSearch.RowPassesFilters | src/common-component/Table.tsx:72-98 | the row callback, with its early exits, returns exactly the filter predicate |
| TableSearch.FilteredDataSelectsRows | src/common-component/Table.tsx:72-98 | the result keeps the data's order, and keeps each row as often as it occurs when it passes and never otherwise |
| TableSearch.MatchesGlobalMeaning | src/common-component/Table.tsx:73-81 | the global test holds exactly when some searchable column's lower-cased value contains the query |
| TableSearch.MatchesColumnQueriesMeaning | src/common-component/Table.tsx:84-95 | the column-query loop passes exactly when every non-blank query on a known column is contained in that column |
| TableSearch.KeepRowMeaning | src/common-component/Table.tsx:64-98 | a row is kept exactly when the global query is blank or matches a searchable column, and every column query is contained |
| TableSearch.LoneColumnQuery | src/common-component/Table.tsx:84-95 | with a blank global query and one column query on a key that names a column, a row is kept exactly when the query is blank or the first column with that key contains it |
| TableSearch.BlankQueriesKeepAll | src/common-component/Table.tsx:64-73 | blank queries keep every row, in order |
| TableSearch.GlobalQueryNeedsSearchableMatch | src/common-component/Table.tsx:73-81 | with a non-blank global query, every kept row comes from the data and matches in a searchable column |
| TableSearch.NoSearchableColumnExcludesAll | src/common-component/Table.tsx:47-50 | a non-blank global query with no searchable column keeps no row |
| TableSearch.ColumnQueryNeedsMatch | src/common-component/Table.tsx:84-95 | every kept row contains each non-blank column query in the first column with that key, searchable or not |
| TableSearch.UnknownColumnQueryIgnored | src/common-component/Table.tsx:87-90 | a query on a key that names no column changes nothing |
| TableSearch.BlankColumnQueryIsNoQuery | src/common-component/Table.tsx:66-70 | a blank column query filters like no query for that column |
| TableSearch.BlankQueryDropped | src/common-component/Table.tsx:66-70 | a blank query is dropped by normalisation as if its key were absent |
| TableSearch.NullishFieldNeverMatches | src/common-component/Table.tsx:52-62 | a missing, `null` or `undefined` field without an override searches as `""` and fails any non-empty query |
| TableSearch.GlobalSearchNarrows | src/common-component/Table.tsx:64-98 | appending characters to the global query never brings a row back |
| TablePaging.CeilDiv | src/common-component/Table.tsx:105 | the ceiling of the quotient: zero for no rows, otherwise enough pages for every row and not one page more |
| TablePaging.TotalPages | src/common-component/Table.tsx:105 | at least one page, exactly one when no row passes, and otherwise the fewest pages that hold every row |
| TablePaging.SafePage | src/common-component/Table.tsx:107 | the stored page when it is within the page count, else the last page; at least one when both are |
| TablePaging.ClampPage | src/common-component/Table.tsx:115 | the requested page is clamped into one through the page count, and kept when in range |
| TablePaging.Slice | src/common-component/Table.tsx:111 | `slice` gives the elements between the bounds cut down to the length |
| TablePaging.PageData | src/common-component/Table.tsx:109-112 | at most a page of rows, the ones that follow the earlier pages' rows |
| TablePaging.PageDataNonEmpty | src/common-component/Table.tsx:233-235 | a page in range is never empty while some row passes, so the empty message shows only when nothing passes |
| TablePaging.EveryRowOnAPage | src/common-component/Table.tsx:105-112 | every passing row appears on a page in range, at the position its index gives |
| TablePaging.ShownRowBelongsToPage | src/common-component/Table.tsx:109-112 | a row shown on a page belongs to that page and to no other |
| TablePaging.FooterRange | src/common-component/Table.tsx:242-244 | "0-0" for no rows; otherwise, for a page starting inside the rows, a range from the page's first row covering a full page or the rest |
| TablePaging.FooterDescribesPage | src/common-component/Table.tsx:242-244 | the footer reads "0-0 of 0" with no rows, and otherwise gives the first and last row numbers of the page shown |
| TableComponent.Toggled | src/common-component/Table.tsx:135-140 | toggling flips the key's flag and leaves every other flag as it was |
| TableComponent.ToggleTwiceRestores | src/common-component/Table.tsx:135-140 | toggling a search box twice restores it |
| TableComponent.Table.Filtered | src/common-component/Table.tsx:64-99 | never more rows than the data, and all of the data while every query is blank |
| TableComponent.Table.PageCount | src/common-component/Table.tsx:105 | the table always has at least one page |
| TableComponent.Table.ShownPage | src/common-component/Table.tsx:107 | the page shown is between one and the page count: the stored page when in range, else the last page |
| TableComponent.Table.PageRows | src/common-component/Table.tsx:109-112 | the rows shown fit a page, and are empty exactly when no row passes the filter |
| TableComponent.Table.Showing | src/common-component/Table.tsx:242-244 | the footer counts the passing rows, and its range is as long as the page shown |
| TableComponent.Table.constructor | src/common-component/Table.tsx:39-45 | the first render has the default page size, page one, no queries and no open search boxes, and its filter keeps every row |
| TableComponent.Table.ReceiveProps | src/common-component/Table.tsx:101-103 | new props replace the columns and rows and keep the stored page |
| TableComponent.Table.HandlePageChange | src/common-component/Table.tsx:114-116 | the new page is the clamped request, which is then the page shown |
| TableComponent.Table.PreviousPage | src/common-component/Table.tsx:261-267 | "Prev" moves one page back from the page shown; on the first page it is disabled and the stored page stays |
| TableComponent.Table.NextPage | src/common-component/Table.tsx:272-278 | "Next" moves one page on from the page shown; on the last page it is disabled and the stored page stays |
| TableComponent.Table.HandlePageSizeChange | src/common-component/Table.tsx:118-122 | the new size is stored and the view goes back to page one |
| TableComponent.Table.SetGlobalQuery | src/common-component/Table.tsx:101-158 | the search box's change handler (line 158) stores the query, and the effect (lines 101-103) sends the view back to page one exactly when the query changed |
| TableComponent.Table.HandleColumnQueryChange | src/common-component/Table.tsx:124-133 | only that column's query changes, its search box opens, and the view goes back to page one |
| TableComponent.Table.ToggleColumnSearch | src/common-component/Table.tsx:135-140 | only that column's search-box flag flips; the queries and the page stay |
| CasesPanel.Record | src/components/dashboard/CasesPanel.tsx:3-8 | a case row read as a record holds its `id`, `div` and `status` as text, `bucket` only when present, and no `caseId` or `createdDiv` field |
| CasesPanel.WrittenColumns | src/components/dashboard/CasesPanel.tsx:17-64 | five searchable columns without a search override, the first keyed `caseId` and the second `createdDiv` |
| CasesPanel.IntendedColumns | src/components/dashboard/CasesPanel.tsx:17-35 | the same keys, with the "Case ID" and "Created Div" columns searching the case's `id` and `div` |
| CasesPanel.WrittenCaseIdSearchFindsNothing | src/components/dashboard/CasesPanel.tsx:17-26 | as written, a non-blank "Case ID" column query hides every case, whatever the global query and the other column queries |
| CasesPanel.IntendedCaseIdSearchFindsMatches | src/components/dashboard/CasesPanel.tsx:17-26 | with the accessor as search value, a case is kept exactly when its lower-cased id contains the query |

## Left out

- The markup: icons, class names, ARIA labels and the page-size `<select>`. The model also leaves out which column search boxes are visible (lines 193-196), because that only decides rendering.
- `getRowKey` and the presentational props (`enableGlobalSearch`, `enableColumnSearch`, `showPageSizeSelector`, `pageSizeOptions`, the placeholders). They affect only what is rendered, not the rows or the page.
- React's scheduling is not modelled. The page-reset effect runs after the render in which a query or the page size changed, so that one render uses the old page, clamped by `safePage`. The model applies the reset inside the handler.
- `TableSearch.ColumnSearchValue` uses `Row` as a map from keys to fields. `String(value)` is taken as given in `FieldValue.Defined`, and JavaScript's conversion of numbers and objects to text is not modelled.
- `JsText.Lower` and `JsText.Trim` treat ASCII as the whole alphabet. Unicode case mapping and non-ASCII whitespace are not modelled.
- `TableComponent.Table.HandlePageSizeChange` takes the size already parsed and positive. The `Number(...)` parse of the option text is not modelled, and every offered size is positive.
- `TablePaging.Slice` models `slice` for non-negative bounds only. The page shown is always at least one, so the start is never negative.
- `TableSearch.ColumnSearchValue` reads a missing key as `undefined`. In JavaScript a lookup also finds inherited properties, so a column keyed `constructor` or `toString` reads a function from the object prototype and searches its source text, not `""`. The model does not capture this.
- `TableSearch.RowPassesFilters` visits the column queries in an unspecified order rather than the insertion order of `Object.entries`. The outcome does not depend on the order.
- The other components of the repository (pop-ups, buttons, the rest of the dashboard) are not part of this model. Only the case panel's column configuration is, for the finding below.

## Findings

| source | as written | input that shows it | evidently intended | confidence | as-written member | corrected member |
|---|---|---|---|---|---|---|
| src/components/dashboard/CasesPanel.tsx:17-35 | The "Case ID" and "Created Div" columns are keyed `caseId` and `createdDiv`, but the rows have fields `id` and `div`. The table ignores the `accessor`, so these columns always search as `""`. | Any case rows with a "Case ID" column query of `c-1`: every row is hidden, including a case whose id is `C-1` | The column searches use the accessor values (`row.id`, `row.div`, `row.bucket ?? ''`, `row.status`) | high; not executed | CasesPanel.WrittenCaseIdSearchFindsNothing | CasesPanel.IntendedCaseIdSearchFindsMatches |
