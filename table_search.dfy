/** The filtering half of the generic table component: how a column's
    search text is read from a row, how the global query and the per-column
    queries are normalised, and which rows survive the filter. */
module TableSearch {
  import opened JsText
  import opened JsArray
  import opened Options

  /** A row field as the component sees it: missing, `null`, or a value
      whose `String(value)` form is `text`. A key absent from a row reads as
      `undefined`. */
  datatype FieldValue = Null | Undefined | Defined(text: string)

  /** A row, read by the component as a record from column keys to fields. */
  type Row = map<string, FieldValue>

  /** The part of a column descriptor that the filter reads: its key, the
      optional `searchable` flag and the optional `getSearchValue` override.
      Header, width, alignment and renderer only affect the markup. */
  datatype Column = Column(key: string, searchable: Option<bool>, getSearchValue: Option<Row -> string>)

  /** `column.searchable !== false`: a column joins the global search unless
      it is explicitly excluded. */
  predicate IsSearchable(column: Column) {
    column.searchable != Some(false)
  }

  /** The text a column contributes to searching: the override when there is
      one, else the field under the column's key, with `null` and
      `undefined` read as the empty string. */
  function ColumnSearchValue(row: Row, column: Column): (r: string)
    ensures column.getSearchValue.Some? ==> r == column.getSearchValue.value(row)
    ensures column.getSearchValue.None? && column.key in row && row[column.key].Defined? ==> r == row[column.key].text
    ensures column.getSearchValue.None? && (column.key !in row || !row[column.key].Defined?) ==> r == ""
  {
    match column.getSearchValue
    case Some(f) => f(row)
    case None =>
      var field := if column.key in row then row[column.key] else Undefined;
      if field.Defined? then field.text else ""
  }

  /** A query as the filter uses it: trimmed, then lower-cased. It is never
      longer than the query and neither starts nor ends with whitespace. */
  function NormalizeQuery(query: string): (r: string)
    ensures |r| <= |query|
    ensures |r| == 0 || (!IsSpace(r[0]) && !IsSpace(r[|r| - 1]))
  {
    var trimmed := Trim(query);
    LowerAt(trimmed);
    Lower(trimmed)
  }

  /** A query is blank when it normalises to the empty string, which happens
      exactly when it is all whitespace. */
  lemma QueryBlankIffAllSpace(query: string)
    ensures |NormalizeQuery(query)| == 0 <==> forall i :: 0 <= i < |query| ==> IsSpace(query[i])
  {
    TrimBlankIffAllSpace(query);
  }

  /** The column queries after normalisation, with blank ones dropped. */
  function NormalizeColumnQueries(queries: map<string, string>): (r: map<string, string>)
    ensures forall key :: key in r <==> key in queries && |NormalizeQuery(queries[key])| > 0
    ensures forall key :: key in r ==> r[key] == NormalizeQuery(queries[key])
  {
    map key | key in queries && |NormalizeQuery(queries[key])| > 0 :: NormalizeQuery(queries[key])
  }

  function HasKey(key: string): Column -> bool {
    (column: Column) => column.key == key
  }

  /** `columns.find((entry) => entry.key === key)`, by position. */
  function ColumnIndex(columns: seq<Column>, key: string): (r: Option<nat>)
    ensures r.Some? ==> r.value < |columns| && columns[r.value].key == key
    ensures r.Some? ==> forall j :: 0 <= j < r.value ==> columns[j].key != key
    ensures r.None? <==> forall j :: 0 <= j < |columns| ==> columns[j].key != key
  {
    FindIndex(columns, HasKey(key))
  }

  /** The column's lower-cased search text contains the (normalised) query. */
  predicate ColumnMatches(row: Row, column: Column, query: string) {
    Contains(Lower(ColumnSearchValue(row, column)), query)
  }

  function MatchesIn(row: Row, query: string): Column -> bool {
    (column: Column) => ColumnMatches(row, column, query)
  }

  /** The global test: some searchable column contains the query. */
  predicate MatchesGlobal(row: Row, columns: seq<Column>, query: string) {
    AnyMatch(Filter(columns, IsSearchable), MatchesIn(row, query))
  }

  /** One column query: ignored when its key names no column, otherwise the
      first column with that key must contain it. */
  predicate ColumnQueryHolds(row: Row, columns: seq<Column>, key: string, query: string) {
    match ColumnIndex(columns, key)
    case None => true
    case Some(i) => ColumnMatches(row, columns[i], query)
  }

  /** Every (normalised, non-blank) column query holds. */
  predicate MatchesColumnQueries(row: Row, columns: seq<Column>, queries: map<string, string>) {
    forall key :: key in queries ==> ColumnQueryHolds(row, columns, key, queries[key])
  }

  /** The filter callback, for an already normalised global query and
      normalised column queries. */
  predicate KeepRow(row: Row, columns: seq<Column>, global: string, queries: map<string, string>) {
    (|global| == 0 || MatchesGlobal(row, columns, global)) && MatchesColumnQueries(row, columns, queries)
  }

  function KeepPredicate(columns: seq<Column>, global: string, queries: map<string, string>): Row -> bool {
    (row: Row) => KeepRow(row, columns, global, queries)
  }

  /** The `filteredData` derivation: normalise the queries, then filter. */
  function FilteredData(data: seq<Row>, columns: seq<Column>, globalQuery: string, columnQueries: map<string, string>): (r: seq<Row>)
    ensures |r| <= |data|
    ensures forall i :: 0 <= i < |r| ==> KeepRow(r[i], columns, NormalizeQuery(globalQuery), NormalizeColumnQueries(columnQueries))
  {
    Filter(data, KeepPredicate(columns, NormalizeQuery(globalQuery), NormalizeColumnQueries(columnQueries)))
  }

  /** The filter callback with its early-exit loop over the column queries.
      The iteration order of the entries does not matter to the outcome. */
  method RowPassesFilters(row: Row, columns: seq<Column>, global: string, queries: map<string, string>) returns (keep: bool)
    ensures keep == KeepRow(row, columns, global, queries)
  {
    if |global| > 0 {
      var searchable := Filter(columns, IsSearchable);
      var matchesGlobal := AnyMatch(searchable, MatchesIn(row, global));
      if !matchesGlobal {
        return false;
      }
    }
    var pending := queries.Keys;
    while pending != {}
      invariant pending <= queries.Keys
      invariant forall key :: key in queries && key !in pending ==> ColumnQueryHolds(row, columns, key, queries[key])
      decreases pending
    {
      var key :| key in pending;
      pending := pending - {key};
      var found := ColumnIndex(columns, key);
      if found.None? {
        continue;
      }
      var value := ColumnSearchValue(row, columns[found.value]);
      if !Contains(Lower(value), queries[key]) {
        return false;
      }
    }
    return true;
  }

  // ---------------------------------------------------------------------
  // Properties of the filtered rows

  /** `filteredData` keeps the rows of `data` in order, unaltered, and keeps
      each row exactly as often as it occurs in `data` when it passes the
      filter, and never otherwise. */
  lemma FilteredDataSelectsRows(data: seq<Row>, columns: seq<Column>, globalQuery: string, columnQueries: map<string, string>, row: Row)
    ensures IsSubsequence(FilteredData(data, columns, globalQuery, columnQueries), data)
    ensures multiset(FilteredData(data, columns, globalQuery, columnQueries))[row] ==
      if KeepRow(row, columns, NormalizeQuery(globalQuery), NormalizeColumnQueries(columnQueries)) then multiset(data)[row] else 0
  {
    var keep := KeepPredicate(columns, NormalizeQuery(globalQuery), NormalizeColumnQueries(columnQueries));
    FilterIsSubsequence(data, keep);
    FilterCounts(data, keep, row);
  }

  /** Some column not excluded from the global search contains `query`. */
  ghost predicate SomeSearchableColumnContains(row: Row, columns: seq<Column>, query: string) {
    exists i :: 0 <= i < |columns| && IsSearchable(columns[i]) && ColumnMatches(row, columns[i], query)
  }

  /** Every non-blank column query whose key names a column is contained in
      the first column with that key, searchable or not. */
  ghost predicate EveryColumnQueryContained(row: Row, columns: seq<Column>, columnQueries: map<string, string>) {
    forall key, i :: key in columnQueries && |NormalizeQuery(columnQueries[key])| > 0 && ColumnIndex(columns, key) == Some(i) ==>
      ColumnMatches(row, columns[i], NormalizeQuery(columnQueries[key]))
  }

  lemma MatchesGlobalMeaning(row: Row, columns: seq<Column>, query: string)
    ensures MatchesGlobal(row, columns, query) <==> SomeSearchableColumnContains(row, columns, query)
  {
    AnyMatchOfFilter(columns, IsSearchable, MatchesIn(row, query));
  }

  lemma MatchesColumnQueriesMeaning(row: Row, columns: seq<Column>, columnQueries: map<string, string>)
    ensures MatchesColumnQueries(row, columns, NormalizeColumnQueries(columnQueries)) <==> EveryColumnQueryContained(row, columns, columnQueries)
  {
    var queries := NormalizeColumnQueries(columnQueries);
    if !MatchesColumnQueries(row, columns, queries) {
      var key :| key in queries && !ColumnQueryHolds(row, columns, key, queries[key]);
      assert key in columnQueries && |NormalizeQuery(columnQueries[key])| > 0;
    }
  }

  /** The filter callback, read back in terms of the columns: a row is kept
      exactly when (a) the global query is blank or some searchable column
      contains it, and (b) every non-blank column query whose key names a
      column is contained in the first such column, searchable or not. */
  lemma KeepRowMeaning(row: Row, columns: seq<Column>, globalQuery: string, columnQueries: map<string, string>)
    ensures KeepRow(row, columns, NormalizeQuery(globalQuery), NormalizeColumnQueries(columnQueries)) <==>
      && (|NormalizeQuery(globalQuery)| == 0 || SomeSearchableColumnContains(row, columns, NormalizeQuery(globalQuery)))
      && EveryColumnQueryContained(row, columns, columnQueries)
  {
    MatchesGlobalMeaning(row, columns, NormalizeQuery(globalQuery));
    MatchesColumnQueriesMeaning(row, columns, columnQueries);
  }

  /** A single normalised column query holds exactly when that one query
      holds. */
  lemma SingleQueryHolds(row: Row, columns: seq<Column>, key: string, query: string)
    ensures MatchesColumnQueries(row, columns, map[key := query]) <==> ColumnQueryHolds(row, columns, key, query)
  {
    var queries := map[key := query];
    assert key in queries && queries[key] == query;
    if ColumnQueryHolds(row, columns, key, query) {
      forall k | k in queries
        ensures ColumnQueryHolds(row, columns, k, queries[k])
      {
        assert k == key;
      }
    }
  }

  /** With a blank global query and a single column query whose key names a
      column, a row is kept exactly when the query is blank or the first
      column with that key contains it. */
  lemma LoneColumnQuery(row: Row, columns: seq<Column>, globalQuery: string, key: string, query: string, i: nat)
    requires |NormalizeQuery(globalQuery)| == 0
    requires ColumnIndex(columns, key) == Some(i)
    ensures i < |columns|
    ensures KeepRow(row, columns, NormalizeQuery(globalQuery), NormalizeColumnQueries(map[key := query])) <==>
      (|NormalizeQuery(query)| == 0 || ColumnMatches(row, columns[i], NormalizeQuery(query)))
  {
    var normalized, q := NormalizeColumnQueries(map[key := query]), NormalizeQuery(query);
    if |q| == 0 {
      assert normalized.Keys == {};
      assert MatchesColumnQueries(row, columns, normalized);
    } else {
      assert normalized == map[key := q];
      SingleQueryHolds(row, columns, key, q);
    }
  }

  /** With a blank global query and only blank column queries, every row
      is kept, in its original order. */
  lemma BlankQueriesKeepAll(data: seq<Row>, columns: seq<Column>, globalQuery: string, columnQueries: map<string, string>)
    requires |NormalizeQuery(globalQuery)| == 0
    requires forall key :: key in columnQueries ==> |NormalizeQuery(columnQueries[key])| == 0
    ensures FilteredData(data, columns, globalQuery, columnQueries) == data
  {
    var global, queries := NormalizeQuery(globalQuery), NormalizeColumnQueries(columnQueries);
    assert forall key :: key !in queries;
    forall i | 0 <= i < |data|
      ensures KeepPredicate(columns, global, queries)(data[i])
    {
    }
    FilterKeepsAll(data, KeepPredicate(columns, global, queries));
  }

  /** With a non-blank global query, a kept row has a searchable column whose
      lower-cased search text contains the query. */
  lemma GlobalQueryNeedsSearchableMatch(data: seq<Row>, columns: seq<Column>, globalQuery: string, columnQueries: map<string, string>, row: Row)
    requires |NormalizeQuery(globalQuery)| > 0
    requires row in FilteredData(data, columns, globalQuery, columnQueries)
    ensures row in data
    ensures SomeSearchableColumnContains(row, columns, NormalizeQuery(globalQuery))
  {
    var keep := KeepPredicate(columns, NormalizeQuery(globalQuery), NormalizeColumnQueries(columnQueries));
    FilterMembership(data, keep, row);
    KeepRowMeaning(row, columns, globalQuery, columnQueries);
  }

  /** A non-blank global query with no searchable column keeps no row. */
  lemma NoSearchableColumnExcludesAll(data: seq<Row>, columns: seq<Column>, globalQuery: string, columnQueries: map<string, string>)
    requires |NormalizeQuery(globalQuery)| > 0
    requires forall i :: 0 <= i < |columns| ==> !IsSearchable(columns[i])
    ensures FilteredData(data, columns, globalQuery, columnQueries) == []
  {
    var keep := KeepPredicate(columns, NormalizeQuery(globalQuery), NormalizeColumnQueries(columnQueries));
    forall i | 0 <= i < |data|
      ensures !keep(data[i])
    {
      KeepRowMeaning(data[i], columns, globalQuery, columnQueries);
    }
    FilterKeepsNone(data, keep);
  }

  /** A kept row satisfies every non-blank column query whose key names a
      column, in the first column with that key, even a column excluded from
      the global search. */
  lemma ColumnQueryNeedsMatch(data: seq<Row>, columns: seq<Column>, globalQuery: string, columnQueries: map<string, string>,
                              row: Row, key: string, i: nat)
    requires row in FilteredData(data, columns, globalQuery, columnQueries)
    requires key in columnQueries && |NormalizeQuery(columnQueries[key])| > 0
    requires ColumnIndex(columns, key) == Some(i)
    ensures i < |columns| && columns[i].key == key
    ensures ColumnMatches(row, columns[i], NormalizeQuery(columnQueries[key]))
  {
    var keep := KeepPredicate(columns, NormalizeQuery(globalQuery), NormalizeColumnQueries(columnQueries));
    FilterMembership(data, keep, row);
    KeepRowMeaning(row, columns, globalQuery, columnQueries);
  }

  /** A column query whose key names no column changes nothing. */
  lemma UnknownColumnQueryIgnored(data: seq<Row>, columns: seq<Column>, globalQuery: string, columnQueries: map<string, string>,
                                  key: string, value: string)
    requires forall j :: 0 <= j < |columns| ==> columns[j].key != key
    ensures FilteredData(data, columns, globalQuery, columnQueries[key := value]) == FilteredData(data, columns, globalQuery, columnQueries)
  {
    var global := NormalizeQuery(globalQuery);
    var before, after := NormalizeColumnQueries(columnQueries), NormalizeColumnQueries(columnQueries[key := value]);
    forall i | 0 <= i < |data|
      ensures KeepPredicate(columns, global, after)(data[i]) == KeepPredicate(columns, global, before)(data[i])
    {
      assert MatchesColumnQueries(data[i], columns, after) == MatchesColumnQueries(data[i], columns, before) by {
        assert ColumnQueryHolds(data[i], columns, key, value);
        forall k | k != key
          ensures (k in after <==> k in before) && (k in after ==> after[k] == before[k])
        {
        }
      }
    }
    FilterAgrees(data, KeepPredicate(columns, global, after), KeepPredicate(columns, global, before));
  }

  /** Setting a column query to something blank is the same as not having a
      query for that column at all. */
  lemma BlankColumnQueryIsNoQuery(data: seq<Row>, columns: seq<Column>, globalQuery: string, columnQueries: map<string, string>,
                                  key: string, value: string)
    requires |NormalizeQuery(value)| == 0
    ensures FilteredData(data, columns, globalQuery, columnQueries[key := value]) == FilteredData(data, columns, globalQuery, columnQueries - {key})
  {
    BlankQueryDropped(columnQueries, key, value);
  }

  lemma BlankQueryDropped(columnQueries: map<string, string>, key: string, value: string)
    requires |NormalizeQuery(value)| == 0
    ensures NormalizeColumnQueries(columnQueries[key := value]) == NormalizeColumnQueries(columnQueries - {key})
  {
    var updated, removed := columnQueries[key := value], columnQueries - {key};
    var withBlank, cleared := NormalizeColumnQueries(updated), NormalizeColumnQueries(removed);
    forall k | k in removed
      ensures updated[k] == removed[k]
    {
    }
    assert withBlank.Keys == cleared.Keys;
    forall k | k in withBlank
      ensures withBlank[k] == cleared[k]
    {
      assert updated[k] == removed[k];
    }
  }

  /** A column without an override whose field is missing, `null` or
      `undefined` searches as the empty string, so any non-blank query on it
      rejects the row. */
  lemma NullishFieldNeverMatches(row: Row, column: Column, query: string)
    requires column.getSearchValue.None?
    requires column.key !in row || row[column.key] == Null || row[column.key] == Undefined
    requires query != ""
    ensures ColumnSearchValue(row, column) == ""
    ensures !ColumnMatches(row, column, query)
  {
    EmptyContainsOnlyEmpty(query);
  }

  /** Typing more characters into the global search box never brings back a
      row: the rows kept for `globalQuery + more` are a subsequence of those
      kept for `globalQuery`. */
  lemma GlobalSearchNarrows(data: seq<Row>, columns: seq<Column>, globalQuery: string, more: string, columnQueries: map<string, string>)
    ensures IsSubsequence(FilteredData(data, columns, globalQuery + more, columnQueries), FilteredData(data, columns, globalQuery, columnQueries))
    ensures |FilteredData(data, columns, globalQuery + more, columnQueries)| <= |FilteredData(data, columns, globalQuery, columnQueries)|
  {
    var short, long := NormalizeQuery(globalQuery), NormalizeQuery(globalQuery + more);
    var queries := NormalizeColumnQueries(columnQueries);
    TrimPrefixOfAppend(globalQuery, more);
    LowerPrefix(Trim(globalQuery), Trim(globalQuery + more));
    assert Contains(long, short);
    forall i | 0 <= i < |data| && KeepRow(data[i], columns, long, queries)
      ensures KeepRow(data[i], columns, short, queries)
    {
      if |short| > 0 {
        var row := data[i];
        AnyMatchOfFilter(columns, IsSearchable, MatchesIn(row, long));
        AnyMatchOfFilter(columns, IsSearchable, MatchesIn(row, short));
        var j: int :| 0 <= j < |columns| && IsSearchable(columns[j]) && MatchesIn(row, long)(columns[j]);
        ContainsTransitive(Lower(ColumnSearchValue(row, columns[j])), long, short);
        assert MatchesIn(row, short)(columns[j]);
      }
    }
    FilterNarrows(data, KeepPredicate(columns, long, queries), KeepPredicate(columns, short, queries));
  }
}
