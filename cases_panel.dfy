/** How the dashboard's case panel configures the table, and what that
    configuration means for searching. The panel's columns carry an
    `accessor` that the table never reads, so a column finds its search text
    under its own key; the "Case ID" and "Created Div" columns are keyed
    `caseId` and `createdDiv` while the rows hold `id` and `div`. */
module CasesPanel {
  import opened JsArray
  import opened JsText
  import opened Options
  import opened TableSearch

  /** A case row: `{ id, div, status, bucket? }`. */
  datatype CaseRow = CaseRow(id: string, div: string, status: string, bucket: Option<string>)

  /** The record the table reads for a case row: the row's own fields, and
      no field named like the "Case ID" or "Created Div" column keys. */
  function Record(c: CaseRow): (r: Row)
    ensures "caseId" !in r && "createdDiv" !in r
    ensures FieldText(r, "id") == c.id && FieldText(r, "div") == c.div && FieldText(r, "status") == c.status
    ensures "bucket" in r <==> c.bucket.Some?
  {
    var fields := map["id" := Defined(c.id), "div" := Defined(c.div), "status" := Defined(c.status)];
    if c.bucket.Some? then fields["bucket" := Defined(c.bucket.value)] else fields
  }

  function Records(cases: seq<CaseRow>): (r: seq<Row>)
    ensures |r| == |cases|
    ensures forall i :: 0 <= i < |cases| ==> r[i] == Record(cases[i])
  {
    seq(|cases|, i requires 0 <= i < |cases| => Record(cases[i]))
  }

  /** The columns as the panel passes them, reduced to what the table reads:
      five columns, all searchable, none with a search override, and the
      "Case ID" and "Created Div" columns keyed `caseId` and `createdDiv`. */
  function WrittenColumns(): (r: seq<Column>)
    ensures |r| == 5
    ensures forall i :: 0 <= i < |r| ==> IsSearchable(r[i]) && r[i].getSearchValue.None?
    ensures ColumnIndex(r, "caseId") == Some(0) && ColumnIndex(r, "createdDiv") == Some(1)
  {
    var columns := [
      Column("caseId", None, None), Column("createdDiv", None, None), Column("bucket", None, None),
      Column("status", None, None), Column("action", None, None) ];
    assert columns[0].key == "caseId" && columns[1].key == "createdDiv";
    columns
  }

  /** The text of a field, `""` when it is missing. */
  function FieldText(row: Row, field: string): string {
    ColumnSearchValue(row, Column(field, None, None))
  }

  /** The columns with the panel's accessors passed as `getSearchValue`:
      the "Case ID" and "Created Div" columns search the case's id and div. */
  function IntendedColumns(): (r: seq<Column>)
    ensures |r| == 5
    ensures ColumnIndex(r, "caseId") == Some(0) && ColumnIndex(r, "createdDiv") == Some(1)
    ensures forall row :: ColumnSearchValue(row, r[0]) == FieldText(row, "id")
    ensures forall row :: ColumnSearchValue(row, r[1]) == FieldText(row, "div")
  {
    var columns := [
      Column("caseId", None, Some((r: Row) => FieldText(r, "id"))),
      Column("createdDiv", None, Some((r: Row) => FieldText(r, "div"))),
      Column("bucket", None, Some((r: Row) => FieldText(r, "bucket"))),
      Column("status", None, Some((r: Row) => FieldText(r, "status"))),
      Column("action", None, None) ];
    assert columns[0].key == "caseId" && columns[1].key == "createdDiv";
    columns
  }

  /** As written, a non-blank search in the "Case ID" column hides every
      case, whatever its id and whatever the other queries: the column's
      search text is always empty. */
  lemma WrittenCaseIdSearchFindsNothing(cases: seq<CaseRow>, globalQuery: string, columnQueries: map<string, string>)
    requires "caseId" in columnQueries && |NormalizeQuery(columnQueries["caseId"])| > 0
    ensures FilteredData(Records(cases), WrittenColumns(), globalQuery, columnQueries) == []
  {
    var rows, columns := Records(cases), WrittenColumns();
    var query := NormalizeQuery(columnQueries["caseId"]);
    var keep := KeepPredicate(columns, NormalizeQuery(globalQuery), NormalizeColumnQueries(columnQueries));
    forall i | 0 <= i < |rows|
      ensures !keep(rows[i])
    {
      assert "caseId" !in rows[i];
      NullishFieldNeverMatches(rows[i], columns[0], query);
      KeepRowMeaning(rows[i], columns, globalQuery, columnQueries);
      assert !EveryColumnQueryContained(rows[i], columns, columnQueries);
    }
    FilterKeepsNone(rows, keep);
  }

  /** With the accessors as search values, a "Case ID" search keeps exactly
      the cases whose lower-cased id contains the normalised query. */
  lemma IntendedCaseIdSearchFindsMatches(cases: seq<CaseRow>, query: string, c: CaseRow)
    requires c in cases
    ensures Record(c) in FilteredData(Records(cases), IntendedColumns(), "", map["caseId" := query]) <==>
      (|NormalizeQuery(query)| == 0 || Contains(Lower(c.id), NormalizeQuery(query)))
  {
    var rows, columns := Records(cases), IntendedColumns();
    var queries := map["caseId" := query];
    var keep := KeepPredicate(columns, NormalizeQuery(""), NormalizeColumnQueries(queries));
    var i :| 0 <= i < |cases| && cases[i] == c;
    assert rows[i] == Record(c);
    QueryBlankIffAllSpace("");
    LoneColumnQuery(Record(c), columns, "", "caseId", query, 0);
    assert ColumnSearchValue(Record(c), columns[0]) == c.id;
    FilterMembership(rows, keep, Record(c));
  }
}
