/** CSV export of query results, period comparisons and ranking drops. The file is a sequence of lines,
    each a sequence of fields; numbers are the symbolic `Text.Fixed` of `strconv.FormatFloat`. Creating
    the file and writing to it can fail: the creation error is a parameter and the writer accepts lines
    up to an optional quota, after which every write fails. */
module Csv {
  import opened Common
  import SearchAnalytics

  /** A query's metrics in two periods and their changes. */
  datatype ComparisonRow = ComparisonRow(
    query: string,
    currentClicks: real, previousClicks: real, clicksDelta: real, clicksPercent: real,
    currentImpressions: real, previousImpressions: real, impressionsDelta: real, impressionsPercent: real,
    currentPosition: real, previousPosition: real, positionDelta: real)

  /** A query whose average position got worse. */
  datatype DropsRow = DropsRow(
    query: string, currentPosition: real, previousPosition: real, positionDrop: real,
    currentClicks: real, previousClicks: real, currentImpressions: real)

  datatype CsvError =
    | CreateFailed(reason: string) // "could not create file: ..."
    | HeaderWrite                  // "could not write header: ..."
    | RowWrite                     // "could not write row: ..."

  /** Whether a writer with quota `failAt` accepts its line number `n` (counting from 0). */
  predicate Accepts(failAt: Option<nat>, n: nat) {
    failAt.None? || n < failAt.value
  }

  /** `csv.Writer` over a created file. */
  class Writer {
    var lines: seq<seq<Text>>
    const failAt: Option<nat>

    constructor (failAt: Option<nat>)
      ensures lines == [] && this.failAt == failAt
    {
      lines := [];
      this.failAt := failAt;
    }

    /** Appends one line, or fails once the quota is used up. */
    method Write(record: seq<Text>) returns (ok: bool)
      modifies this
      ensures ok <==> Accepts(failAt, |old(lines)|)
      ensures lines == if ok then old(lines) + [record] else old(lines)
    {
      ok := Accepts(failAt, |lines|);
      if ok {
        lines := lines + [record];
      }
    }
  }

  /** Header fields as text. */
  function Plains(s: seq<string>): (r: seq<Text>)
    ensures |r| == |s|
    ensures forall i :: 0 <= i < |s| ==> r[i] == Plain(s[i])
  {
    if s == [] then [] else [Plain(s[0])] + Plains(s[1..])
  }

  /** A prefix grows by the next element. */
  lemma PrefixStep<T>(s: seq<T>, n: int)
    requires 0 <= n < |s|
    ensures s[..n + 1] == s[..n] + [s[n]]
  {
  }

  /** What an export of `lines` ends with: the outcome and the lines in the file. A file that cannot be
      created gets nothing; otherwise lines are written until the first refused one, which is reported
      as a header or a row failure. */
  function Export(createError: Option<string>, lines: seq<seq<Text>>, failAt: Option<nat>)
    : (r: (Outcome<CsvError>, seq<seq<Text>>))
    requires |lines| >= 1
    ensures createError.Some? ==> r == (Fail(CreateFailed(createError.value)), [])
    ensures createError.None? ==> (r.0.Pass? <==> forall n :: 0 <= n < |lines| ==> Accepts(failAt, n))
    ensures createError.None? && r.0.Pass? ==> r.1 == lines
    ensures createError.None? && r.0.Fail? ==> r.0.error == (if failAt == Some(0) then HeaderWrite else RowWrite)
    ensures createError.None? && r.0.Fail? ==> |r.1| == failAt.value < |lines| && r.1 == lines[..|r.1|]
  {
    if createError.Some? then (Fail(CreateFailed(createError.value)), [])
    else if failAt.Some? && failAt.value < |lines| then
      assert !Accepts(failAt, failAt.value);
      (Fail(if failAt.value == 0 then HeaderWrite else RowWrite), lines[..failAt.value])
    else (Pass, lines)
  }

  // ---------------------------------------------------------------------------------------------
  // Query results

  /** The header column of a dimension; dimensions other than these five have none. */
  function DimColumn(dim: string): Option<string> {
    if dim == "query" then Some("Query")
    else if dim == "page" then Some("Page")
    else if dim == "country" then Some("Country")
    else if dim == "device" then Some("Device")
    else if dim == "date" then Some("Date")
    else None
  }

  /** One header column per recognised dimension, in order. */
  function DimHeader(dims: seq<string>): (h: seq<string>)
    ensures |h| <= |dims|
  {
    if dims == [] then []
    else
      var last := dims[|dims| - 1];
      DimHeader(dims[..|dims| - 1]) + (if DimColumn(last).Some? then [DimColumn(last).value] else [])
  }

  const MetricHeader: seq<string> := ["Clicks", "Impressions", "CTR", "Position"]

  /** The query header: at most one column per dimension, then the four metric columns. */
  function QueryHeader(dims: seq<string>): (h: seq<string>)
    ensures |dims| + 4 >= |h| >= 4
  {
    DimHeader(dims) + MetricHeader
  }

  /** The key field of `row` that dimension `dim` names, for the five recognised dimensions. */
  function DimField(row: SearchAnalytics.QueryRow, dim: string): Option<string> {
    if dim == "query" then Some(row.query)
    else if dim == "page" then Some(row.page)
    else if dim == "country" then Some(row.country)
    else if dim == "device" then Some(row.device)
    else if dim == "date" then Some(row.date)
    else None
  }

  function DimRecord(row: SearchAnalytics.QueryRow, dims: seq<string>): seq<Text> {
    if dims == [] then []
    else
      var last := dims[|dims| - 1];
      DimRecord(row, dims[..|dims| - 1]) + (if DimField(row, last).Some? then [Plain(DimField(row, last).value)] else [])
  }

  function MetricRecord(row: SearchAnalytics.QueryRow): seq<Text> {
    [Fixed("", row.clicks, 0, ""), Fixed("", row.impressions, 0, ""),
     Fixed("", row.ctr * 100.0, 2, "%"), Fixed("", row.position, 1, "")]
  }

  /** The query header ends with the four metric columns, and the record of a result row ends with the
      CTR as a percentage with two decimals in the last column but one. */
  lemma QueryHeaderEndsWithMetrics(row: SearchAnalytics.QueryRow, dims: seq<string>)
    ensures var h := QueryHeader(dims);
            h[|h| - 4..] == ["Clicks", "Impressions", "CTR", "Position"]
    ensures var r := QueryRecord(row, dims);
            r[|r| - 2] == Fixed("", row.ctr * 100.0, 2, "%")
  {
  }

  /** The record of a result row: one field per header column. */
  function QueryRecord(row: SearchAnalytics.QueryRow, dims: seq<string>): (r: seq<Text>)
    ensures |r| == |QueryHeader(dims)|
  {
    DimRecordMatchesHeader(row, dims);
    DimRecord(row, dims) + MetricRecord(row)
  }

  /** The field of `row` that belongs under the header column `name`: an independent statement of what
      each query CSV column holds (the CTR as a percentage with two decimals). */
  function QueryColumn(row: SearchAnalytics.QueryRow, name: string): Text {
    if name == "Query" then Plain(row.query)
    else if name == "Page" then Plain(row.page)
    else if name == "Country" then Plain(row.country)
    else if name == "Device" then Plain(row.device)
    else if name == "Date" then Plain(row.date)
    else if name == "Clicks" then Fixed("", row.clicks, 0, "")
    else if name == "Impressions" then Fixed("", row.impressions, 0, "")
    else if name == "CTR" then Fixed("", row.ctr * 100.0, 2, "%")
    else if name == "Position" then Fixed("", row.position, 1, "")
    else Plain("")
  }

  /** Every query record lines up with the header: same length, and under each column the field that column
      names. */
  lemma {:induction false} QueryRecordMatchesHeader(row: SearchAnalytics.QueryRow, dims: seq<string>)
    ensures |QueryRecord(row, dims)| == |QueryHeader(dims)|
    ensures forall i :: 0 <= i < |QueryHeader(dims)| ==> QueryRecord(row, dims)[i] == QueryColumn(row, QueryHeader(dims)[i])
  {
    DimRecordMatchesHeader(row, dims);
  }

  lemma {:induction false} DimRecordMatchesHeader(row: SearchAnalytics.QueryRow, dims: seq<string>)
    ensures |DimRecord(row, dims)| == |DimHeader(dims)|
    ensures forall i :: 0 <= i < |DimHeader(dims)| ==> DimRecord(row, dims)[i] == QueryColumn(row, DimHeader(dims)[i])
  {
    if dims != [] {
      DimRecordMatchesHeader(row, dims[..|dims| - 1]);
    }
  }

  /** The dimension columns of a concatenation are the columns of its parts; in particular a dimension
      without a column adds nothing and one with a column adds exactly that column. */
  lemma {:induction false} DimHeaderAppend(a: seq<string>, b: seq<string>)
    ensures DimHeader(a + b) == DimHeader(a) + DimHeader(b)
  {
    if b != [] {
      var n := |b| - 1;
      assert (a + b)[..|a + b| - 1] == a + b[..n];
      assert (a + b)[|a + b| - 1] == b[n];
      DimHeaderAppend(a, b[..n]);
    } else {
      assert a + b == a;
    }
  }

  /** All lines of an export: the header, then one record per row in order. */
  function LinesOf<R>(header: seq<Text>, rows: seq<R>, record: R -> seq<Text>): (lines: seq<seq<Text>>)
    ensures |lines| == |rows| + 1 && lines[0] == header
  {
    if rows == [] then [header]
    else LinesOf(header, rows[..|rows| - 1], record) + [record(rows[|rows| - 1])]
  }

  lemma {:induction false} LinesOfAt<R>(header: seq<Text>, rows: seq<R>, record: R -> seq<Text>, k: int)
    requires 0 <= k < |rows|
    ensures LinesOf(header, rows, record)[k + 1] == record(rows[k])
  {
    var n := |rows| - 1;
    if k < n {
      LinesOfAt(header, rows[..n], record, k);
    }
  }

  /** All lines of a query export. */
  function QueryLines(rows: seq<SearchAnalytics.QueryRow>, dims: seq<string>): (lines: seq<seq<Text>>)
    ensures |lines| == |rows| + 1 && lines[0] == Plains(QueryHeader(dims))
  {
    if rows == [] then [Plains(QueryHeader(dims))]
    else QueryLines(rows[..|rows| - 1], dims) + [QueryRecord(rows[|rows| - 1], dims)]
  }

  lemma {:induction false} QueryLinesAt(rows: seq<SearchAnalytics.QueryRow>, dims: seq<string>, k: int)
    requires 0 <= k < |rows|
    ensures QueryLines(rows, dims)[k + 1] == QueryRecord(rows[k], dims)
  {
    var n := |rows| - 1;
    if k < n {
      QueryLinesAt(rows[..n], dims, k);
    }
  }

  /** The header of a query export, built column by column. */
  method BuildQueryHeader(dims: seq<string>) returns (header: seq<string>)
    ensures header == QueryHeader(dims)
  {
    header := [];
    for i := 0 to |dims|
      invariant header == DimHeader(dims[..i])
    {
      assert dims[..i + 1][..i] == dims[..i];
      var col := DimColumn(dims[i]);
      if col.Some? {
        header := header + [col.value];
      }
    }
    assert dims[..|dims|] == dims;
    header := header + MetricHeader;
  }

  /** The record of one result row, built field by field. */
  method BuildQueryRecord(row: SearchAnalytics.QueryRow, dims: seq<string>) returns (record: seq<Text>)
    ensures record == QueryRecord(row, dims)
  {
    record := [];
    for i := 0 to |dims|
      invariant record == DimRecord(row, dims[..i])
    {
      assert dims[..i + 1][..i] == dims[..i];
      var field := DimField(row, dims[i]);
      if field.Some? {
        record := record + [Plain(field.value)];
      }
    }
    assert dims[..|dims|] == dims;
    record := record + MetricRecord(row);
  }

  /** `WriteQueryResultCSV`: writes the header built from the dimensions, then a record per result row,
      and stops at the first write that fails. */
  method WriteQueryResultCSV(createError: Option<string>, result: SearchAnalytics.QueryResult,
                             dims: seq<string>, failAt: Option<nat>)
    returns (out: Outcome<CsvError>, written: seq<seq<Text>>)
    ensures (out, written) == Export(createError, QueryLines(result.rows, dims), failAt)
  {
    if createError.Some? {
      return Fail(CreateFailed(createError.value)), [];
    }
    ghost var lines := QueryLines(result.rows, dims);
    var w := new Writer(failAt);
    var header := BuildQueryHeader(dims);
    var ok := w.Write(Plains(header));
    if !ok {
      return Fail(HeaderWrite), w.lines;
    }
    assert w.lines == lines[..1];
    var rows := result.rows;
    for k := 0 to |rows|
      invariant w.lines == lines[..k + 1]
      invariant Accepts(failAt, k)
    {
      var record := BuildQueryRecord(rows[k], dims);
      QueryLinesAt(rows, dims, k);
      PrefixStep(lines, k + 1);
      ok := w.Write(record);
      if !ok {
        return Fail(RowWrite), w.lines;
      }
    }
    assert lines[..|rows| + 1] == lines;
    return Pass, w.lines;
  }

  /** The export loop shared by the comparison and drops files: a fixed header, then the record of each
      row, stopping at the first write that fails. */
  method WriteRecords<R>(createError: Option<string>, header: seq<string>, rows: seq<R>,
                         record: R -> seq<Text>, failAt: Option<nat>)
    returns (out: Outcome<CsvError>, written: seq<seq<Text>>)
    ensures (out, written) == Export(createError, LinesOf(Plains(header), rows, record), failAt)
  {
    if createError.Some? {
      return Fail(CreateFailed(createError.value)), [];
    }
    ghost var lines := LinesOf(Plains(header), rows, record);
    var w := new Writer(failAt);
    var ok := w.Write(Plains(header));
    if !ok {
      return Fail(HeaderWrite), w.lines;
    }
    assert w.lines == lines[..1];
    for k := 0 to |rows|
      invariant w.lines == lines[..k + 1]
      invariant Accepts(failAt, k)
    {
      var line := record(rows[k]);
      LinesOfAt(Plains(header), rows, record, k);
      PrefixStep(lines, k + 1);
      ok := w.Write(line);
      if !ok {
        return Fail(RowWrite), w.lines;
      }
    }
    assert lines[..|rows| + 1] == lines;
    return Pass, w.lines;
  }

  // ---------------------------------------------------------------------------------------------
  // Period comparisons

  const ComparisonHeader: seq<string> := [
    "Query",
    "Clicks (Current)", "Clicks (Previous)", "Clicks Delta", "Clicks %",
    "Impressions (Current)", "Impressions (Previous)", "Impressions Delta", "Impressions %",
    "Position (Current)", "Position (Previous)", "Position Delta"]

  /** The record of a comparison row: under each column, the field that column names. */
  function ComparisonRecord(row: ComparisonRow): (r: seq<Text>)
    ensures |r| == |ComparisonHeader|
    ensures forall i :: 0 <= i < |r| ==> r[i] == ComparisonColumn(row, ComparisonHeader[i])
  {
    [Plain(row.query),
     Fixed("", row.currentClicks, 0, ""), Fixed("", row.previousClicks, 0, ""),
     Fixed("", row.clicksDelta, 0, ""), Fixed("", row.clicksPercent, 1, "%"),
     Fixed("", row.currentImpressions, 0, ""), Fixed("", row.previousImpressions, 0, ""),
     Fixed("", row.impressionsDelta, 0, ""), Fixed("", row.impressionsPercent, 1, "%"),
     Fixed("", row.currentPosition, 1, ""), Fixed("", row.previousPosition, 1, ""),
     Fixed("", row.positionDelta, 1, "")]
  }

  /** The field under each comparison column, looked up by the column's name: counts whole, percentages
      and positions with one decimal. */
  function ComparisonColumn(row: ComparisonRow, name: string): Text {
    if name == "Query" then Plain(row.query)
    else if name == "Clicks (Current)" then Fixed("", row.currentClicks, 0, "")
    else if name == "Clicks (Previous)" then Fixed("", row.previousClicks, 0, "")
    else if name == "Clicks Delta" then Fixed("", row.clicksDelta, 0, "")
    else if name == "Clicks %" then Fixed("", row.clicksPercent, 1, "%")
    else if name == "Impressions (Current)" then Fixed("", row.currentImpressions, 0, "")
    else if name == "Impressions (Previous)" then Fixed("", row.previousImpressions, 0, "")
    else if name == "Impressions Delta" then Fixed("", row.impressionsDelta, 0, "")
    else if name == "Impressions %" then Fixed("", row.impressionsPercent, 1, "%")
    else if name == "Position (Current)" then Fixed("", row.currentPosition, 1, "")
    else if name == "Position (Previous)" then Fixed("", row.previousPosition, 1, "")
    else if name == "Position Delta" then Fixed("", row.positionDelta, 1, "")
    else Plain("")
  }

  /** Every comparison record has twelve fields, the query first and the two percentages ending in "%". */
  lemma ComparisonRecordMatchesHeader(row: ComparisonRow)
    ensures |ComparisonHeader| == |ComparisonRecord(row)| == 12
    ensures ComparisonRecord(row)[0] == Plain(row.query)
    ensures ComparisonRecord(row)[4].suffix == "%" && ComparisonRecord(row)[8].suffix == "%"
  {
  }

  function ComparisonLines(rows: seq<ComparisonRow>): seq<seq<Text>> {
    LinesOf(Plains(ComparisonHeader), rows, ComparisonRecord)
  }

  /** `WriteComparisonCSV`: the twelve-column header, then a record per comparison row. */
  method WriteComparisonCSV(createError: Option<string>, rows: seq<ComparisonRow>, failAt: Option<nat>)
    returns (out: Outcome<CsvError>, written: seq<seq<Text>>)
    ensures (out, written) == Export(createError, ComparisonLines(rows), failAt)
  {
    out, written := WriteRecords(createError, ComparisonHeader, rows, ComparisonRecord, failAt);
  }

  // ---------------------------------------------------------------------------------------------
  // Ranking drops

  const DropsHeader: seq<string> := [
    "Query", "Position Drop", "Current Position", "Previous Position",
    "Current Clicks", "Previous Clicks", "Current Impressions"]

  /** The record of a drop: under each column, the field that column names. */
  function DropsRecord(row: DropsRow): (r: seq<Text>)
    ensures |r| == |DropsHeader|
    ensures forall i :: 0 <= i < |r| ==> r[i] == DropsColumn(row, DropsHeader[i])
  {
    [Plain(row.query), Fixed("", row.positionDrop, 1, ""),
     Fixed("", row.currentPosition, 1, ""), Fixed("", row.previousPosition, 1, ""),
     Fixed("", row.currentClicks, 0, ""), Fixed("", row.previousClicks, 0, ""),
     Fixed("", row.currentImpressions, 0, "")]
  }

  /** The field under each drops column, looked up by the column's name. */
  function DropsColumn(row: DropsRow, name: string): Text {
    if name == "Query" then Plain(row.query)
    else if name == "Position Drop" then Fixed("", row.positionDrop, 1, "")
    else if name == "Current Position" then Fixed("", row.currentPosition, 1, "")
    else if name == "Previous Position" then Fixed("", row.previousPosition, 1, "")
    else if name == "Current Clicks" then Fixed("", row.currentClicks, 0, "")
    else if name == "Previous Clicks" then Fixed("", row.previousClicks, 0, "")
    else if name == "Current Impressions" then Fixed("", row.currentImpressions, 0, "")
    else Plain("")
  }

  /** Every drops record has seven fields, the query first and the drop next to it. */
  lemma DropsRecordMatchesHeader(row: DropsRow)
    ensures |DropsHeader| == |DropsRecord(row)| == 7
    ensures DropsRecord(row)[0] == Plain(row.query) && DropsRecord(row)[1] == Fixed("", row.positionDrop, 1, "")
  {
  }

  function DropsLines(rows: seq<DropsRow>): seq<seq<Text>> {
    LinesOf(Plains(DropsHeader), rows, DropsRecord)
  }

  /** `WriteDropsCSV`: the seven-column header, then a record per drop. */
  method WriteDropsCSV(createError: Option<string>, rows: seq<DropsRow>, failAt: Option<nat>)
    returns (out: Outcome<CsvError>, written: seq<seq<Text>>)
    ensures (out, written) == Export(createError, DropsLines(rows), failAt)
  {
    out, written := WriteRecords(createError, DropsHeader, rows, DropsRecord, failAt);
  }

  /** One export, whatever its kind: the header first and, once every line is accepted, exactly one
      record per row in input order. */
  lemma ExportWritesEveryRow<R>(header: seq<Text>, rows: seq<R>, record: R -> seq<Text>, failAt: Option<nat>, k: int)
    requires Accepts(failAt, |rows|) && 0 <= k < |rows|
    ensures var r := Export(None, LinesOf(header, rows, record), failAt);
            r.0 == Pass && |r.1| == |rows| + 1 && r.1[0] == header && r.1[k + 1] == record(rows[k])
  {
    LinesOfAt(header, rows, record, k);
  }
}
