/** The backfill script: create the daily table if needed, read the
    Hyperliquid series out of the volume and open-interest tables, merge
    them by date with unknown values as 0.0, and insert the records in
    batches of at most 500 (src/hl_perps_backfill_from_csv_ci.py). */
module HlPerpsBackfillFromCsvCi {
  import opened Wrappers
  import opened Py
  import opened Calendar
  import opened Text
  import opened Sorting
  import opened CsvTable
  import opened DuneTable

  /** The schema `ensure_table` creates. */
  const Schema: seq<ColumnSpec> := [
    ColumnSpec("date", "date"),
    ColumnSpec("volume_usd", "double"),
    ColumnSpec("open_interest_usd", "double"),
    ColumnSpec("as_of_utc", "timestamp")]

  /** The most rows one insert request carries. */
  const BatchSize: int := 500

  /** `parse_csv`: the table, or the fatal exit for a missing file. */
  function ParseCsv(path: string, file: Option<Table>): (r: Result<Table>)
    ensures file.None? <==> r.Err?
    ensures r.Err? ==> r.error == SystemExit("missing CSV: " + path)
    ensures r.Ok? ==> r.value == file.value
  {
    if file.None? then Err(SystemExit("missing CSV: " + path)) else Ok(file.value)
  }

  // ---------- extract_series ----------

  /** The columns `extract_series` picks from the first row's keys. */
  datatype Layout = Layout(dateCol: Option<string>, nameCol: Option<string>, metricCols: seq<string>)

  /** The date and name columns are the first header whose lower-cased name
      marks them; the metric columns are header columns of the kind asked. */
  function LayoutOf(cols: seq<string>, metric: Metric): (l: Layout)
    ensures l.dateCol.Some? ==> l.dateCol.value in cols && Lower(l.dateCol.value) in DateNames
    ensures l.nameCol.Some? ==> l.nameCol.value in cols && Lower(l.nameCol.value) in NameNames
    ensures forall c :: c in l.metricCols ==> c in cols && IsMetricColumn(c, metric)
  {
    Layout(FindColumn(cols, DateNames), FindColumn(cols, NameNames), MetricColumns(cols, metric))
  }

  /** `r.get(col) or ""`. */
  function TextAt(row: CsvRow, col: Option<string>): string {
    var cell := CellAt(row, col);
    if cell.Some? then cell.value else ""
  }

  /** The (date, value) a row assigns, or None when it is skipped: its
      lower-cased name lacks "hyperliquid", or its date comes out empty. */
  function RowPoint(lib: Lib, layout: Layout, row: CsvRow): (p: Option<(string, Option<Num>)>)
    ensures p.Some? <==>
      Contains(Lower(TextAt(row, layout.nameCol)), "hyperliquid") && IsoOrPrefix(lib, TextAt(row, layout.dateCol)) != ""
    ensures TextAt(row, layout.dateCol) == "" ==> p.None?
    ensures p.Some? ==> p.value.1 == FirstNumber(lib, row, layout.metricCols)
  {
    if !Contains(Lower(TextAt(row, layout.nameCol)), "hyperliquid") then None
    else
      var d := IsoOrPrefix(lib, TextAt(row, layout.dateCol));
      var val := FirstNumber(lib, row, layout.metricCols);
      if d != "" then Some((d, val)) else None
  }

  /** The assignments `out[d] = val` the loop makes, in file order. */
  function Points(lib: Lib, layout: Layout, rows: seq<CsvRow>): (ps: seq<(string, Option<Num>)>)
    ensures |ps| <= |rows|
    decreases |rows|
  {
    if rows == [] then []
    else
      var n := |rows| - 1;
      var init := Points(lib, layout, rows[..n]);
      match RowPoint(lib, layout, rows[n])
      case Some(p) => init + [p]
      case None => init
  }

  /** The loop of `extract_series`. */
  method CollectSeries(lib: Lib, layout: Layout, rows: seq<CsvRow>) returns (out: map<string, Option<Num>>)
    ensures out == LastWins(Points(lib, layout, rows))
  {
    out := map[];
    var i := 0;
    while i < |rows|
      invariant 0 <= i <= |rows|
      invariant out == LastWins(Points(lib, layout, rows[..i]))
    {
      assert rows[..i + 1][..i] == rows[..i];
      var row := rows[i];
      var name := Lower(TextAt(row, layout.nameCol));
      if Contains(name, "hyperliquid") {
        var d := IsoOrPrefix(lib, TextAt(row, layout.dateCol));
        var val := ScanMetric(lib, row, layout.metricCols);
        if d != "" {
          out := out[d := val];
        }
      }
      i := i + 1;
    }
    assert rows[..i] == rows;
  }

  /** The series `extract_series` returns for a table. */
  ghost function SeriesOf(lib: Lib, table: Table, metric: Metric): map<string, Option<Num>> {
    if table.rows == [] then map[] else LastWins(Points(lib, LayoutOf(table.columns, metric), table.rows))
  }

  /** `extract_series`: {} for a table without rows, else each date with the
      value of its last row, a None value overwriting an earlier number. */
  method ExtractSeries(lib: Lib, table: Table, metric: Metric) returns (out: map<string, Option<Num>>)
    ensures table.rows == [] ==> out == map[]
    ensures table.rows != [] ==> out == LastWins(Points(lib, LayoutOf(table.columns, metric), table.rows))
  {
    if table.rows == [] {
      return map[];
    }
    out := CollectSeries(lib, LayoutOf(table.columns, metric), table.rows);
  }

  // ---------- the merge in main ----------

  /** `m.get(d)`: None when the date is absent or its value is None. */
  function LookValue(m: map<string, Option<Num>>, d: string): (v: Option<Num>)
    ensures d !in m ==> v.None?
    ensures d in m ==> v == m[d]
  {
    if d in m then m[d] else None
  }

  /** `float(x or 0)`: None and both zeros become 0.0, any other number is kept. */
  function OrZero(x: Option<Num>): (r: Num)
    ensures x.None? ==> r == Zero
    ensures x.Some? && IsZero(x.value) ==> r == Zero
    ensures x.Some? && !IsZero(x.value) ==> r == x.value
  {
    if x.None? || IsZero(x.value) then Zero else x.value
  }

  /** The record of date d. */
  function DailyRecord(vol: map<string, Option<Num>>, oi: map<string, Option<Num>>, d: string, nowz: string): (r: Record)
    ensures Keys(r) == ColumnNames(Schema) && r[0].1 == Text(d) && r[3].1 == Text(nowz)
    ensures r[1].1.Number? && r[2].1.Number?
  {
    [("date", Text(d)),
     ("volume_usd", Number(OrZero(LookValue(vol, d)))),
     ("open_interest_usd", Number(OrZero(LookValue(oi, d)))),
     ("as_of_utc", Text(nowz))]
  }

  /** The loop of `main` over the sorted dates. */
  method BuildRecords(vol: map<string, Option<Num>>, oi: map<string, Option<Num>>, dates: seq<string>, nowz: string)
    returns (data: seq<Record>)
    ensures |data| == |dates|
    ensures forall i :: 0 <= i < |data| ==> data[i] == DailyRecord(vol, oi, dates[i], nowz)
  {
    data := [];
    var i := 0;
    while i < |dates|
      invariant 0 <= i <= |dates|
      invariant |data| == i
      invariant forall k :: 0 <= k < i ==> data[k] == DailyRecord(vol, oi, dates[k], nowz)
    {
      data := data + [DailyRecord(vol, oi, dates[i], nowz)];
      i := i + 1;
    }
  }

  /** The merged records: one per date of either series, in ascending order. */
  ghost function Merged(vol: map<string, Option<Num>>, oi: map<string, Option<Num>>, nowz: string): (data: seq<Record>)
    ensures |data| == |vol.Keys + oi.Keys|
    ensures data == [] <==> vol == map[] && oi == map[]
  {
    var dates := SortSet(vol.Keys + oi.Keys);
    seq(|dates|, i requires 0 <= i < |dates| => DailyRecord(vol, oi, dates[i], nowz))
  }

  /** `dates = sorted(set(vol) | set(oi))` and the loop over them. */
  method MergeDaily(vol: map<string, Option<Num>>, oi: map<string, Option<Num>>, nowz: string) returns (data: seq<Record>)
    ensures data == Merged(vol, oi, nowz)
  {
    var dates := SortedKeys(vol.Keys + oi.Keys);
    data := BuildRecords(vol, oi, dates, nowz);
  }

  /** Each record has the schema's keys in order, carries the one `as_of_utc`
      of the run, and never holds a zero other than 0.0; the dates ascend
      strictly. */
  lemma RecordsShape(vol: map<string, Option<Num>>, oi: map<string, Option<Num>>, dates: seq<string>, nowz: string)
    requires StrictlyAscending(dates)
    ensures forall i :: 0 <= i < |dates| ==>
      var r := DailyRecord(vol, oi, dates[i], nowz);
      Keys(r) == ColumnNames(Schema) && r[0].1 == Text(dates[i]) && r[3].1 == Text(nowz) &&
      (IsZero(r[1].1.x) ==> r[1].1.x == Zero) && (IsZero(r[2].1.x) ==> r[2].1.x == Zero)
    ensures forall i, j :: 0 <= i < j < |dates| ==>
      DailyRecord(vol, oi, dates[i], nowz)[0].1.s != DailyRecord(vol, oi, dates[j], nowz)[0].1.s
  {
    forall i, j | 0 <= i < j < |dates|
      ensures DailyRecord(vol, oi, dates[i], nowz)[0].1.s != DailyRecord(vol, oi, dates[j], nowz)[0].1.s
    {
      BelowAsymmetric(dates[i], dates[j]);
    }
  }

  /** A known non-zero value is kept exactly; missing, None and zero values
      are all written as 0.0. */
  lemma ZeroDefault(vol: map<string, Option<Num>>, oi: map<string, Option<Num>>, d: string, nowz: string)
    ensures var r := DailyRecord(vol, oi, d, nowz);
      && (d in vol && vol[d].Some? && !IsZero(vol[d].value) ==> r[1].1 == Number(vol[d].value))
      && (d !in vol || vol[d].None? || IsZero(vol[d].value) ==> r[1].1 == Number(Zero))
      && (d in oi && oi[d].Some? && !IsZero(oi[d].value) ==> r[2].1 == Number(oi[d].value))
      && (d !in oi || oi[d].None? || IsZero(oi[d].value) ==> r[2].1 == Number(Zero))
  {
  }

  // ---------- batch_insert ----------

  /** `batch_insert`: one insert request per slice `rows[i:i+500]`,
      i = 0, 500, 1000, ... below the row count. */
  method BatchInsert(tableName: string, rows: seq<Record>) returns (calls: seq<InsertRequest>)
    ensures Sent(calls) == rows
    ensures |calls| == (|rows| + BatchSize - 1) / BatchSize
    ensures forall k :: 0 <= k < |calls| ==> calls[k].tableName == tableName && 0 < |calls[k].data| <= BatchSize
    ensures forall k :: 0 <= k < |calls| - 1 ==> |calls[k].data| == BatchSize
  {
    calls := [];
    var i := 0;
    while i < |rows|
      invariant 0 <= i && i == BatchSize * |calls|
      invariant i < |rows| + BatchSize
      invariant Sent(calls) == rows[..if i <= |rows| then i else |rows|]
      invariant forall k :: 0 <= k < |calls| ==> calls[k].tableName == tableName && 0 < |calls[k].data| <= BatchSize
      invariant forall k :: 0 <= k < |calls| - 1 ==> |calls[k].data| == BatchSize
      invariant |calls| > 0 && i <= |rows| ==> |calls[|calls| - 1].data| == BatchSize
    {
      var hi := if i + BatchSize <= |rows| then i + BatchSize else |rows|;
      var call := InsertRequest(tableName, rows[i..hi]);
      SentAppend(calls, call);
      assert rows[..hi] == rows[..i] + rows[i..hi];
      calls := calls + [call];
      i := i + BatchSize;
    }
    assert rows[..|rows|] == rows;
  }

  // ---------- main ----------

  /** `main` up to the inserts: post the create request (an error other
      than "already exists" ends the run), read both files, extract, merge,
      refuse an empty merge, then the insert requests in order. */
  method Run(lib: Lib, tableName: string, createFailure: Option<string>,
             volPath: string, volFile: Option<Table>, oiPath: string, oiFile: Option<Table>, nowz: string)
    returns (create: CreateRequest, r: Result<seq<InsertRequest>>)
    ensures create == CreateRequestFor(tableName, Schema)
    ensures EnsureTable(createFailure).Some? ==> r == Err(EnsureTable(createFailure).value)
    ensures EnsureTable(createFailure).None? && volFile.None? ==> r == Err(SystemExit("missing CSV: " + volPath))
    ensures EnsureTable(createFailure).None? && volFile.Some? && oiFile.None? ==> r == Err(SystemExit("missing CSV: " + oiPath))
    ensures r.Ok? ==> EnsureTable(createFailure).None? && volFile.Some? && oiFile.Some?
    ensures EnsureTable(createFailure).None? && volFile.Some? && oiFile.Some? ==>
      var merged := Merged(SeriesOf(lib, volFile.value, Volume), SeriesOf(lib, oiFile.value, OpenInterest), nowz);
      && (merged == [] ==> r == Err(SystemExit("no merged rows")))
      && (merged != [] ==> r.Ok? && Sent(r.value) == merged)
  {
    create := CreateRequestFor(tableName, Schema);
    var failure := EnsureTable(createFailure);
    if failure.Some? {
      return create, Err(failure.value);
    }
    var volRows := ParseCsv(volPath, volFile);
    if volRows.Err? {
      return create, Err(volRows.error);
    }
    var oiRows := ParseCsv(oiPath, oiFile);
    if oiRows.Err? {
      return create, Err(oiRows.error);
    }
    var vol := ExtractSeries(lib, volRows.value, Volume);
    var oi := ExtractSeries(lib, oiRows.value, OpenInterest);
    var data := MergeDaily(vol, oi, nowz);
    if data == [] {
      return create, Err(SystemExit("no merged rows"));
    }
    var calls := BatchInsert(tableName, data);
    r := Ok(calls);
  }
}
