/** The CSV merge script: read Hyperliquid's daily series out of the
    downloaded volume and open-interest tables, keep the last entry per
    date, and merge the two maps into date-sorted four-cell rows
    (src/hl_perps_merge_upload.py). */
module HlPerpsMergeUpload {
  import opened Wrappers
  import opened Py
  import opened Calendar
  import opened Text
  import opened Sorting
  import opened CsvTable

  /** The header `write_csv` puts above the rows. */
  const Header: seq<string> := ["date", "volume_usd", "open_interest_usd", "as_of_utc"]

  /** A metric key of an entry: absent when the table has no column of that
      kind, None when none of them parsed, or the number. */
  datatype Field = Missing | Null | Has(x: Num)

  /** An entry `{"date": d, "volume": .., "oi": ..}`. */
  datatype Entry = Entry(date: string, volume: Field, oi: Field)

  /** The columns `read_first_series` picks from the first row's keys. */
  datatype Layout = Layout(dateCol: Option<string>, nameCol: Option<string>, volCols: seq<string>, oiCols: seq<string>)

  /** The date and name columns are the first header whose lower-cased name
      marks them; the metric columns are header columns of their kind. */
  function LayoutOf(cols: seq<string>): (l: Layout)
    ensures l.dateCol.Some? ==> l.dateCol.value in cols && Lower(l.dateCol.value) in DateNames
    ensures l.nameCol.Some? ==> l.nameCol.value in cols && Lower(l.nameCol.value) in NameNames
    ensures forall c :: c in l.volCols ==> c in cols && IsMetricColumn(c, Volume)
    ensures forall c :: c in l.oiCols ==> c in cols && IsMetricColumn(c, OpenInterest)
  {
    Layout(FindColumn(cols, DateNames), FindColumn(cols, NameNames),
           MetricColumns(cols, Volume), MetricColumns(cols, OpenInterest))
  }

  // ---------- one row ----------

  /** The normalised date: all-digit text is unix seconds, other text an
      ISO date with `Z` removed; where that raises, the first ten characters. */
  function NormalizeDate(lib: Lib, raw: string): (r: string)
    ensures IsoShape(r) || r == Prefix(raw, 10)
    ensures IsDigits(raw) && MinTimestamp <= DigitsValue(raw) <= MaxTimestamp ==>
      IsoShape(r) && ParseIso(r) == TsToDate(DigitsValue(raw)).value
    ensures IsDigits(raw) && !(MinTimestamp <= DigitsValue(raw) <= MaxTimestamp) ==> r == Prefix(raw, 10)
    ensures !IsDigits(raw) ==> r == IsoOrPrefix(lib, raw)
  {
    if IsDigits(raw) then
      match TsToDate(DigitsValue(raw))
      case Some(d) => IsoDateRoundTrip(d); IsoDate(d)
      case None => Prefix(raw, 10)
    else IsoOrPrefix(lib, raw)
  }

  /** The metric key after `for c in cols: entry[k] = parse_num(r.get(c))`,
      stopping at the first number. */
  function FieldOf(lib: Lib, row: CsvRow, cols: seq<string>): (f: Field)
    ensures f.Missing? <==> cols == []
    ensures f.Has? <==> FirstNumber(lib, row, cols).Some?
    ensures f.Has? ==> FirstNumber(lib, row, cols) == Some(f.x)
  {
    if cols == [] then Missing
    else match FirstNumber(lib, row, cols)
      case Some(x) => Has(x)
      case None => Null
  }

  /** `(r.get(name_col) or "").strip()`. */
  function NameOf(layout: Layout, row: CsvRow): string {
    var cell := CellAt(row, layout.nameCol);
    Strip(if cell.Some? then cell.value else "")
  }

  /** A row is kept when its name holds "hyperliquid" in any case and its
      date cell is not empty. */
  predicate Kept(layout: Layout, row: CsvRow)
    ensures Kept(layout, row) ==> layout.nameCol.Some? && layout.dateCol.Some?
  {
    var name := NameOf(layout, row);
    var raw := CellAt(row, layout.dateCol);
    name != "" && Contains(Lower(name), "hyperliquid") && raw.Some? && raw.value != ""
  }

  /** The entry a kept row contributes. */
  function RowEntry(lib: Lib, layout: Layout, row: CsvRow): (e: Entry)
    requires Kept(layout, row)
    ensures e.volume == FieldOf(lib, row, layout.volCols) && e.oi == FieldOf(lib, row, layout.oiCols)
    ensures IsoShape(e.date) || e.date == Prefix(CellAt(row, layout.dateCol).value, 10)
  {
    Entry(NormalizeDate(lib, CellAt(row, layout.dateCol).value),
          FieldOf(lib, row, layout.volCols), FieldOf(lib, row, layout.oiCols))
  }

  /** One pass of the first loop: the entry of a kept row, a skipped row gives none. */
  method ReadRow(lib: Lib, layout: Layout, row: CsvRow) returns (e: Option<Entry>)
    ensures e.Some? <==> Kept(layout, row)
    ensures e.Some? ==> e.value == RowEntry(lib, layout, row)
  {
    var name := NameOf(layout, row);
    if name == "" || !Contains(Lower(name), "hyperliquid") {
      return None;
    }
    var raw := CellAt(row, layout.dateCol);
    if raw.None? || raw.value == "" {
      return None;
    }
    var d := NormalizeDate(lib, raw.value);
    var volume := Missing;
    if layout.volCols != [] {
      var v := ScanMetric(lib, row, layout.volCols);
      volume := if v.Some? then Has(v.value) else Null;
    }
    var oi := Missing;
    if layout.oiCols != [] {
      var o := ScanMetric(lib, row, layout.oiCols);
      oi := if o.Some? then Has(o.value) else Null;
    }
    e := Some(Entry(d, volume, oi));
  }

  // ---------- read_first_series ----------

  /** The `series` list: the entries of the kept rows, in file order. */
  function Entries(lib: Lib, layout: Layout, rows: seq<CsvRow>): (es: seq<Entry>)
    ensures |es| <= |rows|
    decreases |rows|
  {
    if rows == [] then []
    else
      var n := |rows| - 1;
      var init := Entries(lib, layout, rows[..n]);
      if Kept(layout, rows[n]) then init + [RowEntry(lib, layout, rows[n])] else init
  }

  /** Entries keyed by their date, as the dedup loop stores them. */
  function ByDate(es: seq<Entry>): (ps: seq<(string, Entry)>)
    ensures |ps| == |es|
    ensures forall k :: 0 <= k < |es| ==> ps[k] == (es[k].date, es[k])
  {
    seq(|es|, k requires 0 <= k < |es| => (es[k].date, es[k]))
  }

  /** The first loop of `read_first_series`: the entries of the kept rows. */
  method CollectEntries(lib: Lib, layout: Layout, rows: seq<CsvRow>) returns (series: seq<Entry>)
    ensures series == Entries(lib, layout, rows)
  {
    series := [];
    var i := 0;
    while i < |rows|
      invariant 0 <= i <= |rows|
      invariant series == Entries(lib, layout, rows[..i])
    {
      assert rows[..i + 1][..i] == rows[..i];
      var e := ReadRow(lib, layout, rows[i]);
      if e.Some? {
        series := series + [e.value];
      }
      i := i + 1;
    }
    assert rows[..i] == rows;
  }

  /** The dedup loop: `dd[e["date"]] = e` for every entry. */
  method IndexByDate(series: seq<Entry>) returns (dd: map<string, Entry>)
    ensures dd == LastWins(ByDate(series))
  {
    dd := map[];
    var j := 0;
    while j < |series|
      invariant 0 <= j <= |series|
      invariant dd == LastWins(ByDate(series[..j]))
    {
      assert ByDate(series[..j + 1])[..j] == ByDate(series[..j]);
      dd := dd[series[j].date := series[j]];
      j := j + 1;
    }
    assert series[..j] == series;
  }

  /** `read_first_series`: a missing file ends the run; a file without data
      rows fails on `rows[0]`; otherwise the last entry of each date. */
  method ReadFirstSeries(lib: Lib, path: string, file: Option<Table>) returns (r: Result<map<string, Entry>>)
    ensures file.None? ==> r == Err(SystemExit("Missing CSV: " + path))
    ensures file.Some? && file.value.rows == [] ==> r == Err(IndexError)
    ensures file.Some? && file.value.rows != [] ==>
      r == Ok(LastWins(ByDate(Entries(lib, LayoutOf(file.value.columns), file.value.rows))))
  {
    if file.None? {
      return Err(SystemExit("Missing CSV: " + path));
    }
    if file.value.rows == [] {
      return Err(IndexError);
    }
    var series := CollectEntries(lib, LayoutOf(file.value.columns), file.value.rows);
    var dd := IndexByDate(series);
    r := Ok(dd);
  }

  /** The returned map has a date exactly when some kept row normalises to
      it, and holds the last such entry in file order. */
  lemma ReadFirstSeriesSpec(es: seq<Entry>, d: string)
    ensures d in LastWins(ByDate(es)) <==> exists i :: 0 <= i < |es| && es[i].date == d
    ensures d in LastWins(ByDate(es)) ==>
      exists i :: LastWith(ByDate(es), d, i) && es[i] == LastWins(ByDate(es))[d]
  {
    LastWinsSpec(ByDate(es), d);
    if exists i :: 0 <= i < |es| && es[i].date == d {
      var i :| 0 <= i < |es| && es[i].date == d;
      assert ByDate(es)[i].0 == d;
    }
  }

  // ---------- merge_series ----------

  /** `m.get(d, {})`: the entry, or None for the empty dict. */
  function Look(m: map<string, Entry>, d: string): Option<Entry> {
    if d in m then Some(m[d]) else None
  }

  function VolumeOf(e: Option<Entry>): Field {
    if e.Some? then e.value.volume else Missing
  }

  function OiOf(e: Option<Entry>): Field {
    if e.Some? then e.value.oi else Missing
  }

  /** `first.get(k, second.get(k))`: a present key wins even when it holds None. */
  function Prefer(first: Field, second: Field): (f: Field)
    ensures !first.Missing? ==> f == first
    ensures first.Missing? ==> f == second
  {
    if first.Missing? then second else first
  }

  /** `"" if v is None else f"{float(v):.6f}"`: absent and None both write an
      empty cell, never zero. */
  function FieldCell(lib: Lib, f: Field): (c: string)
    ensures !f.Has? ==> c == ""
    ensures f.Has? ==> c == lib.fmt6(f.x)
  {
    if f.Has? then lib.fmt6(f.x) else ""
  }

  /** The row of date d: volume from the volume map's entry when that has the
      key, else from the open-interest map's entry; open interest the other
      way round. */
  function MergedRow(lib: Lib, volMap: map<string, Entry>, oiMap: map<string, Entry>, d: string, stamp: string)
    : (row: seq<string>)
    ensures |row| == |Header| && row[0] == d && row[3] == stamp
    ensures d !in volMap && d !in oiMap ==> row[1] == "" && row[2] == ""
  {
    var v := Look(volMap, d);
    var o := Look(oiMap, d);
    [d, FieldCell(lib, Prefer(VolumeOf(v), VolumeOf(o))), FieldCell(lib, Prefer(OiOf(o), OiOf(v))), stamp]
  }

  /** The loop of `merge_series` over the sorted dates, row i stamped with
      the clock reading `stamp(i)`. */
  method MergeRows(lib: Lib, volMap: map<string, Entry>, oiMap: map<string, Entry>, dates: seq<string>, stamp: nat -> string)
    returns (out: seq<seq<string>>)
    ensures |out| == |dates|
    ensures forall i :: 0 <= i < |out| ==> out[i] == MergedRow(lib, volMap, oiMap, dates[i], stamp(i))
  {
    out := [];
    var i := 0;
    while i < |dates|
      invariant 0 <= i <= |dates|
      invariant |out| == i
      invariant forall k :: 0 <= k < i ==> out[k] == MergedRow(lib, volMap, oiMap, dates[k], stamp(k))
    {
      out := out + [MergedRow(lib, volMap, oiMap, dates[i], stamp(i))];
      i := i + 1;
    }
  }

  /** `merge_series`: one row per date of either map, in ascending order. */
  method MergeSeries(lib: Lib, volMap: map<string, Entry>, oiMap: map<string, Entry>, stamp: nat -> string)
    returns (out: seq<seq<string>>)
    ensures |out| == |volMap.Keys + oiMap.Keys|
    ensures forall i :: 0 <= i < |out| ==>
      out[i] == MergedRow(lib, volMap, oiMap, SortSet(volMap.Keys + oiMap.Keys)[i], stamp(i))
  {
    var dates := SortedKeys(volMap.Keys + oiMap.Keys);
    out := MergeRows(lib, volMap, oiMap, dates, stamp);
  }

  /** A summary, for all dates at once, of MergedRow's own contract: rows
      built over ascending dates have four cells each, are stamped in order,
      and keep the dates strictly ascending. */
  lemma MergedRowsOrder(lib: Lib, volMap: map<string, Entry>, oiMap: map<string, Entry>, dates: seq<string>, stamp: nat -> string)
    requires StrictlyAscending(dates)
    ensures forall i :: 0 <= i < |dates| ==>
      var row := MergedRow(lib, volMap, oiMap, dates[i], stamp(i));
      |row| == |Header| && row[0] == dates[i] && row[3] == stamp(i)
    ensures forall i, j :: 0 <= i < j < |dates| ==>
      Below(MergedRow(lib, volMap, oiMap, dates[i], stamp(i))[0], MergedRow(lib, volMap, oiMap, dates[j], stamp(j))[0])
  {
  }

  /** Field precedence in the row of date d: the volume map's entry decides
      the volume whenever it has the key, even holding None; otherwise the
      open-interest map's entry does. Open interest mirrors this. */
  lemma MergedPrecedence(lib: Lib, volMap: map<string, Entry>, oiMap: map<string, Entry>, d: string, stamp: string)
    ensures var row := MergedRow(lib, volMap, oiMap, d, stamp);
      && (d in volMap && !volMap[d].volume.Missing? ==> row[1] == FieldCell(lib, volMap[d].volume))
      && (d !in volMap || volMap[d].volume.Missing? ==> row[1] == FieldCell(lib, VolumeOf(Look(oiMap, d))))
      && (d in oiMap && !oiMap[d].oi.Missing? ==> row[2] == FieldCell(lib, oiMap[d].oi))
      && (d !in oiMap || oiMap[d].oi.Missing? ==> row[2] == FieldCell(lib, OiOf(Look(volMap, d))))
  {
  }

  /** A summary of SortSet's contract applied to the key union: the merged
      rows hold every date of either map and no other, each once, in
      ascending order. */
  lemma MergeSeriesDates(volMap: map<string, Entry>, oiMap: map<string, Entry>)
    ensures var dates := SortSet(volMap.Keys + oiMap.Keys);
      && StrictlyAscending(dates)
      && (forall d :: d in dates <==> d in volMap || d in oiMap)
  {
  }

  // ---------- main ----------

  /** `main` up to the upload: read both tables (the volume file first),
      then merge. */
  method Run(lib: Lib, volPath: string, volFile: Option<Table>, oiPath: string, oiFile: Option<Table>, stamp: nat -> string)
    returns (r: Result<seq<seq<string>>>)
    ensures volFile.None? ==> r == Err(SystemExit("Missing CSV: " + volPath))
    ensures volFile.Some? && volFile.value.rows == [] ==> r == Err(IndexError)
    ensures volFile.Some? && volFile.value.rows != [] && oiFile.None? ==> r == Err(SystemExit("Missing CSV: " + oiPath))
    ensures volFile.Some? && volFile.value.rows != [] && oiFile.Some? && oiFile.value.rows == [] ==> r == Err(IndexError)
    ensures r.Ok? <==> volFile.Some? && volFile.value.rows != [] && oiFile.Some? && oiFile.value.rows != []
    ensures r.Ok? ==>
      var volMap := LastWins(ByDate(Entries(lib, LayoutOf(volFile.value.columns), volFile.value.rows)));
      var oiMap := LastWins(ByDate(Entries(lib, LayoutOf(oiFile.value.columns), oiFile.value.rows)));
      |r.value| == |volMap.Keys + oiMap.Keys| &&
      forall i :: 0 <= i < |r.value| ==>
        r.value[i] == MergedRow(lib, volMap, oiMap, SortSet(volMap.Keys + oiMap.Keys)[i], stamp(i))
  {
    var volMap := ReadFirstSeries(lib, volPath, volFile);
    if volMap.Err? {
      return Err(volMap.error);
    }
    var oiMap := ReadFirstSeries(lib, oiPath, oiFile);
    if oiMap.Err? {
      return Err(oiMap.error);
    }
    var rows := MergeSeries(lib, volMap.value, oiMap.value, stamp);
    r := Ok(rows);
  }
}
