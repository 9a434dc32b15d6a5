/** The keyless snapshot script: read the derivatives leaderboard CSV,
    pick Hyperliquid's row (an exact name first, then any name containing
    it), write one row of its four leaderboard values, and try the pages in
    order until one run succeeds (src/hl_perps_snapshot_to_dune.py). */
module HlPerpsSnapshotToDune {
  import opened Wrappers
  import opened Py
  import opened Text
  import opened CsvTable

  /** The output columns. */
  const Header: seq<string> := [
    "date", "volume_usd", "open_interest_usd",
    "snapshot_volume_24h", "snapshot_volume_7d", "snapshot_volume_30d",
    "snapshot_open_interest_now", "snapshot_total_volume", "as_of_utc"]

  const NameColumn: string := "Name"

  /** The leaderboard columns read, in the order `shape_csv` reads them. */
  const ValueColumns: seq<string> := ["Perp Volume 24h", "Perp Volume 7d", "Perp Volume 30d", "Open Interest"]

  const NotFound: string := "Hyperliquid not found in the CSV"

  /** The pages tried, in order: the leaderboard, then the open-interest page. */
  const Pages: seq<string> := ["https://defillama.com/protocols/derivatives", "https://defillama.com/open-interest"]

  /** The cell texts `pd.read_csv` reads as NaN by default. */
  const PandasNa: set<string> := {
    "", "#N/A", "#N/A N/A", "#NA", "-1.#IND", "-1.#QNAN", "-NaN", "-nan",
    "1.#IND", "1.#QNAN", "<NA>", "N/A", "NA", "NULL", "NaN", "None",
    "n/a", "nan", "null"}

  /** The text of a cell as pandas reads it: None (NaN) for a field the row
      lacks or that holds one of pandas' NA texts. */
  function TextCell(row: CsvRow, col: string): (r: Option<string>)
    ensures r.Some? <==> col in row && row[col] !in PandasNa
    ensures r.Some? ==> r.value == row[col] && r.value != ""
  {
    if col in row && row[col] !in PandasNa then Some(row[col]) else None
  }

  /** `str.fullmatch(r"Hyperliquid|Hyperliquid Perps", case=False, na=False)`
      when exact, `str.contains("Hyperliquid", case=False, na=False)`
      otherwise; a NaN name never matches. */
  predicate Matches(row: CsvRow, exact: bool)
    ensures Matches(row, exact) ==> NameColumn in row && row[NameColumn] !in PandasNa
  {
    match TextCell(row, NameColumn)
    case None => false
    case Some(name) =>
      if exact then Lower(name) == "hyperliquid" || Lower(name) == "hyperliquid perps"
      else Contains(Lower(name), "hyperliquid")
  }

  /** A summary of the two masks of Matches: a name that matches exactly
      also contains "hyperliquid", so the fallback mask never loses a row
      the exact one kept. */
  lemma ExactIsPartial(row: CsvRow)
    ensures Matches(row, true) ==> Matches(row, false)
  {
  }

  /** Row i is the first one the mask keeps. */
  predicate IsFirst(rows: seq<CsvRow>, exact: bool, i: int) {
    0 <= i < |rows| && Matches(rows[i], exact) &&
    forall j :: 0 <= j < i ==> !Matches(rows[j], exact)
  }

  /** `df[mask].head(1)`: the position of the first row the mask keeps. */
  function First(rows: seq<CsvRow>, exact: bool): (r: Option<nat>)
    ensures r.None? <==> forall i :: 0 <= i < |rows| ==> !Matches(rows[i], exact)
    ensures r.Some? ==> IsFirst(rows, exact, r.value)
    decreases |rows|
  {
    if rows == [] then None
    else if Matches(rows[0], exact) then Some(0)
    else
      var r := First(rows[1..], exact);
      assert forall i :: 1 <= i < |rows| ==> rows[1..][i - 1] == rows[i];
      if r.None? then None else Some(r.value + 1)
  }

  /** The selected row: the first exact match, or when there is none the
      first row whose name contains "hyperliquid"; `df["Name"]` raises
      KeyError when the column is missing. */
  function SelectRow(t: Table): (r: Result<CsvRow>)
    ensures NameColumn !in t.columns ==> r == Err(KeyError(NameColumn))
    ensures NameColumn in t.columns && First(t.rows, true).Some? ==>
      r == Ok(t.rows[First(t.rows, true).value])
    ensures NameColumn in t.columns && First(t.rows, true).None? && First(t.rows, false).Some? ==>
      r == Ok(t.rows[First(t.rows, false).value])
    ensures r.Err? && NameColumn in t.columns ==>
      r.error == RuntimeError(NotFound) && forall i :: 0 <= i < |t.rows| ==> !Matches(t.rows[i], false)
  {
    if NameColumn !in t.columns then Err(KeyError(NameColumn))
    else match First(t.rows, true)
      case Some(i) => Ok(t.rows[i])
      case None =>
        match First(t.rows, false)
        case Some(i) => Ok(t.rows[i])
        case None => Err(RuntimeError(NotFound))
  }

  /** The two masks in terms of the rows: an exact match anywhere wins over
      an earlier partial match, and the error means no name contains
      "hyperliquid". */
  lemma {:induction false} SelectRowSpec(t: Table)
    requires NameColumn in t.columns
    ensures SelectRow(t).Ok? <==> exists i :: 0 <= i < |t.rows| && Matches(t.rows[i], false)
    ensures SelectRow(t).Ok? ==>
      exists i :: (0 <= i < |t.rows| && SelectRow(t).value == t.rows[i] &&
        (IsFirst(t.rows, true, i) ||
         ((forall j :: 0 <= j < |t.rows| ==> !Matches(t.rows[j], true)) && IsFirst(t.rows, false, i))))
  {
    if First(t.rows, true).Some? {
      ExactIsPartial(t.rows[First(t.rows, true).value]);
    }
  }

  /** `float(row.iloc[0][col])`: a column the frame lacks raises KeyError,
      an empty cell or an NA text is nan, and other text goes through
      `float()`. */
  function ValueAt(lib: Lib, t: Table, row: CsvRow, col: string): (r: Result<Num>)
    ensures col !in t.columns ==> r == Err(KeyError(col))
    ensures col in t.columns && TextCell(row, col).None? ==> r == Ok(NaN)
    ensures col in t.columns && TextCell(row, col).Some? ==> r == lib.parseFloat(row[col])
    ensures col in t.columns && col in row && row[col] in PandasNa ==> r == Ok(NaN)
  {
    if col !in t.columns then Err(KeyError(col))
    else match TextCell(row, col)
      case None => Ok(NaN)
      case Some(s) => lib.parseFloat(s)
  }

  /** The values of the given columns, read in order; the first that raises
      ends the run. */
  function Values(lib: Lib, t: Table, row: CsvRow, cols: seq<string>): (r: Result<seq<Num>>)
    ensures r.Ok? <==> forall i :: 0 <= i < |cols| ==> ValueAt(lib, t, row, cols[i]).Ok?
    ensures r.Ok? ==> |r.value| == |cols|
    ensures r.Ok? ==> forall i :: 0 <= i < |cols| ==> ValueAt(lib, t, row, cols[i]) == Ok(r.value[i])
    ensures r.Err? ==>
      exists i :: (0 <= i < |cols| && ValueAt(lib, t, row, cols[i]) == Err(r.error) &&
        forall j :: 0 <= j < i ==> ValueAt(lib, t, row, cols[j]).Ok?)
    decreases |cols|
  {
    if cols == [] then Ok([])
    else
      var first := ValueAt(lib, t, row, cols[0]);
      assert forall i :: 1 <= i < |cols| ==> cols[1..][i - 1] == cols[i];
      if first.Err? then Err(first.error)
      else
        var rest := Values(lib, t, row, cols[1..]);
        if rest.Err? then
          var i :| 0 <= i < |cols[1..]| && ValueAt(lib, t, row, cols[1..][i]) == Err(rest.error) &&
            forall j :: 0 <= j < i ==> ValueAt(lib, t, row, cols[1..][j]).Ok?;
          assert ValueAt(lib, t, row, cols[i + 1]) == Err(rest.error);
          Err(rest.error)
        else Ok([first.value] + rest.value)
  }

  /** The row `shape_csv` writes for the four leaderboard values v: no daily
      volume, open interest or total volume. */
  function OutputRow(today: string, v: seq<Num>, asOf: string): (row: seq<Value>)
    requires |v| == |ValueColumns|
    ensures |row| == |Header|
    ensures row[0] == Text(today) && row[8] == Text(asOf)
    ensures row[1] == Text("") && row[2] == Text("") && row[7] == Text("")
    ensures forall i :: 0 <= i < 4 ==> row[i + 3] == Number(v[i])
  {
    [Text(today), Text(""), Text(""),
     Number(v[0]), Number(v[1]), Number(v[2]), Number(v[3]),
     Text(""), Text(asOf)]
  }

  /** `shape_csv` up to the CSV text: the one data row under `Header`, with
      `today` the local date text and `asOf` the UTC time text. */
  function ShapeCsv(lib: Lib, t: Table, today: string, asOf: string): (r: Result<seq<Value>>)
    ensures SelectRow(t).Err? ==> r == Err(SelectRow(t).error)
    ensures r.Ok? ==> |r.value| == |Header|
    ensures r.Ok? ==> r.value[0] == Text(today) && r.value[8] == Text(asOf)
    ensures r.Ok? ==> r.value[1] == Text("") && r.value[2] == Text("") && r.value[7] == Text("")
    ensures r.Ok? ==> SelectRow(t).Ok?
    ensures r.Ok? ==>
      forall i :: 0 <= i < 4 ==>
        (r.value[i + 3].Number? && ValueAt(lib, t, SelectRow(t).value, ValueColumns[i]) == Ok(r.value[i + 3].x))
    ensures SelectRow(t).Ok? ==>
      (r.Ok? <==> forall i :: 0 <= i < 4 ==> ValueAt(lib, t, SelectRow(t).value, ValueColumns[i]).Ok?)
  {
    match SelectRow(t)
    case Err(e) => Err(e)
    case Ok(row) =>
      match Values(lib, t, row, ValueColumns)
      case Err(e) => Err(e)
      case Ok(v) => Ok(OutputRow(today, v, asOf))
  }

  /** What one page's `try` block meets: the downloaded table or the
      exception raised while finding the link or downloading it, and the
      upload reply. */
  datatype PageOutcome = PageOutcome(fetched: Result<Table>, uploadStatus: int, uploadText: string)

  /** One page's `try` block: download, shape, upload; the row it uploads
      or the exception it raises. */
  function Attempt(lib: Lib, o: PageOutcome, today: string, asOf: string): (r: Result<seq<Value>>)
    ensures o.fetched.Err? ==> r == Err(o.fetched.error)
    ensures o.fetched.Ok? ==>
      var shaped := ShapeCsv(lib, o.fetched.value, today, asOf);
      && (shaped.Err? || o.uploadStatus == 200 ==> r == shaped)
      && (shaped.Ok? && o.uploadStatus != 200 ==>
            r == Err(RuntimeError("Dune upload failed: " + DecimalText(o.uploadStatus) + " " + Prefix(o.uploadText, 300))))
  {
    match o.fetched
    case Err(e) => Err(e)
    case Ok(t) =>
      match ShapeCsv(lib, t, today, asOf)
      case Err(e) => Err(e)
      case Ok(row) =>
        if o.uploadStatus != 200 then
          Err(RuntimeError("Dune upload failed: " + DecimalText(o.uploadStatus) + " " + Prefix(o.uploadText, 300)))
        else Ok(row)
  }

  /** `main`: try each page in order, return after the first that succeeds,
      and raise the last page's exception when all fail. `outcome(page)` is
      what trying that page meets. */
  method Run(lib: Lib, outcome: string -> PageOutcome, today: string, asOf: string)
    returns (r: Result<seq<Value>>, tried: nat)
    ensures 1 <= tried <= |Pages|
    ensures forall i :: 0 <= i < tried - 1 ==> Attempt(lib, outcome(Pages[i]), today, asOf).Err?
    ensures r == Attempt(lib, outcome(Pages[tried - 1]), today, asOf)
    ensures r.Err? ==> tried == |Pages|
  {
    var lastErr: Option<PyError> := None;
    var i := 0;
    while i < |Pages|
      invariant 0 <= i <= |Pages|
      invariant forall k :: 0 <= k < i ==> Attempt(lib, outcome(Pages[k]), today, asOf).Err?
      invariant i == 0 <==> lastErr.None?
      invariant i > 0 ==> Err(lastErr.value) == Attempt(lib, outcome(Pages[i - 1]), today, asOf)
    {
      var attempt := Attempt(lib, outcome(Pages[i]), today, asOf);
      if attempt.Ok? {
        return attempt, i + 1;
      }
      lastErr := Some(attempt.error);
      i := i + 1;
    }
    r, tried := Err(lastErr.value), |Pages|;
  }
}
