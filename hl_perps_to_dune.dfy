/** The rolling-window upload script: read Hyperliquid's daily series from
    the derivatives summary, keep the days on or after `today -
    ROLLING_DAYS` in input order, attach the top-level snapshot and the run
    time to every row, and upload the rows (src/hl_perps_to_dune.py, and the
    identical hl_perps_to_dune.py at the repository root). */
module HlPerpsToDune {
  import opened Wrappers
  import opened Calendar
  import opened Py
  import opened Text

  /** The CSV columns, in the order of the first row's keys. */
  const Header: seq<string> := [
    "date", "volume_usd", "open_interest_usd",
    "snapshot_volume_24h", "snapshot_volume_7d", "snapshot_volume_30d",
    "snapshot_open_interest_now", "snapshot_total_volume", "as_of_utc"]

  /** The top-level keys copied into the snapshot dict. */
  const SnapshotKeys: seq<string> := ["volume24h", "volume7d", "volume30d", "openInterest", "totalVolume"]

  const NoDaily: string := "No dailyVolume in DeFiLlama payload\U{2014}cannot build time series."

  const UploadDescription: string := "Hyperliquid perps: volume & open interest from DeFiLlama (free API)"

  /** One CSV row as the dict handed to `DictWriter`: (key, value) pairs in
      insertion order. */
  type CsvRecord = seq<(string, Json)>

  /** An HTTP reply: status code, body text, and `r.json()` (ValueError when
      the body is not JSON). */
  datatype Reply = Reply(status: int, text: string, body: Result<Json>)

  /** The upload payload; the CSV text itself is the serialisation of `rows`. */
  datatype Upload = Upload(tableName: string, description: string, rows: seq<CsvRecord>, isPrivate: bool)

  function Names(row: CsvRecord): (ns: seq<string>)
    ensures |ns| == |row| && forall i :: 0 <= i < |row| ==> ns[i] == row[i].0
  {
    seq(|row|, i requires 0 <= i < |row| => row[i].0)
  }

  // ---------- http_get_json ----------

  /** The message of the RuntimeError after the last failed attempt. */
  function GetFailed(url: string, retries: int, last: Reply): string {
    "GET failed " + DecimalText(retries) + "x: " + url +
    " (status=" + DecimalText(last.status) + ", body=" + Prefix(last.text, 200) + ")"
  }

  /** `http_get_json(url, retries)`, where `get(i)` is what the i-th
      `requests.get` gives: the exception it raises or the reply. */
  method HttpGetJson(url: string, retries: int, get: nat -> Result<Reply>) returns (r: Result<Json>, attempts: nat)
    ensures retries <= 0 ==> attempts == 0 && r == Err(UnboundLocalError)
    ensures retries > 0 ==> 1 <= attempts <= retries
    ensures forall i :: 0 <= i < attempts - 1 ==> get(i).Ok? && get(i).value.status != 200
    ensures attempts > 0 && get(attempts - 1).Err? ==> r == Err(get(attempts - 1).error)
    ensures attempts > 0 && get(attempts - 1).Ok? && get(attempts - 1).value.status == 200 ==>
      r == get(attempts - 1).value.body
    ensures attempts > 0 && get(attempts - 1).Ok? && get(attempts - 1).value.status != 200 ==>
      attempts == retries && r == Err(RuntimeError(GetFailed(url, retries, get(attempts - 1).value)))
  {
    attempts := 0;
    var last: Option<Reply> := None;
    var i := 0;
    while i < retries
      invariant 0 <= i && (i <= retries || i == 0)
      invariant attempts == i
      invariant forall k :: 0 <= k < i ==> get(k).Ok? && get(k).value.status != 200
      invariant i == 0 ==> last.None?
      invariant i > 0 ==> last == Some(get(i - 1).value)
    {
      var resp := get(i);
      attempts := i + 1;
      if resp.Err? {
        r := Err(resp.error);
        return;
      }
      if resp.value.status == 200 {
        r := resp.value.body;
        return;
      }
      last := Some(resp.value);
      i := i + 1;
    }
    if last.None? {
      r := Err(UnboundLocalError);
    } else {
      r := Err(RuntimeError(GetFailed(url, retries, last.value)));
    }
  }

  // ---------- build_csv ----------

  /** `utcnow().date() - timedelta(days=rollingDays)`: OverflowError when
      the day leaves 0001-01-01..9999-12-31. */
  function Cutoff(today: ValidDate, rollingDays: int): (r: Result<ValidDate>)
    ensures r.Ok? <==> 1 <= Ordinal(today) - rollingDays <= MaxOrdinal
    ensures r.Ok? ==> Ordinal(r.value) == Ordinal(today) - rollingDays
    ensures r.Err? ==> r.error == OverflowError
  {
    var n := Ordinal(today) - rollingDays;
    if 1 <= n <= MaxOrdinal then Ok(FromOrdinal(n)) else Err(OverflowError)
  }

  /** `utcfromtimestamp(ts).date()`: the UTC day of a unix second, None
      where Python raises ValueError because the year leaves 1..9999. */
  function UtcDay(ts: int): (r: Option<ValidDate>)
    ensures r.Some? <==> MinTimestamp <= ts <= MaxTimestamp
    ensures r.Some? ==> TsToDate(ts) == Some(r.value)
  {
    match TsToDate(ts)
    case None => None
    case Some(d) => Some(d)
  }

  /** `utcfromtimestamp(int(r["date"])).date()`, with the day conversion
      passed in as `day` (it is `UtcDay` in the script; the loop's proofs
      hold for any conversion): subscripting a non-dict raises TypeError, a
      missing key KeyError, and a day `day` rejects ValueError. */
  function ItemDate(lib: Lib, day: int -> Option<ValidDate>, item: Json): (r: Result<ValidDate>)
    ensures !item.JObj? ==> r == Err(TypeError)
    ensures item.JObj? && "date" !in item.fields ==> r == Err(KeyError("date"))
    ensures r.Ok? <==>
      (item.JObj? && "date" in item.fields && IntOf(lib, item.fields["date"]).Ok? &&
       day(IntOf(lib, item.fields["date"]).value).Some?)
    ensures r.Ok? ==> day(IntOf(lib, item.fields["date"]).value) == Some(r.value)
  {
    if !item.JObj? then Err(TypeError)
    else if "date" !in item.fields then Err(KeyError("date"))
    else match IntOf(lib, item.fields["date"])
      case Err(e) => Err(e)
      case Ok(ts) =>
        match day(ts)
        case None => Err(ValueError)
        case Some(d) => Ok(d)
  }

  /** The columns every row repeats: the five snapshot values and the run time. */
  function SharedCells(snapshot: map<string, Json>, asOf: string): (cells: CsvRecord)
    ensures Names(cells) == Header[3..]
  {
    [("snapshot_volume_24h", Get(snapshot, "volume24h")),
     ("snapshot_volume_7d", Get(snapshot, "volume7d")),
     ("snapshot_volume_30d", Get(snapshot, "volume30d")),
     ("snapshot_open_interest_now", Get(snapshot, "openInterest")),
     ("snapshot_total_volume", Get(snapshot, "totalVolume")),
     ("as_of_utc", JStr(asOf))]
  }

  /** The row of a kept item dated d: the ISO day, the item's raw volume and
      open interest, then the shared cells. */
  function Row(d: ValidDate, item: map<string, Json>, snapshot: map<string, Json>, asOf: string): (row: CsvRecord)
    ensures Names(row) == Header
    ensures row[0].1 == JStr(IsoDate(d))
    ensures row[1].1 == Get(item, "volume") && row[2].1 == Get(item, "openInterest")
    ensures row[3..] == SharedCells(snapshot, asOf)
  {
    var own := [("date", JStr(IsoDate(d))),
                ("volume_usd", Get(item, "volume")),
                ("open_interest_usd", Get(item, "openInterest"))];
    var row := own + SharedCells(snapshot, asOf);
    assert row[3..] == SharedCells(snapshot, asOf);
    assert Names(row) == Names(own) + Names(SharedCells(snapshot, asOf));
    row
  }

  /** The rows the loop has appended after the given items; the first item
      whose date fails ends the loop with its exception. */
  function Window(lib: Lib, day: int -> Option<ValidDate>, items: seq<Json>, cutoff: ValidDate, snapshot: map<string, Json>, asOf: string)
    : (r: Result<seq<CsvRecord>>)
    ensures r.Ok? ==> |r.value| <= |items|
    decreases |items|
  {
    if items == [] then Ok([])
    else
      var n := |items| - 1;
      match Window(lib, day, items[..n], cutoff, snapshot, asOf)
      case Err(e) => Err(e)
      case Ok(rows) =>
        match ItemDate(lib, day, items[n])
        case Err(e) => Err(e)
        case Ok(d) =>
          if Before(d, cutoff) then Ok(rows)
          else Ok(rows + [Row(d, items[n].fields, snapshot, asOf)])
  }

  /** Every item has a date Python can read. */
  predicate AllDated(lib: Lib, day: int -> Option<ValidDate>, items: seq<Json>) {
    forall i :: 0 <= i < |items| ==> ItemDate(lib, day, items[i]).Ok?
  }

  /** Position k holds the first item whose date fails. */
  predicate FirstUndated(lib: Lib, day: int -> Option<ValidDate>, items: seq<Json>, k: int) {
    0 <= k < |items| && ItemDate(lib, day, items[k]).Err? &&
    forall j :: 0 <= j < k ==> ItemDate(lib, day, items[j]).Ok?
  }

  /** The rows one item adds: none when its date fails or lies before the
      cutoff, else its row. */
  function Contribution(lib: Lib, day: int -> Option<ValidDate>, cutoff: ValidDate, snapshot: map<string, Json>, asOf: string,
                        item: Json): (rows: seq<CsvRecord>)
    ensures |rows| <= 1
  {
    match ItemDate(lib, day, item)
    case Err(_) => []
    case Ok(d) => if Before(d, cutoff) then [] else [Row(d, item.fields, snapshot, asOf)]
  }

  /** `Contribution` with everything but the item fixed. */
  function Contributor(lib: Lib, day: int -> Option<ValidDate>, cutoff: ValidDate, snapshot: map<string, Json>, asOf: string)
    : Json -> seq<CsvRecord>
  {
    item => Contribution(lib, day, cutoff, snapshot, asOf, item)
  }

  /** The outputs of f over items, concatenated in order. */
  function Flat<T, U>(f: T -> seq<U>, items: seq<T>): seq<U>
    decreases |items|
  {
    if items == [] then [] else f(items[0]) + Flat(f, items[1..])
  }

  /** Concatenating over one more item appends that item's output. */
  lemma {:induction false} FlatAppend<T, U>(f: T -> seq<U>, items: seq<T>, x: T)
    ensures Flat(f, items + [x]) == Flat(f, items) + f(x)
    decreases |items|
  {
    if items == [] {
      assert [x][1..] == [];
    } else {
      assert (items + [x])[1..] == items[1..] + [x];
      FlatAppend(f, items[1..], x);
    }
  }

  /** When every item yields at most one output, there are at most as many
      outputs as items. */
  lemma {:induction false} FlatBound<T, U>(f: T -> seq<U>, items: seq<T>)
    requires forall i :: 0 <= i < |items| ==> |f(items[i])| <= 1
    ensures |Flat(f, items)| <= |items|
    decreases |items|
  {
    if items != [] {
      assert forall i :: 0 <= i < |items| - 1 ==> items[1..][i] == items[i + 1];
      FlatBound(f, items[1..]);
    }
  }

  /** The reference filter: the rows of exactly the items dated on or after
      the cutoff, in input order. */
  function Kept(lib: Lib, day: int -> Option<ValidDate>, items: seq<Json>, cutoff: ValidDate, snapshot: map<string, Json>, asOf: string)
    : (rows: seq<CsvRecord>)
    requires AllDated(lib, day, items)
    ensures |rows| <= |items|
  {
    FlatBound(Contributor(lib, day, cutoff, snapshot, asOf), items);
    Flat(Contributor(lib, day, cutoff, snapshot, asOf), items)
  }

  /** Filtering a sequence with one more item at the end filters that item
      last. */
  lemma KeptAppend(lib: Lib, day: int -> Option<ValidDate>, items: seq<Json>, x: Json, cutoff: ValidDate,
                   snapshot: map<string, Json>, asOf: string)
    requires AllDated(lib, day, items + [x])
    ensures AllDated(lib, day, items)
    ensures Kept(lib, day, items + [x], cutoff, snapshot, asOf) ==
            Kept(lib, day, items, cutoff, snapshot, asOf) + Contribution(lib, day, cutoff, snapshot, asOf, x)
  {
    assert forall i :: 0 <= i < |items| ==> (items + [x])[i] == items[i];
    FlatAppend(Contributor(lib, day, cutoff, snapshot, asOf), items, x);
  }

  /** Once a prefix fails, the whole loop fails with the same exception. */
  lemma {:induction false} WindowStops(lib: Lib, day: int -> Option<ValidDate>, items: seq<Json>, k: int, cutoff: ValidDate,
                                       snapshot: map<string, Json>, asOf: string)
    requires 0 <= k <= |items| && Window(lib, day, items[..k], cutoff, snapshot, asOf).Err?
    ensures Window(lib, day, items, cutoff, snapshot, asOf) == Window(lib, day, items[..k], cutoff, snapshot, asOf)
    decreases |items|
  {
    if k == |items| {
      assert items[..k] == items;
    } else {
      var n := |items| - 1;
      assert items[..n][..k] == items[..k];
      WindowStops(lib, day, items[..n], k, cutoff, snapshot, asOf);
    }
  }

  /** The loop succeeds exactly when every item is dated, and then yields the
      reference filter; otherwise it raises the exception of the first item
      whose date fails. */
  lemma {:induction false} WindowSpec(lib: Lib, day: int -> Option<ValidDate>, items: seq<Json>, cutoff: ValidDate,
                                      snapshot: map<string, Json>, asOf: string)
    ensures Window(lib, day, items, cutoff, snapshot, asOf).Ok? <==> AllDated(lib, day, items)
    ensures Window(lib, day, items, cutoff, snapshot, asOf).Ok? ==>
      Window(lib, day, items, cutoff, snapshot, asOf).value == Kept(lib, day, items, cutoff, snapshot, asOf)
    ensures Window(lib, day, items, cutoff, snapshot, asOf).Err? ==>
      exists k :: FirstUndated(lib, day, items, k) &&
        Window(lib, day, items, cutoff, snapshot, asOf).error == ItemDate(lib, day, items[k]).error
    decreases |items|
  {
    if items != [] {
      var n := |items| - 1;
      var init := items[..n];
      assert items == init + [items[n]];
      assert forall i :: 0 <= i < n ==> init[i] == items[i];
      WindowSpec(lib, day, init, cutoff, snapshot, asOf);
      var w := Window(lib, day, init, cutoff, snapshot, asOf);
      if w.Err? {
        var k :| FirstUndated(lib, day, init, k) && w.error == ItemDate(lib, day, init[k]).error;
        assert FirstUndated(lib, day, items, k);
      } else if ItemDate(lib, day, items[n]).Err? {
        assert FirstUndated(lib, day, items, n);
      } else {
        assert AllDated(lib, day, items);
        KeptAppend(lib, day, init, items[n], cutoff, snapshot, asOf);
      }
    }
  }

  /** Every kept row has the nine columns in header order and repeats the
      snapshot and the run time. */
  lemma {:induction false} KeptShape(lib: Lib, day: int -> Option<ValidDate>, items: seq<Json>, cutoff: ValidDate,
                                     snapshot: map<string, Json>, asOf: string)
    requires AllDated(lib, day, items)
    ensures forall i :: 0 <= i < |Kept(lib, day, items, cutoff, snapshot, asOf)| ==>
      (Names(Kept(lib, day, items, cutoff, snapshot, asOf)[i]) == Header &&
       Kept(lib, day, items, cutoff, snapshot, asOf)[i][3..] == SharedCells(snapshot, asOf))
    decreases |items|
  {
    if items != [] {
      assert forall i :: 0 <= i < |items| - 1 ==> items[1..][i] == items[i + 1];
      KeptShape(lib, day, items[1..], cutoff, snapshot, asOf);
      assert Kept(lib, day, items, cutoff, snapshot, asOf) ==
             Contribution(lib, day, cutoff, snapshot, asOf, items[0]) + Kept(lib, day, items[1..], cutoff, snapshot, asOf);
    }
  }

  /** The loop followed by `rows[0]`, which raises IndexError when nothing
      was kept. */
  function WindowRows(lib: Lib, day: int -> Option<ValidDate>, items: seq<Json>, cutoff: ValidDate,
                      snapshot: map<string, Json>, asOf: string): (r: Result<seq<CsvRecord>>)
    ensures r.Ok? ==> 0 < |r.value| <= |items|
    ensures Window(lib, day, items, cutoff, snapshot, asOf) == Ok([]) ==> r == Err(IndexError)
  {
    match Window(lib, day, items, cutoff, snapshot, asOf)
    case Err(e) => Err(e)
    case Ok(rows) => if rows == [] then Err(IndexError) else Ok(rows)
  }

  /** With every item dated, the rows are exactly the items on or after the
      cutoff, in input order, each with the nine columns in header order and
      the same snapshot and run time; an empty window fails at `rows[0]`;
      otherwise the first undated item's exception ends the run. */
  lemma WindowRowsSpec(lib: Lib, day: int -> Option<ValidDate>, items: seq<Json>, cutoff: ValidDate,
                       snapshot: map<string, Json>, asOf: string)
    ensures WindowRows(lib, day, items, cutoff, snapshot, asOf).Ok? <==>
      AllDated(lib, day, items) && Kept(lib, day, items, cutoff, snapshot, asOf) != []
    ensures WindowRows(lib, day, items, cutoff, snapshot, asOf).Ok? ==>
      WindowRows(lib, day, items, cutoff, snapshot, asOf).value == Kept(lib, day, items, cutoff, snapshot, asOf)
    ensures AllDated(lib, day, items) && Kept(lib, day, items, cutoff, snapshot, asOf) == [] ==>
      WindowRows(lib, day, items, cutoff, snapshot, asOf) == Err(IndexError)
    ensures !AllDated(lib, day, items) ==>
      exists k :: FirstUndated(lib, day, items, k) &&
        WindowRows(lib, day, items, cutoff, snapshot, asOf) == Err(ItemDate(lib, day, items[k]).error)
    ensures WindowRows(lib, day, items, cutoff, snapshot, asOf).Ok? ==>
      var rows := WindowRows(lib, day, items, cutoff, snapshot, asOf).value;
      forall i :: 0 <= i < |rows| ==> (Names(rows[i]) == Header && rows[i][3..] == SharedCells(snapshot, asOf))
  {
    WindowSpec(lib, day, items, cutoff, snapshot, asOf);
    if AllDated(lib, day, items) {
      KeptShape(lib, day, items, cutoff, snapshot, asOf);
    }
  }

  /** `build_csv`'s rows: the cutoff first, then the loop over the UTC days. */
  function CsvRows(lib: Lib, dailyRows: seq<Json>, today: ValidDate, rollingDays: int,
                   snapshot: map<string, Json>, asOf: string): (r: Result<seq<CsvRecord>>)
    ensures Cutoff(today, rollingDays).Err? ==> r == Err(OverflowError)
    ensures Cutoff(today, rollingDays).Ok? ==>
      r == WindowRows(lib, UtcDay, dailyRows, Cutoff(today, rollingDays).value, snapshot, asOf)
  {
    match Cutoff(today, rollingDays)
    case Err(e) => Err(e)
    case Ok(cutoff) => WindowRows(lib, UtcDay, dailyRows, cutoff, snapshot, asOf)
  }

  /** The loop of `build_csv` and the `rows[0]` after it. */
  method ScanItems(lib: Lib, day: int -> Option<ValidDate>, dailyRows: seq<Json>, cutoff: ValidDate,
                   snapshot: map<string, Json>, asOf: string) returns (r: Result<seq<CsvRecord>>)
    ensures r == WindowRows(lib, day, dailyRows, cutoff, snapshot, asOf)
  {
    var rows: seq<CsvRecord> := [];
    var i := 0;
    while i < |dailyRows|
      invariant 0 <= i <= |dailyRows|
      invariant Window(lib, day, dailyRows[..i], cutoff, snapshot, asOf) == Ok(rows)
    {
      var item := dailyRows[i];
      assert dailyRows[..i + 1][..i] == dailyRows[..i];
      var d := ItemDate(lib, day, item);
      if d.Err? {
        WindowStops(lib, day, dailyRows, i + 1, cutoff, snapshot, asOf);
        return Err(d.error);
      }
      if Before(d.value, cutoff) {
        i := i + 1;
        continue;
      }
      rows := rows + [Row(d.value, item.fields, snapshot, asOf)];
      i := i + 1;
    }
    assert dailyRows[..i] == dailyRows;
    if rows == [] {
      return Err(IndexError);
    }
    r := Ok(rows);
  }

  /** `build_csv(daily_rows, snapshot, as_of_utc)` up to the CSV text. */
  method BuildCsv(lib: Lib, dailyRows: seq<Json>, today: ValidDate, rollingDays: int,
                  snapshot: map<string, Json>, asOf: string) returns (r: Result<seq<CsvRecord>>)
    ensures r == CsvRows(lib, dailyRows, today, rollingDays, snapshot, asOf)
  {
    var c := Cutoff(today, rollingDays);
    if c.Err? {
      return Err(c.error);
    }
    r := ScanItems(lib, UtcDay, dailyRows, c.value, snapshot, asOf);
  }

  // ---------- main ----------

  /** `res.get("dailyVolume", [])`. */
  function Daily(res: map<string, Json>): Json {
    if "dailyVolume" in res then res["dailyVolume"] else JList([])
  }

  /** The snapshot dict: the five keys, read from the top level only. */
  function TopSnapshot(res: map<string, Json>): (s: map<string, Json>)
    ensures forall k :: k in SnapshotKeys ==> Get(s, k) == Get(res, k)
  {
    map k | k in SnapshotKeys :: Get(res, k)
  }

  /** `main` after the fetch: `res` is the decoded summary, `upload` the
      reply to the upload request. A truthy `dailyVolume` that is not a list
      reaches `build_csv`, which computes the cutoff and then raises
      TypeError: a string's characters or a dict's keys are not
      subscriptable by "date", and a number or bool is not iterable. */
  method Run(lib: Lib, res: Json, today: ValidDate, rollingDays: int, asOf: string, tableName: string, upload: Reply)
    returns (r: Result<Upload>)
    ensures !res.JObj? ==> r == Err(AttributeError)
    ensures res.JObj? && !Truthy(Daily(res.fields)) ==> r == Err(RuntimeError(NoDaily))
    ensures res.JObj? && Truthy(Daily(res.fields)) && !Daily(res.fields).JList? ==>
      r == Err(if Cutoff(today, rollingDays).Err? then OverflowError else TypeError)
    ensures r.Ok? ==>
      res.JObj? && Daily(res.fields).JList? && upload.status == 200 &&
      r.value == Upload(tableName, UploadDescription, r.value.rows, false) &&
      CsvRows(lib, Daily(res.fields).items, today, rollingDays, TopSnapshot(res.fields), asOf) == Ok(r.value.rows)
    ensures res.JObj? && Daily(res.fields).JList? && Truthy(Daily(res.fields)) &&
            CsvRows(lib, Daily(res.fields).items, today, rollingDays, TopSnapshot(res.fields), asOf).Ok? ==>
      (r.Ok? <==> upload.status == 200)
    ensures res.JObj? && Daily(res.fields).JList? && Truthy(Daily(res.fields)) &&
            CsvRows(lib, Daily(res.fields).items, today, rollingDays, TopSnapshot(res.fields), asOf).Err? ==>
      r == Err(CsvRows(lib, Daily(res.fields).items, today, rollingDays, TopSnapshot(res.fields), asOf).error)
    ensures res.JObj? && Daily(res.fields).JList? && Truthy(Daily(res.fields)) &&
            CsvRows(lib, Daily(res.fields).items, today, rollingDays, TopSnapshot(res.fields), asOf).Ok? &&
            upload.status != 200 ==>
      r == Err(RuntimeError("Dune upload failed: " + DecimalText(upload.status) + " " + Prefix(upload.text, 300)))
  {
    if !res.JObj? {
      return Err(AttributeError);
    }
    var daily := Daily(res.fields);
    if !Truthy(daily) {
      return Err(RuntimeError(NoDaily));
    }
    var snapshot := TopSnapshot(res.fields);
    if !daily.JList? {
      var c := Cutoff(today, rollingDays);
      return Err(if c.Err? then OverflowError else TypeError);
    }
    var csv := BuildCsv(lib, daily.items, today, rollingDays, snapshot, asOf);
    if csv.Err? {
      return Err(csv.error);
    }
    if upload.status != 200 {
      return Err(RuntimeError("Dune upload failed: " + DecimalText(upload.status) + " " + Prefix(upload.text, 300)));
    }
    r := Ok(Upload(tableName, UploadDescription, csv.value, false));
  }
}
