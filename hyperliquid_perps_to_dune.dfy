/** The DeFiLlama summary script: find the daily series and the snapshot
    counters in the decoded JSON, turn every series item into a nine-cell
    CSV row, keep the last row per date and sort by date
    (src/hyperliquid_perps_to_dune.py). */
module HyperliquidPerpsToDune {
  import opened Wrappers
  import opened Py
  import opened Calendar
  import opened Text
  import opened Sorting

  /** The header `write_csv` puts above the rows. */
  const Header: seq<string> := [
    "date", "volume_usd", "open_interest_usd",
    "snapshot_volume_24h", "snapshot_volume_7d", "snapshot_volume_30d",
    "snapshot_open_interest_now", "snapshot_total_volume", "as_of_utc"]

  /** The counters `pick_snapshot` collects, in the order the rows carry them. */
  const SnapshotKeys: seq<string> := ["volume24h", "volume7d", "volume30d", "openInterest", "totalVolume"]

  /** One output row: the nine cells under `Header`. */
  type Row = seq<string>

  /** The snapshot dict: each counter's value, None (JNull) when absent. */
  type Snapshot = map<string, Json>

  // ---------- shape detection ----------

  /** The value at a path of object keys, if every step is an object holding
      the next key. */
  function Dig(j: Json, path: seq<string>): Option<Json>
    decreases |path|
  {
    if path == [] then Some(j)
    else if j.JObj? && path[0] in j.fields then Dig(j.fields[path[0]], path[1..])
    else None
  }

  lemma DigKeys(j: Json)
    ensures forall k :: Dig(j, [k]) == (if j.JObj? && k in j.fields then Some(j.fields[k]) else None)
    ensures forall k :: (Dig(j, ["data", k]) ==
      if j.JObj? && "data" in j.fields && j.fields["data"].JObj? && k in j.fields["data"].fields
      then Some(j.fields["data"].fields[k]) else None)
  {
    forall k ensures Dig(j, [k]) == if j.JObj? && k in j.fields then Some(j.fields[k]) else None {
      assert [k][1..] == [];
    }
    forall k ensures Dig(j, ["data", k]) ==
      if j.JObj? && "data" in j.fields && j.fields["data"].JObj? && k in j.fields["data"].fields
      then Some(j.fields["data"].fields[k]) else None
    {
      assert ["data", k][1..] == [k] && [k][1..] == [];
      if j.JObj? && "data" in j.fields {
        var d := j.fields["data"];
        assert Dig(j, ["data", k]) == Dig(d, [k]);
        if d.JObj? && k in d.fields {
          assert Dig(d, [k]) == Dig(d.fields[k], []);
        }
      }
    }
  }

  /** `isinstance(v, list) and v`. */
  predicate IsSeries(v: Option<Json>) {
    v.Some? && v.value.JList? && v.value.items != []
  }

  /** The items of the first path, in order, holding a non-empty list; [] if none does. */
  function FirstSeries(j: Json, paths: seq<seq<string>>): (r: seq<Json>)
    ensures r == [] <==> forall k :: 0 <= k < |paths| ==> !IsSeries(Dig(j, paths[k]))
    ensures r != [] ==> exists k :: FirstSeriesAt(j, paths, k) && r == Dig(j, paths[k]).value.items
    decreases |paths|
  {
    if paths == [] then []
    else if IsSeries(Dig(j, paths[0])) then
      assert FirstSeriesAt(j, paths, 0);
      Dig(j, paths[0]).value.items
    else
      var r := FirstSeries(j, paths[1..]);
      assert forall k :: 1 <= k < |paths| ==> paths[k] == paths[1..][k - 1];
      if r != [] then
        var k :| FirstSeriesAt(j, paths[1..], k) && r == Dig(j, paths[1..][k]).value.items;
        assert FirstSeriesAt(j, paths, k + 1);
        r
      else r
  }

  /** Path k is the first that leads to a non-empty list. */
  predicate FirstSeriesAt(j: Json, paths: seq<seq<string>>, k: int) {
    0 <= k < |paths| && IsSeries(Dig(j, paths[k])) &&
    forall i :: 0 <= i < k ==> !IsSeries(Dig(j, paths[i]))
  }

  /** The paths `pick_daily_series` tries, in order. */
  const SeriesPaths: seq<seq<string>> := [["dailyVolume"], ["data", "dailyVolume"]]

  /** `j.get("data", {})` fails with AttributeError on `.get` when "data" is
      present but not an object. */
  predicate DataNotObject(j: Json) {
    j.JObj? && "data" in j.fields && !j.fields["data"].JObj?
  }

  /** `pick_daily_series`: the first non-empty `dailyVolume` list, at top level
      then under `data`, never the two merged. */
  function PickDailySeries(j: Json): (r: Result<seq<Json>>)
    ensures r.Err? <==> !IsSeries(Dig(j, ["dailyVolume"])) && DataNotObject(j)
    ensures r.Err? ==> r.error == AttributeError
    ensures r.Ok? ==> r.value == FirstSeries(j, SeriesPaths)
  {
    if !j.JObj? then Ok([])
    else
      var dv := Get(j.fields, "dailyVolume");
      if dv.JList? && dv.items != [] then Ok(dv.items)
      else
        var data := if "data" in j.fields then j.fields["data"] else JObj(map[]);
        if !data.JObj? then Err(AttributeError)
        else
          var nested := Get(data.fields, "dailyVolume");
          if nested.JList? && nested.items != [] then Ok(nested.items) else Ok([])
  }

  /** `pick_snapshot`: the five counters, each taken from the top level when
      the key is there (even holding null), else from `data`, else None.
      `data.get(k)` is evaluated in every case, so a non-object `data` fails. */
  function PickSnapshot(j: Json): (r: Result<Snapshot>)
    ensures r.Err? <==> DataNotObject(j)
    ensures r.Err? ==> r.error == AttributeError
    ensures r.Ok? ==> r.value.Keys == set k | k in SnapshotKeys
    ensures r.Ok? ==> forall k :: k in SnapshotKeys ==>
      r.value[k] == match Dig(j, [k])
        case Some(v) => v
        case None => (match Dig(j, ["data", k]) case Some(v) => v case None => JNull)
  {
    DigKeys(j);
    var src := if j.JObj? then j.fields else map[];
    var data := if "data" in src then src["data"] else JObj(map[]);
    if !data.JObj? then Err(AttributeError)
    else Ok(map k | k in SnapshotKeys :: if k in src then src[k] else Get(data.fields, k))
  }

  // ---------- normalization ----------

  /** `ts_to_date_str`: the `YYYY-MM-DD` UTC date of unix time ts; None where
      Python raises (years outside 1..9999). */
  function TsToDateStr(ts: int): (r: Option<string>)
    ensures r.Some? <==> MinTimestamp <= ts <= MaxTimestamp
    ensures r.Some? ==> IsoShape(r.value)
  {
    match TsToDate(ts)
    case Some(d) => IsoDateShape(d); Some(IsoDate(d))
    case None => None
  }

  /** The text names the UTC day holding ts: it reads back as a valid date
      whose day number k satisfies k * 86400 <= ts < (k + 1) * 86400. */
  lemma TsToDateStrDay(ts: int)
    requires MinTimestamp <= ts <= MaxTimestamp
    ensures Valid(ParseIso(TsToDateStr(ts).value))
    ensures var k := Ordinal(ParseIso(TsToDateStr(ts).value)) - EpochOrdinal;
      k * DaySeconds <= ts < k * DaySeconds + DaySeconds
  {
    IsoDateRoundTrip(TsToDate(ts).value);
  }

  /** The `""`-or-`:.6f` cells of several values, or None as soon as one
      `float()` raises: a row is built whole or not at all. */
  function Cells6(lib: Lib, vs: seq<Json>): (r: Option<seq<string>>)
    ensures r.Some? <==> forall i :: 0 <= i < |vs| ==> Cell6(lib, vs[i]).Some?
    ensures r.Some? ==>
      |r.value| == |vs| &&
      forall i :: 0 <= i < |vs| ==> Cell6(lib, vs[i]) == Some(r.value[i])
    decreases |vs|
  {
    if vs == [] then Some([])
    else
      match (Cell6(lib, vs[0]), Cells6(lib, vs[1..]))
      case (Some(c), Some(cs)) =>
        assert forall i :: 1 <= i < |vs| ==> vs[i] == vs[1..][i - 1];
        Some([c] + cs)
      case (None, _) => None
      case (_, None) =>
        assert forall i :: 1 <= i < |vs| ==> vs[i] == vs[1..][i - 1];
        None
  }

  /** The snapshot values in row order (`snap.get(k)`). */
  function SnapshotValues(snap: Snapshot): seq<Json> {
    seq(|SnapshotKeys|, i requires 0 <= i < |SnapshotKeys| =>
      if SnapshotKeys[i] in snap then snap[SnapshotKeys[i]] else JNull)
  }

  /** The row of an item dated ts (unix seconds) with the given volume and
      open interest: None where a conversion raises. */
  function BuildRow(lib: Lib, ts: int, volume: Json, openInterest: Json, snap: Snapshot, stamp: string): (r: Option<Row>)
    ensures r.Some? <==>
      TsToDateStr(ts).Some? && Cells6(lib, [volume, openInterest]).Some? && Cells6(lib, SnapshotValues(snap)).Some?
    ensures r.Some? ==>
      r.value == [TsToDateStr(ts).value] + Cells6(lib, [volume, openInterest]).value
                 + Cells6(lib, SnapshotValues(snap)).value + [stamp]
  {
    match TsToDateStr(ts)
    case None => None
    case Some(d) =>
      match Cells6(lib, [volume, openInterest])
      case None => None
      case Some(own) =>
        match Cells6(lib, SnapshotValues(snap))
        case None => None
        case Some(shared) => Some([d] + own + shared + [stamp])
  }

  /** The body of the `try` in `normalize_rows` for one item, with `stamp`
      the clock reading it takes: None where the item is skipped (not an
      object, no `date`, or any conversion raising). */
  function ConvertItem(lib: Lib, item: Json, snap: Snapshot, stamp: string): (r: Option<Row>)
    ensures !item.JObj? || Get(item.fields, "date").JNull? ==> r.None?
    ensures r.Some? ==>
      |r.value| == |Header| && IsoShape(r.value[0]) && r.value[8] == stamp &&
      Cells6(lib, SnapshotValues(snap)) == Some(r.value[3..8]) &&
      Cell6(lib, Get(item.fields, "volume")) == Some(r.value[1]) &&
      Cell6(lib, Get(item.fields, "openInterest")) == Some(r.value[2])
  {
    if !item.JObj? then None
    else
      var ts := Get(item.fields, "date");
      if ts.JNull? then None
      else match IntOf(lib, ts)
        case Err(_) => None
        case Ok(t) =>
          var row := BuildRow(lib, t, Get(item.fields, "volume"), Get(item.fields, "openInterest"), snap, stamp);
          if row.Some? then
            assert row.value[3..8] == Cells6(lib, SnapshotValues(snap)).value;
            row
          else row
  }

  /** The `rows` list after the first loop: the converted items in input
      order, item i converted with clock reading `stamp(i)`. */
  function Parsed(lib: Lib, daily: seq<Json>, snap: Snapshot, stamp: nat -> string): (rows: seq<Row>)
    ensures |rows| <= |daily|
    ensures forall k :: 0 <= k < |rows| ==>
      |rows[k]| == |Header| && IsoShape(rows[k][0]) &&
      Cells6(lib, SnapshotValues(snap)) == Some(rows[k][3..8])
    decreases |daily|
  {
    if daily == [] then []
    else
      var n := |daily| - 1;
      var init := Parsed(lib, daily[..n], snap, stamp);
      match ConvertItem(lib, daily[n], snap, stamp(n))
      case Some(row) => init + [row]
      case None => init
  }

  /** Some row is dated d. */
  ghost predicate HasDate(rows: seq<Row>, d: string) {
    exists i :: 0 <= i < |rows| && |rows[i]| > 0 && rows[i][0] == d
  }

  /** Rows keyed by their date cell, as the dedup loop stores them. */
  function Keyed(rows: seq<Row>): (ps: seq<(string, Row)>)
    requires forall k :: 0 <= k < |rows| ==> |rows[k]| > 0
    ensures |ps| == |rows|
  {
    seq(|rows|, k requires 0 <= k < |rows| => (rows[k][0], rows[k]))
  }

  /** The returned list: for each date, the last row with that date, in
      ascending date order. */
  ghost function Dedup(rows: seq<Row>): (r: seq<Row>)
    requires forall k :: 0 <= k < |rows| ==> |rows[k]| > 0
    ensures r == [] <==> rows == []
  {
    var last := LastWins(Keyed(rows));
    var dates := SortSet(last.Keys);
    assert rows != [] ==> Keyed(rows)[|rows| - 1].0 in dates;
    seq(|dates|, i requires 0 <= i < |dates| => last[dates[i]])
  }

  /** Converting one more item extends the rows by that item's row, if any. */
  lemma ParsedStep(lib: Lib, daily: seq<Json>, snap: Snapshot, stamp: nat -> string, i: nat)
    requires i < |daily|
    ensures var c := ConvertItem(lib, daily[i], snap, stamp(i));
      Parsed(lib, daily[..i + 1], snap, stamp) ==
      Parsed(lib, daily[..i], snap, stamp) + (if c.Some? then [c.value] else [])
  {
    assert daily[..i + 1][..i] == daily[..i];
  }

  /** The first loop of `normalize_rows`: converts the items in order,
      counting the skipped ones in `bad`. */
  method ParseItems(lib: Lib, daily: seq<Json>, snap: Snapshot, stamp: nat -> string)
    returns (rows: seq<Row>, bad: nat)
    ensures rows == Parsed(lib, daily, snap, stamp)
    ensures bad == |daily| - |rows|
  {
    rows := [];
    bad := 0;
    var i := 0;
    while i < |daily|
      invariant 0 <= i <= |daily|
      invariant rows == Parsed(lib, daily[..i], snap, stamp)
      invariant bad == i - |rows|
    {
      ParsedStep(lib, daily, snap, stamp, i);
      var c := ConvertItem(lib, daily[i], snap, stamp(i));
      if c.Some? {
        rows := rows + [c.value];
      } else {
        bad := bad + 1;
      }
      i := i + 1;
    }
    assert daily[..i] == daily;
  }

  /** The second loop of `normalize_rows`: `last_by_date[r[0]] = r` for every row. */
  method IndexByDate(rows: seq<Row>) returns (lastByDate: map<string, Row>)
    requires forall k :: 0 <= k < |rows| ==> |rows[k]| > 0
    ensures lastByDate == LastWins(Keyed(rows))
  {
    lastByDate := map[];
    var j := 0;
    while j < |rows|
      invariant 0 <= j <= |rows|
      invariant lastByDate == LastWins(Keyed(rows[..j]))
    {
      assert Keyed(rows[..j + 1])[..j] == Keyed(rows[..j]);
      lastByDate := lastByDate[rows[j][0] := rows[j]];
      j := j + 1;
    }
    assert rows[..j] == rows;
  }

  /** `normalize_rows`: converts the items (counting the skipped ones in
      `bad`), keeps the last row per date and sorts by date. */
  method NormalizeRows(lib: Lib, daily: seq<Json>, snap: Snapshot, stamp: nat -> string)
    returns (out: seq<Row>, bad: nat)
    ensures bad == |daily| - |Parsed(lib, daily, snap, stamp)|
    ensures out == Dedup(Parsed(lib, daily, snap, stamp))
  {
    var rows;
    rows, bad := ParseItems(lib, daily, snap, stamp);
    var lastByDate := IndexByDate(rows);
    var dates := SortedKeys(lastByDate.Keys);
    out := seq(|dates|, k requires 0 <= k < |dates| => lastByDate[dates[k]]);
  }

  /** Row i of the deduplicated list is the last row carrying the i-th
      smallest date. */
  lemma DedupAt(rows: seq<Row>, i: int)
    requires forall k :: 0 <= k < |rows| ==> |rows[k]| > 0
    requires 0 <= i < |Dedup(rows)|
    ensures |Dedup(rows)[i]| > 0
    ensures Dedup(rows)[i][0] == SortSet(LastWins(Keyed(rows)).Keys)[i]
    ensures exists k :: LastWith(Keyed(rows), Dedup(rows)[i][0], k) && rows[k] == Dedup(rows)[i]
  {
    var ps := Keyed(rows);
    var last := LastWins(ps);
    var dates := SortSet(last.Keys);
    assert Dedup(rows)[i] == last[dates[i]];
    LastWinsSpec(ps, dates[i]);
    var k :| LastWith(ps, dates[i], k) && ps[k].1 == last[dates[i]];
    assert rows[k] == Dedup(rows)[i];
  }

  /** Deduplication keeps at most one row per input row, orders the rows by
      strictly ascending date, and takes each from the last row with its date. */
  lemma DedupOrder(rows: seq<Row>)
    requires forall k :: 0 <= k < |rows| ==> |rows[k]| > 0
    ensures |Dedup(rows)| <= |rows|
    ensures forall i :: 0 <= i < |Dedup(rows)| ==>
      |Dedup(rows)[i]| > 0 && exists k :: LastWith(Keyed(rows), Dedup(rows)[i][0], k) && rows[k] == Dedup(rows)[i]
    ensures forall i, j :: 0 <= i < j < |Dedup(rows)| ==> Below(Dedup(rows)[i][0], Dedup(rows)[j][0])
  {
    LastWinsSize(Keyed(rows));
    forall i | 0 <= i < |Dedup(rows)|
      ensures |Dedup(rows)[i]| > 0
      ensures exists k :: LastWith(Keyed(rows), Dedup(rows)[i][0], k) && rows[k] == Dedup(rows)[i]
      ensures Dedup(rows)[i][0] == SortSet(LastWins(Keyed(rows)).Keys)[i]
    {
      DedupAt(rows, i);
    }
  }

  /** Deduplication loses no date and invents none. */
  lemma DedupDates(rows: seq<Row>)
    requires forall k :: 0 <= k < |rows| ==> |rows[k]| > 0
    ensures forall d :: HasDate(Dedup(rows), d) <==> HasDate(rows, d)
  {
    var ps := Keyed(rows);
    var dates := SortSet(LastWins(ps).Keys);
    forall d ensures HasDate(Dedup(rows), d) <==> HasDate(rows, d) {
      LastWinsSpec(ps, d);
      if HasDate(rows, d) {
        var k :| 0 <= k < |rows| && |rows[k]| > 0 && rows[k][0] == d;
        assert ps[k].0 == d;
        var i :| 0 <= i < |dates| && dates[i] == d;
        DedupAt(rows, i);
      }
      if HasDate(Dedup(rows), d) {
        var i :| 0 <= i < |Dedup(rows)| && |Dedup(rows)[i]| > 0 && Dedup(rows)[i][0] == d;
        DedupAt(rows, i);
      }
    }
  }

  /** What the returned rows satisfy: at most one per input item, dates
      strictly ascending, exactly the dates of the parsed rows, each row the
      last parsed row with its date, every row nine cells with the same
      snapshot cells. */
  lemma DedupSpec(lib: Lib, daily: seq<Json>, snap: Snapshot, stamp: nat -> string)
    ensures var rows := Parsed(lib, daily, snap, stamp);
      var out := Dedup(rows);
      && |out| <= |daily|
      && (forall i :: 0 <= i < |out| ==> |out[i]| == |Header| && Cells6(lib, SnapshotValues(snap)) == Some(out[i][3..8]))
      && (forall i, j :: 0 <= i < j < |out| ==> Below(out[i][0], out[j][0]))
      && (forall d :: HasDate(out, d) <==> HasDate(rows, d))
      && (forall i :: 0 <= i < |out| ==> exists k :: LastWith(Keyed(rows), out[i][0], k) && rows[k] == out[i])
  {
    var rows := Parsed(lib, daily, snap, stamp);
    var out := Dedup(rows);
    DedupOrder(rows);
    DedupDates(rows);
    forall i | 0 <= i < |out|
      ensures |out[i]| == |Header| && Cells6(lib, SnapshotValues(snap)) == Some(out[i][3..8])
    {
      var k :| LastWith(Keyed(rows), out[i][0], k) && rows[k] == out[i];
    }
  }

  /** The one item `main` normalises when no daily series is found: dated now. */
  function NowItem(now: int): Json {
    JObj(map["date" := JInt(now)])
  }

  /** `main` from the fetched payload on: a missing series falls back to a
      single snapshot-only point dated `now` (unix seconds). */
  method Run(lib: Lib, j: Json, now: int, stamp: nat -> string) returns (r: Result<seq<Row>>)
    ensures PickDailySeries(j).Err? || PickSnapshot(j).Err? <==> r.Err?
    ensures r.Err? ==> r.error == AttributeError
    ensures r.Ok? ==>
      var daily := PickDailySeries(j).value;
      var items := if daily == [] then [NowItem(now)] else daily;
      r.value == Dedup(Parsed(lib, items, PickSnapshot(j).value, stamp))
  {
    var daily := PickDailySeries(j);
    if daily.Err? {
      return Err(daily.error);
    }
    var snap := PickSnapshot(j);
    if snap.Err? {
      return Err(snap.error);
    }
    var rows, bad;
    if daily.value == [] {
      rows, bad := NormalizeRows(lib, [NowItem(now)], snap.value, stamp);
    } else {
      rows, bad := NormalizeRows(lib, daily.value, snap.value, stamp);
    }
    r := Ok(rows);
  }

  /** The item dated now converts exactly when the clock is in range and the
      snapshot converts, into a row with empty volume and open interest. */
  lemma NowItemRow(lib: Lib, snap: Snapshot, now: int, stamp: string)
    ensures var r := ConvertItem(lib, NowItem(now), snap, stamp);
      && (r.Some? <==> TsToDateStr(now).Some? && Cells6(lib, SnapshotValues(snap)).Some?)
      && (r.Some? ==> r.value == [TsToDateStr(now).value] + ["", ""] + Cells6(lib, SnapshotValues(snap)).value + [stamp])
  {
    NowItemConvert(lib, snap, now, stamp);
    NullCells(lib);
  }

  /** The item dated now has no volume or open interest. */
  lemma NowItemConvert(lib: Lib, snap: Snapshot, now: int, stamp: string)
    ensures ConvertItem(lib, NowItem(now), snap, stamp) == BuildRow(lib, now, JNull, JNull, snap, stamp)
  {
    var item := NowItem(now);
    assert Get(item.fields, "date") == JInt(now);
    assert Get(item.fields, "volume") == JNull && Get(item.fields, "openInterest") == JNull;
  }

  /** Absent volume and open interest give two empty cells. */
  lemma NullCells(lib: Lib)
    ensures Cells6(lib, [JNull, JNull]) == Some(["", ""])
  {
    var own := Cells6(lib, [JNull, JNull]);
    assert Cell6(lib, [JNull, JNull][0]).Some? && Cell6(lib, [JNull, JNull][1]).Some?;
    assert own.value[0] == "" && own.value[1] == "" && |own.value| == 2;
    assert own.value == ["", ""];
  }

  /** A one-item series parses to the item's row, if it converts. */
  lemma ParsedSingle(lib: Lib, item: Json, snap: Snapshot, stamp: nat -> string)
    ensures Parsed(lib, [item], snap, stamp) ==
      match ConvertItem(lib, item, snap, stamp(0)) case Some(row) => [row] case None => []
  {
    assert [item][..0] == [];
  }

  /** A single row survives deduplication unchanged. */
  lemma DedupSingle(row: Row)
    requires |row| > 0
    ensures Dedup([row]) == [row]
  {
    var ps := Keyed([row]);
    assert ps == [(row[0], row)];
    assert ps[..0] == [];
    assert LastWins(ps) == map[row[0] := row];
    assert SortSet({row[0]}) == [row[0]];
  }

  /** Without a daily series the run emits one row exactly when the clock is
      in range and every snapshot counter converts; that row has empty volume
      and open-interest cells and carries only snapshot data. */
  lemma SnapshotOnlyRow(lib: Lib, snap: Snapshot, now: int, stamp: nat -> string)
    ensures var out := Dedup(Parsed(lib, [NowItem(now)], snap, stamp));
      && |out| <= 1
      && (|out| == 1 <==> MinTimestamp <= now <= MaxTimestamp && Cells6(lib, SnapshotValues(snap)).Some?)
      && (|out| == 1 ==>
            out[0] == [TsToDateStr(now).value] + ["", ""] + Cells6(lib, SnapshotValues(snap)).value + [stamp(0)])
  {
    var item := NowItem(now);
    var c := ConvertItem(lib, item, snap, stamp(0));
    NowItemRow(lib, snap, now, stamp(0));
    ParsedSingle(lib, item, snap, stamp);
    if c.Some? {
      DedupSingle(c.value);
    } else {
      assert Dedup([]) == [];
    }
  }
}
