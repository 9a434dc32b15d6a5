# Hyperliquid perps ETL — a Dafny model of its row shaping

The repository's scripts pull Hyperliquid perpetuals data from DeFiLlama
(a JSON summary, a derivatives overview, or CSV exports of its pages).
They shape it into rows of date, daily volume, open interest and snapshot
counters, and publish them to Dune: an overwriting CSV upload, a table
create followed by inserts, or a one-row append.
This project models the logic that decides those rows and the order of
the failures that stop a run. It proves what each script promises about
its output.

One module per script, on shared modules:

- `Wrappers`, `Py`: Python values. Decoded JSON, floats as IEEE-754 bit
  patterns with Python's truth value, the exceptions that end a run, and the
  library conversions (`float()`, `int()`, `:.6f`, `fromisoformat`) as a
  record of functions handed in.
- `Calendar`: the proleptic Gregorian calendar of `datetime.date`, the UTC
  day of a unix second, and `date.isoformat()` with its read-back.
- `Text`: `lower`, `strip`, `replace`, `in`, `startswith`, `isdigit`,
  slicing, `str(int)` and Python's string order.
- `Sorting`: `sorted()` over a set of strings, and the "later assignment
  wins" dict every script builds.
- `CsvTable`: the `csv.DictReader` table and the column heuristics shared by
  the CSV scripts.
- `DuneTable`: table schemas, create/insert requests and the tolerated
  "already exists" failure.
- `HyperliquidPerpsToDune` (`src/hyperliquid_perps_to_dune.py`): series and
  snapshot resolution, normalisation with per-item discard, de-duplication
  by date, and the snapshot-only fallback.
- `HlPerpsMergeUpload` (`src/hl_perps_merge_upload.py`): reading a CSV
  export into a date-keyed series, and merging the volume and open-interest
  series.
- `HlPerpsBackfillFromCsvCi` (`src/hl_perps_backfill_from_csv_ci.py`):
  series extraction, zero-defaulted daily records, and inserts in batches
  of 500.
- `HlPerpsAppendSnapshot` (`src/hl_perps_append_snapshot.py`): picking the
  Hyperliquid record, and the one-row append.
- `HlPerpsToDune` (`src/hl_perps_to_dune.py` and the identical
  `hl_perps_to_dune.py`): the bounded retry, the rolling-window filter, and
  the row shape.
- `HlPerpsSnapshotToDune` (`src/hl_perps_snapshot_to_dune.py`): leaderboard
  row selection, the one-row output, and page fallback.

Code that loops or updates state is a method with loop invariants, proved
equal to a specification function. The properties are then lemmas about
that function. Clock readings, HTTP replies and file contents are
parameters.

Three behaviours of the scripts shape the model:

- `as_of_utc` is re-read for every row in `src/hyperliquid_perps_to_dune.py`
  and `src/hl_perps_merge_upload.py`. It is a per-row `stamp: nat -> string`
  there. The backfill script and `build_csv` read the clock once per run.
- In `build_csv`, an item whose date does not convert aborts the run. It is
  not skipped.
- When every page fails, the snapshot script raises only the last page's
  exception.

## Model

| member | source | states |
|---|---|---|
| Calendar.TsToDate | src/hyperliquid_perps_to_dune.py:85 | defined exactly for unix seconds whose UTC year is in 1..9999; the day found is the one `floor(ts / 86400)` days after 1970-01-01 |
| Calendar.FromOrdinal | src/hl_perps_to_dune.py:37 | `date.fromordinal(n)`: a valid date whose ordinal is n, for every n in 1..3652059 |
| Calendar.CalendarConstants | src/hyperliquid_perps_to_dune.py:85 | the epoch ordinal 719163 is 1970-01-01, 3652059 is 9999-12-31, and the timestamp bounds are those days' first and last seconds |
| Calendar.IsoDate | src/hyperliquid_perps_to_dune.py:85 | `date.isoformat()` is ten characters |
| Calendar.IsoDateShape | src/hyperliquid_perps_to_dune.py:85 | the text has the `DDDD-DD-DD` shape |
| Calendar.IsoDateRoundTrip | src/hyperliquid_perps_to_dune.py:85 | reading the ISO text back gives the same year, month and day |
| Calendar.IsoDateInjective | src/hl_perps_merge_upload.py:58 | distinct dates have distinct ISO texts |
| Py.FromIso | src/hl_perps_merge_upload.py:60 | `fromisoformat` never accepts the empty string |
| Py.IntOf | src/hyperliquid_perps_to_dune.py:95 | `int()` maps an int to itself and a bool to 0/1; it raises TypeError on None, a list or a dict |
| Py.FloatOf | src/hyperliquid_perps_to_dune.py:98 | `float()` maps a float to itself; it raises TypeError on None, a list or a dict |
| Py.Cell6 | src/hyperliquid_perps_to_dune.py:98-104 | None gives an empty cell, not zero; any other value gives a cell exactly when `float()` succeeds, formatted with `:.6f` |
| Text.Lower | src/hl_perps_append_snapshot.py:52 | `lower()` keeps the length |
| Text.ContainsAt | src/hl_perps_backfill_from_csv_ci.py:58 | `p in s` holds exactly when p occurs at some position of s |
| Text.Strip | src/hl_perps_merge_upload.py:48 | `strip()` is the piece s[i..j] with only white space before i and after j, and no white space at its own ends: exactly the surrounding white space is removed |
| Text.StripPadded | src/hl_perps_merge_upload.py:48 | a text without white space at its ends, padded with white space on both sides, strips back to itself |
| Text.RemoveAll | src/hl_perps_merge_upload.py:60 | `replace(c, "")` leaves no c, and keeps every other character and no new one |
| Text.RemoveAllAppend | src/hl_perps_merge_upload.py:60 | removal works piece by piece: `(a + b).replace(c, "")` is `a.replace(c, "") + b.replace(c, "")`, so the kept characters stay in order |
| Text.RemoveAllCount | src/hl_perps_merge_upload.py:60 | every character other than c is kept exactly as often as it occurs |
| Text.Prefix | src/hl_perps_merge_upload.py:63 | `s[:n]` is a prefix of s of length min(n, len(s)) |
| Text.NaturalText | src/hl_perps_to_dune.py:26 | `str(n)` of a natural number is non-empty decimal digits, led by 0 only for n = 0 |
| Text.NaturalTextSpells | src/hl_perps_to_dune.py:26 | the digits of `str(n)` spell n, with no leading zero |
| Text.DecimalText | src/hl_perps_to_dune.py:26 | `str(n)` starts with '-' exactly for negative n |
| Text.DecimalTextSpells | src/hl_perps_to_dune.py:26 | `str(n)` is a '-' for negative n followed by the digits that spell \|n\|, and the digits of n otherwise |
| Text.BelowIrreflexive | src/hyperliquid_perps_to_dune.py:113 | no string sorts before itself |
| Text.BelowTransitive | src/hyperliquid_perps_to_dune.py:113 | string order is transitive |
| Text.BelowTotal | src/hyperliquid_perps_to_dune.py:113 | any two distinct strings are ordered one way |
| Text.BelowAsymmetric | src/hyperliquid_perps_to_dune.py:113 | string order is asymmetric |
| Sorting.Insert | src/hyperliquid_perps_to_dune.py:113 | inserting keeps the sequence strictly ascending and adds exactly one element |
| Sorting.AscendingUnique | src/hyperliquid_perps_to_dune.py:113 | two strictly ascending sequences with the same elements are equal, so `sorted` of a set has one answer |
| Sorting.SortSet | src/hyperliquid_perps_to_dune.py:113 | `sorted(keys)` is strictly ascending and holds exactly the keys |
| Sorting.SortedKeys | src/hl_perps_merge_upload.py:94 | the insertion loop computes `sorted(keys)` |
| Sorting.LastWinsSpec | src/hyperliquid_perps_to_dune.py:111-112 | a key is in the dict exactly when some assignment wrote it, and its value is the one the last such assignment wrote |
| Sorting.LastWinsSize | src/hyperliquid_perps_to_dune.py:111-112 | the dict has no more keys than there were assignments |
| CsvTable.CellAt | src/hl_perps_merge_upload.py:48 | `r.get(col)` is present exactly when a column was chosen and the row has that field |
| CsvTable.FindColumn | src/hl_perps_merge_upload.py:40-41 | the first column whose lower-cased name is in the set, or None when no column qualifies |
| CsvTable.MetricColumns | src/hl_perps_merge_upload.py:43-44 | exactly the columns whose lower-cased name contains "volume", or for open interest contains "open interest" or equals "openinterest" |
| CsvTable.MetricColumnsAppend | src/hl_perps_merge_upload.py:43-44 | the columns are chosen one by one, so they keep header order: the columns of a + b are those of a, then those of b |
| CsvTable.CleanNumber | src/hl_perps_merge_upload.py:69 | the cleaned text has no `$` or `,` and no white space at either end |
| CsvTable.CleanNumberKeeps | src/hl_perps_merge_upload.py:69 | the cleaned text is the cell without the white space, `$` and `,` at its ends and without the `$` and `,` inside it; nothing else is removed |
| CsvTable.ParseNum | src/hl_perps_merge_upload.py:67-73 | None for a missing or empty cell; otherwise a number exactly when `float()` of the cleaned text succeeds, and then that number |
| CsvTable.FirstSome | src/hl_perps_merge_upload.py:76-83 | the first present value, or None when every value is absent |
| CsvTable.FirstSomeStep | src/hl_perps_merge_upload.py:76-83 | the scan from position i takes the value at i when present, else continues past it |
| CsvTable.MetricValues | src/hl_perps_merge_upload.py:76-83 | one parse per metric column |
| CsvTable.ScanMetric | src/hl_perps_backfill_from_csv_ci.py:72-75 | the loop with `break` returns the first metric column that parses |
| CsvTable.IsoOrPrefix | src/hl_perps_merge_upload.py:59-63 | with the `Z`s removed: an ISO date is re-emitted as its `DDDD-DD-DD` day; anything else is cut to its first 10 characters; never longer than 10 |
| DuneTable.Keys | src/hl_perps_append_snapshot.py:60-68 | a record's keys, one per field |
| DuneTable.ColumnNames | src/hl_perps_append_snapshot.py:30-38 | a schema's column names, one per column |
| DuneTable.CreateRequestFor | src/hl_perps_append_snapshot.py:28-39 | the create payload `ensure_table` posts: public, with the table name and the schema, names and types |
| DuneTable.EnsureTable | src/hl_perps_append_snapshot.py:40-45 | a create failure is swallowed exactly when its lower-cased text contains "already exists"; any other failure propagates |
| DuneTable.AlreadyExistsAnyCase | src/hl_perps_append_snapshot.py:44 | "Table ALREADY EXISTS" is swallowed: the test ignores letter case |
| DuneTable.OtherFailureRaises | src/hl_perps_append_snapshot.py:44-45 | "permission denied" is not swallowed |
| DuneTable.AlreadyExistsAnywhere | src/hl_perps_append_snapshot.py:44 | for every text: the failure is swallowed exactly when some 14-character piece of it reads "already exists" once lower-cased |
| HyperliquidPerpsToDune.DigKeys | src/hyperliquid_perps_to_dune.py:62-80 | a top-level lookup and a lookup under `data` find the stored value, or nothing |
| HyperliquidPerpsToDune.PickDailySeries | src/hyperliquid_perps_to_dune.py:59-70 | the top-level `dailyVolume` if it is a non-empty list, else `data.dailyVolume` if it is one, else empty, never both merged; AttributeError exactly when the top level has no series and `data` is not an object |
| HyperliquidPerpsToDune.FirstSeries | src/hyperliquid_perps_to_dune.py:59-70 | the items of the first path leading to a non-empty list; empty exactly when no path does |
| HyperliquidPerpsToDune.PickSnapshot | src/hyperliquid_perps_to_dune.py:76-81 | exactly the five keys; a key present at top level wins even when null, else the `data` value, else None; AttributeError exactly when `data` is not an object |
| HyperliquidPerpsToDune.TsToDateStr | src/hyperliquid_perps_to_dune.py:84-85 | defined exactly for seconds in Python's date range, with `DDDD-DD-DD` shape |
| HyperliquidPerpsToDune.TsToDateStrDay | src/hyperliquid_perps_to_dune.py:84-85 | the text names the valid day lying `floor(ts / 86400)` days after 1970-01-01 |
| HyperliquidPerpsToDune.Cells6 | src/hyperliquid_perps_to_dune.py:98-104 | the cells exist exactly when every value formats, one cell per value |
| HyperliquidPerpsToDune.BuildRow | src/hyperliquid_perps_to_dune.py:95-106 | a row exactly when the date and all seven values convert: date, two own cells, five snapshot cells, stamp |
| HyperliquidPerpsToDune.ConvertItem | src/hyperliquid_perps_to_dune.py:90-108 | a non-dict item or a missing or null date gives no row; a row is the item's `BuildRow` |
| HyperliquidPerpsToDune.Parsed | src/hyperliquid_perps_to_dune.py:88-108 | items are dropped whole, never partially: at most one row per item, each nine cells with the shared snapshot cells |
| HyperliquidPerpsToDune.Keyed | src/hyperliquid_perps_to_dune.py:111-112 | each row paired with its date |
| HyperliquidPerpsToDune.ParseItems | src/hyperliquid_perps_to_dune.py:88-108 | the first loop yields `Parsed` and counts every dropped item in `bad` |
| HyperliquidPerpsToDune.IndexByDate | src/hyperliquid_perps_to_dune.py:111-112 | the second loop builds the last-wins dict of rows by date |
| HyperliquidPerpsToDune.NormalizeRows | src/hyperliquid_perps_to_dune.py:87-113 | the output is the de-duplicated, date-sorted parsed rows, with the discard count |
| HyperliquidPerpsToDune.DedupAt | src/hyperliquid_perps_to_dune.py:111-113 | output row i has the i-th sorted date and is the last parsed row with that date |
| HyperliquidPerpsToDune.Dedup | src/hyperliquid_perps_to_dune.py:111-113 | the de-duplicated rows are empty exactly when the parsed rows are |
| HyperliquidPerpsToDune.DedupOrder | src/hyperliquid_perps_to_dune.py:113 | no longer than the input, and dates strictly ascending |
| HyperliquidPerpsToDune.DedupDates | src/hyperliquid_perps_to_dune.py:111-113 | the output dates are exactly the parsed rows' dates |
| HyperliquidPerpsToDune.DedupSpec | src/hyperliquid_perps_to_dune.py:87-113 | at most one row per input item; nine cells with identical snapshot cells; strictly ascending dates; one row per distinct parsed date; each row the last parsed one with its date |
| HyperliquidPerpsToDune.Run | src/hyperliquid_perps_to_dune.py:163-173 | fails exactly when series or snapshot resolution fails, and then always with AttributeError; otherwise normalises the series, or one item dated now when there is none |
| HyperliquidPerpsToDune.NowItemRow | src/hyperliquid_perps_to_dune.py:171 | the item dated now converts exactly when the clock is in range and the snapshot converts, with empty volume and open-interest cells |
| HyperliquidPerpsToDune.NowItemConvert | src/hyperliquid_perps_to_dune.py:171 | the item dated now has null volume and open interest |
| HyperliquidPerpsToDune.NullCells | src/hyperliquid_perps_to_dune.py:98-99 | null volume and open interest give two empty cells |
| HyperliquidPerpsToDune.ParsedSingle | src/hyperliquid_perps_to_dune.py:89-108 | a one-item series parses to that item's row, if it converts |
| HyperliquidPerpsToDune.DedupSingle | src/hyperliquid_perps_to_dune.py:111-113 | one row survives de-duplication unchanged |
| HyperliquidPerpsToDune.SnapshotOnlyRow | src/hyperliquid_perps_to_dune.py:167-171 | without a series, exactly one row when the clock is in range and the snapshot converts, carrying only snapshot data, else none |
| HlPerpsMergeUpload.NormalizeDate | src/hl_perps_merge_upload.py:54-63 | digit text in range becomes the ISO day of those seconds; other digit text is cut to 10 characters; non-digit text goes through `fromisoformat` with the cut as fallback |
| HlPerpsMergeUpload.LayoutOf | src/hl_perps_merge_upload.py:40-44 | the date and name columns are header columns whose lower-cased names mark them; the metric columns are header columns of their kind |
| HlPerpsMergeUpload.Kept | src/hl_perps_merge_upload.py:47-53 | a row is kept only when the table has both a name and a date column |
| HlPerpsMergeUpload.FieldOf | src/hl_perps_merge_upload.py:75-83 | the key is missing exactly when there are no metric columns, and holds a number exactly when some column parses, namely the first one |
| HlPerpsMergeUpload.RowEntry | src/hl_perps_merge_upload.py:65-83 | the entry's volume and open interest come from their column scans; its date is an ISO day or the raw text cut to 10 characters |
| HlPerpsMergeUpload.ReadRow | src/hl_perps_merge_upload.py:47-85 | a row yields an entry exactly when its stripped name contains "hyperliquid" and its date cell is non-empty |
| HlPerpsMergeUpload.Entries | src/hl_perps_merge_upload.py:46-85 | at most one entry per row |
| HlPerpsMergeUpload.ByDate | src/hl_perps_merge_upload.py:88-90 | each entry keyed by its date, in order |
| HlPerpsMergeUpload.CollectEntries | src/hl_perps_merge_upload.py:46-85 | the append loop yields the entries |
| HlPerpsMergeUpload.IndexByDate | src/hl_perps_merge_upload.py:87-91 | the loop builds the last-wins dict by date |
| HlPerpsMergeUpload.ReadFirstSeries | src/hl_perps_merge_upload.py:21-91 | a missing file exits with "Missing CSV: path"; a header-only file fails at `rows[0]`; otherwise the last-wins dict of the entries |
| HlPerpsMergeUpload.ReadFirstSeriesSpec | src/hl_perps_merge_upload.py:87-91 | a date is a key exactly when some entry has it, and maps to the last such entry |
| HlPerpsMergeUpload.Prefer | src/hl_perps_merge_upload.py:99-100 | `v.get(k, o.get(k))`: the first map's key wins when present, even if null |
| HlPerpsMergeUpload.FieldCell | src/hl_perps_merge_upload.py:102-103 | an empty cell for a missing or null value, else the `:.6f` text |
| HlPerpsMergeUpload.MergedRow | src/hl_perps_merge_upload.py:96-104 | four cells: the date, volume, open interest and stamp; a date in neither map gets two empty cells |
| HlPerpsMergeUpload.MergeRows | src/hl_perps_merge_upload.py:95-105 | one merged row per date, in order |
| HlPerpsMergeUpload.MergeSeries | src/hl_perps_merge_upload.py:93-105 | one row per date in the union of both maps, in `sorted` order |
| HlPerpsMergeUpload.MergedRowsOrder | src/hl_perps_merge_upload.py:94-105 | rows are four cells led by their date, and strictly ascending by date |
| HlPerpsMergeUpload.MergedPrecedence | src/hl_perps_merge_upload.py:97-100 | volume prefers the volume file and open interest the open-interest file, each falling back to the other |
| HlPerpsMergeUpload.MergeSeriesDates | src/hl_perps_merge_upload.py:94 | the merged dates are exactly the dates of either series, each once |
| HlPerpsMergeUpload.Run | src/hl_perps_merge_upload.py:138-143 | the volume file is read first and its error wins; then the open-interest file's "Missing CSV" exit or `rows[0]` IndexError; the run succeeds exactly when both files exist and have rows, and the rows are their merge |
| HlPerpsBackfillFromCsvCi.ParseCsv | src/hl_perps_backfill_from_csv_ci.py:37-44 | a missing file exits with "missing CSV: path"; otherwise the table |
| HlPerpsBackfillFromCsvCi.LayoutOf | src/hl_perps_backfill_from_csv_ci.py:50-54 | the date and name columns are header columns whose lower-cased names mark them; the metric columns are header columns of the kind asked |
| HlPerpsBackfillFromCsvCi.RowPoint | src/hl_perps_backfill_from_csv_ci.py:56-77 | a point exactly when the lower-cased name contains "hyperliquid" and the normalised date is non-empty; its value is the first metric column that parses |
| HlPerpsBackfillFromCsvCi.Points | src/hl_perps_backfill_from_csv_ci.py:56-77 | at most one point per row |
| HlPerpsBackfillFromCsvCi.CollectSeries | src/hl_perps_backfill_from_csv_ci.py:55-78 | the loop builds the last-wins dict of the points |
| HlPerpsBackfillFromCsvCi.ExtractSeries | src/hl_perps_backfill_from_csv_ci.py:46-78 | no rows give the empty dict; otherwise the last-wins dict under the columns chosen from the first row |
| HlPerpsBackfillFromCsvCi.LookValue | src/hl_perps_backfill_from_csv_ci.py:99 | `vol.get(d)`: None for an absent date |
| HlPerpsBackfillFromCsvCi.OrZero | src/hl_perps_backfill_from_csv_ci.py:99-100 | `float(x or 0)`: None and ±0.0 give 0.0; any other number is kept |
| HlPerpsBackfillFromCsvCi.DailyRecord | src/hl_perps_backfill_from_csv_ci.py:97-102 | the schema's four keys in order, the date first and the run time last, two numbers between |
| HlPerpsBackfillFromCsvCi.BuildRecords | src/hl_perps_backfill_from_csv_ci.py:96-102 | one record per date, in order |
| HlPerpsBackfillFromCsvCi.MergeDaily | src/hl_perps_backfill_from_csv_ci.py:93-102 | the records for the sorted union of dates |
| HlPerpsBackfillFromCsvCi.Merged | src/hl_perps_backfill_from_csv_ci.py:93-102 | one record per date of either series; empty exactly when both series are |
| HlPerpsBackfillFromCsvCi.RecordsShape | src/hl_perps_backfill_from_csv_ci.py:97-102 | each record's keys are the schema's names in order; it carries its date and the one run time; a zero value is always 0.0, never -0.0; ascending dates give distinct records |
| HlPerpsBackfillFromCsvCi.ZeroDefault | src/hl_perps_backfill_from_csv_ci.py:99-100 | a date absent from a series gets 0.0 for that metric |
| HlPerpsBackfillFromCsvCi.BatchInsert | src/hl_perps_backfill_from_csv_ci.py:80-83 | the inserts send every row once, in order, in ceil(n/500) requests of 1..500 rows, all but the last full |
| HlPerpsBackfillFromCsvCi.Run | src/hl_perps_backfill_from_csv_ci.py:85-107 | the create request carries the table name and schema; failures in the order table create, volume file, open-interest file; with both files read, an empty merge exits with "no merged rows", and otherwise the run succeeds and sends exactly the merged records |
| HlPerpsAppendSnapshot.CandidateArray | src/hl_perps_append_snapshot.py:49 | `protocols` if truthy, else `data` if truthy, else empty; AttributeError for a payload that is not an object |
| HlPerpsAppendSnapshot.CandidateDicts | src/hl_perps_append_snapshot.py:49-52 | a list yields its items; a string or dict yields no dicts; anything else raises TypeError |
| HlPerpsAppendSnapshot.IsHyperliquid | src/hl_perps_append_snapshot.py:50-52 | a dict whose slug is "hyperliquid" matches; a match is a dict with a slug or a name |
| HlPerpsAppendSnapshot.Candidates | src/hl_perps_append_snapshot.py:49-50 | fails exactly when the payload is not an object or the chosen value is not iterable |
| HlPerpsAppendSnapshot.FindRecord | src/hl_perps_append_snapshot.py:50-54 | the first dict whose slug is "hyperliquid" or whose lower-cased string name starts with "hyperliquid"; None exactly when none matches; a match is never the empty dict |
| HlPerpsAppendSnapshot.Counter | src/hl_perps_append_snapshot.py:58 | `f`: None (and an absent key) is 0.0, anything else goes through `float()` |
| HlPerpsAppendSnapshot.Counters | src/hl_perps_append_snapshot.py:62-66 | succeeds exactly when all five counters convert, with one value per key in order; otherwise the error of the first counter that fails |
| HlPerpsAppendSnapshot.CounterRecord | src/hl_perps_append_snapshot.py:60-68 | the dict has the create schema's names in order, today first, the run time last, and the five counters between in `CounterKeys` order |
| HlPerpsAppendSnapshot.SnapshotRow | src/hl_perps_append_snapshot.py:47-68 | exits with the not-found message when nothing matches; for a matched record, a row exactly when its counters convert, else the first failing counter's error; the row has the create schema's names in order, today and the run time at the ends, the five counters between |
| HlPerpsAppendSnapshot.MissingCountersReadZero | src/hl_perps_append_snapshot.py:58-66 | a matched record with no counters still gives a row, with five 0.0 values |
| HlPerpsAppendSnapshot.InsertRow | src/hl_perps_append_snapshot.py:70-71 | the insert's `data` is the one-element list holding the row |
| HlPerpsAppendSnapshot.Run | src/hl_perps_append_snapshot.py:73-77 | the create request carries the table name and schema; a create failure other than "already exists" stops the run first; then the row's error, or one insert of that row |
| HlPerpsToDune.HttpGetJson | src/hl_perps_to_dune.py:19-26 | at most `retries` attempts; every attempt before the last got a non-200 reply; returns the first 200 reply's decoded body; all non-200 raises "GET failed …"; no attempts leaves `r` unbound |
| HlPerpsToDune.Cutoff | src/hl_perps_to_dune.py:37 | the day `rollingDays` before today, or OverflowError outside 0001-01-01..9999-12-31 |
| HlPerpsToDune.UtcDay | src/hl_perps_to_dune.py:41 | `utcfromtimestamp(ts).date()` for seconds in range, and None outside |
| HlPerpsToDune.ItemDate | src/hl_perps_to_dune.py:41 | TypeError for a non-dict item, KeyError for a missing date; otherwise the day of `int(r["date"])` when both convert |
| HlPerpsToDune.SharedCells | src/hl_perps_to_dune.py:48-53 | the last six columns, in header order |
| HlPerpsToDune.Row | src/hl_perps_to_dune.py:44-54 | the nine keys in header order: the ISO day, the raw volume and open interest, then the shared cells |
| HlPerpsToDune.Kept | hl_perps_to_dune.py:37-54 | the reference filter: one row per item dated on or after the cutoff, in input order |
| HlPerpsToDune.KeptAppend | src/hl_perps_to_dune.py:39-54 | filtering one more item adds its row last, if kept |
| HlPerpsToDune.Window | src/hl_perps_to_dune.py:38-54 | the loop yields at most one row per item |
| HlPerpsToDune.WindowStops | src/hl_perps_to_dune.py:39-41 | once an item's date fails, the loop's outcome is that exception |
| HlPerpsToDune.WindowSpec | src/hl_perps_to_dune.py:39-54 | the loop succeeds exactly when every item is dated, and then yields the reference filter; otherwise it raises the first undated item's exception |
| HlPerpsToDune.KeptShape | hl_perps_to_dune.py:44-54 | every kept row has the nine keys in header order and the same snapshot and `as_of_utc` |
| HlPerpsToDune.WindowRows | src/hl_perps_to_dune.py:38-58 | a result has between one row and one row per item; an empty window raises IndexError at `rows[0]` |
| HlPerpsToDune.WindowRowsSpec | hl_perps_to_dune.py:37-58 | rows exactly the kept items in input order, no sorting or de-duplication, each of header shape with the broadcast snapshot; an empty window fails at `rows[0]` |
| HlPerpsToDune.CsvRows | src/hl_perps_to_dune.py:37-58 | the cutoff's OverflowError comes first; then the window over the UTC days |
| HlPerpsToDune.ScanItems | src/hl_perps_to_dune.py:38-58 | the append loop with `continue`, then `rows[0]`, computes the window rows |
| HlPerpsToDune.BuildCsv | src/hl_perps_to_dune.py:28-61 | `build_csv` computes `CsvRows` |
| HlPerpsToDune.TopSnapshot | src/hl_perps_to_dune.py:87-93 | the snapshot holds each key's top-level value only |
| HlPerpsToDune.Run | src/hl_perps_to_dune.py:79-100 | a missing or empty `dailyVolume` raises the "No dailyVolume" error; a failing `build_csv` raises its own error (the cutoff's OverflowError, the first undated item's error, or IndexError for an empty window); otherwise a 200 upload carries exactly `build_csv` of the series with the top-level snapshot, and any other status raises "Dune upload failed" with the status and the first 300 characters of the reply |
| HlPerpsSnapshotToDune.TextCell | src/hl_perps_snapshot_to_dune.py:37 | a field has text exactly when it is present and not one of pandas' default NA texts ("", "NA", "N/A", "null", "None", "NaN", …); those read as NaN |
| HlPerpsSnapshotToDune.Matches | src/hl_perps_snapshot_to_dune.py:41-45 | a matching row has a non-empty Name field |
| HlPerpsSnapshotToDune.ExactIsPartial | src/hl_perps_snapshot_to_dune.py:41-45 | an exact name match also contains "hyperliquid" |
| HlPerpsSnapshotToDune.First | src/hl_perps_snapshot_to_dune.py:42 | `head(1)`: the first row the mask keeps, or none when it keeps none |
| HlPerpsSnapshotToDune.SelectRow | src/hl_perps_snapshot_to_dune.py:41-47 | KeyError without a Name column; the first exact match; only without one, the first name containing "hyperliquid"; otherwise the not-found error |
| HlPerpsSnapshotToDune.SelectRowSpec | src/hl_perps_snapshot_to_dune.py:41-47 | a row is found exactly when some name contains "hyperliquid"; it is the first exact match, or the first partial one when no exact match exists |
| HlPerpsSnapshotToDune.ValueAt | src/hl_perps_snapshot_to_dune.py:49-52 | KeyError for a missing column, NaN for an empty cell or an NA text such as "N/A", else `float()` of the text |
| HlPerpsSnapshotToDune.Values | src/hl_perps_snapshot_to_dune.py:49-52 | all four values convert or the first failing column's error is raised |
| HlPerpsSnapshotToDune.OutputRow | src/hl_perps_snapshot_to_dune.py:64-74 | nine cells: today, two blanks, the four values in order, a blank, the run time |
| HlPerpsSnapshotToDune.ShapeCsv | src/hl_perps_snapshot_to_dune.py:27-75 | one nine-cell row: today, blank volume and open interest, the four leaderboard values from "Perp Volume 24h/7d/30d" and "Open Interest", blank total volume, the run time |
| HlPerpsSnapshotToDune.Attempt | src/hl_perps_snapshot_to_dune.py:94-99 | the download's error, else the shaping's error, else the row when the upload answers 200, else the "Dune upload failed" error with the status and the first 300 characters of the reply |
| HlPerpsSnapshotToDune.Run | src/hl_perps_snapshot_to_dune.py:90-103 | pages are tried in order; the run stops at the first success; every earlier page failed; when all fail, the last page's exception is raised |

## Left out

- Network and file I/O are parameters, not modelled: `urlopen`/`requests`,
  `fetch_first_json`, `get_csv_url_from_page`, `download_csv`, the uploads,
  `dune_post`, `write_csv`, the debug JSON dump and `mkdir`. A fetch or file
  read is a value (a decoded payload, `Option<Table>`, a reply or an
  exception).
- The `time.sleep` backoff is timing only.
- Environment-variable configuration (`DUNE_API_KEY`, `ROLLING_DAYS`, table
  names, URLs) becomes plain parameters and constants.
- Clocks are parameters:
  - `date.today()` is the local date, handed in as text;
  - `utcnow()` is a `ValidDate`;
  - per-row clock re-reads are `stamp(i)`.
- CSV serialisation and parsing are not modelled. That covers `DictWriter`
  and `csv.writer` text, quoting, `strip()` of the upload text, header
  de-duplication and the `DictReader` rest key. Rows are modelled as
  sequences or maps of cells.
- Float parsing and formatting are uninterpreted `Lib` functions: `float()`
  of a string or int, `int()` of a float or string, `:.6f` and
  `fromisoformat`. For texts outside pandas' default NA set, pandas' own
  number parser is taken to agree with `float()`. The NA texts themselves
  are modelled as NaN by `HlPerpsSnapshotToDune.TextCell`.
- pandas type inference is not modelled. A `Name` column that pandas reads
  as numbers, or as entirely empty, makes `.str` raise AttributeError.
  Here such a column simply never matches.
- `lower()`, `strip()`, `isdigit()` and the case-insensitive regex are
  modelled on ASCII only. Unicode case folding and Unicode digits are not
  covered.
- Dict key order is not kept (`Json` objects are maps). It matters only
  when iterating a dict, and there no element can be a match.
- `utcfromtimestamp` raises OverflowError rather than ValueError for
  timestamps beyond the platform's `time_t`. The model raises ValueError
  for every out-of-range second.
- The CSV-link regex `href="([^"]+\\.csv)"` sits in a raw string. It
  therefore needs a literal backslash before `.csv`, which real links do
  not have. This is link scraping and is not modelled.
- HlPerpsMergeUpload.Entries: only the bound `|es| <= |rows|` is stated.
  The entries are exactly the kept rows' `RowEntry`, in order, by
  definition; a separate lemma restating that filter is not included.
- HlPerpsBackfillFromCsvCi.BatchInsert: the batch size is the script's
  default of 500. Other sizes are not modelled.
- The upload's own exceptions are not modelled. In HlPerpsToDune.Run
  (`upload: Reply`) and HlPerpsSnapshotToDune.Attempt (`uploadStatus`),
  the upload is always a status code and a text. A `requests.post` that
  raises (a connection error or timeout) has no counterpart.
- HlPerpsToDune.Run: a truthy `dailyVolume` that is not a list is modelled
  by its outcome only (OverflowError from the cutoff, else TypeError). The
  iteration over a string's characters or a dict's keys is not modelled.
