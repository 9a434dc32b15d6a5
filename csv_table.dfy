/** What the CSV-reading scripts share: a table as `csv.DictReader` yields
    it, the choice of the date, name and metric columns by lower-cased
    header name, the number parse that ignores `$` and `,`, the scan for the
    first metric column that parses, and the ISO date with its ten-character
    fallback. */
module CsvTable {
  import opened Wrappers
  import opened Py
  import opened Calendar
  import opened Text

  /** One data row: the fields it filled, by header name (a field a short
      row leaves out reads as None). */
  type CsvRow = map<string, string>

  /** A parsed file: the header fields in order and the data rows. */
  datatype Table = Table(columns: seq<string>, rows: seq<CsvRow>)

  /** `r.get(col)`: None when no column was chosen or the row lacks the field. */
  function CellAt(row: CsvRow, col: Option<string>): (r: Option<string>)
    ensures r.Some? <==> col.Some? && col.value in row
  {
    if col.Some? && col.value in row then Some(row[col.value]) else None
  }

  // ---------- column choice ----------

  /** Lower-cased header names that mark the date column. */
  const DateNames: set<string> := {"date", "day", "timestamp"}

  /** Lower-cased header names that mark the name column (`name_key` is "Name"). */
  const NameNames: set<string> := {"name", "protocol", "dex", "project"}

  /** Column i is the first whose lower-cased name is one of names. */
  predicate IsFirstMatch(cols: seq<string>, names: set<string>, i: int) {
    0 <= i < |cols| && Lower(cols[i]) in names &&
    forall j :: 0 <= j < i ==> Lower(cols[j]) !in names
  }

  /** `next((c for c in cols if c.lower() in names), None)`. */
  function FindColumn(cols: seq<string>, names: set<string>): (r: Option<string>)
    ensures r.None? <==> forall i :: 0 <= i < |cols| ==> Lower(cols[i]) !in names
    ensures r.Some? ==> exists i :: IsFirstMatch(cols, names, i) && cols[i] == r.value
    decreases |cols|
  {
    if cols == [] then None
    else if Lower(cols[0]) in names then
      assert IsFirstMatch(cols, names, 0);
      Some(cols[0])
    else
      var r := FindColumn(cols[1..], names);
      assert forall i :: 1 <= i < |cols| ==> cols[i] == cols[1..][i - 1];
      if r.Some? then
        var i :| IsFirstMatch(cols[1..], names, i) && cols[1..][i] == r.value;
        assert IsFirstMatch(cols, names, i + 1);
        r
      else r
  }

  /** The two kinds of metric column. */
  datatype Metric = Volume | OpenInterest

  /** A volume column has "volume" in its lower-cased name; an open-interest
      column has "open interest" in it or is exactly "openinterest". */
  predicate IsMetricColumn(c: string, m: Metric) {
    match m
    case Volume => Contains(Lower(c), "volume")
    case OpenInterest => Contains(Lower(c), "open interest") || Lower(c) == "openinterest"
  }

  /** The metric columns in header order. */
  function MetricColumns(cols: seq<string>, m: Metric): (r: seq<string>)
    ensures |r| <= |cols|
    ensures forall c :: c in r <==> c in cols && IsMetricColumn(c, m)
    decreases |cols|
  {
    if cols == [] then []
    else if IsMetricColumn(cols[0], m) then [cols[0]] + MetricColumns(cols[1..], m)
    else MetricColumns(cols[1..], m)
  }

  /** The choice works column by column, so the chosen columns keep their
      header order (the first chosen column is tried first). */
  lemma {:induction false} MetricColumnsAppend(a: seq<string>, b: seq<string>, m: Metric)
    ensures MetricColumns(a + b, m) == MetricColumns(a, m) + MetricColumns(b, m)
    decreases |a|
  {
    if a == [] {
      assert a + b == b;
    } else {
      assert (a + b)[0] == a[0] && (a + b)[1..] == a[1..] + b;
      MetricColumnsAppend(a[1..], b, m);
    }
  }

  // ---------- numbers ----------

  /** What the cleaning throws away at the ends of a cell: white space, `$`
      and `,`. */
  predicate IsPadding(c: char) {
    IsSpace(c) || c == '$' || c == ','
  }

  /** The cell without its `$` and `,` signs. */
  function Unformat(s: string): (r: string)
    ensures forall x :: x in r <==> x in s && x != '$' && x != ','
  {
    RemoveAll(RemoveAll(s, '$'), ',')
  }

  lemma UnformatAppend(x: string, y: string)
    ensures Unformat(x + y) == Unformat(x) + Unformat(y)
  {
    RemoveAllAppend(x, y, '$');
    RemoveAllAppend(RemoveAll(x, '$'), RemoveAll(y, '$'), ',');
  }

  /** A single character that is not padding survives. */
  lemma UnformatOne(x: char)
    requires !IsPadding(x)
    ensures Unformat([x]) == [x]
  {
    assert [x][1..] == [];
  }

  /** Padding leaves only white space behind. */
  lemma UnformatPadding(p: string)
    requires forall k :: 0 <= k < |p| ==> IsPadding(p[k])
    ensures forall k :: 0 <= k < |Unformat(p)| ==> IsSpace(Unformat(p)[k])
  {
    var u := Unformat(p);
    forall k | 0 <= k < |u| ensures IsSpace(u[k]) {
      assert u[k] in u;
    }
  }

  /** The first position at or after k that is not padding (|s| if none). */
  function SkipPadding(s: string, k: nat): (i: nat)
    requires k <= |s|
    ensures k <= i <= |s| && (i == |s| || !IsPadding(s[i]))
    ensures forall x :: k <= x < i ==> IsPadding(s[x])
    decreases |s| - k
  {
    if k < |s| && IsPadding(s[k]) then SkipPadding(s, k + 1) else k
  }

  /** The end of s[i..j] once its trailing padding is dropped. */
  function DropPadding(s: string, i: nat, j: nat): (e: nat)
    requires i <= j <= |s|
    ensures i <= e <= j && (e == i || !IsPadding(s[e - 1]))
    ensures forall x :: e <= x < j ==> IsPadding(s[x])
    decreases j
  {
    if i < j && IsPadding(s[j - 1]) then DropPadding(s, i, j - 1) else j
  }

  /** s[i..j] is s without the padding at its ends. */
  predicate CleansTo(s: string, i: int, j: int) {
    0 <= i <= j <= |s| &&
    (forall k :: 0 <= k < i ==> IsPadding(s[k])) &&
    (forall k :: j <= k < |s| ==> IsPadding(s[k])) &&
    (i == j || (!IsPadding(s[i]) && !IsPadding(s[j - 1])))
  }

  /** A text whose ends are not padding keeps those ends. */
  lemma UnformatEnds(m: string)
    requires m != [] && !IsPadding(m[0]) && !IsPadding(m[|m| - 1])
    ensures Unformat(m) != [] && !IsSpace(Unformat(m)[0]) && !IsSpace(Unformat(m)[|Unformat(m)| - 1])
  {
    assert m == [m[0]] + m[1..];
    UnformatAppend([m[0]], m[1..]);
    UnformatOne(m[0]);
    assert m == m[..|m| - 1] + [m[|m| - 1]];
    UnformatAppend(m[..|m| - 1], [m[|m| - 1]]);
    UnformatOne(m[|m| - 1]);
  }

  /** Unformatting works on the three pieces of s separately. */
  lemma UnformatThree(s: string, i: nat, j: nat)
    requires i <= j <= |s|
    ensures Unformat(s) == Unformat(s[..i]) + Unformat(s[i..j]) + Unformat(s[j..])
  {
    assert s == s[..i] + s[i..j] + s[j..];
    UnformatAppend(s[..i] + s[i..j], s[j..]);
    UnformatAppend(s[..i], s[i..j]);
  }

  /** Stripping the unformatted cell keeps exactly the unformatted middle. */
  lemma CleanMiddle(s: string, i: nat, j: nat)
    requires CleansTo(s, i, j)
    ensures Strip(Unformat(s)) == Unformat(s[i..j])
  {
    var a, m, b := s[..i], s[i..j], s[j..];
    UnformatThree(s, i, j);
    assert forall k :: 0 <= k < |a| ==> a[k] == s[k];
    UnformatPadding(a);
    assert forall k :: 0 <= k < |b| ==> b[k] == s[j + k];
    UnformatPadding(b);
    if i < j {
      assert m[0] == s[i] && m[|m| - 1] == s[j - 1];
      UnformatEnds(m);
    }
    StripPadded(Unformat(a), Unformat(m), Unformat(b));
  }

  /** `s.replace("$", "").replace(",", "").strip()`. */
  function CleanNumber(s: string): (r: string)
    ensures '$' !in r && ',' !in r
    ensures r == [] || (!IsSpace(r[0]) && !IsSpace(r[|r| - 1]))
  {
    var u := RemoveAll(s, '$');
    var t := RemoveAll(u, ',');
    assert '$' !in t by {
      assert '$' !in u;
    }
    var r := Strip(t);
    var i, j :| StripsTo(t, i, j) && r == t[i..j];
    SliceKeeps(t, i, j, '$');
    SliceKeeps(t, i, j, ',');
    r
  }

  /** A character absent from s is absent from every slice of s. */
  lemma SliceKeeps(s: string, i: int, j: int, c: char)
    requires 0 <= i <= j <= |s| && c !in s
    ensures c !in s[i..j]
  {
  }

  /** What the cleaning keeps: the cell without the white space, `$` and `,`
      at its ends and without the `$` and `,` inside it; nothing else is
      removed. */
  lemma CleanNumberKeeps(s: string)
    ensures exists i, j :: CleansTo(s, i, j) && CleanNumber(s) == Unformat(s[i..j])
  {
    var i := SkipPadding(s, 0);
    var j := DropPadding(s, i, |s|);
    CleanMiddle(s, i, j);
    assert CleansTo(s, i, j);
  }

  /** `parse_num` and `num`: None for a missing or empty cell and where
      `float()` raises on the cleaned text, else the parsed number. */
  function ParseNum(lib: Lib, cell: Option<string>): (r: Option<Num>)
    ensures cell.None? || cell == Some("") ==> r.None?
    ensures r.Some? ==> lib.parseFloat(CleanNumber(cell.value)) == Ok(r.value)
    ensures cell.Some? && cell.value != "" && lib.parseFloat(CleanNumber(cell.value)).Ok? ==> r.Some?
  {
    if cell.None? || cell.value == "" then None
    else match lib.parseFloat(CleanNumber(cell.value))
      case Ok(x) => Some(x)
      case Err(_) => None
  }

  /** The number in column c of the row, if it parses. */
  function MetricAt(lib: Lib, row: CsvRow, c: string): Option<Num> {
    ParseNum(lib, CellAt(row, Some(c)))
  }

  /** The first present value, scanning from the left. */
  function FirstSome<T(==)>(s: seq<Option<T>>): (r: Option<T>)
    ensures r.None? <==> forall i :: 0 <= i < |s| ==> s[i].None?
    ensures r.Some? ==> exists i :: 0 <= i < |s| && s[i] == r && forall j :: 0 <= j < i ==> s[j].None?
    decreases |s|
  {
    if s == [] then None
    else if s[0].Some? then s[0]
    else
      var r := FirstSome(s[1..]);
      assert forall i :: 1 <= i < |s| ==> s[i] == s[1..][i - 1];
      if r.Some? then
        var i :| 0 <= i < |s[1..]| && s[1..][i] == r && forall j :: 0 <= j < i ==> s[1..][j].None?;
        assert s[i + 1] == r;
        r
      else r
  }

  /** Scanning from position i: the value there if present, else the scan
      from i + 1. */
  lemma FirstSomeStep<T>(s: seq<Option<T>>, i: int)
    requires 0 <= i < |s|
    ensures FirstSome(s[i..]) == if s[i].Some? then s[i] else FirstSome(s[i + 1..])
  {
    assert s[i..][0] == s[i] && s[i..][1..] == s[i + 1..];
  }

  /** The parsed cell of each column of cols, in column order. */
  function MetricValues(lib: Lib, row: CsvRow, cols: seq<string>): (vs: seq<Option<Num>>)
    ensures |vs| == |cols|
  {
    seq(|cols|, i requires 0 <= i < |cols| => MetricAt(lib, row, cols[i]))
  }

  /** The first number that parses across cols, in column order. */
  function FirstNumber(lib: Lib, row: CsvRow, cols: seq<string>): Option<Num> {
    FirstSome(MetricValues(lib, row, cols))
  }

  /** The loop `for c in cols: val = parse(r.get(c)); if val is not None: break`. */
  method ScanMetric(lib: Lib, row: CsvRow, cols: seq<string>) returns (val: Option<Num>)
    ensures val == FirstNumber(lib, row, cols)
  {
    val := None;
    var i := 0;
    while i < |cols|
      invariant 0 <= i <= |cols|
      invariant val.None?
      invariant FirstSome(MetricValues(lib, row, cols)[i..]) == FirstNumber(lib, row, cols)
    {
      FirstSomeStep(MetricValues(lib, row, cols), i);
      val := MetricAt(lib, row, cols[i]);
      if val.Some? {
        break;
      }
      i := i + 1;
    }
    if i == |cols| {
      assert MetricValues(lib, row, cols)[i..] == [];
    }
  }

  // ---------- dates ----------

  /** `datetime.fromisoformat(raw.replace("Z", "")).date().isoformat()`,
      falling back to `raw[:10]` where the parse raises. */
  function IsoOrPrefix(lib: Lib, raw: string): (r: string)
    ensures FromIso(lib, RemoveAll(raw, 'Z')).Some? ==>
      IsoShape(r) && ParseIso(r) == FromIso(lib, RemoveAll(raw, 'Z')).value
    ensures FromIso(lib, RemoveAll(raw, 'Z')).None? ==> r == Prefix(raw, 10)
    ensures |r| <= 10
  {
    match FromIso(lib, RemoveAll(raw, 'Z'))
    case Some(d) => IsoDateRoundTrip(d); IsoDate(d)
    case None => Prefix(raw, 10)
  }
}
