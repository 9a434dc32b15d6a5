/** The snapshot append script: find Hyperliquid in the derivatives
    overview, build one record of its five counters (None read as 0.0), and
    append it to the table created on first use
    (src/hl_perps_append_snapshot.py). */
module HlPerpsAppendSnapshot {
  import opened Wrappers
  import opened Py
  import opened Text
  import opened DuneTable

  /** The protocol slug matched exactly. */
  const Slug: string := "hyperliquid"

  /** The message of the exit when no record matches. */
  const NotFound: string := "Hyperliquid not found in overview/derivatives payload"

  /** The schema `ensure_table` creates. */
  const Schema: seq<ColumnSpec> := [
    ColumnSpec("date", "date"),
    ColumnSpec("volume24h_usd", "double"),
    ColumnSpec("volume7d_usd", "double"),
    ColumnSpec("volume30d_usd", "double"),
    ColumnSpec("open_interest_usd", "double"),
    ColumnSpec("total_volume_lifetime_usd", "double"),
    ColumnSpec("as_of_utc", "timestamp")]

  /** The counters read from the record, in the order the row stores them. */
  const CounterKeys: seq<string> := ["volume24h", "volume7d", "volume30d", "openInterest", "totalVolume"]

  /** `j.get("protocols") or j.get("data") or []`; `.get` on a payload that
      is not an object raises AttributeError. */
  function CandidateArray(j: Json): (r: Result<Json>)
    ensures r.Err? <==> !j.JObj?
    ensures r.Err? ==> r.error == AttributeError
    ensures r.Ok? && Truthy(Get(j.fields, "protocols")) ==> r.value == Get(j.fields, "protocols")
    ensures r.Ok? && !Truthy(Get(j.fields, "protocols")) && Truthy(Get(j.fields, "data")) ==> r.value == Get(j.fields, "data")
    ensures r.Ok? && !Truthy(Get(j.fields, "protocols")) && !Truthy(Get(j.fields, "data")) ==> r.value == JList([])
  {
    if !j.JObj? then Err(AttributeError)
    else
      var protocols := Get(j.fields, "protocols");
      if Truthy(protocols) then Ok(protocols)
      else
        var data := Get(j.fields, "data");
        if Truthy(data) then Ok(data) else Ok(JList([]))
  }

  /** The elements the generator visits that could be dicts. A list yields
      its items; a string yields characters and a dict its keys, none of them
      dicts; a truthy number or bool is not iterable. */
  function CandidateDicts(arr: Json): (r: Result<seq<Json>>)
    ensures arr.JList? ==> r == Ok(arr.items)
    ensures arr.JStr? || arr.JObj? ==> r == Ok([])
    ensures !(arr.JList? || arr.JStr? || arr.JObj?) ==> r == Err(TypeError)
  {
    match arr
    case JList(items) => Ok(items)
    case JStr(_) => Ok([])
    case JObj(_) => Ok([])
    case _ => Err(TypeError)
  }

  /** `isinstance(r, dict) and (r.get("slug") == SLUG or
      str(r.get("name", "")).lower().startswith("hyperliquid"))`. `str()` of
      a name that is not a string starts with one of `N T F [ { - i n` or a
      digit, so only a string name can match. */
  predicate IsHyperliquid(r: Json)
    ensures r.JObj? && Get(r.fields, "slug") == JStr(Slug) ==> IsHyperliquid(r)
    ensures IsHyperliquid(r) ==> r.JObj? && ("slug" in r.fields || "name" in r.fields)
  {
    r.JObj? &&
    (Get(r.fields, "slug") == JStr(Slug) ||
     (Get(r.fields, "name").JStr? && StartsWith(Lower(Get(r.fields, "name").s), "hyperliquid")))
  }

  /** The elements of the candidate array that `next(...)` inspects. */
  function Candidates(j: Json): (r: Result<seq<Json>>)
    ensures r.Err? <==> CandidateArray(j).Err? || CandidateDicts(CandidateArray(j).value).Err?
  {
    match CandidateArray(j)
    case Err(e) => Err(e)
    case Ok(arr) => CandidateDicts(arr)
  }

  /** Position i holds the first matching record. */
  predicate IsFirstHit(items: seq<Json>, i: int) {
    0 <= i < |items| && IsHyperliquid(items[i]) && forall j :: 0 <= j < i ==> !IsHyperliquid(items[j])
  }

  /** `next((r for r in arr if ...), None)`. A record that matches has a slug
      or a name, so it is never the empty dict that `if not row` would also
      reject. */
  function FindRecord(items: seq<Json>): (r: Option<map<string, Json>>)
    ensures r.None? <==> forall i :: 0 <= i < |items| ==> !IsHyperliquid(items[i])
    ensures r.Some? ==> exists i :: IsFirstHit(items, i) && items[i] == JObj(r.value)
    ensures r.Some? ==> r.value != map[]
    decreases |items|
  {
    if items == [] then None
    else if IsHyperliquid(items[0]) then
      assert IsFirstHit(items, 0);
      assert "slug" in items[0].fields || "name" in items[0].fields;
      Some(items[0].fields)
    else
      var r := FindRecord(items[1..]);
      assert forall i :: 1 <= i < |items| ==> items[i] == items[1..][i - 1];
      if r.Some? then
        var i :| IsFirstHit(items[1..], i) && items[1..][i] == JObj(r.value);
        assert IsFirstHit(items, i + 1);
        r
      else r
  }

  /** `f(x)`: None (also an absent key) reads as 0.0, anything else goes
      through `float()`. */
  function Counter(lib: Lib, x: Json): (r: Result<Num>)
    ensures x.JNull? ==> r == Ok(Zero)
    ensures !x.JNull? ==> r == FloatOf(lib, x)
  {
    if x.JNull? then Ok(Zero) else FloatOf(lib, x)
  }

  /** Counter i is the first of keys whose `float()` raises. */
  predicate FirstBadCounter(lib: Lib, row: map<string, Json>, keys: seq<string>, i: int) {
    0 <= i < |keys| && Counter(lib, Get(row, keys[i])).Err? &&
    forall k :: 0 <= k < i ==> Counter(lib, Get(row, keys[k])).Ok?
  }

  /** The counters of the record in `CounterKeys` order; the first `float()`
      that raises ends the run. */
  function Counters(lib: Lib, row: map<string, Json>, keys: seq<string>): (r: Result<seq<Num>>)
    ensures r.Ok? <==> forall i :: 0 <= i < |keys| ==> Counter(lib, Get(row, keys[i])).Ok?
    ensures r.Ok? ==> |r.value| == |keys|
    ensures r.Ok? ==> forall i :: 0 <= i < |keys| ==> Counter(lib, Get(row, keys[i])) == Ok(r.value[i])
    ensures r.Err? ==> exists i :: FirstBadCounter(lib, row, keys, i) && Counter(lib, Get(row, keys[i])) == Err(r.error)
    decreases |keys|
  {
    if keys == [] then Ok([])
    else
      var first := Counter(lib, Get(row, keys[0]));
      if first.Err? then
        assert FirstBadCounter(lib, row, keys, 0);
        Err(first.error)
      else
        var rest := Counters(lib, row, keys[1..]);
        assert forall i :: 1 <= i < |keys| ==> keys[i] == keys[1..][i - 1];
        if rest.Err? then
          var i :| FirstBadCounter(lib, row, keys[1..], i) && Counter(lib, Get(row, keys[1..][i])) == Err(rest.error);
          assert FirstBadCounter(lib, row, keys, i + 1);
          Err(rest.error)
        else Ok([first.value] + rest.value)
  }

  /** The dict `get_snapshot_row` returns, with the five counters v. */
  function CounterRecord(today: string, v: seq<Num>, nowz: string): (rec: Record)
    requires |v| == |CounterKeys|
    ensures Keys(rec) == ColumnNames(Schema)
    ensures rec[0].1 == Text(today) && rec[6].1 == Text(nowz)
    ensures forall i :: 1 <= i <= 5 ==> rec[i].1 == Number(v[i - 1])
  {
    var rec := [("date", Text(today)),
                ("volume24h_usd", Number(v[0])),
                ("volume7d_usd", Number(v[1])),
                ("volume30d_usd", Number(v[2])),
                ("open_interest_usd", Number(v[3])),
                ("total_volume_lifetime_usd", Number(v[4])),
                ("as_of_utc", Text(nowz))];
    assert Keys(rec) == ColumnNames(Schema);
    rec
  }

  /** `get_snapshot_row` from the decoded payload on, with `today` the local
      date text and `nowz` the UTC time text. */
  function SnapshotRow(lib: Lib, j: Json, today: string, nowz: string): (r: Result<Record>)
    ensures r.Ok? ==> Keys(r.value) == ColumnNames(Schema)
    ensures r.Ok? ==> r.value[0].1 == Text(today) && r.value[6].1 == Text(nowz)
    ensures Candidates(j).Err? ==> r == Err(Candidates(j).error)
    ensures Candidates(j).Ok? && FindRecord(Candidates(j).value).None? ==> r == Err(SystemExit(NotFound))
    ensures r.Ok? ==> Candidates(j).Ok? && FindRecord(Candidates(j).value).Some?
    ensures Candidates(j).Ok? && FindRecord(Candidates(j).value).Some? ==>
      var counters := Counters(lib, FindRecord(Candidates(j).value).value, CounterKeys);
      && (counters.Ok? ==> r.Ok?)
      && (counters.Err? ==> r == Err(counters.error))
    ensures r.Ok? ==>
      forall i :: 1 <= i <= 5 ==>
        (r.value[i].1.Number? &&
         Counter(lib, Get(FindRecord(Candidates(j).value).value, CounterKeys[i - 1])) == Ok(r.value[i].1.x))
  {
    match Candidates(j)
    case Err(e) => Err(e)
    case Ok(items) =>
      match FindRecord(items)
      case None => Err(SystemExit(NotFound))
      case Some(row) =>
        match Counters(lib, row, CounterKeys)
        case Err(e) => Err(e)
        case Ok(v) =>
          Ok(CounterRecord(today, v, nowz))
  }

  /** `f` reads a missing or null counter as 0.0, so a matched record with
      none of the five counters still gives a row of five zeros. */
  lemma {:induction false} MissingCountersReadZero(lib: Lib, j: Json, row: map<string, Json>, today: string, nowz: string)
    requires Candidates(j).Ok? && FindRecord(Candidates(j).value) == Some(row)
    requires forall i :: 0 <= i < |CounterKeys| ==> Get(row, CounterKeys[i]).JNull?
    ensures SnapshotRow(lib, j, today, nowz).Ok?
    ensures forall i :: 1 <= i <= 5 ==> SnapshotRow(lib, j, today, nowz).value[i].1 == Number(Zero)
  {
    assert forall i :: 0 <= i < |CounterKeys| ==> Counter(lib, Get(row, CounterKeys[i])) == Ok(Zero);
    assert Counters(lib, row, CounterKeys).Ok?;
  }

  /** `insert_row`: the record alone in the payload's `data`. */
  function InsertRow(tableName: string, r: Record): (q: InsertRequest)
    ensures q.tableName == tableName && q.data == [r] && Sent([q]) == [r]
  {
    var q := InsertRequest(tableName, [r]);
    assert [q][..0] == [];
    q
  }

  /** What `main` posts: the create request, then the insert request or the
      exception that ends the run. */
  datatype Posts = Posts(create: CreateRequest, insert: Result<InsertRequest>)

  /** `main`: post the create request (tolerating "already exists"), build
      the record, then one insert request carrying it. */
  function Run(lib: Lib, tableName: string, createFailure: Option<string>, j: Json, today: string, nowz: string)
    : (p: Posts)
    ensures p.create == CreateRequestFor(tableName, Schema)
    ensures EnsureTable(createFailure).Some? ==> p.insert == Err(EnsureTable(createFailure).value)
    ensures EnsureTable(createFailure).None? ==>
      match SnapshotRow(lib, j, today, nowz)
      case Ok(rec) => p.insert == Ok(InsertRow(tableName, rec))
      case Err(e) => p.insert == Err(e)
  {
    var create := CreateRequestFor(tableName, Schema);
    match EnsureTable(createFailure)
    case Some(e) => Posts(create, Err(e))
    case None =>
      match SnapshotRow(lib, j, today, nowz)
      case Ok(rec) => Posts(create, Ok(InsertRow(tableName, rec)))
      case Err(e) => Posts(create, Err(e))
  }
}
