/** The proleptic Gregorian calendar of Python's `datetime.date`: day
    ordinals (0001-01-01 is day 1), the conversion of unix seconds to a UTC
    calendar day, and the `YYYY-MM-DD` text of `date.isoformat()`. */
module Calendar {
  import opened Wrappers

  datatype Date = Date(year: int, month: int, day: int)

  /** `datetime.MAXYEAR`; years run from 1 (`datetime.MINYEAR`). */
  const MaxYear: int := 9999

  /** Ordinal of 1970-01-01, the unix epoch (`date(1970, 1, 1).toordinal()`). */
  const EpochOrdinal: int := 719163

  /** Ordinal of 9999-12-31, the last day Python can represent. */
  const MaxOrdinal: int := 3652059

  /** Seconds in a day. */
  const DaySeconds: int := 86400

  /** The first and last unix second whose UTC date Python can represent
      (0001-01-01T00:00:00Z and 9999-12-31T23:59:59Z). */
  const MinTimestamp: int := -62135596800
  const MaxTimestamp: int := 253402300799

  predicate IsLeap(y: int) {
    y % 4 == 0 && (y % 100 != 0 || y % 400 == 0)
  }

  function DaysInYear(y: int): int {
    if IsLeap(y) then 366 else 365
  }

  function DaysInMonth(y: int, m: int): int
    requires 1 <= m <= 12
  {
    if m == 2 then (if IsLeap(y) then 29 else 28)
    else if m == 4 || m == 6 || m == 9 || m == 11 then 30
    else 31
  }

  /** Days of year y before the first of month m; m = 13 gives the whole year. */
  function DaysBeforeMonth(y: int, m: int): int
    requires 1 <= m <= 13
  {
    [0, 31, 59, 90, 120, 151, 181, 212, 243, 273, 304, 334, 365][m - 1]
      + (if m > 2 && IsLeap(y) then 1 else 0)
  }

  /** Days from 0001-01-01 up to the first of January of year y. */
  function DaysBeforeYear(y: int): int
    requires y >= 1
  {
    var p := y - 1;
    365 * p + p / 4 - p / 100 + p / 400
  }

  predicate Valid(d: Date) {
    1 <= d.year <= MaxYear && 1 <= d.month <= 12 && 1 <= d.day <= DaysInMonth(d.year, d.month)
  }

  /** A value of Python's `datetime.date`. */
  type ValidDate = d: Date | Valid(d) witness Date(1970, 1, 1)

  /** `date.toordinal()`. */
  function Ordinal(d: Date): int
    requires Valid(d)
  {
    DaysBeforeYear(d.year) + DaysBeforeMonth(d.year, d.month) + d.day
  }

  /** `a < b` for `datetime.date`: by year, then month, then day. */
  predicate Before(a: Date, b: Date) {
    a.year < b.year || (a.year == b.year && (a.month < b.month || (a.month == b.month && a.day < b.day)))
  }

  lemma MonthStep(y: int, m: int)
    requires 1 <= m <= 12
    ensures DaysBeforeMonth(y, m + 1) == DaysBeforeMonth(y, m) + DaysInMonth(y, m)
    ensures DaysBeforeMonth(y, 13) == DaysInYear(y)
  {
  }

  lemma DivStep(y: int)
    requires y >= 1
    ensures y / 4 == (y - 1) / 4 + (if y % 4 == 0 then 1 else 0)
    ensures y / 100 == (y - 1) / 100 + (if y % 100 == 0 then 1 else 0)
    ensures y / 400 == (y - 1) / 400 + (if y % 400 == 0 then 1 else 0)
  {
  }

  /** The closed form agrees with adding up year lengths one year at a time. */
  lemma {:induction false} YearStep(y: int)
    requires y >= 1
    ensures DaysBeforeYear(y + 1) == DaysBeforeYear(y) + DaysInYear(y)
  {
    DivStep(y);
    LeapCases(y);
  }

  /** A year divisible by 400 is divisible by 100, and one divisible by 100
      is divisible by 4, so the three corrections add up to the leap day. */
  lemma LeapCases(y: int)
    ensures (if y % 4 == 0 then 1 else 0) - (if y % 100 == 0 then 1 else 0) + (if y % 400 == 0 then 1 else 0)
            == (if IsLeap(y) then 1 else 0)
  {
    if y % 400 == 0 {
      var q := y / 400;
      assert y == 100 * (4 * q) && y == 4 * (100 * q);
    } else if y % 100 == 0 {
      var q := y / 100;
      assert y == 4 * (25 * q);
    }
  }

  /** The year holding ordinal n, searched upwards from year y. */
  function FindYear(n: int, y: int): (r: int)
    requires 1 <= y <= MaxYear && DaysBeforeYear(y) < n <= MaxOrdinal
    ensures y <= r <= MaxYear && DaysBeforeYear(r) < n <= DaysBeforeYear(r + 1)
    decreases MaxYear - y
  {
    if n <= DaysBeforeYear(y + 1) then y else FindYear(n, y + 1)
  }

  /** The month of year y holding day-of-year t, searched upwards from month m. */
  function FindMonth(y: int, t: int, m: int): (r: int)
    requires 1 <= m <= 12 && DaysBeforeMonth(y, m) < t <= DaysInYear(y)
    ensures m <= r <= 12 && DaysBeforeMonth(y, r) < t <= DaysBeforeMonth(y, r + 1)
    decreases 12 - m
  {
    MonthStep(y, m);
    if t <= DaysBeforeMonth(y, m + 1) then m else FindMonth(y, t, m + 1)
  }

  /** A year no later than the one holding ordinal n (no year has more than 366 days). */
  lemma YearGuess(n: int)
    requires 1 <= n <= MaxOrdinal
    ensures 1 <= (n - 1) / 366 + 1 <= MaxYear && DaysBeforeYear((n - 1) / 366 + 1) < n
  {
    var p := (n - 1) / 366;
    assert p / 4 <= p && p / 400 <= p / 100;
    assert 366 * p <= n - 1;
  }

  /** `date.fromordinal(n)`. */
  function FromOrdinal(n: int): (d: Date)
    requires 1 <= n <= MaxOrdinal
    ensures Valid(d) && Ordinal(d) == n
  {
    YearGuess(n);
    var y := FindYear(n, (n - 1) / 366 + 1);
    YearStep(y);
    MonthStep(y, 1);
    var t := n - DaysBeforeYear(y);
    var m := FindMonth(y, t, 1);
    MonthStep(y, m);
    Date(y, m, t - DaysBeforeMonth(y, m))
  }

  /** The UTC calendar day of unix time ts (`datetime.fromtimestamp(ts,
      tz=timezone.utc).date()`): None where Python raises because the year
      leaves 1..9999. */
  function TsToDate(ts: int): (r: Option<Date>)
    ensures r.Some? <==> MinTimestamp <= ts <= MaxTimestamp
    ensures r.Some? ==>
      Valid(r.value) &&
      var k := Ordinal(r.value) - EpochOrdinal;
      k * DaySeconds <= ts < k * DaySeconds + DaySeconds
  {
    var n := EpochOrdinal + ts / DaySeconds;
    if 1 <= n <= MaxOrdinal then Some(FromOrdinal(n)) else None
  }

  /** The epoch and the last representable day are the days their names say. */
  lemma CalendarConstants()
    ensures Valid(Date(1970, 1, 1)) && Ordinal(Date(1970, 1, 1)) == EpochOrdinal
    ensures Valid(Date(9999, 12, 31)) && Ordinal(Date(9999, 12, 31)) == MaxOrdinal
    ensures MinTimestamp == (1 - EpochOrdinal) * DaySeconds
    ensures MaxTimestamp == (MaxOrdinal - EpochOrdinal + 1) * DaySeconds - 1
  {
  }

  // ---------- date.isoformat() ----------

  function DigitChar(n: int): char
    requires 0 <= n <= 9
  {
    (48 + n) as char
  }

  predicate IsDigitChar(c: char) {
    '0' <= c <= '9'
  }

  function DigitValue(c: char): int
    requires IsDigitChar(c)
  {
    c as int - 48
  }

  lemma DigitRoundTrip(n: int)
    requires 0 <= n <= 9
    ensures IsDigitChar(DigitChar(n)) && DigitValue(DigitChar(n)) == n
  {
  }

  /** `'%02d' % n`. */
  function Pad2(n: int): string
    requires 0 <= n <= 99
  {
    [DigitChar(n / 10), DigitChar(n % 10)]
  }

  /** `'%04d' % n`. */
  function Pad4(n: int): string
    requires 0 <= n <= 9999
  {
    [DigitChar(n / 1000), DigitChar(n / 100 % 10), DigitChar(n / 10 % 10), DigitChar(n % 10)]
  }

  /** The shape of `date.isoformat()` output: `DDDD-DD-DD`. */
  predicate IsoShape(s: string) {
    |s| == 10 && s[4] == '-' && s[7] == '-' &&
    forall i :: 0 <= i < 10 && i != 4 && i != 7 ==> IsDigitChar(s[i])
  }

  /** `date.isoformat()`. */
  function IsoDate(d: Date): (s: string)
    requires Valid(d)
    ensures |s| == 10
  {
    Pad4(d.year) + "-" + Pad2(d.month) + "-" + Pad2(d.day)
  }

  lemma IsoDateShape(d: Date)
    requires Valid(d)
    ensures IsoShape(IsoDate(d))
  {
  }

  /** The number written by a run of decimal digits. */
  function DigitsValue(s: string): int
    requires forall i :: 0 <= i < |s| ==> IsDigitChar(s[i])
  {
    if s == [] then 0 else 10 * DigitsValue(s[..|s| - 1]) + DigitValue(s[|s| - 1])
  }

  lemma Pad2Value(n: int)
    requires 0 <= n <= 99
    ensures forall i :: 0 <= i < 2 ==> IsDigitChar(Pad2(n)[i])
    ensures DigitsValue(Pad2(n)) == n
  {
    var s := Pad2(n);
    DigitRoundTrip(n / 10);
    DigitRoundTrip(n % 10);
    assert s[..1][..0] == [];
    assert DigitsValue(s[..1]) == n / 10;
  }

  lemma Pad4Value(n: int)
    requires 0 <= n <= 9999
    ensures forall i :: 0 <= i < 4 ==> IsDigitChar(Pad4(n)[i])
    ensures DigitsValue(Pad4(n)) == n
  {
    var s := Pad4(n);
    DigitRoundTrip(n / 1000);
    DigitRoundTrip(n / 100 % 10);
    DigitRoundTrip(n / 10 % 10);
    DigitRoundTrip(n % 10);
    assert s[..1][..0] == [];
    assert s[..2][..1] == s[..1] && s[..3][..2] == s[..2] && s[..4][..3] == s[..3];
    assert DigitsValue(s[..1]) == n / 1000;
    assert DigitsValue(s[..2]) == n / 100;
    assert DigitsValue(s[..3]) == n / 10;
  }

  /** Reads a `DDDD-DD-DD` text back as year, month and day. */
  function ParseIso(s: string): Date
    requires IsoShape(s)
  {
    Date(DigitsValue(s[..4]), DigitsValue(s[5..7]), DigitsValue(s[8..]))
  }

  /** The text of a date reads back as that date, so distinct days have
      distinct texts. */
  lemma IsoDateRoundTrip(d: Date)
    requires Valid(d)
    ensures IsoShape(IsoDate(d)) && ParseIso(IsoDate(d)) == d
  {
    var s := IsoDate(d);
    IsoDateShape(d);
    assert s[..4] == Pad4(d.year) && s[5..7] == Pad2(d.month) && s[8..] == Pad2(d.day);
    Pad4Value(d.year);
    Pad2Value(d.month);
    Pad2Value(d.day);
  }

  lemma IsoDateInjective(a: Date, b: Date)
    requires Valid(a) && Valid(b) && IsoDate(a) == IsoDate(b)
    ensures a == b
  {
    IsoDateRoundTrip(a);
    IsoDateRoundTrip(b);
  }
}
