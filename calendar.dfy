/** The part of JavaScript's `Date` the planner relies on, on a time line without
    time zones or daylight saving (local time is UTC): time values are integer
    milliseconds since 1970-01-01T00:00, day `n` is the interval
    [n * MsPerDay, (n + 1) * MsPerDay), and months are numbered from 0 as in `Date`.
    On top of it sit `parseLocal` and `getEndOfDay` of src/utils/dateHelpers.ts and
    the `YYYY-MM-DD` prefix of `toISOString`. */
module Calendar {
  import opened Common

  const MsPerDay: int := 86400000
  /** The largest magnitude of a valid time value (ECMAScript TimeClip). */
  const MaxTime: int := 8640000000000000
  /** The number of days either side of the epoch that a valid time value can reach. */
  const MaxDay: int := 100000000

  // ---------------------------------------------------------------------------
  // Years
  // ---------------------------------------------------------------------------

  predicate IsLeap(y: int) {
    y % 4 == 0 && (y % 100 != 0 || y % 400 == 0)
  }

  function DaysInYear(y: int): int {
    if IsLeap(y) then 366 else 365
  }

  /** The day number of January 1 of year `y` (ECMAScript DayFromYear). */
  function DaysBeforeYear(y: int): int {
    365 * (y - 1970) + (y - 1969) / 4 - (y - 1901) / 100 + (y - 1601) / 400
  }

  /** Each of the three division terms of DaysBeforeYear grows by one exactly when
      the divisor divides the year just passed. */
  lemma Step4(y: int)
    ensures (y - 1968) / 4 - (y - 1969) / 4 == if y % 4 == 0 then 1 else 0
  {
    var q, r := y / 4, y % 4;
    assert y == 4 * q + r;
    assert y - 1968 == 4 * (q - 492) + r;
  }

  lemma Step100(y: int)
    ensures (y - 1900) / 100 - (y - 1901) / 100 == if y % 100 == 0 then 1 else 0
  {
    var q, r := y / 100, y % 100;
    assert y == 100 * q + r;
    assert y - 1900 == 100 * (q - 19) + r;
  }

  lemma Step400(y: int)
    ensures (y - 1600) / 400 - (y - 1601) / 400 == if y % 400 == 0 then 1 else 0
  {
    var q, r := y / 400, y % 400;
    assert y == 400 * q + r;
    assert y - 1600 == 400 * (q - 4) + r;
  }

  /** Consecutive New Year's days are one year length apart. */
  lemma YearStep(y: int)
    ensures DaysBeforeYear(y + 1) == DaysBeforeYear(y) + DaysInYear(y)
  {
    Step4(y);
    Step100(y);
    Step400(y);
    Divisors(y);
    var d4 := (y - 1968) / 4 - (y - 1969) / 4;
    var d100 := (y - 1900) / 100 - (y - 1901) / 100;
    var d400 := (y - 1600) / 400 - (y - 1601) / 400;
    assert DaysBeforeYear(y + 1) - DaysBeforeYear(y) == 365 + d4 - d100 + d400;
  }

  /** A year divisible by 400 is divisible by 100, and one divisible by 100 by 4. */
  lemma Divisors(y: int)
    ensures y % 400 == 0 ==> y % 100 == 0
    ensures y % 100 == 0 ==> y % 4 == 0
  {
    var q400, r400 := y / 400, y % 400;
    var q100, r100 := y / 100, y % 100;
    assert y == 400 * q400 + r400 && 0 <= r400 < 400;
    assert y == 100 * q100 + r100 && 0 <= r100 < 100;
    assert r400 == 0 ==> r100 == 100 * (4 * q400 - q100);
    assert r100 == 0 ==> y == 4 * (25 * q100);
  }

  /** Between two New Year's days lie between 365 and 366 days per year. */
  lemma {:induction false} YearsApart(a: int, b: int)
    requires a <= b
    ensures 365 * (b - a) <= DaysBeforeYear(b) - DaysBeforeYear(a) <= 366 * (b - a)
    decreases b - a
  {
    if a < b {
      YearsApart(a, b - 1);
      YearStep(b - 1);
    }
  }

  /** Later years start later. */
  lemma YearsIncrease(a: int, b: int)
    requires a < b
    ensures DaysBeforeYear(a) < DaysBeforeYear(b)
  {
    YearsApart(a, b);
  }

  /** Exactly one year contains day `n`: it is found by a search between a lower and
      an upper bound derived from the 365/366-day bounds. */
  function YearOf(n: int): (y: int)
    ensures DaysBeforeYear(y) <= n < DaysBeforeYear(y + 1)
  {
    var lo := if n >= 0 then 1970 + n / 366 else 1970 - (-n) / 365 - 1;
    var hi := if n >= 0 then 1970 + n / 365 + 1 else 1970 - (-n) / 366 + 1;
    SearchBounds(n, lo, hi);
    FindYear(n, lo, hi)
  }

  lemma SearchBounds(n: int, lo: int, hi: int)
    requires lo == if n >= 0 then 1970 + n / 366 else 1970 - (-n) / 365 - 1
    requires hi == if n >= 0 then 1970 + n / 365 + 1 else 1970 - (-n) / 366 + 1
    ensures lo < hi && DaysBeforeYear(lo) <= n < DaysBeforeYear(hi)
  {
    if n >= 0 {
      YearsApart(1970, lo);
      YearsApart(1970, hi);
    } else {
      YearsApart(lo, 1970);
      YearsApart(hi - 1, 1970);
      YearStep(hi - 1);
    }
  }

  function FindYear(n: int, lo: int, hi: int): (y: int)
    requires lo < hi && DaysBeforeYear(lo) <= n < DaysBeforeYear(hi)
    ensures lo <= y < hi && DaysBeforeYear(y) <= n < DaysBeforeYear(y + 1)
    decreases hi - lo
  {
    if n < DaysBeforeYear(lo + 1) then lo else FindYear(n, lo + 1, hi)
  }

  lemma YearOfUnique(n: int, y: int)
    requires DaysBeforeYear(y) <= n < DaysBeforeYear(y + 1)
    ensures YearOf(n) == y
  {
    YearsDisjoint(n, YearOf(n), y);
  }

  /** Two years whose spans both hold day `n` are the same year. */
  lemma YearsDisjoint(n: int, y1: int, y2: int)
    requires DaysBeforeYear(y1) <= n < DaysBeforeYear(y1 + 1)
    requires DaysBeforeYear(y2) <= n < DaysBeforeYear(y2 + 1)
    ensures y1 == y2
  {
    if y1 + 1 < y2 { YearsIncrease(y1 + 1, y2); }
    if y2 + 1 < y1 { YearsIncrease(y2 + 1, y1); }
  }

  // ---------------------------------------------------------------------------
  // Months (numbered 0..11 as in Date)
  // ---------------------------------------------------------------------------

  function MonthLength(y: int, m: int): int
    requires 0 <= m < 12
  {
    if m == 1 then (if IsLeap(y) then 29 else 28)
    else if m == 3 || m == 5 || m == 8 || m == 10 then 30
    else 31
  }

  /** The number of days of year `y` before month `m`. */
  function DaysBeforeMonth(y: int, m: int): int
    requires 0 <= m <= 12
  {
    [0, 31, 59, 90, 120, 151, 181, 212, 243, 273, 304, 334, 365][m]
    + (if IsLeap(y) && m >= 2 then 1 else 0)
  }

  lemma MonthStep(y: int, m: int)
    requires 0 <= m < 12
    ensures DaysBeforeMonth(y, m + 1) == DaysBeforeMonth(y, m) + MonthLength(y, m)
    ensures DaysBeforeMonth(y, 0) == 0 && DaysBeforeMonth(y, 12) == DaysInYear(y)
  {
  }

  lemma MonthsIncrease(y: int, a: int, b: int)
    requires 0 <= a < b <= 12
    ensures DaysBeforeMonth(y, a) + MonthLength(y, a) <= DaysBeforeMonth(y, b)
  {
  }

  /** The month holding day `doy` (counted from 0) of year `y`. */
  function MonthOf(y: int, doy: int): (m: int)
    requires 0 <= doy < DaysInYear(y)
    ensures 0 <= m < 12 && DaysBeforeMonth(y, m) <= doy < DaysBeforeMonth(y, m + 1)
  {
    FindMonth(y, doy, 11)
  }

  function FindMonth(y: int, doy: int, m: int): (r: int)
    requires 0 <= m < 12 && 0 <= doy < DaysBeforeMonth(y, m + 1)
    ensures 0 <= r <= m && DaysBeforeMonth(y, r) <= doy < DaysBeforeMonth(y, r + 1)
    decreases m
  {
    if DaysBeforeMonth(y, m) <= doy then m else FindMonth(y, doy, m - 1)
  }

  // ---------------------------------------------------------------------------
  // Civil dates and day numbers
  // ---------------------------------------------------------------------------

  /** A calendar date; `month` is 0-based as `getMonth` returns it, `day` is 1-based. */
  datatype Civil = Civil(year: int, month: int, day: int)

  predicate ValidCivil(c: Civil) {
    0 <= c.month < 12 && 1 <= c.day <= MonthLength(c.year, c.month)
  }

  /** The day number of a calendar date. */
  function DayNumber(c: Civil): int
    requires 0 <= c.month < 12
  {
    DaysBeforeYear(c.year) + DaysBeforeMonth(c.year, c.month) + c.day - 1
  }

  /** The calendar date of day `n`. */
  function CivilOf(n: int): (c: Civil)
    ensures ValidCivil(c) && DayNumber(c) == n
  {
    var y := YearOf(n);
    YearStep(y);
    var m := MonthOf(y, n - DaysBeforeYear(y));
    MonthStep(y, m);
    Civil(y, m, n - DaysBeforeYear(y) - DaysBeforeMonth(y, m) + 1)
  }

  /** Every valid calendar date is the date of its own day number, so DayNumber is a
      bijection between valid dates and integers. */
  lemma CivilOfDayNumber(c: Civil)
    requires ValidCivil(c)
    ensures CivilOf(DayNumber(c)) == c
  {
    var n := DayNumber(c);
    MonthStep(c.year, c.month);
    MonthStep(c.year, 11);
    if c.month < 11 { MonthsIncrease(c.year, c.month, 11); }
    YearStep(c.year);
    YearOfUnique(n, c.year);
    var r := CivilOf(n);
    assert r.year == c.year;
    var doy := n - DaysBeforeYear(c.year);
    assert DaysBeforeMonth(c.year, c.month) <= doy < DaysBeforeMonth(c.year, c.month + 1);
    if r.month < c.month { MonthsIncrease(c.year, r.month, c.month); }
    if c.month < r.month { MonthsIncrease(c.year, c.month, r.month); }
    assert r.month == c.month;
  }

  /** The weekday of day `n`, 0 for Sunday: 1970-01-01 was a Thursday. */
  function Weekday(n: int): (w: int)
    ensures 0 <= w < 7
  {
    (n + 4) % 7
  }

  // ---------------------------------------------------------------------------
  // Date objects
  // ---------------------------------------------------------------------------

  /** A Date object: a valid time value, or the Invalid Date whose time value is NaN.
      An Invalid Date object is still truthy. */
  datatype Date = InvalidDate | DateAt(time: int)

  predicate ValidTime(t: int) { -MaxTime <= t <= MaxTime }

  /** ECMAScript TimeClip: out-of-range time values give the Invalid Date. */
  function TimeClip(t: int): (d: Date)
    ensures d.DateAt? <==> ValidTime(t)
    ensures d.DateAt? ==> d.time == t
  {
    if ValidTime(t) then DateAt(t) else InvalidDate
  }

  /** The day a time value falls on. */
  function DayOf(t: int): int { t / MsPerDay }

  /** A time value `r` milliseconds into day `n` falls on day `n`. */
  lemma DayOfTime(n: int, r: int)
    requires 0 <= r < MsPerDay
    ensures DayOf(n * MsPerDay + r) == n
  {
  }

  lemma MulAtLeast(b: int, k: int)
    requires b > 0 && k >= 1
    ensures b * k >= b
  {
  }

  lemma DivUnique(a: int, b: int, q: int, r: int)
    requires b > 0 && a == b * q + r && 0 <= r < b
    ensures a / b == q
  {
    var q0, r0 := a / b, a % b;
    assert b * q + r == b * q0 + r0;
    assert b * (q - q0) == r0 - r;
    if q > q0 {
      MulAtLeast(b, q - q0);
    } else if q < q0 {
      MulAtLeast(b, q0 - q);
    }
  }

  lemma MulLess(b: int, x: int, c: int)
    requires b > 0 && b * x < b * c
    ensures x < c
  {
  }

  /** Dividing by `b` and then by `c` is dividing by `b * c`. */
  lemma DivDiv(a: int, b: int, c: int)
    requires a >= 0 && b > 0 && c > 0
    ensures a / b / c == a / (b * c)
  {
    var q, r := a / (b * c), a % (b * c);
    assert a == (b * c) * q + r;
    var x, y := r / b, r % b;
    assert r == b * x + y;
    assert a == b * (c * q + x) + y;
    DivUnique(a, b, c * q + x, y);
    assert b * x <= r;
    MulLess(b, x, c);
    DivUnique(a / b, c, q, x);
  }

  /** Moving `m` whole days moves the day number by `m`. */
  lemma DayShift(t: int, m: int)
    ensures DayOf(t + m * MsPerDay) == DayOf(t) + m
  {
    DivUnique(t + m * MsPerDay, MsPerDay, DayOf(t) + m, t % MsPerDay);
  }

  /** The year a `Date` constructor uses: 0..99 stand for 1900..1999. */
  function FullYear(y: int): int { if 0 <= y <= 99 then 1900 + y else y }

  /** ECMAScript MakeDay: a month beyond 0..11 rolls into the neighbouring years and a
      day beyond the month's length into the following months. */
  function MakeDay(year: int, month: int, date: int): (n: int)
    ensures 0 <= month < 12 ==> n == DaysBeforeYear(year) + DaysBeforeMonth(year, month) + date - 1
  {
    var ym := year + month / 12;
    var mn := month % 12;
    DaysBeforeYear(ym) + DaysBeforeMonth(ym, mn) + date - 1
  }

  /** `new Date(y, m, d)` in local time, which is UTC here. */
  function NewDate(y: JsNumber, m: JsNumber, d: JsNumber): (r: Date)
    ensures (y.NaN? || m.NaN? || d.NaN?) ==> r == InvalidDate
    ensures r.DateAt? ==> r.time % MsPerDay == 0
  {
    if y.NaN? || m.NaN? || d.NaN? then InvalidDate
    else TimeClip(MakeDay(FullYear(y.v), m.v, d.v) * MsPerDay)
  }

  function GetDate(d: Date): JsNumber {
    if d.InvalidDate? then NaN else Num(CivilOf(DayOf(d.time)).day)
  }

  function GetDay(d: Date): JsNumber {
    if d.InvalidDate? then NaN else Num(Weekday(DayOf(d.time)))
  }

  function GetMonth(d: Date): JsNumber {
    if d.InvalidDate? then NaN else Num(CivilOf(DayOf(d.time)).month)
  }

  function GetFullYear(d: Date): JsNumber {
    if d.InvalidDate? then NaN else Num(CivilOf(DayOf(d.time)).year)
  }

  /** `d.setHours(23, 59, 59, 999)`: the last millisecond of the same day. */
  function SetEndOfDay(d: Date): (r: Date)
    ensures d.InvalidDate? ==> r.InvalidDate?
  {
    if d.InvalidDate? then InvalidDate else TimeClip(DayOf(d.time) * MsPerDay + MsPerDay - 1)
  }

  /** The end of a day is on that same day, at its last millisecond. */
  lemma EndOfSameDay(t: int)
    requires SetEndOfDay(DateAt(t)).DateAt?
    ensures DayOf(SetEndOfDay(DateAt(t)).time) == DayOf(t)
    ensures SetEndOfDay(DateAt(t)).time % MsPerDay == MsPerDay - 1
  {
    DayOfTime(DayOf(t), MsPerDay - 1);
  }

  /** A year whose days all have valid time values. */
  predicate YearInRange(y: int) { -200000 <= y <= 200000 }

  lemma YearRange(y: int)
    requires YearInRange(y)
    ensures -MaxDay <= DaysBeforeYear(y) && DaysBeforeYear(y + 1) <= MaxDay
  {
    if y >= 1970 { YearsApart(1970, y + 1); } else { YearsApart(y, 1970); YearsApart(y + 1, 1970); }
  }

  lemma DayInRange(c: Civil)
    requires ValidCivil(c) && YearInRange(c.year)
    ensures -MaxDay <= DayNumber(c) < MaxDay
    ensures ValidTime(DayNumber(c) * MsPerDay) && ValidTime(DayNumber(c) * MsPerDay + MsPerDay - 1)
  {
    YearRange(c.year);
    MonthStep(c.year, c.month);
    MonthStep(c.year, 11);
    if c.month < 11 { MonthsIncrease(c.year, c.month, 11); }
    YearStep(c.year);
  }

  // ---------------------------------------------------------------------------
  // src/utils/dateHelpers.ts
  // ---------------------------------------------------------------------------

  /** `parseLocal`: null for the empty string or when splitting on '-' does not give
      three parts; otherwise `new Date(p0, p1 - 1, p2)` of the parts' numeric values,
      which is the Invalid Date when a part is not a number. */
  function ParseLocal(s: string): (r: Option<Date>)
    ensures s == "" ==> r == None
    ensures s != "" ==> (r.None? <==> Count(s, '-') != 2)
    ensures r.Some? && r.value.DateAt? ==> r.value.time % MsPerDay == 0
  {
    if s == "" then None
    else
      var parts := Split(s, '-');
      if |parts| != 3 then None
      else Some(NewDate(ToNumber(parts[0]), Sub(ToNumber(parts[1]), 1), ToNumber(parts[2])))
  }

  /** `getEndOfDay`: null exactly when `parseLocal` is null, else the last millisecond
      of the parsed day. */
  function GetEndOfDay(s: string): (r: Option<Date>)
    ensures r.None? <==> ParseLocal(s).None?
    ensures r.Some? && r.value.DateAt? ==>
      ParseLocal(s).value.DateAt? && r.value.time == ParseLocal(s).value.time + MsPerDay - 1
  {
    match ParseLocal(s)
    case None => None
    case Some(d) => Some(SetEndOfDay(d))
  }

  /** A part that is not a number makes the whole date invalid, yet not null. */
  lemma MalformedPart(s: string)
    requires s != "" && Count(s, '-') == 2
    requires ToNumber(Split(s, '-')[0]).NaN? || ToNumber(Split(s, '-')[1]).NaN? || ToNumber(Split(s, '-')[2]).NaN?
    ensures ParseLocal(s) == Some(InvalidDate)
  {
  }

  /** The end of day `n` is 86,399,999 ms after its midnight. */
  lemma EndOfMidnight(n: int)
    requires ValidTime(n * MsPerDay + MsPerDay - 1)
    ensures SetEndOfDay(DateAt(n * MsPerDay)) == DateAt(n * MsPerDay + 86399999)
  {
    DayOfTime(n, 0);
  }

  /** On any date that is in range, the end of the day is 86,399,999 ms after its start. */
  lemma EndOfDayOfValid(s: string, c: Civil)
    requires ValidCivil(c) && YearInRange(c.year)
    requires ParseLocal(s) == Some(DateAt(DayNumber(c) * MsPerDay))
    ensures GetEndOfDay(s) == Some(DateAt(DayNumber(c) * MsPerDay + 86399999))
  {
    var n := DayNumber(c);
    assert GetEndOfDay(s) == Some(SetEndOfDay(DateAt(n * MsPerDay)));
    DayInRange(c);
    EndOfMidnight(n);
  }

  // ---------------------------------------------------------------------------
  // The date part of toISOString
  // ---------------------------------------------------------------------------

  /** The year field of an ISO string: four digits for 0..9999, else a sign and six digits. */
  function IsoYear(y: int): string {
    if 0 <= y <= 9999 then Padded(y, 4)
    else (if y < 0 then "-" else "+") + Padded(if y < 0 then -y else y, 6)
  }

  /** `YYYY-MM-DD` of a calendar date. */
  function DateString(c: Civil): string
    requires ValidCivil(c)
  {
    IsoYear(c.year) + "-" + Padded(c.month + 1, 2) + "-" + Padded(c.day, 2)
  }

  /** `YYYY-MM-DD` of day `n`. */
  function DayString(n: int): string {
    DateString(CivilOf(n))
  }

  /** `DayString` as a function value, which callers pass on so that the calendar
      arithmetic behind it stays out of their proofs. */
  function DayText(): int -> string { (n: int) => DayString(n) }

  /** `new Date().toISOString().split('T')[0]`. */
  function Today(now: int): string {
    DayText()(DayOf(now))
  }

  /** `d.toISOString().split('T')[0]`; None where `toISOString` throws a RangeError. */
  function IsoDate(d: Date): (r: Option<string>)
    ensures r.None? <==> d.InvalidDate?
  {
    if d.InvalidDate? then None else Some(DayString(DayOf(d.time)))
  }

  /** "Y-M-D" of three digit strings splits back into the three strings. */
  lemma SplitDate(y: string, m: string, d: string)
    requires AllDigits(y) && AllDigits(m) && AllDigits(d)
    ensures Split(y + "-" + m + "-" + d, '-') == [y, m, d]
  {
    DigitsHaveNo(y, '-');
    DigitsHaveNo(m, '-');
    DigitsHaveNo(d, '-');
    assert Join([y, m, d], "-") == y + "-" + m + "-" + d by {
      assert Join([y, m, d][1..], "-") == m + "-" + d by {
        assert [y, m, d][1..] == [m, d];
        assert [m, d][1..] == [d];
      }
    }
    SplitJoin([y, m, d], '-');
  }

  /** parseLocal of three digit strings joined by '-' is `new Date` of their values,
      the month one less. */
  lemma ParseDigits(y: string, m: string, d: string)
    requires AllDigits(y) && AllDigits(m) && AllDigits(d)
    ensures ParseLocal(y + "-" + m + "-" + d)
         == Some(NewDate(Num(DigitsValue(y)), Sub(Num(DigitsValue(m)), 1), Num(DigitsValue(d))))
  {
    var s := y + "-" + m + "-" + d;
    assert s != "" by { assert s[|y|] == '-'; }
    assert Split(s, '-') == [y, m, d] by { SplitDate(y, m, d); }
    ParseParts(s, y, m, d);
  }

  lemma ParseParts(s: string, y: string, m: string, d: string)
    requires s != "" && Split(s, '-') == [y, m, d]
    ensures ParseLocal(s) == Some(NewDate(ToNumber(y), Sub(ToNumber(m), 1), ToNumber(d)))
  {
  }

  /** `new Date(y, m, d)` of a valid date is its midnight, outside the two-digit years. */
  lemma NewDateOfCivil(c: Civil)
    requires ValidCivil(c) && YearInRange(c.year) && !(0 <= c.year <= 99)
    ensures NewDate(Num(c.year), Num(c.month), Num(c.day)) == DateAt(DayNumber(c) * MsPerDay)
  {
    DayInRange(c);
  }

  /** parseLocal of a date written as `YYYY-MM-DD` is local midnight of that date, for
      the years whose four digits do not fall under the two-digit-year rule. */
  lemma ParseDateString(c: Civil)
    requires ValidCivil(c) && 100 <= c.year <= 9999
    ensures ParseLocal(DateString(c)) == Some(DateAt(DayNumber(c) * MsPerDay))
  {
    var y, m, d := Padded(c.year, 4), Padded(c.month + 1, 2), Padded(c.day, 2);
    assert DateString(c) == y + "-" + m + "-" + d;
    ParseDigits(y, m, d);
    NewDateOfCivil(c);
  }

  /** Formatting a day and parsing the string back gives that day's midnight. */
  lemma ParseDayString(n: int)
    requires 100 <= CivilOf(n).year <= 9999
    ensures ParseLocal(DayString(n)) == Some(DateAt(n * MsPerDay))
  {
    ParseDateString(CivilOf(n));
  }

  lemma LeapTwoDigit(y: int)
    requires 1900 <= y <= 1999
    ensures IsLeap(y) ==> IsLeap(y - 1900)
  {
  }

  lemma NewDateTwoDigit(c: Civil)
    requires ValidCivil(c) && 1900 <= c.year <= 1999
    ensures NewDate(Num(c.year - 1900), Num(c.month), Num(c.day)) == DateAt(DayNumber(c) * MsPerDay)
  {
    var n := DayNumber(c);
    assert FullYear(c.year - 1900) == c.year;
    assert MakeDay(c.year, c.month, c.day) == n;
    DayInRange(c);
    assert TimeClip(n * MsPerDay) == DateAt(n * MsPerDay);
  }

  /** A year written 0000..0099 is read as 1900..1999, so such a string parses to a
      date nineteen centuries later. */
  lemma TwoDigitYear(c: Civil)
    requires ValidCivil(c) && 1900 <= c.year <= 1999
    ensures ValidCivil(Civil(c.year - 1900, c.month, c.day))
    ensures ParseLocal(DateString(Civil(c.year - 1900, c.month, c.day))) == Some(DateAt(DayNumber(c) * MsPerDay))
  {
    var e := Civil(c.year - 1900, c.month, c.day);
    LeapTwoDigit(c.year);
    var y, m, d := Padded(e.year, 4), Padded(e.month + 1, 2), Padded(e.day, 2);
    assert DateString(e) == y + "-" + m + "-" + d;
    ParseDigits(y, m, d);
    NewDateTwoDigit(c);
  }

  /** A time value and the midnight of its day give the same ISO date. */
  lemma IsoDateOfDay(t: int)
    requires ValidTime(t) && ValidTime(DayOf(t) * MsPerDay)
    ensures IsoDate(DateAt(t)) == IsoDate(DateAt(DayOf(t) * MsPerDay))
  {
    var n := DayOf(t);
    DayOfTime(n, 0);
    assert DayOf(n * MsPerDay) == n;
    assert IsoDate(DateAt(n * MsPerDay)) == Some(DayString(n));
  }
}
