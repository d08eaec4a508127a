/** Day keys (Backend/utils/date.js) over the ECMAScript time-value arithmetic they rest on.
    A time value is an integer number of milliseconds since 1970-01-01T00:00:00Z; a day key
    is the time value of a UTC midnight. `Date.UTC`, `getUTCFullYear`, `getUTCMonth`,
    `getUTCDate` and `setUTCDate` are written out as the ECMAScript specification defines
    them (DayFromYear, MakeDay, YearFromTime, MonthFromTime, DateFromTime, TimeClip). */
module Dates {
  import opened Http
  import opened Strings

  // A day is 86_400_000 ms. The figure is written out where it is used, so that the
  // verifier sees multiplication and division by a literal, which is linear arithmetic.

  /** TimeClip's bound: a time value outside [-MaxTime, MaxTime] is NaN (an Invalid Date). */
  const MaxTime: int := 8_640_000_000_000_000

  /** A valid (non-NaN) time value. */
  type Time = t: int | -MaxTime <= t <= MaxTime

  predicate IsLeapYear(y: int) {
    y % 4 == 0 && (y % 100 != 0 || y % 400 == 0)
  }

  function DaysInYear(y: int): int {
    if IsLeapYear(y) then 366 else 365
  }

  /** The day number of 1 January of year y (day 0 is 1970-01-01). */
  function DayFromYear(y: int): int {
    365 * (y - 1970) + (y - 1969) / 4 - (y - 1901) / 100 + (y - 1601) / 400
  }

  /** Consecutive years are DaysInYear apart: the leap-year rule and DayFromYear agree. */
  lemma DayFromYearStep(y: int)
    ensures DayFromYear(y + 1) == DayFromYear(y) + DaysInYear(y)
  {
    LeapCount(y);
    var l4 := if y % 4 == 0 then 1 else 0;
    var l100 := if y % 100 == 0 then 1 else 0;
    var l400 := if y % 400 == 0 then 1 else 0;
    assert DayFromYear(y + 1) == DayFromYear(y) + 365 + l4 - l100 + l400;
    LeapDivisors(y);
    assert DaysInYear(y) == 365 + l4 - l100 + l400;
  }

  /** A multiple of 400 is a multiple of 100, and a multiple of 100 is a multiple of 4. */
  lemma LeapDivisors(y: int)
    ensures y % 400 == 0 ==> y % 100 == 0
    ensures y % 100 == 0 ==> y % 4 == 0
  {
    if y % 400 == 0 {
      MultipleOf100(y / 400 * 4, y);
    }
    if y % 100 == 0 {
      MultipleOf4(y / 100 * 25, y);
    }
  }

  lemma MultipleOf100(j: int, y: int)
    requires y == 100 * j
    ensures y % 100 == 0
  {
  }

  lemma MultipleOf4(j: int, y: int)
    requires y == 4 * j
    ensures y % 4 == 0
  {
  }

  /** Each of the leap-year counts in DayFromYear grows by one exactly at a year its rule
      names. */
  lemma LeapCount(y: int)
    ensures (y - 1968) / 4 == (y - 1969) / 4 + (if y % 4 == 0 then 1 else 0)
    ensures (y - 1900) / 100 == (y - 1901) / 100 + (if y % 100 == 0 then 1 else 0)
    ensures (y - 1600) / 400 == (y - 1601) / 400 + (if y % 400 == 0 then 1 else 0)
  {
    CountStep4(y - 1969);
    CountStep100(y - 1901);
    CountStep400(y - 1601);
    assert y % 4 == (y - 1968) % 4;
    assert y % 100 == (y - 1900) % 100;
    assert y % 400 == (y - 1600) % 400;
  }

  lemma CountStep4(a: int)
    ensures (a + 1) / 4 == a / 4 + (if (a + 1) % 4 == 0 then 1 else 0)
  {
    var q, r := a / 4, a % 4;
    assert a == 4 * q + r && 0 <= r < 4;
    if r == 3 {
      assert a + 1 == 4 * (q + 1) + 0;
    } else {
      assert a + 1 == 4 * q + (r + 1);
    }
  }

  lemma CountStep100(a: int)
    ensures (a + 1) / 100 == a / 100 + (if (a + 1) % 100 == 0 then 1 else 0)
  {
    var q, r := a / 100, a % 100;
    assert a == 100 * q + r && 0 <= r < 100;
    if r == 99 {
      assert a + 1 == 100 * (q + 1) + 0;
    } else {
      assert a + 1 == 100 * q + (r + 1);
    }
  }

  lemma CountStep400(a: int)
    ensures (a + 1) / 400 == a / 400 + (if (a + 1) % 400 == 0 then 1 else 0)
  {
    var q, r := a / 400, a % 400;
    assert a == 400 * q + r && 0 <= r < 400;
    if r == 399 {
      assert a + 1 == 400 * (q + 1) + 0;
    } else {
      assert a + 1 == 400 * q + (r + 1);
    }
  }

  /** DayFromYear is strictly increasing. */
  lemma {:induction false} DayFromYearMonotone(a: int, b: int)
    requires a < b
    ensures DayFromYear(a + 1) <= DayFromYear(b)
    decreases b - a
  {
    if a + 1 < b {
      DayFromYearMonotone(a + 1, b);
      DayFromYearStep(a + 1);
    }
  }

  /** Month m is 0-based, as in `getUTCMonth`. */
  function DaysInMonth(y: int, m: int): int
    requires 0 <= m < 12
  {
    if m == 1 then (if IsLeapYear(y) then 29 else 28)
    else if m == 3 || m == 5 || m == 8 || m == 10 then 30
    else 31
  }

  lemma DaysInMonthBound(y: int, m: int)
    requires 0 <= m < 12
    ensures 28 <= DaysInMonth(y, m) <= 31
  {
  }

  /** Days of year y before month m; DaysBeforeMonth(y, 12) is the whole year. */
  function DaysBeforeMonth(y: int, m: int): int
    requires 0 <= m <= 12
  {
    var leap := if m >= 2 && IsLeapYear(y) then 1 else 0;
    leap + (if m == 0 then 0 else if m == 1 then 31 else if m == 2 then 59
            else if m == 3 then 90 else if m == 4 then 120 else if m == 5 then 151
            else if m == 6 then 181 else if m == 7 then 212 else if m == 8 then 243
            else if m == 9 then 273 else if m == 10 then 304 else if m == 11 then 334
            else 365)
  }

  lemma DaysBeforeMonthStep(y: int, m: int)
    requires 0 <= m < 12
    ensures DaysBeforeMonth(y, m + 1) == DaysBeforeMonth(y, m) + DaysInMonth(y, m)
    ensures DaysBeforeMonth(y, 12) == DaysInYear(y)
  {
  }

  lemma YearEnd(y: int)
    ensures DaysBeforeMonth(y, 12) == DaysInYear(y)
  {
  }

  /** ECMAScript MakeDay: the month may lie outside 0..11 and carries into the year; the
      date may lie outside the month and carries into the following or preceding days. */
  function MakeDay(year: int, month: int, date: int): int {
    var ym := year + month / 12;
    var mn := month % 12;
    DayFromYear(ym) + DaysBeforeMonth(ym, mn) + date - 1
  }

  /** `Date.UTC` maps the years 0..99 to 1900..1999. */
  function FullYear(y: int): int {
    if 0 <= y <= 99 then 1900 + y else y
  }

  /** `Date.UTC(year, month, date)`; None stands for NaN (TimeClip out of range). */
  function DateUtc(year: int, month: int, date: int): (r: Option<Time>)
    ensures r.Some? ==> r.value % 86_400_000 == 0
  {
    var k := MakeDay(FullYear(year), month, date);
    Midnight(k);
    var t := k * 86_400_000;
    if -MaxTime <= t <= MaxTime then Some(t) else None
  }

  /** Twelve months carry into one year. */
  lemma MonthCarry(y: int, m: int, d: int)
    ensures MakeDay(y, m + 12, d) == MakeDay(y + 1, m, d)
  {
    assert (m + 12) / 12 == m / 12 + 1;
    assert (m + 12) % 12 == m % 12;
  }

  /** A date past the end of its month carries into the next month, across a year end too. */
  lemma DateCarry(y: int, m: int, d: int)
    requires 0 <= m < 12
    ensures MakeDay(y, m, DaysInMonth(y, m) + d) == MakeDay(y, m + 1, d)
  {
    if m == 11 {
      DecemberCarry(y, d);
    } else {
      WithinYearCarry(y, m, d);
    }
  }

  lemma DecemberCarry(y: int, d: int)
    ensures MakeDay(y, 11, 31 + d) == MakeDay(y, 12, d)
  {
    DaysBeforeMonthStep(y, 11);
    MakeDayInYear(y, 11, 31 + d);
    DayFromYearStep(y);
    MakeDayNextYear(y, d);
  }

  lemma WithinYearCarry(y: int, m: int, d: int)
    requires 0 <= m < 11
    ensures MakeDay(y, m, DaysInMonth(y, m) + d) == MakeDay(y, m + 1, d)
  {
    DaysBeforeMonthStep(y, m);
    MakeDayInYear(y, m, DaysInMonth(y, m) + d);
    MakeDayInYear(y, m + 1, d);
  }

  /** Month 12 is January of the next year. */
  lemma MakeDayNextYear(y: int, d: int)
    ensures MakeDay(y, 12, d) == DayFromYear(y + 1) + d - 1
  {
    assert 12 / 12 == 1 && 12 % 12 == 0;
  }

  function YearUp(n: int, y: int): (r: int)
    requires DayFromYear(y) <= n
    ensures DayFromYear(r) <= n < DayFromYear(r + 1)
    decreases n - DayFromYear(y)
  {
    DayFromYearStep(y);
    if DayFromYear(y + 1) <= n then YearUp(n, y + 1) else y
  }

  function YearDown(n: int, y: int): (r: int)
    requires n < DayFromYear(y + 1)
    ensures DayFromYear(r) <= n < DayFromYear(r + 1)
    decreases DayFromYear(y + 1) - n
  {
    DayFromYearStep(y);
    if n < DayFromYear(y) then YearDown(n, y - 1) else y
  }

  /** YearFromTime on day numbers: the year whose 1 January is the last one at or before day n. */
  function YearOfDay(n: int): (y: int)
    ensures DayFromYear(y) <= n < DayFromYear(y + 1)
  {
    if 0 <= n then YearUp(n, 1970) else YearDown(n, 1969)
  }

  /** The year of a day is the only year bracketing it. */
  lemma YearOfDayUnique(n: int, y: int)
    requires DayFromYear(y) <= n < DayFromYear(y + 1)
    ensures YearOfDay(n) == y
  {
    var r := YearOfDay(n);
    if r < y { DayFromYearMonotone(r, y); }
    if y < r { DayFromYearMonotone(y, r); }
  }

  function MonthSearch(y: int, w: int, m: int): (r: int)
    requires 0 <= m < 12 && DaysBeforeMonth(y, m) <= w < DaysInYear(y)
    ensures m <= r < 12
    ensures DaysBeforeMonth(y, r) <= w < DaysBeforeMonth(y, r + 1)
    decreases 12 - m
  {
    YearEnd(y);
    if m == 11 || w < DaysBeforeMonth(y, m + 1) then m else MonthSearch(y, w, m + 1)
  }

  /** A day lies within its year, and after the year's first month starts. */
  lemma DayWithinYear(n: int)
    ensures var y := YearOfDay(n);
            DaysBeforeMonth(y, 0) <= n - DayFromYear(y) < DaysInYear(y)
  {
    var y := YearOfDay(n);
    DayFromYearStep(y);
    Offset(n, DayFromYear(y), DayFromYear(y + 1), DaysInYear(y));
  }

  lemma Offset(n: int, start: int, end: int, len: int)
    requires start <= n < end && end == start + len
    ensures 0 <= n - start < len
  {
  }

  /** MonthFromTime on day numbers (0-based month). */
  function MonthOfDay(n: int): (m: int)
    ensures 0 <= m < 12
  {
    var y := YearOfDay(n);
    DayWithinYear(n);
    MonthSearch(y, n - DayFromYear(y), 0)
  }

  /** DateFromTime on day numbers (1-based day of month). */
  function DateOfDay(n: int): (d: int)
    ensures 1 <= d <= DaysInMonth(YearOfDay(n), MonthOfDay(n))
  {
    var y := YearOfDay(n);
    DayFromYearStep(y);
    var m := MonthOfDay(n);
    DaysBeforeMonthStep(y, m);
    n - DayFromYear(y) - DaysBeforeMonth(y, m) + 1
  }

  /** Year, month and date of a day rebuild that day. */
  lemma CivilRoundTrip(n: int)
    ensures MakeDay(YearOfDay(n), MonthOfDay(n), DateOfDay(n)) == n
  {
    var y, m := YearOfDay(n), MonthOfDay(n);
    DateOfDayValue(n);
    MakeDayInYear(y, m, DateOfDay(n));
  }

  lemma DateOfDayValue(n: int)
    ensures DateOfDay(n) == n - DayFromYear(YearOfDay(n)) - DaysBeforeMonth(YearOfDay(n), MonthOfDay(n)) + 1
  {
  }

  /** A well-formed calendar date's day has that year, month and date. */
  lemma CivilOfMakeDay(y: int, m: int, d: int)
    requires 0 <= m < 12 && 1 <= d <= DaysInMonth(y, m)
    ensures YearOfDay(MakeDay(y, m, d)) == y
    ensures MonthOfDay(MakeDay(y, m, d)) == m
    ensures DateOfDay(MakeDay(y, m, d)) == d
  {
    var n := MakeDay(y, m, d);
    DayInYear(y, m, d);
    YearOfDayUnique(n, y);
    MakeDayInYear(y, m, d);
    DaysBeforeMonthStep(y, m);
    MonthUnique(y, n - DayFromYear(y), MonthOfDay(n), m);
  }

  /** MakeDay of a month within the year. */
  lemma MakeDayInYear(y: int, m: int, d: int)
    requires 0 <= m < 12
    ensures MakeDay(y, m, d) == DayFromYear(y) + DaysBeforeMonth(y, m) + d - 1
  {
    assert m / 12 == 0 && m % 12 == m;
  }

  /** A day of the year lies in one month only. */
  lemma MonthUnique(y: int, w: int, r: int, m: int)
    requires 0 <= r < 12 && 0 <= m < 12
    requires DaysBeforeMonth(y, r) <= w < DaysBeforeMonth(y, r + 1)
    requires DaysBeforeMonth(y, m) <= w < DaysBeforeMonth(y, m + 1)
    ensures r == m
  {
    if r < m { MonthsIncrease(y, r + 1, m); }
    if m < r { MonthsIncrease(y, m + 1, r); }
  }

  /** A well-formed calendar date falls within its year. */
  lemma DayInYear(y: int, m: int, d: int)
    requires 0 <= m < 12 && 1 <= d <= DaysInMonth(y, m)
    ensures DayFromYear(y) <= MakeDay(y, m, d) < DayFromYear(y + 1)
  {
    assert m / 12 == 0 && m % 12 == m;
    DaysBeforeMonthStep(y, m);
    MonthsIncrease(y, m + 1, 12);
    DayFromYearStep(y);
  }

  lemma DaysBeforeMonthBound(y: int, m: int)
    requires 0 <= m < 12
    ensures 0 <= DaysBeforeMonth(y, m) <= 335
  {
    MonthsIncrease(y, 0, m);
    MonthsIncrease(y, m, 11);
  }

  lemma {:induction false} MonthsIncrease(y: int, a: int, b: int)
    requires 0 <= a <= b <= 12
    ensures DaysBeforeMonth(y, a) <= DaysBeforeMonth(y, b)
    decreases b - a
  {
    if a < b {
      DaysBeforeMonthStep(y, a);
      MonthsIncrease(y, a + 1, b);
    }
  }

  /** The day number `Date.UTC(getUTCFullYear(t), getUTCMonth(t), getUTCDate(t))` names for a
      time on day n. The year passes through Date.UTC again, so a day of the years 0..99
      lands in 1900..1999; every other day is kept. */
  function StartDay(n: int): (k: int)
    ensures 0 <= YearOfDay(n) <= 99 ==> DayFromYear(1900) <= k < DayFromYear(2001)
    ensures !(0 <= YearOfDay(n) <= 99) ==> k == n
  {
    StartDayBounds(n);
    MakeDay(FullYear(YearOfDay(n)), MonthOfDay(n), DateOfDay(n))
  }

  lemma StartDayBounds(n: int)
    ensures var y := YearOfDay(n);
            var k := MakeDay(FullYear(y), MonthOfDay(n), DateOfDay(n));
            (0 <= y <= 99 ==> DayFromYear(1900) <= k < DayFromYear(2001)) && (!(0 <= y <= 99) ==> k == n)
  {
    var y := YearOfDay(n);
    if 0 <= y <= 99 {
      CenturyDayBounds(y, MonthOfDay(n), DateOfDay(n));
    } else {
      CivilRoundTrip(n);
    }
  }

  lemma CenturyDayBounds(y: int, m: int, d: int)
    requires 0 <= y <= 99 && 0 <= m < 12 && 1 <= d <= DaysInMonth(y, m)
    ensures DayFromYear(1900) <= MakeDay(FullYear(y), m, d) < DayFromYear(2001)
  {
    DaysInMonthBound(y, m);
    CenturyShiftInRange(y, m, d);
  }

  /** `startOfDayUTC(t)`. */
  function StartOfDayUtc(t: Time): (r: Time)
    ensures r % 86_400_000 == 0
  {
    var k := StartDay(t / 86_400_000);
    StartDayInRange(t);
    Midnight(k);
    k * 86_400_000
  }

  /** The time value of the midnight starting day k. */
  lemma Midnight(k: int)
    ensures (k * 86_400_000) % 86_400_000 == 0 && (k * 86_400_000) / 86_400_000 == k
  {
  }

  lemma StartDayInRange(t: Time)
    ensures -MaxTime <= StartDay(t / 86_400_000) * 86_400_000 <= MaxTime
  {
    var n := t / 86_400_000;
    if 0 <= YearOfDay(n) <= 99 {
      YearsInRange();
    } else {
      TruncateInRange(t);
    }
  }

  lemma YearsInRange()
    ensures DayFromYear(1900) == -25567 && DayFromYear(2001) == 11323
  {
  }

  lemma TruncateInRange(t: Time)
    ensures -MaxTime <= (t / 86_400_000) * 86_400_000 <= t < (t / 86_400_000) * 86_400_000 + 86_400_000
  {
  }

  lemma CenturyShiftInRange(y: int, m: int, d: int)
    requires 0 <= y <= 99 && 0 <= m < 12 && 1 <= d <= 31
    ensures DayFromYear(1900) <= MakeDay(1900 + y, m, d) < DayFromYear(2001)
  {
    assert m / 12 == 0 && m % 12 == m;
    var ym := 1900 + y;
    DaysBeforeMonthBound(ym, m);
    assert MakeDay(ym, m, d) == DayFromYear(ym) + DaysBeforeMonth(ym, m) + d - 1;
    if 0 < y { DayFromYearMonotone(1900, ym); DayFromYearStep(1900); }
    DayFromYearStep(ym);
    DayFromYearStep(ym + 1);
    if ym + 2 < 2001 { DayFromYearMonotone(ym + 1, 2001); DayFromYearStep(ym + 1); }
  }

  /** Outside the years 0..99, startOfDayUTC truncates to the UTC midnight at or before t. */
  lemma StartOfDayTruncates(t: Time)
    requires !(0 <= YearOfDay(t / 86_400_000) <= 99)
    ensures StartOfDayUtc(t) == (t / 86_400_000) * 86_400_000
    ensures StartOfDayUtc(t) <= t < StartOfDayUtc(t) + 86_400_000
  {
  }

  /** Every time of the first day of 1970 starts that day, at time 0. */
  lemma FirstDayStart(t: Time)
    requires 0 <= t < 86_400_000
    ensures StartOfDayUtc(t) == 0
  {
    assert t / 86_400_000 == 0;
    YearOfDayUnique(0, 1970);
    assert StartDay(0) == 0;
  }

  /** Any non-zero time on the first day of 1970 parses to day key 0. */
  lemma FirstDayKey(ms: int, now: Time)
    requires 0 < ms < 86_400_000
    ensures ParseDateOnlyUtc(Timestamp(ms), now) == Ok(0)
  {
    FirstDayStart(ms);
    ParseTimestamp(ms, now);
  }

  /** A day between the first days of years a and b lies in a year from a up to b - 1. */
  lemma YearOfDayBetween(n: int, a: int, b: int)
    requires DayFromYear(a) <= n < DayFromYear(b)
    ensures a <= YearOfDay(n) < b
  {
    var y := YearOfDay(n);
    if y < a { DayFromYearMonotone(y, a); }
    if b <= y { DayFromYearMonotone(b - 1, y); }
  }

  /** startOfDayUTC is idempotent: its result is always a midnight of a year past 99. */
  lemma StartOfDayIdempotent(t: Time)
    ensures StartOfDayUtc(StartOfDayUtc(t)) == StartOfDayUtc(t)
  {
    var n := t / 86_400_000;
    var k := StartDay(n);
    assert StartOfDayUtc(t) / 86_400_000 == k;
    if 0 <= YearOfDay(n) <= 99 {
      YearOfDayBetween(k, 1900, 2001);
    }
    assert StartDay(k) == k;
  }

  /** The `^(\d{4})-(\d{2})-(\d{2})$` pattern (JavaScript `$` without the m flag: end of input). */
  predicate IsDateKey(s: string) {
    |s| == 10 && AllDigits(s[..4]) && s[4] == '-' && AllDigits(s[5..7]) && s[7] == '-'
    && AllDigits(s[8..])
  }

  function YearField(s: string): nat requires IsDateKey(s) { DigitsValue(s[..4]) }
  function MonthField(s: string): nat requires IsDateKey(s) { DigitsValue(s[5..7]) }
  function DayField(s: string): nat requires IsDateKey(s) { DigitsValue(s[8..]) }

  /** What `parseDateOnlyUTC` receives: nothing, a string, a number or Date with a valid or
      out-of-range time value, or anything else whose `new Date(...)` is an Invalid Date. */
  datatype DateInput = Missing | Text(s: string) | Timestamp(ms: int) | Unparseable

  /** JavaScript falsiness of the input: a missing value, "", and the number 0. */
  predicate Falsy(v: DateInput) {
    v.Missing? || v == Text("") || v == Timestamp(0)
  }

  lemma KeyInRange(s: string)
    requires IsDateKey(s)
    ensures DateUtc(YearField(s), MonthField(s) - 1, DayField(s)).Some?
  {
    var y, m, d := YearField(s), MonthField(s) - 1, DayField(s);
    assert y < 10000 && -1 <= m < 99 && d < 100;
    var ym := FullYear(y) + m / 12;
    assert 99 <= ym <= 10007;
    assert -700000 <= DayFromYear(ym) <= 3000000;
  }

  /** `parseDateOnlyUTC(value)`; `now` is `Date.now()`. */
  function ParseDateOnlyUtc(v: DateInput, now: Time): (r: Result<Time>)
    ensures r.Err? ==> r.status == 400
  {
    if Falsy(v) then Ok(StartOfDayUtc(now))
    else match v
      case Text(s) =>
        if !IsDateKey(s) then Err(400, "Invalid date format. Use YYYY-MM-DD")
        else
          KeyInRange(s);
          Ok(DateUtc(YearField(s), MonthField(s) - 1, DayField(s)).value)
      case Timestamp(ms) =>
        if ms < -MaxTime || MaxTime < ms then Err(400, "Invalid date") else Ok(StartOfDayUtc(ms))
      case _ => Err(400, "Invalid date")
  }

  /** Every date the parser accepts is a UTC midnight. */
  lemma ParsedIsMidnight(v: DateInput, now: Time)
    ensures ParseDateOnlyUtc(v, now).Ok? ==> ParseDateOnlyUtc(v, now).value % 86_400_000 == 0
  {
    if !Falsy(v) && v.Text? && IsDateKey(v.s) {
      KeyInRange(v.s);
    }
  }

  /** A string that is not exactly four digits, dash, two digits, dash, two digits is refused. */
  lemma ParseRejectsMalformed(s: string, now: Time)
    requires s != "" && !IsDateKey(s)
    ensures ParseDateOnlyUtc(Text(s), now) == Err(400, "Invalid date format. Use YYYY-MM-DD")
  {
  }

  /** The value of a two-digit string. */
  lemma TwoDigits(a: string)
    requires |a| == 2 && AllDigits(a)
    ensures DigitsValue(a) == 10 * DigitValue(a[0]) + DigitValue(a[1])
  {
    var p1 := a[..1];
    assert AllDigits(p1) && p1[..0] == [] && p1[0] == a[0];
    assert DigitsValue(a) == DigitsValue(p1) * 10 + DigitValue(a[1]);
  }

  /** The value of a four-digit string. */
  lemma FourDigits(a: string)
    requires |a| == 4 && AllDigits(a)
    ensures DigitsValue(a) == 1000 * DigitValue(a[0]) + 100 * DigitValue(a[1]) + 10 * DigitValue(a[2]) + DigitValue(a[3])
  {
    var p3, p2, p1 := a[..3], a[..2], a[..1];
    assert AllDigits(p3) && AllDigits(p2) && AllDigits(p1);
    assert p3[..2] == p2 && p2[..1] == p1 && p1[..0] == [];
    assert DigitsValue(a) == DigitsValue(p3) * 10 + DigitValue(a[3]);
    assert DigitsValue(p3) == DigitsValue(p2) * 10 + DigitValue(a[2]);
    assert DigitsValue(p2) == DigitsValue(p1) * 10 + DigitValue(a[1]);
    assert DigitsValue(p1) == DigitValue(a[0]);
  }

  /** The values of the three fields of a day key, digit by digit. */
  lemma FieldValues(s: string)
    requires IsDateKey(s)
    ensures YearField(s) == 1000 * DigitValue(s[0]) + 100 * DigitValue(s[1]) + 10 * DigitValue(s[2]) + DigitValue(s[3])
    ensures MonthField(s) == 10 * DigitValue(s[5]) + DigitValue(s[6])
    ensures DayField(s) == 10 * DigitValue(s[8]) + DigitValue(s[9])
  {
    var y, mo, d := s[..4], s[5..7], s[8..];
    FourDigits(y);
    TwoDigits(mo);
    TwoDigits(d);
    assert y[0] == s[0] && y[1] == s[1] && y[2] == s[2] && y[3] == s[3];
    assert mo[0] == s[5] && mo[1] == s[6] && d[0] == s[8] && d[1] == s[9];
  }

  /** The day key of a string matching the pattern: Date.UTC of its fields, month made 0-based. */
  lemma ParseKey(s: string, now: Time)
    requires IsDateKey(s)
    ensures ParseDateOnlyUtc(Text(s), now)
            == Ok(MakeDay(FullYear(YearField(s)), MonthField(s) - 1, DayField(s)) * 86_400_000)
  {
    KeyInRange(s);
  }

  lemma Key20240230()
    ensures IsDateKey("2024-02-30")
    ensures YearField("2024-02-30") == 2024 && MonthField("2024-02-30") == 2 && DayField("2024-02-30") == 30
  {
    assert IsDateKey("2024-02-30");
    FieldValues("2024-02-30");
  }

  lemma Key20240301()
    ensures IsDateKey("2024-03-01")
    ensures YearField("2024-03-01") == 2024 && MonthField("2024-03-01") == 3 && DayField("2024-03-01") == 1
  {
    assert IsDateKey("2024-03-01");
    FieldValues("2024-03-01");
  }

  lemma Key00240715()
    ensures IsDateKey("0024-07-15")
    ensures YearField("0024-07-15") == 24 && MonthField("0024-07-15") == 7 && DayField("0024-07-15") == 15
  {
    assert IsDateKey("0024-07-15");
    FieldValues("0024-07-15");
  }

  lemma Key19240715()
    ensures IsDateKey("1924-07-15")
    ensures YearField("1924-07-15") == 1924 && MonthField("1924-07-15") == 7 && DayField("1924-07-15") == 15
  {
    assert IsDateKey("1924-07-15");
    FieldValues("1924-07-15");
  }

  /** A day key's month and day are passed to Date.UTC unchecked: 2024-02-30 is 1 March 2024. */
  lemma ParseRollsOver(now: Time)
    ensures ParseDateOnlyUtc(Text("2024-02-30"), now) == ParseDateOnlyUtc(Text("2024-03-01"), now)
  {
    Key20240230();
    Key20240301();
    ParseKey("2024-02-30", now);
    ParseKey("2024-03-01", now);
    DateCarry(2024, 1, 1);
  }

  /** Four-digit years 0000..0099 are read as 1900..1999. */
  lemma ParseTwoDigitYear(now: Time)
    ensures ParseDateOnlyUtc(Text("0024-07-15"), now) == ParseDateOnlyUtc(Text("1924-07-15"), now)
  {
    Key00240715();
    Key19240715();
    ParseKey("0024-07-15", now);
    ParseKey("1924-07-15", now);
  }

  /** The day key of a well-formed calendar date. */
  lemma ParseCalendarDate(s: string, now: Time)
    requires IsDateKey(s)
    requires 1 <= MonthField(s) <= 12
    requires 1 <= DayField(s) <= DaysInMonth(FullYear(YearField(s)), MonthField(s) - 1)
    ensures ParseDateOnlyUtc(Text(s), now)
            == Ok(MakeDay(FullYear(YearField(s)), MonthField(s) - 1, DayField(s)) * 86_400_000)
    ensures !(0 <= YearOfDay(MakeDay(FullYear(YearField(s)), MonthField(s) - 1, DayField(s))) <= 99)
  {
    var y, m, d := FullYear(YearField(s)), MonthField(s) - 1, DayField(s);
    ParseKey(s, now);
    CivilOfMakeDay(y, m, d);
  }

  /** A key for a real calendar date and any non-zero time within that UTC day resolve to
      the same day key. (The number 0 is falsy and means "today" instead.) */
  lemma SameDaySameKey(s: string, ms: Time, now: Time)
    requires IsDateKey(s)
    requires 1 <= MonthField(s) <= 12
    requires 1 <= DayField(s) <= DaysInMonth(FullYear(YearField(s)), MonthField(s) - 1)
    requires var n := MakeDay(FullYear(YearField(s)), MonthField(s) - 1, DayField(s));
             n * 86_400_000 <= ms < n * 86_400_000 + 86_400_000 && ms != 0
    ensures ParseDateOnlyUtc(Timestamp(ms), now) == ParseDateOnlyUtc(Text(s), now)
  {
    var n := MakeDay(FullYear(YearField(s)), MonthField(s) - 1, DayField(s));
    ParseCalendarDate(s, now);
    TimestampKey(ms, n, now);
  }

  /** A non-zero time within day n, a day of a year past 99, parses to that day's midnight. */
  lemma TimestampKey(ms: Time, n: int, now: Time)
    requires n * 86_400_000 <= ms < n * 86_400_000 + 86_400_000 && ms != 0
    requires !(0 <= YearOfDay(n) <= 99)
    ensures ParseDateOnlyUtc(Timestamp(ms), now) == Ok(n * 86_400_000)
  {
    StartOfDayWithin(ms, n);
    ParseTimestamp(ms, now);
  }

  /** A non-zero time value parses to the start of its day. */
  lemma ParseTimestamp(ms: Time, now: Time)
    requires ms != 0
    ensures ParseDateOnlyUtc(Timestamp(ms), now) == Ok(StartOfDayUtc(ms))
  {
  }

  /** Within day n of a year past 99, startOfDayUTC is the midnight starting day n. */
  lemma StartOfDayWithin(t: Time, n: int)
    requires n * 86_400_000 <= t < n * 86_400_000 + 86_400_000
    requires !(0 <= YearOfDay(n) <= 99)
    ensures StartOfDayUtc(t) == n * 86_400_000
  {
    DayOfTime(t, n);
    assert StartDay(n) == n;
  }

  lemma DayOfTime(t: int, n: int)
    requires n * 86_400_000 <= t < n * 86_400_000 + 86_400_000
    ensures t / 86_400_000 == n
  {
  }

  /** `d.setUTCDate(v)`: MakeDay with the same year and month and the date v, which may carry
      into other months and years; the time within the day is kept. None is an Invalid Date. */
  function SetUtcDate(t: Time, v: int): Option<Time> {
    var n := t / 86_400_000;
    var r := MakeDay(YearOfDay(n), MonthOfDay(n), v) * 86_400_000 + t % 86_400_000;
    if -MaxTime <= r <= MaxTime then Some(r) else None
  }

  /** `d.setUTCDate(d.getUTCDate() + k)`. */
  function AddUtcDays(t: Time, k: int): Option<Time> {
    SetUtcDate(t, DateOfDay(t / 86_400_000) + k)
  }

  lemma MakeDayDateShift(y: int, m: int, d: int, k: int)
    ensures MakeDay(y, m, d + k) == MakeDay(y, m, d) + k
  {
  }

  /** Moving the date field by k moves the day number by exactly k. */
  lemma MovedDay(n: int, k: int)
    ensures MakeDay(YearOfDay(n), MonthOfDay(n), DateOfDay(n) + k) == n + k
  {
    CivilRoundTrip(n);
    MakeDayDateShift(YearOfDay(n), MonthOfDay(n), DateOfDay(n), k);
  }

  /** Moving the date by k days moves the time value by k whole days. */
  lemma AddUtcDaysShifts(t: Time, k: int)
    ensures AddUtcDays(t, k) == (if -MaxTime <= t + k * 86_400_000 <= MaxTime then Some(t + k * 86_400_000) else None)
  {
    var n := t / 86_400_000;
    var md := MakeDay(YearOfDay(n), MonthOfDay(n), DateOfDay(n) + k);
    var r := md * 86_400_000 + t % 86_400_000;
    assert AddUtcDays(t, k) == if -MaxTime <= r <= MaxTime then Some(r) else None;
    MovedDay(n, k);
    DayShift(t, k);
    assert r == t + k * 86_400_000;
  }

  /** Moving the day number of `t` by k keeps its time of day. */
  lemma DayShift(t: int, k: int)
    ensures (t / 86_400_000 + k) * 86_400_000 + t % 86_400_000 == t + k * 86_400_000
  {
    var n := t / 86_400_000;
    assert n * 86_400_000 + t % 86_400_000 == t;
    assert (n + k) * 86_400_000 == n * 86_400_000 + k * 86_400_000;
  }
}
