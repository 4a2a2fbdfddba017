/** The proleptic Gregorian calendar of ECMAScript's `Date`: UTC fields of a time value
    in milliseconds, and `Date.UTC`, which normalises fields that are out of range. */
module UtcDate {

  const MS_PER_DAY: int := 86_400_000

  /** `month` counts from 0 and `date` from 1. */
  datatype Fields = Fields(year: int, month: int, date: int, hour: int, minute: int, second: int)

  predicate IsLeap(y: int) {
    y % 4 == 0 && (y % 100 != 0 || y % 400 == 0)
  }

  function YearDays(y: int): int {
    if IsLeap(y) then 366 else 365
  }

  /** Days from 1 January 1970 to 1 January of year `y`. */
  function DaysBeforeYear(y: int): int
    decreases if y >= 1970 then y - 1970 else 1970 - y
  {
    if y == 1970 then 0
    else if y > 1970 then DaysBeforeYear(y - 1) + YearDays(y - 1)
    else DaysBeforeYear(y + 1) - YearDays(y)
  }

  /** The closed form of the ECMAScript standard (section "Year Number"). */
  function DayFromYear(y: int): int {
    365 * (y - 1970) + (y - 1969) / 4 - (y - 1901) / 100 + (y - 1601) / 400
  }

  lemma QuotientStep4(x: int)
    ensures (x + 1) / 4 - x / 4 == if (x + 1) % 4 == 0 then 1 else 0
  {
  }

  lemma QuotientStep100(x: int)
    ensures (x + 1) / 100 - x / 100 == if (x + 1) % 100 == 0 then 1 else 0
  {
  }

  lemma QuotientStep400(x: int)
    ensures (x + 1) / 400 - x / 400 == if (x + 1) % 400 == 0 then 1 else 0
  {
  }

  lemma Hundreds(y: int)
    ensures (y - 1900) % 100 == y % 100 && (y - 1968) % 4 == y % 4
    ensures y % 100 == 0 ==> y % 4 == 0
  {
  }

  lemma FourHundreds(y: int)
    ensures (y - 1600) % 400 == y % 400
    ensures y % 400 == 0 ==> y % 100 == 0
  {
  }

  lemma ClosedFormStep(y: int)
    ensures DayFromYear(y + 1) - DayFromYear(y) == YearDays(y)
  {
    QuotientStep4(y - 1969);
    QuotientStep100(y - 1901);
    QuotientStep400(y - 1601);
    Hundreds(y);
    FourHundreds(y);
  }

  /** Counting year by year agrees with the closed form. */
  lemma {:induction false} DaysBeforeYearClosedForm(y: int)
    ensures DaysBeforeYear(y) == DayFromYear(y)
    decreases if y >= 1970 then y - 1970 else 1970 - y
  {
    if y > 1970 {
      DaysBeforeYearClosedForm(y - 1);
      ClosedFormStep(y - 1);
    } else if y < 1970 {
      DaysBeforeYearClosedForm(y + 1);
      ClosedFormStep(y);
    }
  }

  lemma YearLength(y: int)
    ensures DaysBeforeYear(y + 1) - DaysBeforeYear(y) == YearDays(y)
  {
  }

  /** Days from 1 January to the first of month `m`. */
  function DaysBeforeMonth(m: int, leap: bool): int
    requires 0 <= m <= 12
  {
    var feb := if leap then 29 else 28;
    if m == 0 then 0
    else if m == 1 then 31
    else if m == 2 then 31 + feb
    else if m == 3 then 62 + feb
    else if m == 4 then 92 + feb
    else if m == 5 then 123 + feb
    else if m == 6 then 153 + feb
    else if m == 7 then 184 + feb
    else if m == 8 then 215 + feb
    else if m == 9 then 245 + feb
    else if m == 10 then 276 + feb
    else if m == 11 then 306 + feb
    else 337 + feb
  }

  /** The year that holds `day`, searched from the guess `y`. */
  function SearchYear(day: int, y: int): (r: int)
    ensures DaysBeforeYear(r) <= day < DaysBeforeYear(r + 1)
    decreases if DaysBeforeYear(y) > day then 1 else 0,
              if DaysBeforeYear(y) > day then DaysBeforeYear(y) - day else day - DaysBeforeYear(y)
  {
    YearLength(y);
    YearLength(y - 1);
    if DaysBeforeYear(y) > day then SearchYear(day, y - 1)
    else if DaysBeforeYear(y + 1) <= day then SearchYear(day, y + 1)
    else y
  }

  function YearOfDay(day: int): (y: int)
    ensures DaysBeforeYear(y) <= day < DaysBeforeYear(y + 1)
  {
    SearchYear(day, 1970 + day / 366)
  }

  /** The month of the day with index `d` in a year. */
  function MonthOfYearDay(d: int, leap: bool, m: int): (r: int)
    requires 0 <= m <= 11 && DaysBeforeMonth(m, leap) <= d < DaysBeforeMonth(12, leap)
    ensures m <= r <= 11 && DaysBeforeMonth(r, leap) <= d < DaysBeforeMonth(r + 1, leap)
    decreases 12 - m
  {
    if d < DaysBeforeMonth(m + 1, leap) then m else MonthOfYearDay(d, leap, m + 1)
  }

  /** The calendar date of a day number. */
  datatype Date = Date(year: int, month: int, day: int)

  function DateOfDay(day: int): (d: Date)
    ensures 0 <= d.month <= 11 && 1 <= d.day <= DaysInMonth(d.year, d.month)
    ensures MakeDay(d.year, d.month, d.day) == day
  {
    var y := YearOfDay(day);
    YearLength(y);
    var yearDay := day - DaysBeforeYear(y);
    var m := MonthOfYearDay(yearDay, IsLeap(y), 0);
    assert m / 12 == 0 && m % 12 == m;
    Date(y, m, yearDay - DaysBeforeMonth(m, IsLeap(y)) + 1)
  }

  function DaysInMonth(y: int, m: int): int
    requires 0 <= m <= 11
  {
    DaysBeforeMonth(m + 1, IsLeap(y)) - DaysBeforeMonth(m, IsLeap(y))
  }

  function FieldsOf(t: int): Fields {
    var d := DateOfDay(t / MS_PER_DAY);
    var inDay := t % MS_PER_DAY;
    Fields(d.year, d.month, d.day, inDay / 3_600_000, inDay / 60_000 % 60, inDay / 1000 % 60)
  }

  /** The day number of a date whose month and day of month may be out of range. */
  function MakeDay(year: int, month: int, date: int): int {
    var y := year + month / 12;
    DaysBeforeYear(y) + DaysBeforeMonth(month % 12, IsLeap(y)) + date - 1
  }

  function TimeOf(hour: int, minute: int, second: int): int {
    hour * 3_600_000 + minute * 60_000 + second * 1000
  }

  /** `Date.UTC`, in which the years 0 to 99 mean 1900 to 1999. */
  function Utc(f: Fields): int {
    var year := if 0 <= f.year <= 99 then 1900 + f.year else f.year;
    MakeDay(year, f.month, f.date) * MS_PER_DAY + TimeOf(f.hour, f.minute, f.second)
  }

  lemma TimeInDay(inDay: int)
    requires 0 <= inDay < MS_PER_DAY
    ensures 0 <= inDay / 3_600_000 <= 23
    ensures TimeOf(inDay / 3_600_000, inDay / 60_000 % 60, inDay / 1000 % 60) == inDay - inDay % 1000
  {
    assert inDay / 1000 / 60 == inDay / 60_000;
    assert inDay / 60_000 / 60 == inDay / 3_600_000;
  }

  lemma DayAndRest(t: int)
    ensures t == t / MS_PER_DAY * MS_PER_DAY + t % MS_PER_DAY
    ensures t % MS_PER_DAY % 1000 == t % 1000
  {
    assert MS_PER_DAY == 86_400 * 1000;
  }

  /** Moving the first of a month `k` months on, `setUTCMonth` and (with multiples of 12)
      `setUTCFullYear` keep the day of month and the time of day, with overflow. */
  function AddMonths(t: int, k: int): int {
    var f := FieldsOf(t);
    MakeDay(f.year, f.month + k, f.date) * MS_PER_DAY + t % MS_PER_DAY
  }

  /** The first day of the `n`-th month counted from year 0. */
  function MonthDay(n: int): int {
    MakeDay(0, n, 1)
  }

  /** Only the month index counted from year 0 matters for a day number. */
  lemma MakeDayByIndex(year: int, month: int, date: int)
    ensures MakeDay(year, month, date) == MonthDay(12 * year + month) + date - 1
  {
    assert (12 * year + month) / 12 == year + month / 12;
    assert (12 * year + month) % 12 == month % 12;
  }

  lemma MonthDayStep(n: int)
    ensures MonthDay(n) < MonthDay(n + 1)
  {
    var y := n / 12;
    YearLength(y);
    if n % 12 == 11 {
      assert (n + 1) / 12 == y + 1 && (n + 1) % 12 == 0;
    } else {
      assert (n + 1) / 12 == y && (n + 1) % 12 == n % 12 + 1;
    }
  }

  lemma {:induction false} MonthDayIncreasing(n: int, m: int)
    requires n < m
    ensures MonthDay(n) < MonthDay(m)
    decreases m - n
  {
    MonthDayStep(n);
    if n + 1 < m {
      MonthDayIncreasing(n + 1, m);
    }
  }

  /** Advancing by at least one month is strictly increasing, whatever overflows. */
  lemma AddMonthsIncreases(t: int, k: int)
    requires k >= 1
    ensures AddMonths(t, k) > t
  {
    hide MonthDay, MakeDay;
    var d := DateOfDay(t / MS_PER_DAY);
    var n := 12 * d.year + d.month;
    MonthDayIncreasing(n, n + k);
    MakeDayByIndex(d.year, d.month, d.day);
    MakeDayByIndex(d.year, d.month + k, d.day);
    DayAndRest(t);
  }

  /** Moving back decreases a time, whatever overflows, and moving by no month keeps it. */
  lemma AddMonthsBack(t: int, k: int)
    requires k <= 0
    ensures if k < 0 then AddMonths(t, k) < t else AddMonths(t, k) == t
  {
    hide MonthDay, MakeDay;
    var d := DateOfDay(t / MS_PER_DAY);
    var n := 12 * d.year + d.month;
    if k < 0 {
      MonthDayIncreasing(n + k, n);
    }
    MakeDayByIndex(d.year, d.month, d.day);
    MakeDayByIndex(d.year, d.month + k, d.day);
    DayAndRest(t);
  }

  /** The UTC fields determine the time down to the second, except that `Date.UTC` takes the years 0 to 99 for 1900
      to 1999. */
  lemma UtcOfFields(t: int)
    ensures Utc(FieldsOf(t)) == t - t % 1000 <==> !(0 <= FieldsOf(t).year <= 99)
  {
    hide MonthDay, MakeDay;
    TimeInDay(t % MS_PER_DAY);
    DayAndRest(t);
    var d := DateOfDay(t / MS_PER_DAY);
    var n := 12 * d.year + d.month;
    MakeDayByIndex(d.year, d.month, d.day);
    if 0 <= d.year <= 99 {
      MakeDayByIndex(1900 + d.year, d.month, d.day);
      MonthDayIncreasing(n, 12 * 1900 + n);
    }
  }

  // ---------- the calendar, told without tables ----------

  /** The months have the lengths of the Gregorian calendar. */
  lemma MonthLengths(y: int)
    ensures DaysInMonth(y, 0) == 31
    ensures DaysInMonth(y, 1) == if y % 4 == 0 && (y % 100 != 0 || y % 400 == 0) then 29 else 28
    ensures DaysInMonth(y, 2) == 31 && DaysInMonth(y, 3) == 30 && DaysInMonth(y, 4) == 31
    ensures DaysInMonth(y, 5) == 30 && DaysInMonth(y, 6) == 31 && DaysInMonth(y, 7) == 31
    ensures DaysInMonth(y, 8) == 30 && DaysInMonth(y, 9) == 31 && DaysInMonth(y, 10) == 30
    ensures DaysInMonth(y, 11) == 31
  {
  }

  /** The number of days in a month, by itself. */
  function MonthSize(y: int, m: int): int {
    if m == 1 then if y % 4 == 0 && (y % 100 != 0 || y % 400 == 0) then 29 else 28
    else if m in {3, 5, 8, 10} then 30
    else 31
  }

  lemma MonthSizes(y: int, m: int)
    requires 0 <= m <= 11
    ensures DaysInMonth(y, m) == MonthSize(y, m)
  {
    hide DaysInMonth;
    MonthLengths(y);
  }

  /** The date is in the calendar. */
  predicate ValidDate(d: Date) {
    0 <= d.month <= 11 && 1 <= d.day <= MonthSize(d.year, d.month)
  }

  /** A day has one date. */
  /** Two months that share a day are one. */
  lemma OneMonth(n: int, m: int, day: int)
    requires MonthDay(n) <= day < MonthDay(n + 1) && MonthDay(m) <= day < MonthDay(m + 1)
    ensures n == m
  {
    hide MonthDay;
    if n + 1 < m {
      MonthDayIncreasing(n + 1, m);
    } else if m + 1 < n {
      MonthDayIncreasing(m + 1, n);
    }
  }

  lemma DateOfMadeDay(d: Date)
    requires ValidDate(d)
    ensures DateOfDay(MakeDay(d.year, d.month, d.day)) == d
  {
    hide MonthDay, MakeDay, DaysInMonth, DateOfDay;
    var day := MakeDay(d.year, d.month, d.day);
    var e := DateOfDay(day);
    MakeDayByIndex(d.year, d.month, d.day);
    MonthSizes(d.year, d.month);
    NextMonthByIndex(d.year, d.month);
    DateInMonth(day);
    OneMonth(12 * d.year + d.month, 12 * e.year + e.month, day);
  }

  lemma DateInMonth(day: int)
    ensures var e := DateOfDay(day);
            0 <= e.month <= 11 && MonthDay(12 * e.year + e.month) + e.day - 1 == day
            && MonthDay(12 * e.year + e.month) <= day < MonthDay(12 * e.year + e.month + 1)
  {
    hide MonthDay, MakeDay, DaysInMonth;
    var e := DateOfDay(day);
    MakeDayByIndex(e.year, e.month, e.day);
    NextMonthByIndex(e.year, e.month);
  }

  lemma DateByIndex(day: int, d: Date)
    requires ValidDate(d) && MonthDay(12 * d.year + d.month) + d.day - 1 == day
    ensures DateOfDay(day) == d
  {
    hide MonthDay, MakeDay, ValidDate;
    MakeDayByIndex(d.year, d.month, d.day);
    DateOfMadeDay(d);
  }

  /** The next date on a calendar. */
  function NextDate(d: Date): Date {
    if d.day < MonthSize(d.year, d.month) then Date(d.year, d.month, d.day + 1)
    else if d.month < 11 then Date(d.year, d.month + 1, 1)
    else Date(d.year + 1, 0, 1)
  }

  lemma EpochDate()
    ensures DateOfDay(0) == Date(1970, 0, 1)
  {
    hide DateOfDay;
    DateOfMadeDay(Date(1970, 0, 1));
  }

  lemma NextDateIsValid(d: Date)
    requires ValidDate(d)
    ensures ValidDate(NextDate(d))
    ensures var e := NextDate(d);
            MonthDay(12 * e.year + e.month) + e.day == MonthDay(12 * d.year + d.month) + d.day + 1
  {
    hide MonthDay, DaysInMonth;
    MonthSizes(d.year, d.month);
    NextMonthByIndex(d.year, d.month);
  }

  /** What fixes the date of every day: day 0 is 1 January 1970, and the dates follow each other as on a calendar. */
  lemma DatesFollow(day: int)
    ensures DateOfDay(0) == Date(1970, 0, 1)
    ensures DateOfDay(day + 1) == NextDate(DateOfDay(day))
  {
    hide MonthDay, MakeDay, DaysInMonth, NextDate, DateOfDay, MonthSize;
    EpochDate();
    var d := DateOfDay(day);
    DayByIndex(day);
    MonthSizes(d.year, d.month);
    NextDateIsValid(d);
    DateByIndex(day + 1, NextDate(d));
  }

  predicate ValidFields(f: Fields) {
    ValidDate(Date(f.year, f.month, f.date)) && 0 <= f.hour <= 23 && 0 <= f.minute <= 59 && 0 <= f.second <= 59
  }

  lemma FieldsOfTime(hour: int, minute: int, second: int, ms: int)
    requires 0 <= hour <= 23 && 0 <= minute <= 59 && 0 <= second <= 59 && 0 <= ms <= 999
    ensures var t := TimeOf(hour, minute, second) + ms;
            0 <= t < MS_PER_DAY
            && t / 3_600_000 == hour && t / 60_000 % 60 == minute && t / 1000 % 60 == second
  {
    var t := TimeOf(hour, minute, second) + ms;
    assert t / 1000 == hour * 3600 + minute * 60 + second;
    assert t / 1000 / 60 == hour * 60 + minute;
    assert t / 60_000 == t / 1000 / 60 && t / 3_600_000 == t / 60_000 / 60;
  }

  /** The fields of a time are those it was made from, in the years that `Date.UTC` does not remap. */
  lemma FieldsOfUtc(f: Fields, ms: int)
    requires ValidFields(f) && !(0 <= f.year <= 99) && 0 <= ms <= 999
    ensures FieldsOf(Utc(f) + ms) == f
  {
    hide MakeDay, DateOfDay, MonthSize, TimeOf;
    var day, rest := MakeDay(f.year, f.month, f.date), TimeOf(f.hour, f.minute, f.second) + ms;
    FieldsOfTime(f.hour, f.minute, f.second, ms);
    DateOfMadeDay(Date(f.year, f.month, f.date));
    DayOfSum(day, rest);
  }

  /** What a time is made of: its day and the hours, minutes, seconds and milliseconds into it. */
  lemma TimeParts(t: int)
    ensures var f, d := FieldsOf(t), DateOfDay(t / 86_400_000);
            f.year == d.year && f.month == d.month && f.date == d.day
            && 0 <= f.hour <= 23 && 0 <= f.minute <= 59 && 0 <= f.second <= 59
            && t == t / 86_400_000 * 86_400_000 + f.hour * 3_600_000 + f.minute * 60_000 + f.second * 1000 + t % 1000
  {
    TimeInDay(t % MS_PER_DAY);
    DayAndRest(t);
    assert t % MS_PER_DAY / 1000 / 60 == t % MS_PER_DAY / 60_000;
  }

  /** Where the day of a month ends up when the month may be too short for it. */
  function Overflowed(y: int, m: int, day: int): Date {
    var last := MonthSize(y, m);
    if day <= last then Date(y, m, day)
    else if m < 11 then Date(y, m + 1, day - last)
    else Date(y + 1, 0, day - last)
  }

  lemma OverflowedIsValid(y: int, m: int, day: int)
    requires 0 <= m <= 11 && 1 <= day <= 31
    ensures var e := Overflowed(y, m, day);
            ValidDate(e) && MonthDay(12 * e.year + e.month) + e.day == MonthDay(12 * y + m) + day
  {
    hide MonthDay, DaysInMonth;
    MonthSizes(y, m);
    NextMonthByIndex(y, m);
  }

  /** A step of `k` months lands on the same day of the month `k` months on, as far as that month has the day, and
      at the same time of day. */
  lemma AddMonthsLands(t: int, k: int)
    ensures var d := DateOfDay(t / MS_PER_DAY);
            DateOfDay(AddMonths(t, k) / MS_PER_DAY)
            == Overflowed(d.year + (d.month + k) / 12, (d.month + k) % 12, d.day)
    ensures AddMonths(t, k) % MS_PER_DAY == t % MS_PER_DAY
  {
    hide MonthDay, MakeDay, DaysInMonth, Overflowed, DateOfDay, MonthSize;
    var d := DateOfDay(t / MS_PER_DAY);
    var y, m := d.year + (d.month + k) / 12, (d.month + k) % 12;
    var day := MakeDay(d.year, d.month + k, d.day);
    DayOfSum(day, t % MS_PER_DAY);
    MakeDayByIndex(d.year, d.month + k, d.day);
    assert 12 * y + m == 12 * d.year + d.month + k;
    NextMonthByIndex(d.year, d.month);
    OverflowedIsValid(y, m, d.day);
    DateByIndex(day, Overflowed(y, m, d.day));
  }

  lemma DayOfSum(day: int, rest: int)
    requires 0 <= rest < MS_PER_DAY
    ensures (day * MS_PER_DAY + rest) / MS_PER_DAY == day && (day * MS_PER_DAY + rest) % MS_PER_DAY == rest
  {
  }

  /** `getUTCDay`: 0 is Sunday. */
  function WeekDay(t: int): (d: int)
    ensures 0 <= d <= 6
  {
    (t / MS_PER_DAY + 4) % 7
  }

  /** What fixes the week day of every time: 1 January 1970 is a Thursday, and the days of the week take turns. */
  lemma WeekDaysTakeTurns(t: int)
    ensures 0 <= t < 86_400_000 ==> WeekDay(t) == 4
    ensures WeekDay(t + 86_400_000) == if WeekDay(t) == 6 then 0 else WeekDay(t) + 1
  {
    assert (t + MS_PER_DAY) / MS_PER_DAY == t / MS_PER_DAY + 1;
  }

  function DayStart(t: int): int {
    t / MS_PER_DAY * MS_PER_DAY
  }

  /** The index, counted from year 0, of the month that holds `t`. */
  function MonthIndex(t: int): int {
    var d := DateOfDay(t / MS_PER_DAY);
    12 * d.year + d.month
  }

  /** Midnight of the first day of the month of `t`. */
  function MonthStart(t: int): int {
    MonthDay(MonthIndex(t)) * MS_PER_DAY
  }

  lemma DayByIndex(day: int)
    ensures var d := DateOfDay(day); MonthDay(12 * d.year + d.month) + d.day - 1 == day
  {
    var d := DateOfDay(day);
    MakeDayByIndex(d.year, d.month, d.day);
  }

  lemma NextMonthByIndex(y: int, m: int)
    requires 0 <= m <= 11
    ensures MonthDay(12 * y + m + 1) == MonthDay(12 * y + m) + DaysInMonth(y, m)
    ensures DaysInMonth(y, m) <= 31
  {
    NextMonth(y, m);
    MakeDayByIndex(y, m, 1);
    MakeDayByIndex(y, m + 1, 1);
  }

  lemma NextMonth(y: int, m: int)
    requires 0 <= m <= 11
    ensures MakeDay(y, m + 1, 1) == MakeDay(y, m, 1) + DaysInMonth(y, m)
    ensures DaysInMonth(y, m) <= 31
  {
    YearLength(y);
    assert m / 12 == 0 && m % 12 == m;
    if m == 11 {
      assert (m + 1) / 12 == 1 && (m + 1) % 12 == 0;
    } else {
      assert (m + 1) / 12 == 0 && (m + 1) % 12 == m + 1;
    }
  }

  lemma MonthHoldsDay(t: int)
    ensures MonthDay(MonthIndex(t)) <= t / MS_PER_DAY < MonthDay(MonthIndex(t) + 1)
    ensures t / MS_PER_DAY < MonthDay(MonthIndex(t)) + 31
  {
    hide MonthDay, MakeDay, DaysInMonth;
    var d := DateOfDay(t / MS_PER_DAY);
    DayByIndex(t / MS_PER_DAY);
    NextMonthByIndex(d.year, d.month);
  }

  /** A month starts at most 31 days before any time in it. */
  lemma MonthStartBounds(t: int)
    ensures MonthStart(t) <= DayStart(t) <= t < MonthStart(t) + 31 * MS_PER_DAY
  {
    hide MonthDay, MonthIndex;
    MonthHoldsDay(t);
    DayAndRest(t);
  }

  lemma MonthStartMonotone(t: int, u: int)
    requires t <= u
    ensures MonthStart(t) <= MonthStart(u)
  {
    hide MonthDay, MonthIndex;
    var n, m := MonthIndex(t), MonthIndex(u);
    MonthHoldsDay(t);
    MonthHoldsDay(u);
    if m < n {
      if m + 1 < n {
        MonthDayIncreasing(m + 1, n);
      }
      DayMonotone(t, u);
      assert false;
    } else if n < m {
      MonthDayIncreasing(n, m);
    }
  }

  lemma DayMonotone(t: int, u: int)
    requires t <= u
    ensures t / MS_PER_DAY <= u / MS_PER_DAY
  {
    DayAndRest(t);
    DayAndRest(u);
  }
}
