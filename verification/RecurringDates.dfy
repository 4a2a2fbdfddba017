/** Which dates a recurring event falls on (`getOccurrences` in src/calendar-events.ts), told by the calendar:
    week days, month days, months and steps, with the window, UNTIL and COUNT written out. */
module RecurringDates {
  import opened Recurrence
  import opened UtcDate
  import opened Wrappers

  const DAY: int := 86_400_000

  // ---------- the filters ----------

  /** The rule lists the day that `x` falls on; day 0 was a Thursday. */
  predicate OnListedDay(r: Rule, x: int) {
    var date := DateOfDay(x / DAY);
    && (r.freq == Weekly && r.byDay.Some? ==> (x / DAY + 4) % 7 in r.byDay.value)
    && (r.byMonthDay.Some? ==> date.day in r.byMonthDay.value)
    && (r.byMonth.Some? ==> date.month + 1 in r.byMonth.value)
  }

  lemma MatchesIffListed(r: Rule, x: int)
    ensures Matches(r, x) <==> OnListedDay(r, x)
  {
  }

  /** The number of the first `i` candidates that fall on listed days. */
  function ListedBefore(s: Series, i: nat): nat
    requires s.rule.Some?
  {
    if i == 0 then 0
    else ListedBefore(s, i - 1) + if OnListedDay(s.rule.value, Candidate(s, i - 1)) then 1 else 0
  }

  lemma {:induction false} RankIsListed(s: Series, i: nat)
    requires s.rule.Some?
    ensures Rank(s, i) == ListedBefore(s, i)
  {
    hide Matches, OnListedDay, Candidate;
    if i > 0 {
      RankIsListed(s, i - 1);
      MatchesIffListed(s.rule.value, Candidate(s, i - 1));
    }
  }

  /** The event that starts at `x` overlaps the window, UNTIL has not passed, and fewer than COUNT came before. */
  predicate Shown(s: Series, from: int, to: int, x: int, before: nat)
    requires s.rule.Some?
  {
    var r := s.rule.value;
    && x + (s.dtend - s.dtstart) > from && x < to
    && (r.until.Some? && r.until.value != 0 ==> x <= r.until.value)
    && (r.count.Some? && r.count.value != 0 ==> before < r.count.value)
  }

  lemma SelectsIff(s: Series, from: int, to: int, i: nat)
    requires s.rule.Some?
    ensures Selects(s, from, to, i)
       <==> OnListedDay(s.rule.value, Candidate(s, i)) && Shown(s, from, to, Candidate(s, i), ListedBefore(s, i))
  {
    hide Matches, OnListedDay, Candidate, Rank, ListedBefore;
    MatchesIffListed(s.rule.value, Candidate(s, i));
    RankIsListed(s, i);
  }

  /** The `i`-th candidate is `x`, is on a listed day, and is shown. */
  predicate ListedAt(s: Series, from: int, to: int, i: nat, x: int)
    requires s.rule.Some?
  {
    Candidate(s, i) == x && OnListedDay(s.rule.value, x) && Shown(s, from, to, x, ListedBefore(s, i))
  }

  /** For every rule: exactly which times an unlimited expansion contains, filters and bounds written out. */
  lemma SelectedIffListed(s: Series, from: int, to: int, x: int)
    requires s.rule.Some?
    ensures x in Selected(s, from, to, 0) <==> exists i: nat | i < 1000 :: ListedAt(s, from, to, i, x)
  {
    hide Selects, Candidate, OnListedDay, Shown, ListedBefore;
    SelectedMembers(s, from, to, 0, x);
    forall i: nat
      ensures Selects(s, from, to, i) && Candidate(s, i) == x <==> ListedAt(s, from, to, i, x)
    {
      SelectsIff(s, from, to, i);
    }
  }

  // ---------- daily and weekly rules ----------

  /** Whole days go by from one candidate to the next. */
  function DayStep(r: Rule): int {
    if r.freq == Weekly then if r.byDay.Some? then DAY else 7 * DAY * r.interval
    else DAY * r.interval
  }

  /** The candidates of a daily or weekly rule are equally spaced, whatever its filters. */
  lemma {:induction false} DaysApart(s: Series, i: nat)
    requires s.rule.Some? && s.rule.value.freq in {Daily, Weekly}
    ensures Candidate(s, i) == s.dtstart + i * DayStep(s.rule.value)
  {
    if i > 0 {
      DaysApart(s, i - 1);
      assert i * DayStep(s.rule.value) == (i - 1) * DayStep(s.rule.value) + DayStep(s.rule.value);
    }
  }

  /** The number of listed days among the first `i` points from `start` on, `step` apart. */
  function ListedPoints(r: Rule, start: int, step: int, i: nat): nat {
    if i == 0 then 0
    else ListedPoints(r, start, step, i - 1) + if OnListedDay(r, start + (i - 1) * step) then 1 else 0
  }

  lemma {:induction false} ListedBeforeIsPoints(s: Series, i: nat)
    requires s.rule.Some? && s.rule.value.freq in {Daily, Weekly}
    ensures ListedBefore(s, i) == ListedPoints(s.rule.value, s.dtstart, DayStep(s.rule.value), i)
  {
    hide OnListedDay, DayStep, Candidate;
    if i > 0 {
      ListedBeforeIsPoints(s, i - 1);
      DaysApart(s, i - 1);
    }
  }

  /** A daily or weekly rule gives `x` as the `i`-th point from the start on. */
  predicate PointListed(s: Series, from: int, to: int, i: nat, x: int)
    requires s.rule.Some?
  {
    var r := s.rule.value;
    && x == s.dtstart + i * DayStep(r) && OnListedDay(r, x)
    && Shown(s, from, to, x, ListedPoints(r, s.dtstart, DayStep(r), i))
  }

  /** Exactly which times a daily or weekly rule gives: points some whole days apart, those on listed days. */
  lemma DailyAndWeeklyOccurrences(s: Series, from: int, to: int, x: int)
    requires s.rule.Some? && s.rule.value.freq in {Daily, Weekly}
    ensures x in Selected(s, from, to, 0) <==> exists i: nat | i < 1000 :: PointListed(s, from, to, i, x)
  {
    hide Candidate, OnListedDay, Shown, ListedBefore, ListedPoints, DayStep, Selected;
    SelectedIffListed(s, from, to, x);
    forall i: nat
      ensures ListedAt(s, from, to, i, x) <==> PointListed(s, from, to, i, x)
    {
      DaysApart(s, i);
      ListedBeforeIsPoints(s, i);
    }
  }

  /** A day with the number of a week day that the rule lists: the start, `i` days on. */
  predicate WeekDayListed(s: Series, days: set<int>, i: nat, x: int) {
    x == s.dtstart + i * 86_400_000 && (x / 86_400_000 + 4) % 7 in days
  }

  /** A weekly rule with week days and nothing else gives exactly those days, whatever its interval. */
  lemma WeekDaysOccur(s: Series, days: set<int>, from: int, to: int, x: int)
    requires s.rule.Some? && s.rule.value == Rule(Weekly, s.rule.value.interval, Some(days), None, None, None, None)
    ensures x in Selected(s, from, to, 0)
       <==> (exists i: nat | i < 1000 :: WeekDayListed(s, days, i, x)) && x + (s.dtend - s.dtstart) > from && x < to
  {
    hide ListedPoints, Selected;
    DailyAndWeeklyOccurrences(s, from, to, x);
    forall i: nat
      ensures PointListed(s, from, to, i, x)
         <==> WeekDayListed(s, days, i, x) && x + (s.dtend - s.dtstart) > from && x < to
    {
    }
  }

  // ---------- monthly and yearly rules ----------

  /** A monthly step goes to the same day of a later month, and on into the next one if that day is missing. */
  lemma MonthlyStep(s: Series, i: nat)
    requires s.rule.Some? && s.rule.value.freq == Monthly
    ensures var k, d := s.rule.value.interval, DateOfDay(Candidate(s, i) / DAY);
            DateOfDay(Candidate(s, i + 1) / DAY) == Overflowed(d.year + (d.month + k) / 12, (d.month + k) % 12, d.day)
    ensures Candidate(s, i + 1) % DAY == Candidate(s, i) % DAY
  {
    hide DateOfDay, Overflowed, AddMonths;
    AddMonthsLands(Candidate(s, i), s.rule.value.interval);
  }

  /** A yearly step goes to the same date of a later year; only 29 February can be missing there. */
  lemma YearlyStep(s: Series, i: nat)
    requires s.rule.Some? && s.rule.value.freq == Yearly
    ensures var d := DateOfDay(Candidate(s, i) / DAY);
            DateOfDay(Candidate(s, i + 1) / DAY) == Overflowed(d.year + s.rule.value.interval, d.month, d.day)
    ensures Candidate(s, i + 1) % DAY == Candidate(s, i) % DAY
  {
    hide DateOfDay, Overflowed, AddMonths;
    var k, d := s.rule.value.interval, DateOfDay(Candidate(s, i) / DAY);
    assert (d.month + 12 * k) / 12 == k && (d.month + 12 * k) % 12 == d.month;
    AddMonthsLands(Candidate(s, i), 12 * k);
  }

  lemma MonthsOn(m: int, k: int)
    ensures m / 12 + (m % 12 + k) / 12 == (m + k) / 12 && (m % 12 + k) % 12 == (m + k) % 12
  {
  }

  /** The time is on the given day of the `n`-th month counted from year 0. */
  predicate OnMonthDay(t: int, n: int, day: int) {
    DateOfDay(t / DAY) == Date(n / 12, n % 12, day)
  }

  lemma SameDayStep(t: int, k: int, n: int, day: int)
    requires OnMonthDay(t, n, day) && day <= 28
    ensures OnMonthDay(AddMonths(t, k), n + k, day) && AddMonths(t, k) % DAY == t % DAY
  {
    hide DateOfDay, AddMonths;
    MonthsOn(n, k);
    AddMonthsLands(t, k);
  }

  function MonthStep(r: Rule): int {
    if r.freq == Yearly then 12 * r.interval else r.interval
  }

  lemma AdvancesByMonths(r: Rule, t: int)
    requires r.freq in {Monthly, Yearly}
    ensures Advance(r, t) == AddMonths(t, MonthStep(r))
  {
  }

  /** The months gone by after `i` steps. */
  function MonthsOfSteps(r: Rule, i: nat): int {
    i * MonthStep(r)
  }

  lemma OneStepMore(r: Rule, i: nat)
    ensures MonthsOfSteps(r, 0) == 0 && MonthsOfSteps(r, i + 1) == MonthsOfSteps(r, i) + MonthStep(r)
  {
  }

  /** A monthly or yearly rule that starts on one of the first 28 days of a month stays on that day and time. */
  lemma {:induction false} SameDayOfMonth(s: Series, n: int, day: int, i: nat)
    requires s.rule.Some? && s.rule.value.freq in {Monthly, Yearly} && OnMonthDay(s.dtstart, n, day) && day <= 28
    ensures OnMonthDay(Candidate(s, i), n + MonthsOfSteps(s.rule.value, i), day)
    ensures Candidate(s, i) % DAY == s.dtstart % DAY
  {
    hide Advance, AddMonths, MonthsOfSteps, MonthStep, OnMonthDay;
    if i == 0 {
      OneStepMore(s.rule.value, 0);
    } else {
      SameDayOfMonth(s, n, day, i - 1);
      OneStepMore(s.rule.value, i - 1);
      AdvancesByMonths(s.rule.value, Candidate(s, i - 1));
      SameDayStep(Candidate(s, i - 1), MonthStep(s.rule.value), n + MonthsOfSteps(s.rule.value, i - 1), day);
    }
  }
}
