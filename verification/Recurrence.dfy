/** Expansion of recurring events (`getOccurrences` in src/calendar-events.ts): a bounded loop
    over the candidate starts of a rule, after section 3.3.10 of RFC 5545. */
module Recurrence {
  import opened UtcDate
  import opened Wrappers

  datatype Freq = Daily | Weekly | Monthly | Yearly

  /** A parsed RRULE: week days count from Sunday as 0, months and month days from 1. */
  datatype Rule = Rule(freq: Freq, interval: int, byDay: Option<set<int>>, byMonthDay: Option<set<int>>,
                       byMonth: Option<set<int>>, count: Option<int>, until: Option<int>)

  /** The fields of an event that decide when it takes place. */
  datatype Series = Series(dtstart: int, dtend: int, rule: Option<Rule>) {
    function Duration(): int { dtend - dtstart }
  }

  const MAX_ITERATIONS: nat := 1000

  function Advance(r: Rule, cursor: int): int {
    match r.freq
    case Daily => cursor + MS_PER_DAY * r.interval
    case Weekly => if r.byDay.Some? then cursor + MS_PER_DAY else cursor + 7 * MS_PER_DAY * r.interval
    case Monthly => AddMonths(cursor, r.interval)
    case Yearly => AddMonths(cursor, 12 * r.interval)
  }

  predicate Matches(r: Rule, cursor: int) {
    var d := DateOfDay(cursor / MS_PER_DAY);
    && (r.byDay.Some? && r.freq == Weekly ==> WeekDay(cursor) in r.byDay.value)
    && (r.byMonthDay.Some? ==> d.day in r.byMonthDay.value)
    && (r.byMonth.Some? ==> d.month + 1 in r.byMonth.value)
  }

  /** An UNTIL of 0 is no limit. */
  predicate PastUntil(r: Rule, cursor: int) {
    r.until.Some? && r.until.value != 0 && cursor > r.until.value
  }

  /** A COUNT of 0 is no limit; `n` is the number of matches before. */
  predicate CountReached(r: Rule, n: int) {
    r.count.Some? && r.count.value != 0 && n >= r.count.value
  }

  /** The occurrence that starts at `start` overlaps the window. */
  predicate InWindow(duration: int, start: int, from: int, to: int) {
    start + duration > from && start < to
  }

  /** No candidate from `cursor` on is looked at; `count` matches came before. */
  predicate Stops(r: Rule, to: int, cursor: int, count: nat) {
    cursor > to || PastUntil(r, cursor) || CountReached(r, count)
  }

  predicate Hits(r: Rule, duration: int, from: int, to: int, cursor: int) {
    Matches(r, cursor) && InWindow(duration, cursor, from, to)
  }

  /** The loop of the expansion, one iteration at a time. */
  function Expand(r: Rule, duration: int, from: int, to: int, max: int,
                  iter: nat, cursor: int, count: nat, found: seq<int>): seq<int>
    decreases MAX_ITERATIONS - iter
  {
    if iter >= MAX_ITERATIONS || Stops(r, to, cursor, count) then found
    else
      var hit := Hits(r, duration, from, to, cursor);
      var found' := if hit then found + [cursor] else found;
      if hit && |found'| >= max then found'
      else Expand(r, duration, from, to, max, iter + 1, Advance(r, cursor),
                  if Matches(r, cursor) then count + 1 else count, found')
  }

  function Occurrences(s: Series, from: int, to: int, max: int): seq<int> {
    if s.rule == None then
      if InWindow(s.Duration(), s.dtstart, from, to) then [s.dtstart] else []
    else Expand(s.rule.value, s.Duration(), from, to, max, 0, s.dtstart, 0, [])
  }

  method GetOccurrences(s: Series, from: int, to: int, max: int) returns (occurrences: seq<int>)
    ensures occurrences == Occurrences(s, from, to, max)
  {
    hide Expand, Matches, Advance, PastUntil, CountReached;
    if s.rule == None {
      if s.dtstart < to && s.dtend > from {
        return [s.dtstart];
      }
      return [];
    }
    var r := s.rule.value;
    var duration := s.dtend - s.dtstart;
    occurrences := [];
    var cursor, count, iter := s.dtstart, 0, 0;
    while iter < MAX_ITERATIONS && cursor <= to
      invariant iter <= MAX_ITERATIONS && 0 <= count
      invariant Expand(r, duration, from, to, max, iter, cursor, count, occurrences) == Occurrences(s, from, to, max)
    {
      ExpandOnce(r, duration, from, to, max, iter, cursor, count, occurrences);
      if PastUntil(r, cursor) {
        return;
      }
      if CountReached(r, count) {
        return;
      }
      var matches := Matches(r, cursor);
      if matches && cursor + duration > from && cursor < to {
        occurrences := occurrences + [cursor];
        if |occurrences| >= max {
          return;
        }
      }
      if matches {
        count := count + 1;
      }
      cursor := Advance(r, cursor);
      iter := iter + 1;
    }
    ExpandOnce(r, duration, from, to, max, iter, cursor, count, occurrences);
  }

  /** One unfolding of the loop. */
  lemma ExpandOnce(r: Rule, duration: int, from: int, to: int, max: int,
                   iter: nat, cursor: int, count: nat, found: seq<int>)
    ensures (var hit := Hits(r, duration, from, to, cursor);
             var found' := if hit then found + [cursor] else found;
             Expand(r, duration, from, to, max, iter, cursor, count, found)
             == if iter >= MAX_ITERATIONS || Stops(r, to, cursor, count) then found
                else if hit && |found'| >= max then found'
                else Expand(r, duration, from, to, max, iter + 1, Advance(r, cursor),
                            if Matches(r, cursor) then count + 1 else count, found'))
  {
  }

  // ---------- the reference: all candidates, filtered ----------

  function Candidate(s: Series, i: nat): int
    requires s.rule.Some?
  {
    if i == 0 then s.dtstart else Advance(s.rule.value, Candidate(s, i - 1))
  }

  /** The number of matching candidates before the `i`-th. */
  function Rank(s: Series, i: nat): nat
    requires s.rule.Some?
  {
    if i == 0 then 0
    else Rank(s, i - 1) + if Matches(s.rule.value, Candidate(s, i - 1)) then 1 else 0
  }

  /** The `i`-th candidate is an occurrence of the series, in whatever window. */
  predicate Qualifies(s: Series, i: nat)
    requires s.rule.Some?
  {
    var r, c := s.rule.value, Candidate(s, i);
    Matches(r, c) && !PastUntil(r, c) && !CountReached(r, Rank(s, i))
  }

  predicate Selects(s: Series, from: int, to: int, i: nat)
    requires s.rule.Some?
  {
    Qualifies(s, i) && InWindow(s.Duration(), Candidate(s, i), from, to)
  }

  /** The occurrences in the window from the `i`-th candidate on, without a limit. */
  function Selected(s: Series, from: int, to: int, i: nat): seq<int>
    requires s.rule.Some?
    decreases MAX_ITERATIONS - i
  {
    if i >= MAX_ITERATIONS then []
    else (if Selects(s, from, to, i) then [Candidate(s, i)] else []) + Selected(s, from, to, i + 1)
  }

  function Take(xs: seq<int>, n: int): seq<int> {
    if n <= 0 then [] else if |xs| <= n then xs else xs[..n]
  }

  /** The limit that the loop enforces: it stops only after a find. */
  function Limit(max: int): int {
    if max < 1 then 1 else max
  }

  /** The rule moves on: a weekly rule with days ignores its interval. */
  predicate Advances(r: Rule) {
    r.interval >= 1 || (r.freq == Weekly && r.byDay.Some?)
  }

  predicate Advancing(s: Series) {
    s.rule.Some? && Advances(s.rule.value)
  }

  /** Exactly when a cursor moves on; otherwise it stands still or moves back, as the interval says. */
  lemma AdvanceIncreasesIff(r: Rule, cursor: int)
    ensures Advance(r, cursor) > cursor <==> Advances(r)
    ensures Advance(r, cursor) == cursor <==> !Advances(r) && r.interval == 0
  {
    hide AddMonths;
    var months := if r.freq == Yearly then 12 * r.interval else r.interval;
    if months >= 1 {
      AddMonthsIncreases(cursor, months);
    } else {
      AddMonthsBack(cursor, months);
    }
  }

  lemma {:induction false} CandidatesIncrease(s: Series, i: nat, j: nat)
    requires s.rule.Some? && i < j
    ensures if Advancing(s) then Candidate(s, i) < Candidate(s, j) else Candidate(s, j) <= Candidate(s, i)
    decreases j
  {
    hide Advance, Advances;
    AdvanceIncreasesIff(s.rule.value, Candidate(s, j - 1));
    if i < j - 1 {
      CandidatesIncrease(s, i, j - 1);
    }
  }

  lemma {:induction false} RanksIncrease(s: Series, i: nat, j: nat)
    requires s.rule.Some? && i <= j
    ensures Rank(s, i) <= Rank(s, j)
    decreases j
  {
    hide Matches;
    if i < j {
      RanksIncrease(s, i, j - 1);
    }
  }

  /** The loop ends before its first candidate. */
  predicate StopsAtOnce(s: Series, to: int)
    requires s.rule.Some?
  {
    Stops(s.rule.value, to, s.dtstart, 0)
  }

  /** Once the loop stops for good, no later candidate is selected. */
  lemma {:induction false} NothingAfter(s: Series, from: int, to: int, stop: nat, i: nat)
    requires s.rule.Some? && (Advancing(s) || !StopsAtOnce(s, to)) && stop <= i
    requires Stops(s.rule.value, to, Candidate(s, stop), Rank(s, stop))
    ensures Selected(s, from, to, i) == []
    decreases MAX_ITERATIONS - i
  {
    hide Rank, Matches, Advances, Advance;
    if i < MAX_ITERATIONS {
      if stop < i {
        CandidatesIncrease(s, stop, i);
      }
      if 0 < stop {
        CandidatesIncrease(s, 0, stop);
      }
      RanksIncrease(s, 0, stop);
      RanksIncrease(s, stop, i);
      assert Rank(s, 0) == 0 by {
        RankStarts(s);
      }
      NothingAfter(s, from, to, stop, i + 1);
    }
  }

  lemma RankStarts(s: Series)
    requires s.rule.Some?
    ensures Rank(s, 0) == 0
  {
  }

  lemma NextCandidate(s: Series, i: nat)
    requires s.rule.Some?
    ensures Candidate(s, i + 1) == Advance(s.rule.value, Candidate(s, i))
    ensures Rank(s, i + 1) == if Matches(s.rule.value, Candidate(s, i)) then Rank(s, i) + 1 else Rank(s, i)
  {
    hide Matches, Advance;
  }

  /** One step of the unlimited list, seen from the loop's tests. */
  lemma SelectedOnce(s: Series, from: int, to: int, i: nat)
    requires s.rule.Some? && i < MAX_ITERATIONS && !Stops(s.rule.value, to, Candidate(s, i), Rank(s, i))
    ensures Selected(s, from, to, i)
         == if Hits(s.rule.value, s.Duration(), from, to, Candidate(s, i))
            then [Candidate(s, i)] + Selected(s, from, to, i + 1) else Selected(s, from, to, i + 1)
  {
    hide Candidate, Rank, Matches, PastUntil, CountReached, InWindow;
    assert [] + Selected(s, from, to, i + 1) == Selected(s, from, to, i + 1);
  }

  lemma {:induction false} ExpandSelects(s: Series, from: int, to: int, max: int, i: nat, found: seq<int>)
    requires s.rule.Some? && (Advancing(s) || !StopsAtOnce(s, to)) && i <= MAX_ITERATIONS && |found| < Limit(max)
    ensures Expand(s.rule.value, s.Duration(), from, to, max, i, Candidate(s, i), Rank(s, i), found)
         == Take(found + Selected(s, from, to, i), Limit(max))
    decreases MAX_ITERATIONS - i
  {
    hide Expand, Matches, Advance, Stops, Hits, Candidate, Rank, Selected;
    var r, c := s.rule.value, Candidate(s, i);
    ExpandOnce(r, s.Duration(), from, to, max, i, c, Rank(s, i), found);
    NextCandidate(s, i);
    if i == MAX_ITERATIONS || Stops(r, to, c, Rank(s, i)) {
      SelectedEnds(s, from, to, i);
      assert found + [] == found;
    } else {
      SelectedOnce(s, from, to, i);
      if Hits(r, s.Duration(), from, to, c) {
        if |found| + 1 < Limit(max) {
          ExpandSelects(s, from, to, max, i + 1, found + [c]);
        }
      } else {
        ExpandSelects(s, from, to, max, i + 1, found);
      }
    }
  }

  lemma SelectedEnds(s: Series, from: int, to: int, i: nat)
    requires s.rule.Some? && (Advancing(s) || !StopsAtOnce(s, to))
    requires i >= MAX_ITERATIONS || Stops(s.rule.value, to, Candidate(s, i), Rank(s, i))
    ensures Selected(s, from, to, i) == []
  {
    hide Stops, Candidate, Rank;
    if i < MAX_ITERATIONS {
      NothingAfter(s, from, to, i, i);
    }
  }

  /** Main result, for every rule: unless the loop ends before its first candidate, the expansion returns
      the first `max` occurrences (at least one) among the first 1000 candidates that overlap the window. */
  lemma OccurrencesAreSelected(s: Series, from: int, to: int, max: int)
    requires s.rule.Some?
    ensures Occurrences(s, from, to, max)
         == if StopsAtOnce(s, to) then [] else Take(Selected(s, from, to, 0), Limit(max))
    ensures Advancing(s) && StopsAtOnce(s, to) ==> Selected(s, from, to, 0) == []
  {
    hide Expand, Advances;
    if StopsAtOnce(s, to) {
      ExpandOnce(s.rule.value, s.Duration(), from, to, max, 0, s.dtstart, 0, []);
      if Advancing(s) {
        SelectedEnds(s, from, to, 0);
      }
    } else {
      ExpandSelects(s, from, to, max, 0, []);
      assert [] + Selected(s, from, to, 0) == Selected(s, from, to, 0);
    }
  }

  predicate StrictlyIncreasing(xs: seq<int>) {
    forall i, j | 0 <= i < j < |xs| :: xs[i] < xs[j]
  }

  lemma {:induction false} SelectedMembers(s: Series, from: int, to: int, i: nat, x: int)
    requires s.rule.Some?
    ensures x in Selected(s, from, to, i)
       <==> exists k: nat | i <= k < MAX_ITERATIONS :: Selects(s, from, to, k) && Candidate(s, k) == x
    decreases MAX_ITERATIONS - i
  {
    hide Selects, Candidate;
    if i < MAX_ITERATIONS {
      SelectedMembers(s, from, to, i + 1, x);
    }
  }

  predicate NowhereIncreasing(xs: seq<int>) {
    forall i, j | 0 <= i < j < |xs| :: xs[j] <= xs[i]
  }

  lemma {:induction false} SelectedIncreasing(s: Series, from: int, to: int, i: nat)
    requires s.rule.Some?
    ensures if Advancing(s) then StrictlyIncreasing(Selected(s, from, to, i)) else NowhereIncreasing(Selected(s, from, to, i))
    decreases MAX_ITERATIONS - i
  {
    hide Selects, Candidate, Advances;
    if i < MAX_ITERATIONS {
      SelectedIncreasing(s, from, to, i + 1);
      var rest := Selected(s, from, to, i + 1);
      forall j | 0 <= j < |rest|
        ensures if Advancing(s) then Candidate(s, i) < rest[j] else rest[j] <= Candidate(s, i)
      {
        SelectedMembers(s, from, to, i + 1, rest[j]);
        var k: nat :| i + 1 <= k < MAX_ITERATIONS && Selects(s, from, to, k) && Candidate(s, k) == rest[j];
        CandidatesIncrease(s, i, k);
      }
    }
  }

  /** Occurrences come in strictly increasing order, exactly unless the rule does not move on and gives several. */
  lemma OccurrencesIncrease(s: Series, from: int, to: int, max: int)
    ensures StrictlyIncreasing(Occurrences(s, from, to, max))
       <==> s.rule == None || Advancing(s) || |Occurrences(s, from, to, max)| <= 1
  {
    hide Expand, Selected, Advances;
    if s.rule.Some? {
      OccurrencesAreSelected(s, from, to, max);
      SelectedIncreasing(s, from, to, 0);
      var occurrences, selected := Occurrences(s, from, to, max), Selected(s, from, to, 0);
      if !Advancing(s) && |occurrences| > 1 {
        assert occurrences[0] == selected[0] && occurrences[1] == selected[1];
        assert selected[1] <= selected[0];
      }
    }
  }

  /** With an interval of 0 an event is its own next occurrence. */
  lemma IntervalZeroRepeats(s: Series, from: int, to: int, max: int, k: nat)
    requires s.rule.Some? && !Advancing(s) && s.rule.value.interval == 0 && k < |Occurrences(s, from, to, max)|
    ensures Occurrences(s, from, to, max)[k] == s.dtstart
  {
    hide Expand, Candidate, Advances, Selects;
    OccurrencesAreSelected(s, from, to, max);
    var x := Occurrences(s, from, to, max)[k];
    assert x in Selected(s, from, to, 0);
    SelectedMembers(s, from, to, 0, x);
    var i: nat :| i < MAX_ITERATIONS && Selects(s, from, to, i) && Candidate(s, i) == x;
    StandingStill(s, i);
  }

  /** So an unfiltered rule with interval 0 repeats the start of the event as often as asked for. */
  lemma IntervalZeroIsListedTwice(s: Series, from: int, to: int)
    requires s.rule.Some? && Unfiltered(s.rule.value) && s.rule.value.interval == 0
    requires s.rule.value.count == None && s.rule.value.until == None && InWindow(s.Duration(), s.dtstart, from, to)
    ensures Occurrences(s, from, to, 2) == [s.dtstart, s.dtstart]
  {
    hide Expand;
    var r, d := s.rule.value, s.Duration();
    ExpandOnce(r, d, from, to, 2, 0, s.dtstart, 0, []);
    ExpandOnce(r, d, from, to, 2, 1, s.dtstart, 1, [s.dtstart]);
    assert [] + [s.dtstart] == [s.dtstart];
    assert [s.dtstart] + [s.dtstart] == [s.dtstart, s.dtstart];
  }

  lemma {:induction false} StandingStill(s: Series, i: nat)
    requires s.rule.Some? && !Advancing(s) && s.rule.value.interval == 0
    ensures Candidate(s, i) == s.dtstart
  {
    hide Advance, Advances;
    if i > 0 {
      StandingStill(s, i - 1);
      AdvanceIncreasesIff(s.rule.value, Candidate(s, i - 1));
    }
  }

  // ---------- unfiltered daily and weekly rules ----------

  predicate Unfiltered(r: Rule) {
    r.freq in {Daily, Weekly} && r.byDay == None && r.byMonthDay == None && r.byMonth == None
  }

  function Step(r: Rule): int {
    (if r.freq == Weekly then 7 * MS_PER_DAY else MS_PER_DAY) * r.interval
  }

  /** The candidates of an unfiltered rule are equally spaced, and all of them match. */
  lemma {:induction false} EquallySpaced(s: Series, i: nat)
    requires s.rule.Some? && Unfiltered(s.rule.value)
    ensures Candidate(s, i) == s.dtstart + i * Step(s.rule.value)
    ensures Rank(s, i) == i
  {
    if i > 0 {
      EquallySpaced(s, i - 1);
      assert i * Step(s.rule.value) == (i - 1) * Step(s.rule.value) + Step(s.rule.value);
    }
  }

  /** Exactly which times an unlimited expansion of an unfiltered rule contains. */
  lemma UnfilteredOccurrences(s: Series, from: int, to: int, x: int)
    requires s.rule.Some? && Unfiltered(s.rule.value)
    ensures x in Selected(s, from, to, 0)
       <==> InWindow(s.Duration(), x, from, to) && !PastUntil(s.rule.value, x)
            && exists i: nat | i < MAX_ITERATIONS :: IsStep(s, i, x)
  {
    hide Candidate, Selects, IsStep, PastUntil, InWindow;
    SelectedMembers(s, from, to, 0, x);
    forall i: nat
      ensures Selects(s, from, to, i) && Candidate(s, i) == x
         <==> InWindow(s.Duration(), x, from, to) && !PastUntil(s.rule.value, x) && IsStep(s, i, x)
    {
      SelectsStep(s, from, to, i, x);
    }
  }

  lemma SelectsStep(s: Series, from: int, to: int, i: nat, x: int)
    requires s.rule.Some? && Unfiltered(s.rule.value)
    ensures Selects(s, from, to, i) && Candidate(s, i) == x
       <==> InWindow(s.Duration(), x, from, to) && !PastUntil(s.rule.value, x) && IsStep(s, i, x)
  {
    hide Candidate, Rank, Step, PastUntil, CountReached, InWindow;
    EquallySpaced(s, i);
  }

  /** `x` is the `i`-th point after the start, and COUNT allows that many. */
  predicate IsStep(s: Series, i: nat, x: int)
    requires s.rule.Some?
  {
    x == s.dtstart + i * Step(s.rule.value) && !CountReached(s.rule.value, i)
  }

  // ---------- shrinking the window ----------

  function Restrict(xs: seq<int>, duration: int, from: int, to: int): seq<int> {
    if xs == [] then []
    else (if InWindow(duration, xs[0], from, to) then [xs[0]] else []) + Restrict(xs[1..], duration, from, to)
  }

  lemma {:induction false} SelectedRestricted(s: Series, from: int, to: int, from': int, to': int, i: nat)
    requires s.rule.Some? && from <= from' && to' <= to
    ensures Selected(s, from', to', i) == Restrict(Selected(s, from, to, i), s.Duration(), from', to')
    decreases MAX_ITERATIONS - i
  {
    hide Qualifies, Candidate;
    if i < MAX_ITERATIONS {
      SelectedRestricted(s, from, to, from', to', i + 1);
      var rest := Selected(s, from, to, i + 1);
      if Selects(s, from, to, i) {
        assert ([Candidate(s, i)] + rest)[1..] == rest;
      } else {
        assert [] + rest == rest;
      }
    }
  }

  /** A smaller window returns the larger window's result filtered, as long as the larger window did not reach
      the limit: COUNT is counted from the start of the series. A rule that moves back is not expanded into a
      window that ends before the series starts. */
  lemma ShrinkingFilters(s: Series, from: int, to: int, from': int, to': int, max: int)
    requires from <= from' && to' <= to && |Occurrences(s, from, to, max)| < Limit(max)
    ensures Occurrences(s, from', to', max)
         == if s.dtstart > to' then [] else Restrict(Occurrences(s, from, to, max), s.Duration(), from', to')
    ensures s.rule == None || Advancing(s) ==>
        Occurrences(s, from', to', max) == Restrict(Occurrences(s, from, to, max), s.Duration(), from', to')
  {
    hide Expand, Selected, Advances;
    if s.rule.Some? {
      OccurrencesAreSelected(s, from, to, max);
      OccurrencesAreSelected(s, from', to', max);
      SelectedRestricted(s, from, to, from', to', 0);
      RestrictShorter(Selected(s, from, to, 0), s.Duration(), from', to');
    } else {
      assert Restrict([s.dtstart][1..], s.Duration(), from', to') == [];
    }
  }

  lemma {:induction false} RestrictShorter(xs: seq<int>, duration: int, from: int, to: int)
    ensures |Restrict(xs, duration, from, to)| <= |xs|
  {
    if xs != [] {
      RestrictShorter(xs[1..], duration, from, to);
    }
  }

  // ---------- occurrences as a set, for the reminders ----------

  /** `x` is the start of an occurrence of the series, within the loop's 1000 candidates. */
  ghost predicate IsOccurrence(s: Series, x: int) {
    if s.rule == None then x == s.dtstart
    else exists i: nat | i < MAX_ITERATIONS :: Qualifies(s, i) && Candidate(s, i) == x
  }

  /** While the limit is not reached, a window shows exactly the overlapping occurrences, unless the loop ends
      before its first candidate; with a rule that moves on nothing is lost by that. */
  lemma OccurrenceShown(s: Series, from: int, to: int, max: int, x: int)
    requires |Occurrences(s, from, to, max)| < Limit(max)
    ensures x in Occurrences(s, from, to, max)
       <==> IsOccurrence(s, x) && InWindow(s.Duration(), x, from, to) && (s.rule.Some? ==> !StopsAtOnce(s, to))
    ensures s.rule == None || Advancing(s) ==>
        (x in Occurrences(s, from, to, max) <==> IsOccurrence(s, x) && InWindow(s.Duration(), x, from, to))
  {
    hide Expand, Qualifies, Candidate, Advances;
    if s.rule.Some? {
      OccurrencesAreSelected(s, from, to, max);
      SelectedMembers(s, from, to, 0, x);
      assert forall k: nat :: Selects(s, from, to, k) ==> Qualifies(s, k);
      assert forall k: nat :: Qualifies(s, k) && InWindow(s.Duration(), Candidate(s, k), from, to)
                              ==> Selects(s, from, to, k);
    }
  }
}
