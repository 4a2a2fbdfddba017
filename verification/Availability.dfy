/** Recurring calendar blocks and availability (src/calendar.ts), for blocks in UTC. */
module Availability {
  import opened UtcDate
  import opened Wrappers

  datatype BlockType = Free | Busy | Focus | OutOfOffice

  /** A one-off block runs between two times, a recurring one between two minutes of its week days. */
  datatype Block =
    | OneOff(kind: BlockType, start: int, end: int)
    | Recurring(kind: BlockType, start: int, end: int, days: set<int>)

  datatype Answer = Answer(status: BlockType, current: Option<Block>, until: Option<int>)

  const MINUTE: int := 60 * 1000

  // ---------- minutes of the day ----------

  predicate ActiveMinute(start: int, end: int, m: int) {
    if start <= end then start <= m < end else m >= start || m < end
  }

  /** Minutes from `m` to the end of an active block. */
  function Wait(start: int, end: int, m: int): int {
    if start <= end then end - m
    else if m >= start then (1440 - m) + end
    else end - m
  }

  predicate InDay(m: int) {
    0 <= m < 1440
  }

  /** How far `m` lies after `start` on the clock face. */
  function Along(start: int, m: int): (k: int)
    ensures 0 <= k < 1440
  {
    (m - start) % 1440
  }

  /** A block is active exactly on the half-open arc from its start to its end; an empty arc is never active. */
  lemma ActiveIsArc(start: int, end: int, m: int)
    requires InDay(start) && InDay(end) && InDay(m)
    ensures ActiveMinute(start, end, m) <==> Along(start, m) < Along(start, end)
  {
    AlongCases(start, m);
    AlongCases(start, end);
  }

  lemma AlongCases(start: int, m: int)
    requires InDay(start) && InDay(m)
    ensures Along(start, m) == if m >= start then m - start else m - start + 1440
  {
  }

  /** The wait of an active block is the rest of its arc. */
  lemma WaitIsRest(start: int, end: int, m: int)
    requires InDay(start) && InDay(end) && InDay(m) && ActiveMinute(start, end, m)
    ensures Wait(start, end, m) == Along(start, end) - Along(start, m)
    ensures 1 <= Wait(start, end, m) <= 1439
    ensures (m + Wait(start, end, m)) % 1440 == end
  {
    AlongCases(start, m);
    AlongCases(start, end);
  }

  // ---------- minutes of the week ----------

  /** `m` counts minutes since the epoch. */
  function DayOf(m: int): int {
    (m / 1440 + 4) % 7
  }

  predicate ActiveAt(b: Block, m: int)
    requires b.Recurring?
  {
    DayOf(m) in b.days && ActiveMinute(b.start, b.end, m % 1440)
  }

  predicate InRange(b: Block) {
    b.Recurring? ==> InDay(b.start) && InDay(b.end)
  }

  /** The wait runs past midnight. */
  predicate Crosses(b: Block, m: int) {
    m % 1440 + Wait(b.start, b.end, m % 1440) > 1440
  }

  ghost predicate ActiveUntil(b: Block, from: int, to: int)
    requires b.Recurring?
  {
    forall n | from <= n < to :: ActiveAt(b, n)
  }

  lemma SplitMinute(m: int, k: int)
    requires 0 <= k < 1440
    ensures m % 1440 + k < 1440 ==> (m + k) / 1440 == m / 1440 && (m + k) % 1440 == m % 1440 + k
    ensures m % 1440 + k >= 1440 ==> (m + k) / 1440 == m / 1440 + 1 && (m + k) % 1440 == m % 1440 + k - 1440
  {
    var q, r := m / 1440, m % 1440;
    assert m + k == q * 1440 + (r + k);
    if r + k >= 1440 {
      assert m + k == (q + 1) * 1440 + (r + k - 1440);
    }
  }

  /** Every minute before the computed end is active on the clock face, and the end is not. */
  lemma StepActive(start: int, end: int, m: int, k: int)
    requires InDay(start) && InDay(end) && ActiveMinute(start, end, m % 1440)
    requires 0 <= k <= Wait(start, end, m % 1440)
    ensures ActiveMinute(start, end, (m + k) % 1440) <==> k < Wait(start, end, m % 1440)
  {
    hide Along;
    WaitIsRest(start, end, m % 1440);
    SplitMinute(m, k);
  }

  /**
   * While a recurring block is active, its computed end is the first minute at which it is not,
   * unless the wait crosses midnight into a week day that the block does not list: then it is
   * already over at midnight.
   */
  lemma EndIsFirstInactive(b: Block, m: int)
    requires b.Recurring? && InRange(b) && ActiveAt(b, m)
    ensures var w := Wait(b.start, b.end, m % 1440); 1 <= w <= 1439 && (m + w) % 1440 == b.end && !ActiveAt(b, m + w)
    ensures ActiveUntil(b, m, m + Wait(b.start, b.end, m % 1440)) <==> !Crosses(b, m) || (DayOf(m) + 1) % 7 in b.days
  {
    hide Along, Wait, ActiveMinute;
    var w := Wait(b.start, b.end, m % 1440);
    WaitIsRest(b.start, b.end, m % 1440);
    SplitMinute(m, w);
    StepActive(b.start, b.end, m, w);
    assert (m + w) % 1440 == (m % 1440 + w) % 1440;
    forall n | m <= n < m + w
      ensures ActiveAt(b, n) <==> m % 1440 + (n - m) < 1440 || (DayOf(m) + 1) % 7 in b.days
    {
      SplitMinute(m, n - m);
      StepActive(b.start, b.end, m, n - m);
      assert m + (n - m) == n;
      NextDay(m);
    }
    if Crosses(b, m) {
      var n := m + (1440 - m % 1440);
      assert m <= n < m + w;
      assert ActiveAt(b, n) <==> (DayOf(m) + 1) % 7 in b.days;
    }
  }

  lemma NextDay(m: int)
    ensures (m / 1440 + 1 + 4) % 7 == (DayOf(m) + 1) % 7
  {
  }

  // ---------- availability ----------

  function MinuteNumber(at: int): int {
    at / MINUTE
  }

  /** The week day and the minute of the day of a time, as `getUTCDay`, `getUTCHours` and `getUTCMinutes` give them. */
  lemma MinuteAndDay(at: int)
    ensures DayOf(MinuteNumber(at)) == WeekDay(at)
    ensures MinuteNumber(at) % 1440 == (at % MS_PER_DAY) / MINUTE
  {
    var q, r := at / MS_PER_DAY, at % MS_PER_DAY;
    assert at == q * MS_PER_DAY + r;
    assert at / MINUTE == q * 1440 + r / MINUTE by {
      var a, c := r / MINUTE, r % MINUTE;
      assert at == (q * 1440 + a) * MINUTE + c;
    }
    assert 0 <= r / MINUTE < 1440;
  }

  predicate Covers(b: Block, now: int) {
    match b
    case OneOff(_, start, end) => start <= now < end
    case Recurring(_, _, _, _) => ActiveAt(b, MinuteNumber(now))
  }

  /** When a block covers a time, on the clock: a recurring one on its week days, on the arc from its start to its
      end. */
  lemma CoversTold(b: Block, now: int)
    requires InRange(b)
    ensures b.OneOff? ==> (Covers(b, now) <==> b.start <= now < b.end)
    ensures b.Recurring? ==>
        var minute := FieldsOf(now).hour * 60 + FieldsOf(now).minute;
        (Covers(b, now) <==> WeekDay(now) in b.days && (minute - b.start) % 1440 < (b.end - b.start) % 1440)
  {
    hide DateOfDay, ActiveMinute, WeekDay;
    if b.Recurring? {
      MinuteAndDay(now);
      TimeParts(now);
      MinuteOfDay(now % MS_PER_DAY);
      ActiveIsArc(b.start, b.end, MinuteNumber(now) % 1440);
    }
  }

  lemma MinuteOfDay(inDay: int)
    requires 0 <= inDay < MS_PER_DAY
    ensures inDay / MINUTE == inDay / 3_600_000 * 60 + inDay / 60_000 % 60
  {
    assert inDay / 60_000 / 60 == inDay / 3_600_000;
  }

  function EndOf(b: Block, now: int): int {
    match b
    case OneOff(_, _, end) => end
    case Recurring(_, start, end, _) => now + Wait(start, end, MinuteNumber(now) % 1440) * MINUTE
  }

  /** The first block that covers the time, one-off blocks before recurring ones. */
  ghost predicate IsCurrent(blocks: seq<Block>, now: int, i: nat) {
    && i < |blocks| && Covers(blocks[i], now)
    && (forall j | 0 <= j < |blocks| && Covers(blocks[j], now) ::
          if blocks[i].OneOff? then blocks[j].OneOff? ==> i <= j else blocks[j].Recurring? && i <= j)
  }

  method GetAgentAvailability(blocks: seq<Block>, now: int) returns (r: Answer)
    ensures r == Answer(Free, None, None) <==> forall i | 0 <= i < |blocks| :: !Covers(blocks[i], now)
    ensures r.current.None? ==> r == Answer(Free, None, None)
    ensures r.current.Some? && r.current.value.Recurring? ==>
        forall j | 0 <= j < |blocks| && blocks[j].OneOff? :: !Covers(blocks[j], now)
    ensures r.current.Some? ==>
        exists i | 0 <= i < |blocks| && blocks[i] == r.current.value ::
          forall j | 0 <= j < i && (blocks[j].OneOff? <==> blocks[i].OneOff?) :: !Covers(blocks[j], now)
    ensures r.current.Some? ==>
        exists i: nat ::
            IsCurrent(blocks, now, i) && r == Answer(blocks[i].kind, Some(blocks[i]), Some(EndOf(blocks[i], now)))
  {
    hide Covers, EndOf;
    for i := 0 to |blocks|
      invariant forall j | 0 <= j < i && blocks[j].OneOff? :: !Covers(blocks[j], now)
    {
      if blocks[i].OneOff? && Covers(blocks[i], now) {
        assert IsCurrent(blocks, now, i);
        return Answer(blocks[i].kind, Some(blocks[i]), Some(EndOf(blocks[i], now)));
      }
    }
    for i := 0 to |blocks|
      invariant forall j | 0 <= j < |blocks| && blocks[j].OneOff? :: !Covers(blocks[j], now)
      invariant forall j | 0 <= j < i :: !Covers(blocks[j], now)
    {
      if blocks[i].Recurring? && Covers(blocks[i], now) {
        assert IsCurrent(blocks, now, i);
        return Answer(blocks[i].kind, Some(blocks[i]), Some(EndOf(blocks[i], now)));
      }
    }
    r := Answer(Free, None, None);
  }

  /** The answer never ends in the past: a caller that waits until then makes progress. */
  lemma {:induction false} EndIsLater(b: Block, now: int)
    requires InRange(b) && Covers(b, now)
    ensures now < EndOf(b, now)
    ensures b.Recurring? ==> MinuteNumber(EndOf(b, now)) % 1440 == b.end && EndOf(b, now) % MINUTE == now % MINUTE
    ensures b.OneOff? ==> !Covers(b, EndOf(b, now))
  {
    if b.Recurring? {
      var m := MinuteNumber(now);
      var w := Wait(b.start, b.end, m % 1440);
      WaitIsRest(b.start, b.end, m % 1440);
      AddMinutes(now, w);
      SplitMinute(m, w);
    }
  }

  lemma AddMinutes(at: int, w: int)
    ensures MinuteNumber(at + w * MINUTE) == MinuteNumber(at) + w && (at + w * MINUTE) % MINUTE == at % MINUTE
  {
    var q, r := at / MINUTE, at % MINUTE;
    assert at + w * MINUTE == (q + w) * MINUTE + r;
  }
}
