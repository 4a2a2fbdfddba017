/** Polled delivery of calendar reminders (`getPendingReminders`, `markReminderFired` in
    src/calendar-events.ts and src/calendar-reminder-engine.ts). */
module Reminders {
  import opened Recurrence
  import opened Sorting
  import opened Wrappers

  /** A row of the event table; `reminders` holds the minutes before each occurrence. */
  datatype Entry = Entry(id: string, series: Series, reminders: seq<nat>, confirmed: bool)

  /** The unique key of the table of fired reminders. */
  datatype Key = Key(event: string, occurrence: int, minutes: nat) {
    function FireAt(): int { occurrence - minutes * 60 * 1000 }
  }

  datatype Delivery = Delivery(key: Key, at: int)

  const LOOK_AHEAD: int := 24 * 60 * 60 * 1000
  const GRACE: int := 10 * 60 * 1000
  const FETCH_LIMIT: nat := 100
  const OCCURRENCE_LIMIT: nat := 50

  // ---------- which reminders are pending ----------

  /** The status and time filter of `listEvents`; a bound of 0 is no bound. */
  predicate Listed(e: Entry, from: int, to: int) {
    e.confirmed
    && (e.series.rule.Some?
        || ((from != 0 ==> e.series.dtend > from) && (to != 0 ==> e.series.dtstart < to)))
  }

  function ListedEntries(table: seq<Entry>, from: int, to: int): seq<Entry> {
    if table == [] then []
    else (if Listed(table[0], from, to) then [table[0]] else []) + ListedEntries(table[1..], from, to)
  }

  /** All listed rows, in the order in which they are fetched. */
  function ListingOrder(table: seq<Entry>, from: int, to: int): seq<Entry> {
    SortBy(ListedEntries(table, from, to), (e: Entry) => e.series.dtstart)
  }

  function ListEvents(table: seq<Entry>, from: int, to: int): seq<Entry> {
    var rows := ListingOrder(table, from, to);
    if |rows| <= FETCH_LIMIT then rows else rows[..FETCH_LIMIT]
  }

  predicate Due(k: Key, now: int) {
    k.FireAt() <= now && k.FireAt() >= now - GRACE
  }

  predicate IsPending(k: Key, fired: set<Key>, now: int) {
    Due(k, now) && k !in fired
  }

  /** The pending reminders of one occurrence. */
  function OccurrenceKeys(id: string, occ: int, minutes: seq<nat>, fired: set<Key>, now: int): seq<Key> {
    if minutes == [] then []
    else
      var k := Key(id, occ, minutes[|minutes| - 1]);
      OccurrenceKeys(id, occ, minutes[..|minutes| - 1], fired, now) + (if IsPending(k, fired, now) then [k] else [])
  }

  function EntryKeys(e: Entry, occs: seq<int>, fired: set<Key>, now: int): seq<Key> {
    if occs == [] then []
    else
      EntryKeys(e, occs[..|occs| - 1], fired, now) + OccurrenceKeys(e.id, occs[|occs| - 1], e.reminders, fired, now)
  }

  function WindowOccurrences(e: Entry, now: int): seq<int> {
    Occurrences(e.series, now, now + LOOK_AHEAD, OCCURRENCE_LIMIT)
  }

  function RowsKeys(rows: seq<Entry>, fired: set<Key>, now: int): seq<Key> {
    if rows == [] then []
    else
      var e := rows[|rows| - 1];
      RowsKeys(rows[..|rows| - 1], fired, now) + EntryKeys(e, WindowOccurrences(e, now), fired, now)
  }

  function Pending(table: seq<Entry>, fired: set<Key>, now: int): seq<Key> {
    RowsKeys(ListEvents(table, now, now + LOOK_AHEAD), fired, now)
  }

  function Stamped(keys: seq<Key>, now: int): seq<Delivery> {
    seq(|keys|, i requires 0 <= i < |keys| => Delivery(keys[i], now))
  }

  function AsSet(keys: seq<Key>): set<Key> {
    set k | k in keys
  }

  function Put(table: seq<Entry>, e: Entry): seq<Entry> {
    if table == [] then [e]
    else if table[0].id == e.id then [e] + table[1..]
    else [table[0]] + Put(table[1..], e)
  }

  function Without(table: seq<Entry>, id: string): seq<Entry> {
    if table == [] then []
    else (if table[0].id == id then [] else [table[0]]) + Without(table[1..], id)
  }

  // ---------- the engine as a state machine ----------

  datatype State = State(table: seq<Entry>, fired: set<Key>, delivered: seq<Delivery>)

  /** A poll, a create or update of an event, or its deletion, which forgets its fired reminders. */
  datatype Step = Poll(now: int) | Write(entry: Entry) | Remove(id: string)

  function Apply(s: State, step: Step): State {
    match step
    case Poll(now) =>
      var keys := Pending(s.table, s.fired, now);
      State(s.table, s.fired + AsSet(keys), s.delivered + Stamped(keys, now))
    case Write(e) => s.(table := Put(s.table, e))
    case Remove(id) => State(Without(s.table, id), (set k | k in s.fired && k.event != id), s.delivered)
  }

  function Run(s: State, steps: seq<Step>): State {
    if steps == [] then s else Apply(Run(s, steps[..|steps| - 1]), steps[|steps| - 1])
  }

  lemma AsSetEmpty()
    ensures AsSet([]) == {}
  {
  }

  lemma AsSetSnoc(keys: seq<Key>, i: nat)
    requires i < |keys|
    ensures AsSet(keys[..i + 1]) == AsSet(keys[..i]) + {keys[i]}
  {
    assert keys[..i + 1] == keys[..i] + [keys[i]];
  }

  /** The reminder engine with its event table and its table of fired reminders. */
  class ReminderEngine {
    var table: seq<Entry>
    var fired: set<Key>
    var delivered: seq<Delivery>
    var lastPollAt: int
    var totalDelivered: nat
    var totalPolls: nat

    function View(): State
      reads this
    {
      State(table, fired, delivered)
    }

    constructor ()
      ensures table == [] && fired == {} && delivered == [] && totalDelivered == 0 && totalPolls == 0
    {
      table, fired, delivered, lastPollAt, totalDelivered, totalPolls := [], {}, [], 0, 0, 0;
    }

    method GetPendingReminders(now: int) returns (pending: seq<Key>)
      ensures pending == Pending(table, fired, now)
    {
      hide ListEvents, EntryKeys, WindowOccurrences;
      var rows := ListEvents(table, now, now + LOOK_AHEAD);
      pending := [];
      for i := 0 to |rows|
        invariant pending == RowsKeys(rows[..i], fired, now)
      {
        assert rows[..i + 1][..i] == rows[..i];
        var keys := PendingOf(rows[i], now);
        pending := pending + keys;
      }
      assert rows[..|rows|] == rows;
    }

    /** The two inner loops, over the occurrences and the reminders of one event. */
    method PendingOf(e: Entry, now: int) returns (pending: seq<Key>)
      ensures pending == EntryKeys(e, WindowOccurrences(e, now), fired, now)
    {
      hide Occurrences, IsPending;
      var occs := GetOccurrences(e.series, now, now + LOOK_AHEAD, OCCURRENCE_LIMIT);
      pending := [];
      for j := 0 to |occs|
        invariant pending == EntryKeys(e, occs[..j], fired, now)
      {
        assert occs[..j + 1][..j] == occs[..j];
        ghost var before := pending;
        for m := 0 to |e.reminders|
          invariant pending == before + OccurrenceKeys(e.id, occs[j], e.reminders[..m], fired, now)
        {
          assert e.reminders[..m + 1][..m] == e.reminders[..m];
          var k := Key(e.id, occs[j], e.reminders[m]);
          if IsPending(k, fired, now) {
            pending := pending + [k];
          }
        }
        assert e.reminders[..|e.reminders|] == e.reminders;
      }
      assert occs[..|occs|] == occs;
    }

    /** One poll: every pending reminder is delivered and then marked as fired. */
    method PollReminders(now: int) returns (count: nat)
      modifies this
      ensures View() == Apply(old(View()), Poll(now))
      ensures count == |Pending(old(table), old(fired), now)|
      ensures totalPolls == old(totalPolls) + 1 && lastPollAt == now
      ensures totalDelivered == old(totalDelivered) + count
    {
      hide Pending, AsSet;
      totalPolls := totalPolls + 1;
      lastPollAt := now;
      AsSetEmpty();
      var pending := GetPendingReminders(now);
      count := 0;
      for i := 0 to |pending|
        invariant count == i && totalDelivered == old(totalDelivered) + i
        invariant table == old(table) && totalPolls == old(totalPolls) + 1 && lastPollAt == now
        invariant delivered == old(delivered) + Stamped(pending, now)[..i]
        invariant fired == old(fired) + AsSet(pending[..i])
      {
        delivered := delivered + [Delivery(pending[i], now)];
        fired := fired + {pending[i]};
        totalDelivered := totalDelivered + 1;
        count := count + 1;
        AsSetSnoc(pending, i);
      }
      assert pending[..|pending|] == pending;
    }

    /** `createEvent` and `updateEvent`: the row with this id is written. */
    method PutEvent(e: Entry)
      modifies this
      ensures View() == Apply(old(View()), Write(e))
      ensures totalPolls == old(totalPolls) && lastPollAt == old(lastPollAt) && totalDelivered == old(totalDelivered)
    {
      table := Put(table, e);
    }

    /** `deleteEvent`: the row and its fired reminders go. */
    method DeleteEvent(id: string)
      modifies this
      ensures View() == Apply(old(View()), Remove(id))
      ensures totalPolls == old(totalPolls) && lastPollAt == old(lastPollAt) && totalDelivered == old(totalDelivered)
    {
      fired := set k | k in fired && k.event != id;
      table := Without(table, id);
    }
  }

  // ---------- how often a key is pending ----------

  lemma {:induction false} OccurrenceKeysCount(id: string, occ: int, minutes: seq<nat>, fired: set<Key>, now: int,
      k: Key)
    ensures multiset(OccurrenceKeys(id, occ, minutes, fired, now))[k]
         == if k.event == id && k.occurrence == occ && IsPending(k, fired, now) then multiset(minutes)[k.minutes] else 0
  {
    hide IsPending;
    if minutes != [] {
      var front := minutes[..|minutes| - 1];
      OccurrenceKeysCount(id, occ, front, fired, now, k);
      assert minutes == front + [minutes[|front|]];
    }
  }

  /** `a` times `b`. */
  function Product(a: nat, b: nat): nat {
    if a == 0 then 0 else Product(a - 1, b) + b
  }

  lemma EntryKeysSnoc(e: Entry, front: seq<int>, last: int, fired: set<Key>, now: int)
    ensures EntryKeys(e, front + [last], fired, now)
         == EntryKeys(e, front, fired, now) + OccurrenceKeys(e.id, last, e.reminders, fired, now)
  {
    hide OccurrenceKeys;
    assert (front + [last])[..|front|] == front;
  }

  lemma {:induction false} EntryKeysCount(e: Entry, occs: seq<int>, fired: set<Key>, now: int, k: Key)
    ensures multiset(EntryKeys(e, occs, fired, now))[k]
         == if k.event == e.id && IsPending(k, fired, now)
            then Product(multiset(occs)[k.occurrence], multiset(e.reminders)[k.minutes]) else 0
  {
    hide IsPending, OccurrenceKeys;
    if occs != [] {
      hide EntryKeys;
      var front, last := occs[..|occs| - 1], occs[|occs| - 1];
      assert occs == front + [last];
      EntryKeysSnoc(e, front, last, fired, now);
      EntryKeysCount(e, front, fired, now, k);
      OccurrenceKeysCount(e.id, last, e.reminders, fired, now, k);
      assert multiset(occs)[k.occurrence] == multiset(front)[k.occurrence] + if last == k.occurrence then 1 else 0;
    }
  }

  lemma {:induction false} OccursOnce(occs: seq<int>, x: int)
    requires StrictlyIncreasing(occs)
    ensures multiset(occs)[x] == if x in occs then 1 else 0
  {
    if occs != [] {
      var front, last := occs[..|occs| - 1], occs[|occs| - 1];
      OccursOnce(front, x);
      assert occs == front + [last];
      assert last !in front;
    }
  }

  lemma {:induction false} NotPendingNotListed(rows: seq<Entry>, fired: set<Key>, now: int, k: Key)
    requires !IsPending(k, fired, now)
    ensures multiset(RowsKeys(rows, fired, now))[k] == 0
  {
    hide IsPending;
    if rows != [] {
      NotPendingNotListed(rows[..|rows| - 1], fired, now, k);
      NotPendingInEntry(rows[|rows| - 1], WindowOccurrences(rows[|rows| - 1], now), fired, now, k);
    }
  }

  lemma {:induction false} NotPendingInEntry(e: Entry, occs: seq<int>, fired: set<Key>, now: int, k: Key)
    requires !IsPending(k, fired, now)
    ensures multiset(EntryKeys(e, occs, fired, now))[k] == 0
  {
    hide IsPending;
    if occs != [] {
      NotPendingInEntry(e, occs[..|occs| - 1], fired, now, k);
      OccurrenceKeysCount(e.id, occs[|occs| - 1], e.reminders, fired, now, k);
    }
  }

  /** Every id belongs to one row only. */
  ghost predicate UniqueRows(rows: seq<Entry>) {
    && (forall e :: multiset(rows)[e] <= 1)
    && (forall e, f | e in rows && f in rows && e.id == f.id :: e == f)
  }

  lemma {:induction false} OtherRows(rows: seq<Entry>, fired: set<Key>, now: int, k: Key)
    requires forall e | e in rows :: e.id != k.event
    ensures multiset(RowsKeys(rows, fired, now))[k] == 0
  {
    hide IsPending;
    if rows != [] {
      var e := rows[|rows| - 1];
      OtherRows(rows[..|rows| - 1], fired, now, k);
      OtherEntry(e, WindowOccurrences(e, now), fired, now, k);
    }
  }

  lemma {:induction false} OtherEntry(e: Entry, occs: seq<int>, fired: set<Key>, now: int, k: Key)
    requires e.id != k.event
    ensures multiset(EntryKeys(e, occs, fired, now))[k] == 0
  {
    if occs != [] {
      OtherEntry(e, occs[..|occs| - 1], fired, now, k);
      OccurrenceKeysCount(e.id, occs[|occs| - 1], e.reminders, fired, now, k);
    }
  }

  lemma {:induction false} RowsKeysCount(rows: seq<Entry>, e: Entry, fired: set<Key>, now: int, k: Key)
    requires UniqueRows(rows) && e in rows && k.event == e.id
    ensures multiset(RowsKeys(rows, fired, now))[k]
         == multiset(EntryKeys(e, WindowOccurrences(e, now), fired, now))[k]
  {
    hide IsPending, EntryKeys, WindowOccurrences;
    var front, last := rows[..|rows| - 1], rows[|rows| - 1];
    assert rows == front + [last];
    UniqueFront(rows);
    if last.id == e.id {
      assert last == e;
      assert multiset(rows)[e] == multiset(front)[e] + 1;
      assert e !in multiset(front);
      assert forall f | f in front :: f in rows;
      OtherRows(front, fired, now, k);
    } else {
      RowsKeysCount(front, e, fired, now, k);
      OtherEntry(last, WindowOccurrences(last, now), fired, now, k);
    }
  }

  lemma UniqueFront(rows: seq<Entry>)
    requires UniqueRows(rows) && rows != []
    ensures UniqueRows(rows[..|rows| - 1])
  {
    var front := rows[..|rows| - 1];
    assert rows == front + [rows[|rows| - 1]];
    forall e
      ensures multiset(front)[e] <= 1
    {
      assert multiset(rows)[e] <= 1;
    }
  }

  lemma {:induction false} ListedCount(table: seq<Entry>, from: int, to: int, e: Entry)
    ensures multiset(ListedEntries(table, from, to))[e]
         == if Listed(e, from, to) then multiset(table)[e] else 0
  {
    hide Listed;
    if table != [] {
      ListedCount(table[1..], from, to, e);
      assert table == [table[0]] + table[1..];
    }
  }

  lemma OrderIsListed(table: seq<Entry>, now: int)
    requires UniqueRows(table)
    ensures UniqueRows(ListingOrder(table, now, now + LOOK_AHEAD))
    ensures forall e :: e in ListingOrder(table, now, now + LOOK_AHEAD) <==> e in table && Listed(e, now, now + LOOK_AHEAD)
    ensures |ListingOrder(table, now, now + LOOK_AHEAD)| == |ListedEntries(table, now, now + LOOK_AHEAD)|
  {
    hide Listed, SortBy;
    var to := now + LOOK_AHEAD;
    var rows := ListingOrder(table, now, to);
    SortBySorts(ListedEntries(table, now, to), (x: Entry) => x.series.dtstart);
    forall x
      ensures multiset(rows)[x] <= 1
      ensures x in rows <==> x in table && Listed(x, now, to)
    {
      ListedCount(table, now, to, x);
      assert multiset(table)[x] <= 1;
      MemberByCount(rows, x);
      MemberByCount(table, x);
    }
    assert |multiset(rows)| == |multiset(ListedEntries(table, now, to))|;
  }

  lemma FetchedUnique(rows: seq<Entry>, n: nat)
    requires UniqueRows(rows) && n <= |rows|
    ensures UniqueRows(rows[..n])
    ensures forall p | 0 <= p < |rows| :: rows[p] in rows[..n] <==> p < n
  {
    var front := rows[..n];
    assert rows == front + rows[n..];
    forall e
      ensures multiset(front)[e] <= 1
    {
      assert multiset(rows)[e] <= 1;
      assert multiset(rows)[e] == multiset(front)[e] + multiset(rows[n..])[e];
    }
    forall p | 0 <= p < |rows|
      ensures rows[p] in front <==> p < n
    {
      var e := rows[p];
      assert multiset(rows)[e] == multiset(front)[e] + multiset(rows[n..])[e];
      if p < n {
        assert front[p] == e;
      } else {
        assert rows[n..][p - n] == e;
        assert e in multiset(rows[n..]);
        assert e !in multiset(front);
      }
    }
  }

  /** A listed row is fetched exactly if fewer than a hundred stand before it. */
  lemma FetchedByPosition(table: seq<Entry>, now: int, p: nat)
    requires UniqueRows(table) && p < |ListingOrder(table, now, now + LOOK_AHEAD)|
    ensures ListingOrder(table, now, now + LOOK_AHEAD)[p] in ListEvents(table, now, now + LOOK_AHEAD) <==> p < 100
  {
    hide UniqueRows, ListingOrder;
    var rows := ListingOrder(table, now, now + LOOK_AHEAD);
    OrderIsListed(table, now);
    FetchedUnique(rows, if |rows| <= FETCH_LIMIT then |rows| else FETCH_LIMIT);
  }

  lemma ListedTold(e: Entry, now: int)
    ensures Listed(e, now, now + LOOK_AHEAD)
        <==> e.confirmed
             && (e.series.rule.Some?
                 || ((now == 0 || e.series.dtend > now)
                     && (now + 86_400_000 == 0 || e.series.dtstart < now + 86_400_000)))
  {
  }

  lemma ListingByStart(table: seq<Entry>, now: int)
    ensures var order := ListingOrder(table, now, now + LOOK_AHEAD);
            forall i, j | 0 <= i <= j < |order| :: order[i].series.dtstart <= order[j].series.dtstart
  {
    hide SortBy, ListedEntries;
    var key := (x: Entry) => x.series.dtstart;
    SortBySorts(ListedEntries(table, now, now + LOOK_AHEAD), key);
    var order := ListingOrder(table, now, now + LOOK_AHEAD);
    assert forall i, j | 0 <= i <= j < |order| :: key(order[i]) <= key(order[j]);
  }

  /** What a poll looks at: the confirmed events that recur, or overlap the next 24 hours (a bound at time 0 being
      none), by their start; and of each the first fifty occurrences in that time. */
  lemma ListingTold(table: seq<Entry>, now: int)
    requires UniqueRows(table)
    ensures var order := ListingOrder(table, now, now + LOOK_AHEAD);
            (forall e :: e in order
               <==> e in table && e.confirmed
                    && (e.series.rule.Some?
                        || ((now == 0 || e.series.dtend > now)
                            && (now + 86_400_000 == 0 || e.series.dtstart < now + 86_400_000))))
            && forall i, j | 0 <= i <= j < |order| :: order[i].series.dtstart <= order[j].series.dtstart
    ensures forall e :: WindowOccurrences(e, now) == Occurrences(e.series, now, now + 86_400_000, 50)
  {
    hide ListingOrder, Listed, Occurrences, UniqueRows;
    OrderIsListed(table, now);
    ListingByStart(table, now);
    forall e
      ensures e in ListingOrder(table, now, now + LOOK_AHEAD)
         <==> e in table && e.confirmed
              && (e.series.rule.Some?
                  || ((now == 0 || e.series.dtend > now)
                      && (now + 86_400_000 == 0 || e.series.dtstart < now + 86_400_000)))
    {
      ListedTold(e, now);
      assert e in ListingOrder(table, now, now + LOOK_AHEAD) <==> e in table && Listed(e, now, now + LOOK_AHEAD);
    }
  }

  /** How often one poll reminds of `k`: for each time that the fetched row lists the minutes and the occurrence. */
  function Reminded(table: seq<Entry>, e: Entry, k: Key, now: int): nat {
    if e in ListEvents(table, now, now + LOOK_AHEAD)
    then Product(multiset(WindowOccurrences(e, now))[k.occurrence], multiset(e.reminders)[k.minutes])
    else 0
  }

  /** Exactly how often a reminder is pending, whatever limits are hit and however the rule recurs. */
  lemma PendingCount(table: seq<Entry>, fired: set<Key>, now: int, e: Entry, k: Key)
    requires UniqueRows(table) && e in table && k.event == e.id
    ensures var fireAt := k.occurrence - k.minutes * 60_000;
            multiset(Pending(table, fired, now))[k]
            == if fireAt <= now <= fireAt + 600_000 && k !in fired then Reminded(table, e, k, now) else 0
  {
    hide ListingOrder, EntryKeys, RowsKeys, WindowOccurrences, Listed;
    var order, rows := ListingOrder(table, now, now + LOOK_AHEAD), ListEvents(table, now, now + LOOK_AHEAD);
    OrderIsListed(table, now);
    FetchedUnique(order, |rows|);
    assert rows == order[..|rows|];
    if e in rows {
      RowsKeysCount(rows, e, fired, now, k);
      EntryKeysCount(e, WindowOccurrences(e, now), fired, now, k);
    } else {
      forall f | f in rows
        ensures f.id != k.event
      {
        assert f in order;
      }
      OtherRows(rows, fired, now, k);
    }
  }

  /** While the fetch limit is not hit, every listed row is fetched. */
  lemma ListingComplete(table: seq<Entry>, now: int, e: Entry)
    requires UniqueRows(table) && |ListedEntries(table, now, now + LOOK_AHEAD)| <= FETCH_LIMIT
    requires e in table && Listed(e, now, now + LOOK_AHEAD)
    ensures e in ListEvents(table, now, now + LOOK_AHEAD)
  {
    hide Listed, ListingOrder, UniqueRows;
    OrderIsListed(table, now);
  }

  // ---------- runs ----------

  function Times(ds: seq<Delivery>, k: Key): nat {
    if ds == [] then 0
    else Times(ds[..|ds| - 1], k) + if ds[|ds| - 1].key == k then 1 else 0
  }

  lemma {:induction false} TimesAppend(a: seq<Delivery>, b: seq<Delivery>, k: Key)
    ensures Times(a + b, k) == Times(a, k) + Times(b, k)
  {
    if b == [] {
      assert a + b == a;
    } else {
      assert (a + b)[..|a + b| - 1] == a + b[..|b| - 1];
      TimesAppend(a, b[..|b| - 1], k);
    }
  }

  lemma {:induction false} TimesStamped(keys: seq<Key>, now: int, k: Key)
    ensures Times(Stamped(keys, now), k) == multiset(keys)[k]
  {
    if keys != [] {
      var front := keys[..|keys| - 1];
      assert keys == front + [keys[|keys| - 1]];
      assert Stamped(keys, now)[..|keys| - 1] == Stamped(front, now);
      TimesStamped(front, now, k);
    }
  }

  /** Every delivery of `k` in the log happened at `now`. */
  predicate OnlyAt(ds: seq<Delivery>, k: Key, now: int) {
    forall i | 0 <= i < |ds| :: ds[i].key == k ==> ds[i].at == now
  }

  /** No step writes or removes the event. */
  predicate Undisturbed(steps: seq<Step>, id: string) {
    forall i | 0 <= i < |steps| ::
      !(steps[i].Write? && steps[i].entry.id == id) && !(steps[i].Remove? && steps[i].id == id)
  }

  predicate NeverRemoved(steps: seq<Step>, id: string) {
    forall i | 0 <= i < |steps| :: !(steps[i].Remove? && steps[i].id == id)
  }

  predicate PollsBefore(steps: seq<Step>, t: int) {
    forall i | 0 <= i < |steps| :: steps[i].Poll? ==> steps[i].now < t
  }

  lemma {:induction false} RunAppend(s: State, a: seq<Step>, b: seq<Step>)
    ensures Run(s, a + b) == Run(Run(s, a), b)
  {
    hide Apply;
    if b == [] {
      assert a + b == a;
    } else {
      assert (a + b)[..|a + b| - 1] == a + b[..|b| - 1];
      RunAppend(s, a, b[..|b| - 1]);
    }
  }

  lemma {:induction false} PutMembers(table: seq<Entry>, e: Entry, x: Entry)
    requires UniqueRows(table)
    ensures multiset(Put(table, e))[x] == if x == e then 1 else if x.id == e.id then 0 else multiset(table)[x]
  {
    if table == [] {
    } else {
      assert table == [table[0]] + table[1..];
      assert multiset(table)[x] <= 1 && table[0] in table;
      if table[0].id == e.id {
        assert x in multiset(table[1..]) ==> x in table[1..];
        assert x in table[1..] ==> x in table;
      } else {
        UniqueTail(table);
        PutMembers(table[1..], e, x);
      }
    }
  }

  lemma UniqueTail(rows: seq<Entry>)
    requires UniqueRows(rows) && rows != []
    ensures UniqueRows(rows[1..])
  {
    assert rows == [rows[0]] + rows[1..];
    forall e
      ensures multiset(rows[1..])[e] <= 1
    {
      assert multiset(rows)[e] <= 1;
    }
  }

  lemma {:induction false} WithoutMembers(table: seq<Entry>, id: string, x: Entry)
    ensures multiset(Without(table, id))[x] == if x.id == id then 0 else multiset(table)[x]
  {
    if table != [] {
      assert table == [table[0]] + table[1..];
      WithoutMembers(table[1..], id, x);
    }
  }

  lemma MemberByCount(rows: seq<Entry>, x: Entry)
    ensures x in rows <==> multiset(rows)[x] > 0
  {
    assert x in rows <==> x in multiset(rows);
  }

  /** A row after a write or a removal: the written one, or an older one with another id. */
  predicate FromStep(table: seq<Entry>, step: Step, x: Entry) {
    (step.Write? && x == step.entry) || (x in table && (step.Write? ==> x.id != step.entry.id))
  }

  /** Writing and removing events keeps the ids unique, and leaves other rows alone. */
  lemma TableStep(s: State, step: Step, e: Entry)
    requires UniqueRows(s.table)
    ensures UniqueRows(Apply(s, step).table)
    ensures e in s.table && Undisturbed([step], e.id) ==> e in Apply(s, step).table
  {
    hide Pending;
    var table := Apply(s, step).table;
    if step.Poll? {
      assert table == s.table;
    } else {
      forall x
        ensures multiset(table)[x] <= 1
        ensures x in table ==> FromStep(s.table, step, x)
        ensures x in s.table && Undisturbed([step], x.id) ==> x in table
      {
        assert multiset(s.table)[x] <= 1;
        if step.Write? {
          PutMembers(s.table, step.entry, x);
        } else {
          WithoutMembers(s.table, step.id, x);
        }
        MemberByCount(table, x);
        MemberByCount(s.table, x);
        assert [step][0] == step;
      }
    }
  }

  /** Before its fire time a reminder is neither delivered nor marked, and its event stays. */
  lemma {:induction false} BeforeFireTime(s: State, steps: seq<Step>, e: Entry, k: Key)
    requires UniqueRows(s.table) && e in s.table && k.event == e.id
    requires k !in s.fired && Times(s.delivered, k) == 0
    requires Undisturbed(steps, e.id) && PollsBefore(steps, k.FireAt())
    ensures var t := Run(s, steps); UniqueRows(t.table) && e in t.table && k !in t.fired && Times(t.delivered, k) == 0
  {
    hide UniqueRows, Pending, Put, Without;
    if steps != [] {
      var front, last := steps[..|steps| - 1], steps[|steps| - 1];
      BeforeFireTime(s, front, e, k);
      var t := Run(s, front);
      TableStep(t, last, e);
      if last.Poll? {
        PollWithout(t, last.now, k);
      }
    }
  }

  /** A poll at which `k` is not pending neither delivers nor marks it. */
  lemma PollWithout(s: State, now: int, k: Key)
    requires !IsPending(k, s.fired, now)
    ensures var t := Apply(s, Poll(now));
            (k in t.fired <==> k in s.fired) && Times(t.delivered, k) == Times(s.delivered, k)
    ensures k !in Pending(s.table, s.fired, now)
  {
    hide RowsKeys, ListEvents;
    var keys := Pending(s.table, s.fired, now);
    NotPendingNotListed(ListEvents(s.table, now, now + LOOK_AHEAD), s.fired, now, k);
    assert k !in multiset(keys);
    TimesAppend(s.delivered, Stamped(keys, now), k);
    TimesStamped(keys, now, k);
  }

  /** Once marked, a reminder is not delivered again, whatever happens to the table. */
  lemma {:induction false} AfterFired(s: State, steps: seq<Step>, k: Key, at: int)
    requires k in s.fired && NeverRemoved(steps, k.event) && OnlyAt(s.delivered, k, at)
    ensures var t := Run(s, steps);
            k in t.fired && Times(t.delivered, k) == Times(s.delivered, k) && OnlyAt(t.delivered, k, at)
  {
    hide Pending, Put, Without;
    if steps != [] {
      var front, last := steps[..|steps| - 1], steps[|steps| - 1];
      AfterFired(s, front, k, at);
      if last.Poll? {
        PollWithout(Run(s, front), last.now, k);
      }
    }
  }

  /** Within the limits a recurring event is reminded of once for each time it lists the minutes. */
  lemma RemindedWithinLimits(table: seq<Entry>, e: Entry, k: Key, now: int)
    requires UniqueRows(table) && e in table && Reminds(e, k)
    requires k.FireAt() <= now <= k.FireAt() + GRACE && k.occurrence + e.series.Duration() > now
    requires WithinLimits(table, e, now)
    ensures Reminded(table, e, k, now) == multiset(e.reminders)[k.minutes]
  {
    hide UniqueRows, IsOccurrence, ListEvents, ListedEntries, Occurrences;
    OccurrenceShown(e.series, now, now + LOOK_AHEAD, OCCURRENCE_LIMIT, k.occurrence);
    OccurrencesIncrease(e.series, now, now + LOOK_AHEAD, OCCURRENCE_LIMIT);
    OccursOnce(WindowOccurrences(e, now), k.occurrence);
    assert Product(1, multiset(e.reminders)[k.minutes]) == multiset(e.reminders)[k.minutes];
    if e.series.rule == None {
      SingleOccurrence(e.series, k.occurrence);
    }
    ListingComplete(table, now, e);
  }

  lemma SingleOccurrence(s: Series, x: int)
    requires IsOccurrence(s, x) && s.rule == None
    ensures x == s.dtstart
  {
  }

  /** The limits of the two queries of a poll are not hit. */
  predicate WithinLimits(table: seq<Entry>, e: Entry, now: int) {
    |ListedEntries(table, now, now + LOOK_AHEAD)| <= FETCH_LIMIT && |WindowOccurrences(e, now)| < OCCURRENCE_LIMIT
  }

  /** `e` can remind of `k`: it is confirmed, recurs properly, and has the occurrence. */
  ghost predicate Reminds(e: Entry, k: Key) {
    && e.confirmed && k.event == e.id && k.minutes in e.reminders && k.minutes < 1440
    && IsOccurrence(e.series, k.occurrence) && (e.series.rule.Some? ==> Advancing(e.series))
  }

  /**
   * Whatever limits are hit and however the event recurs: the first poll at or after the fire time,
   * when it comes within ten minutes, delivers a reminder exactly as often as it is reminded of; and
   * if that is at all, it is never delivered again.
   */
  lemma DeliveredAsReminded(s: State, e: Entry, k: Key, before: seq<Step>, now: int, after: seq<Step>)
    requires UniqueRows(s.table) && e in s.table && k.event == e.id
    requires k !in s.fired && Times(s.delivered, k) == 0
    requires Undisturbed(before, e.id) && PollsBefore(before, k.FireAt()) && Due(k, now)
    requires NeverRemoved(after, e.id)
    ensures var n := Reminded(Run(s, before).table, e, k, now);
            Times(Run(s, before + [Poll(now)]).delivered, k) == n
            && (n > 0 ==>
                  var log := Run(s, before + [Poll(now)] + after).delivered;
                  Times(log, k) == n && OnlyAt(log, k, now))
  {
    hide Run, Apply, UniqueRows, Pending, Reminded;
    var s1 := Run(s, before);
    BeforeFireTime(s, before, e, k);
    RunAppend(s, before + [Poll(now)], after);
    RunAppend(s, before, [Poll(now)]);
    RunOne(s1, Poll(now));
    PendingCount(s1.table, s1.fired, now, e, k);
    if multiset(Pending(s1.table, s1.fired, now))[k] > 0 {
      PollOutcome(s1, now, k);
      AfterFired(Apply(s1, Poll(now)), after, k, now);
    } else {
      NothingPending(s1, now, k);
    }
  }

  lemma NothingPending(s: State, now: int, k: Key)
    requires multiset(Pending(s.table, s.fired, now))[k] == 0
    ensures Times(Apply(s, Poll(now)).delivered, k) == Times(s.delivered, k)
  {
    hide Pending;
    TimesAppend(s.delivered, Stamped(Pending(s.table, s.fired, now), now), k);
    TimesStamped(Pending(s.table, s.fired, now), now, k);
  }

  /** Main result: over any run in which polls follow each other within ten minutes, a reminder
      of an event that was there before its fire time is delivered at the first poll at or after
      that time, once for each time it is listed in the event, and never otherwise. */
  lemma DeliveredAtFirstPoll(s: State, e: Entry, k: Key, before: seq<Step>, now: int, after: seq<Step>)
    requires UniqueRows(s.table) && e in s.table && Reminds(e, k)
    requires k !in s.fired && Times(s.delivered, k) == 0
    requires Undisturbed(before, e.id) && PollsBefore(before, k.FireAt()) && k.FireAt() <= now
    requires exists i :: 0 <= i < |before| && before[i].Poll? && now - before[i].now <= GRACE
    requires k.occurrence + e.series.Duration() >= k.FireAt() + GRACE
    requires WithinLimits(Run(s, before).table, e, now)
    requires NeverRemoved(after, e.id)
    ensures var log := Run(s, before + [Poll(now)] + after).delivered;
            Times(log, k) == multiset(e.reminders)[k.minutes] && OnlyAt(log, k, now)
  {
    hide Run, Apply, UniqueRows, IsOccurrence, Pending, ListedEntries, WindowOccurrences, Reminded, Undisturbed;
    BeforeFireTime(s, before, e, k);
    RemindedWithinLimits(Run(s, before).table, e, k, now);
    DeliveredAsReminded(s, e, k, before, now, after);
  }

  lemma RunOne(s: State, step: Step)
    ensures Run(s, [step]) == Apply(s, step)
  {
    assert [step][..0] == [];
    assert Run(s, []) == s;
  }

  /** A poll that has `k` pending delivers and marks it. */
  lemma PollOutcome(s: State, now: int, k: Key)
    requires Times(s.delivered, k) == 0 && multiset(Pending(s.table, s.fired, now))[k] > 0
    ensures var t := Apply(s, Poll(now));
            k in t.fired && OnlyAt(t.delivered, k, now)
            && Times(t.delivered, k) == multiset(Pending(s.table, s.fired, now))[k]
  {
    hide Pending;
    var keys := Pending(s.table, s.fired, now);
    assert k in multiset(keys);
    TimesAppend(s.delivered, Stamped(keys, now), k);
    TimesStamped(keys, now, k);
    NotInLog(s.delivered, k);
  }

  lemma {:induction false} NotInLog(ds: seq<Delivery>, k: Key)
    requires Times(ds, k) == 0
    ensures forall i | 0 <= i < |ds| :: ds[i].key != k
  {
    if ds != [] {
      NotInLog(ds[..|ds| - 1], k);
      assert forall i | 0 <= i < |ds| - 1 :: ds[i] == ds[..|ds| - 1][i];
    }
  }

  predicate AllDue(ds: seq<Delivery>) {
    forall i | 0 <= i < |ds| :: Due(ds[i].key, ds[i].at)
  }

  /** No reminder is ever delivered early or more than ten minutes late. */
  lemma {:induction false} NeverEarlyNeverLate(s: State, steps: seq<Step>)
    requires AllDue(s.delivered)
    ensures AllDue(Run(s, steps).delivered)
  {
    hide Due, Pending, Put, Without;
    if steps != [] {
      var front, last := steps[..|steps| - 1], steps[|steps| - 1];
      NeverEarlyNeverLate(s, front);
      if last.Poll? {
        var t := Run(s, front);
        PendingAllDue(t, last.now);
      }
    }
  }

  lemma PendingAllDue(s: State, now: int)
    ensures AllDue(Stamped(Pending(s.table, s.fired, now), now))
  {
    hide Due, Pending;
    var keys := Pending(s.table, s.fired, now);
    forall i | 0 <= i < |keys|
      ensures Due(keys[i], now)
    {
      PendingIsDue(s, now, keys[i]);
    }
  }

  lemma PendingIsDue(s: State, now: int, k: Key)
    requires k in Pending(s.table, s.fired, now)
    ensures Due(k, now)
  {
    hide Due, Pending;
    if !IsPending(k, s.fired, now) {
      PollWithout(s, now, k);
    }
  }
}
