/** Grouping of timeline events (`groupEvents`, `createGroupedEvent` in src/activity.ts): for
    each group key a greedy partition into windows that start at the newest event. */
module Timeline {
  import opened Sorting

  /** `key` is the group key, empty for an event without one. */
  datatype Event = Event(id: string, ts: int, key: string)

  /** An entry of the grouped timeline: an event, or a group with its newest event first. */
  datatype Entry = Single(event: Event) | Group(key: string, children: seq<Event>, windowMinutes: int)

  function KeyOf(x: Entry): string {
    if x.Single? then x.event.key else x.key
  }

  /** The time of the newest event of the entry. */
  function TsOf(x: Entry): int {
    if x.Single? then x.event.ts else if x.children == [] then 0 else x.children[0].ts
  }

  function LeavesOf(x: Entry): seq<Event> {
    if x.Single? then [x.event] else x.children
  }

  const CHAT_WINDOW: int := 5 * 60 * 1000
  const TASK_WINDOW: int := 10 * 60 * 1000
  const PRESENCE_WINDOW: int := 10 * 60 * 1000

  /** 0 for a key of an unknown kind, whose events are not grouped. */
  function WindowOf(key: string): int {
    if "chat:" <= key then CHAT_WINDOW
    else if "task-churn:" <= key then TASK_WINDOW
    else if "presence:" <= key then PRESENCE_WINDOW
    else 0
  }

  function Age(e: Event): int { -e.ts }

  function EntryAge(x: Entry): int { -TsOf(x) }

  function Items(events: seq<Event>, key: string): seq<Event> {
    if events == [] then []
    else
      var last := events[|events| - 1];
      Items(events[..|events| - 1], key) + (if last.key == key then [last] else [])
  }

  /** The group keys in the order of their first event. */
  function KeyOrder(events: seq<Event>): seq<string> {
    if events == [] then []
    else
      var keys, key := KeyOrder(events[..|events| - 1]), events[|events| - 1].key;
      if key == "" || key in keys then keys else keys + [key]
  }

  function Singles(events: seq<Event>): (r: seq<Entry>)
    ensures |r| == |events|
  {
    seq(|events|, i requires 0 <= i < |events| => Single(events[i]))
  }

  /** The greedy batches of `rest`, the first of which has begun with `batch`. */
  function Batches(batch: seq<Event>, rest: seq<Event>, window: int): seq<seq<Event>>
    requires batch != []
    decreases |rest|
  {
    if rest == [] then [batch]
    else if batch[0].ts - rest[0].ts <= window then Batches(batch + [rest[0]], rest[1..], window)
    else [batch] + Batches([rest[0]], rest[1..], window)
  }

  function EntryOf(key: string, batch: seq<Event>, window: int): Entry
    requires batch != []
  {
    if |batch| >= 2 then Group(key, batch, window / 60000) else Single(batch[0])
  }

  function BatchEntries(key: string, batch: seq<Event>, rest: seq<Event>, window: int): seq<Entry>
    requires batch != []
    decreases |rest|
  {
    if rest == [] then [EntryOf(key, batch, window)]
    else if batch[0].ts - rest[0].ts <= window then BatchEntries(key, batch + [rest[0]], rest[1..], window)
    else [EntryOf(key, batch, window)] + BatchEntries(key, [rest[0]], rest[1..], window)
  }

  function KeyEntries(key: string, items: seq<Event>): seq<Entry> {
    if |items| < 2 then Singles(items)
    else
      var sorted := SortBy(items, Age);
      SortBySorts(items, Age);
      if WindowOf(key) == 0 then Singles(sorted)
      else if sorted[0].ts - sorted[|sorted| - 1].ts <= WindowOf(key) then [EntryOf(key, sorted, WindowOf(key))]
      else BatchEntries(key, [sorted[0]], sorted[1..], WindowOf(key))
  }

  function AllEntries(keys: seq<string>, events: seq<Event>): seq<Entry> {
    if keys == [] then []
    else
      var key := keys[|keys| - 1];
      AllEntries(keys[..|keys| - 1], events) + KeyEntries(key, Items(events, key))
  }

  function Grouped(events: seq<Event>): seq<Entry> {
    SortBy(Singles(Items(events, "")) + AllEntries(KeyOrder(events), events), EntryAge)
  }

  method GroupKey(key: string, events: seq<Event>) returns (entries: seq<Entry>)
    ensures entries == KeyEntries(key, events)
  {
    hide SortBy, WindowOf;
    if |events| < 2 {
      return Singles(events);
    }
    var items := SortBy(events, Age);
    SortBySorts(events, Age);
    var window := WindowOf(key);
    if window == 0 {
      return Singles(items);
    }
    var oldest, newest := items[|items| - 1].ts, items[0].ts;
    if newest - oldest <= window {
      return [EntryOf(key, items, window)];
    }
    entries := [];
    var batch := [items[0]];
    for i := 1 to |items|
      invariant batch != []
      invariant entries + BatchEntries(key, batch, items[i..], window)
             == BatchEntries(key, [items[0]], items[1..], window)
    {
      assert items[i..][1..] == items[i + 1..];
      if batch[0].ts - items[i].ts <= window {
        batch := batch + [items[i]];
      } else {
        ghost var e := EntryOf(key, batch, window);
        assert entries + ([e] + BatchEntries(key, [items[i]], items[i + 1..], window))
            == entries + [e] + BatchEntries(key, [items[i]], items[i + 1..], window);
        entries := entries + [EntryOf(key, batch, window)];
        batch := [items[i]];
      }
    }
    entries := entries + [EntryOf(key, batch, window)];
  }

  /** The lists collected from the first events. */
  ghost predicate Collected(events: seq<Event>, keys: seq<string>, byKey: map<string, seq<Event>>) {
    && keys == KeyOrder(events)
    && (forall k :: k in byKey <==> k in keys)
    && (forall k | k in byKey :: byKey[k] == Items(events, k))
  }

  lemma {:induction false} NewKey(events: seq<Event>, key: string)
    requires key !in KeyOrder(events) && key != ""
    ensures Items(events, key) == []
  {
    if events != [] {
      NewKey(events[..|events| - 1], key);
    }
  }

  lemma ItemsSnoc(events: seq<Event>, e: Event, k: string)
    ensures Items(events + [e], k) == if k == e.key then Items(events, k) + [e] else Items(events, k)
  {
    assert (events + [e])[..|events|] == events;
  }

  lemma KeyOrderSnoc(events: seq<Event>, e: Event)
    ensures KeyOrder(events + [e])
         == if e.key == "" || e.key in KeyOrder(events) then KeyOrder(events) else KeyOrder(events) + [e.key]
    ensures "" !in KeyOrder(events)
  {
    hide Items;
    assert (events + [e])[..|events|] == events;
    KeyOrderFacts(events);
  }

  lemma CollectStep(events: seq<Event>, e: Event, keys: seq<string>, byKey: map<string, seq<Event>>)
    requires Collected(events, keys, byKey)
    ensures e.key == "" ==> Collected(events + [e], keys, byKey)
    ensures e.key != "" && e.key in byKey ==> Collected(events + [e], keys, byKey[e.key := byKey[e.key] + [e]])
    ensures e.key != "" && e.key !in byKey ==> Collected(events + [e], keys + [e.key], byKey[e.key := [e]])
  {
    hide Items, KeyOrder;
    KeyOrderSnoc(events, e);
    forall k
      ensures Items(events + [e], k) == if k == e.key then Items(events, k) + [e] else Items(events, k)
    {
      ItemsSnoc(events, e, k);
    }
    if e.key != "" && e.key !in keys {
      NewKey(events, e.key);
    }
  }

  /** The first loop: events by key, and those without a key. */
  method CollectByKey(events: seq<Event>)
    returns (keys: seq<string>, byKey: map<string, seq<Event>>, ungrouped: seq<Event>)
    ensures ungrouped == Items(events, "") && Collected(events, keys, byKey)
  {
    hide Collected;
    keys, byKey, ungrouped := [], map[], [];
    CollectedEmpty();
    for i := 0 to |events|
      invariant ungrouped == Items(events[..i], "")
      invariant Collected(events[..i], keys, byKey)
    {
      var e := events[i];
      assert events[..i + 1][..i] == events[..i];
      assert events[..i + 1] == events[..i] + [e];
      CollectStep(events[..i], e, keys, byKey);
      if e.key == "" {
        ungrouped := ungrouped + [e];
      } else if e.key in byKey {
        byKey := byKey[e.key := byKey[e.key] + [e]];
      } else {
        keys := keys + [e.key];
        byKey := byKey[e.key := [e]];
      }
    }
    assert events[..|events|] == events;
  }

  method GroupEvents(events: seq<Event>) returns (grouped: seq<Entry>)
    ensures grouped == Grouped(events)
  {
    hide KeyEntries, SortBy, Collected, KeyOrder, Items, Singles;
    var keys, byKey, ungrouped := CollectByKey(events);
    CollectedAll(events, keys, byKey);
    grouped := Singles(ungrouped);
    ghost var start := grouped;
    for i := 0 to |keys|
      invariant grouped == start + AllEntries(keys[..i], events)
    {
      assert keys[..i + 1][..i] == keys[..i];
      var entries := GroupKey(keys[i], byKey[keys[i]]);
      grouped := grouped + entries;
    }
    assert keys[..|keys|] == keys;
    grouped := SortBy(grouped, EntryAge);
  }

  lemma CollectedEmpty()
    ensures Collected([], [], map[])
  {
  }

  lemma CollectedAll(events: seq<Event>, keys: seq<string>, byKey: map<string, seq<Event>>)
    requires Collected(events, keys, byKey)
    ensures keys == KeyOrder(events)
    ensures forall i | 0 <= i < |keys| :: keys[i] in byKey && byKey[keys[i]] == Items(events, keys[i])
  {
  }

  // ---------- conservation ----------

  function Leaves(entries: seq<Entry>): seq<Event> {
    if entries == [] then [] else LeavesOf(entries[0]) + Leaves(entries[1..])
  }

  lemma {:induction false} LeavesAppend(a: seq<Entry>, b: seq<Entry>)
    ensures Leaves(a + b) == Leaves(a) + Leaves(b)
  {
    if a == [] {
      assert a + b == b;
    } else {
      assert (a + b)[1..] == a[1..] + b;
      LeavesAppend(a[1..], b);
    }
  }

  lemma {:induction false} SinglesLeaves(events: seq<Event>)
    ensures Leaves(Singles(events)) == events
  {
    if events != [] {
      assert Singles(events)[1..] == Singles(events[1..]);
      SinglesLeaves(events[1..]);
    }
  }

  lemma {:induction false} BatchLeaves(key: string, batch: seq<Event>, rest: seq<Event>, window: int)
    requires batch != []
    ensures Leaves(BatchEntries(key, batch, rest, window)) == batch + rest
    decreases |rest|
  {
    assert LeavesOf(EntryOf(key, batch, window)) == batch;
    if rest == [] {
      assert Leaves([EntryOf(key, batch, window)][1..]) == [];
    } else if batch[0].ts - rest[0].ts <= window {
      BatchLeaves(key, batch + [rest[0]], rest[1..], window);
      assert batch + [rest[0]] + rest[1..] == batch + rest;
    } else {
      BatchLeaves(key, [rest[0]], rest[1..], window);
      assert [rest[0]] + rest[1..] == rest;
    }
  }

  lemma KeyLeaves(key: string, items: seq<Event>)
    ensures multiset(Leaves(KeyEntries(key, items))) == multiset(items)
  {
    hide WindowOf, SortBy, BatchEntries, Singles, Age;
    SinglesLeaves(items);
    var sorted := SortBy(items, Age);
    SortBySorts(items, Age);
    SinglesLeaves(sorted);
    if |items| >= 2 {
      BatchLeaves(key, [sorted[0]], sorted[1..], WindowOf(key));
      assert [sorted[0]] + sorted[1..] == sorted;
      assert Leaves([EntryOf(key, sorted, WindowOf(key))][1..]) == [];
    }
  }

  lemma LeavesMiddle(front: seq<Entry>, x: Entry, back: seq<Entry>)
    ensures multiset(Leaves(front + ([x] + back))) == multiset(LeavesOf(x)) + multiset(Leaves(front + back))
  {
    hide LeavesOf;
    LeavesAppend(front, [x] + back);
    assert ([x] + back)[1..] == back;
    LeavesAppend(front, back);
  }

  lemma LeavesWithout(b: seq<Entry>, i: nat)
    requires i < |b|
    ensures multiset(Leaves(b)) == multiset(LeavesOf(b[i])) + multiset(Leaves(b[..i] + b[i + 1..]))
  {
    hide Leaves, LeavesOf;
    assert b == b[..i] + ([b[i]] + b[i + 1..]);
    LeavesMiddle(b[..i], b[i], b[i + 1..]);
  }

  lemma PermutationWithout<T>(a: seq<T>, b: seq<T>, i: nat)
    requires a != [] && i < |b| && b[i] == a[0] && multiset(a) == multiset(b)
    ensures multiset(a[1..]) == multiset(b[..i] + b[i + 1..])
  {
    assert a == [a[0]] + a[1..];
    assert b == b[..i] + [b[i]] + b[i + 1..];
    assert multiset(a[1..]) == multiset(a) - multiset{a[0]};
    assert multiset(b[..i] + b[i + 1..]) == multiset(b) - multiset{b[i]};
  }

  /** The leaves of a bag of entries do not depend on their order. */
  lemma {:induction false} LeavesOfPermutation(a: seq<Entry>, b: seq<Entry>)
    requires multiset(a) == multiset(b)
    ensures multiset(Leaves(a)) == multiset(Leaves(b))
  {
    hide LeavesOf;
    if a != [] {
      assert a[0] in multiset(b);
      var i :| 0 <= i < |b| && b[i] == a[0];
      PermutationWithout(a, b, i);
      LeavesOfPermutation(a[1..], b[..i] + b[i + 1..]);
      LeavesWithout(b, i);
    } else {
      assert |multiset(b)| == 0;
    }
  }

  /** How many events of each key lie in the lists of the keys. */
  function ItemsOfKeys(keys: seq<string>, events: seq<Event>): seq<Event> {
    if keys == [] then []
    else ItemsOfKeys(keys[..|keys| - 1], events) + Items(events, keys[|keys| - 1])
  }

  lemma {:induction false} AllLeaves(keys: seq<string>, events: seq<Event>)
    ensures multiset(Leaves(AllEntries(keys, events))) == multiset(ItemsOfKeys(keys, events))
  {
    hide KeyEntries;
    if keys != [] {
      var front, key := keys[..|keys| - 1], keys[|keys| - 1];
      AllLeaves(front, events);
      KeyLeaves(key, Items(events, key));
      LeavesAppend(AllEntries(front, events), KeyEntries(key, Items(events, key)));
    }
  }

  predicate Distinct<T(==)>(xs: seq<T>) {
    forall i, j | 0 <= i < j < |xs| :: xs[i] != xs[j]
  }

  lemma {:induction false} KeyOrderFacts(events: seq<Event>)
    ensures Distinct(KeyOrder(events)) && "" !in KeyOrder(events)
    ensures forall k :: k in KeyOrder(events) <==> k != "" && exists i | 0 <= i < |events| :: events[i].key == k
  {
    if events != [] {
      var front := events[..|events| - 1];
      KeyOrderFacts(front);
      forall k
        ensures k in KeyOrder(events) <==> k != "" && exists i | 0 <= i < |events| :: events[i].key == k
      {
        if exists i | 0 <= i < |front| :: front[i].key == k {
          var i :| 0 <= i < |front| && front[i].key == k;
          assert events[i].key == k;
        }
      }
    }
  }

  lemma {:induction false} ItemsCount(events: seq<Event>, key: string, e: Event)
    ensures multiset(Items(events, key))[e] == if e.key == key then multiset(events)[e] else 0
  {
    if events != [] {
      var front := events[..|events| - 1];
      assert events == front + [events[|events| - 1]];
      ItemsCount(front, key, e);
    }
  }

  lemma {:induction false} ItemsOfKeysCount(keys: seq<string>, events: seq<Event>, e: Event)
    requires Distinct(keys)
    ensures multiset(ItemsOfKeys(keys, events))[e] == if e.key in keys then multiset(events)[e] else 0
  {
    if keys != [] {
      var front, key := keys[..|keys| - 1], keys[|keys| - 1];
      assert keys == front + [key] && key !in front;
      ItemsOfKeysCount(front, events, e);
      ItemsCount(events, key, e);
    }
  }

  /** Main result: grouping neither loses nor duplicates an event. */
  lemma GroupingConserves(events: seq<Event>)
    ensures multiset(Leaves(Grouped(events))) == multiset(events)
  {
    hide AllEntries, SortBy, KeyOrder;
    var keys := KeyOrder(events);
    var before := Singles(Items(events, "")) + AllEntries(keys, events);
    SortBySorts(before, EntryAge);
    LeavesOfPermutation(Grouped(events), before);
    LeavesAppend(Singles(Items(events, "")), AllEntries(keys, events));
    SinglesLeaves(Items(events, ""));
    AllLeaves(keys, events);
    KeyOrderFacts(events);
    forall e
      ensures multiset(Leaves(before))[e] == multiset(events)[e]
    {
      ItemsCount(events, "", e);
      ItemsOfKeysCount(keys, events, e);
      if e in multiset(events) {
        assert e in events;
        var i :| 0 <= i < |events| && events[i] == e;
        assert events[i].key == e.key;
      }
    }
  }

  // ---------- windows and order ----------

  /** A group has at least two events, all of its key and within its window of the newest. */
  predicate GoodEntry(x: Entry) {
    && (x.Group? ==> |x.children| >= 2 && WindowOf(x.key) > 0 && x.windowMinutes == WindowOf(x.key) / 60000)
    && (x.Group? ==> forall i | 0 <= i < |x.children| :: InGroup(x, x.children[i]))
  }

  predicate InGroup(x: Entry, e: Event)
    requires x.Group? && x.children != []
  {
    e.key == x.key && 0 <= x.children[0].ts - e.ts <= WindowOf(x.key)
  }

  predicate AllGood(entries: seq<Entry>) {
    forall i | 0 <= i < |entries| :: GoodEntry(entries[i])
  }

  /** A started batch of events of one key, followed by older ones. */
  predicate GoodBatch(key: string, batch: seq<Event>, rest: seq<Event>) {
    && batch != [] && WindowOf(key) > 0
    && (forall i | 0 <= i < |batch| :: batch[i].key == key && 0 <= batch[0].ts - batch[i].ts <= WindowOf(key))
    && (forall i | 0 <= i < |rest| :: rest[i].key == key && rest[i].ts <= batch[|batch| - 1].ts)
    && (forall i, j | 0 <= i <= j < |rest| :: rest[j].ts <= rest[i].ts)
  }

  lemma {:induction false} BatchesGood(key: string, batch: seq<Event>, rest: seq<Event>)
    requires GoodBatch(key, batch, rest)
    ensures AllGood(BatchEntries(key, batch, rest, WindowOf(key)))
    decreases |rest|
  {
    hide WindowOf;
    if rest == [] {
    } else if batch[0].ts - rest[0].ts <= WindowOf(key) {
      BatchesGood(key, batch + [rest[0]], rest[1..]);
    } else {
      BatchesGood(key, [rest[0]], rest[1..]);
    }
  }

  /** The sorted events of one key, newest first. */
  predicate NewestFirst(events: seq<Event>) {
    forall i, j | 0 <= i <= j < |events| :: events[j].ts <= events[i].ts
  }

  predicate SameKey(events: seq<Event>, key: string) {
    forall i | 0 <= i < |events| :: events[i].key == key
  }

  lemma SortedItems(key: string, items: seq<Event>)
    requires SameKey(items, key)
    ensures NewestFirst(SortBy(items, Age)) && SameKey(SortBy(items, Age), key)
  {
    hide SortBy;
    var sorted := SortBy(items, Age);
    SortBySorts(items, Age);
    assert forall i, j | 0 <= i <= j < |sorted| :: Age(sorted[i]) <= Age(sorted[j]);
    forall i | 0 <= i < |sorted|
      ensures sorted[i].key == key
    {
      assert sorted[i] in multiset(sorted);
      assert sorted[i] in items;
    }
  }

  lemma KeyEntriesGood(key: string, items: seq<Event>)
    requires SameKey(items, key)
    ensures AllGood(KeyEntries(key, items))
  {
    hide WindowOf, SortBy, BatchEntries;
    if |items| >= 2 {
      var sorted := SortBy(items, Age);
      SortedItems(key, items);
      SortBySorts(items, Age);
      if WindowOf(key) != 0 {
        WindowsPositive(key);
        BatchesGood(key, [sorted[0]], sorted[1..]);
      }
    }
  }

  lemma WindowsPositive(key: string)
    ensures WindowOf(key) >= 0
  {
  }

  lemma {:induction false} ItemsSameKey(events: seq<Event>, key: string)
    ensures SameKey(Items(events, key), key)
  {
    if events != [] {
      ItemsSameKey(events[..|events| - 1], key);
    }
  }

  lemma {:induction false} AllEntriesGood(keys: seq<string>, events: seq<Event>)
    ensures AllGood(AllEntries(keys, events))
  {
    hide KeyEntries, GoodEntry;
    if keys != [] {
      AllEntriesGood(keys[..|keys| - 1], events);
      ItemsSameKey(events, keys[|keys| - 1]);
      KeyEntriesGood(keys[|keys| - 1], Items(events, keys[|keys| - 1]));
    }
  }

  /** Main result: every group is well formed, and the timeline is newest first. */
  lemma GroupsWellFormed(events: seq<Event>)
    ensures AllGood(Grouped(events))
    ensures forall i, j | 0 <= i <= j < |Grouped(events)| :: TsOf(Grouped(events)[j]) <= TsOf(Grouped(events)[i])
  {
    hide SortBy, AllEntries, KeyOrder, WindowOf;
    var before := Singles(Items(events, "")) + AllEntries(KeyOrder(events), events);
    var after := Grouped(events);
    SortBySorts(before, EntryAge);
    AllEntriesGood(KeyOrder(events), events);
    assert AllGood(before);
    forall i | 0 <= i < |after|
      ensures GoodEntry(after[i])
    {
      assert after[i] in multiset(after);
      assert after[i] in before;
    }
    assert forall i, j | 0 <= i <= j < |after| :: EntryAge(after[i]) <= EntryAge(after[j]);
  }

  /** The window of a key, by its kind: five minutes for a channel, ten for a task or an agent, none for other keys. */
  lemma WindowsByKind(x: string, key: string)
    ensures WindowOf("chat:" + x) == 300_000
    ensures WindowOf("task-churn:" + x) == 600_000 && WindowOf("presence:" + x) == 600_000
    ensures !("chat:" <= key) && !("task-churn:" <= key) && !("presence:" <= key) <==> WindowOf(key) == 0
  {
    assert ("task-churn:" + x)[0] != "chat:"[0];
    assert ("presence:" + x)[0] != "chat:"[0] && ("presence:" + x)[0] != "task-churn:"[0];
  }

  /** What is grouped: only bursts of a channel, a task or an agent, within five or ten minutes of the newest event. */
  lemma GroupsByKind(events: seq<Event>, i: nat)
    requires i < |Grouped(events)| && Grouped(events)[i].Group?
    ensures var g := Grouped(events)[i];
            ("chat:" <= g.key || "task-churn:" <= g.key || "presence:" <= g.key)
            && g.windowMinutes == (if "chat:" <= g.key then 5 else 10) && |g.children| >= 2
            && forall j | 0 <= j < |g.children| ::
                 g.children[j].key == g.key
                 && 0 <= g.children[0].ts - g.children[j].ts <= (if "chat:" <= g.key then 300_000 else 600_000)
  {
    hide Grouped, WindowOf;
    GroupsWellFormed(events);
    var g := Grouped(events)[i];
    assert GoodEntry(g);
    forall j | 0 <= j < |g.children|
      ensures InGroup(g, g.children[j])
    {
    }
    WindowsByKind("", g.key);
    KindOfKey(g.key);
  }

  lemma KindOfKey(key: string)
    ensures "chat:" <= key ==> WindowOf(key) == 300_000
    ensures "task-churn:" <= key || "presence:" <= key ==> WindowOf(key) == 600_000
  {
    if "chat:" <= key {
      assert key == "chat:" + key[5..];
      WindowsByKind(key[5..], key);
    } else if "task-churn:" <= key {
      assert key == "task-churn:" + key[11..];
      WindowsByKind(key[11..], key);
    } else if "presence:" <= key {
      assert key == "presence:" + key[9..];
      WindowsByKind(key[9..], key);
    }
  }

  // ---------- the number of entries is minimal ----------

  function Concat(parts: seq<seq<Event>>): seq<Event> {
    if parts == [] then [] else parts[0] + Concat(parts[1..])
  }

  predicate Narrow(part: seq<Event>, window: int) {
    forall i, j | 0 <= i < |part| && 0 <= j < |part| :: part[i].ts - part[j].ts <= window
  }

  /** A partition of the events into parts that are no wider than the window. */
  ghost predicate Partitions(parts: seq<seq<Event>>, items: seq<Event>, window: int) {
    multiset(Concat(parts)) == multiset(items) && forall i | 0 <= i < |parts| :: Narrow(parts[i], window)
  }

  /** The newest events of the batches. */
  function Anchors(batch: seq<Event>, rest: seq<Event>, window: int): (r: seq<Event>)
    requires batch != []
    ensures r != [] && r[0] == batch[0]
    decreases |rest|
  {
    if rest == [] then [batch[0]]
    else if batch[0].ts - rest[0].ts <= window then Anchors(batch + [rest[0]], rest[1..], window)
    else [batch[0]] + Anchors([rest[0]], rest[1..], window)
  }

  /** Anchors are pairwise more than one window apart. */
  predicate Apart(anchors: seq<Event>, window: int) {
    forall i, j | 0 <= i < j < |anchors| :: anchors[i].ts - anchors[j].ts > window
  }

  lemma {:induction false} AnchorsApart(key: string, batch: seq<Event>, rest: seq<Event>, window: int)
    requires batch != [] && NewestFirst(rest) && window >= 0
    ensures |Anchors(batch, rest, window)| == |BatchEntries(key, batch, rest, window)|
    ensures Apart(Anchors(batch, rest, window), window)
    ensures forall i | 0 < i < |Anchors(batch, rest, window)| :: Anchors(batch, rest, window)[i] in rest
    decreases |rest|
  {
    hide EntryOf;
    if rest == [] {
    } else if batch[0].ts - rest[0].ts <= window {
      AnchorsApart(key, batch + [rest[0]], rest[1..], window);
      assert forall e | e in rest[1..] :: e in rest;
    } else {
      var later := Anchors([rest[0]], rest[1..], window);
      AnchorsApart(key, [rest[0]], rest[1..], window);
      forall j | 0 <= j < |later|
        ensures later[j] in rest && later[j].ts <= rest[0].ts
      {
        if j == 0 {
          assert rest[0] in rest;
        } else {
          var k :| 0 <= k < |rest[1..]| && rest[1..][k] == later[j];
          assert rest[k + 1] == later[j];
        }
      }
    }
  }

  lemma {:induction false} InSomePart(parts: seq<seq<Event>>, e: Event)
    requires e in Concat(parts)
    ensures exists i :: 0 <= i < |parts| && e in parts[i]
  {
    if e in parts[0] {
    } else {
      InSomePart(parts[1..], e);
      var i :| 0 <= i < |parts[1..]| && e in parts[1..][i];
      assert parts[i + 1] == parts[1..][i];
    }
  }

  /** Distinct numbers below `m` are at most `m` many. */
  lemma {:induction false} Pigeonhole(xs: seq<int>, m: nat)
    requires Distinct(xs) && forall i | 0 <= i < |xs| :: 0 <= xs[i] < m
    ensures |xs| <= m
  {
    if m == 0 {
      assert |xs| == 0;
    } else if m - 1 in xs {
      var i :| 0 <= i < |xs| && xs[i] == m - 1;
      Pigeonhole(xs[..i] + xs[i + 1..], m - 1);
    } else {
      forall i | 0 <= i < |xs|
        ensures xs[i] < m - 1
      {
        assert xs[i] in xs;
      }
      Pigeonhole(xs, m - 1);
    }
  }

  /** Events that are pairwise too far apart need a part each. */
  lemma PartsForAnchors(anchors: seq<Event>, parts: seq<seq<Event>>, window: int)
    requires Apart(anchors, window)
    requires forall i | 0 <= i < |parts| :: Narrow(parts[i], window)
    requires forall i | 0 <= i < |anchors| :: anchors[i] in Concat(parts)
    ensures |anchors| <= |parts|
  {
    forall a | 0 <= a < |anchors|
      ensures exists i :: 0 <= i < |parts| && anchors[a] in parts[i]
    {
      InSomePart(parts, anchors[a]);
    }
    var home := seq(|anchors|, a requires 0 <= a < |anchors| => PartIndex(parts, anchors[a]));
    forall a, b | 0 <= a < b < |anchors|
      ensures home[a] != home[b]
    {
      if home[a] == home[b] {
        NarrowMembers(parts[home[a]], anchors[a], anchors[b], window);
      }
    }
    Pigeonhole(home, |parts|);
  }

  function PartIndex(parts: seq<seq<Event>>, e: Event): (i: int)
    ensures (exists k :: 0 <= k < |parts| && e in parts[k]) ==> 0 <= i < |parts| && e in parts[i]
  {
    if parts == [] || e in parts[0] then 0
    else
      assert (exists k :: 0 <= k < |parts| && e in parts[k])
        ==> (exists k :: 0 <= k < |parts[1..]| && e in parts[1..][k]) by { LaterPart(parts, e); }
      1 + PartIndex(parts[1..], e)
  }

  lemma LaterPart(parts: seq<seq<Event>>, e: Event)
    requires parts != [] && e !in parts[0]
    ensures (exists k :: 0 <= k < |parts| && e in parts[k])
        ==> (exists k :: 0 <= k < |parts[1..]| && e in parts[1..][k])
  {
    if k :| 0 <= k < |parts| && e in parts[k] {
      assert parts[1..][k - 1] == parts[k];
    }
  }

  lemma NarrowMembers(part: seq<Event>, a: Event, b: Event, window: int)
    requires Narrow(part, window) && a in part && b in part
    ensures a.ts - b.ts <= window
  {
  }

  /** No partition into parts within the window has fewer parts than the key has entries. */
  lemma FewestEntries(key: string, items: seq<Event>, parts: seq<seq<Event>>)
    requires SameKey(items, key) && WindowOf(key) > 0 && Partitions(parts, items, WindowOf(key))
    ensures |KeyEntries(key, items)| <= |parts|
  {
    hide WindowOf, SortBy, BatchEntries, Singles, Concat;
    var window := WindowOf(key);
    if |items| < 2 {
      if |items| == 1 {
        assert items[0] in multiset(items);
        assert items[0] in Concat(parts);
        InSomePart(parts, items[0]);
      }
    } else {
      var sorted := SortBy(items, Age);
      SortBySorts(items, Age);
      SortedItems(key, items);
      AnchorsApart(key, [sorted[0]], sorted[1..], window);
      var anchors := Anchors([sorted[0]], sorted[1..], window);
      forall i | 0 <= i < |anchors|
        ensures anchors[i] in Concat(parts)
      {
        assert i > 0 ==> anchors[i] in sorted[1..];
        assert anchors[i] in sorted;
        assert anchors[i] in multiset(sorted);
        assert anchors[i] in multiset(Concat(parts));
      }
      PartsForAnchors(anchors, parts, window);
    }
  }

  /** The batches, as a partition. */
  function KeyParts(key: string, items: seq<Event>): seq<seq<Event>> {
    if items == [] then []
    else
      SortBySorts(items, Age);
      var sorted := SortBy(items, Age);
      Batches([sorted[0]], sorted[1..], WindowOf(key))
  }

  /** Each part holds the leaves of the entry at its place. */
  ghost predicate PartByPart(parts: seq<seq<Event>>, entries: seq<Entry>) {
    |parts| == |entries| && forall i | 0 <= i < |parts| :: parts[i] == LeavesOf(entries[i])
  }

  lemma {:induction false} BatchesPartition(key: string, batch: seq<Event>, rest: seq<Event>)
    requires GoodBatch(key, batch, rest)
    ensures Concat(Batches(batch, rest, WindowOf(key))) == batch + rest
    ensures PartByPart(Batches(batch, rest, WindowOf(key)), BatchEntries(key, batch, rest, WindowOf(key)))
    ensures forall i | 0 <= i < |Batches(batch, rest, WindowOf(key))| ::
              Narrow(Batches(batch, rest, WindowOf(key))[i], WindowOf(key))
    decreases |rest|
  {
    hide WindowOf, EntryOf;
    LeavesOfBatch(key, batch, WindowOf(key));
    if rest == [] {
      assert Concat([batch][1..]) == [];
    } else if batch[0].ts - rest[0].ts <= WindowOf(key) {
      BatchesPartition(key, batch + [rest[0]], rest[1..]);
      assert batch + [rest[0]] + rest[1..] == batch + rest;
    } else {
      BatchesPartition(key, [rest[0]], rest[1..]);
      assert [rest[0]] + rest[1..] == rest;
      var later := Batches([rest[0]], rest[1..], WindowOf(key));
      assert ([batch] + later)[1..] == later;
    }
  }

  lemma LeavesOfBatch(key: string, batch: seq<Event>, window: int)
    requires batch != []
    ensures LeavesOf(EntryOf(key, batch, window)) == batch
  {
  }

  lemma OneItem(key: string, items: seq<Event>)
    requires |items| == 1
    ensures PartByPart(KeyParts(key, items), KeyEntries(key, items))
  {
    hide SortBy;
    var sorted := SortBy(items, Age);
    SortBySorts(items, Age);
    assert sorted[0] in multiset(items);
  }

  predicate FitsWindow(sorted: seq<Event>, window: int)
    requires sorted != []
  {
    sorted[0].ts - sorted[|sorted| - 1].ts <= window
  }

  lemma OneWindow(key: string, items: seq<Event>)
    requires SameKey(items, key) && |items| >= 2 && WindowOf(key) > 0
    requires |SortBy(items, Age)| == |items| && FitsWindow(SortBy(items, Age), WindowOf(key))
    ensures PartByPart(KeyParts(key, items), KeyEntries(key, items))
  {
    hide SortBy, WindowOf, BatchEntries, Batches, EntryOf, LeavesOf;
    var sorted := SortBy(items, Age);
    SortBySorts(items, Age);
    SortedItems(key, items);
    OneBatch(key, [sorted[0]], sorted[1..]);
    assert [sorted[0]] + sorted[1..] == sorted;
    LeavesOfBatch(key, sorted, WindowOf(key));
  }

  /** The bound is reached: the leaves of the entries of the key are such a partition. */
  lemma FewestReached(key: string, items: seq<Event>)
    requires SameKey(items, key) && WindowOf(key) > 0
    ensures Partitions(KeyParts(key, items), items, WindowOf(key))
    ensures PartByPart(KeyParts(key, items), KeyEntries(key, items))
  {
    hide WindowOf, SortBy, BatchEntries, Batches, EntryOf, PartByPart;
    if items == [] {
      assert PartByPart([], []) by {
        NoParts();
      }
    } else {
      var sorted := SortBy(items, Age);
      SortBySorts(items, Age);
      SortedItems(key, items);
      BatchesPartition(key, [sorted[0]], sorted[1..]);
      assert [sorted[0]] + sorted[1..] == sorted;
      if |items| == 1 {
        OneItem(key, items);
      } else if sorted[0].ts - sorted[|sorted| - 1].ts <= WindowOf(key) {
        OneWindow(key, items);
      }
    }
  }

  lemma NoParts()
    ensures PartByPart([], [])
  {
  }

  /** When everything lies within the window, there is a single batch. */
  lemma {:induction false} OneBatch(key: string, batch: seq<Event>, rest: seq<Event>)
    requires GoodBatch(key, batch, rest)
    requires rest != [] ==> batch[0].ts - rest[|rest| - 1].ts <= WindowOf(key)
    ensures BatchEntries(key, batch, rest, WindowOf(key)) == [EntryOf(key, batch + rest, WindowOf(key))]
    ensures Batches(batch, rest, WindowOf(key)) == [batch + rest]
    decreases |rest|
  {
    hide WindowOf, EntryOf;
    if rest == [] {
      assert batch + rest == batch;
    } else {
      OneBatch(key, batch + [rest[0]], rest[1..]);
      assert batch + [rest[0]] + rest[1..] == batch + rest;
    }
  }

  // ---------- the entries of a key in the whole timeline ----------

  function CountOf(entries: seq<Entry>, key: string): nat {
    if entries == [] then 0 else (if KeyOf(entries[0]) == key then 1 else 0) + CountOf(entries[1..], key)
  }

  lemma {:induction false} CountAppend(a: seq<Entry>, b: seq<Entry>, key: string)
    ensures CountOf(a + b, key) == CountOf(a, key) + CountOf(b, key)
  {
    if a == [] {
      assert a + b == b;
    } else {
      assert (a + b)[1..] == a[1..] + b;
      CountAppend(a[1..], b, key);
    }
  }

  lemma CountMiddle(front: seq<Entry>, x: Entry, back: seq<Entry>, key: string)
    ensures CountOf(front + ([x] + back), key) == (if KeyOf(x) == key then 1 else 0) + CountOf(front + back, key)
  {
    hide KeyOf;
    CountAppend(front, [x] + back, key);
    assert ([x] + back)[1..] == back;
    CountAppend(front, back, key);
  }

  lemma CountWithout(b: seq<Entry>, i: nat, key: string)
    requires i < |b|
    ensures CountOf(b, key) == (if KeyOf(b[i]) == key then 1 else 0) + CountOf(b[..i] + b[i + 1..], key)
  {
    hide CountOf, KeyOf;
    assert b == b[..i] + ([b[i]] + b[i + 1..]);
    CountMiddle(b[..i], b[i], b[i + 1..], key);
  }

  lemma {:induction false} CountOfPermutation(a: seq<Entry>, b: seq<Entry>, key: string)
    requires multiset(a) == multiset(b)
    ensures CountOf(a, key) == CountOf(b, key)
  {
    hide KeyOf;
    if a != [] {
      assert a[0] in multiset(b);
      var i :| 0 <= i < |b| && b[i] == a[0];
      PermutationWithout(a, b, i);
      CountOfPermutation(a[1..], b[..i] + b[i + 1..], key);
      CountWithout(b, i, key);
    } else {
      assert |multiset(b)| == 0;
    }
  }

  predicate AllOfKey(entries: seq<Entry>, key: string) {
    forall i | 0 <= i < |entries| :: KeyOf(entries[i]) == key
  }

  lemma {:induction false} CountAllOfKey(entries: seq<Entry>, own: string, key: string)
    requires AllOfKey(entries, own)
    ensures CountOf(entries, key) == if own == key then |entries| else 0
  {
    if entries != [] {
      CountAllOfKey(entries[1..], own, key);
    }
  }

  lemma {:induction false} BatchesOfKey(key: string, batch: seq<Event>, rest: seq<Event>, window: int)
    requires batch != [] && SameKey(batch, key) && SameKey(rest, key)
    ensures AllOfKey(BatchEntries(key, batch, rest, window), key)
    decreases |rest|
  {
    if rest == [] {
    } else if batch[0].ts - rest[0].ts <= window {
      BatchesOfKey(key, batch + [rest[0]], rest[1..], window);
    } else {
      BatchesOfKey(key, [rest[0]], rest[1..], window);
    }
  }

  lemma EntriesOfKey(key: string, items: seq<Event>)
    requires SameKey(items, key)
    ensures AllOfKey(KeyEntries(key, items), key)
  {
    hide WindowOf, SortBy, BatchEntries;
    if |items| >= 2 {
      var sorted := SortBy(items, Age);
      SortBySorts(items, Age);
      SortedItems(key, items);
      BatchesOfKey(key, [sorted[0]], sorted[1..], WindowOf(key));
    }
  }

  lemma {:induction false} CountAllEntries(keys: seq<string>, events: seq<Event>, key: string)
    requires Distinct(keys)
    ensures CountOf(AllEntries(keys, events), key)
         == if key in keys then |KeyEntries(key, Items(events, key))| else 0
  {
    hide KeyEntries, Items;
    if keys != [] {
      var front, last := keys[..|keys| - 1], keys[|keys| - 1];
      assert keys == front + [last] && last !in front;
      CountAllEntries(front, events, key);
      ItemsSameKey(events, last);
      EntriesOfKey(last, Items(events, last));
      CountAllOfKey(KeyEntries(last, Items(events, last)), last, key);
      CountAppend(AllEntries(front, events), KeyEntries(last, Items(events, last)), key);
    }
  }

  lemma EntriesInTimeline(events: seq<Event>, key: string)
    requires key != ""
    ensures CountOf(Grouped(events), key) == |KeyEntries(key, Items(events, key))|
  {
    hide SortBy, AllEntries, KeyOrder, Items;
    var keys := KeyOrder(events);
    var before := Singles(Items(events, "")) + AllEntries(keys, events);
    SortBySorts(before, EntryAge);
    CountOfPermutation(Grouped(events), before, key);
    CountAppend(Singles(Items(events, "")), AllEntries(keys, events), key);
    ItemsSameKey(events, "");
    CountAllOfKey(Singles(Items(events, "")), "", key);
    KeyOrderFacts(events);
    CountAllEntries(keys, events, key);
    if key !in keys {
      NewKey(events, key);
    }
  }

  /** Main result: the timeline has as few entries for a grouped key as any partition of that
      key's events into parts within the window, and that number is reached. */
  lemma GroupingMinimal(events: seq<Event>, key: string, parts: seq<seq<Event>>)
    requires key != "" && WindowOf(key) > 0 && Partitions(parts, Items(events, key), WindowOf(key))
    ensures CountOf(Grouped(events), key) <= |parts|
    ensures Partitions(KeyParts(key, Items(events, key)), Items(events, key), WindowOf(key))
    ensures CountOf(Grouped(events), key) == |KeyParts(key, Items(events, key))|
  {
    hide WindowOf, Partitions, Grouped, KeyEntries, KeyParts, Items, LeavesOf;
    ItemsSameKey(events, key);
    EntriesInTimeline(events, key);
    FewestEntries(key, Items(events, key), parts);
    FewestReached(key, Items(events, key));
  }
}
