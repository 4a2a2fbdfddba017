/** The retention pass over agent runs (`applyRunRetention` in src/agent-runs.ts). */
module RunRetention {
  import opened Keyed
  import opened Sorting
  import opened UtcDate
  import opened Wrappers

  datatype RunStatus = Idle | Working | Blocked | WaitingReview | Completed | Failed | Cancelled | Archived

  datatype RunRow = RunRow(id: string, agent: string, status: RunStatus, startedAt: int, updatedAt: int)
  datatype EventRow = EventRow(id: string, runId: Option<string>)
  datatype Db = Db(runs: seq<RunRow>, events: seq<EventRow>)

  datatype Policy = Policy(maxAgeDays: int, maxCompletedRuns: int, deleteArchived: bool)

  predicate Terminal(r: RunRow) {
    r.status in {Completed, Failed, Cancelled}
  }

  /** An empty agent name is no filter. */
  predicate InScope(r: RunRow, agent: string) {
    agent == "" || r.agent == agent
  }

  function Cutoff(p: Policy, now: int): int {
    now - p.maxAgeDays * MS_PER_DAY
  }

  // ---------- runs are archived or deleted ----------

  function LeftEvents(events: seq<EventRow>, gone: set<string>): seq<EventRow> {
    if events == [] then []
    else
      var e, rest := events[0], LeftEvents(events[1..], gone);
      if e.runId.Some? && e.runId.value in gone then rest else [e] + rest
  }

  function IdOf(r: RunRow): string { r.id }

  function ArchivedRuns(runs: seq<RunRow>, gone: set<string>, now: int): (archived: seq<RunRow>)
    ensures |archived| == |runs|
  {
    seq(|runs|, i requires 0 <= i < |runs| =>
      if runs[i].id in gone then runs[i].(status := Archived, updatedAt := now) else runs[i])
  }

  function Drop(db: Db, gone: set<string>, delete: bool, now: int): Db {
    if delete then Db(Without(db.runs, gone, IdOf), LeftEvents(db.events, gone))
    else db.(runs := ArchivedRuns(db.runs, gone, now))
  }

  // ---------- the two queries ----------

  function TerminalIn(runs: seq<RunRow>, agent: string): seq<RunRow> {
    if runs == [] then []
    else if Terminal(runs[0]) && InScope(runs[0], agent) then [runs[0]] + TerminalIn(runs[1..], agent)
    else TerminalIn(runs[1..], agent)
  }

  function TerminalOf(runs: seq<RunRow>, agent: string): seq<RunRow> {
    if runs == [] then []
    else if Terminal(runs[0]) && runs[0].agent == agent then [runs[0]] + TerminalOf(runs[1..], agent)
    else TerminalOf(runs[1..], agent)
  }

  function Before(rows: seq<RunRow>, cutoff: int): seq<RunRow> {
    if rows == [] then []
    else if rows[0].startedAt < cutoff then [rows[0]] + Before(rows[1..], cutoff)
    else Before(rows[1..], cutoff)
  }

  function StartedAt(r: RunRow): int { r.startedAt }

  function Newness(r: RunRow): int { -r.startedAt }

  function ExpiredIds(runs: seq<RunRow>, agent: string, cutoff: int): seq<string> {
    Keys(SortBy(Before(TerminalIn(runs, agent), cutoff), StartedAt), IdOf)
  }

  /** The rows beyond the first `max`; a negative `max` counts from the end, as `slice` does. */
  function Beyond(rows: seq<RunRow>, max: int): seq<RunRow> {
    if |rows| <= max then []
    else if 0 <= max then rows[max..]
    else if -max <= |rows| then rows[|rows| + max..]
    else rows
  }

  /** The ids of the oldest of an agent's terminal runs. */
  function ExcessIds(rows: seq<RunRow>, max: int): seq<string> {
    Keys(Beyond(SortBy(rows, Newness), max), IdOf)
  }

  function Agents(runs: seq<RunRow>): seq<string> {
    if runs == [] then []
    else
      var front := Agents(runs[..|runs| - 1]);
      if runs[|runs| - 1].agent in front then front else front + [runs[|runs| - 1].agent]
  }

  // ---------- the whole pass ----------

  /** The database, the runs dropped and the events deleted so far. */
  datatype Pass = Pass(db: Db, dropped: nat, eventsDeleted: nat)

  function DropPass(p: Pass, ids: seq<string>, delete: bool, now: int): Pass {
    if ids == [] then p
    else
      var q := DropPass(p, ids[..|ids| - 1], delete, now);
      var db := Drop(q.db, {ids[|ids| - 1]}, delete, now);
      DropShrinks(q.db, {ids[|ids| - 1]}, delete, now);
      Pass(db, q.dropped + 1, q.eventsDeleted + (|q.db.events| - |db.events|))
  }

  function TrimAgents(p: Pass, agents: seq<string>, policy: Policy, now: int): Pass {
    if agents == [] then p
    else
      var q := TrimAgents(p, agents[..|agents| - 1], policy, now);
      var rows := TerminalOf(q.db.runs, agents[|agents| - 1]);
      DropPass(q, ExcessIds(rows, policy.maxCompletedRuns), policy.deleteArchived, now)
  }

  function AgentsInScope(runs: seq<RunRow>, agent: string): seq<string> {
    if agent != "" then [agent] else Agents(runs)
  }

  function Retained(db: Db, policy: Policy, agent: string, now: int): Pass {
    var p := DropPass(Pass(db, 0, 0), ExpiredIds(db.runs, agent, Cutoff(policy, now)), policy.deleteArchived, now);
    TrimAgents(p, AgentsInScope(p.db.runs, agent), policy, now)
  }

  datatype RetentionResult = RetentionResult(archived: nat, deleted: nat, eventsDeleted: nat, dryRun: bool)

  function ResultOf(p: Pass, policy: Policy): RetentionResult {
    if policy.deleteArchived then RetentionResult(0, p.dropped, p.eventsDeleted, false)
    else RetentionResult(p.dropped, 0, p.eventsDeleted, false)
  }

  class RunStore {
    var db: Db

    constructor (db: Db)
      ensures this.db == db
    {
      this.db := db;
    }

    method DropRuns(ids: seq<string>, delete: bool, now: int) returns (eventsDeleted: nat)
      modifies this
      ensures Pass(db, |ids|, eventsDeleted) == DropPass(Pass(old(db), 0, 0), ids, delete, now)
    {
      hide Drop;
      eventsDeleted := 0;
      for i := 0 to |ids|
        invariant Pass(db, i, eventsDeleted) == DropPass(Pass(old(db), 0, 0), ids[..i], delete, now)
      {
        assert ids[..i + 1][..i] == ids[..i];
        DropShrinks(db, {ids[i]}, delete, now);
        var next := Drop(db, {ids[i]}, delete, now);
        eventsDeleted := eventsDeleted + (|db.events| - |next.events|);
        db := next;
      }
      assert ids[..|ids|] == ids;
    }

    method ApplyRunRetention(policy: Policy, agent: string, dryRun: bool, now: int) returns (r: RetentionResult)
      modifies this
      ensures dryRun ==> db == old(db)
      ensures dryRun ==> r == RetentionResult(|ExpiredIds(old(db).runs, agent, Cutoff(policy, now))|, 0, 0, true)
      ensures !dryRun ==> db == Retained(old(db), policy, agent, now).db
      ensures !dryRun ==> r == ResultOf(Retained(old(db), policy, agent, now), policy)
      ensures !dryRun ==>
          var p := Retained(old(db), policy, agent, now);
          !r.dryRun && r.eventsDeleted == p.eventsDeleted
          && (if policy.deleteArchived then r.archived == 0 && r.deleted == p.dropped
              else r.archived == p.dropped && r.deleted == 0)
    {
      hide DropPass, ExcessIds, ExpiredIds;
      var rows := ExpiredIds(db.runs, agent, Cutoff(policy, now));
      if dryRun {
        return RetentionResult(|rows|, 0, 0, true);
      }
      var dropped: nat := |rows|;
      var eventsDeleted := DropRuns(rows, policy.deleteArchived, now);
      ghost var p := Pass(db, dropped, eventsDeleted);
      var agents := AgentsInScope(db.runs, agent);
      for i := 0 to |agents|
        invariant Pass(db, dropped, eventsDeleted) == TrimAgents(p, agents[..i], policy, now)
      {
        assert agents[..i + 1][..i] == agents[..i];
        var excess := ExcessIds(TerminalOf(db.runs, agents[i]), policy.maxCompletedRuns);
        DropPassOffset(Pass(db, dropped, eventsDeleted), excess, policy.deleteArchived, now);
        var more := DropRuns(excess, policy.deleteArchived, now);
        dropped, eventsDeleted := dropped + |excess|, eventsDeleted + more;
      }
      assert agents[..|agents|] == agents;
      r := ResultOf(Pass(db, dropped, eventsDeleted), policy);
    }
  }

  lemma {:induction false} EventsShrink(events: seq<EventRow>, gone: set<string>)
    ensures |LeftEvents(events, gone)| <= |events|
  {
    if events != [] {
      EventsShrink(events[1..], gone);
    }
  }

  lemma DropShrinks(db: Db, gone: set<string>, delete: bool, now: int)
    ensures |Drop(db, gone, delete, now).events| <= |db.events|
  {
    EventsShrink(db.events, gone);
  }

  ghost predicate Offset(p: Pass, q: Pass, r: Pass) {
    r == Pass(q.db, p.dropped + q.dropped, p.eventsDeleted + q.eventsDeleted)
  }

  /** The counters of a pass only add up. */
  lemma {:induction false} DropPassOffset(p: Pass, ids: seq<string>, delete: bool, now: int)
    ensures DropPass(Pass(p.db, 0, 0), ids, delete, now).dropped == |ids|
    ensures Offset(p, DropPass(Pass(p.db, 0, 0), ids, delete, now), DropPass(p, ids, delete, now))
  {
    hide Drop;
    if ids != [] {
      DropPassOffset(p, ids[..|ids| - 1], delete, now);
      DropShrinks(DropPass(p, ids[..|ids| - 1], delete, now).db, {ids[|ids| - 1]}, delete, now);
    }
  }

  // ---------- the drops of a pass, taken together ----------

  lemma {:induction false} LeftEventsTwice(events: seq<EventRow>, a: set<string>, b: set<string>)
    ensures LeftEvents(LeftEvents(events, a), b) == LeftEvents(events, a + b)
  {
    if events != [] {
      LeftEventsTwice(events[1..], a, b);
      assert ([events[0]] + LeftEvents(events[1..], a))[1..] == LeftEvents(events[1..], a);
    }
  }

  lemma DropTwice(db: Db, a: set<string>, b: set<string>, delete: bool, now: int)
    ensures Drop(Drop(db, a, delete, now), b, delete, now) == Drop(db, a + b, delete, now)
  {
    hide Without, LeftEvents;
    WithoutTwice(db.runs, a, b, IdOf);
    LeftEventsTwice(db.events, a, b);
  }

  lemma {:induction false} DropNothing(db: Db, delete: bool, now: int)
    ensures Drop(db, {}, delete, now) == db
    decreases |db.runs| + |db.events|
  {
    WithoutNone(db.runs, IdOf);
    LeftEventsNothing(db.events);
  }

  lemma {:induction false} LeftEventsNothing(events: seq<EventRow>)
    ensures LeftEvents(events, {}) == events
  {
    if events != [] {
      LeftEventsNothing(events[1..]);
    }
  }

  /** A pass whose database is `db` without the runs `gone`. */
  ghost predicate Dropped(p: Pass, db: Db, gone: set<string>, delete: bool, now: int) {
    p.db == Drop(db, gone, delete, now) && p.dropped == |gone| && p.eventsDeleted == |db.events| - |p.db.events|
  }

  lemma {:induction false} DropPassDrops(p: Pass, db: Db, gone: set<string>, ids: seq<string>, delete: bool, now: int)
    requires Dropped(p, db, gone, delete, now)
    requires Distinct(ids) && gone !! SetOf(ids)
    ensures Dropped(DropPass(p, ids, delete, now), db, gone + SetOf(ids), delete, now)
  {
    hide Drop, SetOf, Distinct;
    if ids == [] {
      NoKeys<string>();
      assert gone + SetOf(ids) == gone;
    } else {
      var front, last := ids[..|ids| - 1], ids[|ids| - 1];
      LastKey(ids);
      DropPassDrops(p, db, gone, front, delete, now);
      DropTwice(db, gone + SetOf(front), {last}, delete, now);
      assert gone + SetOf(ids) == gone + SetOf(front) + {last};
      DropShrinks(DropPass(p, front, delete, now).db, {last}, delete, now);
    }
  }

  // ---------- the queries ----------

  lemma {:induction false} FiltersNarrow(rows: seq<RunRow>, agent: string, cutoff: int, gone: set<string>)
    ensures multiset(Without(rows, gone, IdOf)) <= multiset(rows)
    ensures multiset(TerminalIn(rows, agent)) <= multiset(rows)
    ensures multiset(TerminalOf(rows, agent)) <= multiset(rows)
    ensures multiset(Before(rows, cutoff)) <= multiset(rows)
    ensures multiset(Since(rows, cutoff)) <= multiset(rows)
  {
    if rows != [] {
      assert rows == [rows[0]] + rows[1..];
      FiltersNarrow(rows[1..], agent, cutoff, gone);
    }
  }

  lemma {:induction false} FilterMembers(rows: seq<RunRow>, agent: string, cutoff: int, gone: set<string>)
    ensures forall r :: r in Without(rows, gone, IdOf) <==> r in rows && r.id !in gone
    ensures forall r :: r in TerminalIn(rows, agent) <==> r in rows && Terminal(r) && InScope(r, agent)
    ensures forall r :: r in TerminalOf(rows, agent) <==> r in rows && Terminal(r) && r.agent == agent
    ensures forall r :: r in Before(rows, cutoff) <==> r in rows && r.startedAt < cutoff
    ensures forall r :: r in Since(rows, cutoff) <==> r in rows && r.startedAt >= cutoff
  {
    if rows != [] {
      assert rows == [rows[0]] + rows[1..];
      FilterMembers(rows[1..], agent, cutoff, gone);
    }
  }

  function Since(rows: seq<RunRow>, cutoff: int): seq<RunRow> {
    if rows == [] then []
    else if rows[0].startedAt >= cutoff then [rows[0]] + Since(rows[1..], cutoff)
    else Since(rows[1..], cutoff)
  }

  lemma {:induction false} LeftAreYoung(rows: seq<RunRow>, gone: set<string>, cutoff: int)
    requires forall i | 0 <= i < |rows| :: rows[i].id in gone <==> rows[i].startedAt < cutoff
    ensures Without(rows, gone, IdOf) == Since(rows, cutoff)
  {
    if rows != [] {
      LeftAreYoung(rows[1..], gone, cutoff);
    }
  }

  /** The runs of a query after a drop are those of the query before it that were not dropped. */
  lemma {:induction false} QueriesAfterLeaving(runs: seq<RunRow>, gone: set<string>, agent: string)
    ensures TerminalOf(Without(runs, gone, IdOf), agent) == Without(TerminalOf(runs, agent), gone, IdOf)
    ensures TerminalIn(Without(runs, gone, IdOf), agent) == Without(TerminalIn(runs, agent), gone, IdOf)
  {
    if runs != [] {
      QueriesAfterLeaving(runs[1..], gone, agent);
    }
  }

  lemma {:induction false} QueriesAfterArchiving(runs: seq<RunRow>, gone: set<string>, now: int, agent: string)
    ensures TerminalOf(ArchivedRuns(runs, gone, now), agent) == Without(TerminalOf(runs, agent), gone, IdOf)
    ensures TerminalIn(ArchivedRuns(runs, gone, now), agent) == Without(TerminalIn(runs, agent), gone, IdOf)
  {
    if runs != [] {
      assert ArchivedRuns(runs, gone, now)[1..] == ArchivedRuns(runs[1..], gone, now);
      QueriesAfterArchiving(runs[1..], gone, now, agent);
    }
  }

  lemma QueriesAfterDrop(db: Db, gone: set<string>, delete: bool, now: int, agent: string)
    ensures TerminalOf(Drop(db, gone, delete, now).runs, agent) == Without(TerminalOf(db.runs, agent), gone, IdOf)
    ensures TerminalIn(Drop(db, gone, delete, now).runs, agent) == Without(TerminalIn(db.runs, agent), gone, IdOf)
  {
    hide Without, LeftEvents, TerminalOf, TerminalIn, ArchivedRuns;
    QueriesAfterLeaving(db.runs, gone, agent);
    QueriesAfterArchiving(db.runs, gone, now, agent);
  }

  // ---------- the newest runs of one agent ----------

  /** How many of `n` rows remain. */
  function KeptCount(n: nat, max: int): (k: nat)
    ensures k <= n
  {
    if 0 <= max then if n <= max then n else max
    else if n + max <= 0 then 0
    else n + max
  }

  /** No row that was dropped is newer than one that was kept. */
  ghost predicate NewestKept(rows: seq<RunRow>, kept: seq<RunRow>) {
    forall k, x | k in kept && x in rows && x !in kept :: k.startedAt >= x.startedAt
  }

  lemma BeyondIsTail(rows: seq<RunRow>, max: int)
    ensures Beyond(rows, max) == rows[KeptCount(|rows|, max)..]
  {
  }

  lemma ExcessIsDistinct(rows: seq<RunRow>, max: int)
    requires UniqueKeys(rows, IdOf)
    ensures Distinct(ExcessIds(rows, max)) && SetOf(ExcessIds(rows, max)) <= SetOf(Keys(rows, IdOf))
    ensures |ExcessIds(rows, max)| == |rows| - KeptCount(|rows|, max)
  {
    hide SortBy, Sorted;
    var sorted := SortBy(rows, Newness);
    SortedUnique(rows, IdOf, Newness);
    BeyondIsTail(sorted, max);
    assert ExcessIds(rows, max) == Keys(sorted, IdOf)[KeptCount(|rows|, max)..];
  }

  lemma KeptComeFirst(rows: seq<RunRow>, max: int, k: RunRow, x: RunRow)
    requires UniqueKeys(rows, IdOf) && k in rows && x in rows
    requires k.id !in SetOf(ExcessIds(rows, max)) && x.id in SetOf(ExcessIds(rows, max))
    ensures k.startedAt >= x.startedAt
  {
    hide SortBy, Sorted, Distinct;
    SortedUnique(rows, IdOf, Newness) by { assert UniqueKeys(rows, IdOf); }
    BeyondIsTail(SortBy(rows, Newness), max);
    assert SortBy(rows, Newness)[KeptCount(|rows|, max)..] == SortBy(rows, Newness)[KeptCount(|rows|, max)..|rows|];
    RankOrders(SortBy(rows, Newness), Newness, KeptCount(|rows|, max), |rows|, IdOf, k, x);
  }

  lemma ExcessFacts(rows: seq<RunRow>, max: int)
    requires UniqueKeys(rows, IdOf)
    ensures |Without(rows, SetOf(ExcessIds(rows, max)), IdOf)| == KeptCount(|rows|, max)
    ensures NewestKept(rows, Without(rows, SetOf(ExcessIds(rows, max)), IdOf))
  {
    hide Without, ExcessIds;
    var gone := SetOf(ExcessIds(rows, max));
    ExcessIsDistinct(rows, max);
    DistinctSize(ExcessIds(rows, max));
    WithoutCount(rows, gone, IdOf);
    var kept := Without(rows, gone, IdOf);
    FilterMembers(rows, "", 0, gone);
    forall k, x | k in kept && x in rows && x !in kept
      ensures k.startedAt >= x.startedAt
    {
      KeptComeFirst(rows, max, k, x);
    }
  }

  // ---------- the runs that the whole pass drops ----------

  function Young(runs: seq<RunRow>, agent: string, cutoff: int): seq<RunRow> {
    Since(TerminalOf(runs, agent), cutoff)
  }

  ghost function GoneIds(runs: seq<RunRow>, policy: Policy, agent: string, now: int, agents: seq<string>): set<string> {
    if agents == [] then SetOf(ExpiredIds(runs, agent, Cutoff(policy, now)))
    else
      var last := agents[|agents| - 1];
      GoneIds(runs, policy, agent, now, agents[..|agents| - 1])
        + SetOf(ExcessIds(Young(runs, last, Cutoff(policy, now)), policy.maxCompletedRuns))
  }

  /** The ids that a pass over the agents `agents` drops belong to runs in scope that are too old or of one of them. */
  ghost predicate GoneProperly(runs: seq<RunRow>, agent: string, cutoff: int, agents: seq<string>, gone: set<string>) {
    && gone <= SetOf(Keys(runs, IdOf))
    && (forall r | r in runs && r.id in gone :: Terminal(r) && InScope(r, agent) && (r.startedAt < cutoff || r.agent in agents))
    && (forall r | r in runs && Terminal(r) && InScope(r, agent) && r.startedAt < cutoff :: r.id in gone)
  }

  lemma FilteredUnique(runs: seq<RunRow>, agent: string, cutoff: int)
    requires UniqueKeys(runs, IdOf)
    ensures UniqueKeys(Before(TerminalIn(runs, agent), cutoff), IdOf) && UniqueKeys(Young(runs, agent, cutoff), IdOf)
    ensures UniqueKeys(TerminalIn(runs, agent), IdOf)
  {
    hide TerminalIn, TerminalOf, Before, Since;
    FiltersNarrow(runs, agent, cutoff, {});
    FiltersNarrow(TerminalIn(runs, agent), agent, cutoff, {});
    FiltersNarrow(TerminalOf(runs, agent), agent, cutoff, {});
    SubUnique(TerminalIn(runs, agent), runs, IdOf);
    SubUnique(Before(TerminalIn(runs, agent), cutoff), runs, IdOf);
    SubUnique(Young(runs, agent, cutoff), runs, IdOf);
  }

  lemma ExpiredGone(runs: seq<RunRow>, agent: string, cutoff: int)
    requires UniqueKeys(runs, IdOf)
    ensures Distinct(ExpiredIds(runs, agent, cutoff))
    ensures GoneProperly(runs, agent, cutoff, [], SetOf(ExpiredIds(runs, agent, cutoff)))
  {
    hide TerminalIn, Before, SortBy, Sorted, Distinct, UniqueKeys, SetOf, Keys;
    var rows := Before(TerminalIn(runs, agent), cutoff);
    FilteredUnique(runs, agent, cutoff);
    SortedUnique(rows, IdOf, StartedAt);
    SortedDistinct(rows, StartedAt);
    FilterMembers(runs, agent, cutoff, {});
    FilterMembers(TerminalIn(runs, agent), agent, cutoff, {});
    SameKeys(rows, runs, IdOf);
    KeysIdentify(rows, runs, IdOf);
  }

  lemma SortedDistinct(rows: seq<RunRow>, order: RunRow -> int)
    requires UniqueKeys(SortBy(rows, order), IdOf)
    ensures Distinct(Keys(SortBy(rows, order), IdOf))
  {
  }

  lemma YoungMembers(runs: seq<RunRow>, a: string, cutoff: int)
    ensures forall r ::
        r in Young(runs, a, cutoff) <==> r in runs && Terminal(r) && r.agent == a && r.startedAt >= cutoff
  {
    hide TerminalOf, Since;
    FilterMembers(runs, a, cutoff, {});
    FilterMembers(TerminalOf(runs, a), a, cutoff, {});
  }

  /** What is left of an agent's terminal runs, before its turn, are the young ones. */
  lemma YoungAreLeft(runs: seq<RunRow>, agent: string, cutoff: int, agents: seq<string>, gone: set<string>, a: string)
    requires (agent == "" || a == agent) && a !in agents && GoneProperly(runs, agent, cutoff, agents, gone)
    ensures Without(TerminalOf(runs, a), gone, IdOf) == Young(runs, a, cutoff)
  {
    hide TerminalOf, Since, Without, SetOf, Keys;
    var mine := TerminalOf(runs, a);
    FilterMembers(runs, a, cutoff, {});
    forall i | 0 <= i < |mine|
      ensures mine[i].id in gone <==> mine[i].startedAt < cutoff
    {
      assert mine[i] in mine;
    }
    LeftAreYoung(mine, gone, cutoff);
  }

  lemma ExcessGone(runs: seq<RunRow>, agent: string, cutoff: int, agents: seq<string>, gone: set<string>, a: string,
      max: int)
    requires UniqueKeys(runs, IdOf) && (agent == "" || a == agent) && a !in agents
    requires GoneProperly(runs, agent, cutoff, agents, gone)
    ensures Distinct(ExcessIds(Young(runs, a, cutoff), max))
    ensures gone !! SetOf(ExcessIds(Young(runs, a, cutoff), max))
    ensures GoneProperly(runs, agent, cutoff, agents + [a], gone + SetOf(ExcessIds(Young(runs, a, cutoff), max)))
    ensures Without(TerminalOf(runs, a), gone, IdOf) == Young(runs, a, cutoff)
  {
    hide TerminalOf, Young, ExcessIds, Distinct, Without, SetOf, Keys, UniqueKeys;
    var rows := Young(runs, a, cutoff);
    FilteredUnique(runs, a, cutoff);
    ExcessIsDistinct(rows, max);
    YoungAreLeft(runs, agent, cutoff, agents, gone, a);
    YoungMembers(runs, a, cutoff);
    SameKeys(rows, runs, IdOf);
    KeysIdentify(rows, runs, IdOf);
    forall id | id in SetOf(Keys(rows, IdOf))
      ensures id !in gone
    {
      var s :| s in rows && s.id == id;
    }
  }

  // ---------- the whole pass, in one drop ----------

  ghost predicate AgentsListed(agents: seq<string>, agent: string) {
    Distinct(agents) && forall a | a in agents :: agent == "" || a == agent
  }

  lemma NoneListed(agent: string)
    ensures AgentsListed([], agent)
  {
  }

  lemma FrontListed(agents: seq<string>, agent: string)
    requires agents != [] && AgentsListed(agents, agent)
    ensures AgentsListed(agents[..|agents| - 1], agent)
  {
    var front := agents[..|agents| - 1];
    forall i, j | 0 <= i < j < |front|
      ensures front[i] != front[j]
    {
      assert agents[i] != agents[j];
    }
    assert forall a | a in front :: a in agents;
  }

  lemma {:induction false} GoneIsProper(runs: seq<RunRow>, policy: Policy, agent: string, now: int, agents: seq<string>)
    requires UniqueKeys(runs, IdOf) && AgentsListed(agents, agent)
    ensures GoneProperly(runs, agent, Cutoff(policy, now), agents, GoneIds(runs, policy, agent, now, agents))
  {
    hide GoneProperly, ExcessIds, Young, ExpiredIds, UniqueKeys, TerminalOf;
    if agents == [] {
      ExpiredGone(runs, agent, Cutoff(policy, now));
    } else {
      var front, a := agents[..|agents| - 1], agents[|agents| - 1];
      assert a in agents && forall b | b in front :: b in agents;
      GoneIsProper(runs, policy, agent, now, front);
      ExcessGone(runs, agent, Cutoff(policy, now), front, GoneIds(runs, policy, agent, now, front), a, policy.maxCompletedRuns);
      assert front + [a] == agents;
    }
  }

  lemma {:induction false} TrimDrops(p: Pass, db: Db, policy: Policy, agent: string, now: int, agents: seq<string>)
    requires UniqueKeys(db.runs, IdOf) && AgentsListed(agents, agent)
    requires Dropped(p, db, GoneIds(db.runs, policy, agent, now, []), policy.deleteArchived, now)
    ensures Dropped(TrimAgents(p, agents, policy, now), db, GoneIds(db.runs, policy, agent, now, agents), policy.deleteArchived, now)
  {
    hide GoneProperly, TerminalOf, ExcessIds, Drop, Young, DropPass, ExpiredIds, UniqueKeys;
    if agents != [] {
      var front, a := agents[..|agents| - 1], agents[|agents| - 1];
      var gone := GoneIds(db.runs, policy, agent, now, front);
      assert a in agents && forall b | b in front :: b in agents;
      TrimDrops(p, db, policy, agent, now, front);
      GoneIsProper(db.runs, policy, agent, now, front);
      ExcessGone(db.runs, agent, Cutoff(policy, now), front, gone, a, policy.maxCompletedRuns);
      QueriesAfterDrop(db, gone, policy.deleteArchived, now, a);
      DropPassDrops(TrimAgents(p, front, policy, now), db, gone,
        ExcessIds(Young(db.runs, a, Cutoff(policy, now)), policy.maxCompletedRuns), policy.deleteArchived, now);
    }
  }

  lemma {:induction false} AgentsAreListed(runs: seq<RunRow>)
    ensures AgentsListed(Agents(runs), "")
    ensures forall r | r in runs :: r.agent in Agents(runs)
  {
    if runs != [] {
      var front, last := runs[..|runs| - 1], runs[|runs| - 1];
      AgentsAreListed(front);
      assert runs == front + [last];
    }
  }

  /** The database after the expired runs are gone. */
  function AfterExpiry(db: Db, policy: Policy, agent: string, now: int): Pass {
    DropPass(Pass(db, 0, 0), ExpiredIds(db.runs, agent, Cutoff(policy, now)), policy.deleteArchived, now)
  }

  /** The runs that the pass drops. */
  ghost function RetentionGone(db: Db, policy: Policy, agent: string, now: int): set<string> {
    GoneIds(db.runs, policy, agent, now, AgentsInScope(AfterExpiry(db, policy, agent, now).db.runs, agent))
  }

  lemma RetentionDrops(db: Db, policy: Policy, agent: string, now: int)
    requires UniqueKeys(db.runs, IdOf)
    ensures var gone := RetentionGone(db, policy, agent, now);
            Dropped(Retained(db, policy, agent, now), db, gone, policy.deleteArchived, now)
    ensures AgentsListed(AgentsInScope(AfterExpiry(db, policy, agent, now).db.runs, agent), agent)
    ensures Dropped(AfterExpiry(db, policy, agent, now), db, GoneIds(db.runs, policy, agent, now, []), policy.deleteArchived, now)
  {
    hide Drop, ExpiredIds, TrimAgents, Agents, UniqueKeys, DropPass;
    var p := AfterExpiry(db, policy, agent, now);
    ExpiredGone(db.runs, agent, Cutoff(policy, now));
    DropNothing(db, policy.deleteArchived, now);
    DropPassDrops(Pass(db, 0, 0), db, {}, ExpiredIds(db.runs, agent, Cutoff(policy, now)), policy.deleteArchived, now);
    assert {} + SetOf(ExpiredIds(db.runs, agent, Cutoff(policy, now))) == GoneIds(db.runs, policy, agent, now, []);
    AgentsAreListed(p.db.runs);
    TrimDrops(p, db, policy, agent, now, AgentsInScope(p.db.runs, agent));
  }

  // ---------- what the pass leaves ----------

  /** Runs that are not terminal or not in scope stay as they are; every other row is an old row or an archived one. */
  ghost predicate Untouched(before: seq<RunRow>, after: seq<RunRow>, agent: string, now: int) {
    && (forall r | r in before && !(Terminal(r) && InScope(r, agent)) :: r in after)
    && (forall r | r in after ::
          r in before || exists o :: o in before && Terminal(o) && InScope(o, agent) && r == o.(status := Archived, updatedAt := now))
  }

  /** The events that go are those of deleted runs, and no others. */
  ghost predicate EventsOfRuns(db: Db, after: Db, gone: set<string>) {
    && (forall e | e in db.events && !(e.runId.Some? && e.runId.value in gone) :: e in after.events)
    && (forall e | e in after.events :: e in db.events && !(e.runId.Some? && e.runId.value in gone))
  }

  lemma {:induction false} LeftEventMembers(events: seq<EventRow>, gone: set<string>)
    ensures forall e :: e in LeftEvents(events, gone) <==> e in events && !(e.runId.Some? && e.runId.value in gone)
  {
    if events != [] {
      assert events == [events[0]] + events[1..];
      LeftEventMembers(events[1..], gone);
    }
  }

  lemma DropUntouched(db: Db, gone: set<string>, agent: string, cutoff: int, agents: seq<string>, delete: bool,
      now: int)
    requires GoneProperly(db.runs, agent, cutoff, agents, gone)
    ensures Untouched(db.runs, Drop(db, gone, delete, now).runs, agent, now)
  {
    hide Without, LeftEvents, InScope;
    var runs := db.runs;
    if delete {
      FilterMembers(runs, agent, cutoff, gone);
    } else {
      var after := ArchivedRuns(runs, gone, now);
      forall r | r in runs && !(Terminal(r) && InScope(r, agent))
        ensures r in after
      {
        var i :| 0 <= i < |runs| && runs[i] == r;
        assert after[i] == r;
      }
      forall r | r in after
        ensures r in runs || exists o ::
            o in runs && Terminal(o) && InScope(o, agent) && r == o.(status := Archived, updatedAt := now)
      {
        var i :| 0 <= i < |after| && after[i] == r;
        assert runs[i] in runs;
      }
    }
  }

  /** Exactly the terminal runs in scope that are gone were dropped; nothing else was touched. */
  lemma RetentionTouchesTerminalRunsOnly(db: Db, policy: Policy, agent: string, now: int)
    requires UniqueKeys(db.runs, IdOf)
    ensures var p := Retained(db, policy, agent, now); Untouched(db.runs, p.db.runs, agent, now)
    ensures var p := Retained(db, policy, agent, now);
            p.dropped == |TerminalIn(db.runs, agent)| - |TerminalIn(p.db.runs, agent)|
    ensures var p := Retained(db, policy, agent, now); p.eventsDeleted == |db.events| - |p.db.events|
    ensures !policy.deleteArchived ==> Retained(db, policy, agent, now).db.events == db.events
    ensures policy.deleteArchived ==>
        EventsOfRuns(db, Retained(db, policy, agent, now).db, RetentionGone(db, policy, agent, now))
    ensures policy.deleteArchived ==> forall r | r in db.runs ::
        r in Retained(db, policy, agent, now).db.runs <==> r.id !in RetentionGone(db, policy, agent, now)
  {
    hide Without, LeftEvents, Retained, GoneIds, TerminalIn, TerminalOf, Untouched, Agents, Distinct, DropPass,
      AgentsListed;
    var gone := RetentionGone(db, policy, agent, now);
    var agents := AgentsInScope(AfterExpiry(db, policy, agent, now).db.runs, agent);
    RetentionDrops(db, policy, agent, now);
    GoneIsProper(db.runs, policy, agent, now, agents);
    DropUntouched(db, gone, agent, Cutoff(policy, now), agents, policy.deleteArchived, now);
    QueriesAfterDrop(db, gone, policy.deleteArchived, now, agent);
    FilteredUnique(db.runs, agent, 0);
    FilterMembers(db.runs, agent, 0, gone);
    SameKeys(TerminalIn(db.runs, agent), db.runs, IdOf);
    assert gone <= SetOf(Keys(TerminalIn(db.runs, agent), IdOf)) by {
      SameKeys(db.runs, db.runs, IdOf);
    }
    WithoutCount(TerminalIn(db.runs, agent), gone, IdOf);
    LeftEventMembers(db.events, gone);
  }

  /** Every agent in scope keeps exactly its newest terminal runs, none older than the cutoff. */
  ghost predicate KeepsNewest(before: seq<RunRow>, after: seq<RunRow>, policy: Policy, now: int, a: string) {
    var young, kept := Young(before, a, Cutoff(policy, now)), TerminalOf(after, a);
    && |kept| == KeptCount(|young|, policy.maxCompletedRuns)
    && (forall r | r in kept :: r in young)
    && NewestKept(young, kept)
  }

  /** The excess runs of one agent are no runs of another. */
  lemma OthersUnaffected(runs: seq<RunRow>, cutoff: int, max: int, a: string, b: string, gone: set<string>)
    requires UniqueKeys(runs, IdOf) && a != b
    ensures var ex := SetOf(ExcessIds(Young(runs, b, cutoff), max));
            Without(TerminalOf(runs, a), gone + ex, IdOf) == Without(TerminalOf(runs, a), gone, IdOf)
  {
    hide TerminalOf, Since, ExcessIds, Distinct, Without;
    var rows, ex := Young(runs, b, cutoff), SetOf(ExcessIds(Young(runs, b, cutoff), max));
    FilteredUnique(runs, b, cutoff) by { assert UniqueKeys(runs, IdOf); }
    ExcessIsDistinct(rows, max) by { assert UniqueKeys(rows, IdOf); }
    FilterMembers(runs, a, cutoff, {});
    FilterMembers(runs, b, cutoff, {});
    FilterMembers(TerminalOf(runs, b), b, cutoff, {});
    SameKeys(rows, runs, IdOf);
    var mine := TerminalOf(runs, a);
    forall i | 0 <= i < |mine|
      ensures mine[i].id !in ex
    {
      assert mine[i] in mine;
      if mine[i].id in ex {
        var s :| s in rows && s.id == mine[i].id;
        SameRow(runs, IdOf, mine[i], s) by { assert UniqueKeys(runs, IdOf); }
      }
    }
    SameLeft(mine, gone + ex, gone, IdOf);
  }

  lemma {:induction false} GoneOfAgent(runs: seq<RunRow>, policy: Policy, agent: string, now: int, agents: seq<string>,
      a: string)
    requires UniqueKeys(runs, IdOf) && AgentsListed(agents, agent) && a in agents
    ensures var young := Young(runs, a, Cutoff(policy, now));
            Without(TerminalOf(runs, a), GoneIds(runs, policy, agent, now, agents), IdOf)
            == Without(young, SetOf(ExcessIds(young, policy.maxCompletedRuns)), IdOf)
  {
    hide GoneProperly, TerminalOf, ExcessIds, Young, UniqueKeys, Without, ExpiredIds;
    var front, b := agents[..|agents| - 1], agents[|agents| - 1];
    var gone := GoneIds(runs, policy, agent, now, front);
    assert b in agents && (forall c | c in front :: c in agents) && agents == front + [b];
    if a == b {
      GoneIsProper(runs, policy, agent, now, front);
      ExcessGone(runs, agent, Cutoff(policy, now), front, gone, a, policy.maxCompletedRuns);
      WithoutTwice(TerminalOf(runs, a), gone, SetOf(ExcessIds(Young(runs, a, Cutoff(policy, now)), policy.maxCompletedRuns)), IdOf);
    } else {
      GoneOfAgent(runs, policy, agent, now, front, a);
      OthersUnaffected(runs, Cutoff(policy, now), policy.maxCompletedRuns, a, b, gone);
    }
  }

  lemma KeptOfListed(db: Db, policy: Policy, agent: string, now: int, a: string)
    requires UniqueKeys(db.runs, IdOf) && a in AgentsInScope(AfterExpiry(db, policy, agent, now).db.runs, agent)
    ensures KeepsNewest(db.runs, Retained(db, policy, agent, now).db.runs, policy, now, a)
  {
    hide Without, LeftEvents, Retained, GoneIds, TerminalIn, TerminalOf, Agents, Distinct, DropPass, AgentsListed,
      Since, ExcessIds, NewestKept;
    var agents := AgentsInScope(AfterExpiry(db, policy, agent, now).db.runs, agent);
    RetentionDrops(db, policy, agent, now);
    QueriesAfterDrop(db, RetentionGone(db, policy, agent, now), policy.deleteArchived, now, a);
    GoneOfAgent(db.runs, policy, agent, now, agents, a);
    FilteredUnique(db.runs, a, Cutoff(policy, now));
    var young := Young(db.runs, a, Cutoff(policy, now));
    ExcessFacts(young, policy.maxCompletedRuns);
    FilterMembers(young, a, 0, SetOf(ExcessIds(young, policy.maxCompletedRuns)));
  }

  lemma NoMembers(rows: seq<RunRow>)
    ensures rows == [] <==> forall r :: r !in rows
  {
    if rows != [] {
      assert rows[0] in rows;
    }
  }

  /** An agent without a run after the expiry had only expired terminal runs. */
  lemma UnlistedHasNoYoung(db: Db, policy: Policy, now: int, a: string)
    requires UniqueKeys(db.runs, IdOf) && a !in Agents(AfterExpiry(db, policy, "", now).db.runs)
    ensures Young(db.runs, a, Cutoff(policy, now)) == []
  {
    hide Without, LeftEvents, Retained, TerminalIn, TerminalOf, Agents, Distinct, DropPass, Since, ExcessIds,
      AfterExpiry, ExpiredIds, Drop;
    var first := AfterExpiry(db, policy, "", now).db.runs;
    var gone := GoneIds(db.runs, policy, "", now, []);
    RetentionDrops(db, policy, "", now);
    NoneListed("");
    GoneIsProper(db.runs, policy, "", now, []);
    ExcessGone(db.runs, "", Cutoff(policy, now), [], gone, a, 0);
    QueriesAfterDrop(db, gone, policy.deleteArchived, now, a);
    AgentsAreListed(first);
    FilterMembers(first, a, 0, {});
    NoMembers(TerminalOf(first, a));
  }

  lemma KeptOfUnlisted(db: Db, policy: Policy, now: int, a: string)
    requires UniqueKeys(db.runs, IdOf) && a !in Agents(AfterExpiry(db, policy, "", now).db.runs)
    ensures KeepsNewest(db.runs, Retained(db, policy, "", now).db.runs, policy, now, a)
  {
    hide Without, LeftEvents, Retained, GoneIds, TerminalIn, TerminalOf, Agents, Distinct, DropPass, AgentsListed,
      Since, AfterExpiry;
    var gone := RetentionGone(db, policy, "", now);
    var agents := AgentsInScope(AfterExpiry(db, policy, "", now).db.runs, "");
    UnlistedHasNoYoung(db, policy, now, a);
    RetentionDrops(db, policy, "", now);
    GoneIsProper(db.runs, policy, "", now, agents);
    QueriesAfterDrop(db, gone, policy.deleteArchived, now, a);
    FilterMembers(TerminalOf(db.runs, a), a, Cutoff(policy, now), gone);
    FilterMembers(db.runs, a, 0, {});
    NoMembers(Without(TerminalOf(db.runs, a), gone, IdOf));
  }

  /** Every agent in scope is left exactly its newest terminal runs that are young enough. */
  lemma RetentionKeepsNewest(db: Db, policy: Policy, agent: string, now: int, a: string)
    requires UniqueKeys(db.runs, IdOf) && (agent == "" || a == agent)
    ensures KeepsNewest(db.runs, Retained(db, policy, agent, now).db.runs, policy, now, a)
  {
    hide KeepsNewest, Agents, UniqueKeys, Retained, AfterExpiry;
    if a in AgentsInScope(AfterExpiry(db, policy, agent, now).db.runs, agent) {
      KeptOfListed(db, policy, agent, now, a);
    } else {
      KeptOfUnlisted(db, policy, now, a);
    }
  }

  // ---------- the fate of one run ----------

  lemma DropFate(db: Db, gone: set<string>, delete: bool, now: int, r: RunRow)
    requires r in db.runs && (r.id in gone ==> Terminal(r))
    ensures r in Drop(db, gone, delete, now).runs <==> r.id !in gone
    ensures r.id in gone && delete ==> forall s | s in Drop(db, gone, delete, now).runs :: s.id != r.id
    ensures r.id in gone && !delete ==> r.(status := Archived, updatedAt := now) in Drop(db, gone, delete, now).runs
  {
    hide Without, LeftEvents;
    var after := Drop(db, gone, delete, now).runs;
    WithoutMembers(db.runs, gone, IdOf);
    if !delete {
      var i :| 0 <= i < |db.runs| && db.runs[i] == r;
      assert after[i] == if r.id in gone then r.(status := Archived, updatedAt := now) else r;
    }
  }

  /** The run is not over, or has been archived before. */
  predicate Running(r: RunRow) {
    r.status != Completed && r.status != Failed && r.status != Cancelled
  }

  /** The run is over, belongs to the agent asked for, and began before the policy's age. */
  predicate Overage(r: RunRow, policy: Policy, agent: string, now: int) {
    !Running(r) && (agent == "" || agent == r.agent) && r.startedAt < now - policy.maxAgeDays * 86_400_000
  }

  function CountOverage(runs: seq<RunRow>, policy: Policy, agent: string, now: int): nat {
    if runs == [] then 0
    else (if Overage(runs[0], policy, agent, now) then 1 else 0) + CountOverage(runs[1..], policy, agent, now)
  }

  lemma {:induction false} OverageCounted(runs: seq<RunRow>, policy: Policy, agent: string, now: int)
    ensures |Before(TerminalIn(runs, agent), Cutoff(policy, now))| == CountOverage(runs, policy, agent, now)
  {
    if runs != [] {
      OverageCounted(runs[1..], policy, agent, now);
      var rest := TerminalIn(runs[1..], agent);
      assert ([runs[0]] + rest)[1..] == rest;
    }
  }

  /** What a dry run reports: how many runs are too old. */
  lemma DryRunCounts(runs: seq<RunRow>, policy: Policy, agent: string, now: int)
    ensures |ExpiredIds(runs, agent, Cutoff(policy, now))| == CountOverage(runs, policy, agent, now)
  {
    hide SortBy, Overage;
    OverageCounted(runs, policy, agent, now);
    SortBySorts(Before(TerminalIn(runs, agent), Cutoff(policy, now)), StartedAt);
  }

  /** A run that is over, of the agent asked for, is dropped for certain when it is too old; any other run is left. */
  lemma FateOfRun(db: Db, policy: Policy, agent: string, now: int, r: RunRow)
    requires UniqueKeys(db.runs, IdOf) && r in db.runs
    ensures Running(r) || (agent != "" && agent != r.agent) ==> r in Retained(db, policy, agent, now).db.runs
    ensures Overage(r, policy, agent, now) ==> r !in Retained(db, policy, agent, now).db.runs
    ensures r !in Retained(db, policy, agent, now).db.runs && policy.deleteArchived ==>
        forall s | s in Retained(db, policy, agent, now).db.runs :: s.id != r.id
    ensures r !in Retained(db, policy, agent, now).db.runs && !policy.deleteArchived ==>
        r.(status := Archived, updatedAt := now) in Retained(db, policy, agent, now).db.runs
  {
    hide Drop, Retained, GoneIds, AgentsListed, AfterExpiry, UniqueKeys, Agents;
    var gone := RetentionGone(db, policy, agent, now);
    var agents := AgentsInScope(AfterExpiry(db, policy, agent, now).db.runs, agent);
    RetentionDrops(db, policy, agent, now);
    GoneIsProper(db.runs, policy, agent, now, agents);
    DropFate(db, gone, policy.deleteArchived, now, r);
  }

  lemma UniqueLeft(db: Db, policy: Policy, agent: string, now: int, a: string)
    requires UniqueKeys(db.runs, IdOf)
    ensures UniqueKeys(TerminalOf(Retained(db, policy, agent, now).db.runs, a), IdOf)
  {
    hide Retained, UniqueKeys, TerminalOf, Drop, GoneIds, AgentsListed, AfterExpiry;
    RetentionDrops(db, policy, agent, now);
    UniqueAfterDrop(db, RetentionGone(db, policy, agent, now), policy.deleteArchived, now);
    FiltersNarrow(Retained(db, policy, agent, now).db.runs, a, 0, {});
    SubUnique(TerminalOf(Retained(db, policy, agent, now).db.runs, a), Retained(db, policy, agent, now).db.runs, IdOf);
  }

  /** A run that is not too old is dropped only when as many runs of its agent as allowed are left, none older. */
  lemma DroppedForNewer(db: Db, policy: Policy, agent: string, now: int, r: RunRow)
    requires UniqueKeys(db.runs, IdOf) && r in db.runs && 0 <= policy.maxCompletedRuns
    requires !Running(r) && (agent == "" || agent == r.agent) && r.startedAt >= now - policy.maxAgeDays * 86_400_000
    ensures var after := Retained(db, policy, agent, now).db.runs;
            r !in after ==>
              |TerminalOf(after, r.agent)| == policy.maxCompletedRuns
              && forall k | k in after && !Running(k) && k.agent == r.agent :: r.startedAt <= k.startedAt
  {
    hide Retained, UniqueKeys, TerminalOf, Since;
    var after := Retained(db, policy, agent, now).db.runs;
    RetentionKeepsNewest(db, policy, agent, now, r.agent);
    FilterMembers(db.runs, r.agent, Cutoff(policy, now), {});
    FilterMembers(TerminalOf(db.runs, r.agent), r.agent, Cutoff(policy, now), {});
    FilterMembers(after, r.agent, 0, {});
    var young, kept := Young(db.runs, r.agent, Cutoff(policy, now)), TerminalOf(after, r.agent);
    assert r in young;
    if r !in after {
      UniqueLeft(db, policy, agent, now, r.agent);
      OneMore(kept, r, young, IdOf);
    }
  }

  // ---------- a second pass at the same instant ----------

  lemma UniqueAfterDrop(db: Db, gone: set<string>, delete: bool, now: int)
    requires UniqueKeys(db.runs, IdOf)
    ensures UniqueKeys(Drop(db, gone, delete, now).runs, IdOf)
  {
    hide Without, LeftEvents;
    if delete {
      FiltersNarrow(db.runs, "", 0, gone);
      SubUnique(Without(db.runs, gone, IdOf), db.runs, IdOf);
    } else {
      assert Keys(ArchivedRuns(db.runs, gone, now), IdOf) == Keys(db.runs, IdOf);
    }
  }

  /** Nothing is dropped when each agent in scope has few enough terminal runs and none is too old. */
  lemma {:induction false} NothingToDrop(runs: seq<RunRow>, policy: Policy, agent: string, now: int,
      agents: seq<string>)
    requires AgentsListed(agents, agent) && 0 <= policy.maxCompletedRuns
    requires Before(TerminalIn(runs, agent), Cutoff(policy, now)) == []
    requires forall a | agent == "" || a == agent :: |Young(runs, a, Cutoff(policy, now))| <= policy.maxCompletedRuns
    ensures GoneIds(runs, policy, agent, now, agents) == {}
  {
    hide TerminalIn, TerminalOf, Before, Young;
    if agents != [] {
      var a := agents[|agents| - 1];
      assert a in agents;
      FrontListed(agents, agent);
      NothingToDrop(runs, policy, agent, now, agents[..|agents| - 1]);
      assert |Young(runs, a, Cutoff(policy, now))| <= policy.maxCompletedRuns;
      SortBySorts(Young(runs, a, Cutoff(policy, now)), Newness);
    }
  }

  lemma NoneTooOld(after: seq<RunRow>, before: seq<RunRow>, policy: Policy, agent: string, now: int)
    requires forall a | agent == "" || a == agent :: KeepsNewest(before, after, policy, now, a)
    ensures Before(TerminalIn(after, agent), Cutoff(policy, now)) == []
    ensures forall a | agent == "" || a == agent :: Young(after, a, Cutoff(policy, now)) == TerminalOf(after, a)
  {
    hide TerminalIn, TerminalOf, Before, Since, NewestKept;
    var cutoff := Cutoff(policy, now);
    var rows := TerminalIn(after, agent);
    forall a, r | (agent == "" || a == agent) && r in TerminalOf(after, a)
      ensures r.startedAt >= cutoff
    {
      assert KeepsNewest(before, after, policy, now, a);
      FilterMembers(TerminalOf(before, a), a, cutoff, {});
    }
    FilterMembers(after, agent, cutoff, {});
    FilterMembers(rows, agent, cutoff, {});
    forall r
      ensures r !in Before(rows, cutoff)
    {
      if r in rows {
        FilterMembers(after, r.agent, cutoff, {});
        assert r in TerminalOf(after, r.agent);
      }
    }
    NoMembers(Before(rows, cutoff));
    forall a | agent == "" || a == agent
      ensures Young(after, a, cutoff) == TerminalOf(after, a)
    {
      forall i | 0 <= i < |TerminalOf(after, a)|
        ensures TerminalOf(after, a)[i].startedAt >= cutoff
      {
        assert TerminalOf(after, a)[i] in TerminalOf(after, a);
      }
      AllYoung(TerminalOf(after, a), cutoff);
    }
  }

  lemma {:induction false} AllYoung(rows: seq<RunRow>, cutoff: int)
    requires forall i | 0 <= i < |rows| :: rows[i].startedAt >= cutoff
    ensures Since(rows, cutoff) == rows
  {
    if rows != [] {
      AllYoung(rows[1..], cutoff);
    }
  }

  lemma QuietPass(db: Db, policy: Policy, agent: string, now: int)
    requires UniqueKeys(db.runs, IdOf) && 0 <= policy.maxCompletedRuns
    requires Before(TerminalIn(db.runs, agent), Cutoff(policy, now)) == []
    requires forall a | agent == "" || a == agent :: |Young(db.runs, a, Cutoff(policy, now))| <= policy.maxCompletedRuns
    ensures RetentionGone(db, policy, agent, now) == {}
  {
    hide GoneIds, AfterExpiry, Before, TerminalIn, Young, Agents;
    RetentionDrops(db, policy, agent, now);
    NothingToDrop(db.runs, policy, agent, now, AgentsInScope(AfterExpiry(db, policy, agent, now).db.runs, agent));
  }

  lemma PassDropsNothing(db: Db, policy: Policy, agent: string, now: int)
    requires UniqueKeys(db.runs, IdOf)
    ensures Retained(db, policy, agent, now).dropped == 0 <==> Retained(db, policy, agent, now) == Pass(db, 0, 0)
    ensures RetentionGone(db, policy, agent, now) == {} ==> Retained(db, policy, agent, now) == Pass(db, 0, 0)
  {
    hide Retained, RetentionGone, Drop, UniqueKeys, AgentsListed, AfterExpiry;
    RetentionDrops(db, policy, agent, now);
    DropNothing(db, policy.deleteArchived, now);
  }

  /** Repeating the pass at the same instant does nothing, unless a negative limit keeps taking the oldest runs. */
  lemma RepeatDropsNothing(db: Db, policy: Policy, agent: string, now: int)
    requires UniqueKeys(db.runs, IdOf)
    ensures var after := Retained(db, policy, agent, now).db;
            Retained(after, policy, agent, now) == Pass(after, 0, 0)
            <==> 0 <= policy.maxCompletedRuns || TerminalIn(after.runs, agent) == []
  {
    hide Retained, RetentionGone, Drop, AgentsListed, AfterExpiry, UniqueKeys, TerminalIn, TerminalOf, Since, GoneIds,
      NewestKept, Before;
    var after := Retained(db, policy, agent, now).db;
    RetentionDrops(db, policy, agent, now);
    UniqueAfterDrop(db, RetentionGone(db, policy, agent, now), policy.deleteArchived, now);
    RetentionDrops(after, policy, agent, now);
    PassDropsNothing(after, policy, agent, now);
    forall a | agent == "" || a == agent
      ensures KeepsNewest(db.runs, after.runs, policy, now, a)
    {
      RetentionKeepsNewest(db, policy, agent, now, a);
    }
    NoneTooOld(after.runs, db.runs, policy, agent, now);
    if 0 <= policy.maxCompletedRuns {
      forall a | agent == "" || a == agent
        ensures |Young(after.runs, a, Cutoff(policy, now))| <= policy.maxCompletedRuns
      {
        assert KeepsNewest(db.runs, after.runs, policy, now, a);
      }
      QuietPass(after, policy, agent, now);
    } else if TerminalIn(after.runs, agent) == [] {
      RetentionTouchesTerminalRunsOnly(after, policy, agent, now);
    } else {
      var r := TerminalIn(after.runs, agent)[0];
      assert r in TerminalIn(after.runs, agent);
      FilterMembers(after.runs, agent, 0, {});
      FilterMembers(after.runs, r.agent, 0, {});
      RetentionKeepsNewest(after, policy, agent, now, r.agent);
      assert r in TerminalOf(after.runs, r.agent);
    }
  }
}
