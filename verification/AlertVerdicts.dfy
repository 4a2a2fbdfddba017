/** Which verdict an alert gets (src/alert-integrity.ts), told from the task and from the alerts before it. */
module AlertVerdicts {
  import opened AlertGuard
  import opened Keyed
  import opened Sorting
  import opened Wrappers

  // ---------- the reasons, and which comes first ----------

  /** The reasons against an alert, in the order in which they are looked for. */
  const REASONS: seq<Code> := [TaskNotFound, TaskDone, StatusChanged, AssigneeChanged, RecentActivity, Duplicate]

  /** The reason speaks against the alert; `last` is when an alert with its key was last let through. */
  predicate Speaks(config: Config, a: Alert, last: Option<int>, reason: Code) {
    match reason
    case TaskNotFound => a.task == None
    case TaskDone => a.task.Some? && a.task.value.status == "done" && a.input.kind != Escalation
    case StatusChanged =>
      a.task.Some? && a.input.expectedStatus != "" && a.input.expectedStatus != a.task.value.status
    case AssigneeChanged =>
      a.task.Some? && a.input.expectedAssignee != "" && a.input.expectedAssignee != a.task.value.assignee
    case RecentActivity =>
      a.task.Some? && a.task.value.lastComment != 0
      && a.times.activity < a.task.value.lastComment + config.recentActivityMs
    case Duplicate => a.task.Some? && last.Some? && a.times.check < last.value + config.dedupMs
    case _ => false
  }

  /** The verdict is the first reason that speaks against the alert. */
  ghost predicate FirstReason(config: Config, a: Alert, last: Option<int>, verdict: Code) {
    if forall i | 0 <= i < |REASONS| :: !Speaks(config, a, last, REASONS[i]) then verdict == Allowed
    else exists i | 0 <= i < |REASONS| :: verdict == REASONS[i] && Speaks(config, a, last, REASONS[i])
           && forall j | 0 <= j < i :: !Speaks(config, a, last, REASONS[j])
  }

  lemma CheckIsFirst(config: Config, cache: seq<Entry>, a: Alert, last: Option<int>)
    requires a.task.Some? ==> (SentRecently(cache, AlertKey(a), config.dedupMs, a.times.check)
                               <==> last.Some? && a.times.check < last.value + config.dedupMs)
    ensures FirstReason(config, a, last, Check(config, cache, a))
  {
    hide SentRecently;
    var verdict := Check(config, cache, a);
    if verdict != Allowed {
      var i := if verdict == TaskNotFound then 0 else if verdict == TaskDone then 1
               else if verdict == StatusChanged then 2 else if verdict == AssigneeChanged then 3
               else if verdict == RecentActivity then 4 else 5;
      assert verdict == REASONS[i] && Speaks(config, a, last, REASONS[i]);
    }
  }

  // ---------- duplicates, told from the run ----------

  /** What the cache has of a key is its last admission. */
  ghost predicate HoldsLast(cache: seq<Entry>, admissions: seq<Entry>) {
    forall k :: Lookup(cache, k).Some? ==> Lookup(cache, k) == LastSent(admissions, k)
  }

  lemma PruneHoldsLast(put: seq<Entry>, config: Config, now: int, admissions: seq<Entry>)
    requires HoldsLast(put, admissions) && UniqueEntries(put) && UniqueEntries(Pruned(put, config, now))
    ensures HoldsLast(Pruned(put, config, now), admissions)
  {
    hide Lookup, Pruned, LastSent, UniqueEntries;
    PrunedMembers(put, config, now);
    forall k | Lookup(Pruned(put, config, now), k).Some?
      ensures Lookup(Pruned(put, config, now), k) == LastSent(admissions, k)
    {
      LookupMember(Pruned(put, config, now), k);
      LookupMember(put, k);
      assert Entry(k, Lookup(Pruned(put, config, now), k).value) in put;
      assert Lookup(put, k).Some?;
    }
  }

  lemma PutHoldsLast(cache: seq<Entry>, key: Key, sent: int, admissions: seq<Entry>)
    requires HoldsLast(cache, admissions)
    ensures HoldsLast(Put(cache, key, sent), admissions + [Entry(key, sent)])
  {
    hide Lookup, Put, LastSent;
    forall k
      ensures Lookup(Put(cache, key, sent), k) == if k == key then Some(sent) else Lookup(cache, k)
      ensures LastSent(admissions + [Entry(key, sent)], k) == if k == key then Some(sent) else LastSent(admissions, k)
    {
      PutLookup(cache, key, sent, k);
      LastSentSnoc(admissions, Entry(key, sent), k);
    }
  }

  lemma {:induction false} CacheHoldsLast(config: Config, alerts: seq<Alert>)
    ensures HoldsLast(After(config, alerts).cache, Admissions(config, alerts))
  {
    hide Check, Put, Pruned, UniqueEntries, Bypasses, HoldsLast;
    if alerts == [] {
      EmptyHoldsLast();
    } else {
      var n := |alerts| - 1;
      var cache, a := After(config, alerts[..n]).cache, alerts[n];
      CacheHoldsLast(config, alerts[..n]);
      if Admits(config, cache, a) {
        CacheIsBounded(config, alerts[..n]);
        CacheIsBounded(config, alerts);
        PutUnique(cache, AlertKey(a), a.times.sent);
        PutHoldsLast(cache, AlertKey(a), a.times.sent, Admissions(config, alerts[..n]));
        PruneHoldsLast(Put(cache, AlertKey(a), a.times.sent), config, a.times.prune, Admissions(config, alerts));
      }
    }
  }

  lemma EmptyHoldsLast()
    ensures HoldsLast([], [])
  {
  }

  /** When an alert with the key of this one was last let through. */
  function LastOfKey(config: Config, alerts: seq<Alert>, a: Alert): Option<int> {
    if a.task == None then None else LastSent(Admissions(config, alerts), AlertKey(a))
  }

  lemma SentRecentlyByRun(config: Config, alerts: seq<Alert>, key: Key, now: int)
    requires Timely(alerts) && LiveFits(config, alerts)
    requires alerts != [] ==> alerts[|alerts| - 1].times.prune <= now
    ensures var last := LastSent(Admissions(config, alerts), key);
            SentRecently(After(config, alerts).cache, key, config.dedupMs, now)
            <==> last.Some? && now < last.value + config.dedupMs
  {
    hide After, Admissions, Lookup, LastSent, Separated, InOrder, UniqueEntries, Timely, LiveFits;
    AdmissionsTracked(config, alerts);
    CacheHoldsLast(config, alerts);
    if alerts == [] {
      NothingSent(config, key, now);
    }
  }

  lemma NothingSent(config: Config, key: Key, now: int)
    ensures LastSent(Admissions(config, []), key) == None
    ensures !SentRecently(After(config, []).cache, key, config.dedupMs, now)
  {
  }

  /**
   * Over any run whose live keys fit the cache: the next alert that is not bypassed gets the first reason that
   * speaks against it, duplicates being told from the alerts let through before; without any it is let through.
   */
  lemma VerdictByRun(config: Config, alerts: seq<Alert>, a: Alert)
    requires Timely(alerts) && LiveFits(config, alerts)
    requires alerts != [] ==> alerts[|alerts| - 1].times.prune <= a.times.check
    ensures FirstReason(config, a, LastOfKey(config, alerts, a), Check(config, After(config, alerts).cache, a))
  {
    hide After, Admissions, SentRecently, FirstReason, Check, Timely, LiveFits;
    if a.task.Some? {
      SentRecentlyByRun(config, alerts, AlertKey(a), a.times.check);
    }
    CheckIsFirst(config, After(config, alerts).cache, a, LastOfKey(config, alerts, a));
  }

  // ---------- pruning, to the millisecond ----------

  /** As long as they fit, pruning keeps exactly the entries that are not older than the window, or all of them. */
  lemma PrunedExactly(cache: seq<Entry>, config: Config, now: int)
    requires |Live(cache, config.dedupMs, now)| <= config.maxEntries
    ensures forall e :: e in Pruned(cache, config, now)
              <==> e in cache && (|cache| <= config.maxEntries || e.sent + config.dedupMs >= now)
  {
    hide Live;
    LiveMembers(cache, config.dedupMs, now);
  }
}
