/** The alert preflight of src/alert-integrity.ts: counters, deduplication cache and its pruning. */
module AlertGuard {
  import opened Keyed
  import opened Sorting
  import opened Wrappers

  datatype AlertType =
    | SlaWarning | SlaBreach | StaleTask | Requeue | IdleNudge | Watchdog | Escalation | MentionRescue | Generic

  /** The live task; `stateHash` stands for the hash of its status, people and update time. */
  datatype Task = Task(status: string, assignee: string, lastComment: int, stateHash: string)

  /** An empty expectation is no expectation. */
  datatype Input = Input(taskId: string, kind: AlertType, expectedStatus: string, expectedAssignee: string)

  datatype Config = Config(
    enabled: bool, canary: bool, recentActivityMs: int, dedupMs: int, bypass: set<AlertType>, maxEntries: int)

  datatype Code =
    | Allowed | TaskNotFound | TaskDone | StatusChanged | AssigneeChanged | RecentActivity | Duplicate | CanaryAllowed

  datatype Outcome = Outcome(allowed: bool, code: Code)

  /** The four clock reads of one preflight that matter. */
  datatype Times = Times(activity: int, check: int, sent: int, prune: int)

  datatype Alert = Alert(input: Input, task: Option<Task>, times: Times)

  datatype Key = Key(taskId: string, kind: AlertType, stateHash: string)

  /** The cache lists its entries in the order of their first insertion. */
  datatype Entry = Entry(key: Key, sent: int)

  datatype Audit = Audit(taskId: string, kind: AlertType, outcome: Outcome)

  datatype State = State(
    cache: seq<Entry>, checked: nat, allowed: nat, suppressed: nat, byReason: map<Code, nat>, canaryWould: nat,
    audit: seq<Audit>)

  const START: State := State([], 0, 0, 0, map[], 0, [])

  // ---------- the cache ----------

  function KeyOf(e: Entry): Key { e.key }

  function SentAt(e: Entry): int { e.sent }

  function Lookup(cache: seq<Entry>, key: Key): Option<int> {
    if cache == [] then None
    else if cache[0].key == key then Some(cache[0].sent)
    else Lookup(cache[1..], key)
  }

  function Put(cache: seq<Entry>, key: Key, sent: int): seq<Entry> {
    if cache == [] then [Entry(key, sent)]
    else if cache[0].key == key then [Entry(key, sent)] + cache[1..]
    else [cache[0]] + Put(cache[1..], key, sent)
  }

  predicate Expired(e: Entry, window: int, now: int) {
    now - e.sent > window
  }

  function Live(cache: seq<Entry>, window: int, now: int): seq<Entry> {
    if cache == [] then []
    else if Expired(cache[0], window, now) then Live(cache[1..], window, now)
    else [cache[0]] + Live(cache[1..], window, now)
  }

  /** How many of `n` entries, more than `max`, are too many. */
  function Excess(n: nat, max: int): (x: nat)
    requires n > max
    ensures x <= n
  {
    if max < 0 then n else n - max
  }

  function OldestKeys(cache: seq<Entry>, n: nat): seq<Key>
    requires n <= |SortBy(cache, SentAt)|
  {
    Keys(SortBy(cache, SentAt)[..n], KeyOf)
  }

  function WithoutOldest(cache: seq<Entry>, max: int): seq<Entry>
    requires |cache| > max
  {
    SortBySorts(cache, SentAt);
    Without(cache, SetOf(OldestKeys(cache, Excess(|cache|, max))), KeyOf)
  }

  function Pruned(cache: seq<Entry>, config: Config, now: int): seq<Entry> {
    if |cache| <= config.maxEntries then cache
    else
      var live := Live(cache, config.dedupMs, now);
      if |live| <= config.maxEntries then live else WithoutOldest(live, config.maxEntries)
  }

  // ---------- the preflight ----------

  predicate SentRecently(cache: seq<Entry>, key: Key, window: int, now: int) {
    var sent := Lookup(cache, key);
    sent.Some? && sent.value != 0 && now - sent.value < window
  }

  function AlertKey(a: Alert): Key
    requires a.task.Some?
  {
    Key(a.input.taskId, a.input.kind, a.task.value.stateHash)
  }

  /** The first reason against the alert, or `Allowed`. */
  function Check(config: Config, cache: seq<Entry>, a: Alert): (c: Code)
    ensures c != CanaryAllowed && (c == Allowed ==> a.task.Some?)
  {
    if a.task.None? then TaskNotFound
    else
      var task := a.task.value;
      if task.status == "done" && a.input.kind != Escalation then TaskDone
      else if a.input.expectedStatus != "" && task.status != a.input.expectedStatus then StatusChanged
      else if a.input.expectedAssignee != "" && task.assignee != a.input.expectedAssignee then AssigneeChanged
      else if task.lastComment != 0 && a.times.activity - task.lastComment < config.recentActivityMs then RecentActivity
      else if SentRecently(cache, AlertKey(a), config.dedupMs, a.times.check) then Duplicate
      else Allowed
  }

  predicate Bypasses(config: Config, a: Alert) {
    a.input.kind in config.bypass || !config.enabled
  }

  function OutcomeOf(config: Config, cache: seq<Entry>, a: Alert): Outcome {
    if Bypasses(config, a) then Outcome(true, Allowed)
    else
      var code := Check(config, cache, a);
      if code == Allowed then Outcome(true, Allowed)
      else if config.canary then Outcome(true, CanaryAllowed)
      else Outcome(false, code)
  }

  /** The alert passes all checks and enters the cache. */
  predicate Admits(config: Config, cache: seq<Entry>, a: Alert) {
    !Bypasses(config, a) && Check(config, cache, a) == Allowed
  }

  function Count(m: map<Code, nat>, c: Code): nat {
    if c in m then m[c] else 0
  }

  function Bump(m: map<Code, nat>, c: Code): map<Code, nat> {
    m[c := Count(m, c) + 1]
  }

  function Recorded(s: State, a: Alert, o: Outcome): State {
    var audit := s.audit + [Audit(a.input.taskId, a.input.kind, o)];
    s.(allowed := if o.allowed then s.allowed + 1 else s.allowed,
       audit := if |audit| > 500 then audit[|audit| - 500..] else audit)
  }

  function Next(config: Config, s: State, a: Alert): State {
    var t := s.(checked := s.checked + 1);
    var o := OutcomeOf(config, s.cache, a);
    if Admits(config, s.cache, a) then
      Recorded(t.(cache := Pruned(Put(s.cache, AlertKey(a), a.times.sent), config, a.times.prune)), a, o)
    else if Bypasses(config, a) then Recorded(t, a, o)
    else if config.canary then Recorded(t.(canaryWould := s.canaryWould + 1), a, o)
    else Recorded(t.(suppressed := s.suppressed + 1, byReason := Bump(s.byReason, o.code)), a, o)
  }

  class AlertIntegrityGuard {
    var config: Config
    var dedupCache: seq<Entry>
    var totalChecked: nat
    var totalAllowed: nat
    var totalSuppressed: nat
    var suppressionsByReason: map<Code, nat>
    var canaryWouldSuppress: nat
    var auditLog: seq<Audit>

    ghost function View(): State
      reads this
    {
      State(dedupCache, totalChecked, totalAllowed, totalSuppressed, suppressionsByReason, canaryWouldSuppress, auditLog)
    }

    constructor (config: Config)
      ensures this.config == config && View() == START
    {
      this.config := config;
      dedupCache, auditLog, suppressionsByReason := [], [], map[];
      totalChecked, totalAllowed, totalSuppressed, canaryWouldSuppress := 0, 0, 0, 0;
    }

    method Preflight(a: Alert) returns (o: Outcome)
      modifies this
      ensures config == old(config) && View() == Next(config, old(View()), a)
      ensures o == OutcomeOf(config, old(dedupCache), a)
    {
      hide Pruned, Put, Recorded, SentRecently, Lookup;
      totalChecked := totalChecked + 1;
      if a.input.kind in config.bypass || !config.enabled {
        o := Outcome(true, Allowed);
        RecordResult(a, o);
        return;
      }
      var code := Allowed;
      if a.task.None? {
        code := TaskNotFound;
      } else {
        var task := a.task.value;
        if task.status == "done" && a.input.kind != Escalation {
          code := TaskDone;
        } else if a.input.expectedStatus != "" && task.status != a.input.expectedStatus {
          code := StatusChanged;
        } else if a.input.expectedAssignee != "" && task.assignee != a.input.expectedAssignee {
          code := AssigneeChanged;
        } else if task.lastComment != 0 && a.times.activity - task.lastComment < config.recentActivityMs {
          code := RecentActivity;
        } else if SentRecently(dedupCache, AlertKey(a), config.dedupMs, a.times.check) {
          code := Duplicate;
        }
      }
      if code != Allowed {
        o := MaybeCanary(a, code);
        return;
      }
      dedupCache := Put(dedupCache, AlertKey(a), a.times.sent);
      PruneDedupCache(a.times.prune);
      o := Outcome(true, Allowed);
      RecordResult(a, o);
    }

    method MaybeCanary(a: Alert, code: Code) returns (o: Outcome)
      modifies this
      ensures config == old(config)
      ensures o == if config.canary then Outcome(true, CanaryAllowed) else Outcome(false, code)
      ensures config.canary ==> View() == Recorded(old(View()).(canaryWould := old(canaryWouldSuppress) + 1), a, o)
      ensures !config.canary ==>
          View()
          == Recorded(old(View()).(suppressed := old(totalSuppressed) + 1, byReason := Bump(old(suppressionsByReason), code)), a, o)
    {
      hide Recorded;
      if config.canary {
        canaryWouldSuppress := canaryWouldSuppress + 1;
        o := Outcome(true, CanaryAllowed);
      } else {
        totalSuppressed := totalSuppressed + 1;
        suppressionsByReason := Bump(suppressionsByReason, code);
        o := Outcome(false, code);
      }
      RecordResult(a, o);
    }

    method RecordResult(a: Alert, o: Outcome)
      modifies this
      ensures config == old(config) && View() == Recorded(old(View()), a, o)
    {
      if o.allowed {
        totalAllowed := totalAllowed + 1;
      }
      auditLog := auditLog + [Audit(a.input.taskId, a.input.kind, o)];
      if |auditLog| > 500 {
        auditLog := auditLog[|auditLog| - 500..];
      }
    }

    method PruneDedupCache(now: int)
      modifies this`dedupCache
      ensures dedupCache == Pruned(old(dedupCache), config, now)
    {
      hide SortBy, Without;
      if |dedupCache| <= config.maxEntries {
        return;
      }
      var live: seq<Entry> := [];
      for i := 0 to |dedupCache|
        invariant dedupCache == old(dedupCache)
        invariant live + Live(dedupCache[i..], config.dedupMs, now) == Live(dedupCache, config.dedupMs, now)
      {
        assert dedupCache[i..][1..] == dedupCache[i + 1..];
        if !Expired(dedupCache[i], config.dedupMs, now) {
          live := live + [dedupCache[i]];
        }
      }
      assert live == Live(dedupCache, config.dedupMs, now);
      dedupCache := live;
      if |dedupCache| > config.maxEntries {
        SortBySorts(dedupCache, SentAt);
        Remove(SortBy(dedupCache, SentAt)[..Excess(|dedupCache|, config.maxEntries)]);
      }
    }

    method Remove(entries: seq<Entry>)
      modifies this`dedupCache
      ensures dedupCache == Without(old(dedupCache), SetOf(Keys(entries, KeyOf)), KeyOf)
    {
      hide Without, SetOf;
      WithoutNone(dedupCache, KeyOf);
      NoKeys<Key>();
      for i := 0 to |entries|
        invariant dedupCache == Without(old(dedupCache), SetOf(Keys(entries[..i], KeyOf)), KeyOf)
      {
        LastKey(Keys(entries[..i + 1], KeyOf));
        assert Keys(entries[..i + 1], KeyOf)[..i] == Keys(entries[..i], KeyOf);
        WithoutTwice(old(dedupCache), SetOf(Keys(entries[..i], KeyOf)), {entries[i].key}, KeyOf);
        dedupCache := Without(dedupCache, {entries[i].key}, KeyOf);
      }
      assert entries[..|entries|] == entries;
    }
  }

  // ---------- runs ----------

  function After(config: Config, alerts: seq<Alert>): State {
    if alerts == [] then START else Next(config, After(config, alerts[..|alerts| - 1]), alerts[|alerts| - 1])
  }

  /** What the preflights returned. */
  function Outcomes(config: Config, alerts: seq<Alert>): seq<Outcome> {
    if alerts == [] then []
    else
      var n := |alerts| - 1;
      Outcomes(config, alerts[..n]) + [OutcomeOf(config, After(config, alerts[..n]).cache, alerts[n])]
  }

  function AllowedIn(outcomes: seq<Outcome>): nat {
    if outcomes == [] then 0
    else AllowedIn(outcomes[..|outcomes| - 1]) + (if outcomes[|outcomes| - 1].allowed then 1 else 0)
  }

  function CodeIn(outcomes: seq<Outcome>, code: Code): nat {
    if outcomes == [] then 0
    else CodeIn(outcomes[..|outcomes| - 1], code) + (if outcomes[|outcomes| - 1].code == code then 1 else 0)
  }

  function SumByReason(m: map<Code, nat>): nat {
    Count(m, TaskNotFound) + Count(m, TaskDone) + Count(m, StatusChanged) + Count(m, AssigneeChanged)
      + Count(m, RecentActivity) + Count(m, Duplicate)
  }

  /** The counters agree with each other. */
  ghost predicate Balanced(config: Config, s: State) {
    && s.checked == s.allowed + s.suppressed
    && s.suppressed == SumByReason(s.byReason)
    && Count(s.byReason, Allowed) == Count(s.byReason, CanaryAllowed) == 0
    && (config.canary ==> s.suppressed == 0)
    && (!config.canary ==> s.canaryWould == 0)
    && |s.audit| <= 500
  }

  /** The counters agree with what was returned. */
  ghost predicate Counted(config: Config, s: State, outcomes: seq<Outcome>) {
    && s.checked == |outcomes| && s.allowed == AllowedIn(outcomes) && s.canaryWould == CodeIn(outcomes, CanaryAllowed)
    && forall c | c != Allowed && c != CanaryAllowed :: Count(s.byReason, c) == CodeIn(outcomes, c)
  }

  lemma BumpCounts(m: map<Code, nat>, c: Code)
    ensures forall k :: Count(Bump(m, c), k) == if k == c then Count(m, k) + 1 else Count(m, k)
  {
  }

  lemma BalancedStep(config: Config, s: State, a: Alert)
    requires Balanced(config, s)
    ensures Balanced(config, Next(config, s, a))
  {
    hide Check, Pruned, Put, Bypasses, Bump, Count;
    BumpCounts(s.byReason, OutcomeOf(config, s.cache, a).code);
  }

  lemma CodeSnoc(outcomes: seq<Outcome>, o: Outcome)
    ensures forall c ::
        CodeIn(outcomes + [o], c) == if o.code == c then CodeIn(outcomes, c) + 1 else CodeIn(outcomes, c)
    ensures AllowedIn(outcomes + [o]) == if o.allowed then AllowedIn(outcomes) + 1 else AllowedIn(outcomes)
  {
    assert (outcomes + [o])[..|outcomes|] == outcomes;
  }

  lemma CountedStep(config: Config, s: State, a: Alert, outcomes: seq<Outcome>)
    requires Counted(config, s, outcomes)
    ensures Counted(config, Next(config, s, a), outcomes + [OutcomeOf(config, s.cache, a)])
  {
    hide Check, Pruned, Put, Bypasses, Bump, Count, CodeIn, AllowedIn;
    var o := OutcomeOf(config, s.cache, a);
    CodeSnoc(outcomes, o);
    BumpCounts(s.byReason, o.code);
  }

  /** Every preflight is counted once, as allowed or as suppressed for one reason, and a canary suppresses nothing. */
  lemma {:induction false} TotalsAddUp(config: Config, alerts: seq<Alert>)
    ensures Balanced(config, After(config, alerts)) && Counted(config, After(config, alerts), Outcomes(config, alerts))
    ensures |Outcomes(config, alerts)| == |alerts|
  {
    hide Balanced, Counted, Next, OutcomeOf;
    if alerts == [] {
      NothingCounted(config);
    } else {
      var n := |alerts| - 1;
      TotalsAddUp(config, alerts[..n]);
      BalancedStep(config, After(config, alerts[..n]), alerts[n]);
      CountedStep(config, After(config, alerts[..n]), alerts[n], Outcomes(config, alerts[..n]));
    }
  }

  lemma NothingCounted(config: Config)
    ensures Balanced(config, START) && Counted(config, START, [])
  {
  }

  /** The same configuration with the suppression on. */
  function Enforcing(config: Config): Config {
    config.(canary := false)
  }

  ghost predicate Predicted(canary: State, enforced: State) {
    && canary.cache == enforced.cache && canary.checked == enforced.checked
    && canary.canaryWould == enforced.suppressed
  }

  /** A canary run keeps the cache of an enforcing run and counts exactly what that run suppresses. */
  lemma {:induction false} CanaryPredictsEnforcement(config: Config, alerts: seq<Alert>)
    requires config.canary
    ensures Predicted(After(config, alerts), After(Enforcing(config), alerts))
  {
    hide Check, Put, Live, WithoutOldest;
    if alerts != [] {
      var n := |alerts| - 1;
      CanaryPredictsEnforcement(config, alerts[..n]);
      SameChecks(config, After(config, alerts[..n]).cache, alerts[n]);
    }
  }

  lemma SameChecks(config: Config, cache: seq<Entry>, a: Alert)
    ensures Check(Enforcing(config), cache, a) == Check(config, cache, a)
    ensures Pruned(cache, Enforcing(config), a.times.prune) == Pruned(cache, config, a.times.prune)
  {
  }

  // ---------- what pruning leaves ----------

  ghost predicate UniqueEntries(cache: seq<Entry>) {
    UniqueKeys(cache, KeyOf)
  }

  lemma {:induction false} LiveMembers(cache: seq<Entry>, window: int, now: int)
    ensures forall e :: e in Live(cache, window, now) <==> e in cache && !Expired(e, window, now)
    ensures multiset(Live(cache, window, now)) <= multiset(cache)
  {
    if cache != [] {
      assert cache == [cache[0]] + cache[1..];
      LiveMembers(cache[1..], window, now);
    }
  }

  lemma LiveUnique(cache: seq<Entry>, window: int, now: int)
    requires UniqueEntries(cache)
    ensures UniqueEntries(Live(cache, window, now))
  {
    hide Live;
    LiveMembers(cache, window, now);
    SubUnique(Live(cache, window, now), cache, KeyOf);
  }

  lemma WithoutOldestSize(cache: seq<Entry>, max: int)
    requires UniqueEntries(cache) && |cache| > max
    ensures |WithoutOldest(cache, max)| == if max < 0 then 0 else max
    ensures UniqueEntries(WithoutOldest(cache, max))
  {
    hide SortBy, Sorted, Without, UniqueKeys, SetOf;
    var n := Excess(|cache|, max);
    SortBySorts(cache, SentAt);
    assert SortBy(cache, SentAt)[..n] == SortBy(cache, SentAt)[0..n];
    RemovedByRank(cache, SentAt, 0, n, KeyOf);
    WithoutNarrows(cache, SetOf(OldestKeys(cache, n)), KeyOf);
    SubUnique(WithoutOldest(cache, max), cache, KeyOf);
  }

  lemma RemovedAreOldest(cache: seq<Entry>, max: int, kept: Entry, gone: Entry)
    requires UniqueEntries(cache) && |cache| > max && kept in WithoutOldest(cache, max)
    requires gone in cache && gone !in WithoutOldest(cache, max)
    ensures gone.sent <= kept.sent
  {
    hide SortBy, Sorted, Without, UniqueKeys;
    var sorted, n := SortBy(cache, SentAt), Excess(|cache|, max);
    SortBySorts(cache, SentAt);
    WithoutMembers(cache, SetOf(OldestKeys(cache, n)), KeyOf);
    SortedUnique(cache, KeyOf, SentAt);
    assert sorted[..n] == sorted[0..n];
    RankOrders(sorted, SentAt, 0, n, KeyOf, kept, gone);
  }

  /** Whatever pruning drops is expired or no newer than anything it keeps. */
  lemma PruningDropsOldest(cache: seq<Entry>, config: Config, now: int, kept: Entry, gone: Entry)
    requires UniqueEntries(cache) && kept in Pruned(cache, config, now) && gone in cache && gone !in Pruned(cache, config, now)
    ensures Expired(gone, config.dedupMs, now) || gone.sent <= kept.sent
  {
    hide Live, WithoutOldest, UniqueEntries;
    var live := Live(cache, config.dedupMs, now);
    LiveMembers(cache, config.dedupMs, now);
    LiveUnique(cache, config.dedupMs, now);
    if |live| > config.maxEntries && gone in live {
      RemovedAreOldest(live, config.maxEntries, kept, gone);
    }
  }

  function Bound(max: int): nat {
    if max < 0 then 0 else max
  }

  /** After pruning the cache is within its limit, and full when live entries had to go. */
  lemma PrunedSize(cache: seq<Entry>, config: Config, now: int)
    requires UniqueEntries(cache)
    ensures |Pruned(cache, config, now)| <= Bound(config.maxEntries)
    ensures |Live(cache, config.dedupMs, now)| > config.maxEntries ==>
        |Pruned(cache, config, now)| == Bound(config.maxEntries)
    ensures UniqueEntries(Pruned(cache, config, now))
  {
    hide Live, WithoutOldest, UniqueEntries;
    var live := Live(cache, config.dedupMs, now);
    LiveMembers(cache, config.dedupMs, now);
    LiveUnique(cache, config.dedupMs, now);
    assert |live| <= |cache| by {
      assert |multiset(live)| <= |multiset(cache)| by {
        SubSize(multiset(live), multiset(cache));
      }
    }
    if |live| > config.maxEntries {
      WithoutOldestSize(live, config.maxEntries);
    }
  }

  // ---------- keys in the cache ----------

  lemma {:induction false} PutLookup(cache: seq<Entry>, key: Key, sent: int, k: Key)
    ensures Lookup(Put(cache, key, sent), k) == if k == key then Some(sent) else Lookup(cache, k)
  {
    if cache != [] && cache[0].key != key {
      PutLookup(cache[1..], key, sent, k);
      assert ([cache[0]] + Put(cache[1..], key, sent))[1..] == Put(cache[1..], key, sent);
    } else if cache != [] {
      assert ([Entry(key, sent)] + cache[1..])[1..] == cache[1..];
    }
  }

  lemma {:induction false} LookupMember(cache: seq<Entry>, k: Key)
    requires UniqueEntries(cache)
    ensures forall t :: Lookup(cache, k) == Some(t) <==> Entry(k, t) in cache
  {
    hide UniqueEntries;
    if cache != [] {
      assert cache == [cache[0]] + cache[1..];
      assert UniqueEntries(cache[1..]) && forall e | e in cache[1..] :: e.key != cache[0].key by {
        TailUnique(cache);
      }
      LookupMember(cache[1..], k);
    }
  }

  lemma TailUnique(cache: seq<Entry>)
    requires UniqueEntries(cache) && cache != []
    ensures UniqueEntries(cache[1..]) && forall e | e in cache[1..] :: e.key != cache[0].key
  {
    FirstIsNew(cache, KeyOf);
  }

  lemma {:induction false} PutUnique(cache: seq<Entry>, key: Key, sent: int)
    requires UniqueEntries(cache)
    ensures UniqueEntries(Put(cache, key, sent))
    ensures forall e | e in Put(cache, key, sent) :: e.key == key || exists f :: f in cache && f.key == e.key
  {
    hide UniqueEntries;
    if cache == [] {
      SingleUnique(Entry(key, sent));
    } else {
      TailUnique(cache);
      assert cache == [cache[0]] + cache[1..];
      if cache[0].key == key {
        HeadUnique(Entry(key, sent), cache[1..]);
      } else {
        PutUnique(cache[1..], key, sent);
        HeadUnique(cache[0], Put(cache[1..], key, sent));
      }
    }
  }

  lemma SingleUnique(e: Entry)
    ensures UniqueEntries([e])
  {
  }

  lemma HeadUnique(e: Entry, rest: seq<Entry>)
    requires UniqueEntries(rest) && forall f | f in rest :: f.key != e.key
    ensures UniqueEntries([e] + rest)
  {
    var all := [e] + rest;
    assert Keys(all, KeyOf) == [e.key] + Keys(rest, KeyOf);
    assert forall i | 0 <= i < |rest| :: rest[i] in rest;
  }

  // ---------- the cache over a run ----------

  /** The cache never exceeds its limit, and holds a key once. */
  lemma {:induction false} CacheIsBounded(config: Config, alerts: seq<Alert>)
    ensures |After(config, alerts).cache| <= Bound(config.maxEntries) && UniqueEntries(After(config, alerts).cache)
  {
    hide Check, Put, Pruned, UniqueEntries, Bypasses;
    if alerts == [] {
      EmptyUnique();
    } else {
      var n := |alerts| - 1;
      var cache, a := After(config, alerts[..n]).cache, alerts[n];
      CacheIsBounded(config, alerts[..n]);
      if Admits(config, cache, a) {
        PutUnique(cache, AlertKey(a), a.times.sent);
        PrunedSize(Put(cache, AlertKey(a), a.times.sent), config, a.times.prune);
      }
    }
  }

  lemma EmptyUnique()
    ensures UniqueEntries([])
  {
  }

  // ---------- no two admissions of one key within the window ----------

  function WithAdmission(config: Config, cache: seq<Entry>, a: Alert, admissions: seq<Entry>): seq<Entry> {
    if Admits(config, cache, a) then admissions + [Entry(AlertKey(a), a.times.sent)] else admissions
  }

  /** The admissions of a run: the alerts that passed every check. */
  function Admissions(config: Config, alerts: seq<Alert>): seq<Entry> {
    if alerts == [] then []
    else
      var n := |alerts| - 1;
      WithAdmission(config, After(config, alerts[..n]).cache, alerts[n], Admissions(config, alerts[..n]))
  }

  /** The entries that still keep their keys from being admitted. */
  function Within(cache: seq<Entry>, window: int, now: int): seq<Entry> {
    if cache == [] then []
    else if now - cache[0].sent < window then [cache[0]] + Within(cache[1..], window, now)
    else Within(cache[1..], window, now)
  }

  /** At each admission, the entries that are still within the window fit into the cache. */
  ghost predicate LiveFits(config: Config, alerts: seq<Alert>) {
    forall n | 0 <= n < |alerts| :: FitsAt(config, After(config, alerts[..n]).cache, alerts[n])
  }

  ghost predicate FitsAt(config: Config, cache: seq<Entry>, a: Alert) {
    Admits(config, cache, a) ==>
      |Within(Put(cache, AlertKey(a), a.times.sent), config.dedupMs, a.times.prune)| <= Bound(config.maxEntries)
  }

  /** The clock is positive and never runs backward. */
  ghost predicate Timely(alerts: seq<Alert>) {
    && (forall i | 0 <= i < |alerts| :: 0 < alerts[i].times.check <= alerts[i].times.sent <= alerts[i].times.prune)
    && (forall i, j | 0 <= i < j < |alerts| :: alerts[i].times.prune <= alerts[j].times.check)
  }

  function LastSent(admissions: seq<Entry>, key: Key): Option<int> {
    if admissions == [] then None
    else
      var last := admissions[|admissions| - 1];
      if last.key == key then Some(last.sent) else LastSent(admissions[..|admissions| - 1], key)
  }

  /** The cache has the last admission of a key unless that is out of the window. */
  ghost predicate Remembers(cache: seq<Entry>, admissions: seq<Entry>, window: int, now: int) {
    forall k :: LastSent(admissions, k).Some? ==>
      var t := LastSent(admissions, k).value;
      0 < t <= now && (Lookup(cache, k) == Some(t) || now - t >= window)
  }

  ghost predicate Separated(admissions: seq<Entry>, window: int) {
    forall i, j | 0 <= i < j < |admissions| && admissions[i].key == admissions[j].key ::
      admissions[j].sent - admissions[i].sent >= window
  }

  ghost predicate InOrder(admissions: seq<Entry>, now: int) {
    && (forall i, j | 0 <= i <= j < |admissions| :: admissions[i].sent <= admissions[j].sent)
    && (forall i | 0 <= i < |admissions| :: admissions[i].sent <= now)
  }

  lemma LastSentSnoc(admissions: seq<Entry>, e: Entry, k: Key)
    ensures LastSent(admissions + [e], k) == if k == e.key then Some(e.sent) else LastSent(admissions, k)
  {
    assert (admissions + [e])[..|admissions|] == admissions;
  }

  /** No admission of a key is later than its last one. */
  lemma {:induction false} LastIsLatest(admissions: seq<Entry>, now: int, i: nat)
    requires InOrder(admissions, now) && i < |admissions|
    ensures LastSent(admissions, admissions[i].key).Some? && LastSent(admissions, admissions[i].key).value >= admissions[i].sent
  {
    if i < |admissions| - 1 {
      assert admissions[i].sent <= admissions[|admissions| - 1].sent;
      assert admissions[..|admissions| - 1][i] == admissions[i];
      LastIsLatest(admissions[..|admissions| - 1], now, i);
    }
  }

  lemma {:induction false} WithinMembers(cache: seq<Entry>, window: int, now: int)
    ensures forall e :: e in Within(cache, window, now) <==> e in cache && now - e.sent < window
  {
    if cache != [] {
      assert cache == [cache[0]] + cache[1..];
      WithinMembers(cache[1..], window, now);
    }
  }

  /** While the entries within the window fit, pruning keeps them all. */
  lemma PruneKeepsWithin(cache: seq<Entry>, config: Config, now: int, e: Entry)
    requires UniqueEntries(cache) && |Within(cache, config.dedupMs, now)| <= Bound(config.maxEntries)
    requires e in cache && now - e.sent < config.dedupMs
    ensures e in Pruned(cache, config, now)
  {
    hide Live, Within, WithoutOldest, UniqueKeys;
    var live := Live(cache, config.dedupMs, now);
    LiveMembers(cache, config.dedupMs, now);
    LiveUnique(cache, config.dedupMs, now);
    WithinMembers(cache, config.dedupMs, now);
    if |live| > config.maxEntries && e !in WithoutOldest(live, config.maxEntries) {
      var kept := WithoutOldest(live, config.maxEntries);
      WithoutOldestSize(live, config.maxEntries);
      WithoutOldestMembers(live, config.maxEntries);
      forall k | k in kept
        ensures k in Within(cache, config.dedupMs, now)
      {
        RemovedAreOldest(live, config.maxEntries, k, e);
      }
      OneMore(kept, e, Within(cache, config.dedupMs, now), KeyOf);
    }
  }

  lemma WithoutOldestMembers(cache: seq<Entry>, max: int)
    requires |cache| > max
    ensures forall e | e in WithoutOldest(cache, max) :: e in cache
  {
    hide SortBy, Without;
    SortBySorts(cache, SentAt);
    WithoutMembers(cache, SetOf(OldestKeys(cache, Excess(|cache|, max))), KeyOf);
  }

  lemma PruneRemembers(cache: seq<Entry>, config: Config, now: int, k: Key, t: int)
    requires UniqueEntries(cache) && |Within(cache, config.dedupMs, now)| <= Bound(config.maxEntries)
    requires Lookup(cache, k) == Some(t) && now - t < config.dedupMs
    ensures Lookup(Pruned(cache, config, now), k) == Some(t)
  {
    hide UniqueEntries, Lookup, Pruned, Within;
    LookupMember(cache, k);
    PruneKeepsWithin(cache, config, now, Entry(k, t));
    PrunedSize(cache, config, now);
    LookupMember(Pruned(cache, config, now), k);
  }

  lemma AdmissionStep(config: Config, cache: seq<Entry>, a: Alert, admissions: seq<Entry>, now: int)
    requires Admits(config, cache, a) && FitsAt(config, cache, a) && UniqueEntries(cache)
    requires Remembers(cache, admissions, config.dedupMs, now)
    requires now <= a.times.check && 0 < a.times.check <= a.times.sent <= a.times.prune
    ensures Remembers(Pruned(Put(cache, AlertKey(a), a.times.sent), config, a.times.prune),
              admissions + [Entry(AlertKey(a), a.times.sent)], config.dedupMs, a.times.prune)
  {
    hide UniqueEntries, Within, Lookup, Check, Put, Pruned, LastSent, Bypasses;
    var key, put := AlertKey(a), Put(cache, AlertKey(a), a.times.sent);
    var more := admissions + [Entry(key, a.times.sent)];
    PutUnique(cache, key, a.times.sent);
    forall k | LastSent(more, k).Some?
      ensures var t := LastSent(more, k).value;
              0 < t <= a.times.prune
              && (Lookup(Pruned(put, config, a.times.prune), k) == Some(t) || a.times.prune - t >= config.dedupMs)
    {
      LastSentSnoc(admissions, Entry(key, a.times.sent), k);
      PutLookup(cache, key, a.times.sent, k);
      var t := LastSent(more, k).value;
      if a.times.prune - t < config.dedupMs {
        PruneRemembers(put, config, a.times.prune, k, t);
      }
    }
  }

  /** An alert is admitted only when the window since the last admission of its key has passed. */
  lemma AdmittedIsApart(config: Config, cache: seq<Entry>, a: Alert, admissions: seq<Entry>, now: int)
    requires Admits(config, cache, a) && Remembers(cache, admissions, config.dedupMs, now)
    requires now <= a.times.check <= a.times.sent && LastSent(admissions, AlertKey(a)).Some?
    ensures a.times.sent - LastSent(admissions, AlertKey(a)).value >= config.dedupMs
  {
    hide Lookup, LastSent, Bypasses;
    assert !SentRecently(cache, AlertKey(a), config.dedupMs, a.times.check);
  }

  lemma SeparatedStep(admissions: seq<Entry>, e: Entry, window: int, now: int)
    requires Separated(admissions, window) && InOrder(admissions, now) && now <= e.sent
    requires LastSent(admissions, e.key).Some? ==> e.sent - LastSent(admissions, e.key).value >= window
    ensures Separated(admissions + [e], window) && InOrder(admissions + [e], e.sent)
  {
    hide LastSent;
    var more := admissions + [e];
    forall i | 0 <= i < |admissions| && admissions[i].key == e.key
      ensures e.sent - admissions[i].sent >= window
    {
      LastIsLatest(admissions, now, i);
    }
  }

  /** What holds of the cache and the admissions so far. */
  ghost predicate Tracked(config: Config, cache: seq<Entry>, admissions: seq<Entry>, now: int) {
    && UniqueEntries(cache) && Remembers(cache, admissions, config.dedupMs, now)
    && Separated(admissions, config.dedupMs) && InOrder(admissions, now)
  }

  lemma TrackedStep(config: Config, s: State, a: Alert, admissions: seq<Entry>, now: int)
    requires Tracked(config, s.cache, admissions, now) && FitsAt(config, s.cache, a)
    requires now <= a.times.check && 0 < a.times.check <= a.times.sent <= a.times.prune
    ensures Tracked(config, Next(config, s, a).cache, WithAdmission(config, s.cache, a, admissions), a.times.prune)
  {
    hide Separated, Remembers, InOrder, FitsAt, UniqueEntries, Check, Put, Pruned, LastSent, Bypasses;
    var key := if Admits(config, s.cache, a) then AlertKey(a) else Key("", Generic, "");
    LaterOn(s.cache, admissions, config.dedupMs, now, a.times.prune);
    if Admits(config, s.cache, a) {
      AdmissionStep(config, s.cache, a, admissions, now);
      if LastSent(admissions, key).Some? {
        AdmittedIsApart(config, s.cache, a, admissions, now);
      }
      SeparatedStep(admissions, Entry(key, a.times.sent), config.dedupMs, now);
      LaterOrder(admissions + [Entry(key, a.times.sent)], a.times.sent, a.times.prune);
      PutUnique(s.cache, key, a.times.sent);
      PrunedSize(Put(s.cache, key, a.times.sent), config, a.times.prune);
    }
  }

  lemma FrontFits(config: Config, alerts: seq<Alert>)
    requires alerts != [] && LiveFits(config, alerts)
    ensures LiveFits(config, alerts[..|alerts| - 1])
    ensures FitsAt(config, After(config, alerts[..|alerts| - 1]).cache, alerts[|alerts| - 1])
  {
    hide FitsAt, After;
    var front := alerts[..|alerts| - 1];
    forall n | 0 <= n < |front|
      ensures FitsAt(config, After(config, front[..n]).cache, front[n])
    {
      assert front[..n] == alerts[..n];
      assert FitsAt(config, After(config, alerts[..n]).cache, alerts[n]);
    }
  }

  lemma FrontTimely(alerts: seq<Alert>)
    requires alerts != [] && Timely(alerts)
    ensures Timely(alerts[..|alerts| - 1])
    ensures var t := alerts[|alerts| - 1].times; 0 < t.check <= t.sent <= t.prune
    ensures |alerts| > 1 ==> alerts[|alerts| - 2].times.prune <= alerts[|alerts| - 1].times.check
  {
  }

  lemma {:induction false} AdmissionsTracked(config: Config, alerts: seq<Alert>)
    requires Timely(alerts) && LiveFits(config, alerts)
    ensures alerts != [] ==>
        Tracked(config, After(config, alerts).cache, Admissions(config, alerts), alerts[|alerts| - 1].times.prune)
  {
    hide Tracked, Next, FitsAt, Admits, Timely, LiveFits;
    if alerts != [] {
      var n := |alerts| - 1;
      FrontTimely(alerts);
      FrontFits(config, alerts);
      AdmissionsTracked(config, alerts[..n]);
      var now := if n == 0 then alerts[n].times.check else alerts[n - 1].times.prune;
      if n == 0 {
        NothingTracked(config, now);
      }
      TrackedStep(config, After(config, alerts[..n]), alerts[n], Admissions(config, alerts[..n]), now);
    }
  }

  lemma NothingTracked(config: Config, now: int)
    ensures Tracked(config, [], [], now)
  {
  }

  /**
   * Over any run in which the entries within the window always fit into the cache, two alerts with
   * one key that pass every check are at least the window apart, in canary mode or not.
   */
  lemma AdmissionsApart(config: Config, alerts: seq<Alert>)
    requires Timely(alerts) && LiveFits(config, alerts)
    ensures Separated(Admissions(config, alerts), config.dedupMs)
  {
    hide Separated, Next, Remembers, InOrder, UniqueEntries, LiveFits, Timely;
    AdmissionsTracked(config, alerts);
    if alerts == [] {
      NothingTracked(config, 0);
    }
  }

  lemma LaterOrder(admissions: seq<Entry>, now: int, later: int)
    requires InOrder(admissions, now) && now <= later
    ensures InOrder(admissions, later)
  {
  }

  lemma LaterOn(cache: seq<Entry>, admissions: seq<Entry>, window: int, now: int, later: int)
    requires Remembers(cache, admissions, window, now) && InOrder(admissions, now) && now <= later
    ensures Remembers(cache, admissions, window, later) && InOrder(admissions, later)
  {
    hide Lookup, LastSent;
  }

  // ---------- and not otherwise ----------

  lemma {:induction false} PutMembers(cache: seq<Entry>, key: Key, sent: int)
    ensures forall e | e in Put(cache, key, sent) :: e == Entry(key, sent) || e in cache
  {
    if cache != [] {
      assert cache == [cache[0]] + cache[1..];
      PutMembers(cache[1..], key, sent);
    }
  }

  lemma PrunedMembers(cache: seq<Entry>, config: Config, now: int)
    ensures forall e | e in Pruned(cache, config, now) :: e in cache
  {
    hide Live, WithoutOldest;
    LiveMembers(cache, config.dedupMs, now);
    if |Live(cache, config.dedupMs, now)| > config.maxEntries {
      WithoutOldestMembers(Live(cache, config.dedupMs, now), config.maxEntries);
    }
  }

  ghost predicate FromAdmission(config: Config, admissions: seq<Entry>, e: Entry) {
    e in admissions && e.key.kind !in config.bypass && config.enabled
  }

  /** Every entry of the cache comes from an admission. */
  lemma {:induction false} EntriesAreAdmissions(config: Config, alerts: seq<Alert>)
    ensures forall e | e in After(config, alerts).cache :: FromAdmission(config, Admissions(config, alerts), e)
  {
    hide Check, Put, Pruned;
    if alerts != [] {
      var n := |alerts| - 1;
      var cache, a := After(config, alerts[..n]).cache, alerts[n];
      EntriesAreAdmissions(config, alerts[..n]);
      if Admits(config, cache, a) {
        PutMembers(cache, AlertKey(a), a.times.sent);
        PrunedMembers(Put(cache, AlertKey(a), a.times.sent), config, a.times.prune);
      }
    }
  }

  lemma PutIsAdmitted(config: Config, alerts: seq<Alert>)
    requires alerts != [] && Admits(config, After(config, alerts[..|alerts| - 1]).cache, alerts[|alerts| - 1])
    ensures var a := alerts[|alerts| - 1];
            forall e | e in Put(After(config, alerts[..|alerts| - 1]).cache, AlertKey(a), a.times.sent) ::
              FromAdmission(config, Admissions(config, alerts), e)
  {
    hide Check, Put, Pruned, After;
    var n := |alerts| - 1;
    EntriesAreAdmissions(config, alerts[..n]);
    PutMembers(After(config, alerts[..n]).cache, AlertKey(alerts[n]), alerts[n].times.sent);
  }

  /** When the entries within the window do not fit, pruning drops one of them. */
  lemma PruneDropsWithin(cache: seq<Entry>, config: Config, now: int)
    requires UniqueEntries(cache) && |Within(cache, config.dedupMs, now)| > Bound(config.maxEntries)
    ensures exists e :: e in cache && now - e.sent < config.dedupMs && e !in Pruned(cache, config, now)
  {
    hide Pruned, UniqueEntries, Within;
    var within, pruned := Within(cache, config.dedupMs, now), Pruned(cache, config, now);
    WithinMembers(cache, config.dedupMs, now);
    PrunedSize(cache, config, now);
    if forall e | e in within :: e in pruned {
      WithinUnique(cache, config.dedupMs, now);
      NotMore(within, pruned);
    }
  }

  lemma NotMore(some: seq<Entry>, rows: seq<Entry>)
    requires UniqueEntries(some) && forall e | e in some :: e in rows
    ensures |some| <= |rows|
  {
    hide UniqueKeys;
    forall e
      ensures multiset(some)[e] <= multiset(rows)[e]
    {
      OnlyOnce(some, KeyOf, e);
      assert e in some ==> e in multiset(rows);
    }
    SubSize(multiset(some), multiset(rows));
  }

  lemma {:induction false} WithinNarrows(cache: seq<Entry>, window: int, now: int)
    ensures multiset(Within(cache, window, now)) <= multiset(cache)
  {
    if cache != [] {
      assert cache == [cache[0]] + cache[1..];
      WithinNarrows(cache[1..], window, now);
    }
  }

  lemma WithinUnique(cache: seq<Entry>, window: int, now: int)
    requires UniqueEntries(cache)
    ensures UniqueEntries(Within(cache, window, now))
  {
    hide Within;
    WithinNarrows(cache, window, now);
    SubUnique(Within(cache, window, now), cache, KeyOf);
  }

  /** An alert for the key at time `t`, against which nothing but the cache speaks. */
  function Plain(key: Key, t: int): Alert {
    Alert(Input(key.taskId, key.kind, "", ""), Some(Task("doing", "a", 0, key.stateHash)), Times(t, t, t, t))
  }

  lemma PlainAdmitted(config: Config, cache: seq<Entry>, key: Key, t: int)
    requires config.enabled && key.kind !in config.bypass && !SentRecently(cache, key, config.dedupMs, t)
    ensures Admits(config, cache, Plain(key, t)) && AlertKey(Plain(key, t)) == key
  {
    hide SentRecently;
    assert "doing" != "done" by {
      assert "doing"[2] != "done"[2];
    }
  }

  /**
   * The condition is exact: when at the last admission of a run the entries within the window do
   * not fit into the cache, one more alert can follow that is admitted too soon.
   */
  lemma {:induction false} OverfullCacheForgets(config: Config, alerts: seq<Alert>)
    requires Timely(alerts) && alerts != []
    requires !FitsAt(config, After(config, alerts[..|alerts| - 1]).cache, alerts[|alerts| - 1])
    ensures exists x :: Timely(alerts + [x]) && !Separated(Admissions(config, alerts + [x]), config.dedupMs)
  {
    hide Check, Put, Pruned, UniqueEntries, Within, Timely, Separated, Bypasses, Plain;
    var n := |alerts| - 1;
    var cache, a := After(config, alerts[..n]).cache, alerts[n];
    var put, now := Put(cache, AlertKey(a), a.times.sent), a.times.prune;
    CacheIsBounded(config, alerts[..n]);
    PutUnique(cache, AlertKey(a), a.times.sent);
    PutIsAdmitted(config, alerts);
    PruneDropsWithin(put, config, now);
    var e :| e in put && now - e.sent < config.dedupMs && e !in Pruned(put, config, now);
    assert After(config, alerts).cache == Pruned(put, config, now);
    assert FromAdmission(config, Admissions(config, alerts), e);
    DroppedIsForgotten(put, config, now, e);
    PlainAdmitted(config, Pruned(put, config, now), e.key, now);
    PlainFollows(alerts, e.key);
    assert (alerts + [Plain(e.key, now)])[..|alerts|] == alerts;
    PlainTimes(e.key, now);
    TooClose(Admissions(config, alerts), e, now, config.dedupMs);
  }

  lemma PlainTimes(key: Key, t: int)
    ensures Plain(key, t).times == Times(t, t, t, t)
  {
  }

  lemma DroppedIsForgotten(put: seq<Entry>, config: Config, now: int, e: Entry)
    requires UniqueEntries(put) && e in put && e !in Pruned(put, config, now)
    ensures !SentRecently(Pruned(put, config, now), e.key, config.dedupMs, now)
  {
    hide UniqueKeys, Pruned, Lookup;
    PrunedSize(put, config, now);
    PrunedMembers(put, config, now);
    LookupMember(Pruned(put, config, now), e.key);
    if Lookup(Pruned(put, config, now), e.key).Some? {
      var f := Entry(e.key, Lookup(Pruned(put, config, now), e.key).value);
      SameRow(put, KeyOf, e, f);
    }
  }

  lemma PlainFollows(alerts: seq<Alert>, key: Key)
    requires Timely(alerts) && alerts != []
    ensures Timely(alerts + [Plain(key, alerts[|alerts| - 1].times.prune)])
  {
    var all := alerts + [Plain(key, alerts[|alerts| - 1].times.prune)];
    forall i, j | 0 <= i < j < |all|
      ensures all[i].times.prune <= all[j].times.check
    {
      if j == |alerts| && i < |alerts| - 1 {
        assert alerts[i].times.prune <= alerts[|alerts| - 1].times.check;
      }
    }
  }

  lemma TooClose(admissions: seq<Entry>, e: Entry, now: int, window: int)
    requires e in admissions && now - e.sent < window
    ensures !Separated(admissions + [Entry(e.key, now)], window)
  {
    var all := admissions + [Entry(e.key, now)];
    var i :| 0 <= i < |admissions| && admissions[i] == e;
    assert all[i].key == all[|admissions|].key && all[|admissions|].sent - all[i].sent < window;
  }

  /** A run that shows it: with room for one key, another key in between is enough. */
  lemma SmallCacheForgets()
    ensures var config, x, y := Config(true, false, 0, 100, {}, 1), Key("x", Generic, "h"), Key("y", Generic, "h");
            exists a :: var alerts := [Plain(x, 1), Plain(y, 2), a];
              Timely(alerts) && !Separated(Admissions(config, alerts), config.dedupMs)
  {
    hide Separated, Pruned, Check, Bypasses, Lookup, SentRecently;
    var config, x, y := Config(true, false, 0, 100, {}, 1), Key("x", Generic, "h"), Key("y", Generic, "h");
    var alerts := [Plain(x, 1), Plain(y, 2)];
    assert alerts[..1] == [Plain(x, 1)] && [Plain(x, 1)][..0] == [];
    assert x != y by {
      assert "x"[0] != "y"[0];
    }
    LookupOne(Entry(x, 1), y);
    NothingToPrune(Entry(x, 1), config, 1);
    EmptyRemembersNothing(x, 1);
    OtherKeyIsNew(Entry(x, 1), y, 2);
    PlainAdmitted(config, [], x, 1);
    PlainAdmitted(config, [Entry(x, 1)], y, 2);
    assert After(config, [Plain(x, 1)]).cache == [Entry(x, 1)];
    var put := Put([Entry(x, 1)], y, 2);
    assert put == [Entry(x, 1), Entry(y, 2)];
    assert put[1..] == [Entry(y, 2)];
    assert Within(put[1..], 100, 2) == put[1..];
    assert Within(put, 100, 2) == [put[0]] + put[1..];
    OverfullCacheForgets(config, alerts);
    var a :| Timely(alerts + [a]) && !Separated(Admissions(config, alerts + [a]), config.dedupMs);
    assert alerts + [a] == [Plain(x, 1), Plain(y, 2), a];
  }

  lemma EmptyRemembersNothing(k: Key, now: int)
    ensures !SentRecently([], k, 100, now)
  {
  }

  lemma OtherKeyIsNew(e: Entry, k: Key, now: int)
    requires e.key != k
    ensures !SentRecently([e], k, 100, now)
  {
    LookupOne(e, k);
  }

  lemma LookupOne(e: Entry, k: Key)
    ensures Lookup([e], k) == if e.key == k then Some(e.sent) else None
  {
    assert [e][1..] == [];
  }

  lemma NothingToPrune(e: Entry, config: Config, now: int)
    requires config.maxEntries == 1
    ensures Pruned([e], config, now) == [e]
  {
  }
}
