/** Funnel accounting of src/activationEvents.ts: who reached which onboarding step. */
module Funnel {

  datatype Kind =
    | SignupCompleted | PreflightPassed | PreflightFailed | WorkspaceReady | WorkspaceNotReady
    | FirstTaskStarted | FirstTaskCompleted | FirstMessageSent | Day2Return
    | CanvasOpened | CanvasFirstAction | NudgeSent | OtherKind(name: string)

  datatype Event = Event(kind: Kind, user: string, timestamp: int)

  type UserMap = map<Kind, int>

  const ORDER: seq<Kind> := [
    SignupCompleted, PreflightPassed, WorkspaceReady, FirstTaskStarted, FirstTaskCompleted, FirstMessageSent, Day2Return]

  const MAX_LOG: nat := 10000

  // ---------- one user ----------

  datatype Flag = BothOutcomes | MissingPrereq(step: Kind) | OutOfOrder(prev: Kind, step: Kind)

  function StepFlags(m: UserMap, i: nat): seq<Flag>
    requires 1 <= i < |ORDER|
  {
    var prev, step := ORDER[i - 1], ORDER[i];
    (if step in m && prev !in m then [MissingPrereq(step)] else [])
      + (if step in m && prev in m && m[step] < m[prev] then [OutOfOrder(prev, step)] else [])
  }

  function FlagsUpTo(m: UserMap, n: nat): seq<Flag>
    requires 1 <= n <= |ORDER|
  {
    if n == 1 then if PreflightPassed in m && PreflightFailed in m then [BothOutcomes] else []
    else FlagsUpTo(m, n - 1) + StepFlags(m, n - 1)
  }

  function Flags(m: UserMap): seq<Flag> {
    FlagsUpTo(m, |ORDER|)
  }

  /** Every step up to `i` is recorded, each not before the one in front of it. */
  predicate OrderedPath(m: UserMap, i: nat)
    requires i < |ORDER|
  {
    && (forall j | 0 <= j <= i :: ORDER[j] in m)
    && (forall j | 1 <= j <= i :: m[ORDER[j - 1]] <= m[ORDER[j]])
  }

  method GetUserFunnelFlags(m: UserMap) returns (flags: seq<Flag>)
    ensures flags == Flags(m)
  {
    hide FlagsUpTo;
    StartFlags(m);
    flags := if PreflightPassed in m && PreflightFailed in m then [BothOutcomes] else [];
    for i := 1 to |ORDER|
      invariant flags == FlagsUpTo(m, i)
    {
      var prev, step := ORDER[i - 1], ORDER[i];
      PushFlags(m, i);
      if step in m && prev !in m {
        flags := flags + [MissingPrereq(step)];
      }
      if prev in m && step in m && m[step] < m[prev] {
        flags := flags + [OutOfOrder(prev, step)];
      }
    }
  }

  lemma StartFlags(m: UserMap)
    ensures FlagsUpTo(m, 1) == if PreflightPassed in m && PreflightFailed in m then [BothOutcomes] else []
  {
  }

  lemma PushFlags(m: UserMap, i: nat)
    requires 1 <= i < |ORDER|
    ensures ORDER[i] in m && ORDER[i - 1] !in m ==> FlagsUpTo(m, i) + [MissingPrereq(ORDER[i])] == FlagsUpTo(m, i + 1)
    ensures ORDER[i] in m && ORDER[i - 1] in m && m[ORDER[i]] < m[ORDER[i - 1]] ==>
        FlagsUpTo(m, i) + [OutOfOrder(ORDER[i - 1], ORDER[i])] == FlagsUpTo(m, i + 1)
    ensures Linked(m, i) ==> FlagsUpTo(m, i + 1) == FlagsUpTo(m, i)
  {
    assert FlagsUpTo(m, i + 1) == FlagsUpTo(m, i) + StepFlags(m, i);
  }

  method HasOrderedPath(m: UserMap, i: nat) returns (b: bool)
    requires i < |ORDER|
    ensures b <==> OrderedPath(m, i)
  {
    var last: int := 0;
    for j := 0 to i + 1
      invariant j > 0 ==> OrderedPath(m, j - 1) && last == m[ORDER[j - 1]]
    {
      if ORDER[j] !in m {
        return false;
      }
      if j > 0 && m[ORDER[j]] < last {
        return false;
      }
      last := m[ORDER[j]];
    }
    b := true;
  }

  /** A path is ordered exactly if its steps are all recorded and their times never go back. */
  lemma {:induction false} OrderedPathIsSorted(m: UserMap, i: nat)
    requires i < |ORDER|
    ensures OrderedPath(m, i)
       <==> (forall j | 0 <= j <= i :: ORDER[j] in m)
            && (forall j, k | 0 <= j <= k <= i && ORDER[j] in m && ORDER[k] in m :: m[ORDER[j]] <= m[ORDER[k]])
  {
    if i > 0 {
      OrderedPathIsSorted(m, i - 1);
      if OrderedPath(m, i) {
        assert OrderedPath(m, i - 1);
        assert m[ORDER[i - 1]] <= m[ORDER[i]];
      } else if OrderedPath(m, i - 1) && ORDER[i] in m {
        assert m[ORDER[i - 1]] > m[ORDER[i]];
      } else if forall j | 0 <= j <= i :: ORDER[j] in m {
        assert !OrderedPath(m, i - 1);
      }
    }
  }

  // ---------- what no flags means ----------

  lemma {:induction false} FlagsMeaning(m: UserMap, n: nat)
    requires 1 <= n <= |ORDER|
    ensures FlagsUpTo(m, n) == []
       <==> !(PreflightPassed in m && PreflightFailed in m) && forall i | 1 <= i < n :: Linked(m, i)
  {
    if n > 1 {
      FlagsMeaning(m, n - 1);
      assert StepFlags(m, n - 1) == [] <==> Linked(m, n - 1);
    }
  }

  /** A recorded step has its predecessor recorded, no later. */
  predicate Linked(m: UserMap, i: nat)
    requires 1 <= i < |ORDER|
  {
    ORDER[i] in m ==> ORDER[i - 1] in m && m[ORDER[i - 1]] <= m[ORDER[i]]
  }

  /** For a user without flags, reaching a step is the same as having it recorded. */
  lemma {:induction false} PathIffRecorded(m: UserMap, i: nat)
    requires i < |ORDER| && Flags(m) == []
    ensures OrderedPath(m, i) <==> ORDER[i] in m
  {
    hide FlagsUpTo;
    FlagsMeaning(m, |ORDER|);
    if i > 0 {
      assert Linked(m, i);
      PathIffRecorded(m, i - 1);
    }
  }

  lemma PathShortens(m: UserMap, i: nat, j: nat)
    requires i <= j < |ORDER| && OrderedPath(m, j)
    ensures OrderedPath(m, i)
  {
  }

  // ---------- counting ----------

  function Reached(cohort: seq<UserMap>, i: nat): (n: nat)
    requires i < |ORDER|
    ensures n <= |cohort|
  {
    if cohort == [] then 0
    else
      var n := |cohort| - 1;
      Reached(cohort[..n], i) + (if OrderedPath(cohort[n], i) then 1 else 0)
  }

  /** Those who reached the step before `i` (everyone, for the first step) but not `i`. */
  predicate DropsAt(m: UserMap, i: nat)
    requires i < |ORDER|
  {
    (i == 0 || OrderedPath(m, i - 1)) && !OrderedPath(m, i)
  }

  function Dropped(cohort: seq<UserMap>, i: nat): nat
    requires i < |ORDER|
  {
    if cohort == [] then 0
    else
      var n := |cohort| - 1;
      Dropped(cohort[..n], i) + (if DropsAt(cohort[n], i) then 1 else 0)
  }

  /** The users counted before step `i`. */
  function Entering(cohort: seq<UserMap>, i: nat): nat
    requires i <= |ORDER|
  {
    if i == 0 then |cohort| else Reached(cohort, i - 1)
  }

  function Rate(reached: nat, entering: nat): real {
    if entering > 0 then reached as real / entering as real else 0.0
  }

  datatype Conversion = Conversion(step: Kind, reached: nat, rate: real)

  /** Each user that enters a step either reaches it or is dropped at it. */
  lemma {:induction false} DropIsDifference(cohort: seq<UserMap>, i: nat)
    requires i < |ORDER|
    ensures Dropped(cohort, i) + Reached(cohort, i) == Entering(cohort, i)
  {
    hide OrderedPath;
    if cohort != [] {
      var n := |cohort| - 1;
      DropIsDifference(cohort[..n], i);
      if i > 0 && OrderedPath(cohort[n], i) {
        assert OrderedPath(cohort[n], i - 1) by {
          PathShortens(cohort[n], i - 1, i);
        }
      }
    }
  }

  function TotalDropped(cohort: seq<UserMap>, i: nat): nat
    requires i <= |ORDER|
  {
    if i == 0 then 0 else TotalDropped(cohort, i - 1) + Dropped(cohort, i - 1)
  }

  /** All drops up to a step and those who are past it make up the cohort. */
  lemma {:induction false} DropsSumToCohort(cohort: seq<UserMap>, i: nat)
    requires i <= |ORDER|
    ensures TotalDropped(cohort, i) + Entering(cohort, i) == |cohort|
  {
    hide Dropped, Reached;
    if i > 0 {
      DropsSumToCohort(cohort, i - 1);
      DropIsDifference(cohort, i - 1);
    }
  }

  /** The reached counts never increase along the funnel, and every rate lies between 0 and 1. */
  lemma FunnelNarrows(cohort: seq<UserMap>, i: nat)
    requires i < |ORDER|
    ensures Reached(cohort, i) <= Entering(cohort, i)
    ensures 0.0 <= Rate(Reached(cohort, i), Entering(cohort, i)) <= 1.0
    ensures Reached(cohort, i) == Entering(cohort, i) > 0 ==> Rate(Reached(cohort, i), Entering(cohort, i)) == 1.0
  {
    hide Dropped, Reached, Entering;
    DropIsDifference(cohort, i);
    RateBounds(Reached(cohort, i), Entering(cohort, i));
  }

  lemma RateBounds(reached: nat, entering: nat)
    requires reached <= entering
    ensures 0.0 <= Rate(reached, entering) <= 1.0
    ensures reached == entering > 0 ==> Rate(reached, entering) == 1.0
  {
    if entering > 0 {
      QuotientBounds(reached as real, entering as real);
    }
  }

  lemma QuotientBounds(x: real, y: real)
    requires 0.0 <= x <= y && 0.0 < y
    ensures 0.0 <= x / y <= 1.0 && (x == y ==> x / y == 1.0)
  {
    assert x / y * y == x;
    Products(x / y, y);
  }

  lemma Products(q: real, y: real)
    requires 0.0 < y
    ensures (q > 1.0 ==> q * y > y) && (q < 1.0 ==> q * y < y) && (q < 0.0 ==> q * y < 0.0)
  {
    assert q > 1.0 ==> (q - 1.0) * y > 0.0;
    assert q < 1.0 ==> (1.0 - q) * y > 0.0;
  }

  function Recorded(cohort: seq<UserMap>, k: Kind): nat {
    if cohort == [] then 0
    else
      var n := |cohort| - 1;
      Recorded(cohort[..n], k) + (if k in cohort[n] then 1 else 0)
  }

  /** In a cohort without flags the reached count is the number of users with the step recorded. */
  lemma {:induction false} ReachedIsRecorded(cohort: seq<UserMap>, i: nat)
    requires i < |ORDER| && forall u | 0 <= u < |cohort| :: Flags(cohort[u]) == []
    ensures Reached(cohort, i) == Recorded(cohort, ORDER[i])
  {
    hide OrderedPath, Flags;
    if cohort != [] {
      ReachedIsRecorded(cohort[..|cohort| - 1], i);
      PathIffRecorded(cohort[|cohort| - 1], i);
    }
  }

  // ---------- the store ----------

  /** `users` holds the keys of `funnels` in the order of their first event. */
  datatype Store = Store(users: seq<string>, funnels: map<string, UserMap>, log: seq<Event>)

  function MapOf(s: Store, user: string): UserMap {
    if user in s.funnels then s.funnels[user] else map[]
  }

  function UsersWith(s: Store, user: string): seq<string> {
    if user in s.funnels then s.users else s.users + [user]
  }

  function Trimmed(log: seq<Event>): seq<Event> {
    if |log| > MAX_LOG then log[|log| - MAX_LOG..] else log
  }

  predicate IsNew(s: Store, e: Event) {
    e.user != "" && e.kind !in MapOf(s, e.user)
  }

  /** The first occurrence is kept. */
  function WithEvent(s: Store, e: Event): Store {
    var m := MapOf(s, e.user);
    Store(UsersWith(s, e.user), s.funnels[e.user := if e.kind in m then m else m[e.kind := e.timestamp]], s.log + [e])
  }

  function Emitted(s: Store, e: Event): Store {
    if IsNew(s, e) then var t := WithEvent(s, e); t.(log := Trimmed(t.log)) else s
  }

  /** A line counts when it parsed and its type, user and timestamp are not empty. */
  datatype Line = Malformed | Parsed(event: Event)

  predicate Usable(l: Line) {
    l.Parsed? && l.event.kind != OtherKind("") && l.event.user != "" && l.event.timestamp != 0
  }

  function LoadedLines(s: Store, lines: seq<Line>): Store {
    if lines == [] then s
    else
      var t, l := LoadedLines(s, lines[..|lines| - 1]), lines[|lines| - 1];
      if Usable(l) then WithEvent(t, l.event) else t
  }

  function Loaded(s: Store, lines: seq<Line>): Store {
    var t := LoadedLines(s, lines);
    t.(log := Trimmed(t.log))
  }

  ghost predicate Keyed(s: Store) {
    && (forall u :: u in s.users <==> u in s.funnels)
    && (forall i, j | 0 <= i < j < |s.users| :: s.users[i] != s.users[j])
  }

  lemma LogKeepsKeys(s: Store)
    ensures forall log :: Keyed(s.(log := log)) <==> Keyed(s)
  {
  }

  lemma WithEventKeyed(s: Store, e: Event)
    requires Keyed(s)
    ensures Keyed(WithEvent(s, e))
  {
    hide MapOf;
    var t := WithEvent(s, e);
    if e.user in s.funnels {
      assert t.users == s.users;
    } else {
      assert t.users == s.users + [e.user];
    }
  }

  function Cohort(s: Store, users: seq<string>, raw: bool, excluded: string -> bool): seq<UserMap> {
    if users == [] then []
    else
      var front, u := Cohort(s, users[..|users| - 1], raw, excluded), users[|users| - 1];
      if (raw || !excluded(u)) && Flags(MapOf(s, u)) == [] then front + [MapOf(s, u)] else front
  }

  class FunnelStore {
    var users: seq<string>
    var funnels: map<string, UserMap>
    var log: seq<Event>

    ghost function View(): Store
      reads this
    {
      Store(users, funnels, log)
    }

    constructor ()
      ensures View() == Store([], map[], [])
    {
      users, funnels, log := [], map[], [];
    }

    method EmitActivationEvent(kind: Kind, user: string, now: int) returns (first: bool)
      requires Keyed(View())
      modifies this
      ensures Keyed(View())
      ensures View() == Emitted(old(View()), Event(kind, user, now))
      ensures first <==> IsNew(old(View()), Event(kind, user, now))
    {
      hide Keyed;
      WithEventKeyed(View(), Event(kind, user, now));
      LogKeepsKeys(WithEvent(View(), Event(kind, user, now)));
      if user == "" {
        return false;
      }
      var userMap: UserMap := map[];
      if user in funnels {
        userMap := funnels[user];
      }
      if kind in userMap {
        return false;
      }
      if user !in funnels {
        users := users + [user];
      }
      funnels := funnels[user := userMap[kind := now]];
      log := log + [Event(kind, user, now)];
      if |log| > MAX_LOG {
        log := log[|log| - MAX_LOG..];
      }
      first := true;
    }

    method LoadActivationFunnel(lines: seq<Line>) returns (loaded: nat)
      requires Keyed(View())
      modifies this
      ensures Keyed(View())
      ensures View() == Loaded(old(View()), lines)
      ensures loaded == |Accepted(lines)|
    {
      loaded := 0;
      for i := 0 to |lines|
        invariant Keyed(View())
        invariant View() == LoadedLines(old(View()), lines[..i]) && loaded == |Accepted(lines[..i])|
      {
        assert lines[..i + 1][..i] == lines[..i];
        if Usable(lines[i]) {
          var event := lines[i].event;
          var userMap: UserMap := map[];
          if event.user in funnels {
            userMap := funnels[event.user];
          } else {
            users := users + [event.user];
          }
          if event.kind !in userMap {
            userMap := userMap[event.kind := event.timestamp];
          }
          funnels := funnels[event.user := userMap];
          log := log + [event];
          loaded := loaded + 1;
        }
      }
      assert lines[..|lines|] == lines;
      if |log| > MAX_LOG {
        log := log[|log| - MAX_LOG..];
      }
    }

    method CohortOf(raw: bool, excluded: string -> bool) returns (cohort: seq<UserMap>)
      requires Keyed(View())
      ensures cohort == Cohort(View(), users, raw, excluded)
    {
      cohort := [];
      for i := 0 to |users|
        invariant cohort == Cohort(View(), users[..i], raw, excluded)
      {
        assert users[..i + 1][..i] == users[..i];
        assert users[i] in funnels;
        var flags := GetUserFunnelFlags(funnels[users[i]]);
        if (raw || !excluded(users[i])) && flags == [] {
          cohort := cohort + [funnels[users[i]]];
        }
      }
      assert users[..|users|] == users;
    }

    method CountReached(cohort: seq<UserMap>, i: nat) returns (n: nat)
      requires i < |ORDER|
      ensures n == Reached(cohort, i)
    {
      hide OrderedPath;
      n := 0;
      for u := 0 to |cohort|
        invariant n == Reached(cohort[..u], i)
      {
        assert cohort[..u + 1][..u] == cohort[..u];
        var b := HasOrderedPath(cohort[u], i);
        if b {
          n := n + 1;
        }
      }
      assert cohort[..|cohort|] == cohort;
    }

    method GetConversionFunnel(raw: bool, excluded: string -> bool) returns (conversions: seq<Conversion>)
      requires Keyed(View())
      ensures |conversions| == |ORDER|
      ensures forall i | 0 <= i < |ORDER| :: conversions[i] == ConversionAt(Cohort(View(), users, raw, excluded), i)
    {
      hide Reached, Cohort, Rate;
      var cohort := CohortOf(raw, excluded);
      var prev: nat := |cohort|;
      conversions := [];
      for i := 0 to |ORDER|
        invariant |conversions| == i && prev == Entering(cohort, i)
        invariant forall j | 0 <= j < i :: conversions[j] == ConversionAt(cohort, j)
      {
        var reached := CountReached(cohort, i);
        conversions := conversions + [Conversion(ORDER[i], reached, Rate(reached, prev))];
        prev := reached;
      }
    }

    /** The drop counts of `getFailureDistribution`. */
    method GetDroppedCounts(excluded: string -> bool) returns (counts: seq<nat>)
      requires Keyed(View())
      ensures |counts| == |ORDER|
      ensures forall i | 0 <= i < |ORDER| :: counts[i] == Dropped(Cohort(View(), users, false, excluded), i)
    {
      hide Cohort, OrderedPath, Flags, Keyed;
      var cohort := CohortOf(false, excluded);
      counts := [];
      for i := 0 to |ORDER|
        invariant |counts| == i
        invariant forall j | 0 <= j < i :: counts[j] == Dropped(cohort, j)
      {
        var dropped: nat := 0;
        for u := 0 to |cohort|
          invariant dropped == Dropped(cohort[..u], i)
        {
          assert cohort[..u + 1][..u] == cohort[..u];
          var reachedPrev := true;
          if i > 0 {
            reachedPrev := HasOrderedPath(cohort[u], i - 1);
          }
          var reachedThis := HasOrderedPath(cohort[u], i);
          if reachedPrev && !reachedThis {
            dropped := dropped + 1;
          }
        }
        assert cohort[..|cohort|] == cohort;
        counts := counts + [dropped];
      }
    }
  }

  function ConversionAt(cohort: seq<UserMap>, i: nat): Conversion
    requires i < |ORDER|
  {
    Conversion(ORDER[i], Reached(cohort, i), Rate(Reached(cohort, i), Entering(cohort, i)))
  }

  lemma {:induction false} CohortHasNoFlags(s: Store, users: seq<string>, raw: bool, excluded: string -> bool)
    ensures forall u | 0 <= u < |Cohort(s, users, raw, excluded)| :: Flags(Cohort(s, users, raw, excluded)[u]) == []
  {
    hide Flags;
    if users != [] {
      CohortHasNoFlags(s, users[..|users| - 1], raw, excluded);
    }
  }

  /** What the dashboard shows: reached counts are recorded counts, drops are their differences, and nobody is lost. */
  lemma FunnelAddsUp(s: Store, raw: bool, excluded: string -> bool, i: nat)
    requires i < |ORDER|
    ensures var cohort := Cohort(s, s.users, raw, excluded);
            Reached(cohort, i) == Recorded(cohort, ORDER[i]) && Dropped(cohort, i) == Entering(cohort, i) - Reached(cohort, i)
    ensures var cohort := Cohort(s, s.users, raw, excluded);
            TotalDropped(cohort, |ORDER|) + Reached(cohort, |ORDER| - 1) == |cohort|
  {
    hide Cohort, Recorded, Reached, Dropped, TotalDropped, Flags;
    var cohort := Cohort(s, s.users, raw, excluded);
    CohortHasNoFlags(s, s.users, raw, excluded);
    ReachedIsRecorded(cohort, i);
    DropIsDifference(cohort, i);
    DropsSumToCohort(cohort, |ORDER|);
  }

  // ---------- runs of the store ----------

  datatype Op = Emit(event: Event) | Load(lines: seq<Line>)

  function Apply(s: Store, op: Op): Store {
    match op
    case Emit(e) => Emitted(s, e)
    case Load(lines) => Loaded(s, lines)
  }

  function Run(s: Store, ops: seq<Op>): Store {
    if ops == [] then s else Apply(Run(s, ops[..|ops| - 1]), ops[|ops| - 1])
  }

  ghost predicate KeptIn(s: Store, t: Store) {
    forall u, k | u in s.funnels && k in s.funnels[u] :: u in t.funnels && k in t.funnels[u] && t.funnels[u][k] == s.funnels[u][k]
  }

  lemma {:induction false} LoadKeeps(s: Store, lines: seq<Line>)
    ensures KeptIn(s, LoadedLines(s, lines))
  {
    if lines != [] {
      LoadKeeps(s, lines[..|lines| - 1]);
    }
  }

  /** What is recorded for a user stays, with its first timestamp, through any later events and reloads. */
  lemma {:induction false} FirstTimestampStays(s: Store, ops: seq<Op>)
    ensures KeptIn(s, Run(s, ops))
  {
    if ops != [] {
      var before, op := Run(s, ops[..|ops| - 1]), ops[|ops| - 1];
      FirstTimestampStays(s, ops[..|ops| - 1]);
      if op.Load? {
        LoadKeeps(before, op.lines);
      }
    }
  }

  /** Emitting the same event again changes nothing. */
  lemma EmitIsIdempotent(s: Store, e: Event, later: int)
    ensures Emitted(Emitted(s, e), e.(timestamp := later)) == Emitted(s, e)
  {
  }

  /** Everything that a run wrote to the log, with nothing cut off. */
  function History(s: Store, ops: seq<Op>): seq<Event> {
    if ops == [] then s.log
    else
      var before, h, op := Run(s, ops[..|ops| - 1]), History(s, ops[..|ops| - 1]), ops[|ops| - 1];
      match op
      case Emit(e) => if IsNew(before, e) then h + [e] else h
      case Load(lines) => h + Accepted(lines)
  }

  function Accepted(lines: seq<Line>): seq<Event> {
    if lines == [] then []
    else
      var front, l := Accepted(lines[..|lines| - 1]), lines[|lines| - 1];
      if Usable(l) then front + [l.event] else front
  }

  lemma {:induction false} LoadAppends(s: Store, lines: seq<Line>)
    ensures LoadedLines(s, lines).log == s.log + Accepted(lines)
  {
    if lines != [] {
      LoadAppends(s, lines[..|lines| - 1]);
    }
  }

  lemma TrimTwice(h: seq<Event>, more: seq<Event>)
    ensures Trimmed(Trimmed(h) + more) == Trimmed(h + more)
  {
  }

  /** The log is the end of the history, with at most its last ten thousand events. */
  lemma {:induction false} LogIsRecentHistory(s: Store, ops: seq<Op>)
    requires |s.log| <= MAX_LOG
    ensures Run(s, ops).log == Trimmed(History(s, ops)) && |Run(s, ops).log| <= MAX_LOG
  {
    hide Trimmed, LoadedLines, IsNew;
    if ops == [] {
      TrimmedSize(s.log);
    } else {
      var before, h, op := Run(s, ops[..|ops| - 1]), History(s, ops[..|ops| - 1]), ops[|ops| - 1];
      LogIsRecentHistory(s, ops[..|ops| - 1]);
      match op
      case Emit(e) =>
        TrimTwice(h, [e]);
        TrimmedSize(h + [e]);
      case Load(lines) =>
        LoadAppends(before, lines);
        TrimTwice(h, Accepted(lines));
        TrimmedSize(h + Accepted(lines));
    }
  }

  lemma TrimmedSize(h: seq<Event>)
    ensures |Trimmed(h)| <= MAX_LOG && (|h| <= MAX_LOG ==> Trimmed(h) == h)
  {
  }

  // ---------- flags over time ----------

  ghost predicate AllBefore(m: UserMap, now: int) {
    forall k | k in m :: m[k] <= now
  }

  /** A user without flags stays so exactly when each new step follows its predecessor and no preflight is both
      passed and failed. */
  lemma EmitKeepsClean(m: UserMap, k: Kind, now: int)
    requires Flags(m) == [] && k !in m && AllBefore(m, now)
    ensures Flags(m[k := now]) == []
       <==> (forall i | 1 <= i < |ORDER| && ORDER[i] == k :: ORDER[i - 1] in m)
            && !(k == PreflightFailed && PreflightPassed in m) && !(k == PreflightPassed && PreflightFailed in m)
  {
    hide FlagsUpTo;
    var t := m[k := now];
    FlagsMeaning(m, |ORDER|);
    FlagsMeaning(t, |ORDER|);
    forall i | 1 <= i < |ORDER|
      ensures Linked(t, i) <==> (ORDER[i] == k ==> ORDER[i - 1] in m)
    {
      assert Linked(m, i);
      StepsDiffer(i);
    }
  }

  lemma StepsDiffer(i: nat)
    requires 1 <= i < |ORDER|
    ensures ORDER[i - 1] != ORDER[i]
  {
  }

  /** A recorded step whose predecessor is missing or came later, itself recorded by `t0`. */
  predicate Spoiled(m: UserMap, i: nat, t0: int)
    requires 1 <= i < |ORDER|
  {
    ORDER[i] in m && m[ORDER[i]] <= t0 && (ORDER[i - 1] in m ==> m[ORDER[i - 1]] > m[ORDER[i]])
  }

  /** What keeps a user flagged from `t0` on. */
  ghost predicate StuckSince(m: UserMap, t0: int) {
    (PreflightPassed in m && PreflightFailed in m) || exists i: nat | 1 <= i < |ORDER| :: Spoiled(m, i, t0)
  }

  lemma FlaggedIsStuck(m: UserMap, t0: int)
    requires AllBefore(m, t0)
    ensures Flags(m) != [] <==> StuckSince(m, t0)
  {
    hide FlagsUpTo;
    FlagsMeaning(m, |ORDER|);
    forall i: nat | 1 <= i < |ORDER|
      ensures Spoiled(m, i, t0) <==> !Linked(m, i)
    {
    }
  }

  lemma StuckIsFlagged(m: UserMap, t0: int)
    requires StuckSince(m, t0)
    ensures Flags(m) != []
  {
    hide FlagsUpTo;
    FlagsMeaning(m, |ORDER|);
    if !(PreflightPassed in m && PreflightFailed in m) {
      var i: nat :| 1 <= i < |ORDER| && Spoiled(m, i, t0);
      assert !Linked(m, i);
    }
  }

  lemma StuckStays(m: UserMap, k: Kind, now: int, t0: int)
    requires StuckSince(m, t0) && k !in m && t0 < now
    ensures StuckSince(m[k := now], t0)
  {
    if !(PreflightPassed in m && PreflightFailed in m) {
      var i: nat :| 1 <= i < |ORDER| && Spoiled(m, i, t0);
      assert Spoiled(m[k := now], i, t0);
    }
  }

  /** Every event of the user in the operation is later than `t0`. */
  predicate LaterFor(op: Op, user: string, t0: int) {
    match op
    case Emit(e) => e.user == user ==> t0 < e.timestamp
    case Load(lines) => forall i | 0 <= i < |lines| && Usable(lines[i]) && lines[i].event.user == user :: t0 < lines[i].event.timestamp
  }

  lemma EventKeepsStuck(s: Store, e: Event, user: string, t0: int)
    requires StuckSince(MapOf(s, user), t0) && (e.user == user ==> t0 < e.timestamp)
    ensures StuckSince(MapOf(WithEvent(s, e), user), t0)
  {
    hide StuckSince;
    if e.user == user && e.kind !in MapOf(s, user) {
      StuckStays(MapOf(s, user), e.kind, e.timestamp, t0);
    }
  }

  lemma {:induction false} LoadKeepsStuck(s: Store, lines: seq<Line>, user: string, t0: int)
    requires StuckSince(MapOf(s, user), t0) && LaterFor(Load(lines), user, t0)
    ensures StuckSince(MapOf(LoadedLines(s, lines), user), t0)
  {
    hide StuckSince, WithEvent;
    if lines != [] {
      var n := |lines| - 1;
      LoadKeepsStuck(s, lines[..n], user, t0);
      if Usable(lines[n]) {
        EventKeepsStuck(LoadedLines(s, lines[..n]), lines[n].event, user, t0);
      }
    }
  }

  /**
   * A user who is flagged at a time that no record of the user exceeds stays flagged, and so out of
   * the funnel, through every run of events and reloads that are later.
   */
  lemma {:induction false} FlaggedForGood(s: Store, ops: seq<Op>, user: string, t0: int)
    requires AllBefore(MapOf(s, user), t0) && Flags(MapOf(s, user)) != []
    requires forall i | 0 <= i < |ops| :: LaterFor(ops[i], user, t0)
    ensures Flags(MapOf(Run(s, ops), user)) != [] && StuckSince(MapOf(Run(s, ops), user), t0)
  {
    hide StuckSince, Flags, WithEvent, LoadedLines, LaterFor, AllBefore;
    if ops == [] {
      FlaggedIsStuck(MapOf(s, user), t0);
    } else {
      var n := |ops| - 1;
      var before, op := Run(s, ops[..n]), ops[n];
      FlaggedForGood(s, ops[..n], user, t0);
      assert LaterFor(op, user, t0);
      match op {
        case Emit(e) =>
          EmitIsLater(e, user, t0);
          if IsNew(before, e) {
            EventKeepsStuck(before, e, user, t0);
          }
        case Load(lines) =>
          LoadKeepsStuck(before, lines, user, t0);
      }
      StuckIsFlagged(MapOf(Run(s, ops), user), t0);
    }
  }

  lemma EmitIsLater(e: Event, user: string, t0: int)
    requires LaterFor(Emit(e), user, t0)
    ensures e.user == user ==> t0 < e.timestamp
  {
  }

  /** At an equal clock reading a flag can go, but only by recording the missing predecessor of a step recorded at
      that same time. */
  lemma EqualClockClears(m: UserMap, k: Kind, now: int)
    requires AllBefore(m, now) && Flags(m) != [] && k !in m && Flags(m[k := now]) == []
    ensures exists i: nat | 1 <= i < |ORDER| :: ORDER[i - 1] == k && ORDER[i] in m && m[ORDER[i]] == now
  {
    hide FlagsUpTo;
    var t := m[k := now];
    FlagsMeaning(m, |ORDER|);
    FlagsMeaning(t, |ORDER|);
    var i: nat :| 1 <= i < |ORDER| && !Linked(m, i);
    assert Linked(t, i);
    StepsDiffer(i);
  }

  /** A user on whom it happens: a passed preflight before the signup, recorded at one reading of the clock. */
  lemma FlagClearedAtOnce()
    ensures var m := map[PreflightPassed := 5]; Flags(m) != [] && Flags(m[SignupCompleted := 5]) == []
  {
    hide FlagsUpTo;
    var m := map[PreflightPassed := 5];
    FlagsMeaning(m, |ORDER|);
    FlagsMeaning(m[SignupCompleted := 5], |ORDER|);
    assert !Linked(m, 1);
  }
}
