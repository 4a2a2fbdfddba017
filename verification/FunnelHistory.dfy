/** The onboarding funnel of src/activationEvents.ts, told from what has happened: which steps a user has and when,
    and who is in a cohort. */
module FunnelHistory {
  import opened Funnel
  import opened Wrappers

  // ---------- when each step of a user happened first ----------

  /** The line parsed, and names a type, a user and a time. */
  predicate Complete(l: Line) {
    match l
    case Malformed => false
    case Parsed(e) => !(e.kind.OtherKind? && e.kind.name == "") && |e.user| > 0 && (e.timestamp < 0 || e.timestamp > 0)
  }

  function CompleteOnes(lines: seq<Line>): seq<Event> {
    if lines == [] then []
    else
      CompleteOnes(lines[..|lines| - 1])
      + (if Complete(lines[|lines| - 1]) then [lines[|lines| - 1].event] else [])
  }

  /** Every event that came in with a user, in order, repeated ones too. */
  function Happened(ops: seq<Op>): seq<Event> {
    if ops == [] then []
    else
      Happened(ops[..|ops| - 1])
      + match ops[|ops| - 1]
        case Emit(e) => if |e.user| > 0 then [e] else []
        case Load(lines) => CompleteOnes(lines)
  }

  /** When a step of a user happened first. */
  function FirstTime(events: seq<Event>, user: string, kind: Kind): Option<int> {
    if events == [] then None
    else
      var before, e := FirstTime(events[..|events| - 1], user, kind), events[|events| - 1];
      if before == None && e.user == user && e.kind == kind then Some(e.timestamp) else before
  }

  /** When the store says that it happened. */
  function TimeIn(s: Store, user: string, kind: Kind): Option<int> {
    if kind in MapOf(s, user) then Some(MapOf(s, user)[kind]) else None
  }

  lemma FirstTimeSnoc(events: seq<Event>, e: Event, user: string, kind: Kind)
    ensures FirstTime(events + [e], user, kind)
         == if FirstTime(events, user, kind) == None && e.user == user && e.kind == kind then Some(e.timestamp)
            else FirstTime(events, user, kind)
  {
    assert (events + [e])[..|events|] == events;
  }

  /** The store agrees with the events on every step of every user. */
  ghost predicate Agrees(s: Store, events: seq<Event>) {
    forall user, kind :: TimeIn(s, user, kind) == FirstTime(events, user, kind)
  }

  lemma EventAgrees(s: Store, events: seq<Event>, e: Event)
    requires Agrees(s, events)
    ensures Agrees(WithEvent(s, e), events + [e])
  {
    forall user, kind
      ensures TimeIn(WithEvent(s, e), user, kind) == FirstTime(events + [e], user, kind)
    {
      FirstTimeSnoc(events, e, user, kind);
      assert TimeIn(s, user, kind) == FirstTime(events, user, kind);
    }
  }

  lemma {:induction false} LinesAgree(s: Store, events: seq<Event>, lines: seq<Line>)
    requires Agrees(s, events)
    ensures Agrees(LoadedLines(s, lines), events + CompleteOnes(lines))
  {
    hide Agrees, WithEvent;
    if lines == [] {
      assert events + [] == events;
    } else {
      var front, l := lines[..|lines| - 1], lines[|lines| - 1];
      LinesAgree(s, events, front);
      if Complete(l) {
        EventAgrees(LoadedLines(s, front), events + CompleteOnes(front), l.event);
        assert events + CompleteOnes(front) + [l.event] == events + (CompleteOnes(front) + [l.event]);
      } else {
        assert CompleteOnes(front) + [] == CompleteOnes(front);
      }
    }
  }

  lemma TrimmedAgrees(s: Store, events: seq<Event>, log: seq<Event>)
    requires Agrees(s, events)
    ensures Agrees(s.(log := log), events)
  {
    forall user, kind
      ensures TimeIn(s.(log := log), user, kind) == TimeIn(s, user, kind)
    {
    }
  }

  /** An event whose step is already recorded tells nothing new. */
  lemma RepeatAgrees(s: Store, events: seq<Event>, e: Event)
    requires Agrees(s, events) && TimeIn(s, e.user, e.kind).Some?
    ensures Agrees(s, events + [e])
  {
    forall user, kind
      ensures TimeIn(s, user, kind) == FirstTime(events + [e], user, kind)
    {
      FirstTimeSnoc(events, e, user, kind);
      assert TimeIn(s, user, kind) == FirstTime(events, user, kind);
    }
  }

  /**
   * After every run of events and reloads from an empty store, a user has exactly the steps that have happened, each
   * with the time at which it happened first.
   */
  lemma {:induction false} StepsAreFirsts(ops: seq<Op>)
    ensures Agrees(Run(Store([], map[], []), ops), Happened(ops))
  {
    hide Agrees, WithEvent, Trimmed;
    var start := Store([], map[], []);
    if ops == [] {
      NothingHappened();
    } else {
      var front, op := ops[..|ops| - 1], ops[|ops| - 1];
      var s, events := Run(start, front), Happened(front);
      StepsAreFirsts(front);
      match op
      case Emit(e) =>
        if |e.user| == 0 {
          assert events + [] == events;
        } else if e.kind in MapOf(s, e.user) {
          RepeatAgrees(s, events, e);
        } else {
          EventAgrees(s, events, e);
          TrimmedAgrees(WithEvent(s, e), events + [e], Trimmed(WithEvent(s, e).log));
        }
      case Load(lines) =>
        LinesAgree(s, events, lines);
        TrimmedAgrees(LoadedLines(s, lines), events + CompleteOnes(lines), Trimmed(LoadedLines(s, lines).log));
    }
  }

  lemma NothingHappened()
    ensures Agrees(Store([], map[], []), [])
  {
  }

  // ---------- the cohort ----------

  /** The cohort has the records of exactly the users asked for (all, or those not excluded) without flags. */
  lemma {:induction false} CohortTold(s: Store, users: seq<string>, raw: bool, excluded: string -> bool, m: UserMap)
    ensures m in Cohort(s, users, raw, excluded)
       <==> exists u | u in users :: MapOf(s, u) == m && (raw || !excluded(u)) && Flags(m) == []
  {
    hide Flags, MapOf;
    if users != [] {
      var front, u := users[..|users| - 1], users[|users| - 1];
      CohortTold(s, front, raw, excluded, m);
      assert users == front + [u];
      if m in Cohort(s, front, raw, excluded) {
        var v :| v in front && MapOf(s, v) == m && (raw || !excluded(v)) && Flags(m) == [];
        assert v in users;
      }
    }
  }
}
