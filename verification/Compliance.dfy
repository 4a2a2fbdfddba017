/** The session store of the compliance detector (src/compliance-detector.ts): 30-minute
    buckets, carried forward once, against an unbounded map of last reads. */
module Compliance {
  import opened Text
  import opened Wrappers

  const WINDOW_NORMAL: int := 10 * 60 * 1000
  const WINDOW_LONG: int := 30 * 60 * 1000
  const WINDOW_HEARTBEAT: int := 5 * 60 * 1000

  datatype Session = Session(lastRead: Option<int>, heartbeat: bool, active: bool)

  const NOTHING_READ: Session := Session(None, false, false)

  /** A request, by its classification, or a change of the active-task flag. */
  datatype Call = Read(heartbeat: bool) | Action | Other | SetActive(active: bool)
  datatype Event = Event(agent: string, call: Call, at: int)

  datatype ViolationType = NoStateRead | StaleStateRead
  datatype Violation = Violation(agent: string, session: string, kind: ViolationType,
                                 lastRead: Option<int>, elapsed: Option<int>, window: int, at: int)

  // ---------- keys ----------

  function Bucket(now: int): int {
    now / WINDOW_LONG
  }

  function SessionKey(agent: string, bucket: int): string {
    Lower(agent) + ":" + PrintInt(bucket)
  }

  function BucketPart(key: string): string {
    var parts := Split(key, ':');
    if |parts| > 1 then parts[1] else ""
  }

  /** The part of the store that survives a clean-up. */
  function Fresh(sessions: map<string, Session>, now: int): map<string, Session> {
    map key | key in sessions && BucketPart(key) in {PrintInt(Bucket(now)), PrintInt(Bucket(now) - 1)} :: sessions[key]
  }

  /** The session an agent works with: this bucket's, or a copy of the previous one's. */
  function Current(sessions: map<string, Session>, agent: string, now: int): Session {
    var key, prev := SessionKey(agent, Bucket(now)), SessionKey(agent, Bucket(now) - 1);
    if key in sessions then sessions[key]
    else if prev in sessions then sessions[prev]
    else NOTHING_READ
  }

  function Opened(sessions: map<string, Session>, agent: string, now: int): map<string, Session> {
    Fresh(sessions[SessionKey(agent, Bucket(now)) := Current(sessions, agent, now)], now)
  }

  function Updated(s: Session, call: Call, now: int): Session {
    match call
    case Read(heartbeat) => s.(lastRead := Some(now), heartbeat := heartbeat)
    case SetActive(active) => s.(active := active)
    case Action => s
    case Other => s
  }

  /** The clean-up reads the bucket between the first two colons of a key: it keeps the session just
      kept, unless the agent's name has a colon and what follows that is no recent bucket. */
  predicate Survives(agent: string, now: int) {
    BucketPart(SessionKey(agent, Bucket(now))) in {PrintInt(Bucket(now)), PrintInt(Bucket(now) - 1)}
  }

  /** The store after an event; a session that did not survive the clean-up is not written to. */
  function Stored(sessions: map<string, Session>, e: Event): map<string, Session> {
    var kept := Opened(sessions, e.agent, e.at);
    if !Survives(e.agent, e.at) then kept
    else kept[SessionKey(e.agent, Bucket(e.at)) := Updated(Current(sessions, e.agent, e.at), e.call, e.at)]
  }

  function WindowOf(s: Session): int {
    if s.heartbeat then WINDOW_HEARTBEAT else if s.active then WINDOW_LONG else WINDOW_NORMAL
  }

  predicate Flags(s: Session, now: int) {
    s.lastRead == None || now - s.lastRead.value > WindowOf(s)
  }

  /** What a violation says about the session it was found in. */
  predicate Describes(v: Violation, agent: string, s: Session, now: int) {
    && v.agent == agent && v.session == SessionKey(agent, Bucket(now)) && v.at == now
    && v.lastRead == s.lastRead && v.window == WindowOf(s)
    && (v.kind == NoStateRead <==> s.lastRead == None)
    && v.elapsed == (if s.lastRead == None then None else Some(now - s.lastRead.value))
  }

  class Detector {
    var sessions: map<string, Session>

    constructor ()
      ensures sessions == map[]
    {
      sessions := map[];
    }

    method CleanStaleSessions(now: int)
      modifies this
      ensures sessions == Fresh(old(sessions), now)
    {
      var current, prev := PrintInt(Bucket(now)), PrintInt(Bucket(now) - 1);
      var todo := sessions.Keys;
      while todo != {}
        invariant todo <= old(sessions).Keys
        invariant forall key :: key in sessions <==>
                    key in old(sessions) && (key in todo || BucketPart(key) in {current, prev})
        invariant forall key :: key in sessions ==> sessions[key] == old(sessions)[key]
      {
        var key :| key in todo;
        todo := todo - {key};
        if BucketPart(key) != current && BucketPart(key) != prev {
          sessions := sessions - {key};
        }
      }
    }

    method GetOrCreateSession(agent: string, now: int) returns (session: Option<Session>)
      modifies this
      ensures session == if Survives(agent, now) then Some(Current(old(sessions), agent, now)) else None
      ensures sessions == Opened(old(sessions), agent, now)
      ensures SessionKey(agent, Bucket(now)) in sessions <==> Survives(agent, now)
    {
      hide SessionKey, BucketPart;
      var key := SessionKey(agent, Bucket(now));
      if key !in sessions {
        var prev := SessionKey(agent, Bucket(now) - 1);
        sessions := sessions[key := if prev in sessions then sessions[prev] else NOTHING_READ];
      }
      assert sessions == old(sessions)[key := Current(old(sessions), agent, now)];
      CleanStaleSessions(now);
      session := if key in sessions then Some(sessions[key]) else None;
    }

    /** `processRequest` for a successful request of a tracked agent; it fails on a missing session. */
    method ProcessRequest(agent: string, call: Call, now: int) returns (r: Result<Option<Violation>>)
      requires !call.SetActive?
      modifies this
      ensures sessions == Stored(old(sessions), Event(agent, call, now))
      ensures r.Err? <==> !Survives(agent, now) && !call.Other?
      ensures r.Ok? ==> (r.value.Some? <==> call.Action? && Flags(Current(old(sessions), agent, now), now))
      ensures r.Ok? && r.value.Some? ==> Describes(r.value.value, agent, Current(old(sessions), agent, now), now)
      ensures r.Ok? && r.value.Some? ==>
          var v := r.value.value;
          var s := Current(old(sessions), agent, now);
          v.agent == agent && v.at == now && v.session == Lower(agent) + ":" + PrintInt(Bucket(now))
          && v.window == (if s.heartbeat then 300_000 else if s.active then 1_800_000 else 600_000)
          && v.lastRead == s.lastRead
          && (if v.kind == NoStateRead then v.lastRead == None && v.elapsed == None
              else v.lastRead.Some? && v.elapsed == Some(now - v.lastRead.value) && v.elapsed.value > v.window)
    {
      hide BucketPart, Opened, Current, Survives, Lower, PrintInt;
      var found := GetOrCreateSession(agent, now);
      if call.Other? {
        OpenedAt(old(sessions), agent, now);
        return Ok(None);
      }
      if found == None {
        return Err("session is undefined");
      }
      var session, key := found.value, SessionKey(agent, Bucket(now));
      if call.Read? {
        sessions := sessions[key := session.(lastRead := Some(now), heartbeat := call.heartbeat)];
        return Ok(None);
      }
      OpenedAt(old(sessions), agent, now);
      var window := if session.heartbeat then WINDOW_HEARTBEAT
                    else if session.active then WINDOW_LONG else WINDOW_NORMAL;
      if session.lastRead == None {
        r := Ok(Some(Violation(agent, key, NoStateRead, None, None, window, now)));
      } else if now - session.lastRead.value > window {
        var elapsed := now - session.lastRead.value;
        r := Ok(Some(Violation(agent, key, StaleStateRead, session.lastRead, Some(elapsed), window, now)));
      } else {
        r := Ok(None);
      }
    }

    method SetSessionHasActiveTask(agent: string, hasTask: bool, now: int) returns (r: Result<bool>)
      modifies this
      ensures sessions == Stored(old(sessions), Event(agent, SetActive(hasTask), now))
      ensures r.Ok? <==> Survives(agent, now)
    {
      hide SessionKey, BucketPart, Opened, Current, Survives;
      var found := GetOrCreateSession(agent, now);
      if found == None {
        return Err("session is undefined");
      }
      sessions := sessions[SessionKey(agent, Bucket(now)) := found.value.(active := hasTask)];
      r := Ok(hasTask);
    }
  }

  // ---------- keys determine agent and bucket ----------

  lemma KeyParts(agent: string, bucket: int)
    requires ':' !in agent
    ensures BucketPart(SessionKey(agent, bucket)) == PrintInt(bucket)
    ensures IndexOf(SessionKey(agent, bucket), ':') == |agent|
    ensures SessionKey(agent, bucket)[..|agent|] == Lower(agent)
    ensures SessionKey(agent, bucket)[|agent| + 1..] == PrintInt(bucket)
  {
    assert ':' !in PrintInt(bucket);
    SplitAt(Lower(agent), ':', PrintInt(bucket));
    IndexOfAt(Lower(agent), ':', PrintInt(bucket));
  }

  lemma KeyInjective(a: string, i: int, b: string, j: int)
    requires ':' !in a && ':' !in b && SessionKey(a, i) == SessionKey(b, j)
    ensures Lower(a) == Lower(b) && i == j
  {
    hide SessionKey, Lower;
    KeyParts(a, i);
    KeyParts(b, j);
    PrintIntInjective(i, j);
  }

  lemma PlainSurvives(agent: string, now: int)
    requires ':' !in agent
    ensures Survives(agent, now)
  {
    hide SessionKey;
    KeyParts(agent, Bucket(now));
  }

  /** A session that survives is there after the clean-up; writing it back changes nothing. */
  lemma OpenedAt(sessions: map<string, Session>, agent: string, now: int)
    ensures var kept, key, c := Opened(sessions, agent, now), SessionKey(agent, Bucket(now)), Current(sessions, agent, now);
            Survives(agent, now) ==> key in kept && kept[key] == c && kept[key := c] == kept
  {
    hide SessionKey, Current, BucketPart;
  }

  lemma {:induction false} SplitHead(s: string, c: char, t: string)
    ensures Split(s + [c] + t, c)[0] == Split(s, c)[0]
  {
    if s == [] {
      assert ([] + [c] + t)[0] == c;
    } else {
      assert (s + [c] + t)[1..] == s[1..] + [c] + t && (s + [c] + t)[0] == s[0];
      SplitHead(s[1..], c, t);
    }
  }

  /** Exactly which agents can be tracked: for a name with a colon the part after it must be a recent bucket. */
  lemma SurvivesIff(agent: string, now: int)
    ensures ':' in agent ==> |Split(Lower(agent), ':')| > 1
    ensures Survives(agent, now)
       <==> ':' !in agent || Split(Lower(agent), ':')[1] in {PrintInt(Bucket(now)), PrintInt(Bucket(now) - 1)}
  {
    hide Bucket;
    if ':' !in agent {
      PlainSurvives(agent, now);
    } else {
      var name, number := Lower(agent), PrintInt(Bucket(now));
      ColonKept(agent);
      var i := IndexOf(name, ':');
      var head, rest := name[..i], name[i + 1..];
      assert name == head + [':'] + rest;
      SplitAt(head, ':', rest);
      assert name + ":" + number == head + [':'] + (rest + [':'] + number);
      SplitAt(head, ':', rest + [':'] + number);
      SplitHead(rest, ':', number);
    }
  }

  lemma ColonKept(agent: string)
    ensures ':' in Lower(agent) <==> ':' in agent
  {
    assert forall i | 0 <= i < |agent| :: Lower(agent)[i] == ':' <==> agent[i] == ':';
    if ':' in agent {
      var i :| 0 <= i < |agent| && agent[i] == ':';
      assert Lower(agent)[i] == ':';
    }
    if ':' in Lower(agent) {
      var i :| 0 <= i < |agent| && Lower(agent)[i] == ':';
      assert agent[i] == ':';
    }
  }

  lemma OnlyColon(x: string, k: int)
    requires ':' !in x
    ensures forall j | 0 <= j < |SessionKey(x, k)| :: SessionKey(x, k)[j] == ':' <==> j == |x|
  {
    hide Lower;
    ColonKept(x);
    var key := SessionKey(x, k);
    assert key[|x|] == ':';
    forall j | 0 <= j < |key| && j != |x|
      ensures key[j] != ':'
    {
      if j < |x| {
        assert key[j] == Lower(x)[j] && Lower(x)[j] in Lower(x);
      } else {
        assert key[j] == PrintInt(k)[j - |x| - 1] && PrintInt(k)[j - |x| - 1] in PrintInt(k);
      }
    }
  }

  /** A key of a plain agent is no key of an agent with a colon. */
  lemma ColonKeysDiffer(x: string, k: int, agent: string, b: int)
    requires ':' !in x && ':' in agent
    ensures SessionKey(x, k) != SessionKey(agent, b)
  {
    hide Lower;
    OnlyColon(x, k);
    ColonKept(agent);
    var name, key := Lower(agent), SessionKey(agent, b);
    var i :| 0 <= i < |name| && name[i] == ':';
    assert key[i] == ':' && key[|name|] == ':';
  }

  // ---------- the reference: the last read of every agent, kept for ever ----------

  function Known(ref: map<string, Session>, agent: string): Session {
    if Lower(agent) in ref then ref[Lower(agent)] else NOTHING_READ
  }

  function Remembered(ref: map<string, Session>, e: Event): map<string, Session> {
    ref[Lower(e.agent) := Updated(Known(ref, e.agent), e.call, e.at)]
  }

  function RunStore(events: seq<Event>): map<string, Session> {
    if events == [] then map[] else Stored(RunStore(events[..|events| - 1]), events[|events| - 1])
  }

  function RunReference(events: seq<Event>): map<string, Session> {
    if events == [] then map[] else Remembered(RunReference(events[..|events| - 1]), events[|events| - 1])
  }

  /** A read that the store has lost is more than 30 minutes old. */
  predicate Close(c: Session, r: Session, now: int) {
    && (c.active ==> r.active)
    && (if r.lastRead.Some? then r.lastRead.value <= now else !r.heartbeat)
    && ((c.lastRead == r.lastRead && c.heartbeat == r.heartbeat)
        || (c.lastRead == None && r.lastRead.Some? && now - r.lastRead.value > WINDOW_LONG))
  }

  /** No session lies in the future of its bucket, and no bucket in the future of `now`. */
  ghost predicate Dated(sessions: map<string, Session>, now: int) {
    forall agent: string, k: int | ':' !in agent && SessionKey(agent, k) in sessions ::
      k <= Bucket(now) && (sessions[SessionKey(agent, k)].lastRead.Some?
        ==> Bucket(sessions[SessionKey(agent, k)].lastRead.value) <= k)
  }

  ghost predicate Refines(sessions: map<string, Session>, ref: map<string, Session>, now: int) {
    forall agent: string | ':' !in agent :: Close(Current(sessions, agent, now), Known(ref, agent), now)
  }

  /** The clock does not run backwards. */
  predicate Trace(events: seq<Event>) {
    forall i, j | 0 <= i < j < |events| :: events[i].at <= events[j].at
  }

  lemma BucketGap(earlier: int, later: int)
    requires Bucket(later) >= Bucket(earlier) + 2
    ensures later - earlier > WINDOW_LONG
  {
  }

  lemma BucketMonotone(a: int, b: int)
    requires a <= b
    ensures Bucket(a) <= Bucket(b)
  {
  }

  /** As time passes, a session is found again, or its read has become too old to matter. */
  lemma CloseLater(sessions: map<string, Session>, r: Session, agent: string, then_: int, now: int)
    requires ':' !in agent && then_ <= now && Dated(sessions, then_)
    requires Close(Current(sessions, agent, then_), r, then_)
    ensures Close(Current(sessions, agent, now), r, now)
  {
    hide SessionKey, Lower;
    BucketMonotone(then_, now);
    var c, d := Current(sessions, agent, then_), Current(sessions, agent, now);
    if c != d {
      if c.lastRead.Some? {
        BucketGap(c.lastRead.value, now);
      }
    }
  }

  lemma SameKeys(a: string, b: string, k: int)
    requires Lower(a) == Lower(b)
    ensures SessionKey(a, k) == SessionKey(b, k)
  {
  }

  lemma PlainAlike(x: string, agent: string)
    requires ':' !in x && Lower(x) == Lower(agent)
    ensures ':' !in agent
  {
    ColonKept(x);
    ColonKept(agent);
  }

  lemma OtherKey(x: string, k: int, agent: string, b: int)
    requires ':' !in x && !(Lower(x) == Lower(agent) && k == b)
    ensures SessionKey(x, k) != SessionKey(agent, b)
  {
    hide SessionKey, Lower;
    if ':' in agent {
      ColonKeysDiffer(x, k, agent, b);
    } else if SessionKey(x, k) == SessionKey(agent, b) {
      KeyInjective(x, k, agent, b);
    }
  }

  /** Of a plain agent's sessions the clean-up keeps those of the current and the previous bucket. */
  lemma FreshAt(sessions: map<string, Session>, x: string, k: int, now: int)
    requires ':' !in x
    ensures SessionKey(x, k) in Fresh(sessions, now)
       <==> SessionKey(x, k) in sessions && (k == Bucket(now) || k == Bucket(now) - 1)
    ensures SessionKey(x, k) in Fresh(sessions, now) ==>
        Fresh(sessions, now)[SessionKey(x, k)] == sessions[SessionKey(x, k)]
  {
    hide SessionKey, Bucket, BucketPart, PrintInt;
    var b := Bucket(now);
    KeyParts(x, k);
    if PrintInt(k) == PrintInt(b) {
      PrintIntInjective(k, b);
    }
    if PrintInt(k) == PrintInt(b - 1) {
      PrintIntInjective(k, b - 1);
    }
  }

  /** What the key of a plain agent holds after an event of any agent. */
  lemma StoredKey(sessions: map<string, Session>, e: Event, x: string, k: int)
    requires ':' !in x
    ensures var key, b, after := SessionKey(x, k), Bucket(e.at), Stored(sessions, e);
            if Lower(x) == Lower(e.agent) && k == b
            then key in after && after[key] == Updated(Current(sessions, e.agent, e.at), e.call, e.at)
            else (key in after <==> key in sessions && (k == b || k == b - 1))
                 && (key in after ==> after[key] == sessions[key])
  {
    hide SessionKey, Current, Updated, Lower, Bucket, Fresh, Survives;
    var b := Bucket(e.at);
    if Lower(x) == Lower(e.agent) && k == b {
      SameKeys(x, e.agent, k);
      PlainAlike(x, e.agent);
      PlainSurvives(e.agent, e.at);
    } else {
      OtherKey(x, k, e.agent, b);
      var key, mine := SessionKey(x, k), SessionKey(e.agent, b);
      FreshAt(sessions[mine := Current(sessions, e.agent, e.at)], x, k, e.at);
    }
  }

  /** An event changes the session of its own agent only. */
  lemma StoredCurrent(sessions: map<string, Session>, e: Event, x: string)
    requires ':' !in x
    ensures Current(Stored(sessions, e), x, e.at)
         == if Lower(x) == Lower(e.agent) then Updated(Current(sessions, e.agent, e.at), e.call, e.at)
            else Current(sessions, x, e.at)
  {
    hide SessionKey, Stored, Updated, Lower, Bucket;
    StoredKey(sessions, e, x, Bucket(e.at));
    StoredKey(sessions, e, x, Bucket(e.at) - 1);
  }

  lemma StoredDated(sessions: map<string, Session>, e: Event, then_: int)
    requires Dated(sessions, then_) && then_ <= e.at
    ensures Dated(Stored(sessions, e), e.at)
  {
    hide SessionKey, Stored, Lower, Bucket;
    BucketMonotone(then_, e.at);
    forall x: string, k: int | ':' !in x && SessionKey(x, k) in Stored(sessions, e)
      ensures k <= Bucket(e.at)
      ensures var s := Stored(sessions, e)[SessionKey(x, k)]; s.lastRead.Some? ==> Bucket(s.lastRead.value) <= k
    {
      StoredKey(sessions, e, x, k);
      if Lower(x) == Lower(e.agent) {
        PlainAlike(x, e.agent);
        assert SessionKey(e.agent, Bucket(e.at)) in sessions
            && sessions[SessionKey(e.agent, Bucket(e.at))].lastRead.Some?
           ==> Bucket(sessions[SessionKey(e.agent, Bucket(e.at))].lastRead.value) <= Bucket(e.at);
        assert SessionKey(e.agent, Bucket(e.at) - 1) in sessions
            && sessions[SessionKey(e.agent, Bucket(e.at) - 1)].lastRead.Some?
           ==> Bucket(sessions[SessionKey(e.agent, Bucket(e.at) - 1)].lastRead.value) <= Bucket(e.at) - 1;
      }
    }
  }

  lemma CloseUpdated(c: Session, r: Session, call: Call, now: int)
    requires Close(c, r, now)
    ensures Close(Updated(c, call, now), Updated(r, call, now), now)
  {
  }

  lemma StepRefines(sessions: map<string, Session>, ref: map<string, Session>, e: Event, then_: int)
    requires then_ <= e.at
    requires Dated(sessions, then_) && Refines(sessions, ref, then_)
    ensures Refines(sessions, ref, e.at)
    ensures Refines(Stored(sessions, e), Remembered(ref, e), e.at)
  {
    hide SessionKey, Stored, Lower, Bucket, Current, Close, Updated;
    forall x: string | ':' !in x
      ensures Close(Current(sessions, x, e.at), Known(ref, x), e.at)
      ensures Close(Current(Stored(sessions, e), x, e.at), Known(Remembered(ref, e), x), e.at)
    {
      CloseLater(sessions, Known(ref, x), x, then_, e.at);
      if Lower(x) == Lower(e.agent) {
        PlainAlike(x, e.agent);
        CloseLater(sessions, Known(ref, e.agent), e.agent, then_, e.at);
        CloseUpdated(Current(sessions, e.agent, e.at), Known(ref, e.agent), e.call, e.at);
      }
      StoredCurrent(sessions, e, x);
    }
  }

  /** Along every trace the store refines the reference. */
  lemma {:induction false} TraceRefines(events: seq<Event>, now: int)
    requires Trace(events) && forall i | 0 <= i < |events| :: events[i].at <= now
    ensures Dated(RunStore(events), now) && Refines(RunStore(events), RunReference(events), now)
  {
    hide SessionKey, Stored, Remembered, Lower, Current, Close, Dated, Refines;
    if events == [] {
      EmptyRefines(now);
    } else {
      var front, last := events[..|events| - 1], events[|events| - 1];
      TraceRefines(front, last.at);
      StepRefines(RunStore(front), RunReference(front), last, last.at);
      StoredDated(RunStore(front), last, last.at);
      Wait(RunStore(events), RunReference(events), last.at, now);
    }
  }

  lemma EmptyRefines(now: int)
    ensures Dated(map[], now) && Refines(map[], map[], now)
  {
    hide SessionKey;
  }

  lemma Wait(sessions: map<string, Session>, ref: map<string, Session>, then_: int, now: int)
    requires then_ <= now && Dated(sessions, then_) && Refines(sessions, ref, then_)
    ensures Dated(sessions, now) && Refines(sessions, ref, now)
  {
    hide SessionKey, Lower, Current, Close, Bucket;
    BucketMonotone(then_, now);
    forall x: string | ':' !in x
      ensures Close(Current(sessions, x, now), Known(ref, x), now)
    {
      CloseLater(sessions, Known(ref, x), x, then_, now);
    }
  }

  /** The store flags an action of `agent` at `now`, after the events. */
  predicate StoreFlags(events: seq<Event>, agent: string, now: int) {
    Flags(Current(RunStore(events), agent, now), now)
  }

  predicate ReferenceFlags(events: seq<Event>, agent: string, now: int) {
    Flags(Known(RunReference(events), agent), now)
  }

  // ---------- the store, told from the trace ----------

  predicate Mine(e: Event, x: string) {
    Lower(e.agent) == Lower(x)
  }

  /** The time of the agent's last event. */
  function LastAt(events: seq<Event>, x: string): Option<int> {
    if events == [] then None
    else
      var last := events[|events| - 1];
      if Mine(last, x) then Some(last.at) else LastAt(events[..|events| - 1], x)
  }

  /** What the agent's session is at `now`, if nobody has skipped a bucket since its last event. */
  function Carried(events: seq<Event>, x: string, now: int): Session
    decreases |events|, 1
  {
    var last := LastAt(events, x);
    if last.Some? && Bucket(now) <= Bucket(last.value) + 1 then Held(events, x) else NOTHING_READ
  }

  /** The session after the agent's last event. */
  function Held(events: seq<Event>, x: string): Session
    decreases |events|, 0
  {
    if events == [] then NOTHING_READ
    else
      var front, last := events[..|events| - 1], events[|events| - 1];
      if Mine(last, x) then Updated(Carried(front, x, last.at), last.call, last.at) else Held(front, x)
  }

  /** Which of the agent's keys the store holds after events that end at `t`. */
  ghost predicate Shape(sessions: map<string, Session>, events: seq<Event>, x: string, t: int) {
    var last := LastAt(events, x);
    && (forall k | SessionKey(x, k) in sessions :: last.Some? && k <= Bucket(last.value))
    && (last.Some? ==> last.value <= t)
    && (last.Some? ==> (SessionKey(x, Bucket(last.value)) in sessions <==> Bucket(t) <= Bucket(last.value) + 1))
    && (last.Some? && SessionKey(x, Bucket(last.value)) in sessions ==>
          sessions[SessionKey(x, Bucket(last.value))] == Held(events, x))
  }

  lemma ShapeCarries(sessions: map<string, Session>, events: seq<Event>, x: string, t: int, now: int)
    requires Shape(sessions, events, x, t) && t <= now
    ensures Current(sessions, x, now) == Carried(events, x, now)
  {
    hide SessionKey, Bucket, Held, LastAt;
    BucketMonotone(t, now);
    var last := LastAt(events, x);
    if last.Some? {
      BucketMonotone(last.value, t);
    }
  }

  lemma ShapeStep(sessions: map<string, Session>, front: seq<Event>, e: Event, x: string, t: int)
    requires ':' !in x && Shape(sessions, front, x, t) && t <= e.at
    ensures Shape(Stored(sessions, e), front + [e], x, e.at)
  {
    hide SessionKey, Bucket, Stored, Current, Updated, Carried, Lower;
    var events, after := front + [e], Stored(sessions, e);
    assert events[..|events| - 1] == front;
    BucketMonotone(t, e.at);
    forall k
      ensures var key, b := SessionKey(x, k), Bucket(e.at);
              if Mine(e, x) && k == b then key in after && after[key] == Updated(Current(sessions, e.agent, e.at), e.call, e.at)
              else (key in after <==> key in sessions && (k == b || k == b - 1)) && (key in after ==> after[key] == sessions[key])
    {
      StoredKey(sessions, e, x, k);
    }
    var last := LastAt(front, x);
    if last.Some? {
      BucketMonotone(last.value, t);
    }
    if Mine(e, x) {
      ShapeCarries(sessions, front, x, t, e.at);
      AlikeCurrent(sessions, x, e.agent, e.at);
    }
  }

  lemma AlikeCurrent(sessions: map<string, Session>, x: string, y: string, now: int)
    requires Lower(x) == Lower(y)
    ensures Current(sessions, x, now) == Current(sessions, y, now)
  {
    hide Lower;
  }

  /** The store of a trace holds exactly the carried session of every plain agent. */
  lemma {:induction false} CurrentIsCarried(events: seq<Event>, x: string, now: int)
    requires Trace(events) && ':' !in x && forall i | 0 <= i < |events| :: events[i].at <= now
    ensures Current(RunStore(events), x, now) == Carried(events, x, now)
    ensures events != [] ==> Shape(RunStore(events), events, x, events[|events| - 1].at)
  {
    hide SessionKey, Stored, Carried, Current, Shape, Bucket;
    if events == [] {
      NothingCarried(x, now);
    } else {
      var front, e := events[..|events| - 1], events[|events| - 1];
      CurrentIsCarried(front, x, e.at);
      var t := if front == [] then e.at else front[|front| - 1].at;
      if front == [] {
        NothingShaped(x, t);
      }
      ShapeStep(RunStore(front), front, e, x, t);
      assert front + [e] == events;
      ShapeCarries(RunStore(events), events, x, e.at, now);
    }
  }

  lemma NothingCarried(x: string, now: int)
    ensures Current(map[], x, now) == Carried([], x, now)
  {
    hide SessionKey;
  }

  lemma NothingShaped(x: string, t: int)
    ensures Shape(map[], [], x, t)
  {
    hide SessionKey;
  }

  // ---------- the active-task flag, told from the trace ----------

  /** The times of the agent's events since its flag was last set; none if it was last cleared, or never set. */
  function FlagTimes(events: seq<Event>, x: string): seq<int> {
    if events == [] then []
    else
      var times, last := FlagTimes(events[..|events| - 1], x), events[|events| - 1];
      if !Mine(last, x) then times
      else if last.call == SetActive(true) then [last.at]
      else if last.call == SetActive(false) || times == [] then []
      else times + [last.at]
  }

  /** Two successive times lie at least two buckets apart. */
  predicate HasGap(times: seq<int>) {
    exists j | 0 < j < |times| :: Skipped(times, j)
  }

  predicate Skipped(times: seq<int>, j: nat)
    requires 0 < j < |times|
  {
    Bucket(times[j]) >= Bucket(times[j - 1]) + 2
  }

  /** The flag was set last, but since then, or up to `now`, the agent was silent over a whole bucket. */
  predicate FlagLost(events: seq<Event>, x: string, now: int) {
    FlagTimes(events, x) != [] && HasGap(FlagTimes(events, x) + [now])
  }

  lemma GapSnoc(times: seq<int>, t: int)
    requires times != []
    ensures HasGap(times + [t]) <==> HasGap(times) || Bucket(t) >= Bucket(times[|times| - 1]) + 2
  {
    hide Bucket;
    var all := times + [t];
    assert all[|times|] == t;
    if HasGap(times) {
      var j :| 0 < j < |times| && Skipped(times, j);
      assert Skipped(all, j);
    }
    if Bucket(t) >= Bucket(times[|times| - 1]) + 2 {
      assert Skipped(all, |times|);
    }
    if HasGap(all) {
      var j :| 0 < j < |all| && Skipped(all, j);
      assert j < |times| ==> Skipped(times, j);
    }
  }

  lemma {:induction false} LastFlagTime(events: seq<Event>, x: string)
    requires FlagTimes(events, x) != []
    ensures LastAt(events, x) == Some(FlagTimes(events, x)[|FlagTimes(events, x)| - 1])
  {
    hide Lower;
    if !Mine(events[|events| - 1], x) {
      LastFlagTime(events[..|events| - 1], x);
    }
  }

  lemma {:induction false} FlagHeld(events: seq<Event>, x: string)
    ensures Held(events, x).active <==> FlagTimes(events, x) != [] && !HasGap(FlagTimes(events, x))
  {
    hide Lower, Bucket, HasGap, LastAt;
    if events == [] {
    } else {
      var front, e := events[..|events| - 1], events[|events| - 1];
      FlagHeld(front, x);
      OneTimeHasNoGap(e.at);
      if FlagTimes(front, x) != [] {
        LastFlagTime(front, x);
        GapSnoc(FlagTimes(front, x), e.at);
      }
    }
  }

  lemma OneTimeHasNoGap(t: int)
    ensures !HasGap([t])
  {
  }

  lemma FlagCarried(events: seq<Event>, x: string, now: int)
    ensures Carried(events, x, now).active <==> FlagTimes(events, x) != [] && !HasGap(FlagTimes(events, x) + [now])
  {
    hide Bucket, HasGap, LastAt, Held, FlagTimes;
    FlagHeld(events, x);
    if FlagTimes(events, x) != [] {
      LastFlagTime(events, x);
      GapSnoc(FlagTimes(events, x), now);
    }
  }

  lemma {:induction false} FlagKnown(events: seq<Event>, x: string)
    ensures Known(RunReference(events), x).active <==> FlagTimes(events, x) != []
  {
    hide Lower;
    if events != [] {
      FlagKnown(events[..|events| - 1], x);
    }
  }

  /** The agent's last read. */
  function LastRead(events: seq<Event>, x: string): Option<Event> {
    if events == [] then None
    else
      var last := events[|events| - 1];
      if Mine(last, x) && last.call.Read? then Some(last) else LastRead(events[..|events| - 1], x)
  }

  lemma {:induction false} ReadKnown(events: seq<Event>, x: string)
    ensures var r, known := LastRead(events, x), Known(RunReference(events), x);
            if r == None then known.lastRead == None && !known.heartbeat
            else r.value.call.Read? && known.lastRead == Some(r.value.at) && known.heartbeat == r.value.call.heartbeat
  {
    hide Lower;
    if events != [] {
      ReadKnown(events[..|events| - 1], x);
    }
  }

  /** The agent's last read, no heartbeat, is older than the normal window and not older than the long one. */
  predicate ReadInBetween(events: seq<Event>, x: string, now: int) {
    var r := LastRead(events, x);
    r.Some? && r.value.call == Read(false) && WINDOW_NORMAL < now - r.value.at <= WINDOW_LONG
  }

  // ---------- main results ----------

  /**
   * The store never lets pass what the unbounded map flags. It flags more in exactly one case: the
   * agent's task flag is set and its last read is between the two windows, but since the flag was
   * set the agent has once been silent over a whole bucket.
   */
  lemma FlagsAtLeastAsMuch(events: seq<Event>, agent: string, now: int)
    requires Trace(events) && ':' !in agent && forall i | 0 <= i < |events| :: events[i].at <= now
    ensures ReferenceFlags(events, agent, now) ==> StoreFlags(events, agent, now)
    ensures StoreFlags(events, agent, now) && !ReferenceFlags(events, agent, now)
       <==> FlagLost(events, agent, now) && ReadInBetween(events, agent, now)
  {
    hide Current, Known, Carried, FlagTimes, LastRead, HasGap, RunStore, RunReference, Dated;
    TraceRefines(events, now);
    CurrentIsCarried(events, agent, now);
    FlagCarried(events, agent, now);
    FlagKnown(events, agent);
    ReadKnown(events, agent);
    assert Close(Current(RunStore(events), agent, now), Known(RunReference(events), agent), now);
  }

  /** The task flag was set last, and since then the agent was never silent over a whole half-hour bucket. */
  predicate FlagKept(events: seq<Event>, x: string, now: int) {
    var times := FlagTimes(events, x) + [now];
    FlagTimes(events, x) != [] && forall j | 0 < j < |times| :: times[j] / 1_800_000 <= times[j - 1] / 1_800_000 + 1
  }

  lemma KeptIffNoGap(events: seq<Event>, x: string, now: int)
    ensures FlagKept(events, x, now) <==> FlagTimes(events, x) != [] && !HasGap(FlagTimes(events, x) + [now])
  {
    var times := FlagTimes(events, x) + [now];
    if FlagTimes(events, x) != [] && !HasGap(times) {
      forall j | 0 < j < |times|
        ensures times[j] / 1_800_000 <= times[j - 1] / 1_800_000 + 1
      {
        assert !Skipped(times, j);
      }
    }
    if HasGap(times) {
      var j :| 0 < j < |times| && Skipped(times, j);
      assert times[j] / 1_800_000 > times[j - 1] / 1_800_000 + 1;
    }
  }

  /**
   * The verdict on every trace, told from the trace alone: an action is flagged exactly if the agent has never
   * read its state, or its last read is older than 5 minutes when that was a heartbeat, else than 30 minutes
   * when a task flag is kept, and else than 10 minutes.
   */
  lemma VerdictTold(events: seq<Event>, agent: string, now: int)
    requires Trace(events) && ':' !in agent && forall i | 0 <= i < |events| :: events[i].at <= now
    ensures var r := LastRead(events, agent);
            StoreFlags(events, agent, now)
            <==> r == None
                 || now - r.value.at > (if r.value.call == Read(true) then 300_000
                                        else if FlagKept(events, agent, now) then 1_800_000 else 600_000)
  {
    hide Current, Known, FlagTimes, LastRead, HasGap, RunStore, RunReference, FlagKept, StoreFlags;
    FlagsAtLeastAsMuch(events, agent, now);
    KeptIffNoGap(events, agent, now);
    FlagKnown(events, agent);
    ReadKnown(events, agent);
  }

  /** A trace on which it happens: a flag set in one bucket, a read two buckets later, an action 15 minutes after. */
  lemma FlagCanBeLost()
    ensures var minute := 60 * 1000;
            var events := [Event("a", SetActive(true), 0), Event("a", Read(false), 60 * minute)];
            StoreFlags(events, "a", 75 * minute) && !ReferenceFlags(events, "a", 75 * minute)
  {
    hide Lower, StoreFlags, ReferenceFlags;
    var set_, read := Event("a", SetActive(true), 0), Event("a", Read(false), 3_600_000);
    var events := [set_, read];
    assert events[..1] == [set_] && [set_][..0] == [];
    assert FlagTimes([set_], "a") == [0] && FlagTimes(events, "a") == [0] + [3_600_000];
    assert Skipped([0, 3_600_000, 4_500_000], 1);
    assert FlagTimes(events, "a") + [4_500_000] == [0, 3_600_000, 4_500_000];
    assert LastRead(events, "a") == Some(read);
    FlagsAtLeastAsMuch(events, "a", 4_500_000);
  }

  predicate NeverActive(events: seq<Event>) {
    forall i | 0 <= i < |events| :: events[i].call != SetActive(true)
  }

  lemma {:induction false} InactiveReference(events: seq<Event>, agent: string)
    requires NeverActive(events)
    ensures !Known(RunReference(events), agent).active
  {
    hide Lower;
    if events != [] {
      var front, last := events[..|events| - 1], events[|events| - 1];
      InactiveReference(front, agent);
      InactiveReference(front, last.agent);
    }
  }

  /** Without active-task flags the verdicts are the same, along every trace. */
  lemma SameVerdictWithoutFlags(events: seq<Event>, agent: string, now: int)
    requires Trace(events) && ':' !in agent && forall i | 0 <= i < |events| :: events[i].at <= now
    requires NeverActive(events)
    ensures StoreFlags(events, agent, now) <==> ReferenceFlags(events, agent, now)
  {
    hide StoreFlags, ReferenceFlags, FlagTimes, HasGap, ReadInBetween, Known;
    FlagsAtLeastAsMuch(events, agent, now);
    InactiveReference(events, agent);
    FlagKnown(events, agent);
  }
}
