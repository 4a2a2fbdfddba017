/** The approval queue of src/agent-runs.ts: an append-only event log in which a request is
    pending as long as no decision of its run is later than the request. */
module ApprovalQueue {
  import opened Keyed
  import opened Sorting
  import opened Wrappers

  datatype Kind =
    | ReviewRequested | ReviewApproved | ReviewRejected
    | ApprovalRequested | ApprovalApproved | ApprovalRejected
    | HandedOff | OtherKind(name: string)

  datatype Rationale = NoRationale | GoodRationale | BadRationale
  datatype Routing = NoRouting | GoodRouting | BadRouting

  datatype Payload = Payload(rationale: Rationale, routing: Routing, expiresAt: Option<int>, original: Option<string>)

  datatype Event = Event(id: string, runId: Option<string>, agent: string, kind: Kind, payload: Payload, createdAt: int)

  datatype RunStatus = Idle | Working | Blocked | WaitingReview | Completed | Failed | Cancelled | Archived

  // ---------- appending ----------

  predicate NeedsRationale(k: Kind) {
    k in {ReviewRequested, ReviewApproved, ReviewRejected, HandedOff}
  }

  predicate Actionable(k: Kind) {
    k in {ReviewRequested, ApprovalRequested, OtherKind("escalation"), OtherKind("handoff")}
  }

  predicate RoutingFits(k: Kind, p: Payload) {
    !(Actionable(k) || p.routing != NoRouting || p.expiresAt.Some?) || p.routing == GoodRouting
  }

  predicate Appendable(k: Kind, p: Payload, enforceRouting: bool) {
    && (NeedsRationale(k) ==> p.rationale == GoodRationale)
    && p.rationale != BadRationale
    && (enforceRouting ==> RoutingFits(k, p))
  }

  /** What speaks against an event: a malformed rationale, or none where reviews and hand-offs need one; where
      routing is enforced, none or a malformed one on what asks for an action, expires, or is routed at all. */
  predicate Refused(k: Kind, p: Payload, enforceRouting: bool) {
    || p.rationale == BadRationale
    || (p.rationale == NoRationale && (k.ReviewRequested? || k.ReviewApproved? || k.ReviewRejected? || k.HandedOff?))
    || (enforceRouting && p.routing == BadRouting)
    || (enforceRouting && p.routing == NoRouting
        && (p.expiresAt.Some? || k.ReviewRequested? || k.ApprovalRequested?
            || k == OtherKind("escalation") || k == OtherKind("handoff")))
  }

  lemma RefusedIff(k: Kind, p: Payload, enforceRouting: bool)
    ensures Refused(k, p, enforceRouting) <==> !Appendable(k, p, enforceRouting)
  {
  }

  // ---------- which requests are pending ----------

  predicate IsRequest(e: Event) {
    e.kind in {ReviewRequested, ApprovalRequested}
  }

  predicate IsDecision(e: Event) {
    e.kind in {ReviewApproved, ReviewRejected, ApprovalApproved, ApprovalRejected}
  }

  /** The decision `d` answers the request `e`; an event without a run is never answered. */
  predicate Answers(d: Event, e: Event) {
    IsDecision(d) && e.runId.Some? && d.runId == e.runId && d.createdAt > e.createdAt
  }

  predicate Answered(events: seq<Event>, e: Event) {
    exists i | 0 <= i < |events| :: Answers(events[i], e)
  }

  predicate Pending(events: seq<Event>, e: Event) {
    IsRequest(e) && !Answered(events, e)
  }

  function Where<T>(xs: seq<T>, p: T -> bool): seq<T> {
    if xs == [] then []
    else if p(xs[0]) then [xs[0]] + Where(xs[1..], p)
    else Where(xs[1..], p)
  }

  function Age(e: Event): int { -e.createdAt }

  function CreatedAt(e: Event): int { e.createdAt }

  /** A negative limit is no limit. */
  function Limited(xs: seq<Event>, limit: int): seq<Event> {
    if limit < 0 || |xs| <= limit then xs else xs[..limit]
  }

  datatype Filter = Filter(agent: string, category: Option<Kind>, includeExpired: bool, limit: int)

  predicate Selected(f: Filter, e: Event) {
    && (f.agent == "" || e.agent == f.agent)
    && (f.category.Some? ==> e.kind == f.category.value)
  }

  predicate Expired(e: Event, now: int) {
    e.payload.expiresAt.Some? && e.payload.expiresAt.value < now
  }

  function PendingOf(events: seq<Event>, f: Filter): seq<Event> {
    Where(events, (e: Event) => Pending(events, e) && Selected(f, e))
  }

  /** The selected pending requests, newest first: the order in which the limit counts them. */
  function Standing(events: seq<Event>, f: Filter): seq<Event> {
    SortBy(PendingOf(events, f), Age)
  }

  function Rows(events: seq<Event>, f: Filter): seq<Event> {
    Limited(Standing(events, f), f.limit)
  }

  function Queue(events: seq<Event>, f: Filter, now: int): seq<Event> {
    var rows := Rows(events, f);
    if f.includeExpired then rows else Where(rows, (e: Event) => !Expired(e, now))
  }

  // ---------- decisions ----------

  function Find(events: seq<Event>, id: string): (found: Option<Event>)
    ensures found.Some? ==> found.value in events && found.value.id == id
    ensures found.None? ==> forall i | 0 <= i < |events| :: events[i].id != id
  {
    if events == [] then None
    else if events[0].id == id then Some(events[0])
    else Find(events[1..], id)
  }

  function DecisionKind(request: Kind, approve: bool): Kind {
    if request == ReviewRequested then if approve then ReviewApproved else ReviewRejected
    else if approve then ApprovalApproved else ApprovalRejected
  }

  function DecisionOn(e: Event, approve: bool, rationale: Rationale, id: string, now: int): Event {
    Event(id, e.runId, e.agent, DecisionKind(e.kind, approve), Payload(rationale, NoRouting, None, Some(e.id)), now)
  }

  /** The run of the request waits for its review. */
  predicate Unblocks(runs: map<string, RunStatus>, e: Event, approve: bool) {
    approve && e.runId.Some? && e.runId.value != "" && e.runId.value in runs && runs[e.runId.value] == WaitingReview
  }

  // ---------- the sweep of overdue cards ----------

  function Overdue(events: seq<Event>, cutoff: int): seq<Event> {
    SortBy(Where(events, (e: Event) => Pending(events, e) && e.createdAt < cutoff), CreatedAt)
  }

  /** The decisions a sweep records: refused for a review card, which would need a rationale. */
  function SweepDecisions(cards: seq<Event>, ids: nat -> string, clock: nat -> int): seq<Event> {
    if cards == [] then []
    else
      var n := |cards| - 1;
      var front := SweepDecisions(cards[..n], ids, clock);
      if cards[n].kind == ReviewRequested then front
      else front + [DecisionOn(cards[n], false, NoRationale, ids(n), clock(n + 1))]
  }

  function Swept(events: seq<Event>, ttl: int, ids: nat -> string, clock: nat -> int): seq<Event> {
    events + SweepDecisions(Overdue(events, clock(0) - ttl), ids, clock)
  }

  class EventLog {
    var events: seq<Event>
    var runs: map<string, RunStatus>

    constructor ()
      ensures events == [] && runs == map[]
    {
      events, runs := [], map[];
    }

    method AppendAgentEvent(e: Event, enforceRouting: bool) returns (r: Result<Event>)
      modifies this`events
      ensures Appendable(e.kind, e.payload, enforceRouting) ==> r == Ok(e) && events == old(events) + [e]
      ensures !Appendable(e.kind, e.payload, enforceRouting) ==> r.Err? && events == old(events)
      ensures r.Err? <==> Refused(e.kind, e.payload, enforceRouting)
    {
      RefusedIff(e.kind, e.payload, enforceRouting);
      if NeedsRationale(e.kind) && e.payload.rationale == NoRationale {
        return Err("rationale is required");
      }
      if e.payload.rationale == BadRationale {
        return Err("rationale.choice is required");
      }
      if enforceRouting && !RoutingFits(e.kind, e.payload) {
        return Err("Routing semantics violation");
      }
      events := events + [e];
      r := Ok(e);
    }

    method ListApprovalQueue(f: Filter, now: int) returns (items: seq<Event>)
      ensures items == Queue(events, f, now)
    {
      hide Rows;
      var rows := Rows(events, f);
      if f.includeExpired {
        return rows;
      }
      ghost var live := (e: Event) => !Expired(e, now);
      items := [];
      for i := 0 to |rows|
        invariant items + Where(rows[i..], live) == Where(rows, live)
      {
        assert rows[i..][1..] == rows[i + 1..];
        if !Expired(rows[i], now) {
          items := items + [rows[i]];
        }
      }
    }

    method SubmitApprovalDecision(eventId: string, approve: bool, rationale: Rationale, id: string, now: int)
      returns (r: Result<bool>)
      modifies this
      ensures r == DecisionResult(old(events), old(runs), eventId, approve, rationale)
      ensures r == Err("not found") <==> forall i | 0 <= i < |old(events)| :: old(events)[i].id != eventId
      ensures r.Err? ==> events == old(events) && runs == old(runs)
      ensures r.Ok? ==>
          events == old(events) + [DecisionOn(Find(old(events), eventId).value, approve, rationale, id, now)]
      ensures r.Ok? ==>
          var card, d := Find(old(events), eventId).value, events[|events| - 1];
          d.id == id && d.runId == card.runId && d.agent == card.agent && d.createdAt == now
          && d.payload == Payload(rationale, NoRouting, None, Some(eventId))
          && (d.kind in {ReviewApproved, ApprovalApproved} <==> approve)
          && (d.kind in {ReviewRejected, ApprovalRejected} <==> !approve)
          && (d.kind in {ReviewApproved, ReviewRejected} <==> card.kind == ReviewRequested)
      ensures r == Ok(false) ==> runs == old(runs)
      ensures r == Ok(true) ==> runs == old(runs)[Find(old(events), eventId).value.runId.value := Working]
    {
      var found := Find(events, eventId);
      if found.None? {
        return Err("not found");
      }
      var original := found.value;
      if !IsRequest(original) {
        return Err("wrong type");
      }
      var appended := AppendAgentEvent(DecisionOn(original, approve, rationale, id, now), true);
      if appended.Err? {
        return Err("rationale");
      }
      var unblocked := Unblocks(runs, original, approve);
      if unblocked {
        runs := runs[original.runId.value := Working];
      }
      r := Ok(unblocked);
      DecisionRecorded(original, approve, rationale, id, now);
    }

    method SweepExpiredApprovalCards(ttl: int, ids: nat -> string, clock: nat -> int) returns (pruned: nat)
      modifies this`events
      ensures events == Swept(old(events), ttl, ids, clock)
      ensures pruned == |events| - |old(events)|
    {
      hide Overdue;
      var cards := Overdue(events, clock(0) - ttl);
      OverdueAreRequests(events, clock(0) - ttl);
      pruned := 0;
      for i := 0 to |cards|
        invariant events == old(events) + SweepDecisions(cards[..i], ids, clock)
        invariant pruned == |events| - |old(events)|
        invariant forall j | 0 <= j < |cards| :: IsRequest(cards[j])
      {
        assert cards[..i + 1][..i] == cards[..i];
        var appended := AppendAgentEvent(DecisionOn(cards[i], false, NoRationale, ids(i), clock(i + 1)), true);
        if appended.Ok? {
          pruned := pruned + 1;
        }
      }
      assert cards[..|cards|] == cards;
    }
  }

  /** The decision on a card says whose it is, which card it decides, whether it approves, and which sort of card. */
  lemma DecisionRecorded(card: Event, approve: bool, rationale: Rationale, id: string, now: int)
    ensures var d := DecisionOn(card, approve, rationale, id, now);
            d.id == id && d.runId == card.runId && d.agent == card.agent && d.createdAt == now
            && d.payload == Payload(rationale, NoRouting, None, Some(card.id))
            && (d.kind in {ReviewApproved, ApprovalApproved} <==> approve)
            && (d.kind in {ReviewRejected, ApprovalRejected} <==> !approve)
            && (d.kind in {ReviewApproved, ReviewRejected} <==> card.kind == ReviewRequested)
  {
  }

  /** Exactly when a decision is refused, and when it lets the run go on. */
  lemma DecisionResultTold(events: seq<Event>, runs: map<string, RunStatus>, eventId: string, approve: bool,
      rationale: Rationale)
    ensures var r, card := DecisionResult(events, runs, eventId, approve, rationale), Find(events, eventId);
            (r.Ok? <==> card.Some? && card.value.kind in {ReviewRequested, ApprovalRequested}
                        && (rationale == GoodRationale
                            || (rationale == NoRationale && card.value.kind == ApprovalRequested)))
            && (r == Ok(true) <==> r.Ok? && approve && card.value.runId.Some? && card.value.runId.value != ""
                                   && card.value.runId.value in runs && runs[card.value.runId.value] == WaitingReview)
  {
  }

  function DecisionResult(events: seq<Event>, runs: map<string, RunStatus>, eventId: string, approve: bool,
      rationale: Rationale): Result<bool> {
    var found := Find(events, eventId);
    if found.None? then Err("not found")
    else if !IsRequest(found.value) then Err("wrong type")
    else if rationale == BadRationale || (rationale == NoRationale && found.value.kind == ReviewRequested) then Err("rationale")
    else Ok(Unblocks(runs, found.value, approve))
  }

  // ---------- who is in the queue ----------

  lemma {:induction false} WhereMembers<T>(xs: seq<T>, p: T -> bool)
    ensures forall x :: x in Where(xs, p) <==> x in xs && p(x)
  {
    if xs != [] {
      assert xs == [xs[0]] + xs[1..];
      WhereMembers(xs[1..], p);
    }
  }

  lemma OverdueMembers(events: seq<Event>, cutoff: int)
    ensures forall e :: e in Overdue(events, cutoff) <==> e in events && Pending(events, e) && e.createdAt < cutoff
  {
    hide Pending, SortBy;
    var p := (e: Event) => Pending(events, e) && e.createdAt < cutoff;
    WhereMembers(events, p);
    SortedMembers(Where(events, p), CreatedAt);
  }

  lemma OverdueAreRequests(events: seq<Event>, cutoff: int)
    ensures forall i | 0 <= i < |Overdue(events, cutoff)| :: IsRequest(Overdue(events, cutoff)[i])
  {
    hide Overdue;
    OverdueMembers(events, cutoff);
    assert forall i | 0 <= i < |Overdue(events, cutoff)| :: Overdue(events, cutoff)[i] in Overdue(events, cutoff);
  }

  lemma PendingOfMembers(events: seq<Event>, f: Filter)
    ensures forall e :: e in PendingOf(events, f) <==> e in events && Pending(events, e) && Selected(f, e)
  {
    hide Pending, Selected;
    WhereMembers(events, (e: Event) => Pending(events, e) && Selected(f, e));
  }

  /** A request is pending as long as no decision of its run is later; one without a run always is. */
  lemma PendingTold(events: seq<Event>, e: Event)
    ensures Pending(events, e)
       <==> e.kind in {ReviewRequested, ApprovalRequested}
            && (e.runId.Some? ==> forall i | 0 <= i < |events| &&
                  events[i].kind in {ReviewApproved, ReviewRejected, ApprovalApproved, ApprovalRejected}
                  && events[i].runId == e.runId :: events[i].createdAt <= e.createdAt)
  {
    if e.runId.Some? && IsRequest(e) && !Answered(events, e) {
      forall i | 0 <= i < |events| && IsDecision(events[i]) && events[i].runId == e.runId
        ensures events[i].createdAt <= e.createdAt
      {
        assert !Answers(events[i], e);
      }
    }
  }

  /** Without a limit the queue lists exactly the pending requests of the agent and sort asked for that have not
      expired before now. */
  lemma QueueTold(events: seq<Event>, f: Filter, now: int)
    requires f.limit < 0
    ensures forall e ::
        e in Queue(events, f, now)
        <==> e in events && Pending(events, e)
             && (f.agent == "" || e.agent == f.agent) && (f.category == None || f.category == Some(e.kind))
             && (f.includeExpired || e.payload.expiresAt == None || e.payload.expiresAt.value >= now)
  {
    hide Pending, Queue;
    QueueIsPending(events, f, now);
  }

  /** When the limit is not hit, exactly the selected pending requests are listed. */
  lemma QueueIsPending(events: seq<Event>, f: Filter, now: int)
    requires f.limit < 0 || |PendingOf(events, f)| <= f.limit
    ensures forall e ::
        e in Queue(events, f, now) <==> e in events && Pending(events, e) && Selected(f, e) && (f.includeExpired || !Expired(e, now))
  {
    hide Pending, Selected, SortBy, Where, PendingOf;
    PendingOfMembers(events, f);
    SortBySorts(PendingOf(events, f), Age);
    SortedMembers(PendingOf(events, f), Age);
    WhereMembers(Rows(events, f), (e: Event) => !Expired(e, now));
  }

  /** The limit is applied before expired cards are left out: no listed card is older than a pending one that fell to
      it. */
  lemma LimitKeepsNewest(events: seq<Event>, f: Filter, now: int, e: Event, k: Event)
    requires e in events && Pending(events, e) && Selected(f, e) && (f.includeExpired || !Expired(e, now))
    requires e !in Queue(events, f, now) && k in Queue(events, f, now)
    ensures k.createdAt >= e.createdAt
  {
    hide Pending, Selected, SortBy, Where, PendingOf;
    var rows, sorted := Rows(events, f), SortBy(PendingOf(events, f), Age);
    PendingOfMembers(events, f);
    SortBySorts(PendingOf(events, f), Age);
    SortedMembers(PendingOf(events, f), Age);
    WhereMembers(rows, (x: Event) => !Expired(x, now));
    assert e in sorted && e !in rows && k in rows;
    var i :| 0 <= i < |sorted| && sorted[i] == e;
    var j :| 0 <= j < |rows| && rows[j] == k;
    assert forall q | 0 <= q < |rows| :: rows[q] == sorted[q] && rows[q] in rows;
    assert Age(sorted[j]) <= Age(sorted[i]);
  }

  function IdOf(e: Event): string { e.id }

  lemma {:induction false} WhereNarrows<T>(xs: seq<T>, p: T -> bool)
    ensures multiset(Where(xs, p)) <= multiset(xs)
  {
    if xs != [] {
      assert xs == [xs[0]] + xs[1..];
      WhereNarrows(xs[1..], p);
    }
  }

  lemma StandingUnique(events: seq<Event>, f: Filter)
    requires UniqueKeys(events, IdOf)
    ensures UniqueKeys(Standing(events, f), IdOf)
  {
    hide Pending, Selected, SortBy, Sorted, UniqueKeys;
    WhereNarrows(events, (e: Event) => Pending(events, e) && Selected(f, e));
    SubUnique(PendingOf(events, f), events, IdOf);
    SortedUnique(PendingOf(events, f), IdOf, Age);
  }

  lemma OnePlace(rows: seq<Event>, i: nat, n: nat)
    requires UniqueKeys(rows, IdOf) && i < |rows| && n <= |rows|
    ensures rows[i] in rows[..n] <==> i < n
  {
    if rows[i] in rows[..n] {
      var k :| 0 <= k < n && rows[..n][k] == rows[i];
      assert Keys(rows, IdOf)[k] == Keys(rows, IdOf)[i];
    }
    if i < n {
      assert rows[..n][i] == rows[i];
    }
  }

  /**
   * Exactly which requests are listed, whatever the limit: the selected pending request that `i`
   * others stand before, expired ones counted, is in the queue exactly if the limit reaches beyond
   * them and it is not left out as expired. A live request is hidden exactly if at least `limit`
   * newer pending ones stand before it.
   */
  lemma QueueByPosition(events: seq<Event>, f: Filter, now: int, i: nat)
    requires UniqueKeys(events, IdOf) && i < |Standing(events, f)|
    ensures Standing(events, f)[i] in Queue(events, f, now)
       <==> (f.limit < 0 || i < f.limit) && (f.includeExpired || !Expired(Standing(events, f)[i], now))
  {
    hide Pending, Selected, SortBy, Where, PendingOf, UniqueKeys;
    var rows := Standing(events, f);
    StandingUnique(events, f);
    WhereMembers(Rows(events, f), (e: Event) => !Expired(e, now));
    OnePlace(rows, i, if f.limit < 0 || |rows| <= f.limit then |rows| else f.limit);
  }

  /** The queue holds nothing else, and every selected pending request stands somewhere. */
  lemma StandingIsPending(events: seq<Event>, f: Filter, now: int)
    ensures forall e :: e in Standing(events, f) <==> e in events && Pending(events, e) && Selected(f, e)
    ensures forall e | e in Queue(events, f, now) :: e in Standing(events, f)
    ensures forall i, j | 0 <= i <= j < |Standing(events, f)| ::
        Standing(events, f)[i].createdAt >= Standing(events, f)[j].createdAt
  {
    hide Pending, Selected, SortBy, Where, PendingOf;
    PendingOfMembers(events, f);
    SortBySorts(PendingOf(events, f), Age);
    SortedMembers(PendingOf(events, f), Age);
    WhereMembers(Rows(events, f), (e: Event) => !Expired(e, now));
    var rows := Standing(events, f);
    forall i, j | 0 <= i <= j < |rows|
      ensures rows[i].createdAt >= rows[j].createdAt
    {
      assert Age(rows[i]) <= Age(rows[j]);
    }
  }

  /** A log that shows it: with a limit of one, a newer expired card hides a live one. */
  lemma ExpiredCardHidesLiveOne()
    ensures exists events, e ::
              && e in events && Pending(events, e) && !Expired(e, 10)
              && Queue(events, Filter("", None, false, 1), 10) == []
  {
    var live := Event("a", None, "x", ApprovalRequested, Payload(NoRationale, GoodRouting, None, None), 1);
    var stale := Event("b", None, "x", ApprovalRequested, Payload(NoRationale, GoodRouting, Some(5), None), 2);
    var events, f := [live, stale], Filter("", None, false, 1);
    var selected := (e: Event) => Pending(events, e) && Selected(f, e);
    assert !Answered(events, live) && !Answered(events, stale);
    assert Where([stale], selected) == [stale];
    assert PendingOf(events, f) == events;
    assert SortBy([stale], Age) == [stale];
    assert events[1..] == [stale];
    assert SortBy(events, Age) == Insert(live, [stale], Age);
    assert Insert(live, [stale], Age) == [stale] + Insert(live, [], Age);
    assert Rows(events, f) == [stale];
    assert Where([stale], (e: Event) => !Expired(e, 10)) == [];
    assert live in events;
  }

  // ---------- what a decision does to the queue ----------

  lemma AnsweredAppend(events: seq<Event>, more: seq<Event>, e: Event)
    ensures Answered(events + more, e) <==> Answered(events, e) || Answered(more, e)
  {
    hide Answers;
    var all := events + more;
    if Answered(events, e) {
      var i :| 0 <= i < |events| && Answers(events[i], e);
      assert Answers(all[i], e);
    }
    if Answered(more, e) {
      var i :| 0 <= i < |more| && Answers(more[i], e);
      assert Answers(all[|events| + i], e);
    }
    if Answered(all, e) {
      var i :| 0 <= i < |all| && Answers(all[i], e);
      assert i < |events| || Answers(more[i - |events|], e);
    }
  }

  /** The log only grows, so an answered request never returns. */
  lemma AnsweredForGood(events: seq<Event>, more: seq<Event>, e: Event)
    ensures Pending(events + more, e) ==> Pending(events, e)
  {
    AnsweredAppend(events, more, e);
  }

  /** One decision clears every strictly earlier request of its run, whichever card it was made on, and nothing else. */
  lemma DecisionClearsRun(events: seq<Event>, o: Event, approve: bool, rationale: Rationale, id: string, now: int,
      e: Event)
    requires IsRequest(o)
    ensures Pending(events + [DecisionOn(o, approve, rationale, id, now)], e)
       <==> Pending(events, e) && !(o.runId.Some? && e.runId == o.runId && e.createdAt < now)
  {
    var d := DecisionOn(o, approve, rationale, id, now);
    AnsweredAppend(events, [d], e);
    assert Answered([d], e) <==> Answers([d][0], e);
  }

  // ---------- what a sweep does to the queue ----------

  ghost predicate Steady(clock: nat -> int) {
    forall i, j | i <= j :: clock(i) <= clock(j)
  }

  /** The decision `d`, recorded at `start` or later, turns the approval card `c` down. */
  ghost predicate TurnsDown(d: Event, c: Event, start: int) {
    && d.kind == ApprovalRejected && c.kind == ApprovalRequested
    && d.runId == c.runId && d.payload.original == Some(c.id) && d.createdAt >= start
  }

  ghost predicate TurnedDown(ds: seq<Event>, c: Event, start: int) {
    exists j | 0 <= j < |ds| :: TurnsDown(ds[j], c, start)
  }

  ghost predicate ForSomeCard(d: Event, cards: seq<Event>, start: int) {
    exists j | 0 <= j < |cards| :: TurnsDown(d, cards[j], start)
  }

  lemma ForMoreCards(d: Event, front: seq<Event>, c: Event, start: int)
    requires ForSomeCard(d, front, start)
    ensures ForSomeCard(d, front + [c], start)
  {
    hide TurnsDown;
    var j :| 0 <= j < |front| && TurnsDown(d, front[j], start);
    assert TurnsDown(d, (front + [c])[j], start);
  }

  lemma TurnedDownStill(ds: seq<Event>, d: Event, c: Event, start: int)
    requires TurnedDown(ds, c, start)
    ensures TurnedDown(ds + [d], c, start)
  {
    hide TurnsDown;
    var j :| 0 <= j < |ds| && TurnsDown(ds[j], c, start);
    assert TurnsDown((ds + [d])[j], c, start);
  }

  lemma LastTurnedDown(front: seq<Event>, ds: seq<Event>, c: Event, id: string, now: int, start: int)
    requires c.kind == ApprovalRequested && start <= now
    ensures var d := DecisionOn(c, false, NoRationale, id, now);
            ForSomeCard(d, front + [c], start) && TurnedDown(ds + [d], c, start)
  {
    var d := DecisionOn(c, false, NoRationale, id, now);
    assert TurnsDown(d, (front + [c])[|front|], start) && TurnsDown((ds + [d])[|ds|], c, start);
  }

  /** The decisions of a sweep and its approval cards correspond. */
  lemma {:induction false} SweepTurnsDownApprovals(cards: seq<Event>, ids: nat -> string, clock: nat -> int)
    requires Steady(clock) && forall i | 0 <= i < |cards| :: IsRequest(cards[i])
    ensures forall i | 0 <= i < |SweepDecisions(cards, ids, clock)| ::
        ForSomeCard(SweepDecisions(cards, ids, clock)[i], cards, clock(0))
    ensures forall i | 0 <= i < |cards| && cards[i].kind == ApprovalRequested ::
        TurnedDown(SweepDecisions(cards, ids, clock), cards[i], clock(0))
  {
    hide TurnsDown, ForSomeCard, TurnedDown, DecisionOn;
    if cards != [] {
      var n := |cards| - 1;
      var front, c := cards[..n], cards[n];
      var before, d := SweepDecisions(front, ids, clock), DecisionOn(c, false, NoRationale, ids(n), clock(n + 1));
      assert cards == front + [c];
      SweepTurnsDownApprovals(front, ids, clock);
      forall i | 0 <= i < |before|
        ensures ForSomeCard(before[i], cards, clock(0))
      {
        ForMoreCards(before[i], front, c, clock(0));
      }
      if c.kind == ApprovalRequested {
        LastTurnedDown(front, before, c, ids(n), clock(n + 1), clock(0));
        forall i | 0 <= i < n && cards[i].kind == ApprovalRequested
          ensures TurnedDown(before + [d], cards[i], clock(0))
        {
          assert front[i] == cards[i];
          TurnedDownStill(before, d, cards[i], clock(0));
        }
      } else {
        assert forall i | 0 <= i < n :: front[i] == cards[i];
      }
    }
  }

  ghost predicate OverdueApproval(events: seq<Event>, cutoff: int, c: Event) {
    c in events && Pending(events, c) && c.createdAt < cutoff && c.kind == ApprovalRequested
  }

  ghost predicate NoneOverdue(events: seq<Event>, cutoff: int) {
    forall c :: !OverdueApproval(events, cutoff, c)
  }

  /** Some overdue approval card belongs to the run. */
  ghost predicate RunSwept(events: seq<Event>, cutoff: int, run: Option<string>) {
    run.Some? && exists c :: OverdueApproval(events, cutoff, c) && c.runId == run
  }

  lemma TurnsDownRun(d: Event, c: Event, start: int, e: Event)
    requires TurnsDown(d, c, start) && e.createdAt < start
    ensures Answers(d, e) <==> e.runId.Some? && c.runId == e.runId
  {
  }

  /** `cards` are the overdue requests of the log. */
  ghost predicate OverdueCards(cards: seq<Event>, events: seq<Event>, cutoff: int) {
    && (forall e :: e in cards <==> e in events && Pending(events, e) && e.createdAt < cutoff)
    && (forall i | 0 <= i < |cards| :: IsRequest(cards[i]))
  }

  lemma SweptAnswered(events: seq<Event>, cutoff: int, cards: seq<Event>, ids: nat -> string, clock: nat -> int,
      e: Event)
    requires OverdueCards(cards, events, cutoff)
    requires Steady(clock) && e.createdAt < clock(0) && Answered(SweepDecisions(cards, ids, clock), e)
    ensures RunSwept(events, cutoff, e.runId)
  {
    hide Pending, SweepDecisions, TurnsDown, Answers, IsRequest, Steady;
    var ds := SweepDecisions(cards, ids, clock);
    SweepTurnsDownApprovals(cards, ids, clock);
    var i :| 0 <= i < |ds| && Answers(ds[i], e);
    assert ForSomeCard(ds[i], cards, clock(0));
    var j :| 0 <= j < |cards| && TurnsDown(ds[i], cards[j], clock(0));
    TurnsDownRun(ds[i], cards[j], clock(0), e);
    assert cards[j] in cards && cards[j].kind == ApprovalRequested by {
      TurnsDownKind(ds[i], cards[j], clock(0));
    }
    assert OverdueApproval(events, cutoff, cards[j]);
  }

  lemma TurnsDownKind(d: Event, c: Event, start: int)
    requires TurnsDown(d, c, start)
    ensures c.kind == ApprovalRequested
  {
  }

  lemma SweptUnanswered(events: seq<Event>, cutoff: int, cards: seq<Event>, ids: nat -> string, clock: nat -> int,
      e: Event)
    requires OverdueCards(cards, events, cutoff)
    requires Steady(clock) && e.createdAt < clock(0) && RunSwept(events, cutoff, e.runId)
    ensures Answered(SweepDecisions(cards, ids, clock), e)
  {
    hide Pending, SweepDecisions, TurnsDown, Answers, IsRequest, Steady;
    var ds := SweepDecisions(cards, ids, clock);
    SweepTurnsDownApprovals(cards, ids, clock);
    var c :| OverdueApproval(events, cutoff, c) && c.runId == e.runId;
    var i :| 0 <= i < |cards| && cards[i] == c;
    assert TurnedDown(ds, cards[i], clock(0));
    var j :| 0 <= j < |ds| && TurnsDown(ds[j], cards[i], clock(0));
    TurnsDownRun(ds[j], cards[i], clock(0), e);
  }

  lemma SweptAnswers(events: seq<Event>, ttl: int, ids: nat -> string, clock: nat -> int, e: Event)
    requires Steady(clock) && e.createdAt < clock(0)
    ensures Answered(SweepDecisions(Overdue(events, clock(0) - ttl), ids, clock), e)
       <==> RunSwept(events, clock(0) - ttl, e.runId)
  {
    hide Overdue, Pending, SweepDecisions, Answered, RunSwept, IsRequest, Steady;
    var cutoff := clock(0) - ttl;
    OverdueMembers(events, cutoff);
    OverdueAreRequests(events, cutoff);
    if Answered(SweepDecisions(Overdue(events, cutoff), ids, clock), e) {
      SweptAnswered(events, cutoff, Overdue(events, cutoff), ids, clock, e);
    }
    if RunSwept(events, cutoff, e.runId) {
      SweptUnanswered(events, cutoff, Overdue(events, cutoff), ids, clock, e);
    }
  }

  /**
   * A sweep closes every request of a run that has an overdue approval card, whether or not that
   * request is overdue itself, and leaves every other request as it was: a review card alone in
   * its run survives, and so does a card without a run.
   */
  lemma SweepClosesRuns(events: seq<Event>, ttl: int, ids: nat -> string, clock: nat -> int, e: Event)
    requires Steady(clock) && e.createdAt < clock(0)
    ensures Pending(Swept(events, ttl, ids, clock), e)
       <==> Pending(events, e) && !RunSwept(events, clock(0) - ttl, e.runId)
  {
    hide Overdue, Answered, RunSwept, SweepDecisions;
    if IsRequest(e) {
      SweptAnswers(events, ttl, ids, clock, e);
      AnsweredAppend(events, SweepDecisions(Overdue(events, clock(0) - ttl), ids, clock), e);
    }
  }

  /** An overdue approval card of a run is always closed. */
  lemma SweepClosesApprovals(events: seq<Event>, ttl: int, ids: nat -> string, clock: nat -> int, c: Event)
    requires Steady(clock) && 0 <= ttl && OverdueApproval(events, clock(0) - ttl, c) && c.runId.Some?
    ensures !Pending(Swept(events, ttl, ids, clock), c)
  {
    hide Pending, Swept;
    SweepClosesRuns(events, ttl, ids, clock, c);
    assert RunSwept(events, clock(0) - ttl, c.runId);
  }

  /** A card without a run stays in the queue for ever. */
  lemma RunlessStaysPending(events: seq<Event>, e: Event)
    requires IsRequest(e) && e.runId.None?
    ensures Pending(events, e)
  {
  }

  /** A sweep records no request. */
  lemma SweepAddsNoRequest(events: seq<Event>, ttl: int, ids: nat -> string, clock: nat -> int, e: Event)
    requires Steady(clock) && IsRequest(e) && e in Swept(events, ttl, ids, clock)
    ensures e in events
  {
    hide Overdue, Pending, SweepDecisions, Steady;
    var cards := Overdue(events, clock(0) - ttl);
    var ds := SweepDecisions(cards, ids, clock);
    OverdueAreRequests(events, clock(0) - ttl);
    SweepTurnsDownApprovals(cards, ids, clock);
    forall i | 0 <= i < |ds|
      ensures !IsRequest(ds[i])
    {
      assert ForSomeCard(ds[i], cards, clock(0));
    }
  }

  lemma {:induction false} DecisionsForApprovals(cards: seq<Event>, ids: nat -> string, clock: nat -> int)
    requires forall i | 0 <= i < |cards| :: IsRequest(cards[i])
    ensures SweepDecisions(cards, ids, clock) == []
       <==> forall i | 0 <= i < |cards| :: cards[i].kind != ApprovalRequested
  {
    if cards != [] {
      DecisionsForApprovals(cards[..|cards| - 1], ids, clock);
      assert forall i | 0 <= i < |cards| - 1 :: cards[..|cards| - 1][i] == cards[i];
    }
  }

  /** A sweep records nothing exactly when no approval card is overdue. */
  lemma SweepIsIdle(events: seq<Event>, ttl: int, ids: nat -> string, clock: nat -> int)
    ensures Swept(events, ttl, ids, clock) == events <==> NoneOverdue(events, clock(0) - ttl)
  {
    hide Overdue, Pending, SweepDecisions;
    var cards := Overdue(events, clock(0) - ttl);
    OverdueMembers(events, clock(0) - ttl);
    OverdueAreRequests(events, clock(0) - ttl);
    DecisionsForApprovals(cards, ids, clock);
    var cutoff := clock(0) - ttl;
    if exists c :: OverdueApproval(events, cutoff, c) {
      var c :| OverdueApproval(events, cutoff, c);
      var i :| 0 <= i < |cards| && cards[i] == c;
    }
    if exists i :: 0 <= i < |cards| && cards[i].kind == ApprovalRequested {
      var i :| 0 <= i < |cards| && cards[i].kind == ApprovalRequested;
      assert cards[i] in cards;
      assert OverdueApproval(events, clock(0) - ttl, cards[i]);
    }
    assert |Swept(events, ttl, ids, clock)| == |events| + |SweepDecisions(cards, ids, clock)|;
  }

  /**
   * A second sweep with the same cutoff finds no approval card of a run. It still records one
   * more decision for each overdue approval card without a run, which no decision ever answers.
   */
  lemma SecondSweep(events: seq<Event>, ttl: int, ids: nat -> string, clock: nat -> int, ttl2: int,
      ids2: nat -> string, clock2: nat -> int)
    requires Steady(clock) && 0 <= ttl && clock2(0) - ttl2 == clock(0) - ttl
    ensures var after, cutoff := Swept(events, ttl, ids, clock), clock(0) - ttl;
            forall c :: OverdueApproval(after, cutoff, c) <==> OverdueApproval(events, cutoff, c) && c.runId.None?
    ensures var after, cutoff := Swept(events, ttl, ids, clock), clock(0) - ttl;
            Swept(after, ttl2, ids2, clock2) == after <==> forall c | OverdueApproval(events, cutoff, c) :: c.runId.Some?
  {
    hide Pending, Swept, RunSwept, Steady;
    var after, cutoff := Swept(events, ttl, ids, clock), clock(0) - ttl;
    forall c
      ensures OverdueApproval(after, cutoff, c) <==> OverdueApproval(events, cutoff, c) && c.runId.None?
    {
      SecondSweepCard(events, ttl, ids, clock, c);
    }
    SweepIsIdle(after, ttl2, ids2, clock2);
    assert NoneOverdue(after, cutoff) <==> forall c | OverdueApproval(events, cutoff, c) :: c.runId.Some?;
  }

  lemma SecondSweepCard(events: seq<Event>, ttl: int, ids: nat -> string, clock: nat -> int, c: Event)
    requires Steady(clock) && 0 <= ttl
    ensures OverdueApproval(Swept(events, ttl, ids, clock), clock(0) - ttl, c)
       <==> OverdueApproval(events, clock(0) - ttl, c) && c.runId.None?
  {
    hide Pending, Swept, RunSwept, Steady;
    var after, cutoff := Swept(events, ttl, ids, clock), clock(0) - ttl;
    if c.kind == ApprovalRequested && c.createdAt < cutoff {
      SweepClosesRuns(events, ttl, ids, clock, c);
      if c in after {
        SweepAddsNoRequest(events, ttl, ids, clock, c);
      }
      if c in events {
        assert c in after by {
          SweepKeepsLog(events, ttl, ids, clock);
        }
      }
      if c.runId.None? {
        RunlessStaysPending(after, c);
      } else if OverdueApproval(events, cutoff, c) {
        SweepClosesApprovals(events, ttl, ids, clock, c);
      }
    }
  }

  lemma SweepKeepsLog(events: seq<Event>, ttl: int, ids: nat -> string, clock: nat -> int)
    ensures events <= Swept(events, ttl, ids, clock)
  {
  }
}
