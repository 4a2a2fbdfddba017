/** The cloud connectivity state machine of src/connectivity.ts. */
module Connectivity {
  import opened Wrappers

  datatype Mode = Connected | Degraded | Offline

  datatype Transition = Transition(from: Mode, to: Mode, at: int)

  datatype Thresholds = Thresholds(degradedAfterFailures: int, offlineAfterMs: int, recoveryAfterSuccesses: int)

  datatype State = State(
    mode: Mode, failures: nat, successes: nat, degradedSince: Option<int>, offlineSince: Option<int>,
    degradedReason: Option<string>, history: seq<Transition>)

  /** One recorded interaction; the clock is read at `at` and again, for a transition, at `later`. */
  datatype Signal = Success(at: int, later: int) | Failure(reason: string, at: int, later: int)

  const START: State := State(Connected, 0, 0, None, None, None, [])

  function Push(history: seq<Transition>, t: Transition): seq<Transition> {
    var h := history + [t];
    if |h| > 100 then h[|h| - 50..] else h
  }

  /** The history grows up to a hundred transitions; the next one leaves the last fifty of them. */
  lemma PushTold(history: seq<Transition>, t: Transition)
    ensures |history| < 100 ==> Push(history, t) == history + [t]
    ensures |history| >= 100 ==> Push(history, t) == history[|history| - 49..] + [t]
  {
    if |history| >= 100 {
      assert (history + [t])[|history| - 49..] == history[|history| - 49..] + [t];
    }
  }

  function Move(s: State, to: Mode, now: int): State {
    if s.mode == to then s
    else
      var t := s.(history := Push(s.history, Transition(s.mode, to, now)), mode := to);
      match to
      case Degraded => t.(degradedSince := Some(now), offlineSince := None)
      case Offline => t.(offlineSince := Some(now))
      case Connected => t.(degradedSince := None, offlineSince := None, degradedReason := None, failures := 0)
  }

  /** A degradation that began at time 0 counts as not begun. */
  function DegradedFor(s: State, now: int): int {
    if s.degradedSince.Some? && s.degradedSince.value != 0 then now - s.degradedSince.value else 0
  }

  function Next(th: Thresholds, s: State, e: Signal): State {
    match e
    case Success(_, later) =>
      var t := s.(failures := 0, successes := s.successes + 1);
      if t.mode != Connected && t.successes >= th.recoveryAfterSuccesses then Move(t, Connected, later) else t
    case Failure(reason, at, later) =>
      var t := s.(successes := 0, failures := s.failures + 1);
      if t.mode == Connected && t.failures >= th.degradedAfterFailures then Move(t.(degradedReason := Some(reason)), Degraded, later)
      else if t.mode == Degraded && DegradedFor(t, at) >= th.offlineAfterMs then Move(t, Offline, later)
      else t
  }

  class ConnectivityManager {
    var thresholds: Thresholds
    var mode: Mode
    var consecutiveFailures: nat
    var consecutiveSuccesses: nat
    var degradedReason: Option<string>
    var degradedSince: Option<int>
    var offlineSince: Option<int>
    var transitionHistory: seq<Transition>

    ghost function View(): State
      reads this
    {
      State(mode, consecutiveFailures, consecutiveSuccesses, degradedSince, offlineSince, degradedReason, transitionHistory)
    }

    constructor (thresholds: Thresholds)
      ensures View() == START && this.thresholds == thresholds
    {
      this.thresholds := thresholds;
      mode, consecutiveFailures, consecutiveSuccesses := Connected, 0, 0;
      degradedReason, degradedSince, offlineSince, transitionHistory := None, None, None, [];
    }

    method RecordSuccess(now: int, later: int)
      modifies this
      ensures View() == Next(thresholds, old(View()), Success(now, later)) && thresholds == old(thresholds)
    {
      consecutiveFailures := 0;
      consecutiveSuccesses := consecutiveSuccesses + 1;
      if mode != Connected {
        if consecutiveSuccesses >= thresholds.recoveryAfterSuccesses {
          MoveTo(Connected, later);
        }
      }
    }

    method RecordFailure(reason: string, now: int, later: int)
      modifies this
      ensures View() == Next(thresholds, old(View()), Failure(reason, now, later)) && thresholds == old(thresholds)
    {
      consecutiveSuccesses := 0;
      consecutiveFailures := consecutiveFailures + 1;
      if mode == Connected {
        if consecutiveFailures >= thresholds.degradedAfterFailures {
          degradedReason := Some(reason);
          MoveTo(Degraded, later);
        }
      } else if mode == Degraded {
        var duration := if degradedSince.Some? && degradedSince.value != 0 then now - degradedSince.value else 0;
        if duration >= thresholds.offlineAfterMs {
          MoveTo(Offline, later);
        }
      }
    }

    method MoveTo(to: Mode, now: int)
      modifies this
      ensures View() == Move(old(View()), to, now) && thresholds == old(thresholds)
    {
      var from := mode;
      if from == to {
        return;
      }
      transitionHistory := transitionHistory + [Transition(from, to, now)];
      if |transitionHistory| > 100 {
        transitionHistory := transitionHistory[|transitionHistory| - 50..];
      }
      mode := to;
      if to == Degraded {
        degradedSince := Some(now);
        offlineSince := None;
      } else if to == Offline {
        offlineSince := Some(now);
      } else {
        degradedSince, offlineSince, degradedReason := None, None, None;
        consecutiveFailures := 0;
      }
    }

    method Reset()
      modifies this
      ensures View() == START && thresholds == old(thresholds)
    {
      mode, consecutiveFailures, consecutiveSuccesses := Connected, 0, 0;
      degradedReason, degradedSince, offlineSince, transitionHistory := None, None, None, [];
    }
  }

  // ---------- traces ----------

  function After(th: Thresholds, trace: seq<Signal>): State {
    if trace == [] then START else Next(th, After(th, trace[..|trace| - 1]), trace[|trace| - 1])
  }

  /** The length of the run of failures that ends the trace. */
  function TrailingFailures(trace: seq<Signal>): nat {
    if trace == [] || trace[|trace| - 1].Success? then 0 else 1 + TrailingFailures(trace[..|trace| - 1])
  }

  function TrailingSuccesses(trace: seq<Signal>): nat {
    if trace == [] || trace[|trace| - 1].Failure? then 0 else 1 + TrailingSuccesses(trace[..|trace| - 1])
  }

  /** What holds of every reachable state. */
  ghost predicate Consistent(s: State) {
    && (s.degradedSince.Some? <==> s.mode != Connected)
    && (s.offlineSince.Some? <==> s.mode == Offline)
    && (s.degradedReason.Some? <==> s.mode != Connected)
  }

  /** The counters are the lengths of the trailing runs, also across a recovery. */
  lemma {:induction false} CountersAreTrailingRuns(th: Thresholds, trace: seq<Signal>)
    ensures After(th, trace).failures == TrailingFailures(trace)
    ensures After(th, trace).successes == TrailingSuccesses(trace)
    ensures Consistent(After(th, trace))
  {
    hide Push;
    if trace != [] {
      CountersAreTrailingRuns(th, trace[..|trace| - 1]);
    }
  }

  // ---------- when the connection is down ----------

  function AtLeastOne(n: int): (m: nat)
    ensures m >= 1
  {
    if n < 1 then 1 else n
  }

  /** The failures that end the first `i` signals are enough, and no run of successes since is long enough to
      recover. */
  ghost predicate DownSince(th: Thresholds, trace: seq<Signal>, i: nat) {
    && i <= |trace|
    && TrailingFailures(trace[..i]) >= AtLeastOne(th.degradedAfterFailures)
    && forall j | i < j <= |trace| :: TrailingSuccesses(trace[..j]) < AtLeastOne(th.recoveryAfterSuccesses)
  }

  ghost predicate Down(th: Thresholds, trace: seq<Signal>) {
    exists i: nat :: DownSince(th, trace, i)
  }

  lemma DownStep(th: Thresholds, trace: seq<Signal>, e: Signal)
    ensures Down(th, trace + [e])
       <==> if e.Failure? then Down(th, trace) || TrailingFailures(trace + [e]) >= AtLeastOne(th.degradedAfterFailures)
            else Down(th, trace) && TrailingSuccesses(trace + [e]) < AtLeastOne(th.recoveryAfterSuccesses)
  {
    hide AtLeastOne;
    var all := trace + [e];
    assert all[..|all|] == all && all[..|trace|] == trace;
    assert forall j | 0 <= j <= |trace| :: all[..j] == trace[..j];
    if Down(th, trace) && TrailingSuccesses(all) < AtLeastOne(th.recoveryAfterSuccesses) {
      var i: nat :| DownSince(th, trace, i);
      assert DownSince(th, all, i);
    }
    if TrailingFailures(all) >= AtLeastOne(th.degradedAfterFailures) {
      assert DownSince(th, all, |all|);
    }
    if Down(th, all) {
      var i: nat :| DownSince(th, all, i);
      if i < |all| {
        assert DownSince(th, trace, i);
      }
    }
  }

  /**
   * The mode is other than connected exactly when some run of failures was long enough and no run
   * of successes since then was: the two counters, reset and reused as they are, decide no more and no less.
   */
  lemma {:induction false} DownIffDegraded(th: Thresholds, trace: seq<Signal>)
    ensures After(th, trace).mode != Connected <==> Down(th, trace)
  {
    hide Down, Push, Consistent;
    if trace == [] {
      NotDownAtStart(th);
    } else {
      var front, e := trace[..|trace| - 1], trace[|trace| - 1];
      assert front + [e] == trace;
      DownIffDegraded(th, front);
      DownStep(th, front, e);
      CountersAreTrailingRuns(th, front);
      CountersAreTrailingRuns(th, trace);
    }
  }

  lemma NotDownAtStart(th: Thresholds)
    ensures !Down(th, [])
  {
  }

  // ---------- the transition history ----------

  /** All transitions of a trace. */
  function Transitions(th: Thresholds, trace: seq<Signal>): seq<Transition> {
    if trace == [] then []
    else
      var n := |trace| - 1;
      var from, to := After(th, trace[..n]).mode, After(th, trace).mode;
      if from == to then Transitions(th, trace[..n]) else Transitions(th, trace[..n]) + [Transition(from, to, trace[n].later)]
  }

  /** The clock never runs backward. */
  ghost predicate Timely(trace: seq<Signal>) {
    && (forall i | 0 <= i < |trace| :: trace[i].at <= trace[i].later)
    && (forall i, j | 0 <= i < j < |trace| :: trace[i].later <= trace[j].at)
  }

  ghost predicate EndOf(kept: seq<Transition>, all: seq<Transition>) {
    && |kept| <= |all| && kept == all[|all| - |kept|..]
    && |kept| <= 100 && (|kept| >= 50 || kept == all)
  }

  lemma PushKeepsEnd(kept: seq<Transition>, all: seq<Transition>, t: Transition)
    requires EndOf(kept, all)
    ensures EndOf(Push(kept, t), all + [t])
  {
  }

  /** A step adds at most one transition, and exactly when the mode changes. */
  lemma NextPushes(th: Thresholds, s: State, e: Signal)
    ensures var t := Next(th, s, e);
            t.history == if t.mode == s.mode then s.history else Push(s.history, Transition(s.mode, t.mode, e.later))
  {
    hide Push;
  }

  /** The kept history is the end of all transitions: at most a hundred, and everything or at least the last fifty. */
  lemma {:induction false} HistoryIsRecent(th: Thresholds, trace: seq<Signal>)
    ensures EndOf(After(th, trace).history, Transitions(th, trace))
  {
    hide Push, EndOf, Next;
    if trace == [] {
      NothingYet();
    } else {
      var n := |trace| - 1;
      var s := After(th, trace[..n]);
      HistoryIsRecent(th, trace[..n]);
      NextPushes(th, s, trace[n]);
      PushKeepsEnd(s.history, Transitions(th, trace[..n]), Transition(s.mode, After(th, trace).mode, trace[n].later));
    }
  }

  lemma NothingYet()
    ensures EndOf([], [])
  {
  }

  /** The transitions lead from connected to the mode `m` without a gap. */
  ghost predicate Chained(h: seq<Transition>, m: Mode) {
    && (forall i | 0 <= i < |h| :: h[i].from != h[i].to)
    && (forall i | 0 <= i < |h| - 1 :: h[i].to == h[i + 1].from)
    && (h != [] ==> h[0].from == Connected)
    && m == if h == [] then Connected else h[|h| - 1].to
  }

  lemma ChainGrows(h: seq<Transition>, from: Mode, to: Mode, at: int)
    requires Chained(h, from) && from != to
    ensures Chained(h + [Transition(from, to, at)], to)
  {
    var g := h + [Transition(from, to, at)];
    forall i | 0 <= i < |g| - 1
      ensures g[i].to == g[i + 1].from
    {
      if i < |h| - 1 {
        assert h[i].to == h[i + 1].from;
      }
    }
  }

  lemma {:induction false} TransitionsChain(th: Thresholds, trace: seq<Signal>)
    ensures Chained(Transitions(th, trace), After(th, trace).mode)
  {
    hide Next, Chained;
    if trace == [] {
      EmptyChain();
    } else {
      var n := |trace| - 1;
      var from, to := After(th, trace[..n]).mode, After(th, trace).mode;
      TransitionsChain(th, trace[..n]);
      if from != to {
        ChainGrows(Transitions(th, trace[..n]), from, to, trace[n].later);
      }
    }
  }

  lemma EmptyChain()
    ensures Chained([], Connected)
  {
  }

  /** Offline follows degraded, no sooner than `wait` after it began. */
  ghost predicate OfflineAfter(h: seq<Transition>, wait: int) {
    forall i | 0 <= i < |h| && h[i].to == Offline ::
      i > 0 && h[i - 1].to == Degraded && h[i].at - h[i - 1].at >= wait
  }

  /** While degraded, the last transition tells since when; no transition is later than `now`. */
  ghost predicate Dated(s: State, h: seq<Transition>, now: int) {
    && (s.mode == Degraded ==> h != [] && s.degradedSince == Some(h[|h| - 1].at))
    && (h != [] ==> h[|h| - 1].at <= now)
  }

  lemma OfflineStep(th: Thresholds, s: State, e: Signal)
    requires Consistent(s) && Next(th, s, e).mode == Offline && s.mode != Offline
    ensures s.mode == Degraded && e.Failure? && DegradedFor(s, e.at) >= th.offlineAfterMs
  {
    hide Push;
  }

  lemma DegradedStep(th: Thresholds, s: State, e: Signal)
    requires Next(th, s, e).mode == Degraded
    ensures Next(th, s, e).degradedSince == if s.mode == Degraded then s.degradedSince else Some(e.later)
  {
    hide Push;
  }

  lemma WaitingStep(th: Thresholds, s: State, h: seq<Transition>, now: int, e: Signal)
    requires Consistent(s) && Chained(h, s.mode) && Dated(s, h, now) && OfflineAfter(h, th.offlineAfterMs)
    requires now <= e.at <= e.later
    ensures var t := Next(th, s, e);
            var g := if t.mode == s.mode then h else h + [Transition(s.mode, t.mode, e.later)];
            Dated(t, g, e.later) && OfflineAfter(g, th.offlineAfterMs)
  {
    hide Next, Consistent;
    if Next(th, s, e).mode == Degraded {
      DegradedStep(th, s, e);
    }
    if Next(th, s, e).mode == Offline && s.mode != Offline {
      OfflineStep(th, s, e);
    }
  }

  /** The connection goes offline only from degraded, and only after it was degraded for the whole waiting time. */
  lemma {:induction false} OfflineOnlyAfterWaiting(th: Thresholds, trace: seq<Signal>)
    requires Timely(trace)
    ensures OfflineAfter(Transitions(th, trace), th.offlineAfterMs)
    ensures trace != [] ==> Dated(After(th, trace), Transitions(th, trace), trace[|trace| - 1].later)
  {
    hide Next, Consistent, Chained, Dated, OfflineAfter;
    if trace == [] {
      NothingDated(0, th.offlineAfterMs);
    } else {
      var n := |trace| - 1;
      var s, h := After(th, trace[..n]), Transitions(th, trace[..n]);
      OfflineOnlyAfterWaiting(th, trace[..n]);
      TransitionsChain(th, trace[..n]);
      CountersAreTrailingRuns(th, trace[..n]);
      if n == 0 {
        NothingDated(trace[n].at, th.offlineAfterMs);
        WaitingStep(th, s, h, trace[n].at, trace[n]);
      } else {
        WaitingStep(th, s, h, trace[n - 1].later, trace[n]);
      }
    }
  }

  lemma NothingDated(now: int, wait: int)
    ensures Dated(START, [], now) && OfflineAfter([], wait)
  {
  }

  /**
   * After every trace that leaves the connection degraded, a failure takes it offline exactly when
   * the waiting time since the last transition is over; a degradation that began at time 0, which a
   * positive clock rules out, counts as having just begun.
   */
  lemma {:induction false} DegradedGoesOffline(th: Thresholds, trace: seq<Signal>, reason: string, at: int, later: int)
    requires Timely(trace) && After(th, trace).mode == Degraded
    ensures var h := Transitions(th, trace);
            h != [] && h[|h| - 1].to == Degraded
            && (After(th, trace + [Failure(reason, at, later)]).mode == Offline
                <==> (if h[|h| - 1].at == 0 then 0 else at - h[|h| - 1].at) >= th.offlineAfterMs)
    ensures (forall i | 0 <= i < |trace| :: 0 < trace[i].at) ==>
        Transitions(th, trace)[|Transitions(th, trace)| - 1].at > 0
  {
    hide Push, Down, Consistent, OfflineAfter;
    var h, s := Transitions(th, trace), After(th, trace);
    OfflineOnlyAfterWaiting(th, trace);
    TransitionsChain(th, trace);
    assert trace != [];
    assert (trace + [Failure(reason, at, later)])[..|trace|] == trace;
    if forall i | 0 <= i < |trace| :: 0 < trace[i].at {
      TransitionsDated(th, trace);
    }
  }

  lemma {:induction false} TransitionsDated(th: Thresholds, trace: seq<Signal>)
    requires Timely(trace) && forall i | 0 <= i < |trace| :: 0 < trace[i].at
    ensures forall i | 0 <= i < |Transitions(th, trace)| :: 0 < Transitions(th, trace)[i].at
  {
    hide Next;
    if trace != [] {
      TransitionsDated(th, trace[..|trace| - 1]);
    }
  }
}
