/** How runs behind the approval gate go on and end (src/agent-interface.ts): the whole log, the status and the
    result, told from what has happened. */
module GateOutcomes {
  import opened ApprovalGate
  import opened Wrappers

  // ---------- the ending, under every interleaving ----------

  /** The action that brought the executor to its end, if one did. */
  function EndingOf(kind: Kind, allowed: bool, actions: seq<Action>): Option<Action> {
    if actions == [] then None
    else
      var front, last := actions[..|actions| - 1], actions[|actions| - 1];
      if Reached(kind, allowed, front).executor != Finished && Reached(kind, allowed, actions).executor == Finished
      then Some(last) else EndingOf(kind, allowed, front)
  }

  /** An abort came during the call to the outside world. */
  ghost predicate AbortedInCall(kind: Kind, allowed: bool, actions: seq<Action>) {
    exists i | 0 <= i < |actions| :: actions[i] == Abort && Reached(kind, allowed, actions[..i]).executor == Calling
  }

  /** The run has the status and the result. */
  predicate Shows(s: RunState, status: Status, result: Outcome) {
    s.run.status == status && s.run.result == result
  }

  /** What an ending means for the run. */
  predicate EndsAs(s: RunState, ending: Action, aborted: bool) {
    match ending
    case FinishGithub(ok) => if ok then Shows(s, Completed, OutCompleted) else Shows(s, Failed, OutFailed)
    case FinishMac(ok) =>
      if aborted then Shows(s, Aborted, OutAborted)
      else if ok then Shows(s, Completed, OutCompleted) else Shows(s, Failed, OutFailed)
    case ResumeGithub(dryRun, hasToken) =>
      if s.cause != Some(ByApprove) then Shows(s, Rejected, OutRejected)
      else if dryRun then Shows(s, Completed, OutCompleted)
      else !hasToken && Shows(s, Failed, OutFailed)
    case ResumeMac => s.cause != Some(ByApprove) && Shows(s, Rejected, OutRejected)
    case StartGithub(complete) => !complete && Shows(s, Failed, OutFailed)
    case StartMac(valid, _) => !valid && s.run.status == Failed
    case _ => false
  }

  /** In a call the run is under way or aborted, as the flag says; a gate that was granted was so by `approveRun`. */
  predicate Underway(s: RunState, aborted: bool) {
    && (s.executor == Calling && s.run.kind == MacAction ==>
          if aborted then Shows(s, Aborted, OutAborted) else !Terminal(s.run.status))
    && (s.executor.Settled? ==> s.cause.Some? && (s.executor.approved <==> s.cause == Some(ByApprove)))
    && (s.executor in {NotStarted, AtGate} ==> s.cause == None)
    && (s.pending <==> s.executor == AtGate)
    && (aborted ==> s.executor in {Calling, Finished})
  }

  lemma StepUnderway(s: RunState, a: Action, aborted: bool)
    requires Underway(s, aborted)
    ensures var now := aborted || (a == Abort && s.executor == Calling);
            Underway(Step(s, a), now)
            && (s.executor != Finished && Step(s, a).executor == Finished ==> EndsAs(Step(s, a), a, now))
  {
  }

  lemma AbortedSnoc(kind: Kind, allowed: bool, front: seq<Action>, a: Action)
    ensures AbortedInCall(kind, allowed, front + [a])
       <==> AbortedInCall(kind, allowed, front) || (a == Abort && Reached(kind, allowed, front).executor == Calling)
  {
    hide Reached;
    var actions := front + [a];
    assert actions[..|front|] == front && actions[|front|] == a;
    assert forall i | 0 <= i < |front| :: actions[..i] == front[..i] && actions[i] == front[i];
    if a == Abort && Reached(kind, allowed, front).executor == Calling {
      assert actions[|front|] == Abort;
    }
    if AbortedInCall(kind, allowed, front) {
      var i :| 0 <= i < |front| && front[i] == Abort && Reached(kind, allowed, front[..i]).executor == Calling;
      assert actions[i] == Abort;
    }
  }

  /**
   * How every run ends, under every interleaving: a call that returned ok, or a granted dry run, completes it; a
   * call that failed, a missing token or a bad input fails it; a refused gate rejects it; and a macOS run that was
   * aborted during its call stays aborted. The result always says the same as the status.
   */
  lemma {:induction false} HowRunsEnd(kind: Kind, allowed: bool, actions: seq<Action>)
    ensures var s, aborted := Reached(kind, allowed, actions), AbortedInCall(kind, allowed, actions);
            Underway(s, aborted)
            && (s.executor == Finished ==>
                  EndingOf(kind, allowed, actions).Some?
                  && EndsAs(s, EndingOf(kind, allowed, actions).value, aborted))
  {
    hide Step, EndsAs, Underway, AbortedInCall;
    if actions == [] {
      NothingDone(kind, allowed);
    } else {
      var front, a := actions[..|actions| - 1], actions[|actions| - 1];
      var s := Reached(kind, allowed, front);
      HowRunsEnd(kind, allowed, front);
      AbortedSnoc(kind, allowed, front, a);
      assert front + [a] == actions;
      StepUnderway(s, a, AbortedInCall(kind, allowed, front));
      if s.executor == Finished {
        FinishedIsFinal(kind, allowed, front, a);
      }
    }
  }

  lemma NothingDone(kind: Kind, allowed: bool)
    ensures Underway(Reached(kind, allowed, []), AbortedInCall(kind, allowed, []))
    ensures Reached(kind, allowed, []).executor == NotStarted
  {
  }

  // ---------- the whole log of a run that nobody aborts ----------

  function Given(allowed: bool): seq<LogEvent> {
    if allowed then [] else [StepFailed(Guardrail)]
  }

  function First(allowed: bool): Status {
    if allowed then Queued else Failed
  }

  function Check(kind: Kind): StepName {
    if kind == GithubIssue then Draft else Validate
  }

  function Act(kind: Kind): StepName {
    if kind == GithubIssue then Submit else Execute
  }

  /** The result until the run ends. */
  function Unsettled(allowed: bool): Outcome {
    if allowed then NoOutcome else OutFailed
  }

  /** The input has been checked. */
  function Checked(kind: Kind, allowed: bool): seq<LogEvent> {
    Given(allowed) + [StateChanged(First(allowed), Running)] + [StepStarted(Check(kind))]
    + [StepSucceeded(Check(kind))]
  }

  /** The gate has been put up. */
  function Asked(kind: Kind, allowed: bool): seq<LogEvent> {
    Checked(kind, allowed) + [StateChanged(Running, AwaitingApproval)] + [ApprovalRequested]
  }

  /** The action has begun, after an approval or, for a macOS action, without a gate. */
  function Begun(kind: Kind, allowed: bool, gated: bool): seq<LogEvent> {
    if gated then
      Asked(kind, allowed) + [ApprovalResolved(true)] + [StateChanged(AwaitingApproval, Running)] + [StepStarted(Act(kind))]
    else Checked(kind, allowed) + [StepStarted(Act(kind))]
  }

  function EndedWith(log: seq<LogEvent>, last: LogEvent, from: Status, to: Status): seq<LogEvent> {
    log + [last] + [StateChanged(from, to)]
  }

  /** The record of a finished run is one of the ways to end. */
  predicate Over(s: RunState, allowed: bool) {
    var r, kind, gated := s.run, s.run.kind, s.cause.Some?;
    var begun := Begun(kind, allowed, gated);
    || (Shows(s, Completed, OutCompleted) && (gated || kind == MacAction) && s.cause in {None, Some(ByApprove)}
        && r.log == EndedWith(begun, StepSucceeded(Act(kind)), Running, Completed))
    || (Shows(s, Failed, OutFailed) && (gated || kind == MacAction) && s.cause in {None, Some(ByApprove)}
        && r.log == EndedWith(begun, StepFailed(Act(kind)), Running, Failed))
    || (Shows(s, Rejected, OutRejected) && gated && s.cause != Some(ByApprove)
        && r.log == EndedWith(Asked(kind, allowed), ApprovalResolved(false), AwaitingApproval, Rejected))
    || (Shows(s, Failed, OutFailed) && kind == GithubIssue && !gated
        && r.log == EndedWith(Given(allowed) + [StateChanged(First(allowed), Running)] + [StepStarted(Draft)],
                          StepFailed(Draft), Running, Failed))
    || (Shows(s, Failed, Unsettled(allowed)) && kind == MacAction && !gated
        && r.log == EndedWith(Given(allowed), StepFailed(Validate), First(allowed), Failed))
  }

  /** The log and the status, told from where the executor is. */
  predicate Told(s: RunState, allowed: bool) {
    var r, kind := s.run, s.run.kind;
    && (s.executor in {NotStarted, AtGate} ==> s.cause == None)
    && (s.executor.Settled? ==> s.cause.Some? && (s.executor.approved <==> s.cause == Some(ByApprove)))
    && (s.pending <==> s.executor == AtGate)
    && match s.executor
       case NotStarted => r.log == Given(allowed) && Shows(s, First(allowed), Unsettled(allowed))
       case AtGate => r.log == Asked(kind, allowed) && Shows(s, AwaitingApproval, Unsettled(allowed))
       case Settled(_) => r.log == Asked(kind, allowed) && Shows(s, AwaitingApproval, Unsettled(allowed))
       case Calling =>
         r.log == Begun(kind, allowed, s.cause.Some?) && Shows(s, Running, Unsettled(allowed))
         && s.cause in {None, Some(ByApprove)} && (kind == GithubIssue ==> s.cause.Some?)
       case Finished => Over(s, allowed)
  }

  lemma StartTold(s: RunState, a: Action, allowed: bool)
    requires Told(s, allowed) && (a.StartGithub? || a.StartMac?)
    ensures Told(Step(s, a), allowed)
  {
  }

  lemma GateTold(s: RunState, a: Action, allowed: bool)
    requires Told(s, allowed) && a in {Approve, Reject, Timeout}
    ensures Told(Step(s, a), allowed)
  {
    hide Asked, Over, Begun;
  }

  lemma ResumeTold(s: RunState, a: Action, allowed: bool)
    requires Told(s, allowed) && (a.ResumeGithub? || a.ResumeMac?)
    ensures Told(Step(s, a), allowed)
  {
    hide Asked, Checked;
  }

  lemma CallTold(s: RunState, a: Action, allowed: bool)
    requires Told(s, allowed) && (a.FinishGithub? || a.FinishMac?)
    ensures Told(Step(s, a), allowed)
  {
    hide Asked, Begun, Checked;
  }

  lemma StepTold(s: RunState, a: Action, allowed: bool)
    requires Told(s, allowed) && a != Abort
    ensures Told(Step(s, a), allowed)
  {
    hide Told, Step;
    match a
    case StartGithub(_) => StartTold(s, a, allowed);
    case StartMac(_, _) => StartTold(s, a, allowed);
    case Approve => GateTold(s, a, allowed);
    case Reject => GateTold(s, a, allowed);
    case Timeout => GateTold(s, a, allowed);
    case ResumeGithub(_, _) => ResumeTold(s, a, allowed);
    case ResumeMac => ResumeTold(s, a, allowed);
    case FinishGithub(_) => CallTold(s, a, allowed);
    case FinishMac(_) => CallTold(s, a, allowed);
  }

  /** As long as nobody aborts it, the whole log of a run is told from where its executor is, under every interleaving. */
  lemma {:induction false} LogIsTold(kind: Kind, allowed: bool, actions: seq<Action>)
    requires Abort !in actions
    ensures Told(Reached(kind, allowed, actions), allowed) && Reached(kind, allowed, actions).run.kind == kind
  {
    hide Step, Told;
    if actions == [] {
      CreatedTold(kind, allowed);
    } else {
      var front, a := actions[..|actions| - 1], actions[|actions| - 1];
      LogIsTold(kind, allowed, front);
      StepTold(Reached(kind, allowed, front), a, allowed);
      KindKept(kind, allowed, actions);
    }
  }

  lemma CreatedTold(kind: Kind, allowed: bool)
    ensures Told(Reached(kind, allowed, []), allowed) && Reached(kind, allowed, []).run.kind == kind
  {
    assert [] + [StepFailed(Guardrail)] == [StepFailed(Guardrail)];
  }

  /** An abort of a run that is not over adds two events, and takes nothing back. */
  lemma AbortIsLogged(s: RunState)
    ensures var t := Step(s, Abort);
            if s.run.status in {Completed, Failed, Rejected, Aborted} then t == s
            else Shows(t, Aborted, OutAborted)
                 && t.run.log == s.run.log + [StateChanged(s.run.status, Aborted)] + [StepFailed(Execute)]
                 && !t.pending
                 && (if s.pending then t.executor == Settled(false) && t.cause == Some(ByAbort)
                     else t.executor == s.executor && t.cause == s.cause)
  {
  }
}
