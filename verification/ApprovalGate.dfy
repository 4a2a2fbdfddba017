/** Runs with a human approval gate (src/agent-interface.ts): an executor that suspends at the
    gate, raced by approve, reject, abort and the timeout. Every `await` is a step boundary. */
module ApprovalGate {
  import opened Wrappers

  datatype Status = Queued | Running | AwaitingApproval | Completed | Failed | Rejected | Aborted
  datatype Kind = GithubIssue | MacAction
  datatype StepName = Guardrail | Draft | Submit | Validate | Execute
  datatype Outcome = NoOutcome | OutCompleted | OutFailed | OutRejected | OutAborted

  datatype LogEvent =
    | StateChanged(from: Status, to: Status)
    | StepStarted(step: StepName)
    | StepSucceeded(step: StepName)
    | StepFailed(step: StepName)
    | ApprovalRequested
    | ApprovalResolved(approved: bool)

  datatype Run = Run(kind: Kind, status: Status, log: seq<LogEvent>, result: Outcome)

  /** Where the executor is suspended. `Settled` is the gate's promise after it was resolved
      and before the executor has continued; `Calling` is the call to the outside world. */
  datatype Executor = NotStarted | AtGate | Settled(approved: bool) | Calling | Finished

  /** Who resolved the gate. */
  datatype Cause = ByApprove | ByReject | ByAbort | ByTimeout

  /** One run: its record, its entry in the map of pending approvals, its executor, and how
      its gate was resolved, which the program does not store. */
  datatype RunState = RunState(run: Run, pending: bool, executor: Executor, cause: Option<Cause>)

  /** Everything that can happen to a run. The parameters are the outcomes of validation and
      of the outside world. */
  datatype Action =
    | StartGithub(complete: bool)
    | StartMac(valid: bool, needsApproval: bool)
    | Approve | Reject | Abort | Timeout
    | ResumeGithub(dryRun: bool, hasToken: bool)
    | ResumeMac
    | FinishGithub(ok: bool)
    | FinishMac(ok: bool)

  // ---------- the executor and the handlers, on one run ----------

  function Emit(r: Run, e: LogEvent): Run {
    r.(log := r.log + [e])
  }

  function Transition(r: Run, to: Status): Run {
    Emit(r.(status := to), StateChanged(r.status, to))
  }

  predicate Terminal(s: Status) {
    s in {Completed, Failed, Rejected, Aborted}
  }

  function Created(kind: Kind, allowed: bool): RunState {
    var r := Run(kind, Queued, [], NoOutcome);
    RunState(if allowed then r else Emit(r.(status := Failed, result := OutFailed), StepFailed(Guardrail)),
             false, NotStarted, None)
  }

  function OpenGate(s: RunState, r: Run): RunState {
    s.(run := Emit(Transition(r, AwaitingApproval), ApprovalRequested), pending := true, executor := AtGate)
  }

  function End(s: RunState, r: Run, to: Status, result: Outcome): RunState {
    s.(run := Transition(r.(result := result), to), executor := Finished)
  }

  function StartedGithub(s: RunState, complete: bool): RunState {
    var r := Emit(Transition(s.run, Running), StepStarted(Draft));
    if !complete then End(s, Emit(r, StepFailed(Draft)), Failed, OutFailed)
    else OpenGate(s, Emit(r, StepSucceeded(Draft)))
  }

  function StartedMac(s: RunState, valid: bool, needsApproval: bool): RunState {
    if !valid then
      var r := Emit(s.run, StepFailed(Validate));
      End(s, r, Failed, r.result)
    else
      var r := Emit(Emit(Transition(s.run, Running), StepStarted(Validate)), StepSucceeded(Validate));
      if needsApproval then OpenGate(s, r)
      else s.(run := Emit(r, StepStarted(Execute)), executor := Calling)
  }

  /** The handlers resolve the promise of the suspended executor. */
  function Resolved(s: RunState, approved: bool, cause: Cause): RunState {
    if s.pending then s.(pending := false, executor := Settled(approved), cause := Some(cause)) else s
  }

  function AbortedRun(s: RunState): RunState {
    if Terminal(s.run.status) then s
    else
      var t := Resolved(s, false, ByAbort);
      t.(run := Emit(Transition(t.run.(result := OutAborted), Aborted), StepFailed(Execute)))
  }

  function ResumedGithub(s: RunState, approved: bool, dryRun: bool, hasToken: bool): RunState {
    var r := Emit(s.run, ApprovalResolved(approved));
    if !approved then End(s, r, Rejected, OutRejected)
    else
      var r2 := Emit(Transition(r, Running), StepStarted(Submit));
      if dryRun then End(s, Emit(r2, StepSucceeded(Submit)), Completed, OutCompleted)
      else if !hasToken then End(s, Emit(r2, StepFailed(Submit)), Failed, OutFailed)
      else s.(run := r2, executor := Calling)
  }

  function ResumedMac(s: RunState, approved: bool): RunState {
    var r := Emit(s.run, ApprovalResolved(approved));
    if !approved then End(s, r, Rejected, OutRejected)
    else s.(run := Emit(Transition(r, Running), StepStarted(Execute)), executor := Calling)
  }

  function FinishedCall(s: RunState, step: StepName, ok: bool): RunState {
    if ok then End(s, Emit(s.run, StepSucceeded(step)), Completed, OutCompleted)
    else End(s, Emit(s.run, StepFailed(step)), Failed, OutFailed)
  }

  /** The kill switch is looked at after a macOS call, but not after a GitHub call. */
  function FinishedMac(s: RunState, ok: bool): RunState {
    if s.run.status == Aborted then s.(executor := Finished) else FinishedCall(s, Execute, ok)
  }

  /** One step; an action whose moment has not come changes nothing. Each run is executed once,
      by the executor of its kind. */
  function Step(s: RunState, a: Action): RunState {
    match a
    case StartGithub(complete) =>
      if s.executor == NotStarted && s.run.kind == GithubIssue then StartedGithub(s, complete) else s
    case StartMac(valid, needsApproval) =>
      if s.executor == NotStarted && s.run.kind == MacAction then StartedMac(s, valid, needsApproval) else s
    case Approve => Resolved(s, true, ByApprove)
    case Reject => Resolved(s, false, ByReject)
    case Timeout => Resolved(s, false, ByTimeout)
    case Abort => AbortedRun(s)
    case ResumeGithub(dryRun, hasToken) =>
      if s.executor.Settled? && s.run.kind == GithubIssue
      then ResumedGithub(s, s.executor.approved, dryRun, hasToken) else s
    case ResumeMac =>
      if s.executor.Settled? && s.run.kind == MacAction then ResumedMac(s, s.executor.approved) else s
    case FinishGithub(ok) =>
      if s.executor == Calling && s.run.kind == GithubIssue then FinishedCall(s, Submit, ok) else s
    case FinishMac(ok) =>
      if s.executor == Calling && s.run.kind == MacAction then FinishedMac(s, ok) else s
  }

  function After(s: RunState, actions: seq<Action>): RunState {
    if actions == [] then s else Step(After(s, actions[..|actions| - 1]), actions[|actions| - 1])
  }

  // ---------- the run object and its handlers ----------

  /** A run with its entry in the map of pending approvals and its suspended executor. */
  class AgentRun {
    var kind: Kind
    var status: Status
    var log: seq<LogEvent>
    var result: Outcome
    var pending: bool
    var executor: Executor
    ghost var cause: Option<Cause>

    ghost function View(): RunState
      reads this
    {
      RunState(Record(), pending, executor, cause)
    }

    function Record(): Run
      reads this
    {
      Run(kind, status, log, result)
    }

    /** Only what the executor's suspension and the gate do not touch has changed. */
    twostate predicate GateKept()
      reads this
    {
      pending == old(pending) && executor == old(executor) && cause == old(cause)
    }

    constructor (kind: Kind, allowed: bool)
      ensures View() == Created(kind, allowed)
    {
      this.kind, status, log, result := kind, Queued, [], NoOutcome;
      pending, executor, cause := false, NotStarted, None;
      new;
      if !allowed {
        status := Failed;
        result := OutFailed;
        log := log + [StepFailed(Guardrail)];
      }
    }

    method EmitEvent(e: LogEvent)
      modifies this
      ensures Record() == Emit(old(Record()), e) && GateKept()
    {
      log := log + [e];
    }

    method TransitionTo(to: Status)
      modifies this
      ensures Record() == Transition(old(Record()), to) && GateKept()
    {
      var prev := status;
      status := to;
      EmitEvent(StateChanged(prev, to));
    }

    /** The executor asks for approval and suspends. */
    method RequestApproval()
      modifies this
      ensures View() == OpenGate(old(View()), old(Record()))
    {
      TransitionTo(AwaitingApproval);
      EmitEvent(ApprovalRequested);
      pending := true;
      executor := AtGate;
    }

    /** The executor up to its first await; a run is executed once. */
    method ExecuteGithubIssueCreate(complete: bool)
      requires executor == NotStarted && kind == GithubIssue
      modifies this
      ensures View() == Step(old(View()), StartGithub(complete))
    {
      TransitionTo(Running);
      EmitEvent(StepStarted(Draft));
      if !complete {
        EmitEvent(StepFailed(Draft));
        result := OutFailed;
        TransitionTo(Failed);
        executor := Finished;
        return;
      }
      EmitEvent(StepSucceeded(Draft));
      RequestApproval();
    }

    method ExecuteMacOSUIAction(valid: bool, needsApproval: bool)
      requires executor == NotStarted && kind == MacAction
      modifies this
      ensures View() == Step(old(View()), StartMac(valid, needsApproval))
    {
      if !valid {
        EmitEvent(StepFailed(Validate));
        TransitionTo(Failed);
        executor := Finished;
        return;
      }
      TransitionTo(Running);
      EmitEvent(StepStarted(Validate));
      EmitEvent(StepSucceeded(Validate));
      if needsApproval {
        RequestApproval();
      } else {
        EmitEvent(StepStarted(Execute));
        executor := Calling;
      }
    }

    method ResolveGate(approved: bool, ghost origin: Cause) returns (found: bool)
      modifies this
      ensures View() == Resolved(old(View()), approved, origin) && found == old(pending)
    {
      if !pending {
        return false;
      }
      pending := false;
      executor := Settled(approved);
      cause := Some(origin);
      return true;
    }

    method ApproveRun() returns (found: bool)
      modifies this
      ensures View() == Step(old(View()), Approve) && found == old(pending)
    {
      found := ResolveGate(true, ByApprove);
    }

    method RejectRun() returns (found: bool)
      modifies this
      ensures View() == Step(old(View()), Reject) && found == old(pending)
    {
      found := ResolveGate(false, ByReject);
    }

    /** The timer that was set when the gate was put up. */
    method ApprovalTimeout()
      modifies this
      ensures View() == Step(old(View()), Timeout)
    {
      var _ := ResolveGate(false, ByTimeout);
    }

    method AbortRun() returns (aborted: bool)
      modifies this
      ensures View() == Step(old(View()), Abort) && aborted == !Terminal(old(status))
    {
      if status in {Completed, Failed, Rejected, Aborted} {
        return false;
      }
      var _ := ResolveGate(false, ByAbort);
      result := OutAborted;
      TransitionTo(Aborted);
      EmitEvent(StepFailed(Execute));
      return true;
    }

    /** The executor from the gate to the next await, or to its end. */
    method ContinueGithub(dryRun: bool, hasToken: bool)
      requires executor.Settled? && kind == GithubIssue
      modifies this
      ensures View() == Step(old(View()), ResumeGithub(dryRun, hasToken))
    {
      var approved := executor.approved;
      EmitEvent(ApprovalResolved(approved));
      if !approved {
        result := OutRejected;
        TransitionTo(Rejected);
        executor := Finished;
        return;
      }
      TransitionTo(Running);
      EmitEvent(StepStarted(Submit));
      if dryRun {
        EmitEvent(StepSucceeded(Submit));
        result := OutCompleted;
        TransitionTo(Completed);
        executor := Finished;
      } else if !hasToken {
        EmitEvent(StepFailed(Submit));
        result := OutFailed;
        TransitionTo(Failed);
        executor := Finished;
      } else {
        executor := Calling;
      }
    }

    method ContinueMac()
      requires executor.Settled? && kind == MacAction
      modifies this
      ensures View() == Step(old(View()), ResumeMac)
    {
      var approved := executor.approved;
      EmitEvent(ApprovalResolved(approved));
      if !approved {
        result := OutRejected;
        TransitionTo(Rejected);
        executor := Finished;
        return;
      }
      TransitionTo(Running);
      EmitEvent(StepStarted(Execute));
      executor := Calling;
    }

    method GithubReturned(ok: bool)
      requires executor == Calling && kind == GithubIssue
      modifies this
      ensures View() == Step(old(View()), FinishGithub(ok))
    {
      CallReturned(Submit, ok);
    }

    method MacReturned(ok: bool)
      requires executor == Calling && kind == MacAction
      modifies this
      ensures View() == Step(old(View()), FinishMac(ok))
    {
      if status == Aborted {
        executor := Finished;
        return;
      }
      CallReturned(Execute, ok);
    }

    method CallReturned(step: StepName, ok: bool)
      modifies this
      ensures View() == FinishedCall(old(View()), step, ok)
    {
      if ok {
        EmitEvent(StepSucceeded(step));
        result := OutCompleted;
        TransitionTo(Completed);
      } else {
        EmitEvent(StepFailed(step));
        result := OutFailed;
        TransitionTo(Failed);
      }
      executor := Finished;
    }
  }

  // ---------- what every reachable state satisfies ----------

  function CountResolved(log: seq<LogEvent>): nat {
    if log == [] then 0
    else CountResolved(log[..|log| - 1]) + if log[|log| - 1].ApprovalResolved? then 1 else 0
  }

  /** The status after the last change in the log. */
  function LastStatus(log: seq<LogEvent>, initial: Status): Status {
    if log == [] then initial
    else if log[|log| - 1].StateChanged? then log[|log| - 1].to
    else LastStatus(log[..|log| - 1], initial)
  }

  /** Every change starts from the status that the previous change led to. */
  predicate Chained(log: seq<LogEvent>, initial: Status) {
    log == []
    || (Chained(log[..|log| - 1], initial)
        && (log[|log| - 1].StateChanged? ==> log[|log| - 1].from == LastStatus(log[..|log| - 1], initial)))
  }

  /** The irreversible steps that the gate protects. */
  predicate Irreversible(e: LogEvent) {
    e == StepStarted(Submit) || e == StepStarted(Execute)
  }

  /** Every irreversible step has a granted approval before it. */
  predicate Guarded(log: seq<LogEvent>) {
    forall i | 0 <= i < |log| && Irreversible(log[i]) :: ApprovalResolved(true) in log[..i]
  }

  /** The executor is past a gate that was put up. */
  predicate PastGate(s: RunState) {
    s.cause.Some? && s.executor in {Calling, Finished}
  }

  /** What the invariants need to know of a log. */
  datatype Digest = Digest(resolved: nat, granted: bool, asked: bool, guarded: bool, chained: bool, last: Status)

  function DigestOf(log: seq<LogEvent>, initial: Status): Digest {
    Digest(CountResolved(log), ApprovalResolved(true) in log, ApprovalRequested in log, Guarded(log),
           Chained(log, initial), LastStatus(log, initial))
  }

  function Noted(d: Digest, e: LogEvent): Digest {
    Digest(if e.ApprovalResolved? then d.resolved + 1 else d.resolved,
           d.granted || e == ApprovalResolved(true), d.asked || e == ApprovalRequested,
           d.guarded && (Irreversible(e) ==> d.granted),
           d.chained && (e.StateChanged? ==> e.from == d.last), if e.StateChanged? then e.to else d.last)
  }

  lemma GuardedAppend(log: seq<LogEvent>, e: LogEvent)
    ensures Guarded(log + [e]) <==> Guarded(log) && (Irreversible(e) ==> ApprovalResolved(true) in log)
  {
    hide Irreversible;
    var all := log + [e];
    assert all[..|log|] == log && all[|log|] == e;
    assert forall i | 0 <= i < |log| :: all[..i] == log[..i] && all[i] == log[i];
    if Guarded(all) {
      forall i | 0 <= i < |log| && Irreversible(log[i])
        ensures ApprovalResolved(true) in log[..i]
      {
        assert Irreversible(all[i]);
      }
    }
  }

  lemma DigestAppend(log: seq<LogEvent>, e: LogEvent, initial: Status)
    ensures DigestOf(log + [e], initial) == Noted(DigestOf(log, initial), e)
  {
    hide Guarded, Irreversible;
    assert (log + [e])[..|log|] == log;
    GuardedAppend(log, e);
  }

  /** How gate, executor, log and cause hang together in every reachable state. */
  predicate Inv(s: RunState, initial: Status) {
    var d := DigestOf(s.run.log, initial);
    && (s.pending <==> s.executor == AtGate)
    && (s.executor in {NotStarted, AtGate} ==> s.cause == None)
    && (s.executor.Settled? ==> s.cause.Some? && (s.executor.approved <==> s.cause == Some(ByApprove)))
    && (s.executor == NotStarted ==> !d.asked) && (s.executor == AtGate || s.cause.Some? ==> d.asked)
    && d.resolved == (if PastGate(s) then 1 else 0)
    && (d.granted <==> PastGate(s) && s.cause == Some(ByApprove))
    && (s.executor == Calling ==> d.granted || (s.run.kind == MacAction && s.cause == None && !d.asked))
    && (d.guarded || (s.run.kind == MacAction && !d.asked && s.executor in {Calling, Finished}))
    && d.chained && d.last == s.run.status
    && (s.executor == Finished ==> Ended(s))
  }

  /** How a finished run has ended. */
  predicate Ended(s: RunState) {
    && Terminal(s.run.status)
    && (s.cause.Some? && s.cause != Some(ByApprove) ==> s.run.status == Rejected)
    && (s.run.kind == GithubIssue ==> s.run.status != Aborted)
  }

  lemma CreatedInv(kind: Kind, allowed: bool)
    ensures Inv(Created(kind, allowed), Created(kind, allowed).run.status)
  {
    var s := Created(kind, allowed);
    DigestAppend([], StepFailed(Guardrail), s.run.status);
    assert [] + [StepFailed(Guardrail)] == [StepFailed(Guardrail)];
  }

  lemma DigestAppends(initial: Status)
    ensures forall log: seq<LogEvent>, e: LogEvent :: DigestOf(log + [e], initial) == Noted(DigestOf(log, initial), e)
  {
    forall log: seq<LogEvent>, e: LogEvent
      ensures DigestOf(log + [e], initial) == Noted(DigestOf(log, initial), e)
    {
      DigestAppend(log, e, initial);
    }
  }

  lemma StartGithubInv(s: RunState, complete: bool, initial: Status)
    requires Inv(s, initial)
    ensures Inv(Step(s, StartGithub(complete)), initial)
  {
    hide DigestOf;
    DigestAppends(initial);
  }

  lemma StartMacInv(s: RunState, valid: bool, needsApproval: bool, initial: Status)
    requires Inv(s, initial)
    ensures Inv(Step(s, StartMac(valid, needsApproval)), initial)
  {
    hide DigestOf;
    DigestAppends(initial);
  }

  lemma ResolveInv(s: RunState, approved: bool, cause: Cause, initial: Status)
    requires Inv(s, initial) && (approved <==> cause == ByApprove)
    ensures Inv(Resolved(s, approved, cause), initial)
  {
    hide DigestOf;
  }

  lemma AbortInv(s: RunState, initial: Status)
    requires Inv(s, initial)
    ensures Inv(AbortedRun(s), initial)
  {
    hide DigestOf;
    DigestAppends(initial);
    ResolveInv(s, false, ByAbort, initial);
  }

  lemma RefusedInv(s: RunState, dryRun: bool, hasToken: bool, initial: Status)
    requires Inv(s, initial) && s.executor == Settled(false) && s.run.kind == GithubIssue
    ensures Inv(ResumedGithub(s, false, dryRun, hasToken), initial)
  {
    hide DigestOf;
    DigestAppends(initial);
  }

  lemma GrantedInv(s: RunState, dryRun: bool, hasToken: bool, initial: Status)
    requires Inv(s, initial) && s.executor == Settled(true) && s.run.kind == GithubIssue
    ensures Inv(ResumedGithub(s, true, dryRun, hasToken), initial)
  {
    hide DigestOf;
    DigestAppends(initial);
  }

  lemma ResumeGithubInv(s: RunState, dryRun: bool, hasToken: bool, initial: Status)
    requires Inv(s, initial)
    ensures Inv(Step(s, ResumeGithub(dryRun, hasToken)), initial)
  {
    hide Inv, ResumedGithub;
    if s.executor.Settled? && s.run.kind == GithubIssue {
      if s.executor.approved {
        GrantedInv(s, dryRun, hasToken, initial);
      } else {
        RefusedInv(s, dryRun, hasToken, initial);
      }
    }
  }

  lemma ResumeMacInv(s: RunState, initial: Status)
    requires Inv(s, initial)
    ensures Inv(Step(s, ResumeMac), initial)
  {
    hide DigestOf;
    DigestAppends(initial);
  }

  lemma FinishGithubInv(s: RunState, ok: bool, initial: Status)
    requires Inv(s, initial)
    ensures Inv(Step(s, FinishGithub(ok)), initial)
  {
    hide DigestOf;
    DigestAppends(initial);
  }

  lemma FinishMacInv(s: RunState, ok: bool, initial: Status)
    requires Inv(s, initial)
    ensures Inv(Step(s, FinishMac(ok)), initial)
  {
    hide DigestOf;
    DigestAppends(initial);
  }

  lemma StepInv(s: RunState, a: Action, initial: Status)
    requires Inv(s, initial)
    ensures Inv(Step(s, a), initial)
  {
    hide Inv, Resolved, AbortedRun, StartedGithub, StartedMac, ResumedGithub, ResumedMac, FinishedCall, FinishedMac;
    match a
    case StartGithub(complete) => StartGithubInv(s, complete, initial);
    case StartMac(valid, needsApproval) => StartMacInv(s, valid, needsApproval, initial);
    case Approve => ResolveInv(s, true, ByApprove, initial);
    case Reject => ResolveInv(s, false, ByReject, initial);
    case Timeout => ResolveInv(s, false, ByTimeout, initial);
    case Abort => AbortInv(s, initial);
    case ResumeGithub(dryRun, hasToken) => ResumeGithubInv(s, dryRun, hasToken, initial);
    case ResumeMac => ResumeMacInv(s, initial);
    case FinishGithub(ok) => FinishGithubInv(s, ok, initial);
    case FinishMac(ok) => FinishMacInv(s, ok, initial);
  }

  /** A state that a run can reach, by whatever interleaving. */
  function Reached(kind: Kind, allowed: bool, actions: seq<Action>): RunState {
    After(Created(kind, allowed), actions)
  }

  function Initial(kind: Kind, allowed: bool): Status {
    Created(kind, allowed).run.status
  }

  lemma {:induction false} ReachedInv(kind: Kind, allowed: bool, actions: seq<Action>)
    ensures Inv(Reached(kind, allowed, actions), Initial(kind, allowed))
  {
    hide Inv, Step, Created;
    if actions == [] {
      CreatedInv(kind, allowed);
    } else {
      ReachedInv(kind, allowed, actions[..|actions| - 1]);
      StepInv(Reached(kind, allowed, actions[..|actions| - 1]), actions[|actions| - 1], Initial(kind, allowed));
    }
  }

  // ---------- main results, for every interleaving ----------

  /** How many of the actions have resolved the gate. */
  function Resolutions(s: RunState, actions: seq<Action>): nat {
    if actions == [] then 0
    else
      var before := After(s, actions[..|actions| - 1]);
      Resolutions(s, actions[..|actions| - 1])
      + if before.pending && !Step(before, actions[|actions| - 1]).pending then 1 else 0
  }

  lemma CauseStep(s: RunState, a: Action, initial: Status)
    requires Inv(s, initial)
    ensures s.cause.Some? ==> Step(s, a).cause == s.cause
    ensures s.cause == None ==> (Step(s, a).cause.Some? <==> s.pending && !Step(s, a).pending)
    ensures s.pending ==> s.cause == None
  {
  }

  /** The gate is resolved at most once, and exactly once for a run that is past it: by the
      recorded cause, with one `approval_resolved` event once the executor has continued. */
  lemma {:induction false} GateResolvedOnce(kind: Kind, allowed: bool, actions: seq<Action>)
    ensures var s := Reached(kind, allowed, actions);
            Resolutions(Created(kind, allowed), actions) == (if s.cause.Some? then 1 else 0)
            && CountResolved(s.run.log) == (if PastGate(s) then 1 else 0)
            && (ApprovalResolved(true) in s.run.log <==> PastGate(s) && s.cause == Some(ByApprove))
  {
    hide Step, Created, CountResolved;
    ReachedInv(kind, allowed, actions);
    if actions == [] {
      NoCause(kind, allowed);
    } else {
      var front := actions[..|actions| - 1];
      GateResolvedOnce(kind, allowed, front);
      ReachedInv(kind, allowed, front);
      CauseStep(Reached(kind, allowed, front), actions[|actions| - 1], Initial(kind, allowed));
    }
  }

  lemma NoCause(kind: Kind, allowed: bool)
    ensures Created(kind, allowed).cause == None
  {
  }

  /** An issue is submitted, or a gated macOS action executed, only after `approveRun` has
      resolved the gate and the log has recorded the approval. */
  lemma SubmitOnlyAfterApproval(kind: Kind, allowed: bool, actions: seq<Action>, i: nat)
    requires var s := Reached(kind, allowed, actions);
             i < |s.run.log| && Irreversible(s.run.log[i]) && (kind == GithubIssue || ApprovalRequested in s.run.log)
    ensures var s := Reached(kind, allowed, actions);
            ApprovalResolved(true) in s.run.log[..i] && s.cause == Some(ByApprove)
  {
    hide CountResolved, Chained, LastStatus, Created;
    ReachedInv(kind, allowed, actions);
    KindKept(kind, allowed, actions);
    var log := Reached(kind, allowed, actions).run.log;
    assert Guarded(log);
    assert ApprovalResolved(true) in log[..i];
    assert ApprovalResolved(true) in log;
  }

  lemma {:induction false} KindKept(kind: Kind, allowed: bool, actions: seq<Action>)
    ensures Reached(kind, allowed, actions).run.kind == kind
  {
    if actions != [] {
      KindKept(kind, allowed, actions[..|actions| - 1]);
    }
  }

  /** A gate resolved by reject, abort or timeout is never followed by the irreversible step,
      and the run ends as rejected: an abort at the gate is overwritten. */
  lemma RefusedNeverSubmits(kind: Kind, allowed: bool, actions: seq<Action>, more: seq<Action>)
    requires Reached(kind, allowed, actions).cause in {Some(ByReject), Some(ByAbort), Some(ByTimeout)}
    ensures var s := Reached(kind, allowed, actions + more);
            s.cause == Reached(kind, allowed, actions).cause
            && (forall i | 0 <= i < |s.run.log| :: !Irreversible(s.run.log[i]))
            && (s.executor == Finished ==> s.run.status == Rejected)
  {
    hide CountResolved, Chained, LastStatus, Created, Step;
    CauseKept(kind, allowed, actions, more);
    ReachedInv(kind, allowed, actions + more);
    var s := Reached(kind, allowed, actions + more);
    forall i | 0 <= i < |s.run.log|
      ensures !Irreversible(s.run.log[i])
    {
      assert ApprovalResolved(true) !in s.run.log[..i];
    }
  }

  lemma {:induction false} CauseKept(kind: Kind, allowed: bool, actions: seq<Action>, more: seq<Action>)
    requires Reached(kind, allowed, actions).cause.Some?
    ensures Reached(kind, allowed, actions + more).cause == Reached(kind, allowed, actions).cause
    decreases |more|
  {
    hide Step, Created, Inv;
    if more == [] {
      assert actions + more == actions;
    } else {
      var front := more[..|more| - 1];
      CauseKept(kind, allowed, actions, front);
      assert (actions + more)[..|actions + more| - 1] == actions + front;
      ReachedInv(kind, allowed, actions + front);
      CauseStep(Reached(kind, allowed, actions + front), more[|more| - 1], Initial(kind, allowed));
    }
  }

  /** The changes of status form a chain from the initial status to the present one. */
  lemma StatusChanges(kind: Kind, allowed: bool, actions: seq<Action>)
    ensures var s := Reached(kind, allowed, actions);
            Chained(s.run.log, Initial(kind, allowed)) && LastStatus(s.run.log, Initial(kind, allowed)) == s.run.status
  {
    hide CountResolved, Guarded, Created;
    ReachedInv(kind, allowed, actions);
  }

  /** A finished run stays as it is; a GitHub run never ends as aborted, because its executor
      does not look at the status again. */
  lemma FinishedIsFinal(kind: Kind, allowed: bool, actions: seq<Action>, a: Action)
    requires Reached(kind, allowed, actions).executor == Finished
    ensures Step(Reached(kind, allowed, actions), a) == Reached(kind, allowed, actions)
    ensures Terminal(Reached(kind, allowed, actions).run.status)
    ensures kind == GithubIssue ==> Reached(kind, allowed, actions).run.status != Aborted
  {
    hide DigestOf, Created, After;
    ReachedInv(kind, allowed, actions);
    KindKept(kind, allowed, actions);
  }

  // ---------- what an abort and a denial stop ----------

  /** How many irreversible steps the log holds. */
  function Submits(log: seq<LogEvent>): nat {
    if log == [] then 0
    else Submits(log[..|log| - 1]) + if Irreversible(log[|log| - 1]) then 1 else 0
  }

  lemma SubmitsAppends()
    ensures forall log: seq<LogEvent>, e: LogEvent ::
        Submits(log + [e]) == if Irreversible(e) then Submits(log) + 1 else Submits(log)
  {
    hide Irreversible;
    forall log: seq<LogEvent>, e: LogEvent
      ensures Submits(log + [e]) == if Irreversible(e) then Submits(log) + 1 else Submits(log)
    {
      assert (log + [e])[..|log|] == log;
    }
  }

  /** Whatever happens from `s` on, no further irreversible step is logged. */
  ghost predicate Stopped(s: RunState) {
    forall more :: Submits(After(s, more).run.log) == Submits(s.run.log)
  }

  /** The executor will not come to an irreversible step any more. */
  predicate BeyondSubmit(s: RunState) {
    s.executor in {Settled(false), Calling, Finished} && !s.pending
  }

  lemma BeyondStep(s: RunState, a: Action)
    requires BeyondSubmit(s)
    ensures BeyondSubmit(Step(s, a)) && Submits(Step(s, a).run.log) == Submits(s.run.log)
  {
    hide Submits;
    SubmitsAppends();
  }

  lemma {:induction false} BeyondIsStopped(s: RunState, more: seq<Action>)
    requires BeyondSubmit(s)
    ensures BeyondSubmit(After(s, more)) && Submits(After(s, more).run.log) == Submits(s.run.log)
  {
    hide Step, Submits, BeyondSubmit;
    if more != [] {
      BeyondIsStopped(s, more[..|more| - 1]);
      BeyondStep(After(s, more[..|more| - 1]), more[|more| - 1]);
    }
  }

  lemma IssueCanBeSubmitted(s: RunState)
    requires s.executor == NotStarted && !s.pending && s.run.kind == GithubIssue
    ensures Submits(Step(Step(Step(s, StartGithub(true)), Approve), ResumeGithub(true, true)).run.log) > Submits(s.run.log)
  {
    hide Submits;
    SubmitsAppends();
  }

  lemma ActionCanBeExecuted(s: RunState)
    requires s.executor == NotStarted && s.run.kind == MacAction
    ensures Submits(Step(s, StartMac(true, false)).run.log) > Submits(s.run.log)
  {
    hide Submits;
    SubmitsAppends();
  }

  lemma ApprovedCanBeSubmitted(s: RunState)
    requires s.executor == Settled(true)
    ensures var resume := if s.run.kind == GithubIssue then ResumeGithub(true, true) else ResumeMac;
            Submits(Step(s, resume).run.log) > Submits(s.run.log)
  {
    hide Submits;
    SubmitsAppends();
  }

  /** A run that has not started, or whose gate was approved, can still submit. */
  lemma CanStillSubmit(s: RunState)
    requires s.executor in {NotStarted, Settled(true)} && !s.pending
    ensures !Stopped(s)
  {
    hide Submits, Step, After;
    if s.executor == NotStarted && s.run.kind == GithubIssue {
      IssueCanBeSubmitted(s);
      AfterThree(s, StartGithub(true), Approve, ResumeGithub(true, true));
    } else if s.executor == NotStarted {
      ActionCanBeExecuted(s);
      AfterThree(s, StartMac(true, false), Approve, Approve);
    } else {
      ApprovedCanBeSubmitted(s);
      AfterThree(s, if s.run.kind == GithubIssue then ResumeGithub(true, true) else ResumeMac, Approve, Approve);
    }
  }

  /** At its gate a run awaits its approval. */
  lemma {:induction false} GateAwaits(kind: Kind, allowed: bool, actions: seq<Action>)
    ensures var s := Reached(kind, allowed, actions);
            (s.pending <==> s.executor == AtGate) && (s.executor == AtGate ==> s.run.status == AwaitingApproval)
  {
    if actions != [] {
      GateAwaits(kind, allowed, actions[..|actions| - 1]);
    }
  }

  /**
   * An abort stops a run, so that nothing irreversible is begun after it, exactly when the executor
   * is at its gate or beyond its submit; one that comes before the start, or between the approval
   * and the executor's next step, does not.
   */
  lemma AbortStopsIff(kind: Kind, allowed: bool, actions: seq<Action>)
    ensures var s := Reached(kind, allowed, actions);
            Stopped(Step(s, Abort)) <==> s.executor !in {NotStarted, Settled(true)}
  {
    hide After, Submits, Stopped;
    var s := Reached(kind, allowed, actions);
    GateAwaits(kind, allowed, actions);
    if s.executor in {NotStarted, Settled(true)} {
      CanStillSubmit(Step(s, Abort));
    } else {
      BeyondMeansStopped(Step(s, Abort));
    }
  }

  lemma BeyondMeansStopped(s: RunState)
    requires BeyondSubmit(s)
    ensures Stopped(s)
  {
    hide Submits, After;
    forall more
      ensures Submits(After(s, more).run.log) == Submits(s.run.log)
    {
      BeyondIsStopped(s, more);
    }
  }

  /** Two runs do the same from now on, and have come as far. */
  ghost predicate Alike(s: RunState, t: RunState) {
    && s.executor == t.executor && s.pending == t.pending && s.cause == t.cause && s.run.kind == t.run.kind
    && (s.executor != NotStarted ==> s.run.status == t.run.status)
    && Submits(s.run.log) == Submits(t.run.log)
  }

  /** Whether the action begins the irreversible step. */
  predicate Begins(executor: Executor, kind: Kind, a: Action) {
    match a
    case StartMac(valid, needsApproval) => executor == NotStarted && kind == MacAction && valid && !needsApproval
    case ResumeGithub(_, _) => executor == Settled(true) && kind == GithubIssue
    case ResumeMac => executor == Settled(true) && kind == MacAction
    case _ => false
  }

  lemma ResumeSubmits(s: RunState, a: Action)
    requires a.ResumeGithub? || a.ResumeMac?
    ensures Submits(Step(s, a).run.log) == Submits(s.run.log) + if Begins(s.executor, s.run.kind, a) then 1 else 0
  {
    hide Submits;
    SubmitsAppends();
  }

  lemma OtherSubmits(s: RunState, a: Action)
    requires !a.ResumeGithub? && !a.ResumeMac?
    ensures Submits(Step(s, a).run.log) == Submits(s.run.log) + if Begins(s.executor, s.run.kind, a) then 1 else 0
  {
    hide Submits;
    SubmitsAppends();
  }

  /** Executor, gate, cause and status are alike after a step, whatever the logs hold. */
  lemma FieldsAlike(s: RunState, t: RunState, a: Action)
    requires Alike(s, t) && (s.pending <==> s.executor == AtGate)
    ensures var x, y := Step(s, a), Step(t, a);
            x.executor == y.executor && x.pending == y.pending && x.cause == y.cause && x.run.kind == y.run.kind
            && (x.executor != NotStarted ==> x.run.status == y.run.status)
  {
    hide Submits;
  }

  lemma AlikeStep(s: RunState, t: RunState, a: Action)
    requires Alike(s, t) && (s.pending <==> s.executor == AtGate)
    ensures Alike(Step(s, a), Step(t, a))
  {
    hide Step, Submits;
    FieldsAlike(s, t, a);
    if a.ResumeGithub? || a.ResumeMac? {
      ResumeSubmits(s, a);
      ResumeSubmits(t, a);
    } else {
      OtherSubmits(s, a);
      OtherSubmits(t, a);
    }
  }

  /**
   * A denial by the guardrail stops nothing: under every sequence of actions a denied run and an
   * allowed one have the same executor, gate and cause, log the same number of irreversible steps,
   * and have the same status from the start of the executor on.
   */
  lemma {:induction false} DenialStopsNothing(kind: Kind, actions: seq<Action>)
    ensures Alike(Reached(kind, false, actions), Reached(kind, true, actions))
  {
    hide Step, Alike, Submits;
    if actions == [] {
      DeniedAtFirst(kind);
    } else {
      DenialStopsNothing(kind, actions[..|actions| - 1]);
      GateAwaits(kind, false, actions[..|actions| - 1]);
      var front, last := actions[..|actions| - 1], actions[|actions| - 1];
      AlikeStep(Reached(kind, false, front), Reached(kind, true, front), last);
    }
  }

  lemma DeniedAtFirst(kind: Kind)
    ensures Alike(Created(kind, false), Created(kind, true))
  {
    hide Submits;
    SubmitsAppends();
    assert [] + [StepFailed(Guardrail)] == [StepFailed(Guardrail)];
    assert Submits([]) == Submits([StepFailed(Guardrail)]);
  }

  /** Runs that show it: an aborted run and a denied one are executed to the end. */
  lemma AbortBeforeStartIsLost()
    ensures Reached(GithubIssue, true, [Abort]).run.status == Aborted
    ensures Reached(GithubIssue, true, [Abort, StartGithub(true), Approve, ResumeGithub(true, true)]).run.status
         == Completed
    ensures Reached(GithubIssue, false, [StartGithub(true), Approve, ResumeGithub(true, true)]).run.status == Completed
  {
    AfterFour(Created(GithubIssue, true), Abort, StartGithub(true), Approve, ResumeGithub(true, true));
    AfterThree(Created(GithubIssue, false), StartGithub(true), Approve, ResumeGithub(true, true));
  }

  lemma AfterThree(s: RunState, a: Action, b: Action, c: Action)
    ensures After(s, [a]) == Step(s, a)
    ensures After(s, [a, b, c]) == Step(Step(Step(s, a), b), c)
  {
    hide Step;
    assert [a, b, c][..2] == [a, b] && [a, b][..1] == [a] && [a][..0] == [];
    assert After(s, []) == s;
    assert After(s, [a, b]) == Step(After(s, [a]), b);
  }

  lemma AfterFour(s: RunState, a: Action, b: Action, c: Action, d: Action)
    ensures After(s, [a]) == Step(s, a)
    ensures After(s, [a, b, c, d]) == Step(Step(Step(Step(s, a), b), c), d)
  {
    hide Step;
    AfterThree(s, a, b, c);
    assert [a, b, c, d][..3] == [a, b, c];
  }

  // ---------- the replay packet ----------

  /** An approval in the packet: its decision, or none while it is pending. */
  datatype Approval = Approval(approved: Option<bool>)

  /** The approvals so far, and whether a request is still open. */
  datatype Scan = Scan(approvals: seq<Approval>, open: bool)

  function ScanEvent(s: Scan, e: LogEvent): Scan {
    if e == ApprovalRequested then s.(open := true)
    else if e.ApprovalResolved? && s.open then Scan(s.approvals + [Approval(Some(e.approved))], false)
    else s
  }

  function ScanLog(log: seq<LogEvent>): Scan {
    if log == [] then Scan([], false) else ScanEvent(ScanLog(log[..|log| - 1]), log[|log| - 1])
  }

  function ApprovalsOf(log: seq<LogEvent>): seq<Approval> {
    var s := ScanLog(log);
    if s.open then s.approvals + [Approval(None)] else s.approvals
  }

  /** The loop of `buildReplayPacket` over the log. */
  method BuildApprovals(log: seq<LogEvent>) returns (approvals: seq<Approval>)
    ensures approvals == ApprovalsOf(log)
  {
    approvals := [];
    var open := false;
    for i := 0 to |log|
      invariant Scan(approvals, open) == ScanLog(log[..i])
    {
      assert log[..i + 1][..i] == log[..i];
      if log[i] == ApprovalRequested {
        open := true;
      } else if log[i].ApprovalResolved? && open {
        approvals := approvals + [Approval(Some(log[i].approved))];
        open := false;
      }
    }
    assert log[..|log|] == log;
    if open {
      approvals := approvals + [Approval(None)];
    }
  }

  /** What the packet of a run says about its gate. */
  function Expected(s: RunState): seq<Approval> {
    if s.executor == AtGate || s.executor.Settled? then [Approval(None)]
    else if PastGate(s) then [Approval(Some(s.cause == Some(ByApprove)))]
    else []
  }

  lemma ScanAppend(log: seq<LogEvent>, e: LogEvent)
    ensures ScanLog(log + [e]) == ScanEvent(ScanLog(log), e)
  {
    assert (log + [e])[..|log|] == log;
  }

  predicate PacketInv(s: RunState) {
    ScanLog(s.run.log) == if s.executor == AtGate || s.executor.Settled? then Scan([], true) else Scan(Expected(s), false)
  }

  predicate GateEvent(e: LogEvent) {
    e.ApprovalRequested? || e.ApprovalResolved?
  }

  lemma ScanAppends()
    ensures forall log: seq<LogEvent>, e: LogEvent | !GateEvent(e) :: ScanLog(log + [e]) == ScanLog(log)
    ensures forall log: seq<LogEvent> :: ScanLog(log + [ApprovalRequested]) == ScanLog(log).(open := true)
  {
    forall log: seq<LogEvent>, e: LogEvent
      ensures ScanLog(log + [e]) == ScanEvent(ScanLog(log), e)
    {
      ScanAppend(log, e);
    }
  }

  /** What the packet relies on: a gate not yet reached has no cause. */
  predicate Phases(s: RunState) {
    && (s.executor in {NotStarted, AtGate} ==> s.cause == None)
    && (s.executor.Settled? ==> s.cause.Some? && (s.executor.approved <==> s.cause == Some(ByApprove)))
    && (s.pending <==> s.executor == AtGate)
  }

  lemma PacketStart(s: RunState, a: Action)
    requires Phases(s) && PacketInv(s) && (a.StartGithub? || a.StartMac?)
    ensures PacketInv(Step(s, a))
  {
    hide ScanLog;
    ScanAppends();
  }

  lemma PacketHandler(s: RunState, a: Action)
    requires Phases(s) && PacketInv(s) && (a.Approve? || a.Reject? || a.Timeout? || a.Abort?)
    ensures PacketInv(Step(s, a))
  {
    hide ScanLog;
    ScanAppends();
  }

  lemma PacketResume(s: RunState, a: Action)
    requires Phases(s) && PacketInv(s) && (a.ResumeGithub? || a.ResumeMac?)
    ensures PacketInv(Step(s, a))
  {
    hide ScanLog;
    ScanAppends();
    if s.executor.Settled? {
      var e := ApprovalResolved(s.executor.approved);
      ScanAppend(s.run.log, e);
      assert [] + [Approval(Some(e.approved))] == [Approval(Some(e.approved))];
    }
  }

  lemma PacketFinish(s: RunState, a: Action)
    requires Phases(s) && PacketInv(s) && (a.FinishGithub? || a.FinishMac?)
    ensures PacketInv(Step(s, a))
  {
    hide ScanLog;
    ScanAppends();
  }

  lemma PacketStep(s: RunState, a: Action, initial: Status)
    requires Inv(s, initial) && PacketInv(s)
    ensures PacketInv(Step(s, a))
  {
    hide PacketInv, Step, DigestOf;
    if a.StartGithub? || a.StartMac? {
      PacketStart(s, a);
    } else if a.Approve? || a.Reject? || a.Timeout? || a.Abort? {
      PacketHandler(s, a);
    } else if a.ResumeGithub? || a.ResumeMac? {
      PacketResume(s, a);
    } else {
      PacketFinish(s, a);
    }
  }

  /** The replay packet of a run lists its one approval, with the decision that was taken. */
  lemma {:induction false} PacketTellsTheDecision(kind: Kind, allowed: bool, actions: seq<Action>)
    ensures PacketInv(Reached(kind, allowed, actions))
    ensures ApprovalsOf(Reached(kind, allowed, actions).run.log) == Expected(Reached(kind, allowed, actions))
  {
    hide Inv, Step, Created;
    if actions == [] {
      CreatedPacket(kind, allowed);
    } else {
      var front := actions[..|actions| - 1];
      PacketTellsTheDecision(kind, allowed, front);
      ReachedInv(kind, allowed, front);
      PacketStep(Reached(kind, allowed, front), actions[|actions| - 1], Initial(kind, allowed));
    }
    assert [] + [Approval(None)] == [Approval(None)];
  }

  lemma CreatedPacket(kind: Kind, allowed: bool)
    ensures PacketInv(Created(kind, allowed))
  {
    ScanAppend([], StepFailed(Guardrail));
    assert [] + [StepFailed(Guardrail)] == [StepFailed(Guardrail)];
  }
}
