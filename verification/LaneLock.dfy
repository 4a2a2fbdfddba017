/** What the task manager accepts: the lane-state lock and the lifecycle gates of src/tasks.ts, and what they
    make of the automatic blocks of the board health worker and of their rollbacks. */
module LaneLock {
  import opened BoardHealth
  import opened Text
  import opened Wrappers

  const VALIDATING: Status := OtherStatus("validating")

  /** `metadata.transition`; a field that is missing or not a string is empty here. */
  datatype Transition = Transition(kind: string, reason: string, handoffTo: string)

  /** The metadata that the checks look at. */
  datatype Metadata = Metadata(
    transition: Option<Transition>, bounces: Option<int>, eta: Option<string>, artifactPath: Option<string>)

  const NO_METADATA: Metadata := Metadata(None, None, None, None)

  datatype Task = Task(status: Status, assignee: string, reviewer: string, criteria: nat, metadata: Option<Metadata>)

  datatype Updates = Updates(status: Option<Status>, assignee: Option<string>, metadata: Option<Metadata>)

  function Or<T>(a: Option<T>, b: Option<T>): Option<T> {
    if a.Some? then a else b
  }

  function Given(metadata: Option<Metadata>): Metadata {
    if metadata.Some? then metadata.value else NO_METADATA
  }

  // ---------- the lock and the gates ----------

  /** The update names the transition, with a reason and, for a handoff, a new owner. */
  predicate Gives(u: Updates, kind: string) {
    var t := Given(u.metadata).transition;
    t.Some? && t.value.kind == kind && !Blank(t.value.reason) && (kind == "handoff" ==> !Blank(t.value.handoffTo))
  }

  function Bounces(t: Task): int {
    var n := Given(t.metadata).bounces;
    if n.Some? then n.value else 0
  }

  /** What a bounce stores: the metadata of the task, overridden by that of the update, and the new count. */
  function Bounced(t: Task, u: Updates): Metadata {
    var old_, new_ := Given(t.metadata), Given(u.metadata);
    Metadata(Or(new_.transition, old_.transition), Some(Bounces(t) + 1), Or(new_.eta, old_.eta),
      Or(new_.artifactPath, old_.artifactPath))
  }

  function NextStatus(t: Task, u: Updates): Status {
    if u.status.Some? then u.status.value else t.status
  }

  predicate HandsOver(t: Task, u: Updates) {
    t.status == Doing && NextStatus(t, u) == Doing && u.assignee.Some? && u.assignee.value != t.assignee
  }

  /** The transition that the change of status or owner has to name. */
  function Needed(t: Task, u: Updates): Option<string> {
    if t.status == Doing && NextStatus(t, u) == Blocked then Some("pause")
    else if t.status == Blocked && NextStatus(t, u) == Doing then Some("resume")
    else if HandsOver(t, u) then Some("handoff")
    else None
  }

  /** The third bounce needs a reason; the type of its transition is not looked at. */
  predicate BounceExplained(t: Task, u: Updates) {
    var transition := Given(u.metadata).transition;
    Bounces(t) >= 2 ==> transition.Some? && !Blank(transition.value.reason)
  }

  predicate Bounce(t: Task, u: Updates) {
    t.status == VALIDATING && NextStatus(t, u) == Doing
  }

  predicate TakesOver(u: Updates) {
    var t := Given(u.metadata).transition;
    u.assignee.Some? && !Blank(u.assignee.value) && t.Some? && Trim(t.value.handoffTo) == Trim(u.assignee.value)
  }

  predicate LockPasses(t: Task, u: Updates) {
    && (Bounce(t, u) ==> BounceExplained(t, u))
    && (Needed(t, u).Some? ==> Gives(u, Needed(t, u).value))
    && (HandsOver(t, u) ==> TakesOver(u))
  }

  predicate Canonical(path: string) {
    var p := Trim(path);
    "http://" <= p || "https://" <= p || ("process/" <= p && '\\' !in p && !TwoDots(p))
  }

  predicate TwoDots(s: string) {
    exists i | 0 <= i < |s| - 1 :: s[i] == '.' && s[i + 1] == '.'
  }

  /** `validateLifecycleGates`; what closing a duplicate needs is left out. */
  predicate GatesPass(t: Task) {
    var m := Given(t.metadata);
    t.status == Todo ||
    (t.criteria > 0 && !Blank(t.reviewer)
     && (t.status == Doing ==> m.eta.Some? && !Blank(m.eta.value))
     && (t.status == VALIDATING ==>
           m.artifactPath.Some? && !Blank(m.artifactPath.value) && Canonical(m.artifactPath.value)))
  }

  /** The task as it is stored when the update is accepted. */
  function Stored(t: Task, u: Updates): Task {
    var metadata := if Bounce(t, u) then Some(Bounced(t, u)) else Or(u.metadata, t.metadata);
    Task(NextStatus(t, u), if u.assignee.Some? then u.assignee.value else t.assignee, t.reviewer, t.criteria, metadata)
  }

  predicate Accepts(t: Task, u: Updates) {
    LockPasses(t, u) && GatesPass(Stored(t, u))
  }

  /** `updateTask`, up to the write: the lock changes the metadata to be stored, the gates look at the outcome. */
  method UpdateTask(t: Task, u: Updates) returns (r: Result<Task>)
    ensures r.Ok? <==> Accepts(t, u)
    ensures r.Ok? ==> r.value == Stored(t, u)
  {
    hide Blank, GatesPass, Trim;
    var next := if u.status.Some? then u.status.value else t.status;
    var transition := Given(u.metadata).transition;
    var metadata := Or(u.metadata, t.metadata);
    if t.status == VALIDATING && next == Doing {
      if Bounces(t) >= 2 {
        if transition == None {
          return Err("Bounce gate: metadata.transition");
        }
        if Blank(transition.value.reason) {
          return Err("Bounce gate: metadata.transition.reason");
        }
      }
      metadata := Some(Bounced(t, u));
    }
    if t.status == Doing && next == Blocked {
      if !Gives(u, "pause") {
        return Err("Lane-state lock: doing->blocked");
      }
    } else if t.status == Blocked && next == Doing {
      if !Gives(u, "resume") {
        return Err("Lane-state lock: blocked->doing");
      }
    } else if t.status == Doing && next == Doing && u.assignee.Some? && u.assignee.value != t.assignee {
      if !Gives(u, "handoff") {
        return Err("Lane-state lock: doing handoff");
      }
      if Blank(u.assignee.value) || Trim(transition.value.handoffTo) != Trim(u.assignee.value) {
        return Err("Lane-state lock: assignee");
      }
    }
    var assignee := if u.assignee.Some? then u.assignee.value else t.assignee;
    var updated := Task(next, assignee, t.reviewer, t.criteria, metadata);
    if !GatesPass(updated) {
      return Err("Lifecycle gate");
    }
    r := Ok(updated);
  }

  // ---------- the changes one by one ----------

  /** Work on a task in progress is paused exactly with a reason for it. */
  lemma PauseTold(t: Task, m: Metadata)
    requires t.status == Doing
    ensures Accepts(t, Updates(Some(Blocked), None, Some(m)))
       <==> m.transition.Some? && m.transition.value.kind == "pause" && !Blank(m.transition.value.reason)
            && t.criteria > 0 && !Blank(t.reviewer)
    ensures Stored(t, Updates(Some(Blocked), None, Some(m))) == t.(status := Blocked, metadata := Some(m))
  {
    hide Blank;
  }

  /** A blocked task is resumed exactly with a reason for that, and with a time by which it will be done. */
  lemma ResumeTold(t: Task, m: Metadata)
    requires t.status == Blocked
    ensures Accepts(t, Updates(Some(Doing), None, Some(m)))
       <==> m.transition.Some? && m.transition.value.kind == "resume" && !Blank(m.transition.value.reason)
            && t.criteria > 0 && !Blank(t.reviewer) && m.eta.Some? && !Blank(m.eta.value)
    ensures Stored(t, Updates(Some(Doing), None, Some(m))) == t.(status := Doing, metadata := Some(m))
  {
    hide Blank;
  }

  /** A task in progress changes hands exactly with a reason, to the owner that the transition names. */
  lemma HandoffTold(t: Task, to: string, m: Metadata)
    requires t.status == Doing && to != t.assignee
    ensures Accepts(t, Updates(None, Some(to), Some(m)))
       <==> m.transition.Some? && m.transition.value.kind == "handoff" && !Blank(m.transition.value.reason)
            && !Blank(to) && Trim(m.transition.value.handoffTo) == Trim(to)
            && t.criteria > 0 && !Blank(t.reviewer) && m.eta.Some? && !Blank(m.eta.value)
    ensures Stored(t, Updates(None, Some(to), Some(m))) == t.(assignee := to, metadata := Some(m))
  {
    hide Trim;
    TrimCuts(to);
    if m.transition.Some? {
      TrimCuts(m.transition.value.handoffTo);
    }
  }

  /** A task goes back from review to work; the third time it needs a reason. Each time is counted, and what the
      update leaves out of the metadata is kept. */
  lemma BounceTold(t: Task, m: Metadata)
    requires t.status == OtherStatus("validating") && t.metadata.Some?
    ensures var u, old_ := Updates(Some(Doing), None, Some(m)), t.metadata.value;
            var n := if old_.bounces == None then 0 else old_.bounces.value;
            var eta := if m.eta == None then old_.eta else m.eta;
            (Accepts(t, u)
             <==> (n < 2 || (m.transition.Some? && !Blank(m.transition.value.reason)))
                  && t.criteria > 0 && !Blank(t.reviewer) && eta.Some? && !Blank(eta.value))
            && Stored(t, u) == t.(status := Doing, metadata := Some(Metadata(
                 if m.transition == None then old_.transition else m.transition, Some(n + 1), eta,
                 if m.artifactPath == None then old_.artifactPath else m.artifactPath)))
  {
    hide Blank;
  }

  /** A task in progress goes into review exactly with an artifact: a web address, or a path below `process/` that
      does not climb out of it. */
  lemma ReviewTold(t: Task, m: Metadata)
    requires t.status == Doing
    ensures Accepts(t, Updates(Some(OtherStatus("validating")), None, Some(m)))
       <==> t.criteria > 0 && !Blank(t.reviewer) && m.artifactPath.Some? && !Blank(m.artifactPath.value)
            && var path := Trim(m.artifactPath.value);
               "https://" <= path || "http://" <= path
               || ("process/" <= path && '\\' !in path
                   && forall i | 0 <= i < |path| - 1 :: path[i] != '.' || path[i + 1] != '.')
  {
    hide Blank, Trim;
  }

  /** Moving a task back into the queue needs nothing. */
  lemma QueueTold(t: Task, m: Option<Metadata>)
    ensures Accepts(t, Updates(Some(Todo), None, m))
  {
  }

  // ---------- automatic blocks and their rollbacks ----------

  /** The update of an automatic block; it repeats the metadata of the task, the transition among them. */
  function BlockOf(t: Task): Updates {
    Updates(Some(Blocked), None, Some(Given(t.metadata)))
  }

  /** The update of its rollback; it writes the saved status and metadata back. */
  function RollbackOf(saved: Task): Updates {
    Updates(Some(saved.status), None, Some(Given(saved.metadata)))
  }

  /** A task in progress can be blocked automatically exactly if a pause is still named in its own metadata, and it
      has criteria and a reviewer. */
  lemma BlockAcceptedIff(t: Task)
    requires t.status == Doing
    ensures Accepts(t, BlockOf(t)) <==> Gives(BlockOf(t), "pause") && t.criteria > 0 && !Blank(t.reviewer)
  {
    hide Blank;
  }

  /** The time that the rollback leaves in the task: the saved one, or when a review bounces, else the present one. */
  function EtaAfter(saved: Task, present: Task): Option<string> {
    var eta := Given(saved.metadata).eta;
    if present.status == VALIDATING then Or(eta, Given(present.metadata).eta) else eta
  }

  /**
   * The rollback of a block is accepted exactly if the task is not blocked any more, besides having what a
   * task in progress needs: while it is blocked, the lock asks for a resume, but the saved metadata name
   * the pause that let the block pass.
   */
  lemma RollbackAcceptedIff(saved: Task, present: Task)
    requires saved.status == Doing && Accepts(saved, BlockOf(saved))
    ensures Accepts(present, RollbackOf(saved))
       <==> present.status != Blocked && present.criteria > 0 && !Blank(present.reviewer)
            && EtaAfter(saved, present).Some? && !Blank(EtaAfter(saved, present).value)
  {
    hide Blank;
    assert "pause" != "resume";
  }

  /**
   * With the verdicts of the lock, no rollback of an automatic block succeeds while its task is blocked,
   * whatever has happened since; `saved` is the task that was blocked, `present` what has become of it.
   */
  lemma BlockedCannotBeRolledBack(config: Config, b: Board, c: Candidate, now: int, ops: seq<Op>, later: int,
      saved: Task, present: Task)
    requires Numbered(b) && Block(config, Work(b, 0), c, now, false).count == 1 && IsIn(b.tasks, c.task, {Doing})
    requires saved.status == b.tasks[c.task] && Accepts(saved, BlockOf(saved))
    requires var t := Run(config, Block(config, Work(b, 0), c, now, false).board, ops);
             IsIn(t.tasks, c.task, {Blocked}) && present.status == t.tasks[c.task]
    ensures Refuses(config, Run(config, Block(config, Work(b, 0), c, now, false).board, ops), b.nextId, later,
              Accepts(present, RollbackOf(saved)))
  {
    hide Run, Block, Refuses, Accepts;
    RollbackAcceptedIff(saved, present);
    UnacceptedIsRefused(config, b, c, now, false, ops, later);
  }
}
