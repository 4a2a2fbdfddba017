/** When the board health worker acts (src/boardHealthWorker.ts): its quiet hours, and the blocks, suggestions and
    rollbacks one by one, told from the audit log. */
module BoardRules {
  import opened BoardHealth
  import opened Wrappers

  /** A tick that is not forced is skipped exactly on the arc of the clock from the start of the quiet hours up to,
      and without, their end. */
  lemma QuietIsArc(config: Config, i: TickInput)
    requires 0 <= i.hour <= 23 && 0 <= config.quietStart <= 23 && 0 <= config.quietEnd <= 23
    ensures Skips(config, i)
       <==> !i.force && (i.hour - config.quietStart) % 24 < (config.quietEnd - config.quietStart) % 24
  {
  }

  /** No action of the kind on the task that still stands is younger than the span. */
  predicate NoneStands(log: seq<Action>, kind: Kind, task: string, span: int, now: int) {
    forall i | 0 <= i < |log| && log[i].kind == kind && log[i].task == task && !log[i].rolledBack ::
      now >= log[i].appliedAt + span
  }

  lemma RecentIff(log: seq<Action>, kind: Kind, task: string, span: int, now: int)
    ensures Recent(log, kind, task, span, now) <==> !NoneStands(log, kind, task, span, now)
  {
    if !NoneStands(log, kind, task, span, now) {
      var i :| 0 <= i < |log| && log[i].kind == kind && log[i].task == task && !log[i].rolledBack
               && now < log[i].appliedAt + span;
      assert StillCounts(log[i], kind, task, span, now);
    }
  }

  /** What one block does: unless an earlier one stands, the task is blocked (when it is no dry block and is not
      refused), and recorded with its status (when nothing throws after that). */
  lemma BlockTold(config: Config, w: Work, c: Candidate, now: int, dryRun: bool)
    ensures var b, t := w.board, Block(config, w, c, now, dryRun);
            var free := NoneStands(b.log, AutoBlock, c.task, config.rollbackWindowMs, now);
            t.board.tasks == (if free && !dryRun && c.effect != Refused then b.tasks[c.task := Blocked] else b.tasks)
            && (if free && (dryRun || c.effect == Done)
                then t.count == w.count + 1 && t.board.nextId == b.nextId + 1
                     && t.board.log == b.log + [Action(b.nextId, AutoBlock, c.task,
                          if c.task in b.tasks then Some(b.tasks[c.task]) else None, now, false, None, "")]
                else t.count == w.count && t.board.log == b.log && t.board.nextId == b.nextId)
  {
    hide Recent, NoneStands;
    RecentIff(w.board.log, AutoBlock, c.task, config.rollbackWindowMs, now);
  }

  /** What one suggestion does: unless one of the last day stands, it is recorded; it changes no task. */
  lemma SuggestTold(w: Work, c: Candidate, now: int, dryRun: bool)
    ensures var b, t := w.board, Suggest(w, c, now, dryRun);
            t.board.tasks == b.tasks
            && (if NoneStands(b.log, SuggestClose, c.task, 86_400_000, now) && (dryRun || c.effect == Done)
                then t.count == w.count + 1 && t.board.nextId == b.nextId + 1
                     && t.board.log == b.log + [Action(b.nextId, SuggestClose, c.task, None, now, false, None, "")]
                else t == w)
  {
    hide Recent, NoneStands;
    RecentIff(w.board.log, SuggestClose, c.task, 86_400_000, now);
  }

  /** The rollback of the action is due: it is the first and in time, and of a kind that can be taken back. */
  predicate Due(config: Config, a: Action, now: int, accepted: bool) {
    !a.rolledBack && now <= a.appliedAt + config.rollbackWindowMs
    && (a.kind == SuggestClose || (a.kind == AutoBlock && a.task != "" && a.previous.Some? && accepted))
  }

  /** What a rollback does: it marks the action, and gives a blocked task its earlier status back. */
  lemma RollbackTold(config: Config, b: Board, k: nat, who: string, now: int, accepted: bool)
    requires Numbered(b) && k < |b.log|
    ensures var a, t := b.log[k], RolledBack(config, b, b.log[k].id, who, now, accepted);
            if Due(config, a, now, accepted)
            then t.log == b.log[k := Action(a.id, a.kind, a.task, a.previous, a.appliedAt, true, Some(now), who)]
                 && t.tasks == (if a.kind == AutoBlock then b.tasks[a.task := a.previous.value] else b.tasks)
                 && t.pruned == b.pruned && t.nextId == b.nextId
            else t == b
  {
    assert IndexOf(b.log, b.log[k].id) == k;
  }

  // ---------- whom a tick acts on ----------

  /** The entry is of another kind, or of a candidate of its policy that is not excluded. */
  predicate Chosen(a: Action, i: TickInput, before: map<string, Status>, between: map<string, Status>) {
    && (a.kind == AutoBlock ==> exists k | 0 <= k < |i.inactive| ::
          i.inactive[k].task == a.task && !i.inactive[k].excluded && a.task in before && before[a.task] == Doing)
    && (a.kind == SuggestClose ==> exists k | 0 <= k < |i.abandoned| ::
          i.abandoned[k].task == a.task && !i.abandoned[k].excluded
          && a.task in between && (between[a.task] == Todo || between[a.task] == Blocked))
  }

  lemma {:induction false} HavingTold(tasks: map<string, Status>, cs: seq<Candidate>, statuses: set<Status>)
    ensures forall c :: c in Having(tasks, cs, statuses)
              <==> c in cs && c.task in tasks && tasks[c.task] in statuses
  {
    if cs != [] {
      assert cs == [cs[0]] + cs[1..];
      HavingTold(tasks, cs[1..], statuses);
    }
  }

  lemma {:induction false} BlockAllChosen(config: Config, w: Work, cs: seq<Candidate>, now: int, dryRun: bool)
    ensures var t := BlockAll(config, w, cs, now, dryRun).board;
            w.board.log <= t.log
            && forall j | |w.board.log| <= j < |t.log| ::
                 t.log[j].kind == AutoBlock && exists c :: c in cs && c.task == t.log[j].task && !c.excluded
    decreases |cs|
  {
    hide Recent;
    if cs != [] && w.count < config.maxActionsPerTick {
      assert cs == [cs[0]] + cs[1..];
      BlockAllChosen(config, if cs[0].excluded then w else Block(config, w, cs[0], now, dryRun), cs[1..], now, dryRun);
    }
  }

  lemma {:induction false} SuggestAllChosen(config: Config, w: Work, cs: seq<Candidate>, now: int, dryRun: bool)
    ensures var t := SuggestAll(config, w, cs, now, dryRun).board;
            w.board.log <= t.log
            && forall j | |w.board.log| <= j < |t.log| ::
                 t.log[j].kind == SuggestClose && exists c :: c in cs && c.task == t.log[j].task && !c.excluded
    decreases |cs|
  {
    hide Recent;
    if cs != [] && w.count < config.maxActionsPerTick {
      assert cs == [cs[0]] + cs[1..];
      SuggestAllChosen(config, if cs[0].excluded then w else Suggest(w, cs[0], now, dryRun), cs[1..], now, dryRun);
    }
  }

  lemma {:induction false} OthersAreOther(b: Board, names: seq<string>, now: int)
    ensures var t := AddOthers(b, names, now);
            b.log <= t.log && forall j | |b.log| <= j < |t.log| :: t.log[j].kind.OtherKind?
  {
    if names != [] {
      OthersAreOther(b, names[..|names| - 1], now);
    }
  }

  /** A tick only adds to the log: blocks of inactive tasks in progress, suggestions for abandoned tasks that are
      waiting or blocked after that, and entries of other kinds; never for the tasks of test runs. */
  lemma TickChooses(config: Config, b: Board, i: TickInput)
    ensures var t, between := Ticked(config, b, i), BlockAll(config, Work(b, 0), Having(b.tasks, i.inactive, {Doing}),
              i.now, i.dryRun).board.tasks;
            b.log <= t.log && forall j | |b.log| <= j < |t.log| :: Chosen(t.log[j], i, b.tasks, between)
  {
    hide BlockAll, SuggestAll, AddOthers, Having, IsQuiet, TasksAfter;
    var stale := Having(b.tasks, i.inactive, {Doing});
    var w := BlockAll(config, Work(b, 0), stale, i.now, i.dryRun);
    var abandoned := Having(w.board.tasks, i.abandoned, {Todo, Blocked});
    HavingTold(b.tasks, i.inactive, {Doing});
    HavingTold(w.board.tasks, i.abandoned, {Todo, Blocked});
    BlockAllChosen(config, Work(b, 0), stale, i.now, i.dryRun);
    SuggestAllChosen(config, w, abandoned, i.now, i.dryRun);
    OthersAreOther(Policies(config, b, i).board, i.others, i.now);
  }
}
